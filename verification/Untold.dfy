/** Which connected client does not know that its window is the focused one, over any run: exactly one
    that got the window back while the server counted it as focused already. */
module Untold {
  import opened Transport
  import opened Books
  import opened SceneBasics
  import SceneProofs
  import opened Session
  import opened SessionProofs
  import opened SessionBoot
  import opened Tokens
  import opened FocusHistory
  import FocusReports
  import Modes
  import Requests

  /** Slot j of client c names window id. */
  predicate NamesWindow(cs: seq<Client>, c: nat, j: nat, id: nat) {
    c < |cs| && j < |cs[c].wins| && cs[c].wins[j].wid != 0 && cs[c].wins[j].serverId == id
  }

  /** The event gets a table back that holds window id. */
  ghost predicate GetsBack(s: Sys, e: Session.Event, id: nat) {
    exists o :: 0 <= o < |s.tp.orphans| && Reclaims(s, e, s.tp.orphans[o].token) && id in Held(s.tp.orphans[o].wins)
  }

  lemma {:induction false} ToldSince(a: seq<Transport.Event>, b: seq<Transport.Event>, n: nat, id: nat)
    requires QuietSince(a, b) && |a| <= n <= |b|
    ensures ToldUpTo(b, n, id) == Told(a, id)
  {
    if n == |a| { ToldPrefix(a, b, n, id); } else { ToldSince(a, b, n - 1, id); }
  }

  lemma {:induction false} NotTold(sent: seq<Transport.Event>, n: nat, id: nat)
    requires n <= |sent| && forall k | 0 <= k < |sent| :: !sent[k].FocusEvent?
    ensures !ToldUpTo(sent, n, id)
  {
    if n > 0 { NotTold(sent, n - 1, id); }
  }

  // ---- one step ------------------------------------------------------------------------------

  /** Client c's slot j names id after the step; it did before and nothing was said since, or the
      step got the table back and nothing was said yet. */
  ghost predicate SameOrBack(s: Sys, e: Session.Event, ds: seq<Client>, c: nat, j: nat, id: nat)
    requires c < |ds|
  {
    || (NamesWindow(s.tp.clients, c, j, id) && Told(ds[c].sent, id) == Told(s.tp.clients[c].sent, id))
    || (GetsBack(s, e, id) && !Told(ds[c].sent, id))
  }

  lemma PlainSame(s: Sys, e: Session.Event, ds: seq<Client>, c: nat, j: nat, id: nat)
    requires AllPlain(s, e, ds) && NamesWindow(ds, c, j, id)
    ensures SameOrBack(s, e, ds, c, j, id)
  {
    hide Reclaims;
    assert Plain(s, e, s.tp.clients[c], ds[c]);
    if Continues(s.tp.clients[c], ds[c]) {
      ToldSince(s.tp.clients[c].sent, ds[c].sent, |ds[c].sent|, id);
      assert SameName(s.tp.clients[c].wins[j], ds[c].wins[j]);
    } else {
      NotTold(ds[c].sent, |ds[c].sent|, id);
      HeldIn(ds[c].wins, j);
    }
  }

  lemma NamedSame(s: Sys, e: Session.Event, ci: nat, wid: nat, id: nat, mid: Tp, c: nat, j: nat, x: nat)
    requires Named(s, ci, wid, id, mid) && x != id && NamesWindow(mid.clients, c, j, x)
    ensures SameOrBack(s, e, mid.clients, c, j, x)
  {
    if c == ci { ToldSince(s.tp.clients[c].sent, mid.clients[c].sent, |mid.clients[c].sent|, x); }
  }

  /** While the server's report stays, what the holder was told stays, unless it just got the window
      back: then it was told nothing. */
  lemma Unreported(s: Sys, e: Session.Event, c: nat, j: nat)
    requires SysOk(s) && Step(s, e).tp.focused == s.tp.focused && NamesWindow(Step(s, e).tp.clients, c, j, s.tp.focused)
    ensures SameOrBack(s, e, Step(s, e).tp.clients, c, j, s.tp.focused)
  {
    hide Step, SysOk, NotifyFocus, Makes, Named, SameOrBack, AllPlain;
    var t, f := Step(s, e), s.tp.focused;
    if e.Sync? {
      SyncSame(s, c, j);
    } else if Makes(s, e) {
      var ci, wid, mid, normal := MakeReports(s, e);
      FocusedKnown(s);
      NotifyIs(mid, s.st.nextId);
      NamedSame(s, e, ci, wid, s.st.nextId, mid, c, j, f);
    } else {
      StepPlain(s, e);
      PlainSame(s, e, t.tp.clients, c, j, f);
    }
  }

  lemma MidFocused(s: Sys, ci: nat, wid: nat, id: nat, mid: Tp)
    requires Named(s, ci, wid, id, mid)
    ensures mid.focused == s.tp.focused
  {
  }

  lemma FocusedKnown(s: Sys)
    requires SysOk(s)
    ensures s.tp.focused < s.st.nextId
  {
  }

  lemma NotifyIs(tp: Tp, id: nat)
    ensures NotifyFocus(tp, id).focused == id && (id == tp.focused ==> NotifyFocus(tp, id) == tp)
  {
  }

  lemma SyncSame(s: Sys, c: nat, j: nat)
    requires Step(s, Sync).tp.focused == s.tp.focused && NamesWindow(Step(s, Sync).tp.clients, c, j, s.tp.focused)
    ensures SameOrBack(s, Sync, Step(s, Sync).tp.clients, c, j, s.tp.focused)
  {
    hide Step, NotifyFocus;
    SyncClients(s);
    SyncReportsThen(s, c);
    NotifyIs(s.tp, s.st.focus);
    ToldSince(s.tp.clients[c].sent, Step(s, Sync).tp.clients[c].sent, |Step(s, Sync).tp.clients[c].sent|, s.tp.focused);
  }

  lemma SyncClients(s: Sys)
    ensures |Step(s, Sync).tp.clients| == |s.tp.clients|
  {
    hide Step;
    SyncOwner(s, 0);
  }

  /** When the report changes, the holder of the newly focused window is told. */
  lemma Reported(s: Sys, e: Session.Event, c: nat, j: nat)
    requires SysOk(s) && Step(s, e).tp.focused != s.tp.focused && NamesWindow(Step(s, e).tp.clients, c, j, Step(s, e).tp.focused)
    ensures Told(Step(s, e).tp.clients[c].sent, Step(s, e).tp.focused)
  {
    hide Step, SysOk, NotifyFocus, Makes, Named, AllPlain, FindOwner;
    var t := Step(s, e);
    StepKeeps(s, e);
    assert SceneProofs.SceneOk(SceneOf(t)) by { Parts(t); }
    Requests.SlotOwner(SceneOf(t), c, j);
    if e.Sync? {
      SyncOwner(s, s.st.focus);
      FocusReports.SyncReports(s);
    } else if Makes(s, e) {
      var ci, wid, mid, normal := MakeReports(s, e);
      var id := s.st.nextId;
      MidFocused(s, ci, wid, id, mid);
      NotifyIs(mid, id);
      Requests.NotifySent(mid, id);
      SameOwners(mid.clients, t.tp.clients, id);
      FocusReports.NotifyTells(mid, id, c, j);
    } else {
      StepPlain(s, e);
    }
  }

  lemma SameOwners(cs: seq<Client>, ds: seq<Client>, id: nat)
    requires OnlySent(cs, ds)
    ensures FindOwner(ds, id) == FindOwner(cs, id)
  {
    FocusReports.OwnerSame(cs, ds, id, 0);
  }

  // ---- over runs -------------------------------------------------------------------------------

  /** Some step before n got the window back while it counted as focused, and nothing else was
      reported since. */
  ghost predicate BackAt(s: Sys, es: seq<Session.Event>, n: nat, id: nat, k: nat)
    requires n <= |es|
  {
    k < n && GetsBack(RunTo(s, es, k), es[k], id) && forall m: nat | k <= m <= n :: RunTo(s, es, m).tp.focused == id
  }

  /** Every slot that names the focused window belongs to a client that was told. */
  ghost predicate AllTold(s: Sys) {
    forall c: nat, j: nat | NamesWindow(s.tp.clients, c, j, s.tp.focused) :: Told(s.tp.clients[c].sent, s.tp.focused)
  }

  /** An untold holder got its window back that way. */
  lemma {:induction false} UntoldCause(s: Sys, es: seq<Session.Event>, n: nat, c: nat, j: nat) returns (k: nat)
    requires SysOk(s) && AllTold(s) && n <= |es|
    requires var t := RunTo(s, es, n); NamesWindow(t.tp.clients, c, j, t.tp.focused) && !Told(t.tp.clients[c].sent, t.tp.focused)
    ensures BackAt(s, es, n, RunTo(s, es, n).tp.focused, k)
    decreases n
  {
    hide Step, SysOk, GetsBack;
    k := 0;
    if n > 0 {
      var u, t := RunTo(s, es, n - 1), RunTo(s, es, n);
      RunKeeps(s, es, n - 1);
      if t.tp.focused != u.tp.focused { Reported(u, es[n - 1], c, j); }
      Unreported(u, es[n - 1], c, j);
      if GetsBack(u, es[n - 1], t.tp.focused) {
        k := n - 1;
      } else {
        k := UntoldCause(s, es, n - 1, c, j);
      }
    }
  }

  /** A window an orphan holds is named by no client. */
  lemma OrphanNotClient(s: Sys, e: Session.Event, c: nat, j: nat, id: nat)
    requires SysOk(s) && GetsBack(s, e, id) && c < |s.tp.clients| && j < |s.tp.clients[c].wins|
    ensures !NamesWindow(s.tp.clients, c, j, id)
  {
    hide Reclaims;
    var o :| 0 <= o < |s.tp.orphans| && Reclaims(s, e, s.tp.orphans[o].token) && id in Held(s.tp.orphans[o].wins);
    var tabs := Tabs(s.tp.clients, s.tp.orphans);
    assert tabs[c] == s.tp.clients[c].wins && tabs[|s.tp.clients| + o] == s.tp.orphans[o].wins;
    assert Held(tabs[c]) !! Held(tabs[|s.tp.clients| + o]);
    assert id !in Held(s.tp.clients[c].wins);
    if s.tp.clients[c].wins[j].wid != 0 { HeldIn(s.tp.clients[c].wins, j); }
  }

  /** And whoever got it back that way is untold. */
  lemma {:induction false} BackUntold(s: Sys, es: seq<Session.Event>, k: nat, n: nat, id: nat, c: nat, j: nat)
    requires SysOk(s) && n <= |es| && BackAt(s, es, n, id, k) && NamesWindow(RunTo(s, es, n).tp.clients, c, j, id)
    ensures !Told(RunTo(s, es, n).tp.clients[c].sent, id)
    decreases n
  {
    hide Step, SysOk, GetsBack;
    var u := RunTo(s, es, n - 1);
    RunKeeps(s, es, n - 1);
    assert RunTo(s, es, n).tp.focused == id == u.tp.focused;
    Unreported(u, es[n - 1], c, j);
    if k == n - 1 {
      if c < |u.tp.clients| && j < |u.tp.clients[c].wins| { OrphanNotClient(u, es[n - 1], c, j, id); }
    } else if NamesWindow(u.tp.clients, c, j, id) {
      BackUntold(s, es, k, n - 1, id, c, j);
    }
  }

  /** Over any run from boot: a connected client that holds the window the server last reported as
      focused has not been told so if and only if some step got the window back by a token while it
      counted as focused, and no other focus was reported since. */
  lemma UntoldIff(mode: Modes.Mode, demo: bool, garbage: nat, es: seq<Session.Event>, n: nat, c: nat, j: nat)
    requires mode.hdisplay >= 1 && mode.vdisplay >= 1 && n <= |es|
    requires var t := RunTo(Boot(mode, demo, garbage), es, n); NamesWindow(t.tp.clients, c, j, t.tp.focused)
    ensures var b := Boot(mode, demo, garbage);
            var t := RunTo(b, es, n);
            !Told(t.tp.clients[c].sent, t.tp.focused) <==> exists k: nat :: BackAt(b, es, n, t.tp.focused, k)
  {
    hide Step, Boot, SysOk, BackAt;
    var b := Boot(mode, demo, garbage);
    var t := RunTo(b, es, n);
    BootOk(mode, demo, garbage);
    BootTold(mode, demo, garbage);
    if !Told(t.tp.clients[c].sent, t.tp.focused) {
      var k := UntoldCause(b, es, n, c, j);
      assert BackAt(b, es, n, t.tp.focused, k);
    } else {
      forall k: nat ensures !BackAt(b, es, n, t.tp.focused, k) {
        if BackAt(b, es, n, t.tp.focused, k) { BackUntold(b, es, k, n, t.tp.focused, c, j); }
      }
    }
  }

  lemma BootTold(mode: Modes.Mode, demo: bool, garbage: nat)
    ensures AllTold(Boot(mode, demo, garbage))
  {
  }
}
