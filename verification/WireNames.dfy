/** Focus as a client sees it: CL_FOCUS names a window by the client's own wid, not by the server's id.
    The two agree on a connection that does not use a wid again. */
module WireNames {
  import opened Windows
  import opened Transport
  import opened Books
  import opened SceneBasics
  import opened Session
  import opened SessionProofs
  import opened SessionBoot
  import opened Tokens
  import opened Reconnect
  import opened FocusHistory
  import FocusReports
  import Modes
  import Requests
  import SceneProofs
  import Snaps

  /** What the first n messages last said about the focus of the window called wid. */
  ghost predicate ToldWidUpTo(sent: seq<Transport.Event>, n: nat, wid: nat)
    requires n <= |sent|
  {
    if n == 0 then false
    else if sent[n - 1].FocusEvent? && sent[n - 1].wid == wid then sent[n - 1].gained
    else ToldWidUpTo(sent, n - 1, wid)
  }

  /** All the client knows: the last CL_FOCUS about this wid said focused. */
  ghost predicate ToldWid(sent: seq<Transport.Event>, wid: nat) { ToldWidUpTo(sent, |sent|, wid) }

  /** The two names agree in what a client heard about one of its windows. */
  ghost predicate Agrees(m: Transport.Event, w: ClWin) {
    m.FocusEvent? && w.wid != 0 ==> (m.wid == w.wid <==> m.serverId == w.serverId)
  }

  ghost predicate WidsApart(t: Table) {
    forall i, j | 0 <= i < j < |t| && t[i].wid != 0 :: t[i].wid != t[j].wid
  }

  ghost predicate ClientNames(c: Client, nextId: nat) {
    && WidsApart(c.wins)
    && (forall k, j | 0 <= k < |c.sent| && 0 <= j < |c.wins| :: Agrees(c.sent[k], c.wins[j]))
    && (forall k | 0 <= k < |c.sent| && c.sent[k].FocusEvent? :: c.sent[k].serverId < nextId)
  }

  ghost predicate NamesOk(s: Sys) {
    && (forall i | 0 <= i < |s.tp.clients| :: ClientNames(s.tp.clients[i], s.st.nextId))
    && (forall o | 0 <= o < |s.tp.orphans| :: WidsApart(s.tp.orphans[o].wins))
  }

  lemma {:induction false} WidIsId(sent: seq<Transport.Event>, n: nat, w: ClWin)
    requires n <= |sent| && w.wid != 0 && forall k | 0 <= k < |sent| :: Agrees(sent[k], w)
    ensures ToldWidUpTo(sent, n, w.wid) == ToldUpTo(sent, n, w.serverId)
  {
    if n > 0 {
      assert Agrees(sent[n - 1], w);
      WidIsId(sent, n - 1, w);
    }
  }

  lemma {:induction false} WidQuiet(a: seq<Transport.Event>, b: seq<Transport.Event>, n: nat, wid: nat)
    requires QuietSince(a, b) && |a| <= n <= |b|
    ensures ToldWidUpTo(b, n, wid) == ToldWid(a, wid)
  {
    if n == |a| { WidPrefix(a, b, n, wid); } else { WidQuiet(a, b, n - 1, wid); }
  }

  lemma {:induction false} WidPrefix(a: seq<Transport.Event>, b: seq<Transport.Event>, n: nat, wid: nat)
    requires n <= |a| <= |b| && b[..|a|] == a
    ensures ToldWidUpTo(a, n, wid) == ToldWidUpTo(b, n, wid)
  {
    if n > 0 {
      assert b[..|a|][n - 1] == b[n - 1];
      WidPrefix(a, b, n - 1, wid);
    }
  }

  lemma {:induction false} WidHeard(sent: seq<Transport.Event>, n: nat, wid: nat)
    requires n <= |sent| && ToldWidUpTo(sent, n, wid)
    ensures exists k :: 0 <= k < n && sent[k].FocusEvent? && sent[k].wid == wid
  {
    if !(sent[n - 1].FocusEvent? && sent[n - 1].wid == wid) { WidHeard(sent, n - 1, wid); }
  }

  // ---- one client -----------------------------------------------------------------------------

  lemma SubTable(a: Table, b: Table)
    requires WidsApart(a) && |b| == |a| && forall j | 0 <= j < |b| && b[j].wid != 0 :: SameName(a[j], b[j])
    ensures WidsApart(b)
  {
  }

  lemma KeptNames(c: Client, d: Client, nextId: nat, later: nat)
    requires ClientNames(c, nextId) && Continues(c, d) && nextId <= later
    ensures ClientNames(d, later)
  {
    SubTable(c.wins, d.wins);
    forall k | 0 <= k < |d.sent| && d.sent[k].FocusEvent? ensures k < |c.sent| && d.sent[k] == c.sent[k] {
      if k < |c.sent| { assert d.sent[..|c.sent|][k] == d.sent[k]; }
    }
    forall k, j | 0 <= k < |d.sent| && 0 <= j < |d.wins| ensures Agrees(d.sent[k], d.wins[j]) {
      if d.sent[k].FocusEvent? && d.wins[j].wid != 0 { assert Agrees(c.sent[k], c.wins[j]) && SameName(c.wins[j], d.wins[j]); }
    }
  }

  lemma FreshNames(d: Client, nextId: nat)
    requires NoFocusYet(d) && WidsApart(d.wins)
    ensures ClientNames(d, nextId)
  {
  }

  lemma EmptyApart(t: Table)
    requires Empty(t)
    ensures WidsApart(t)
  {
  }

  /** The client hears about the focus of a window it holds. */
  lemma ToldNames(c: Client, j: nat, gained: bool, nextId: nat)
    requires ClientNames(c, nextId) && j < |c.wins| && c.wins[j].wid != 0 && c.wins[j].serverId < nextId && Injective(c.wins)
    ensures ClientNames(c.(sent := c.sent + [FocusEvent(c.wins[j].wid, c.wins[j].serverId, gained)]), nextId)
  {
  }

  lemma TellNames(cs: seq<Client>, id: nat, gained: bool, nextId: nat, i: nat)
    requires i < |cs| && ClientNames(cs[i], nextId) && Injective(cs[i].wins) && id < nextId
    ensures |TellFocus(cs, id, gained)| == |cs| && ClientNames(TellFocus(cs, id, gained)[i], nextId)
  {
    var o := FindOwner(cs, id);
    if o.Owner? && o.client == i { ToldNames(cs[i], o.slot, gained, nextId); }
  }

  lemma NotifyNames(tp: Tp, id: nat, nextId: nat, i: nat)
    requires i < |tp.clients| && ClientNames(tp.clients[i], nextId) && Injective(tp.clients[i].wins)
    requires id < nextId && tp.focused < nextId
    ensures |NotifyFocus(tp, id).clients| == |tp.clients| && ClientNames(NotifyFocus(tp, id).clients[i], nextId)
  {
    hide TellFocus, ClientNames, Injective;
    if id != tp.focused {
      var ds := TellFocus(tp.clients, tp.focused, false);
      TellNames(tp.clients, tp.focused, false, nextId, i);
      TellSends(tp.clients, tp.focused, false);
      TellNames(ds, id, true, nextId, i);
    }
  }

  // ---- one step --------------------------------------------------------------------------------

  /** The event makes a window under a wid whose focus this connection has heard of before. */
  ghost predicate ReusesWid(s: Sys, e: Session.Event) {
    && Makes(s, e) && e.datagram.body.wid != 0
    && var c := s.tp.clients[ClientByFd(s.tp.clients, e.fd)];
       exists k :: 0 <= k < |c.sent| && c.sent[k].FocusEvent? && c.sent[k].wid == e.datagram.body.wid
  }

  lemma NewName(c: Client, d: Client, j: nat, wid: nat, id: nat)
    requires ClientNames(c, id) && j < |c.wins| && QuietSince(c.sent, d.sent)
    requires d.wins == c.wins[j := c.wins[j].(wid := wid, serverId := id)]
    requires wid != 0 ==> forall i | 0 <= i < |c.wins| :: c.wins[i].wid != wid
    requires wid != 0 ==> forall k | 0 <= k < |c.sent| && c.sent[k].FocusEvent? :: c.sent[k].wid != wid
    ensures ClientNames(d, id + 1)
  {
    forall k | 0 <= k < |d.sent| && d.sent[k].FocusEvent? ensures k < |c.sent| && d.sent[k] == c.sent[k] {
      if k < |c.sent| { assert d.sent[..|c.sent|][k] == d.sent[k]; }
    }
    forall k, i | 0 <= k < |d.sent| && 0 <= i < |d.wins| ensures Agrees(d.sent[k], d.wins[i]) {
      if d.sent[k].FocusEvent? && i != j { assert Agrees(c.sent[k], c.wins[i]); }
    }
  }

  lemma LaterNames(c: Client, nextId: nat, later: nat)
    requires ClientNames(c, nextId) && nextId <= later
    ensures ClientNames(c, later)
  {
  }

  /** The clients are in order right before focus is reported. */
  lemma MidNames(s: Sys, e: Session.Event, ci: nat, wid: nat, mid: Tp, i: nat)
    requires NamesOk(s) && Makes(s, e) && !ReusesWid(s, e) && Named(s, ci, wid, s.st.nextId, mid)
    requires ci == ClientByFd(s.tp.clients, e.fd) && wid == e.datagram.body.wid && i < |mid.clients|
    ensures ClientNames(mid.clients[i], s.st.nextId + 1)
  {
    hide ClientNames, QuietSince;
    if i == ci {
      var c := s.tp.clients[ci];
      var j :| 0 <= j < |mid.clients[ci].wins| &&
        mid.clients[ci].wins == c.wins[j := c.wins[j].(wid := wid, serverId := s.st.nextId)];
      NewName(c, mid.clients[ci], j, wid, s.st.nextId);
    } else {
      LaterNames(s.tp.clients[i], s.st.nextId, s.st.nextId + 1);
    }
  }

  lemma ClientInjective(s: Sys, i: nat)
    requires SysOk(s) && i < |s.tp.clients|
    ensures Injective(s.tp.clients[i].wins)
  {
    var tabs := Tabs(s.tp.clients, s.tp.orphans);
    assert TableOk(View(s.st.ws), s.tp.kern.live, tabs[i]);
  }

  lemma MadeNext(s: Sys, e: Session.Event)
    requires SysOk(s) && Makes(s, e)
    ensures Step(s, e).st.nextId == s.st.nextId + 1
  {
    hide Step, OnCreate, SysOk;
    MakesIs(s, e);
    assert SceneProofs.SceneOk(SceneOf(s)) by { Parts(s); }
    var w := Requests.CreateStack(SceneOf(s), ClientByFd(s.tp.clients, e.fd), e.datagram.body);
  }

  lemma MakeNames(s: Sys, e: Session.Event, i: nat)
    requires SysOk(s) && NamesOk(s) && Makes(s, e) && !ReusesWid(s, e) && i < |Step(s, e).tp.clients|
    ensures ClientNames(Step(s, e).tp.clients[i], Step(s, e).st.nextId)
  {
    hide Step, SysOk, Makes, ReusesWid, Named, ClientNames, NotifyFocus, NamesOk;
    var ci, wid, mid, normal := MakeReports(s, e);
    MadeNext(s, e);
    Requests.NotifySent(mid, s.st.nextId);
    MidNames(s, e, ci, wid, mid, i);
    StepKeeps(s, e);
    ClientInjective(Step(s, e), i);
    if normal {
      MidReport(s, ci, wid, mid);
      NotifyNames(mid, s.st.nextId, s.st.nextId + 1, i);
    }
  }

  lemma MidReport(s: Sys, ci: nat, wid: nat, mid: Tp)
    requires SysOk(s) && Named(s, ci, wid, s.st.nextId, mid)
    ensures mid.focused < s.st.nextId
  {
  }

  lemma SyncNames(s: Sys, i: nat)
    requires SysOk(s) && NamesOk(s) && i < |s.tp.clients|
    ensures |Step(s, Sync).tp.clients| == |s.tp.clients| && Step(s, Sync).st.nextId == s.st.nextId
    ensures ClientNames(Step(s, Sync).tp.clients[i], s.st.nextId)
  {
    hide Step, SysOk, ClientNames, NotifyFocus, Continues;
    SyncReportsThen(s, i);
    SyncNext(s);
    ClientInjective(s, i);
    FocusBelow(s);
    NotifyNames(s.tp, s.st.focus, s.st.nextId, i);
    KeptNames(NotifyFocus(s.tp, s.st.focus).clients[i], Step(s, Sync).tp.clients[i], s.st.nextId, s.st.nextId);
  }

  lemma SyncNext(s: Sys)
    ensures Step(s, Sync).st.nextId == s.st.nextId
  {
    hide NotifyFocus, NotifyGeometry;
  }

  lemma FocusBelow(s: Sys)
    requires SysOk(s)
    ensures s.st.focus < s.st.nextId && s.tp.focused < s.st.nextId
  {
    FocusKnown(s.st);
  }

  lemma PlainNames(s: Sys, e: Session.Event, i: nat)
    requires NamesOk(s) && PlainStep(s, e) && i < |Step(s, e).tp.clients| && s.st.nextId <= Step(s, e).st.nextId
    ensures ClientNames(Step(s, e).tp.clients[i], Step(s, e).st.nextId)
  {
    hide Step, ClientNames, Continues, NoFocusYet, Reclaims;
    var c, d := s.tp.clients[i], Step(s, e).tp.clients[i];
    assert Plain(s, e, c, d);
    if Continues(c, d) {
      KeptNames(c, d, s.st.nextId, Step(s, e).st.nextId);
    } else {
      if Empty(d.wins) { EmptyApart(d.wins); }
      FreshNames(d, Step(s, e).st.nextId);
    }
  }

  /** An orphan's table is the one it had, or empty, or that of the client which the step parks. */
  ghost predicate TableFrom(s: Sys, e: Session.Event, wins: Table, o: nat) {
    || (o < |s.tp.orphans| && wins == s.tp.orphans[o].wins)
    || Empty(wins)
    || (Parks(s, e) && wins == s.tp.clients[Dying(s, e)].wins)
  }

  lemma OrphanTables(s: Sys, e: Session.Event, o: nat)
    requires SysOk(s) && o < |Step(s, e).tp.orphans|
    ensures TableFrom(s, e, Step(s, e).tp.orphans[o].wins, o)
  {
    hide Step, SysOk, Dying, OnHello, Transport.Request, ParkingSlot;
    if !Enabled(s, e) { DisabledIs(s, e); }
    else if Dying(s, e) >= 0 { DeathOrphans(s, e, o); }
    else if e.Receive? { ServedOrphans(s, e, o); }
    else if e.Hangup? { HangupOrphans(s, e); }
    else if e.Tick? { TickIs(s, e); ExpireSize(SceneOf(s), e.now); ExpireExactly(SceneOf(s), e.now, 0, o); }
    else { QuietOrphans(s, e); EnabledIs(s, e); }
  }

  lemma EnabledIs(s: Sys, e: Session.Event)
    requires Enabled(s, e)
    ensures Step(s, e) == Act(s, e)
  {
  }

  lemma ExpireSize(sc: Scene, now: int)
    ensures |Expire(sc, now).tp.orphans| == |sc.tp.orphans|
  {
    ExpireClients(sc, now, 0);
  }

  lemma DeathOrphans(s: Sys, e: Session.Event, o: nat)
    requires Dying(s, e) >= 0 && o < |Step(s, e).tp.orphans|
    ensures TableFrom(s, e, Step(s, e).tp.orphans[o].wins, o)
  {
    hide Step, Dying, ReapSt, ReapK;
    DeathIs(s, e);
  }

  lemma HangupOrphans(s: Sys, e: Session.Event)
    requires e.Hangup? && Enabled(s, e) && Dying(s, e) < 0
    ensures Step(s, e).tp.orphans == s.tp.orphans
  {
  }

  lemma ServedOrphans(s: Sys, e: Session.Event, o: nat)
    requires SysOk(s) && e.Receive? && Enabled(s, e) && Dying(s, e) < 0 && o < |Step(s, e).tp.orphans|
    ensures TableFrom(s, e, Step(s, e).tp.orphans[o].wins, o)
  {
    hide Step, SysOk, Dying, OnHello, Transport.Request;
    var ci := ClientByFd(s.tp.clients, e.fd);
    if ci < 0 {
      NobodyOrphans(s, e);
    } else {
      ServedIs(s, e);
      if Greets(s.tp.clients, ci, e.datagram) { HelloOrphans(s.tp, ci, e.datagram); }
      else { RequestOrphans(SceneOf(s), ci, e.datagram.body, e.fds, e.mem); }
    }
  }

  lemma NobodyOrphans(s: Sys, e: Session.Event)
    requires e.Receive? && ClientByFd(s.tp.clients, e.fd) < 0
    ensures Step(s, e).tp.orphans == s.tp.orphans
  {
  }

  /** Every step that does not use such a wid again keeps the names in order. */
  lemma StepNames(s: Sys, e: Session.Event)
    requires SysOk(s) && NamesOk(s) && !ReusesWid(s, e)
    ensures NamesOk(Step(s, e))
  {
    hide Step, SysOk, ReusesWid, Makes, Dying;
    var t := Step(s, e);
    Snaps.StepNoReuse(s, e);
    forall i | 0 <= i < |t.tp.clients| ensures ClientNames(t.tp.clients[i], t.st.nextId) {
      if e.Sync? { SyncCount(s); SyncNames(s, i); }
      else if Makes(s, e) { MakeNames(s, e, i); }
      else { StepPlain(s, e); PlainNames(s, e, i); }
    }
    forall o | 0 <= o < |t.tp.orphans| ensures WidsApart(t.tp.orphans[o].wins) {
      OrphanTables(s, e, o);
      OrphanApart(s, e, t.tp.orphans[o].wins, o);
    }
  }

  lemma SyncCount(s: Sys)
    ensures |Step(s, Sync).tp.clients| == |s.tp.clients|
  {
    hide Step;
    SyncOwner(s, 0);
  }

  lemma OrphanApart(s: Sys, e: Session.Event, wins: Table, o: nat)
    requires NamesOk(s) && TableFrom(s, e, wins, o)
    ensures WidsApart(wins)
  {
    hide Dying, ParkingSlot;
    if Empty(wins) { EmptyApart(wins); }
    else if Parks(s, e) { assert ClientNames(s.tp.clients[Dying(s, e)], s.st.nextId); }
  }

  // ---- every run -----------------------------------------------------------------------------------

  ghost predicate NoWidReuse(s: Sys, es: seq<Session.Event>, n: nat)
    requires n <= |es|
  {
    n == 0 || (NoWidReuse(s, es, n - 1) && !ReusesWid(RunTo(s, es, n - 1), es[n - 1]))
  }

  lemma {:induction false} RunNames(s: Sys, es: seq<Session.Event>, n: nat)
    requires SysOk(s) && NamesOk(s) && n <= |es| && NoWidReuse(s, es, n)
    ensures SysOk(RunTo(s, es, n)) && NamesOk(RunTo(s, es, n))
  {
    hide Step, SysOk, NamesOk, ReusesWid;
    if n > 0 {
      RunNames(s, es, n - 1);
      StepKeeps(RunTo(s, es, n - 1), es[n - 1]);
      StepNames(RunTo(s, es, n - 1), es[n - 1]);
    }
  }

  lemma BootNames(mode: Modes.Mode, demo: bool, garbage: nat)
    ensures NamesOk(Boot(mode, demo, garbage))
  {
  }

  /** Client i holds a window in slot j, and the last CL_FOCUS under the window's wid said focused. */
  ghost predicate ToldBySlot(cs: seq<Client>, i: nat, j: nat) {
    i < |cs| && j < |cs[i].wins| && cs[i].wins[j].wid != 0 && ToldWid(cs[i].sent, cs[i].wins[j].wid)
  }

  lemma SlotSame(s: Sys, i: nat, j: nat)
    requires NamesOk(s) && i < |s.tp.clients| && j < |s.tp.clients[i].wins| && s.tp.clients[i].wins[j].wid != 0
    ensures ToldBySlot(s.tp.clients, i, j) <==> FocusReports.ToldSlot(s.tp.clients, i, j)
  {
    var c := s.tp.clients[i];
    assert ClientNames(c, s.st.nextId);
    WidIsId(c.sent, |c.sent|, c.wins[j]);
  }

  /** After any run in which no connection used a wid again whose focus it had heard of: going by what
      the clients can see, at most one of all their windows was last told that it is focused, and it is
      the one the server last reported. */
  lemma OneFocusedByWid(mode: Modes.Mode, demo: bool, garbage: nat, es: seq<Session.Event>, i: nat, j: nat, k: nat, l: nat)
    requires mode.hdisplay >= 1 && mode.vdisplay >= 1 && NoWidReuse(Boot(mode, demo, garbage), es, |es|)
    requires var cs := Run(Boot(mode, demo, garbage), es).tp.clients; ToldBySlot(cs, i, j) && ToldBySlot(cs, k, l)
    ensures var t := Run(Boot(mode, demo, garbage), es);
            i == k && j == l && t.tp.clients[i].wins[j].serverId == t.tp.focused
  {
    hide Step, Boot, SysOk, NamesOk;
    var b := Boot(mode, demo, garbage);
    BootOk(mode, demo, garbage);
    BootNames(mode, demo, garbage);
    RunNames(b, es, |es|);
    SlotSame(Run(b, es), i, j);
    SlotSame(Run(b, es), k, l);
    FocusReports.AtMostOneFocused(Run(b, es), i, j, k, l);
  }
}
