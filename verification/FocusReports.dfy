/** Focus safety: what clients were last told about focus agrees with the server. */
module FocusReports {
  import opened Windows
  import opened Transport
  import opened Books
  import opened SceneBasics
  import opened SceneMoves
  import SceneProofs
  import Session
  import opened SessionProofs

  /** Client i holds a window in slot j and its connection was last told that it is focused. */
  ghost predicate ToldSlot(cs: seq<Client>, i: nat, j: nat) {
    i < |cs| && j < |cs[i].wins| && cs[i].wins[j].wid != 0 && Told(cs[i].sent, cs[i].wins[j].serverId)
  }

  lemma SameHolder(cs: seq<Client>, i: nat, k: nat, id: nat)
    requires HoldersApart(cs) && i < |cs| && k < |cs| && id in Held(cs[i].wins) * Held(cs[k].wins)
    ensures i == k
  {
  }

  /** At any time at most one window was last told "focused" by its connection, and it is the
      one the server last reported. */
  lemma AtMostOneFocused(s: Session.Sys, i: nat, j: nat, k: nat, l: nat)
    requires SysOk(s) && ToldSlot(s.tp.clients, i, j) && ToldSlot(s.tp.clients, k, l)
    ensures i == k && j == l && s.tp.clients[i].wins[j].serverId == s.tp.focused
  {
    var cs, tabs := s.tp.clients, Tabs(s.tp.clients, s.tp.orphans);
    FocusKnown(s.st);
    Holders(View(s.st.ws), s.st.nextId, s.tp);
    assert TableOk(View(s.st.ws), s.tp.kern.live, tabs[i]);
    HeldIn(cs[i].wins, j);
    HeldIn(cs[k].wins, l);
    SameHolder(cs, i, k, s.tp.focused);
  }

  lemma {:induction false} OwnerSame(cs: seq<Client>, ds: seq<Client>, id: nat, from: nat)
    requires OnlySent(cs, ds) && from <= |cs|
    ensures OwnerFrom(ds, id, from) == OwnerFrom(cs, id, from)
    decreases |cs| - from
  {
    if from < |cs| { OwnerSame(cs, ds, id, from + 1); }
  }

  lemma NotifyTells(tp: Tp, id: nat, c: nat, j: nat)
    requires FindOwner(tp.clients, id) == Owner(c, j) && id != tp.focused
    ensures c < |NotifyFocus(tp, id).clients| && Told(NotifyFocus(tp, id).clients[c].sent, id)
  {
    var ds := TellFocus(tp.clients, tp.focused, false);
    TellSends(tp.clients, tp.focused, false);
    OwnerSame(tp.clients, ds, id, 0);
    ToldAppend(ds[c].sent, FocusEvent(ds[c].wins[j].wid, id, true), id);
  }

  lemma SendOwnerTold(tp: Tp, to: nat, e: Event, c: nat, id: nat)
    requires c < |tp.clients| && !e.FocusEvent?
    ensures |SendOwner(tp, to, e).clients| == |tp.clients|
    ensures Told(SendOwner(tp, to, e).clients[c].sent, id) == Told(tp.clients[c].sent, id)
  {
    ToldAppend(tp.clients[c].sent, e, id);
  }

  /** The end of a turn reports the stack's focus. Its connected owner then stands as told
      exactly if the report was new or it already was: in particular a window reclaimed while
      the server still counts it as focused is not told again. */
  lemma SyncReports(s: Session.Sys)
    ensures var t, o := Session.OnSync(s), FindOwner(s.tp.clients, s.st.focus);
            && t.tp.focused == t.st.focus == s.st.focus
            && (o.Owner? ==>
                  && o.client < |t.tp.clients|
                  && (Told(t.tp.clients[o.client].sent, s.st.focus) <==>
                        s.tp.focused != s.st.focus || Told(s.tp.clients[o.client].sent, s.st.focus)))
  {
    var o, u := FindOwner(s.tp.clients, s.st.focus), NotifyFocus(s.tp, s.st.focus);
    if o.Owner? {
      if s.tp.focused != s.st.focus { NotifyTells(s.tp, s.st.focus, o.client, o.slot); }
      var i := IndexOf(s.st.ws, s.wm.reconfigured);
      if s.wm.reconfigured != 0 && i >= 0 {
        SendOwnerTold(u, s.wm.reconfigured, ConfigureFor(OwnerWid(u.clients, s.wm.reconfigured), s.st.ws[i]), o.client, s.st.focus);
      }
    }
  }

  /** A client that has just said HELLO was told nothing about focus yet, not even about a
      focused window it got back. */
  lemma HelloTellsNothing(s: Session.Sys, ci: nat, d: Datagram, id: nat)
    requires SysOk(s) && ci < |s.tp.clients| && !s.tp.clients[ci].hello && d.body.Hello?
    ensures ci < |OnHello(s.tp, ci, d).clients| && !Told(OnHello(s.tp, ci, d).clients[ci].sent, id)
  {
    Parts(s);
    SceneProofs.HelloIs(Session.SceneOf(s), ci, d);
    assert ClientOk(s.tp.clients[ci]);
    var g := SceneProofs.AfterGreeting(s.tp, ci, Presented(d));
    assert g.clients[ci].sent == [];
    ToldAppend([], Welcome(CL_VERSION, g.sw, g.sh, g.clients[ci].token), id);
  }
}
