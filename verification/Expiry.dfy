/** How long the windows of a dead shell client wait, in milliseconds, and what goes when they have
    waited long enough. */
module Expiry {
  import opened Windows
  import opened Transport
  import opened SceneBasics
  import opened SceneProofs
  import opened Session
  import opened SessionProofs
  import opened Reconnect
  import Books

  /** Window id is in a slot of an orphan, from orphan slot `from` on, that is due at time now. */
  ghost predicate Goes(os: seq<Orphan>, from: nat, now: int, id: nat) {
    exists o :: from <= o < |os| && os[o].token != 0 && now >= os[o].deadline && id in Books.Held(os[o].wins)
  }

  lemma ReapOne(sc: Scene, o: nat, id: nat)
    requires SceneOk(sc) && o < |sc.tp.orphans|
    ensures SceneOk(OrphanDestroy(sc, o))
    ensures View(OrphanDestroy(sc, o).st.ws) == View(sc.st.ws) - Books.Held(sc.tp.orphans[o].wins)
    ensures OrphanDestroy(sc, o).tp.orphans == sc.tp.orphans[o := FreeOrphan()]
  {
    OrphanTable(sc, o);
    ReapStack(sc, sc.tp.orphans[o].wins);
    OrphanDestroyKeeps(sc, o);
  }

  lemma GoesNext(os: seq<Orphan>, from: nat, now: int, id: nat)
    requires from < |os|
    ensures Goes(os, from, now, id) <==>
            (os[from].token != 0 && now >= os[from].deadline && id in Books.Held(os[from].wins)) || Goes(os, from + 1, now, id)
    ensures Goes(os[from := FreeOrphan()], from + 1, now, id) <==> Goes(os, from + 1, now, id)
  {
    var ps := os[from := FreeOrphan()];
    forall o | from < o < |os| ensures ps[o] == os[o] {
    }
  }

  /** A tick takes exactly the windows of the orphans that are due, and leaves every other one as it was. */
  lemma {:induction false} ExpireTakes(sc: Scene, now: int, from: nat, id: nat)
    requires SceneOk(sc) && from <= |sc.tp.orphans|
    ensures var a, b := View(sc.st.ws), View(ExpireFrom(sc, now, from).st.ws);
            && (id in b <==> id in a && !Goes(sc.tp.orphans, from, now, id))
            && (id in b ==> b[id] == a[id])
    decreases |sc.tp.orphans| - from
  {
    hide SceneOk, Goes, OrphanDestroy;
    if from < |sc.tp.orphans| {
      GoesNext(sc.tp.orphans, from, now, id);
      if Due(sc.tp.orphans[from], now) {
        ReapOne(sc, from, id);
        ExpireTakes(OrphanDestroy(sc, from), now, from + 1, id);
      } else {
        ExpireTakes(sc, now, from + 1, id);
      }
    } else {
      NoneGoes(sc.tp.orphans, now, id);
    }
  }

  lemma NoneGoes(os: seq<Orphan>, now: int, id: nat)
    ensures !Goes(os, |os|, now, id)
  {
  }

  /** A client that is parked at e.now waits 5000 milliseconds: a tick before that leaves its place as it
      is, and one from then on frees it. */
  lemma GraceIs(s: Sys, e: Session.Event, now: int)
    requires Parks(s, e)
    ensures var t, c, o := Step(s, e), s.tp.clients[Dying(s, e)], ParkingSlot(SceneOf(s), Dying(s, e));
            var u := Step(t, Tick(now));
            && o < |t.tp.orphans| && t.tp.orphans[o] == Orphan(c.token, e.now + 5000, c.wins)
            && |u.tp.orphans| == |t.tp.orphans|
            && u.tp.orphans[o] == if now >= e.now + 5000 then Orphan(0, 0, NoWindows()) else t.tp.orphans[o]
  {
    hide Dying, ExpireFrom;
    var t, o := Step(s, e), ParkingSlot(SceneOf(s), Dying(s, e));
    assert Waiting(t.tp.orphans, o, Left(s, e)) by { DeathParks(s, e); }
    ExpireExactly(SceneOf(t), now, 0, o);
  }

  lemma ParkKeepsStack(s: Sys, e: Session.Event)
    requires Parks(s, e)
    ensures Step(s, e).st == s.st
  {
    hide Step, Dispatch, Dying;
    DeathIs(s, e);
  }

  /** A window of an orphan that is not due does not go: no other orphan has it. */
  lemma OthersHold(sc: Scene, o: nat, id: nat, now: int)
    requires SceneOk(sc) && o < |sc.tp.orphans| && id in Books.Held(sc.tp.orphans[o].wins) && now < sc.tp.orphans[o].deadline
    ensures !Goes(sc.tp.orphans, 0, now, id)
  {
    var tabs, n := Tabs(sc.tp.clients, sc.tp.orphans), |sc.tp.clients|;
    forall p | 0 <= p < |sc.tp.orphans| && p != o ensures id !in Books.Held(sc.tp.orphans[p].wins) {
      assert tabs[n + p] == sc.tp.orphans[p].wins && tabs[n + o] == sc.tp.orphans[o].wins;
      if p < o { assert Books.Held(tabs[n + p]) !! Books.Held(tabs[n + o]); }
      else { assert Books.Held(tabs[n + o]) !! Books.Held(tabs[n + p]); }
    }
  }

  lemma HeldThere(sc: Scene, o: nat, id: nat)
    requires SceneOk(sc) && o < |sc.tp.orphans| && id in Books.Held(sc.tp.orphans[o].wins)
    ensures id in View(sc.st.ws)
  {
    OrphanTable(sc, o);
    Books.HeldLive(View(sc.st.ws), sc.tp.kern.live, sc.tp.orphans[o].wins);
  }

  lemma TickIs(s: Sys, now: int)
    ensures SceneOf(Step(s, Tick(now))) == ExpireFrom(SceneOf(s), now, 0)
  {
    hide ExpireFrom;
  }

  /** And its windows are all there before, and all gone after. */
  lemma WindowsWait(s: Sys, e: Session.Event, now: int, j: nat)
    requires SysOk(s) && Parks(s, e) && j < |s.tp.clients[Dying(s, e)].wins| && s.tp.clients[Dying(s, e)].wins[j].wid != 0
    ensures var v, id := View(s.st.ws), s.tp.clients[Dying(s, e)].wins[j].serverId;
            var w := View(Step(Step(s, e), Tick(now)).st.ws);
            if now >= e.now + 5000 then id !in w else id in v && id in w && w[id] == v[id]
  {
    hide Step, Dying, ExpireFrom, SysOk, SceneOk, Goes, ParkingSlot;
    var t, c := Step(s, e), s.tp.clients[Dying(s, e)];
    var o, id := ParkingSlot(SceneOf(s), Dying(s, e)), c.wins[j].serverId;
    assert Waiting(t.tp.orphans, o, Left(s, e)) by { DeathParks(s, e); }
    assert SceneOk(SceneOf(t)) by {
      StepKeeps(s, e);
      Parts(t);
    }
    ParkKeepsStack(s, e);
    Books.HeldIn(c.wins, j);
    HeldThere(SceneOf(t), o, id);
    ExpireTakes(SceneOf(t), now, 0, id);
    TickIs(t, now);
    if now < e.now + 5000 { OthersHold(SceneOf(t), o, id, now); } else { GoesNow(t.tp.orphans, o, now, id); }
  }

  lemma GoesNow(os: seq<Orphan>, o: nat, now: int, id: nat)
    requires o < |os| && os[o].token != 0 && now >= os[o].deadline && id in Books.Held(os[o].wins)
    ensures Goes(os, 0, now, id)
  {
  }
}
