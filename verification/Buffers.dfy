/** Guarantees about client buffers: live mappings are exactly what the slots hold, each mapping
    is released once, and nothing is left after the transport is destroyed. */
module Buffers {
  import opened Windows
  import opened Transport
  import opened Books
  import opened SceneBasics
  import opened SceneProofs
  import Session
  import SessionProofs
  import Ownership

  /** Slot j of table k holds mapping m. */
  ghost predicate Holds(tabs: seq<Table>, k: nat, j: nat, m: nat) {
    k < |tabs| && j < |tabs[k]| && tabs[k][j].wid != 0 && tabs[k][j].buf == Mapping(m)
  }

  /** A mapping is live exactly while some slot holds it; */
  lemma LiveIffHeld(s: Session.Sys, m: nat)
    requires SessionProofs.SysOk(s)
    ensures m in s.tp.kern.live <==> exists k: nat, j: nat :: Holds(Ownership.Tables(s), k, j, m)
  {
    var v, tabs := View(s.st.ws), Ownership.Tables(s);
    if m in s.tp.kern.live {
      var id := s.tp.kern.live[m].window;
      assert Owned(tabs, id) && v[id].buf == Mapping(m);
      var k :| 0 <= k < |tabs| && id in Held(tabs[k]);
      var j :| 0 <= j < |tabs[k]| && tabs[k][j].wid != 0 && tabs[k][j].serverId == id;
      assert SlotOk(v, s.tp.kern.live, tabs[k][j]);
      assert Holds(tabs, k, j, m);
    }
    if k: nat, j: nat :| Holds(tabs, k, j, m) {
      assert TableOk(v, s.tp.kern.live, tabs[k]);
      assert SlotOk(v, s.tp.kern.live, tabs[k][j]);
    }
  }

  /** no two slots hold the same mapping; */
  lemma OneHolder(s: Session.Sys, k: nat, j: nat, l: nat, i: nat, m: nat)
    requires SessionProofs.SysOk(s)
    requires Holds(Ownership.Tables(s), k, j, m) && Holds(Ownership.Tables(s), l, i, m)
    ensures k == l && j == i
  {
    var v, tabs := View(s.st.ws), Ownership.Tables(s);
    assert TableOk(v, s.tp.kern.live, tabs[k]) && TableOk(v, s.tp.kern.live, tabs[l]);
    assert SlotOk(v, s.tp.kern.live, tabs[k][j]) && SlotOk(v, s.tp.kern.live, tabs[l][i]);
    Ownership.SlotsPartition(s, k, j, l, i);
  }

  /** a window's content is null or exactly its owner slot's mapping; */
  lemma ShowsItsSlot(s: Session.Sys, k: nat, j: nat)
    requires SessionProofs.SysOk(s) && Ownership.Occupied(s, k, j)
    ensures var slot := Ownership.Tables(s)[k][j];
            && Live(s.st.ws, slot.serverId) && s.st.ws[IndexOf(s.st.ws, slot.serverId)].buf == slot.buf
            && (slot.buf.Null? || exists m :: slot.buf == Mapping(m) && m in s.tp.kern.live && s.tp.kern.live[m].len == slot.bufLen)
  {
    var v, tabs := View(s.st.ws), Ownership.Tables(s);
    assert TableOk(v, s.tp.kern.live, tabs[k]);
    assert SlotOk(v, s.tp.kern.live, tabs[k][j]);
    ViewLive(s.st.ws, tabs[k][j].serverId);
  }

  /** and every mapping ever made is live, or was released exactly once, never both. */
  lemma ReleasedExactlyOnce(s: Session.Sys, m: nat)
    requires SessionProofs.SysOk(s)
    ensures m < s.tp.kern.nextMap ==> s.tp.kern.released[m] == if m in s.tp.kern.live then 0 else 1
    ensures m >= s.tp.kern.nextMap ==> s.tp.kern.released[m] == 0 && m !in s.tp.kern.live
  {
  }

  // ---- teardown ---------------------------------------------------------------------------

  lemma DropOneClient(sc: Scene, ci: nat, now: int)
    requires SceneOk(sc) && ci < |sc.tp.clients|
    ensures var r := Drop(sc, ci, now);
            Kept(sc, r) && r.tp.clients == sc.tp.clients[ci := FreeClient()] && |r.tp.orphans| == |sc.tp.orphans|
  {
    DropKeepsAll(sc, ci, now);
  }

  lemma {:induction false} DropAllKeeps(sc: Scene, now: int, from: nat)
    requires SceneOk(sc) && from <= |sc.tp.clients| && forall i | 0 <= i < from :: sc.tp.clients[i].fd < 0
    ensures var r := DropAllFrom(sc, now, from);
            Kept(sc, r) && forall i | 0 <= i < |r.tp.clients| :: r.tp.clients[i].fd < 0
    decreases |sc.tp.clients| - from
  {
    if from == |sc.tp.clients| {
      Stays(sc.st);
    } else if sc.tp.clients[from].fd >= 0 {
      DropOneClient(sc, from, now);
      DropAllKeeps(Drop(sc, from, now), now, from + 1);
      KeptTwice(sc, Drop(sc, from, now), DropAllFrom(Drop(sc, from, now), now, from + 1), {});
    } else {
      DropAllKeeps(sc, now, from + 1);
    }
  }

  lemma ReapOneOrphan(sc: Scene, o: nat)
    requires SceneOk(sc) && o < |sc.tp.orphans|
    ensures var r := OrphanDestroy(sc, o);
            Kept(sc, r) && r.tp.clients == sc.tp.clients && r.tp.orphans == sc.tp.orphans[o := FreeOrphan()]
  {
    OrphanDestroyKeeps(sc, o);
  }

  lemma {:induction false} ReapAllKeeps(sc: Scene, from: nat)
    requires SceneOk(sc) && from <= |sc.tp.orphans| && forall i | 0 <= i < from :: sc.tp.orphans[i].token == 0
    ensures var r := ReapAllFrom(sc, from);
            && Kept(sc, r) && r.tp.clients == sc.tp.clients
            && forall i | 0 <= i < |r.tp.orphans| :: r.tp.orphans[i].token == 0
    decreases |sc.tp.orphans| - from
  {
    if from == |sc.tp.orphans| {
      Stays(sc.st);
    } else if sc.tp.orphans[from].token != 0 {
      ReapOneOrphan(sc, from);
      ReapAllKeeps(OrphanDestroy(sc, from), from + 1);
      KeptTwice(sc, OrphanDestroy(sc, from), ReapAllFrom(OrphanDestroy(sc, from), from + 1), {});
    } else {
      ReapAllKeeps(sc, from + 1);
    }
  }

  lemma NothingHeld(sc: Scene)
    requires SceneOk(sc)
    requires forall i | 0 <= i < |sc.tp.clients| :: sc.tp.clients[i].fd < 0
    requires forall i | 0 <= i < |sc.tp.orphans| :: sc.tp.orphans[i].token == 0
    ensures forall id :: !Owned(Tabs(sc.tp.clients, sc.tp.orphans), id)
    ensures sc.tp.kern.live == map[]
  {
    var tabs := Tabs(sc.tp.clients, sc.tp.orphans);
    forall i | 0 <= i < |tabs| ensures Held(tabs[i]) == {} {
      if i < |sc.tp.clients| {
        assert ClientOk(sc.tp.clients[i]);
        EmptyHolds(tabs[i]);
      } else {
        assert OrphanOk(sc.tp.orphans[i - |sc.tp.clients|]);
        assert tabs[|sc.tp.clients| + (i - |sc.tp.clients|)] == sc.tp.orphans[i - |sc.tp.clients|].wins;
        EmptyHolds(tabs[i]);
      }
    }
    assert forall m | m in sc.tp.kern.live :: Owned(tabs, sc.tp.kern.live[m].window);
    assert sc.tp.kern.live.Keys == {};
  }

  /** transport_destroy leaves no live mapping, has released each one made exactly once, and
      leaves no native window except those that never had an owner. */
  lemma ShutdownReleasesAll(s: Session.Sys, now: int)
    requires SessionProofs.SysOk(s)
    ensures var r := Shutdown(Session.SceneOf(s), now);
            && SceneOk(r)
            && r.tp.kern.live == map[]
            && (forall m | 0 <= m < r.tp.kern.nextMap :: r.tp.kern.released[m] == 1)
            && (forall id | id in View(r.st.ws) && View(r.st.ws)[id].appDecorated :: id in SessionProofs.SysStrays(s))
  {
    var sc := Session.SceneOf(s);
    SessionProofs.Parts(s);
    DropAllKeeps(sc, now, 0);
    var dropped := DropAllFrom(sc, now, 0);
    ReapAllKeeps(dropped, 0);
    var r := ReapAllFrom(dropped, 0);
    NothingHeld(r);
    ShutdownStrays(sc, dropped, r);
  }

  lemma ShutdownStrays(sc: Scene, dropped: Scene, r: Scene)
    requires Kept(sc, dropped) && Kept(dropped, r) && forall id :: !Owned(Tabs(r.tp.clients, r.tp.orphans), id)
    ensures forall id | id in View(r.st.ws) && View(r.st.ws)[id].appDecorated :: id in StraysOf(sc)
  {
    forall id | id in View(r.st.ws) && View(r.st.ws)[id].appDecorated ensures id in StraysOf(sc) {
      assert id in StraysOf(r);
    }
  }
}
