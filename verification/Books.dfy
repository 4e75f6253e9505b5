/** Who owns which window and which mapping: the bookkeeping between the slot tables of all
    clients and orphans, the windows, and the kernel's live mappings. */
module Books {
  import opened Windows
  import opened Transport

  /** The server windows a table's occupied slots name, from slot `from` on. */
  ghost function HeldFrom(t: Table, from: nat): set<nat> {
    set j | from <= j < |t| && t[j].wid != 0 :: t[j].serverId
  }

  ghost function Held(t: Table): set<nat> { HeldFrom(t, 0) }

  ghost predicate Owned(tabs: seq<Table>, id: nat) {
    exists k :: 0 <= k < |tabs| && id in Held(tabs[k])
  }

  /** No two occupied slots of a table name the same window. */
  ghost predicate Injective(t: Table) {
    forall i, j | 0 <= i < j < |t| && t[i].wid != 0 && t[j].wid != 0 :: t[i].serverId != t[j].serverId
  }

  /** An occupied slot names a live, app-decorated window that shows exactly the slot's buffer,
      and its mapping is live, of the recorded length, made for that window. */
  ghost predicate SlotOk(v: map<nat, Window>, live: map<nat, MapInfo>, s: ClWin) {
    if s.wid == 0 then s.buf.Null?
    else
      && s.serverId in v && v[s.serverId].appDecorated && v[s.serverId].buf == s.buf && !s.buf.Heap?
      && (s.buf.Mapping? ==> s.buf.m in live && live[s.buf.m] == MapInfo(s.bufLen, s.serverId))
  }

  ghost predicate TableOk(v: map<nat, Window>, live: map<nat, MapInfo>, t: Table) {
    |t| == WIN_MAX && Injective(t) && forall j | 0 <= j < |t| :: SlotOk(v, live, t[j])
  }

  ghost predicate Apart(tabs: seq<Table>) {
    forall k, l | 0 <= k < l < |tabs| :: Held(tabs[k]) !! Held(tabs[l])
  }

  /** How many bytes a window's buffer declares. */
  function Extent(w: Window): int { w.bufStride * w.bufH }

  /** A native window never shows a copied content. */
  ghost predicate NativesMapped(v: map<nat, Window>) {
    forall id | id in v && v[id].appDecorated :: !v[id].buf.Heap?
  }

  /** A live mapping is the content of an owned window, and every mapped content is live
      and as long as its window declares. */
  ghost predicate MappingsOk(v: map<nat, Window>, tabs: seq<Table>, live: map<nat, MapInfo>) {
    && (forall m | m in live :: Owned(tabs, live[m].window) && live[m].window in v && v[live[m].window].buf == Mapping(m))
    && (forall id | id in v && v[id].buf.Mapping? ::
          v[id].buf.m in live && live[v[id].buf.m].window == id && Extent(v[id]) <= live[v[id].buf.m].len)
  }

  /** Every mapping ever made is either still live or was released exactly once. */
  ghost predicate ReleasedOnce(k: Kernel) {
    && (forall m | m in k.live :: m < k.nextMap)
    && (forall m: nat :: k.released[m] == if m < k.nextMap && m !in k.live then 1 else 0)
  }

  ghost predicate BooksOk(v: map<nat, Window>, tabs: seq<Table>, k: Kernel) {
    && (forall i | 0 <= i < |tabs| :: TableOk(v, k.live, tabs[i]))
    && Apart(tabs)
    && MappingsOk(v, tabs, k.live)
    && NativesMapped(v)
    && ReleasedOnce(k)
  }

  // ---- held sets under slot updates -----------------------------------------

  lemma HeldIn(t: Table, j: nat)
    requires j < |t| && t[j].wid != 0
    ensures t[j].serverId in Held(t)
  {
  }

  lemma HeldUpdate(t: Table, j: nat, s: ClWin)
    requires j < |t| && Injective(t)
    ensures Held(t[j := s]) ==
            (if t[j].wid != 0 then Held(t) - {t[j].serverId} else Held(t)) + (if s.wid != 0 then {s.serverId} else {})
  {
    var r := t[j := s];
    forall id | id in Held(t) && (t[j].wid == 0 || id != t[j].serverId) ensures id in Held(r) {
      var i :| 0 <= i < |t| && t[i].wid != 0 && t[i].serverId == id;
      HeldIn(r, i);
    }
    if s.wid != 0 { HeldIn(r, j); }
  }

  lemma HeldLive(v: map<nat, Window>, live: map<nat, MapInfo>, t: Table)
    requires TableOk(v, live, t)
    ensures Held(t) <= v.Keys
  {
  }

  lemma OwnedLive(v: map<nat, Window>, tabs: seq<Table>, k: Kernel)
    requires BooksOk(v, tabs, k)
    ensures forall id | Owned(tabs, id) :: id in v && v[id].appDecorated
  {
    forall id | Owned(tabs, id) ensures id in v && v[id].appDecorated {
      var i :| 0 <= i < |tabs| && id in Held(tabs[i]);
      var j :| 0 <= j < |tabs[i]| && tabs[i][j].wid != 0 && tabs[i][j].serverId == id;
      assert SlotOk(v, k.live, tabs[i][j]);
    }
  }

  lemma OwnedIn(tabs: seq<Table>, k: nat, j: nat)
    requires k < |tabs| && j < |tabs[k]| && tabs[k][j].wid != 0
    ensures Owned(tabs, tabs[k][j].serverId)
  {
    HeldIn(tabs[k], j);
  }

  // ---- the moves ----------------------------------------------------------------

  /** Windows may be rearranged, moved, resized, focused: the books only see content. */
  ghost predicate SameContent(v: map<nat, Window>, w: map<nat, Window>) {
    v.Keys == w.Keys && forall id | id in v ::
      && w[id].buf == v[id].buf && w[id].bufStride == v[id].bufStride && w[id].bufH == v[id].bufH
      && w[id].appDecorated == v[id].appDecorated
  }

  lemma BooksSameContent(v: map<nat, Window>, w: map<nat, Window>, tabs: seq<Table>, k: Kernel)
    requires BooksOk(v, tabs, k) && SameContent(v, w)
    ensures BooksOk(w, tabs, k)
  {
    forall i | 0 <= i < |tabs| ensures TableOk(w, k.live, tabs[i]) {
      forall j | 0 <= j < |tabs[i]| ensures SlotOk(w, k.live, tabs[i][j]) {
        assert SlotOk(v, k.live, tabs[i][j]);
      }
    }
  }

  /** A window that no mapping backs may come, whoever made it. */
  lemma BooksNewWindow(v: map<nat, Window>, tabs: seq<Table>, k: Kernel, w: Window)
    requires BooksOk(v, tabs, k) && w.id !in v && !w.buf.Mapping? && (w.appDecorated ==> w.buf.Null?)
    ensures BooksOk(v[w.id := w], tabs, k)
  {
    forall i | 0 <= i < |tabs| ensures TableOk(v[w.id := w], k.live, tabs[i]) {
      forall j | 0 <= j < |tabs[i]| ensures SlotOk(v[w.id := w], k.live, tabs[i][j]) {
        assert SlotOk(v, k.live, tabs[i][j]);
      }
    }
  }

  /** A window no table holds may change its (unmapped) content. */
  lemma BooksOutsider(v: map<nat, Window>, tabs: seq<Table>, k: Kernel, w: Window)
    requires BooksOk(v, tabs, k) && w.id in v && !v[w.id].appDecorated && !w.appDecorated && !w.buf.Mapping?
    ensures BooksOk(v[w.id := w], tabs, k)
  {
    forall i | 0 <= i < |tabs| ensures TableOk(v[w.id := w], k.live, tabs[i]) {
      forall j | 0 <= j < |tabs[i]| ensures SlotOk(v[w.id := w], k.live, tabs[i][j]) {
        assert SlotOk(v, k.live, tabs[i][j]);
      }
    }
    NotHeld(v, tabs, k, w.id);
  }

  /** and it may go. */
  lemma BooksOutsiderGone(v: map<nat, Window>, tabs: seq<Table>, k: Kernel, id: nat)
    requires BooksOk(v, tabs, k) && id in v && !v[id].appDecorated
    ensures BooksOk(v - {id}, tabs, k)
  {
    NotHeld(v, tabs, k, id);
    forall i | 0 <= i < |tabs| ensures TableOk(v - {id}, k.live, tabs[i]) {
      forall j | 0 <= j < |tabs[i]| ensures SlotOk(v - {id}, k.live, tabs[i][j]) {
        assert SlotOk(v, k.live, tabs[i][j]);
      }
    }
  }

  /** Only app-decorated windows are held. */
  lemma NotHeld(v: map<nat, Window>, tabs: seq<Table>, k: Kernel, id: nat)
    requires BooksOk(v, tabs, k) && id in v && !v[id].appDecorated
    ensures !Owned(tabs, id)
  {
    forall i | 0 <= i < |tabs| ensures id !in Held(tabs[i]) {
      forall j | 0 <= j < |tabs[i]| ensures tabs[i][j].wid != 0 ==> tabs[i][j].serverId != id {
        assert SlotOk(v, k.live, tabs[i][j]);
      }
    }
  }

  /** Every window but one keeps its facts when only that window, its slot and its mapping change. */
  lemma OtherSlots(v: map<nat, Window>, w: map<nat, Window>, tabs: seq<Table>, k: Kernel, k2: Kernel, t: nat, j: nat, id: nat)
    requires BooksOk(v, tabs, k) && t < |tabs| && j < |tabs[t]|
    requires Owned(tabs, id) ==> tabs[t][j].wid != 0 && tabs[t][j].serverId == id
    requires forall x | x in v && x != id :: x in w && w[x] == v[x]
    requires forall m | m in k.live && k.live[m].window != id :: m in k2.live && k2.live[m] == k.live[m]
    ensures forall i | 0 <= i < |tabs| && i != t :: TableOk(w, k2.live, tabs[i])
    ensures forall l | 0 <= l < |tabs[t]| && l != j :: SlotOk(w, k2.live, tabs[t][l])
  {
    forall i, l | 0 <= i < |tabs| && 0 <= l < |tabs[i]| && (i != t || l != j)
      ensures SlotOk(w, k2.live, tabs[i][l])
    {
      assert SlotOk(v, k.live, tabs[i][l]);
      if tabs[i][l].wid != 0 {
        OwnedIn(tabs, i, l);
        HeldIn(tabs[i], l);
        assert tabs[t][j].wid != 0 ==> tabs[t][j].serverId in Held(tabs[t]);
      }
    }
  }

  /** CREATE_WINDOW: a fresh window takes a free slot. */
  lemma BooksClaim(v: map<nat, Window>, tabs: seq<Table>, k: Kernel, t: nat, j: nat, w: Window, s: ClWin)
    requires BooksOk(v, tabs, k) && t < |tabs| && j < WIN_MAX && tabs[t][j].wid == 0
    requires w.id !in v && w.buf.Null? && w.appDecorated && s.serverId == w.id && s.buf.Null?
    ensures BooksOk(v[w.id := w], tabs[t := tabs[t][j := s]], k)
    ensures forall id :: Owned(tabs[t := tabs[t][j := s]], id) <==> Owned(tabs, id) || (s.wid != 0 && id == w.id)
  {
    var tab := tabs[t][j := s];
    var next := tabs[t := tab];
    HeldUpdate(tabs[t], j, s);
    forall i | 0 <= i < |tabs| ensures Held(tabs[i]) <= v.Keys { HeldLive(v, k.live, tabs[i]); }
    OtherSlots(v, v[w.id := w], tabs, k, k, t, j, w.id);
    OwnedAfter(tabs, t, tab);
    forall id ensures Owned(next, id) <==> Owned(tabs, id) || (s.wid != 0 && id == w.id) {
      OwnedSplit(tabs, t, id);
    }
  }

  ghost predicate OwnedElsewhere(tabs: seq<Table>, t: nat, id: nat) {
    exists k :: 0 <= k < |tabs| && k != t && id in Held(tabs[k])
  }

  lemma OwnedSplit(tabs: seq<Table>, t: nat, id: nat)
    requires t < |tabs|
    ensures Owned(tabs, id) <==> id in Held(tabs[t]) || OwnedElsewhere(tabs, t, id)
    ensures Apart(tabs) && id in Held(tabs[t]) ==> !OwnedElsewhere(tabs, t, id)
  {
    if OwnedElsewhere(tabs, t, id) {
      var k :| 0 <= k < |tabs| && k != t && id in Held(tabs[k]);
      assert Apart(tabs) ==> Held(tabs[k]) !! Held(tabs[t]);
    }
  }

  /** Ownership when one table changes. */
  lemma OwnedAfter(tabs: seq<Table>, t: nat, tab: Table)
    requires t < |tabs|
    ensures forall id :: Owned(tabs[t := tab], id) <==> id in Held(tab) || OwnedElsewhere(tabs, t, id)
  {
    var next := tabs[t := tab];
    forall id ensures Owned(next, id) <==> id in Held(tab) || OwnedElsewhere(tabs, t, id) {
      OwnedSplit(next, t, id);
      if k :| 0 <= k < |tabs| && k != t && id in Held(tabs[k]) { assert id in Held(next[k]); }
    }
  }

  lemma DropKeeps(k: Kernel, s: ClWin)
    requires ReleasedOnce(k) && (s.buf.Mapping? ==> s.buf.m in k.live)
    ensures ReleasedOnce(DropBufK(k, s)) && DropBufK(k, s).nextMap == k.nextMap
    ensures DropBufK(k, s).live == if s.buf.Mapping? then k.live - {s.buf.m} else k.live
  {
  }

  lemma MapKeeps(k: Kernel, len: nat, id: nat)
    requires ReleasedOnce(k)
    ensures ReleasedOnce(MapNew(k, len, id)) && MapNew(k, len, id).live == k.live[k.nextMap := MapInfo(len, id)]
    ensures k.nextMap !in k.live
  {
  }

  lemma ApartUpdate(tabs: seq<Table>, t: nat, tab: Table)
    requires Apart(tabs) && t < |tabs|
    requires forall i | 0 <= i < |tabs| && i != t :: Held(tab) !! Held(tabs[i])
    ensures Apart(tabs[t := tab])
  {
  }

  /** The mappings when window id changes its content from `from` to the fresh mapping m. */
  lemma MappingsCommit(v: map<nat, Window>, tabs: seq<Table>, next: seq<Table>, live: map<nat, MapInfo>, w: Window, m: nat, len: nat)
    requires MappingsOk(v, tabs, live) && w.id in v && Owned(tabs, w.id) && m !in live && w.buf == Mapping(m) && Extent(w) <= len
    requires forall x :: Owned(next, x) <==> Owned(tabs, x)
    ensures var grown := live[m := MapInfo(len, w.id)];
            MappingsOk(v[w.id := w], next, if v[w.id].buf.Mapping? then grown - {v[w.id].buf.m} else grown)
  {
    hide Extent, Owned;
  }

  /** A slot that keeps its window changes nobody's ownership. */
  lemma SameHolding(tabs: seq<Table>, t: nat, j: nat, s: ClWin)
    requires Apart(tabs) && t < |tabs| && j < |tabs[t]| && Injective(tabs[t])
    requires tabs[t][j].wid != 0 && s.wid != 0 && s.serverId == tabs[t][j].serverId
    ensures Apart(tabs[t := tabs[t][j := s]])
    ensures forall id :: Owned(tabs[t := tabs[t][j := s]], id) <==> Owned(tabs, id)
  {
    var tab := tabs[t][j := s];
    assert Held(tab) == Held(tabs[t]) by { HeldUpdate(tabs[t], j, s); HeldIn(tabs[t], j); }
    ApartUpdate(tabs, t, tab);
    OwnedAfter(tabs, t, tab);
    forall id ensures Owned(tabs[t := tab], id) <==> Owned(tabs, id) {
      OwnedSplit(tabs, t, id);
    }
  }

  /** The slot that has just shown the mapping about to be made. */
  function CommitSlot(s: ClWin, k: Kernel, len: nat): ClWin { s.(buf := Mapping(k.nextMap), bufLen := len) }

  lemma CommitMappings(v: map<nat, Window>, tabs: seq<Table>, k: Kernel, t: nat, j: nat, w: Window, len: nat)
    requires BooksOk(v, tabs, k) && t < |tabs| && j < WIN_MAX && tabs[t][j].wid != 0
    requires w.id == tabs[t][j].serverId && w.buf == Mapping(k.nextMap) && w.appDecorated && Extent(w) <= len
    requires forall id :: Owned(tabs[t := tabs[t][j := CommitSlot(tabs[t][j], k, len)]], id) <==> Owned(tabs, id)
    ensures var k2 := DropBufK(MapNew(k, len, w.id), tabs[t][j]);
            ReleasedOnce(k2) && MappingsOk(v[w.id := w], tabs[t := tabs[t][j := CommitSlot(tabs[t][j], k, len)]], k2.live)
  {
    hide Extent;
    assert SlotOk(v, k.live, tabs[t][j]);
    MapKeeps(k, len, w.id);
    DropKeeps(MapNew(k, len, w.id), tabs[t][j]);
    OwnedIn(tabs, t, j);
    MappingsCommit(v, tabs, tabs[t := tabs[t][j := CommitSlot(tabs[t][j], k, len)]], k.live, w, k.nextMap, len);
  }

  /** COMMIT: the slot and its window get the new mapping, the previous one is released. */
  lemma BooksCommit(v: map<nat, Window>, tabs: seq<Table>, k: Kernel, t: nat, j: nat, w: Window, len: nat)
    requires BooksOk(v, tabs, k) && t < |tabs| && j < WIN_MAX && tabs[t][j].wid != 0
    requires w.id == tabs[t][j].serverId && w.buf == Mapping(k.nextMap) && w.appDecorated && Extent(w) <= len
    ensures BooksOk(v[w.id := w], tabs[t := tabs[t][j := CommitSlot(tabs[t][j], k, len)]], DropBufK(MapNew(k, len, w.id), tabs[t][j]))
    ensures forall id :: Owned(tabs[t := tabs[t][j := CommitSlot(tabs[t][j], k, len)]], id) <==> Owned(tabs, id)
  {
    hide Extent, DropBufK, MapNew, MappingsOk, ReleasedOnce, Owned, SlotOk, Apart;
    assert TableOk(v, k.live, tabs[t]);
    SameHolding(tabs, t, j, CommitSlot(tabs[t][j], k, len));
    CommitMappings(v, tabs, k, t, j, w, len);
    CommitTables(v, tabs, k, t, j, w, len);
  }

  lemma CommitTables(v: map<nat, Window>, tabs: seq<Table>, k: Kernel, t: nat, j: nat, w: Window, len: nat)
    requires BooksOk(v, tabs, k) && t < |tabs| && j < WIN_MAX && tabs[t][j].wid != 0
    requires w.id == tabs[t][j].serverId && w.buf == Mapping(k.nextMap) && w.appDecorated
    ensures var next := tabs[t := tabs[t][j := CommitSlot(tabs[t][j], k, len)]];
            forall i | 0 <= i < |next| :: TableOk(v[w.id := w], DropBufK(MapNew(k, len, w.id), tabs[t][j]).live, next[i])
  {
    assert SlotOk(v, k.live, tabs[t][j]);
    OtherSlots(v, v[w.id := w], tabs, k, DropBufK(MapNew(k, len, w.id), tabs[t][j]), t, j, w.id);
  }

  lemma MappingsFree(v: map<nat, Window>, tabs: seq<Table>, next: seq<Table>, live: map<nat, MapInfo>, id: nat)
    requires MappingsOk(v, tabs, live) && id in v
    requires forall x :: Owned(next, x) <==> Owned(tabs, x) && x != id
    ensures MappingsOk(v - {id}, next, if v[id].buf.Mapping? then live - {v[id].buf.m} else live)
  {
    hide Extent, Owned;
  }

  /** DESTROY_WINDOW: the window goes, its slot is free, its mapping is released. */
  lemma BooksFree(v: map<nat, Window>, tabs: seq<Table>, k: Kernel, t: nat, j: nat)
    requires BooksOk(v, tabs, k) && t < |tabs| && j < WIN_MAX && tabs[t][j].wid != 0
    ensures BooksOk(v - {tabs[t][j].serverId}, tabs[t := tabs[t][j := FREE_SLOT]], DropBufK(k, tabs[t][j]))
    ensures forall id :: Owned(tabs[t := tabs[t][j := FREE_SLOT]], id) <==> Owned(tabs, id) && id != tabs[t][j].serverId
  {
    var s := tabs[t][j];
    var tab := tabs[t][j := FREE_SLOT];
    assert SlotOk(v, k.live, s);
    assert Held(tab) == Held(tabs[t]) - {s.serverId} by { HeldUpdate(tabs[t], j, FREE_SLOT); }
    HeldIn(tabs[t], j);
    DropKeeps(k, s);
    assert Apart(tabs[t := tab]) by { ApartUpdate(tabs, t, tab); }
    OwnedAfter(tabs, t, tab);
    forall id ensures Owned(tabs[t := tab], id) <==> Owned(tabs, id) && id != s.serverId {
      OwnedSplit(tabs, t, id);
    }
    assert MappingsOk(v - {s.serverId}, tabs[t := tab], DropBufK(k, s).live) by {
      MappingsFree(v, tabs, tabs[t := tab], k.live, s.serverId);
    }
    OtherSlots(v, v - {s.serverId}, tabs, k, DropBufK(k, s), t, j, s.serverId);
  }

  /** Park or reclaim: a whole table moves to a place that holds nothing. */
  lemma BooksShift(v: map<nat, Window>, tabs: seq<Table>, k: Kernel, a: nat, b: nat)
    requires BooksOk(v, tabs, k) && a < |tabs| && b < |tabs| && a != b && Held(tabs[b]) == {}
    ensures BooksOk(v, tabs[a := NoWindows()][b := tabs[a]], k)
    ensures forall id :: Owned(tabs[a := NoWindows()][b := tabs[a]], id) <==> Owned(tabs, id)
  {
    var next := tabs[a := NoWindows()][b := tabs[a]];
    assert Held(NoWindows()) == {};
    forall id ensures Owned(next, id) <==> Owned(tabs, id) {
      if Owned(tabs, id) {
        var i :| 0 <= i < |tabs| && id in Held(tabs[i]);
        assert id in Held(next[if i == a then b else i]);
      }
      if Owned(next, id) {
        var i :| 0 <= i < |next| && id in Held(next[i]);
        assert id in Held(tabs[if i == b then a else i]);
      }
    }
  }

  lemma BooksBlank(v: map<nat, Window>, tabs: seq<Table>, k: Kernel, t: nat)
    requires BooksOk(v, tabs, k) && t < |tabs| && Held(tabs[t]) == {}
    ensures BooksOk(v, tabs[t := NoWindows()], k)
    ensures forall id :: Owned(tabs[t := NoWindows()], id) <==> Owned(tabs, id)
  {
    assert Held(NoWindows()) == {};
    OwnedAfter(tabs, t, NoWindows());
    forall id ensures Owned(tabs[t := NoWindows()], id) <==> Owned(tabs, id) {
      OwnedSplit(tabs, t, id);
    }
    assert Apart(tabs[t := NoWindows()]) by { ApartUpdate(tabs, t, NoWindows()); }
    assert TableOk(v, k.live, NoWindows());
  }

  lemma {:induction false} ReapKLocal(k: Kernel, a: Table, b: Table, from: nat)
    requires |a| == |b| && from <= |a| && a[from..] == b[from..]
    ensures ReapK(k, a, from) == ReapK(k, b, from) && HeldFrom(a, from) == HeldFrom(b, from)
    decreases |a| - from
  {
    if from < |a| {
      assert a[from] == a[from..][0] == b[from];
      assert a[from + 1..] == a[from..][1..] == b[from + 1..];
      ReapKLocal(k, a, b, from + 1);
      ReapKLocal(DropBufK(k, a[from]), a, b, from + 1);
    }
    assert forall j | from <= j < |a| :: a[j] == a[from..][j - from] == b[j];
  }

  lemma HeldStep(t: Table, from: nat)
    requires from < |t|
    ensures HeldFrom(t, from) == (if t[from].wid != 0 then {t[from].serverId} else {}) + HeldFrom(t, from + 1)
  {
  }

  /** The books once the windows `gone` and table t are gone. */
  ghost predicate TableReaped(v: map<nat, Window>, tabs: seq<Table>, t: nat, gone: set<nat>, k: Kernel)
    requires t < |tabs|
  {
    && BooksOk(v - gone, tabs[t := NoWindows()], k)
    && forall id :: Owned(tabs[t := NoWindows()], id) <==> Owned(tabs, id) && id !in gone
  }

  lemma ReapedOne(v: map<nat, Window>, tabs: seq<Table>, k: Kernel, t: nat, j: nat)
    requires t < |tabs| && j < |tabs[t]| && tabs[t][j].wid != 0
    requires var id, tab := tabs[t][j].serverId, tabs[t][j := FREE_SLOT];
             && TableReaped(v - {id}, tabs[t := tab], t, HeldFrom(tab, j + 1), ReapK(DropBufK(k, tabs[t][j]), tab, j + 1))
             && forall x :: Owned(tabs[t := tab], x) <==> Owned(tabs, x) && x != id
    ensures TableReaped(v, tabs, t, HeldFrom(tabs[t], j), ReapK(k, tabs[t], j))
  {
    var id, tab := tabs[t][j].serverId, tabs[t][j := FREE_SLOT];
    var rest := HeldFrom(tab, j + 1);
    ReapKLocal(DropBufK(k, tabs[t][j]), tabs[t], tab, j + 1);
    HeldStep(tabs[t], j);
    assert v - {id} - rest == v - ({id} + rest);
    assert tabs[t := tab][t := NoWindows()] == tabs[t := NoWindows()];
  }

  lemma ReapedSkip(v: map<nat, Window>, tabs: seq<Table>, k: Kernel, t: nat, j: nat)
    requires t < |tabs| && j < |tabs[t]| && tabs[t][j].wid == 0
    requires TableReaped(v, tabs, t, HeldFrom(tabs[t], j + 1), ReapK(k, tabs[t], j + 1))
    ensures TableReaped(v, tabs, t, HeldFrom(tabs[t], j), ReapK(k, tabs[t], j))
  {
    HeldStep(tabs[t], j);
    assert HeldFrom(tabs[t], j) == HeldFrom(tabs[t], j + 1);
  }

  lemma ReapedNothing(v: map<nat, Window>, tabs: seq<Table>, k: Kernel, t: nat)
    requires BooksOk(v, tabs, k) && t < |tabs| && forall j | 0 <= j < WIN_MAX :: tabs[t][j].wid == 0
    ensures TableReaped(v, tabs, t, HeldFrom(tabs[t], WIN_MAX), ReapK(k, tabs[t], WIN_MAX))
  {
    assert HeldFrom(tabs[t], WIN_MAX) == {} == Held(tabs[t]);
    assert v - {} == v;
    BooksBlank(v, tabs, k, t);
  }

  /** Reaping a table: all its windows go, all its mappings are released, nothing else changes. */
  lemma {:induction false} BooksReap(v: map<nat, Window>, tabs: seq<Table>, k: Kernel, t: nat, from: nat)
    requires BooksOk(v, tabs, k) && t < |tabs| && from <= WIN_MAX
    requires forall j | 0 <= j < from :: tabs[t][j].wid == 0
    ensures TableReaped(v, tabs, t, HeldFrom(tabs[t], from), ReapK(k, tabs[t], from))
    decreases WIN_MAX - from
  {
    if from == WIN_MAX {
      ReapedNothing(v, tabs, k, t);
    } else if tabs[t][from].wid == 0 {
      BooksReap(v, tabs, k, t, from + 1);
      ReapedSkip(v, tabs, k, t, from);
    } else {
      var id, tab := tabs[t][from].serverId, tabs[t][from := FREE_SLOT];
      BooksFree(v, tabs, k, t, from);
      BooksReap(v - {id}, tabs[t := tab], DropBufK(k, tabs[t][from]), t, from + 1);
      ReapedOne(v, tabs, k, t, from);
    }
  }
}
