/** Every Wayland request keeps the link between surfaces and windows, and leaves the native
    clients' windows alone. */
module WaylandProofs {
  import opened Windows
  import opened Wayland
  import opened StackSteps
  import Transport
  import opened SceneMoves

  /** A mapped surface shows exactly its current content in its own, server-decorated window. */
  ghost predicate Linked(v: map<nat, Window>, s: Surface) {
    s.serverId != 0 ==>
      && s.toplevel && s.content.Heap? && s.serverId in v && HasSsd(v[s.serverId])
      && v[s.serverId].buf == s.content && v[s.serverId].bufW == s.cw && v[s.serverId].bufH == s.ch
      && v[s.serverId].bufStride == s.cw * 4
  }

  /** Content is a live heap block with a positive size, or nothing at all. */
  predicate ContentOk(s: Surface, heap: nat) {
    if s.content.Heap? then s.content.h < heap && s.cw >= 1 && s.ch >= 1 && |s.pixels| == 4 * s.cw * s.ch
    else s.content.Null? && s.cw == 0 && s.ch == 0
  }

  ghost predicate SurfacesApart(ss: seq<Surface>) {
    forall i, j | 0 <= i < j < |ss| ::
      && (ss[i].serverId != 0 ==> ss[i].serverId != ss[j].serverId)
      && (ss[i].content.Heap? ==> ss[i].content != ss[j].content)
  }

  ghost predicate WlOk(v: map<nat, Window>, fe: Frontend) {
    && (forall k | 0 <= k < |fe.surfaces| :: Linked(v, fe.surfaces[k]) && ContentOk(fe.surfaces[k], fe.heap))
    && SurfacesApart(fe.surfaces)
  }

  /** The native clients' windows all stay exactly as they were; new windows are not native. */
  ghost predicate NativesUntouched(a: map<nat, Window>, b: map<nat, Window>, nextId: nat) {
    && (forall id | id in a && a[id].appDecorated :: id in b && b[id] == a[id])
    && (forall id | id in b && id >= nextId :: !b[id].appDecorated)
  }

  /** Windows that are not native and that no surface owns: the demo windows. */
  ghost function Unclaimed(v: map<nat, Window>, fe: Frontend): set<nat> {
    set id | id in v && !v[id].appDecorated && !Claimed(fe, id)
  }

  ghost predicate Claimed(fe: Frontend, id: nat) {
    exists k :: 0 <= k < |fe.surfaces| && fe.surfaces[k].serverId == id
  }

  ghost predicate FrontOk(f: Front, tp: Transport.Tp, sw: int, sh: int) {
    StackOk(f.st, sw, sh) && WlOk(View(f.st.ws), f.fe) && TpOk(View(f.st.ws), f.st.nextId, tp)
  }

  ghost predicate FrontKept(a: Front, b: Front, tp: Transport.Tp, sw: int, sh: int) {
    && FrontOk(b, tp, sw, sh) && Evolves(a.st, b.st)
    && NativesUntouched(View(a.st.ws), View(b.st.ws), a.st.nextId)
    && Unclaimed(View(b.st.ws), b.fe) <= Unclaimed(View(a.st.ws), a.fe)
    && Strays(View(b.st.ws), tp) == Strays(View(a.st.ws), tp)
  }

  /** Surface k of fe becomes s in ge; whatever else ge changes. */
  ghost predicate Becomes(fe: Frontend, ge: Frontend, k: nat, s: Surface) {
    k < |fe.surfaces| && ge.surfaces == fe.surfaces[k := s]
  }

  lemma SameClaims(fe: Frontend, ge: Frontend, k: nat, s: Surface)
    requires Becomes(fe, ge, k, s) && s.serverId == fe.surfaces[k].serverId
    ensures forall id: nat :: Claimed(ge, id) <==> Claimed(fe, id)
  {
    forall id: nat ensures Claimed(ge, id) <==> Claimed(fe, id) {
      if i :| 0 <= i < |fe.surfaces| && fe.surfaces[i].serverId == id { assert ge.surfaces[i].serverId == id; }
      if i :| 0 <= i < |ge.surfaces| && ge.surfaces[i].serverId == id { assert fe.surfaces[i].serverId == id; }
    }
  }

  /** A surface that takes or gives up a window changes the claim on that window only. */
  lemma ClaimMoves(fe: Frontend, ge: Frontend, k: nat, s: Surface)
    requires Becomes(fe, ge, k, s)
    ensures Claimed(ge, s.serverId)
    ensures forall id: nat | Claimed(fe, id) && id != fe.surfaces[k].serverId :: Claimed(ge, id)
  {
    assert ge.surfaces[k].serverId == s.serverId;
    forall id: nat | Claimed(fe, id) && id != fe.surfaces[k].serverId ensures Claimed(ge, id) {
      var i :| 0 <= i < |fe.surfaces| && fe.surfaces[i].serverId == id;
      assert ge.surfaces[i].serverId == id;
    }
  }

  /** A change of surfaces that leaves all claims in place may come before a step. */
  lemma KeptVia(a: Front, b: Front, c: Front, tp: Transport.Tp, sw: int, sh: int)
    requires b.st == a.st && (forall id: nat :: Claimed(b.fe, id) <==> Claimed(a.fe, id)) && FrontKept(b, c, tp, sw, sh)
    ensures FrontKept(a, c, tp, sw, sh)
  {
    assert Unclaimed(View(b.st.ws), b.fe) == Unclaimed(View(a.st.ws), a.fe);
  }

  lemma SameStack(s: Stack)
    requires Ok(s)
    ensures Evolves(s, s) && NativesUntouched(View(s.ws), View(s.ws), s.nextId) && 0 !in View(s.ws)
  {
    ViewIds(s);
    ViewLive(s.ws, 0);
  }

  lemma WriteForeign(s: Stack, w: Window)
    requires Ok(s) && !w.appDecorated && (w.id in View(s.ws) ==> !View(s.ws)[w.id].appDecorated)
    ensures NativesUntouched(View(s.ws), View(s.ws)[w.id := w], s.nextId)
  {
    ViewIds(s);
  }

  /** A surface changes without its window noticing. */
  lemma SurfaceOnly(v: map<nat, Window>, fe: Frontend, k: nat, s: Surface)
    requires WlOk(v, fe) && k < |fe.surfaces| && Linked(v, s) && ContentOk(s, fe.heap)
    requires s.serverId == 0 || s.serverId == fe.surfaces[k].serverId
    requires s.content.Null? || s.content == fe.surfaces[k].content
    ensures WlOk(v, SetSurface(fe, k, s))
    ensures s.serverId == fe.surfaces[k].serverId ==> forall id: nat :: Claimed(SetSurface(fe, k, s), id) <==> Claimed(fe, id)
  {
    if s.serverId == fe.surfaces[k].serverId { SameClaims(fe, SetSurface(fe, k, s), k, s); }
  }

  // ---- mapping and updating -------------------------------------------------------

  /** All surfaces but k are in order, and k's content is its own. */
  ghost predicate OthersOk(v: map<nat, Window>, fe: Frontend, k: nat) {
    && k < |fe.surfaces|
    && (forall i | 0 <= i < |fe.surfaces| && i != k :: Linked(v, fe.surfaces[i]))
    && (forall i | 0 <= i < |fe.surfaces| :: ContentOk(fe.surfaces[i], fe.heap))
    && SurfacesApart(fe.surfaces)
  }

  lemma UpdateStack(st: Stack, s: Surface, heap: nat, sw: int, sh: int) returns (w: Window)
    requires StackOk(st, sw, sh) && ContentOk(s, heap) && s.content.Heap?
    requires s.serverId in View(st.ws) && HasSsd(View(st.ws)[s.serverId])
    ensures w == Showing(View(st.ws)[s.serverId], s).(w := s.cw, h := s.ch + TITLEBAR_H) && w.id == s.serverId
    ensures GoodStep(st, Update(st, s), sw, sh) && Update(st, s).nextId == st.nextId
    ensures View(Update(st, s).ws) == View(st.ws)[w.id := w]
  {
    ViewLive(st.ws, s.serverId);
    var i := IndexOf(st.ws, s.serverId);
    w := Showing(st.ws[i], s).(w := s.cw, h := s.ch + TITLEBAR_H);
    PutStep(st, i, w, sw, sh);
  }

  lemma UpdateKeeps(f: Front, k: nat, tp: Transport.Tp, sw: int, sh: int)
    requires StackOk(f.st, sw, sh) && TpOk(View(f.st.ws), f.st.nextId, tp)
    requires OthersOk(View(f.st.ws), f.fe, k)
    requires var s := f.fe.surfaces[k];
             s.serverId != 0 && s.toplevel && s.content.Heap? && s.serverId in View(f.st.ws) && HasSsd(View(f.st.ws)[s.serverId])
    ensures FrontKept(f, MapOrUpdate(f, k), tp, sw, sh)
  {
    var w := UpdateStack(f.st, f.fe.surfaces[k], f.fe.heap, sw, sh);
    TpOutsider(View(f.st.ws), f.st.nextId, tp, w);
    OthersLinked(View(f.st.ws), f.fe, k, w);
    WriteForeign(f.st, w);
  }

  /** Giving surface k's window new fields disturbs no other surface. */
  lemma OthersLinked(v: map<nat, Window>, fe: Frontend, k: nat, w: Window)
    requires OthersOk(v, fe, k) && fe.surfaces[k].serverId == w.id != 0 && Linked(v[w.id := w], fe.surfaces[k])
    ensures WlOk(v[w.id := w], fe)
  {
  }

  lemma ShownNewest(s: Stack, x: int, y: int, c: Surface)
    requires Ok(s) && |s.ws| < WIN_MAX
    ensures var (st1, id) := Create(s, Normal, x, y, c.cw, c.ch + TITLEBAR_H, 0x00202020);
            var n := NewWindow(id, Normal, x, y, c.cw, c.ch + TITLEBAR_H, 0x00202020);
            && id == s.nextId && IndexOf(st1.ws, id) == |s.ws| && st1.ws[|s.ws|] == n
            && st1.(ws := st1.ws[|s.ws| := Showing(n, c)]) == Appended(s, Showing(n, c))
  {
    var n := NewWindow(s.nextId, Normal, x, y, c.cw, c.ch + TITLEBAR_H, 0x00202020);
    AppendedOk(s, n);
    assert (s.ws + [n])[|s.ws| := Showing(n, c)] == s.ws + [Showing(n, c)];
  }

  /** The window a first content gets. */
  function NewlyShown(f: Front, k: nat, x: int, y: int): Window
    requires k < |f.fe.surfaces|
  {
    var s := f.fe.surfaces[k];
    Showing(NewWindow(f.st.nextId, Normal, x, y, s.cw, s.ch + TITLEBAR_H, 0x00202020), s)
  }

  lemma MapAtIs(f: Front, k: nat, x: int, y: int)
    requires Ok(f.st) && k < |f.fe.surfaces| && f.fe.surfaces[k].serverId == 0
    ensures MapAt(f, k, x, y) ==
            if |f.st.ws| >= WIN_MAX then f.(fe := f.fe.(cascade := f.fe.cascade + 1))
            else Front(Focus(Appended(f.st, NewlyShown(f, k, x, y)), f.st.nextId),
                       SetSurface(f.fe.(cascade := f.fe.cascade + 1), k, f.fe.surfaces[k].(serverId := f.st.nextId)))
  {
    if |f.st.ws| < WIN_MAX { ShownNewest(f.st, x, y, f.fe.surfaces[k]); }
  }

  lemma MapKeeps(f: Front, k: nat, x: int, y: int, tp: Transport.Tp, sw: int, sh: int)
    requires StackOk(f.st, sw, sh) && TpOk(View(f.st.ws), f.st.nextId, tp)
    requires OthersOk(View(f.st.ws), f.fe, k)
    requires var s := f.fe.surfaces[k]; s.serverId == 0 && s.toplevel && s.content.Heap?
    ensures FrontKept(f, MapAt(f, k, x, y), tp, sw, sh)
  {
    SameStack(f.st);
    MapAtIs(f, k, x, y);
    if |f.st.ws| >= WIN_MAX {
      assert forall id: nat :: Claimed(f.fe.(cascade := f.fe.cascade + 1), id) <==> Claimed(f.fe, id);
    } else {
      var w := NewlyShown(f, k, x, y);
      assert ContentOk(f.fe.surfaces[k], f.fe.heap);
      AppendedOk(f.st, w);
      FocusedStep(f.st, w, sw, sh);
      TpNewWindow(View(f.st.ws), f.st.nextId, tp, w);
      MappedApart(View(f.st.ws), f.fe, k, w);
      WriteForeign(f.st, w);
      MappedClaims(View(f.st.ws), f.fe, MapAt(f, k, x, y).fe, k, w);
    }
  }

  lemma MappedClaims(v: map<nat, Window>, fe: Frontend, ge: Frontend, k: nat, w: Window)
    requires k < |fe.surfaces| && fe.surfaces[k].serverId == 0 && 0 !in v
    requires Becomes(fe, ge, k, fe.surfaces[k].(serverId := w.id))
    ensures Unclaimed(v[w.id := w], ge) <= Unclaimed(v, fe)
  {
    ClaimMoves(fe, ge, k, fe.surfaces[k].(serverId := w.id));
  }

  lemma MappedApart(v: map<nat, Window>, fe: Frontend, k: nat, w: Window)
    requires OthersOk(v, fe, k) && fe.surfaces[k].serverId == 0 && w.id !in v && w.id != 0
    requires Linked(v[w.id := w], fe.surfaces[k].(serverId := w.id))
    ensures WlOk(v[w.id := w], SetSurface(fe.(cascade := fe.cascade + 1), k, fe.surfaces[k].(serverId := w.id)))
  {
    forall i | 0 <= i < |fe.surfaces| && i != k ensures fe.surfaces[i].serverId != w.id {
      assert Linked(v, fe.surfaces[i]);
    }
  }

  // ---- unmapping --------------------------------------------------------------------

  lemma UnmapKeeps(f: Front, k: nat, tp: Transport.Tp, sw: int, sh: int)
    requires FrontOk(f, tp, sw, sh) && k < |f.fe.surfaces|
    ensures FrontKept(f, Unmap(f, k), tp, sw, sh)
    ensures Unmap(f, k).fe.surfaces[k].serverId == 0 && |Unmap(f, k).fe.surfaces| == |f.fe.surfaces|
  {
    UnmapLinkless(f, k, tp, sw, sh);
  }

  /** Unmapping also works on a surface that just lost its toplevel. */
  lemma UnmapLinkless(f: Front, k: nat, tp: Transport.Tp, sw: int, sh: int)
    requires StackOk(f.st, sw, sh) && TpOk(View(f.st.ws), f.st.nextId, tp)
    requires OthersOk(View(f.st.ws), f.fe, k)
    requires var id := f.fe.surfaces[k].serverId; id != 0 ==> id in View(f.st.ws) && !View(f.st.ws)[id].appDecorated
    ensures FrontKept(f, Unmap(f, k), tp, sw, sh)
  {
    SameStack(f.st);
    ViewIds(f.st);
    var s, v := f.fe.surfaces[k], View(f.st.ws);
    var freed := s.(content := Null, pixels := [], cw := 0, ch := 0, serverId := 0);
    ClaimMoves(f.fe, Unmap(f, k).fe, k, freed);
    if s.serverId != 0 {
      DestroyIsReaped(f.st, s.serverId);
      ReapedStep(f.st, {s.serverId}, sw, sh);
      ReapedOk(f.st, {s.serverId});
      TpOutsiderGone(v, f.st.nextId, tp, s.serverId);
      forall i | 0 <= i < |f.fe.surfaces| && i != k ensures Linked(v - {s.serverId}, f.fe.surfaces[i]) {
        assert Linked(v, f.fe.surfaces[i]);
      }
    }
  }

  // ---- requests -----------------------------------------------------------------------

  /** Showing content works whether or not the surface already has a window. */
  lemma ShowKeeps(f: Front, k: nat, tp: Transport.Tp, sw: int, sh: int)
    requires StackOk(f.st, sw, sh) && TpOk(View(f.st.ws), f.st.nextId, tp)
    requires OthersOk(View(f.st.ws), f.fe, k)
    requires var s := f.fe.surfaces[k];
             && s.toplevel && s.content.Heap?
             && (s.serverId != 0 ==> s.serverId in View(f.st.ws) && HasSsd(View(f.st.ws)[s.serverId]))
    ensures FrontKept(f, MapOrUpdate(f, k), tp, sw, sh)
  {
    if f.fe.surfaces[k].serverId != 0 {
      UpdateKeeps(f, k, tp, sw, sh);
    } else {
      var x, y := Cascade(120, f.fe.cascade), Cascade(90, f.fe.cascade);
      MapKeeps(f, k, x, y, tp, sw, sh);
      assert MapOrUpdate(f, k) == MapAt(f, k, x, y);
    }
  }

  lemma CopyThenShow(f: Front, k: nat, b: Buffer, allocOk: bool, tp: Transport.Tp, sw: int, sh: int)
    requires FrontOk(f, tp, sw, sh) && k < |f.fe.surfaces| && b.Shm?
    ensures var c := f.(fe := CopyShm(f.fe, k, b, allocOk));
            FrontKept(f, if c.fe.surfaces[k].content.Heap? && c.fe.surfaces[k].toplevel then MapOrUpdate(c, k) else c, tp, sw, sh)
  {
    var c := f.(fe := CopyShm(f.fe, k, b, allocOk));
    assert Linked(View(f.st.ws), f.fe.surfaces[k]);
    CopyApart(View(f.st.ws), f.fe, k, b, allocOk);
    SameClaims(f.fe, c.fe, k, c.fe.surfaces[k]);
    if c.fe.surfaces[k].content.Heap? && c.fe.surfaces[k].toplevel {
      ShowKeeps(c, k, tp, sw, sh);
      KeptVia(f, c, MapOrUpdate(c, k), tp, sw, sh);
    } else {
      SameStack(f.st);
    }
  }

  lemma CopyApart(v: map<nat, Window>, fe: Frontend, k: nat, b: Buffer, allocOk: bool)
    requires WlOk(v, fe) && k < |fe.surfaces| && b.Shm?
    ensures var c := CopyShm(fe, k, b, allocOk);
            && OthersOk(v, c, k)
            && c.surfaces[k].serverId == fe.surfaces[k].serverId && c.surfaces[k].toplevel == fe.surfaces[k].toplevel
            && (fe.surfaces[k].content.Heap? ==> c.surfaces[k].content.Heap?)
  {
    forall i | 0 <= i < |fe.surfaces| ensures ContentOk(fe.surfaces[i], fe.heap + 1) {
      assert ContentOk(fe.surfaces[i], fe.heap);
    }
  }

  lemma CommitKeeps(f: Front, k: nat, allocOk: bool, tp: Transport.Tp, sw: int, sh: int)
    requires FrontOk(f, tp, sw, sh) && k < |f.fe.surfaces|
    ensures FrontKept(f, Commit(f, k, allocOk), tp, sw, sh)
  {
    SameStack(f.st);
    var s := f.fe.surfaces[k];
    SurfaceOnly(View(f.st.ws), f.fe, k, s.(configured := true));
    SurfaceOnly(View(f.st.ws), f.fe, k, s.(attached := false, pending := NoBuffer));
    var taken := f.(fe := SetSurface(f.fe, k, s.(attached := false, pending := NoBuffer)));
    if !(s.xdgSurface && !s.configured) && s.attached {
      match s.pending
      case NoBuffer => UnmapKeeps(taken, k, tp, sw, sh);
      case Attached(Dmabuf) =>
      case Attached(b) => CopyThenShow(taken, k, b, allocOk, tp, sw, sh);
      KeptVia(f, taken, Commit(f, k, allocOk), tp, sw, sh);
    }
  }

  /** A surface that holds no window and no content may come and go. */
  lemma SurfaceListKeeps(v: map<nat, Window>, fe: Frontend, k: nat)
    requires WlOk(v, fe)
    ensures WlOk(v, fe.(surfaces := [NEW_SURFACE] + fe.surfaces))
    ensures k < |fe.surfaces| ==> WlOk(v, fe.(surfaces := fe.surfaces[..k] + fe.surfaces[k + 1..]))
  {
    var more := [NEW_SURFACE] + fe.surfaces;
    assert forall i | 0 < i < |more| :: more[i] == fe.surfaces[i - 1];
    if k < |fe.surfaces| {
      var less := fe.surfaces[..k] + fe.surfaces[k + 1..];
      assert forall i | 0 <= i < |less| :: less[i] == fe.surfaces[if i < k then i else i + 1];
    }
  }

  lemma SurfaceListClaims(fe: Frontend, k: nat, id: nat)
    requires id != 0 && Claimed(fe, id)
    ensures Claimed(fe.(surfaces := [NEW_SURFACE] + fe.surfaces), id)
    ensures k < |fe.surfaces| && fe.surfaces[k].serverId == 0 ==> Claimed(fe.(surfaces := fe.surfaces[..k] + fe.surfaces[k + 1..]), id)
  {
    var i :| 0 <= i < |fe.surfaces| && fe.surfaces[i].serverId == id;
    assert ([NEW_SURFACE] + fe.surfaces)[i + 1].serverId == id;
    if k < |fe.surfaces| && fe.surfaces[k].serverId == 0 {
      assert (fe.surfaces[..k] + fe.surfaces[k + 1..])[if i < k then i else i - 1].serverId == id;
    }
  }

  lemma CreateSurfaceKeeps(f: Front, tp: Transport.Tp, sw: int, sh: int)
    requires FrontOk(f, tp, sw, sh)
    ensures FrontKept(f, f.(fe := f.fe.(surfaces := [NEW_SURFACE] + f.fe.surfaces)), tp, sw, sh)
  {
    SameStack(f.st);
    SurfaceListKeeps(View(f.st.ws), f.fe, 0);
    forall id | id in View(f.st.ws) && Claimed(f.fe, id)
      ensures Claimed(f.fe.(surfaces := [NEW_SURFACE] + f.fe.surfaces), id)
    {
      SurfaceListClaims(f.fe, 0, id);
    }
  }

  lemma DestroySurfaceKeeps(f: Front, k: nat, tp: Transport.Tp, sw: int, sh: int)
    requires FrontOk(f, tp, sw, sh) && k < |f.fe.surfaces|
    ensures FrontKept(f, Serve(f, DestroySurface(k)), tp, sw, sh)
  {
    var u := Unmap(f, k);
    UnmapKeeps(f, k, tp, sw, sh);
    SurfaceListKeeps(View(u.st.ws), u.fe, k);
    SameStack(u.st);
    forall id | id in View(u.st.ws) && Claimed(u.fe, id)
      ensures Claimed(u.fe.(surfaces := u.fe.surfaces[..k] + u.fe.surfaces[k + 1..]), id)
    {
      SurfaceListClaims(u.fe, k, id);
    }
  }

  lemma DestroyToplevelKeeps(f: Front, k: nat, tp: Transport.Tp, sw: int, sh: int)
    requires FrontOk(f, tp, sw, sh) && k < |f.fe.surfaces|
    ensures FrontKept(f, Serve(f, DestroyToplevel(k)), tp, sw, sh)
  {
    var s := f.fe.surfaces[k].(toplevel := false);
    var b := f.(fe := SetSurface(f.fe, k, s));
    SameClaims(f.fe, b.fe, k, s);
    UnmapLinkless(b, k, tp, sw, sh);
    KeptVia(f, b, Unmap(b, k), tp, sw, sh);
  }

  /** A request that changes nothing but flags of its surface. */
  lemma FlagKeeps(f: Front, k: nat, s: Surface, tp: Transport.Tp, sw: int, sh: int)
    requires FrontOk(f, tp, sw, sh) && k < |f.fe.surfaces|
    requires s.serverId == f.fe.surfaces[k].serverId && s.content == f.fe.surfaces[k].content
    requires s.pixels == f.fe.surfaces[k].pixels
    requires s.cw == f.fe.surfaces[k].cw && s.ch == f.fe.surfaces[k].ch
    requires f.fe.surfaces[k].toplevel ==> s.toplevel
    ensures FrontKept(f, f.(fe := SetSurface(f.fe, k, s)), tp, sw, sh)
  {
    SameStack(f.st);
    assert Linked(View(f.st.ws), f.fe.surfaces[k]);
    SurfaceOnly(View(f.st.ws), f.fe, k, s);
  }

  lemma ServeKeeps(f: Front, r: Request, tp: Transport.Tp, sw: int, sh: int)
    requires FrontOk(f, tp, sw, sh) && Names(f.fe, r)
    ensures FrontKept(f, Serve(f, r), tp, sw, sh)
  {
    match r
    case CreateSurface => CreateSurfaceKeeps(f, tp, sw, sh);
    case GetXdgSurface(k) => FlagKeeps(f, k, f.fe.surfaces[k].(xdgSurface := true), tp, sw, sh);
    case GetToplevel(k) => FlagKeeps(f, k, f.fe.surfaces[k].(toplevel := true), tp, sw, sh);
    case Attach(k, p) => FlagKeeps(f, k, f.fe.surfaces[k].(attached := true, pending := p), tp, sw, sh);
    case CommitSurface(k, allocOk) => CommitKeeps(f, k, allocOk, tp, sw, sh);
    case DestroyToplevel(k) => DestroyToplevelKeeps(f, k, tp, sw, sh);
    case DestroyXdgSurface(k) => FlagKeeps(f, k, f.fe.surfaces[k].(xdgSurface := false), tp, sw, sh);
    case DestroySurface(k) => DestroySurfaceKeeps(f, k, tp, sw, sh);
  }
}
