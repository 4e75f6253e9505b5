/** What the Wayland frontend tells its surfaces, event by event, and where it puts their windows,
    written out without the functions it decides with. */
module SurfaceEvents {
  import opened Windows
  import opened StackSteps
  import opened Wayland
  import opened WaylandProofs
  import Pixels
  import Contents
  import StackOperations

  // ---- the pointer ---------------------------------------------------------------------------

  /** The point is over the content of surface k: its window, entry i, is the highest one there, and
      below the 28 rows of the title bar the content reaches that far. */
  predicate OverContent(ws: seq<Window>, fe: Frontend, i: nat, k: nat, gx: int, gy: int) {
    && Pixels.Topmost(ws, i, gx, gy) && k < |fe.surfaces|
    && fe.surfaces[k].serverId == ws[i].id != 0
    && 0 <= gx - ws[i].x < fe.surfaces[k].cw && 0 <= gy - ws[i].y - 28 < fe.surfaces[k].ch
  }

  /** Some surface still has window id. */
  predicate Shown(fe: Frontend, id: nat) {
    id != 0 && exists k :: 0 <= k < |fe.surfaces| && fe.surfaces[k].serverId == id
  }

  lemma ShownIs(fe: Frontend, id: nat)
    ensures Shown(fe, id) <==> SurfaceOf(fe.surfaces, id) >= 0
  {
  }

  lemma TopmostIs(ws: seq<Window>, i: nat, x: int, y: int)
    requires Pixels.Topmost(ws, i, x, y)
    ensures At(ws, x, y) == i
  {
  }

  /** A motion that ends over the content of a surface: that surface is told where, in its own pixels;
      if the pointer was elsewhere before, it is first told that the pointer came, and the surface that
      had it, if it is still there, before that, that it left. */
  lemma MotionTells(ws: seq<Window>, fe: Frontend, i: nat, k: nat, gx: int, gy: int)
    requires SurfacesApart(fe.surfaces) && OverContent(ws, fe, i, k, gx, gy)
    ensures var id, x, y, old_ := ws[i].id, gx - ws[i].x, gy - ws[i].y - 28, fe.pointerFocus;
            PointerMotion(ws, fe, gx, gy) == fe.(
              pointerFocus := id,
              sent := fe.sent + if old_ == id then [PtrMotion(id, x, y)]
                                else if Shown(fe, old_) then [PtrLeave(old_), PtrEnter(id, x, y), PtrMotion(id, x, y)]
                                else [PtrEnter(id, x, y), PtrMotion(id, x, y)])
  {
    TopmostIs(ws, i, gx, gy);
    ShownIs(fe, fe.pointerFocus);
    var k2 := SurfaceOf(fe.surfaces, ws[i].id);
    assert k2 == k;
  }

  /** A motion that ends over no surface's content tells nobody where, and at most the surface that had
      the pointer, if it is still there, that it left. */
  lemma MotionLeaves(ws: seq<Window>, fe: Frontend, gx: int, gy: int)
    requires forall i: nat, k: nat :: !OverContent(ws, fe, i, k, gx, gy)
    ensures var old_ := fe.pointerFocus;
            PointerMotion(ws, fe, gx, gy) == fe.(
              pointerFocus := 0,
              sent := fe.sent + if Shown(fe, old_) then [PtrLeave(old_)] else [])
  {
    ShownIs(fe, fe.pointerFocus);
    var i := At(ws, gx, gy);
    if i >= 0 {
      assert Pixels.Topmost(ws, i, gx, gy);
      var k := SurfaceOf(fe.surfaces, ws[i].id);
      if k >= 0 { assert !OverContent(ws, fe, i, k, gx, gy); }
    }
  }

  /** Buttons and keys go to the surface that had the pointer, or the keyboard, if it is still there:
      once, with their number and whether they went down. */
  lemma InputTells(fe: Frontend, code: nat, down: bool)
    ensures PointerButton(fe, code, down) ==
            fe.(sent := fe.sent + if Shown(fe, fe.pointerFocus) then [PtrButton(fe.pointerFocus, code, down)] else [])
    ensures KeyboardKey(fe, code, down) ==
            fe.(sent := fe.sent + if Shown(fe, fe.kbdFocus) then [KbdKey(fe.kbdFocus, code, down)] else [])
  {
    ShownIs(fe, fe.pointerFocus);
    ShownIs(fe, fe.kbdFocus);
    assert fe.sent + [] == fe.sent;
  }

  /** The keyboard goes to the surface of the focused window, or to none. When that is a change, the
      old surface, if it is still there, is told that it lost it, and the new one that it got it. */
  lemma FocusTells(fe: Frontend, id: nat)
    ensures var to, old_ := if Shown(fe, id) then id else 0, fe.kbdFocus;
            KeyboardFocus(fe, id) == fe.(
              kbdFocus := to,
              sent := fe.sent + if to == old_ then []
                                else if Shown(fe, old_) then (if to == 0 then [KbdLeave(old_)] else [KbdLeave(old_), KbdEnter(to)])
                                else if to == 0 then [] else [KbdEnter(to)])
  {
    ShownIs(fe, id);
    ShownIs(fe, fe.kbdFocus);
    assert fe.sent + [] == fe.sent;
  }

  // ---- windows -------------------------------------------------------------------------------

  /** The window shows the surface's content: rows of its width, 4 bytes a pixel, one after another. */
  predicate ShowsSurface(w: Window, s: Surface) {
    w.buf == s.content && w.bufW == s.cw && w.bufH == s.ch && w.bufStride == 4 * s.cw && w.w == s.cw && w.h == s.ch + 28
  }

  /** The first content of a surface gets a NORMAL window that the server decorates: on top, focused, 28
      rows higher than the content, and 40 pixels further down and to the right than the one before,
      starting over at (120, 90) after eight. With 64 windows there is no room, and it gets none. */
  lemma MapSays(f: Front, k: nat)
    requires Ok(f.st) && k < |f.fe.surfaces| && f.fe.surfaces[k].serverId == 0
    ensures var r, n, s, id := MapOrUpdate(f, k), |f.st.ws|, f.fe.surfaces[k], f.st.nextId;
            if n >= 64 then r == f.(fe := f.fe.(cascade := f.fe.cascade + 1))
            else
              && |r.st.ws| == n + 1 && r.st.ws[..n] == f.st.ws && r.st.focus == id && r.st.nextId == id + 1
              && r.fe == f.fe.(cascade := f.fe.cascade + 1, surfaces := f.fe.surfaces[k := s.(serverId := id)])
              && var w := r.st.ws[n];
                 && w.id == id && w.role == Normal && w.mapped && !w.appDecorated && !w.snapped && ShowsSurface(w, s)
                 && w.x == 120 + 40 * (f.fe.cascade % 8) && w.y == 90 + 40 * (f.fe.cascade % 8)
  {
    var x, y := Cascade(120, f.fe.cascade), Cascade(90, f.fe.cascade);
    assert MapOrUpdate(f, k) == MapAt(f, k, x, y);
    hide MapOrUpdate, MapAt;
    MapAtIs(f, k, x, y);
    if |f.st.ws| < 64 {
      var w := NewlyShown(f, k, x, y);
      AppendedOk(f.st, w);
      assert StackOperations.First(f.st.ws + [w], w.id, |f.st.ws|);
      StackOperations.FocusSays(Appended(f.st, w), w.id, |f.st.ws|);
    }
  }

  /** Later content: its window shows it and has its size, where it is; nothing else changes. */
  lemma UpdateSays(f: Front, k: nat, i: nat)
    requires k < |f.fe.surfaces| && f.fe.surfaces[k].serverId != 0
    requires StackOperations.First(f.st.ws, f.fe.surfaces[k].serverId, i)
    ensures var r, s, w := MapOrUpdate(f, k), f.fe.surfaces[k], f.st.ws[i];
            exists n: Window ::
              && r == f.(st := f.st.(ws := f.st.ws[i := n])) && ShowsSurface(n, s)
              && n == w.(buf := n.buf, bufW := n.bufW, bufH := n.bufH, bufStride := n.bufStride, w := n.w, h := n.h)
  {
    StackOperations.FirstIs(f.st.ws, f.fe.surfaces[k].serverId, i);
    var s, w := f.fe.surfaces[k], f.st.ws[i];
    var n := w.(buf := s.content, bufW := s.cw, bufH := s.ch, bufStride := 4 * s.cw, w := s.cw, h := s.ch + 28);
    assert ShowsSurface(n, s);
    assert MapOrUpdate(f, k) == f.(st := f.st.(ws := f.st.ws[i := n]));
  }

  // ---- commits -------------------------------------------------------------------------------

  /** The first commit of an xdg surface shows nothing: if it is a toplevel, it is told to choose its own
      size. A commit without a new buffer changes nothing, one of a dma-buf nothing but that the buffer
      is taken. */
  lemma CommitQuiet(f: Front, k: nat, allocOk: bool)
    requires k < |f.fe.surfaces|
    ensures var r, s := Commit(f, k, allocOk), f.fe.surfaces[k];
            var told := if s.toplevel then [Configured(0, 0)] else [];
            && (s.xdgSurface && !s.configured ==>
                  r == f.(fe := f.fe.(surfaces := f.fe.surfaces[k := s.(configured := true)], sent := f.fe.sent + told)))
            && (!(s.xdgSurface && !s.configured) && !s.attached ==> r == f)
            && (!(s.xdgSurface && !s.configured) && s.attached && s.pending == Attached(Dmabuf) ==>
                  r == f.(fe := f.fe.(surfaces := f.fe.surfaces[k := s.(attached := false, pending := NoBuffer)])))
  {
  }

  /** A later commit of no buffer takes the window away, if there is one, and forgets the content. */
  lemma CommitUnmaps(f: Front, k: nat, allocOk: bool)
    requires Ok(f.st) && k < |f.fe.surfaces|
    requires var s := f.fe.surfaces[k]; !(s.xdgSurface && !s.configured) && s.attached && s.pending == NoBuffer
    ensures var r, s := Commit(f, k, allocOk), f.fe.surfaces[k];
            && r.fe == f.fe.(surfaces := f.fe.surfaces[k :=
                 s.(attached := false, content := Null, pixels := [], cw := 0, ch := 0, serverId := 0)])
            && (s.serverId == 0 ==> r.st == f.st)
            && (s.serverId != 0 ==> forall i: nat | StackOperations.First(f.st.ws, s.serverId, i) ::
                  r.st.ws == f.st.ws[..i] + f.st.ws[i + 1..])
  {
    var s := f.fe.surfaces[k];
    forall i: nat | StackOperations.First(f.st.ws, s.serverId, i)
      ensures Destroy(f.st, s.serverId).ws == f.st.ws[..i] + f.st.ws[i + 1..]
    {
      StackOperations.DestroySays(f.st, s.serverId, i);
    }
  }

  /** A commit of shared memory that is copied shows the copy, if the surface is a toplevel: in its
      window, or in a new one. One that cannot be copied leaves the content it had. */
  lemma CommitShm(f: Front, k: nat, allocOk: bool)
    requires Ok(f.st) && WlOk(View(f.st.ws), f.fe) && k < |f.fe.surfaces|
    requires var s := f.fe.surfaces[k];
             !(s.xdgSurface && !s.configured) && s.attached && s.pending.Attached? && s.pending.buffer.Shm?
    ensures var r, s := Commit(f, k, allocOk), f.fe.surfaces[k];
            && |r.fe.surfaces| == |f.fe.surfaces| && !r.fe.surfaces[k].attached
            && (!Contents.Copies(s, allocOk) ==> Contents.SamePixels(s, r.fe.surfaces[k]))
            && (Contents.Copies(s, allocOk) ==> Contents.HoldsBuffer(r.fe.surfaces[k], s.pending.buffer))
            && (!s.toplevel ==> r.st == f.st && r.fe.surfaces[k].serverId == 0)
            && (Contents.Copies(s, allocOk) && s.toplevel ==> r.fe.surfaces[k].serverId != 0 || |f.st.ws| >= 64)
  {
    hide MapOrUpdate, Packed;
    assert Linked(View(f.st.ws), f.fe.surfaces[k]) && ContentOk(f.fe.surfaces[k], f.fe.heap);
    var s := f.fe.surfaces[k];
    if Contents.Copies(s, allocOk) { Contents.CommitCopies(f, k, allocOk); }
    var taken := f.(fe := SetSurface(f.fe, k, s.(attached := false, pending := NoBuffer)));
    var copied := taken.(fe := CopyShm(taken.fe, k, s.pending.buffer, allocOk));
    Contents.MapHolds(copied, k);
    ShowDetaches(copied, k);
    if copied.fe.surfaces[k].serverId == 0 { MapSays(copied, k); } else { StaysMapped(copied, k); }
  }

  lemma ShowDetaches(f: Front, k: nat)
    requires k < |f.fe.surfaces|
    ensures |MapOrUpdate(f, k).fe.surfaces| == |f.fe.surfaces|
    ensures MapOrUpdate(f, k).fe.surfaces[k].attached == f.fe.surfaces[k].attached
  {
    hide Create, Focus, Update;
  }

  lemma StaysMapped(f: Front, k: nat)
    requires k < |f.fe.surfaces| && f.fe.surfaces[k].serverId != 0
    ensures MapOrUpdate(f, k).fe == f.fe
  {
    hide Update;
  }

  // ---- the life of a surface ------------------------------------------------------------------

  /** The requests that give a surface its roles and its next buffer, or take a role away that shows
      nothing, move no window. */
  lemma RolesSay(f: Front, k: nat, p: Pending)
    requires k < |f.fe.surfaces|
    ensures var ss := f.fe.surfaces;
            && Serve(f, CreateSurface) == f.(fe := f.fe.(surfaces := [NEW_SURFACE] + ss))
            && Serve(f, GetXdgSurface(k)) == f.(fe := f.fe.(surfaces := ss[k := ss[k].(xdgSurface := true)]))
            && Serve(f, DestroyXdgSurface(k)) == f.(fe := f.fe.(surfaces := ss[k := ss[k].(xdgSurface := false)]))
            && Serve(f, GetToplevel(k)) == f.(fe := f.fe.(surfaces := ss[k := ss[k].(toplevel := true)]))
            && Serve(f, Attach(k, p)) == f.(fe := f.fe.(surfaces := ss[k := ss[k].(attached := true, pending := p)]))
  {
  }

  /** A surface that loses its toplevel, or is destroyed, takes its window with it, and no other one;
      a destroyed one is off the list. */
  lemma EndsSay(f: Front, k: nat)
    requires Ok(f.st) && k < |f.fe.surfaces|
    ensures var t, d, id := Serve(f, DestroyToplevel(k)), Serve(f, DestroySurface(k)), f.fe.surfaces[k].serverId;
            && t.st == d.st && View(t.st.ws) == (if id == 0 then View(f.st.ws) else View(f.st.ws) - {id})
            && |t.fe.surfaces| == |f.fe.surfaces| && t.fe.surfaces[k].serverId == 0 && !t.fe.surfaces[k].toplevel
            && t.fe.surfaces[k].content.Null?
            && (forall j | 0 <= j < |f.fe.surfaces| && j != k :: t.fe.surfaces[j] == f.fe.surfaces[j])
            && d.fe == f.fe.(surfaces := f.fe.surfaces[..k] + f.fe.surfaces[k + 1..])
  {
    if f.fe.surfaces[k].serverId != 0 {
      DestroyIsReaped(f.st, f.fe.surfaces[k].serverId);
      ReapedOk(f.st, {f.fe.surfaces[k].serverId});
    }
  }
}
