/** The Wayland frontend as the program keeps it (src/wayland.c): a list of surfaces over the shared
    stack. Every method is proved to do exactly what its counterpart in module Wayland says. */
module WaylandFrontends {
  import opened Windows
  import opened Wayland
  import opened WindowStacks
  import opened Pixels

  lemma OffsetBefore(stride: nat, y: nat, h: nat)
    requires y < h
    ensures 0 <= y * stride <= (h - 1) * stride
  {
    Distribute(stride, y, h - 1 - y);
    assert stride * (h - 1 - y) >= 0 && stride * y >= 0;
  }

  /** n bytes from src[b..] to dst[a..] */
  method Memcpy(dst: array<U8>, a: nat, src: seq<U8>, b: nat, n: nat)
    requires a + n <= dst.Length && b + n <= |src|
    modifies dst
    ensures dst[a..a + n] == src[b..b + n] && dst[..a] == old(dst[..a])
  {
    var k := 0;
    while k < n
      invariant 0 <= k <= n
      invariant dst[a..a + k] == src[b..b + k] && dst[..a] == old(dst[..a])
    {
      dst[a + k] := src[b + k];
      k := k + 1;
    }
  }

  lemma NextRow(now: seq<U8>, src: seq<U8>, stride: nat, n: nat, y: nat)
    requires 0 <= y * stride && y * stride + n <= |src| && 0 <= y * n && y * n + n <= |now|
    requires y > 0 ==> (y - 1) * stride + n <= |src|
    requires now[..y * n] == Tight(src, stride, n, y) && now[y * n..y * n + n] == src[y * stride..y * stride + n]
    ensures now[..y * n + n] == Tight(src, stride, n, y + 1)
  {
    assert now[..y * n + n] == now[..y * n] + now[y * n..y * n + n];
  }

  /** The loop of copy_shm_buffer, from the client's stride to rows of n bytes. */
  method CopyRows(dst: array<U8>, src: seq<U8>, n: nat, h: nat, stride: nat)
    requires dst.Length == n * h && (h > 0 ==> (h - 1) * stride + n <= |src|)
    modifies dst
    ensures dst[..] == Tight(src, stride, n, h)
  {
    hide Tight;
    NoRows(src, stride, n);
    var y := 0;
    while y < h
      invariant 0 <= y <= h && 0 <= y * n <= dst.Length
      invariant y > 0 ==> (y - 1) * stride + n <= |src|
      invariant dst[..y * n] == Tight(src, stride, n, y)
    {
      RowEnds(n, y, h);
      OffsetBefore(stride, y, h);
      Memcpy(dst, y * n, src, y * stride, n);
      NextRow(dst[..], src, stride, n, y);
      assert (y + 1) * n == y * n + n;
      y := y + 1;
    }
    assert dst[..h * n] == dst[..];
  }

  lemma NoRows(src: seq<U8>, stride: nat, n: nat)
    ensures Tight(src, stride, n, 0) == []
  {
  }

  class WaylandFrontend {
    const stack: WindowStack
    var surfaces: seq<Surface>
    var cascade: nat
    var heap: nat
    var pointerFocus: nat
    var kbdFocus: nat
    var sent: seq<Sent>

    ghost predicate Valid()
      reads stack
    {
      stack.Valid()
    }

    ghost function F(): Frontend
      reads this
    {
      Frontend(surfaces, cascade, heap, pointerFocus, kbdFocus, sent)
    }

    ghost function State(): Front
      requires Valid()
      reads this, stack, stack.windows
    {
      Front(stack.S(), F())
    }

    constructor (stack: WindowStack)
      ensures this.stack == stack && F() == NEW_FRONTEND
    {
      this.stack := stack;
      surfaces, cascade, heap, pointerFocus, kbdFocus, sent := [], 0, 0, 0, 0, [];
    }

    /** surface_by_window */
    method SurfaceByWindow(id: nat) returns (k: int)
      ensures k == SurfaceOf(surfaces, id)
    {
      if id == 0 { return -1; }
      k := 0;
      while k < |surfaces|
        invariant 0 <= k <= |surfaces|
        invariant SurfaceFrom(surfaces, id, k) == SurfaceFrom(surfaces, id, 0)
      {
        if surfaces[k].serverId == id { return; }
        k := k + 1;
      }
      k := -1;
    }

    /** copy_shm_buffer */
    method CopyShm(k: nat, b: Buffer, allocOk: bool)
      requires k < |surfaces| && b.Shm?
      modifies this`surfaces, this`heap
      ensures F() == Wayland.CopyShm(old(F()), k, b, allocOk)
    {
      if b.w <= 0 || b.h <= 0 { return; }
      if surfaces[k].cw != b.w || surfaces[k].ch != b.h {
        if !allocOk { return; }
        surfaces := surfaces[k := surfaces[k].(content := Heap(heap), cw := b.w, ch := b.h)];
        heap := heap + 1;
      }
      var dst := new U8[4 * b.w * b.h];
      CopyRows(dst, b.data, 4 * b.w, b.h, b.stride);
      surfaces := surfaces[k := surfaces[k].(pixels := dst[..])];
    }

    /** window_by_id(stack, id) shows surface s. */
    method Show(id: nat, s: Surface)
      requires Valid()
      modifies stack.windows
      ensures Valid() && State() == old(State()).(st := Redrawn(old(stack.S()), id, s))
    {
      var i := stack.Index(id);
      if i >= 0 { stack.Store(i, Showing(stack.windows[i], s)); }
    }

    /** The first content of surface_map_or_update. */
    method MapAt(k: nat, x: int, y: int)
      requires Valid() && k < |surfaces|
      modifies this`surfaces, this`cascade, stack, stack.windows
      ensures Valid() && State() == Wayland.MapAt(old(State()), k, x, y)
    {
      hide Windows.Focus, Windows.Create;
      var s := surfaces[k];
      cascade := cascade + 1;
      var id := stack.Create(Normal, x, y, s.cw, s.ch + TITLEBAR_H, 0x00202020);
      if id == 0 { return; }
      surfaces := surfaces[k := s.(serverId := id)];
      Show(id, s);
      stack.Focus(id);
    }

    /** surface_map_or_update */
    method MapOrUpdate(k: nat)
      requires Valid() && k < |surfaces|
      modifies this`surfaces, this`cascade, stack, stack.windows
      ensures Valid() && State() == Wayland.MapOrUpdate(old(State()), k)
    {
      hide Wayland.MapAt;
      var s := surfaces[k];
      if s.serverId != 0 {
        var i := stack.Index(s.serverId);
        if i >= 0 { stack.Store(i, Showing(stack.windows[i], s).(w := s.cw, h := s.ch + TITLEBAR_H)); }
        return;
      }
      MapAt(k, Cascade(120, cascade), Cascade(90, cascade));
    }

    /** surface_unmap */
    method Unmap(k: nat)
      requires Valid() && k < |surfaces|
      modifies this`surfaces, stack, stack.windows
      ensures Valid() && State() == Wayland.Unmap(old(State()), k)
    {
      hide Windows.Destroy;
      if surfaces[k].serverId != 0 { stack.Destroy(surfaces[k].serverId); }
      surfaces := surfaces[k := surfaces[k].(content := Null, pixels := [], cw := 0, ch := 0, serverId := 0)];
    }

    /** surf_commit */
    method Commit(k: nat, allocOk: bool)
      requires Valid() && k < |surfaces|
      modifies this, stack, stack.windows
      ensures Valid() && State() == Wayland.Commit(old(State()), k, allocOk)
    {
      hide Wayland.CopyShm, Wayland.MapOrUpdate, Wayland.Unmap;
      var s := surfaces[k];
      if s.xdgSurface && !s.configured {
        surfaces := surfaces[k := s.(configured := true)];
        if s.toplevel { sent := sent + [Configured(0, 0)]; }
        return;
      }
      if !s.attached { return; }
      surfaces := surfaces[k := s.(attached := false, pending := NoBuffer)];
      match s.pending
      case NoBuffer => Unmap(k);
      case Attached(Dmabuf) =>
      case Attached(b) =>
        SizeKept(F(), k, b, allocOk);
        CopyShm(k, b, allocOk);
        if surfaces[k].content.Heap? && surfaces[k].toplevel { MapOrUpdate(k); }
    }

    /** The request handlers. */
    method Serve(r: Request)
      requires Valid() && Names(F(), r)
      modifies this, stack, stack.windows
      ensures Valid() && State() == Wayland.Serve(old(State()), r)
    {
      hide Wayland.Commit, Wayland.Unmap;
      match r
      case CreateSurface => surfaces := [NEW_SURFACE] + surfaces;
      case GetXdgSurface(k) => surfaces := surfaces[k := surfaces[k].(xdgSurface := true)];
      case GetToplevel(k) => surfaces := surfaces[k := surfaces[k].(toplevel := true)];
      case Attach(k, p) => surfaces := surfaces[k := surfaces[k].(attached := true, pending := p)];
      case CommitSurface(k, allocOk) => Commit(k, allocOk);
      case DestroyToplevel(k) =>
        surfaces := surfaces[k := surfaces[k].(toplevel := false)];
        Unmap(k);
      case DestroyXdgSurface(k) => surfaces := surfaces[k := surfaces[k].(xdgSurface := false)];
      case DestroySurface(k) =>
        UnmapSize(State(), k);
        Unmap(k);
        surfaces := surfaces[..k] + surfaces[k + 1..];
    }

    /** wl_frontend_pointer_motion */
    method PointerMotion(gx: int, gy: int)
      requires Valid()
      modifies this`pointerFocus, this`sent
      ensures F() == Wayland.PointerMotion(stack.S().ws, old(F()), gx, gy)
    {
      var to, lx, ly := Over(gx, gy);
      if to != pointerFocus {
        var left := SurfaceByWindow(pointerFocus);
        if left >= 0 { sent := sent + [PtrLeave(pointerFocus)]; }
        if to != 0 { sent := sent + [PtrEnter(to, lx, ly)]; }
        pointerFocus := to;
      }
      if to != 0 { sent := sent + [PtrMotion(to, lx, ly)]; }
    }

    /** The window whose content is under the point, and the point in that content. */
    method Over(gx: int, gy: int) returns (to: nat, lx: int, ly: int)
      requires Valid()
      ensures to == PointerOver(stack.S().ws, F(), gx, gy)
      ensures to != 0 ==> lx == LocalX(stack.S().ws, gx, gy) && ly == LocalY(stack.S().ws, gx, gy)
    {
      to, lx, ly := 0, 0, 0;
      var i := stack.At(gx, gy);
      if i < 0 { return; }
      var w := stack.windows[i];
      var k := SurfaceByWindow(w.id);
      if k < 0 { return; }
      lx, ly := gx - w.x, gy - (w.y + TITLEBAR_H);
      if 0 <= ly < surfaces[k].ch && 0 <= lx < surfaces[k].cw { to := w.id; }
    }

    /** wl_frontend_pointer_button */
    method PointerButton(code: nat, down: bool)
      modifies this`sent
      ensures F() == Wayland.PointerButton(old(F()), code, down)
    {
      var k := SurfaceByWindow(pointerFocus);
      if k >= 0 { sent := sent + [PtrButton(pointerFocus, code, down)]; }
    }

    /** wl_frontend_keyboard_key */
    method KeyboardKey(code: nat, down: bool)
      modifies this`sent
      ensures F() == Wayland.KeyboardKey(old(F()), code, down)
    {
      var k := SurfaceByWindow(kbdFocus);
      if k >= 0 { sent := sent + [KbdKey(kbdFocus, code, down)]; }
    }

    /** wl_frontend_keyboard_focus */
    method KeyboardFocus(id: nat)
      modifies this`sent, this`kbdFocus
      ensures F() == Wayland.KeyboardFocus(old(F()), id)
    {
      var next := SurfaceByWindow(id);
      var target := if next >= 0 then id else 0;
      if target == kbdFocus { return; }
      var k := SurfaceByWindow(kbdFocus);
      if k >= 0 { sent := sent + [KbdLeave(kbdFocus)]; }
      if next >= 0 { sent := sent + [KbdEnter(target)]; }
      kbdFocus := target;
    }
  }

  ghost function Redrawn(s: Stack, id: nat, f: Surface): Stack {
    var i := IndexOf(s.ws, id);
    if i < 0 then s else s.(ws := s.ws[i := Showing(s.ws[i], f)])
  }

  lemma SizeKept(fe: Frontend, k: nat, b: Buffer, allocOk: bool)
    requires k < |fe.surfaces| && b.Shm?
    ensures |Wayland.CopyShm(fe, k, b, allocOk).surfaces| == |fe.surfaces|
  {
  }

  lemma UnmapSize(f: Front, k: nat)
    requires k < |f.fe.surfaces|
    ensures |Wayland.Unmap(f, k).fe.surfaces| == |f.fe.surfaces|
  {
  }
}
