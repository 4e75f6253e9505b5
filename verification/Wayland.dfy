/** The Wayland frontend as a second owner of windows in the shared stack (src/wayland.c):
    the link between a surface, its copied content and its window. */
module Wayland {
  import opened Windows

  /** What a client attaches: shared memory, or a dma-buf the frontend ignores. */
  datatype AnyBuffer = Shm(w: int, h: int, stride: int, data: seq<U8>) | Dmabuf

  /** Its last row ends within the memory. */
  predicate Whole(b: AnyBuffer) {
    b.Shm? && b.w > 0 && b.h > 0 ==> b.stride >= 0 && (b.h - 1) * b.stride + 4 * b.w <= |b.data|
  }

  type Buffer = b: AnyBuffer | Whole(b) witness Dmabuf

  datatype Pending = NoBuffer | Attached(buffer: Buffer)

  /** struct fe_surface; serverId 0 means unmapped, pixels are the bytes of the content block. */
  datatype Surface = Surface(
    xdgSurface: bool, toplevel: bool, configured: bool,
    attached: bool, pending: Pending,
    content: Ptr, pixels: seq<U8>, cw: int, ch: int, serverId: nat)

  const NEW_SURFACE := Surface(false, false, false, false, NoBuffer, Null, [], 0, 0, 0)

  /** What a surface is told: a size, at its first commit only; about the pointer and the keyboard,
      where the id is its window's. */
  datatype Sent =
    | Configured(w: int, h: int)
    | PtrLeave(id: nat)
    | PtrEnter(id: nat, x: int, y: int)
    | PtrMotion(id: nat, x: int, y: int)
    | PtrButton(id: nat, code: nat, down: bool)
    | KbdLeave(id: nat)
    | KbdEnter(id: nat)
    | KbdKey(id: nat, code: nat, down: bool)

  /** heap numbers the content blocks handed out by realloc; pointerFocus is the window under the
      pointer at the last motion, kbdFocus the window with the keyboard at the end of the last turn,
      sent all events so far. */
  datatype Frontend = Frontend(
    surfaces: seq<Surface>, cascade: nat, heap: nat, pointerFocus: nat, kbdFocus: nat, sent: seq<Sent>)

  const NEW_FRONTEND := Frontend([], 0, 0, 0, 0, [])

  /** The shared stack together with the frontend that works on it. */
  datatype Front = Front(st: Stack, fe: Frontend)

  function SurfaceFrom(ss: seq<Surface>, id: nat, from: nat): (k: int)
    requires from <= |ss|
    ensures k == -1 || (from <= k < |ss| && ss[k].serverId == id)
    ensures k < 0 ==> forall i | from <= i < |ss| :: ss[i].serverId != id
    decreases |ss| - from
  {
    if from == |ss| then -1 else if ss[from].serverId == id then from else SurfaceFrom(ss, id, from + 1)
  }

  /** surface_by_window: the surface that owns a window, or -1. */
  function SurfaceOf(ss: seq<Surface>, id: nat): (k: int)
    ensures k == -1 || (0 <= k < |ss| && ss[k].serverId == id && id != 0)
    ensures k < 0 ==> id == 0 || forall i | 0 <= i < |ss| :: ss[i].serverId != id
  {
    if id == 0 then -1 else SurfaceFrom(ss, id, 0)
  }

  function SetSurface(fe: Frontend, k: nat, s: Surface): Frontend
    requires k < |fe.surfaces|
  {
    fe.(surfaces := fe.surfaces[k := s])
  }

  // ---- content -----------------------------------------------------------------

  lemma RowBefore(stride: nat, h: nat)
    requires h > 0
    ensures 0 <= (h - 1) * stride && (h > 1 ==> (h - 2) * stride + stride == (h - 1) * stride)
  {
  }

  /** h rows of n bytes, packed: what is left of rows that lie `stride` bytes apart. */
  function Tight(data: seq<U8>, stride: nat, n: nat, h: nat): (t: seq<U8>)
    requires h > 0 ==> (h - 1) * stride + n <= |data|
    ensures |t| == n * h
  {
    if h == 0 then []
    else
      RowBefore(stride, h);
      Tight(data, stride, n, h - 1) + data[(h - 1) * stride..(h - 1) * stride + n]
  }

  /** The client's pixels, row by row. */
  function Packed(b: Buffer): seq<U8>
    requires b.Shm? && b.w > 0 && b.h > 0
  {
    Tight(b.data, b.stride, 4 * b.w, b.h)
  }

  /** copy_shm_buffer: a new size needs a new block, which realloc may refuse. */
  function CopyShm(fe: Frontend, k: nat, b: Buffer, allocOk: bool): Frontend
    requires k < |fe.surfaces| && b.Shm?
  {
    var s := fe.surfaces[k];
    if b.w <= 0 || b.h <= 0 then fe
    else if s.cw == b.w && s.ch == b.h then SetSurface(fe, k, s.(pixels := Packed(b)))
    else if !allocOk then fe
    else SetSurface(fe.(heap := fe.heap + 1), k, s.(content := Heap(fe.heap), pixels := Packed(b), cw := b.w, ch := b.h))
  }

  /** The window fields a surface drives. */
  function Showing(w: Window, s: Surface): Window {
    w.(buf := s.content, bufW := s.cw, bufH := s.ch, bufStride := s.cw * 4)
  }

  /** The first content makes a focused NORMAL window at (x, y). */
  function MapAt(f: Front, k: nat, x: int, y: int): Front
    requires k < |f.fe.surfaces|
  {
    var s := f.fe.surfaces[k];
    var fe := f.fe.(cascade := f.fe.cascade + 1);
    var made := Create(f.st, Normal, x, y, s.cw, s.ch + TITLEBAR_H, 0x00202020);
    if made.1 == 0 then Front(made.0, fe)
    else
      var i := IndexOf(made.0.ws, made.1);
      var shown := if i < 0 then made.0 else made.0.(ws := made.0.ws[i := Showing(made.0.ws[i], s)]);
      Front(Focus(shown, made.1), SetSurface(fe, k, s.(serverId := made.1)))
  }

  /** Later content updates the window and resizes it. */
  function Update(st: Stack, s: Surface): Stack {
    var i := IndexOf(st.ws, s.serverId);
    if i < 0 then st else st.(ws := st.ws[i := Showing(st.ws[i], s).(w := s.cw, h := s.ch + TITLEBAR_H)])
  }

  /** New windows cascade over eight places. */
  function Cascade(base: int, n: nat): int { base + 40 * (n % 8) }

  /** surface_map_or_update */
  function MapOrUpdate(f: Front, k: nat): Front
    requires k < |f.fe.surfaces|
  {
    if f.fe.surfaces[k].serverId != 0 then f.(st := Update(f.st, f.fe.surfaces[k]))
    else MapAt(f, k, Cascade(120, f.fe.cascade), Cascade(90, f.fe.cascade))
  }

  /** surface_unmap: the window goes and the content is freed. */
  function Unmap(f: Front, k: nat): Front
    requires k < |f.fe.surfaces|
  {
    var s := f.fe.surfaces[k];
    Front(if s.serverId != 0 then Destroy(f.st, s.serverId) else f.st,
          SetSurface(f.fe, k, s.(content := Null, pixels := [], cw := 0, ch := 0, serverId := 0)))
  }

  // ---- requests ------------------------------------------------------------------

  /** The first commit of an xdg surface; its size is left to the client. */
  function Configure(fe: Frontend, k: nat): Frontend
    requires k < |fe.surfaces|
  {
    var s := fe.surfaces[k];
    SetSurface(fe, k, s.(configured := true)).(sent := fe.sent + if s.toplevel then [Configured(0, 0)] else [])
  }

  /** surf_commit. The first commit of an xdg surface only configures it. */
  function Commit(f: Front, k: nat, allocOk: bool): Front
    requires k < |f.fe.surfaces|
  {
    var s := f.fe.surfaces[k];
    if s.xdgSurface && !s.configured then f.(fe := Configure(f.fe, k))
    else if !s.attached then f
    else
      var taken := f.(fe := SetSurface(f.fe, k, s.(attached := false, pending := NoBuffer)));
      match s.pending
      case NoBuffer => Unmap(taken, k)
      case Attached(Dmabuf) => taken
      case Attached(b) =>
        var copied := taken.(fe := CopyShm(taken.fe, k, b, allocOk));
        var c := copied.fe.surfaces[k];
        if c.content.Heap? && c.toplevel then MapOrUpdate(copied, k) else copied
  }

  datatype Request =
    | CreateSurface
    | GetXdgSurface(k: nat)
    | GetToplevel(k: nat)
    | Attach(k: nat, pending: Pending)
    | CommitSurface(k: nat, allocOk: bool)
    | DestroyToplevel(k: nat)
    | DestroyXdgSurface(k: nat)
    | DestroySurface(k: nat)

  /** Requests name a surface that exists. */
  predicate Names(fe: Frontend, r: Request) { r.CreateSurface? || r.k < |fe.surfaces| }

  function Serve(f: Front, r: Request): Front
    requires Names(f.fe, r)
  {
    match r
    case CreateSurface => f.(fe := f.fe.(surfaces := [NEW_SURFACE] + f.fe.surfaces))
    case GetXdgSurface(k) => f.(fe := SetSurface(f.fe, k, f.fe.surfaces[k].(xdgSurface := true)))
    case GetToplevel(k) => f.(fe := SetSurface(f.fe, k, f.fe.surfaces[k].(toplevel := true)))
    case Attach(k, p) => f.(fe := SetSurface(f.fe, k, f.fe.surfaces[k].(attached := true, pending := p)))
    case CommitSurface(k, allocOk) => Commit(f, k, allocOk)
    case DestroyToplevel(k) => Unmap(f.(fe := SetSurface(f.fe, k, f.fe.surfaces[k].(toplevel := false))), k)
    case DestroyXdgSurface(k) => f.(fe := SetSurface(f.fe, k, f.fe.surfaces[k].(xdgSurface := false)))
    case DestroySurface(k) =>
      var u := Unmap(f, k);
      u.(fe := u.fe.(surfaces := u.fe.surfaces[..k] + u.fe.surfaces[k + 1..]))
  }

  // ---- pointer -------------------------------------------------------------------

  /** The Wayland window whose content is under the point, or 0. */
  function PointerOver(ws: seq<Window>, fe: Frontend, gx: int, gy: int): nat {
    var i := At(ws, gx, gy);
    if i < 0 then 0
    else
      var k := SurfaceOf(fe.surfaces, ws[i].id);
      if k < 0 then 0
      else
        var lx, ly := gx - ws[i].x, gy - (ws[i].y + TITLEBAR_H);
        if 0 <= ly < fe.surfaces[k].ch && 0 <= lx < fe.surfaces[k].cw then ws[i].id else 0
  }

  /** The point in the content of the topmost window under it. */
  function LocalX(ws: seq<Window>, gx: int, gy: int): int {
    var i := At(ws, gx, gy);
    if i < 0 then 0 else gx - ws[i].x
  }

  function LocalY(ws: seq<Window>, gx: int, gy: int): int {
    var i := At(ws, gx, gy);
    if i < 0 then 0 else gy - (ws[i].y + TITLEBAR_H)
  }

  /** The events of one motion when the pointer is now over the content of window `to` (0: over
      none): the surface it left, if it is still there, and the one it entered are told, then the
      motion itself is. */
  function MotionEvents(fe: Frontend, to: nat, lx: int, ly: int): seq<Sent> {
    (if to != fe.pointerFocus && SurfaceOf(fe.surfaces, fe.pointerFocus) >= 0 then [PtrLeave(fe.pointerFocus)] else [])
    + (if to != fe.pointerFocus && to != 0 then [PtrEnter(to, lx, ly)] else [])
    + (if to != 0 then [PtrMotion(to, lx, ly)] else [])
  }

  /** wl_frontend_pointer_motion tells the surfaces and remembers which window has the pointer. */
  function PointerMotion(ws: seq<Window>, fe: Frontend, gx: int, gy: int): Frontend {
    var to := PointerOver(ws, fe, gx, gy);
    fe.(pointerFocus := to, sent := fe.sent + MotionEvents(fe, to, LocalX(ws, gx, gy), LocalY(ws, gx, gy)))
  }

  /** The surface a button event is sent to, or -1. */
  function ButtonTarget(fe: Frontend): int { SurfaceOf(fe.surfaces, fe.pointerFocus) }

  /** wl_frontend_pointer_button tells the surface that had the pointer at the last motion, if it
      is still there, wherever the cursor is now. */
  function PointerButton(fe: Frontend, code: nat, down: bool): Frontend {
    if ButtonTarget(fe) < 0 then fe else fe.(sent := fe.sent + [PtrButton(fe.pointerFocus, code, down)])
  }

  // ---- keyboard ------------------------------------------------------------------

  /** The surface a key is sent to, or -1. */
  function KeyTarget(fe: Frontend): int { SurfaceOf(fe.surfaces, fe.kbdFocus) }

  /** wl_frontend_keyboard_key tells the surface that had the keyboard when the last turn ended. */
  function KeyboardKey(fe: Frontend, code: nat, down: bool): Frontend {
    if KeyTarget(fe) < 0 then fe else fe.(sent := fe.sent + [KbdKey(fe.kbdFocus, code, down)])
  }

  /** A window of a surface has the keyboard while it is focused; otherwise no surface has it. */
  function KeyboardOver(fe: Frontend, id: nat): nat { if SurfaceOf(fe.surfaces, id) >= 0 then id else 0 }

  /** wl_frontend_keyboard_focus: when that changes, the old surface, if it is still there, and the
      new one are told. */
  function KeyboardFocus(fe: Frontend, id: nat): Frontend {
    var to := KeyboardOver(fe, id);
    if to == fe.kbdFocus then fe
    else
      fe.(kbdFocus := to,
          sent := fe.sent + (if KeyTarget(fe) >= 0 then [KbdLeave(fe.kbdFocus)] else []) + (if to != 0 then [KbdEnter(to)] else []))
  }
}
