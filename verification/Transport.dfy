/** The native transport (src/transport.c, include/protocol.h) on values: client tables,
    handshake, buffers, client death, orphans and reclaim, focus events, input routing. */
module Transport {
  import opened Windows

  const MAX_CLIENTS: nat := 16
  const GRACE_MS: int := 5000

  const CL_MAGIC: nat := 0x4C435243
  const CL_VERSION: nat := 2
  const CL_MIN_VERSION: nat := 1
  const CL_BUF_SHM: nat := 0
  const FORMAT_XRGB8888: nat := 0x34325258
  const CURSOR_MAX: nat := 64
  const MAX_FDS: nat := 2

  // Sizes of the wire structures, which the receiver checks before reading one.
  const TYPE_SIZE: int := 4
  const HELLO_V1_SIZE: int := 16
  const HELLO_SIZE: int := 20
  const CREATE_SIZE: int := 28
  const TITLE_SIZE: int := 72
  const COMMIT_SIZE: int := 48
  const DESTROY_SIZE: int := 8
  const GEOMETRY_SIZE: int := 24
  const CURSOR_SIZE: int := 24

  type U32 = n: nat | n < 0x1_0000_0000

  /** C's conversions between uint32_t and int. */
  function AsInt(u: U32): int { if u < 0x8000_0000 then u else u - 0x1_0000_0000 }

  function AsU32(n: int): U32 { n % 0x1_0000_0000 }

  /** A client's window: its wire id (0 marks a free slot), the server window, its buffer. */
  datatype ClWin = ClWin(wid: nat, serverId: nat, buf: Ptr, bufLen: nat)

  const FREE_SLOT := ClWin(0, 0, Null, 0)

  type Table = seq<ClWin>

  function NoWindows(): (t: Table)
    ensures |t| == WIN_MAX && forall j | 0 <= j < WIN_MAX :: t[j] == FREE_SLOT
  {
    seq(WIN_MAX, _ => FREE_SLOT)
  }

  /** Messages the server sends. FocusEvent also records which server window its wid named. */
  datatype Event =
    | Welcome(version: nat, sw: int, sh: int, token: nat)
    | Configure(wid: nat, x: int, y: int, w: U32, h: U32)
    | FocusEvent(wid: nat, serverId: nat, gained: bool)
    | MotionEvent(wid: nat, x: int, y: int)
    | ButtonEvent(wid: nat, x: int, y: int, code: nat, pressed: bool)
    | KeyEvent(wid: nat, code: nat, pressed: bool)
    | ScreenEvent(w: U32, h: U32)

  /** A client slot (fd -1 when free); sent is what its connection has been sent so far. */
  datatype Client = Client(fd: int, hello: bool, token: nat, wins: Table, sent: seq<Event>)

  function FreeClient(): Client { Client(-1, false, 0, NoWindows(), []) }

  datatype Orphan = Orphan(token: nat, deadline: int, wins: Table)

  function FreeOrphan(): Orphan { Orphan(0, 0, NoWindows()) }

  datatype Cursor = Cursor(custom: bool, hidden: bool, w: int, h: int, hotX: int, hotY: int, argb: seq<nat>)

  /** What the kernel keeps for the server: its live mappings (with length, and the window each
      was made for), those released so far, and the descriptors closed so far. */
  datatype MapInfo = MapInfo(len: nat, window: nat)
  datatype Kernel = Kernel(live: map<nat, MapInfo>, nextMap: nat, released: multiset<nat>, closed: multiset<int>)

  datatype Tp = Tp(
    sw: int, sh: int, clients: seq<Client>, orphans: seq<Orphan>,
    focused: nat, nextToken: nat, cursor: Cursor, kern: Kernel)

  /** The shared stack together with the transport that works on it. */
  datatype Scene = Scene(st: Stack, tp: Tp)

  // ---- messages ------------------------------------------------------------

  datatype Body =
    | Hello(magic: U32, version: U32, minVersion: U32, reconnect: U32)
    | CreateWindow(wid: U32, role: U32, x: int, y: int, w: U32, h: U32)
    | SetTitle(wid: U32)
    | Commit(wid: U32, kind: U32, width: U32, height: U32, stride: U32, format: U32, hasFence: bool)
    | DestroyWindow(wid: U32)
    | SetGeometry(wid: U32, x: int, y: int, w: U32, h: U32)
    | SetCursor(width: U32, height: U32, hotX: int, hotY: int, hide: bool)
    | Unknown

  /** One datagram: its length in bytes and the message its first word names. */
  datatype Datagram = Datagram(len: int, body: Body)

  /** What mmap answers for a descriptor: failure, or the words behind it. */
  datatype Mmap = MapFailed | Mapped(words: seq<nat>)

  function RoleFromWire(r: U32): Role {
    if r == 1 then Desktop
    else if r == 2 then Taskbar
    else if r == 3 then Tray
    else if r == 4 then Menu
    else if r == 5 then Tooltip
    else Normal
  }

  // ---- tables ----------------------------------------------------------------

  function FindFrom(wins: Table, wid: nat, from: nat): (j: int)
    requires from <= |wins|
    ensures j == -1 || (from <= j < |wins| && wins[j].wid == wid)
    ensures forall i | from <= i < (if j < 0 then |wins| else j) :: wins[i].wid != wid
    decreases |wins| - from
  {
    if from == |wins| then -1 else if wins[from].wid == wid then from else FindFrom(wins, wid, from + 1)
  }

  /** win_find: the slot of a client window, or -1. */
  function WinFind(wins: Table, wid: nat): (j: int)
    ensures j == -1 || (0 <= j < |wins| && wins[j].wid == wid && wid != 0)
    ensures j < 0 ==> wid == 0 || forall i | 0 <= i < |wins| :: wins[i].wid != wid
  {
    if wid == 0 then -1 else FindFrom(wins, wid, 0)
  }

  /** win_alloc: the first free slot, or -1. */
  function WinAlloc(wins: Table): (j: int)
    ensures j == -1 || (0 <= j < |wins| && wins[j].wid == 0)
    ensures j < 0 ==> forall i | 0 <= i < |wins| :: wins[i].wid != 0
  {
    FindFrom(wins, 0, 0)
  }

  function SlotFrom(wins: Table, id: nat, from: nat): (j: int)
    requires from <= |wins|
    ensures j == -1 || (from <= j < |wins| && wins[j].wid != 0 && wins[j].serverId == id)
    ensures j < 0 ==> forall i | from <= i < |wins| :: !(wins[i].wid != 0 && wins[i].serverId == id)
    decreases |wins| - from
  {
    if from == |wins| then -1
    else if wins[from].wid != 0 && wins[from].serverId == id then from
    else SlotFrom(wins, id, from + 1)
  }

  function CountFrom(wins: Table, from: nat): (n: nat)
    requires from <= |wins|
    ensures n == 0 <==> forall i | from <= i < |wins| :: wins[i].wid == 0
    decreases |wins| - from
  {
    if from == |wins| then 0 else (if wins[from].wid != 0 then 1 else 0) + CountFrom(wins, from + 1)
  }

  predicate ShellRole(r: Role) { r.Taskbar? || r.Desktop? || r.Tray? }

  /** Does the table hold a live shell window from slot `from` on? */
  predicate ShellFrom(ws: seq<Window>, wins: Table, from: nat)
    requires from <= |wins|
    decreases |wins| - from
  {
    if from == |wins| then false
    else
      var i := IndexOf(ws, wins[from].serverId);
      (wins[from].wid != 0 && i >= 0 && ShellRole(ws[i].role)) || ShellFrom(ws, wins, from + 1)
  }

  function ClientFrom(cs: seq<Client>, fd: int, from: nat): (i: int)
    requires from <= |cs|
    ensures i == -1 || (from <= i < |cs| && cs[i].fd == fd)
    ensures forall k | from <= k < (if i < 0 then |cs| else i) :: cs[k].fd != fd
    decreases |cs| - from
  {
    if from == |cs| then -1 else if cs[from].fd == fd then from else ClientFrom(cs, fd, from + 1)
  }

  /** client_by_fd: the first slot with this descriptor (-1 asks for a free slot). */
  function ClientByFd(cs: seq<Client>, fd: int): (i: int)
    ensures i == -1 || (0 <= i < |cs| && cs[i].fd == fd)
    ensures i < 0 ==> forall k | 0 <= k < |cs| :: cs[k].fd != fd
  {
    ClientFrom(cs, fd, 0)
  }

  function OrphanFrom(os: seq<Orphan>, token: nat, from: nat): (i: int)
    requires from <= |os|
    ensures i == -1 || (from <= i < |os| && os[i].token == token)
    ensures forall k | from <= k < (if i < 0 then |os| else i) :: os[k].token != token
    decreases |os| - from
  {
    if from == |os| then -1 else if os[from].token == token then from else OrphanFrom(os, token, from + 1)
  }

  /** The first orphan slot with this token (0 asks for a free slot), or -1. */
  function FindOrphan(os: seq<Orphan>, token: nat): (i: int)
    ensures i == -1 || (0 <= i < |os| && os[i].token == token)
    ensures i < 0 ==> forall k | 0 <= k < |os| :: os[k].token != token
  {
    OrphanFrom(os, token, 0)
  }

  datatype Owner = NoOwner | Owner(client: nat, slot: nat)

  function OwnerFrom(cs: seq<Client>, id: nat, from: nat): (o: Owner)
    requires from <= |cs|
    ensures o.Owner? ==> from <= o.client < |cs| && cs[o.client].fd >= 0 && o.slot < |cs[o.client].wins|
                         && cs[o.client].wins[o.slot].wid != 0 && cs[o.client].wins[o.slot].serverId == id
    ensures o.NoOwner? ==> forall c, j | from <= c < |cs| && cs[c].fd >= 0 && 0 <= j < |cs[c].wins| ::
                             !(cs[c].wins[j].wid != 0 && cs[c].wins[j].serverId == id)
    decreases |cs| - from
  {
    if from == |cs| then NoOwner
    else if cs[from].fd >= 0 && SlotFrom(cs[from].wins, id, 0) >= 0 then Owner(from, SlotFrom(cs[from].wins, id, 0))
    else OwnerFrom(cs, id, from + 1)
  }

  /** find_by_server_id: the connected client and slot that own a server window. */
  function FindOwner(cs: seq<Client>, id: nat): (o: Owner)
    ensures o.Owner? ==> id != 0 && o.client < |cs| && cs[o.client].fd >= 0 && o.slot < |cs[o.client].wins|
                         && cs[o.client].wins[o.slot].wid != 0 && cs[o.client].wins[o.slot].serverId == id
    ensures o.NoOwner? ==> id == 0 || forall c, j | 0 <= c < |cs| && cs[c].fd >= 0 && 0 <= j < |cs[c].wins| ::
                             !(cs[c].wins[j].wid != 0 && cs[c].wins[j].serverId == id)
  {
    if id == 0 then NoOwner else OwnerFrom(cs, id, 0)
  }

  // ---- kernel ----------------------------------------------------------------

  function Closed(k: Kernel, fds: seq<int>): Kernel { k.(closed := k.closed + multiset(fds)) }

  function MapNew(k: Kernel, len: nat, window: nat): Kernel {
    k.(live := k.live[k.nextMap := MapInfo(len, window)], nextMap := k.nextMap + 1)
  }

  function Unmap(k: Kernel, m: nat): Kernel {
    k.(live := k.live - {m}, released := k.released + multiset{m})
  }

  // ---- sending ---------------------------------------------------------------

  function SendTo(cs: seq<Client>, ci: nat, e: Event): seq<Client>
    requires ci < |cs|
  {
    cs[ci := cs[ci].(sent := cs[ci].sent + [e])]
  }

  /** One CL_FOCUS message to whoever owns the window; nobody hears about a window without
      a connected owner. */
  function TellFocus(cs: seq<Client>, id: nat, gained: bool): seq<Client> {
    match FindOwner(cs, id)
    case NoOwner => cs
    case Owner(c, j) => SendTo(cs, c, FocusEvent(cs[c].wins[j].wid, id, gained))
  }

  /** notify_focus: lost to the old owner, gained to the new one. */
  function NotifyFocus(tp: Tp, id: nat): Tp {
    if id == tp.focused then tp
    else tp.(clients := TellFocus(TellFocus(tp.clients, tp.focused, false), id, true), focused := id)
  }

  // ---- buffers ---------------------------------------------------------------

  function SetBuf(s: Stack, id: nat, buf: Ptr, w: int, h: int, stride: int): Stack {
    var i := IndexOf(s.ws, id);
    if i < 0 then s else s.(ws := s.ws[i := s.ws[i].(buf := buf, bufW := w, bufH := h, bufStride := stride)])
  }

  function ClearBuf(s: Stack, id: nat): Stack {
    var i := IndexOf(s.ws, id);
    if i < 0 then s else s.(ws := s.ws[i := s.ws[i].(buf := Null)])
  }

  /** win_drop_buffer on the stack and on the kernel; the slot itself forgets its buffer. */
  function DropBufSt(s: Stack, w: ClWin): Stack { if w.buf.Mapping? then ClearBuf(s, w.serverId) else s }

  function DropBufK(k: Kernel, w: ClWin): Kernel { if w.buf.Mapping? then Unmap(k, w.buf.m) else k }

  /** Reap the occupied slots of a table from `from` on: drop the buffer, destroy the window. */
  function ReapSt(s: Stack, wins: Table, from: nat): Stack
    requires from <= |wins|
    decreases |wins| - from
  {
    if from == |wins| then s
    else if wins[from].wid == 0 then ReapSt(s, wins, from + 1)
    else ReapSt(Destroy(DropBufSt(s, wins[from]), wins[from].serverId), wins, from + 1)
  }

  function ReapK(k: Kernel, wins: Table, from: nat): Kernel
    requires from <= |wins|
    decreases |wins| - from
  {
    if from == |wins| then k
    else if wins[from].wid == 0 then ReapK(k, wins, from + 1)
    else ReapK(DropBufK(k, wins[from]), wins, from + 1)
  }

  // ---- request handlers --------------------------------------------------------

  function Decorate(s: Stack, id: nat): Stack {
    var i := IndexOf(s.ws, id);
    if i < 0 then s else s.(ws := s.ws[i := s.ws[i].(appDecorated := true)])
  }

  /** Placement by role: a NORMAL window takes focus, a wallpaper is fitted to the screen and
      sinks to the bottom, everything else stays on top unfocused. */
  function Place(s: Stack, id: nat, role: Role, sw: int, sh: int): Stack {
    if role.Normal? then Focus(s, id)
    else if role.Desktop? then Lower(Windows.SetGeometry(s, id, 0, 0, sw, sh), id)
    else s
  }

  function WidthOr(u: U32, default: int): int { if u != 0 then AsInt(u) else default }

  function ClaimSlot(cs: seq<Client>, ci: nat, j: nat, wid: nat, id: nat): seq<Client>
    requires ci < |cs| && j < |cs[ci].wins|
  {
    cs[ci := cs[ci].(wins := cs[ci].wins[j := cs[ci].wins[j].(wid := wid, serverId := id)])]
  }

  /** The CONFIGURE that tells a client where its window is. */
  function ConfigureFor(wid: nat, w: Window): Event { Configure(wid, w.x, w.y, AsU32(w.w), AsU32(w.h)) }

  function Announce(s: Stack, cs: seq<Client>, ci: nat, wid: nat, id: nat): seq<Client>
    requires ci < |cs|
  {
    var i := IndexOf(s.ws, id);
    if i < 0 then cs else SendTo(cs, ci, ConfigureFor(wid, s.ws[i]))
  }

  /** Would a CREATE_WINDOW for this wid get a window? */
  predicate Creates(sc: Scene, ci: nat, wid: nat)
    requires ci < |sc.tp.clients|
  {
    WinFind(sc.tp.clients[ci].wins, wid) < 0 && WinAlloc(sc.tp.clients[ci].wins) >= 0 && |sc.st.ws| < WIN_MAX
  }

  function OnCreate(sc: Scene, ci: nat, m: Body): Scene
    requires ci < |sc.tp.clients| && m.CreateWindow?
  {
    if !Creates(sc, ci, m.wid) then sc
    else
      var role := RoleFromWire(m.role);
      var made := Create(sc.st, role, m.x, m.y, WidthOr(m.w, 320), WidthOr(m.h, 240), 0x00202020);
      var id := made.1;
      var st := Place(Decorate(made.0, id), id, role, sc.tp.sw, sc.tp.sh);
      var owned := ClaimSlot(sc.tp.clients, ci, WinAlloc(sc.tp.clients[ci].wins), m.wid, id);
      var tp := sc.tp.(clients := Announce(st, owned, ci, m.wid, id));
      Scene(st, if role.Normal? then NotifyFocus(tp, id) else tp)
  }

  /** The descriptors a COMMIT still holds once its fence has been waited for and closed. */
  function AfterFence(m: Body, fds: seq<int>): seq<int>
    requires m.Commit?
  {
    if m.hasFence && |fds| >= 2 then fds[..1] else fds
  }

  /** The descriptors on_commit closes. */
  function CommitCloses(m: Body, fds: seq<int>): seq<int>
    requires m.Commit?
  {
    (if m.hasFence && |fds| >= 2 then [fds[1]] else []) + (if |fds| >= 1 then [fds[0]] else [])
  }

  /** An accepted buffer: slot j and its window switch to a fresh mapping of the whole buffer,
      the previous mapping is released. */
  function Show(sc: Scene, ci: nat, j: nat, m: Body): Scene
    requires ci < |sc.tp.clients| && j < |sc.tp.clients[ci].wins| && m.Commit?
  {
    var c, k := sc.tp.clients[ci], sc.tp.kern;
    var id, len, base := c.wins[j].serverId, m.stride * m.height, Mapping(k.nextMap);
    Scene(SetBuf(DropBufSt(sc.st, c.wins[j]), id, base, AsInt(m.width), AsInt(m.height), AsInt(m.stride)),
          sc.tp.(clients := sc.tp.clients[ci := c.(wins := c.wins[j := c.wins[j].(buf := base, bufLen := len)])],
                 kern := DropBufK(MapNew(k, len, id), c.wins[j])))
  }

  predicate CommitAccepted(sc: Scene, ci: nat, m: Body, fds: seq<int>, mem: Mmap)
    requires ci < |sc.tp.clients| && m.Commit?
  {
    var wins := sc.tp.clients[ci].wins;
    var j := WinFind(wins, m.wid);
    && |AfterFence(m, fds)| >= 1 && j >= 0 && m.kind == CL_BUF_SHM
    && IndexOf(sc.st.ws, wins[j].serverId) >= 0
    && m.format == FORMAT_XRGB8888 && m.stride != 0 && m.height != 0
    && mem.Mapped?
  }

  function OnCommit(sc: Scene, ci: nat, m: Body, fds: seq<int>, mem: Mmap): Scene
    requires ci < |sc.tp.clients| && m.Commit?
  {
    var closed := sc.(tp := sc.tp.(kern := Closed(sc.tp.kern, CommitCloses(m, fds))));
    if CommitAccepted(sc, ci, m, fds, mem) then Show(closed, ci, WinFind(sc.tp.clients[ci].wins, m.wid), m) else closed
  }

  function OnDestroyWindow(sc: Scene, ci: nat, m: Body): Scene
    requires ci < |sc.tp.clients| && m.DestroyWindow?
  {
    var c := sc.tp.clients[ci];
    var j := WinFind(c.wins, m.wid);
    if j < 0 then sc
    else
      Scene(Destroy(DropBufSt(sc.st, c.wins[j]), c.wins[j].serverId),
            sc.tp.(clients := sc.tp.clients[ci := c.(wins := c.wins[j := FREE_SLOT])],
                   kern := DropBufK(sc.tp.kern, c.wins[j])))
  }

  /** A client's geometry request is honoured, except for the wallpaper. */
  function OnSetGeometry(sc: Scene, ci: nat, m: Body): Scene
    requires ci < |sc.tp.clients| && m.SetGeometry?
  {
    var c := sc.tp.clients[ci];
    var j := WinFind(c.wins, m.wid);
    if j < 0 then sc
    else
      var i := IndexOf(sc.st.ws, c.wins[j].serverId);
      if i >= 0 && sc.st.ws[i].role.Desktop? then sc
      else sc.(st := Windows.SetGeometry(sc.st, c.wins[j].serverId, m.x, m.y, AsInt(m.w), AsInt(m.h)))
  }

  /** memcpy of the first n words of the client's shape over the old one. */
  function CopyShape(old_: seq<nat>, words: seq<nat>, n: nat): seq<nat> {
    seq(|old_|, i requires 0 <= i < |old_| => if i < n && i < |words| then words[i] else old_[i])
  }

  function OnSetCursor(tp: Tp, m: Body, fds: seq<int>, mem: Mmap): Tp
    requires m.SetCursor?
  {
    var k := Closed(tp.kern, fds);
    var w, h := AsInt(m.width), AsInt(m.height);
    if m.hide || |fds| < 1 then tp.(kern := k, cursor := tp.cursor.(custom := false, hidden := m.hide))
    else if w <= 0 || h <= 0 || w > CURSOR_MAX || h > CURSOR_MAX then tp.(kern := k)
    else if mem.MapFailed? then tp.(kern := k)
    else
      tp.(kern := Unmap(MapNew(k, w * h * 4, 0), k.nextMap),
          cursor := Cursor(true, false, w, h, m.hotX, m.hotY, CopyShape(tp.cursor.argb, mem.words, w * h)))
  }

  // ---- handshake and reconnect ---------------------------------------------------

  function Min(a: nat, b: nat): nat { if a < b then a else b }

  predicate HelloAccepted(m: Body)
    requires m.Hello?
  {
    var neg := Min(m.version, CL_VERSION);
    m.magic == CL_MAGIC && neg >= CL_MIN_VERSION && neg >= m.minVersion
  }

  /** The token a HELLO presents: a version 1 datagram is too short to carry one. */
  function Presented(d: Datagram): nat
    requires d.body.Hello?
  {
    if d.len >= HELLO_SIZE then d.body.reconnect else 0
  }

  /** client_reclaim: the orphan's windows move to the client and the orphan slot is freed. */
  function Reclaim(tp: Tp, ci: nat, token: nat): (Tp, nat)
    requires ci < |tp.clients|
  {
    var o := if token == 0 then -1 else FindOrphan(tp.orphans, token);
    if o < 0 then (tp, 0)
    else
      (tp.(clients := tp.clients[ci := tp.clients[ci].(wins := tp.orphans[o].wins, token := token)],
           orphans := tp.orphans[o := FreeOrphan()]),
       CountFrom(tp.orphans[o].wins, 0))
  }

  function OnHello(tp: Tp, ci: nat, d: Datagram): Tp
    requires ci < |tp.clients| && d.body.Hello?
  {
    var greeted := tp.(clients := tp.clients[ci := tp.clients[ci].(hello := true)]);
    var (t1, n) := Reclaim(greeted, ci, Presented(d));
    var t2 := if n > 0 then t1
              else t1.(nextToken := t1.nextToken + 1,
                       clients := t1.clients[ci := t1.clients[ci].(token := t1.nextToken + 1)]);
    t2.(clients := SendTo(t2.clients, ci, Welcome(CL_VERSION, t2.sw, t2.sh, t2.clients[ci].token)))
  }

  // ---- dispatch ------------------------------------------------------------------

  /** The handler answers: the new scene, and whether the client may stay. */
  datatype Reply = Reply(sc: Scene, keep: bool)

  function CloseAll(sc: Scene, fds: seq<int>): Scene { sc.(tp := sc.tp.(kern := Closed(sc.tp.kern, fds))) }

  function Refuse(sc: Scene, fds: seq<int>): Reply { Reply(CloseAll(sc, fds), false) }

  function Handshake(sc: Scene, ci: nat, d: Datagram, fds: seq<int>): Reply
    requires ci < |sc.tp.clients|
  {
    if !d.body.Hello? || d.len < HELLO_V1_SIZE || !HelloAccepted(d.body) then Refuse(sc, fds)
    else Reply(CloseAll(sc.(tp := OnHello(sc.tp, ci, d)), fds), true)
  }

  function Need(b: Body): int {
    match b
    case Hello(_, _, _, _) => 0
    case CreateWindow(_, _, _, _, _, _) => CREATE_SIZE
    case SetTitle(_) => TITLE_SIZE
    case Commit(_, _, _, _, _, _, _) => COMMIT_SIZE
    case DestroyWindow(_) => DESTROY_SIZE
    case SetGeometry(_, _, _, _, _) => GEOMETRY_SIZE
    case SetCursor(_, _, _, _, _) => CURSOR_SIZE
    case Unknown => 0
  }

  function Request(sc: Scene, ci: nat, b: Body, fds: seq<int>, mem: Mmap): Scene
    requires ci < |sc.tp.clients|
  {
    match b
    case CreateWindow(_, _, _, _, _, _) => CloseAll(OnCreate(sc, ci, b), fds)
    case Commit(_, _, _, _, _, _, _) => OnCommit(sc, ci, b, fds, mem)
    case DestroyWindow(_) => CloseAll(OnDestroyWindow(sc, ci, b), fds)
    case SetGeometry(_, _, _, _, _) => CloseAll(OnSetGeometry(sc, ci, b), fds)
    case SetCursor(_, _, _, _, _) => sc.(tp := OnSetCursor(sc.tp, b, fds, mem))
    case _ => CloseAll(sc, fds)
  }

  function Dispatch(sc: Scene, ci: nat, d: Datagram, fds: seq<int>, mem: Mmap): Reply
    requires ci < |sc.tp.clients|
  {
    if d.len < TYPE_SIZE then Refuse(sc, fds)
    else if !sc.tp.clients[ci].hello then Handshake(sc, ci, d, fds)
    else if d.len < Need(d.body) then Refuse(sc, fds)
    else Reply(Request(sc, ci, d.body, fds, mem), true)
  }

  // ---- client lifecycle ------------------------------------------------------------

  /** The orphan slot that will hold a dropped client's windows, or -1: only a shell client
      with a token is kept, and only while a slot is free. */
  function ParkingSlot(sc: Scene, ci: nat): (o: int)
    requires ci < |sc.tp.clients|
    ensures o == -1 || (0 <= o < |sc.tp.orphans| && sc.tp.orphans[o].token == 0)
  {
    var c := sc.tp.clients[ci];
    if CountFrom(c.wins, 0) > 0 && c.token != 0 && ShellFrom(sc.st.ws, c.wins, 0) then FindOrphan(sc.tp.orphans, 0)
    else -1
  }

  /** What client_drop does to the client's windows at time now. */
  function Vacate(sc: Scene, ci: nat, now: int): Scene
    requires ci < |sc.tp.clients|
  {
    var c, o := sc.tp.clients[ci], ParkingSlot(sc, ci);
    if o >= 0 then
      sc.(tp := sc.tp.(clients := sc.tp.clients[ci := FreeClient()],
                       orphans := sc.tp.orphans[o := Orphan(c.token, now + GRACE_MS, c.wins)]))
    else
      Scene(ReapSt(sc.st, c.wins, 0),
            sc.tp.(clients := sc.tp.clients[ci := FreeClient()], kern := ReapK(sc.tp.kern, c.wins, 0)))
  }

  /** client_drop at time now: the windows are parked or reaped, and the connection is closed. */
  function Drop(sc: Scene, ci: nat, now: int): Scene
    requires ci < |sc.tp.clients|
  {
    CloseAll(Vacate(sc, ci, now), [sc.tp.clients[ci].fd])
  }

  function OrphanDestroy(sc: Scene, o: nat): Scene
    requires o < |sc.tp.orphans|
  {
    var wins := sc.tp.orphans[o].wins;
    Scene(ReapSt(sc.st, wins, 0),
          sc.tp.(orphans := sc.tp.orphans[o := FreeOrphan()], kern := ReapK(sc.tp.kern, wins, 0)))
  }

  predicate Due(o: Orphan, now: int) { o.token != 0 && now >= o.deadline }

  /** orphans_expire at time now, from slot `from` on. */
  function ExpireFrom(sc: Scene, now: int, from: nat): Scene
    requires from <= |sc.tp.orphans|
    decreases |sc.tp.orphans| - from
  {
    if from == |sc.tp.orphans| then sc
    else if Due(sc.tp.orphans[from], now) then ExpireFrom(OrphanDestroy(sc, from), now, from + 1)
    else ExpireFrom(sc, now, from + 1)
  }

  function Expire(sc: Scene, now: int): Scene { ExpireFrom(sc, now, 0) }

  /** transport_add_client: a new connection takes the first free slot; it is closed again if there
      is none, or if the kernel will not watch it. */
  function AddClient(tp: Tp, fd: int, watched: bool): Tp {
    var ci := ClientByFd(tp.clients, -1);
    if ci < 0 then tp.(kern := Closed(tp.kern, [fd]))
    else if !watched then tp.(clients := tp.clients[ci := FreeClient()], kern := Closed(tp.kern, [fd]))
    else tp.(clients := tp.clients[ci := FreeClient().(fd := fd)])
  }

  /** client_readable for one datagram: a refused one drops the client. */
  function Receive(sc: Scene, ci: nat, d: Datagram, fds: seq<int>, mem: Mmap, now: int): Scene
    requires ci < |sc.tp.clients|
  {
    var r := Dispatch(sc, ci, d, fds, mem);
    if r.keep || ci >= |r.sc.tp.clients| then r.sc else Drop(r.sc, ci, now)
  }

  // ---- input routing -----------------------------------------------------------------

  function TitleBar(w: Window): int { if HasSsd(w) then TITLEBAR_H else 0 }

  /** The window whose client gets a pointer event at the point, or -1: the topmost one under
      it, unless the point is on a server title bar. */
  function PointerTarget(ws: seq<Window>, cx: int, cy: int): (i: int)
    ensures -1 <= i < |ws|
  {
    var i := At(ws, cx, cy);
    if i < 0 || cy < ws[i].y + TitleBar(ws[i]) then -1 else i
  }

  datatype Pointer = Moved | Pressed(code: nat, down: bool)

  function PointerEvent(p: Pointer, wid: nat, x: int, y: int): Event {
    match p
    case Moved => MotionEvent(wid, x, y)
    case Pressed(code, down) => ButtonEvent(wid, x, y, code, down)
  }

  /** A message to whoever owns a window; nobody gets it when there is no connected owner. */
  function SendOwner(tp: Tp, id: nat, e: Event): Tp {
    match FindOwner(tp.clients, id)
    case NoOwner => tp
    case Owner(c, _) => tp.(clients := SendTo(tp.clients, c, e))
  }

  /** The wid under which its owner knows a window. */
  function OwnerWid(cs: seq<Client>, id: nat): nat {
    match FindOwner(cs, id)
    case NoOwner => 0
    case Owner(c, j) => cs[c].wins[j].wid
  }

  /** transport_pointer_motion and transport_pointer_button. */
  function RoutePointer(st: Stack, tp: Tp, p: Pointer, cx: int, cy: int): Tp {
    var i := PointerTarget(st.ws, cx, cy);
    if i < 0 then tp
    else
      var w := st.ws[i];
      SendOwner(tp, w.id, PointerEvent(p, OwnerWid(tp.clients, w.id), cx - w.x, cy - w.y - TitleBar(w)))
  }

  /** transport_keyboard_key: the key goes to the client that owns the focused window. */
  function RouteKey(tp: Tp, focus: nat, code: nat, down: bool): Tp {
    SendOwner(tp, focus, KeyEvent(OwnerWid(tp.clients, focus), code, down))
  }

  /** transport_notify_geometry: the owner is told a window's new rectangle. */
  function NotifyGeometry(st: Stack, tp: Tp, id: nat): Tp {
    var i := IndexOf(st.ws, id);
    if i < 0 then tp else SendOwner(tp, id, ConfigureFor(OwnerWid(tp.clients, id), st.ws[i]))
  }

  /** transport_broadcast_screen, from client slot `from` on. */
  function BroadcastFrom(cs: seq<Client>, w: int, h: int, from: nat): (r: seq<Client>)
    requires from <= |cs|
    ensures |r| == |cs|
    decreases |cs| - from
  {
    if from == |cs| then cs
    else if cs[from].fd >= 0 && cs[from].hello then BroadcastFrom(SendTo(cs, from, ScreenEvent(AsU32(w), AsU32(h))), w, h, from + 1)
    else BroadcastFrom(cs, w, h, from + 1)
  }

  function Broadcast(tp: Tp, w: int, h: int): Tp {
    tp.(sw := w, sh := h, clients := BroadcastFrom(tp.clients, w, h, 0))
  }

  // ---- creation and teardown -----------------------------------------------------------

  function NoCursor(): Cursor {
    Cursor(false, false, 0, 0, 0, 0, seq(CURSOR_MAX * CURSOR_MAX, _ => 0))
  }

  function NewTransport(sw: int, sh: int): Tp {
    Tp(sw, sh, seq(MAX_CLIENTS, _ => FreeClient()), seq(MAX_CLIENTS, _ => FreeOrphan()), 0, 0, NoCursor(),
       Kernel(map[], 0, multiset{}, multiset{}))
  }

  /** transport_destroy: drop every client, then reap every orphan that left behind. */
  function DropAllFrom(sc: Scene, now: int, from: nat): Scene
    requires from <= |sc.tp.clients|
    decreases |sc.tp.clients| - from
  {
    if from == |sc.tp.clients| then sc
    else if sc.tp.clients[from].fd >= 0 then DropAllFrom(Drop(sc, from, now), now, from + 1)
    else DropAllFrom(sc, now, from + 1)
  }

  function ReapAllFrom(sc: Scene, from: nat): Scene
    requires from <= |sc.tp.orphans|
    decreases |sc.tp.orphans| - from
  {
    if from == |sc.tp.orphans| then sc
    else if sc.tp.orphans[from].token != 0 then ReapAllFrom(OrphanDestroy(sc, from), from + 1)
    else ReapAllFrom(sc, from + 1)
  }

  function Shutdown(sc: Scene, now: int): Scene { ReapAllFrom(DropAllFrom(sc, now, 0), 0) }
}
