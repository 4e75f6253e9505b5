/** The transport as the program keeps it (src/transport.c): fixed arrays of clients and orphans,
    scanned and cleared in place, over the shared stack. Every method is proved to do exactly
    what its counterpart in module Transport says. */
module TransportServers {
  import opened Windows
  import opened Transport
  import opened WindowStacks

  /** win_find */
  method FindWindow(wins: Table, wid: nat) returns (j: int)
    ensures j == WinFind(wins, wid)
  {
    if wid == 0 { return -1; }
    j := 0;
    while j < |wins|
      invariant 0 <= j <= |wins|
      invariant FindFrom(wins, wid, j) == FindFrom(wins, wid, 0)
    {
      if wins[j].wid == wid { return; }
      j := j + 1;
    }
    j := -1;
  }

  /** win_alloc */
  method AllocWindow(wins: Table) returns (j: int)
    ensures j == WinAlloc(wins)
  {
    j := 0;
    while j < |wins|
      invariant 0 <= j <= |wins|
      invariant FindFrom(wins, 0, j) == FindFrom(wins, 0, 0)
    {
      if wins[j].wid == 0 { return; }
      j := j + 1;
    }
    j := -1;
  }

  method CountWindows(wins: Table) returns (n: nat)
    ensures n == CountFrom(wins, 0)
  {
    n := 0;
    var j := 0;
    while j < |wins|
      invariant 0 <= j <= |wins|
      invariant n + CountFrom(wins, j) == CountFrom(wins, 0)
    {
      if wins[j].wid != 0 { n := n + 1; }
      j := j + 1;
    }
  }

  lemma ClosedTwice(k: Kernel, a: seq<int>, b: seq<int>)
    ensures Closed(Closed(k, a), b) == Closed(k, a + b)
  {
  }

  class TransportServer {
    const stack: WindowStack
    const clients: array<Client>
    const orphans: array<Orphan>
    /** The listening and the epoll descriptor, or -1. */
    const listenFd: int
    const epollFd: int
    var sw: int
    var sh: int
    var focused: nat
    var nextToken: nat
    var cursor: Cursor
    /** The kernel's side: mappings and closed descriptors. */
    var kern: Kernel

    ghost predicate Valid()
      reads stack
    {
      stack.Valid()
    }

    ghost function T(): Tp
      reads this, clients, orphans
    {
      Tp(sw, sh, clients[..], orphans[..], focused, nextToken, cursor, kern)
    }

    ghost function State(): Scene
      requires Valid()
      reads this, clients, orphans, stack, stack.windows
    {
      Scene(stack.S(), T())
    }

    /** transport_create */
    constructor (stack: WindowStack, sw: int, sh: int, listenFd: int, epollFd: int)
      ensures this.stack == stack && fresh(clients) && fresh(orphans) && T() == NewTransport(sw, sh)
      ensures this.listenFd == listenFd && this.epollFd == epollFd
    {
      this.stack, this.sw, this.sh, this.listenFd, this.epollFd := stack, sw, sh, listenFd, epollFd;
      clients := new Client[MAX_CLIENTS](_ => FreeClient());
      orphans := new Orphan[MAX_CLIENTS](_ => FreeOrphan());
      focused, nextToken, cursor := 0, 0, NoCursor();
      kern := Kernel(map[], 0, multiset{}, multiset{});
    }

    // ---- small helpers ---------------------------------------------------------------

    method SetClient(ci: nat, c: Client)
      requires ci < clients.Length
      modifies clients
      ensures T() == old(T()).(clients := old(clients[..])[ci := c])
    {
      clients[ci] := c;
      assert clients[..] == old(clients[..])[ci := c];
    }

    method SetOrphan(o: nat, p: Orphan)
      requires o < orphans.Length
      modifies orphans
      ensures T() == old(T()).(orphans := old(orphans[..])[o := p])
    {
      orphans[o] := p;
      assert orphans[..] == old(orphans[..])[o := p];
    }

    /** cl_send on a client's connection. */
    method Send(ci: nat, e: Event)
      requires ci < clients.Length
      modifies clients
      ensures T() == old(T()).(clients := SendTo(old(clients[..]), ci, e))
    {
      SetClient(ci, clients[ci].(sent := clients[ci].sent + [e]));
    }

    /** close_fds */
    method CloseFds(fds: seq<int>)
      modifies this`kern
      ensures T() == old(T()).(kern := Closed(old(kern), fds))
    {
      var i := 0;
      while i < |fds|
        invariant 0 <= i <= |fds|
        invariant kern == Closed(old(kern), fds[..i])
      {
        assert fds[..i + 1] == fds[..i] + [fds[i]];
        kern := kern.(closed := kern.closed + multiset{fds[i]});
        i := i + 1;
      }
      assert fds[..|fds|] == fds;
    }

    /** client_by_fd */
    method ClientByFd(fd: int) returns (i: int)
      ensures i == Transport.ClientByFd(clients[..], fd)
    {
      i := 0;
      while i < clients.Length
        invariant 0 <= i <= clients.Length
        invariant ClientFrom(clients[..], fd, i) == ClientFrom(clients[..], fd, 0)
      {
        if clients[i].fd == fd { return; }
        i := i + 1;
      }
      i := -1;
    }

    /** The first orphan slot with this token; 0 asks for a free one. */
    method OrphanByToken(token: nat) returns (i: int)
      ensures i == FindOrphan(orphans[..], token)
    {
      i := 0;
      while i < orphans.Length
        invariant 0 <= i <= orphans.Length
        invariant OrphanFrom(orphans[..], token, i) == OrphanFrom(orphans[..], token, 0)
      {
        if orphans[i].token == token { return; }
        i := i + 1;
      }
      i := -1;
    }

    /** The inner loop of find_by_server_id. */
    method SlotByServerId(wins: Table, id: nat) returns (j: int)
      ensures j == SlotFrom(wins, id, 0)
    {
      j := 0;
      while j < |wins|
        invariant 0 <= j <= |wins|
        invariant SlotFrom(wins, id, j) == SlotFrom(wins, id, 0)
      {
        if wins[j].wid != 0 && wins[j].serverId == id { return; }
        j := j + 1;
      }
      j := -1;
    }

    /** find_by_server_id */
    method FindByServerId(id: nat) returns (o: Owner)
      ensures o == FindOwner(clients[..], id)
    {
      if id == 0 { return NoOwner; }
      var i := 0;
      while i < clients.Length
        invariant 0 <= i <= clients.Length
        invariant OwnerFrom(clients[..], id, i) == OwnerFrom(clients[..], id, 0)
      {
        if clients[i].fd >= 0 {
          var j := SlotByServerId(clients[i].wins, id);
          if j >= 0 { return Owner(i, j); }
        }
        i := i + 1;
      }
      o := NoOwner;
    }

    // ---- focus ------------------------------------------------------------------------

    method Tell(id: nat, gained: bool)
      modifies clients
      ensures T() == old(T()).(clients := TellFocus(old(clients[..]), id, gained))
    {
      var o := FindByServerId(id);
      if o.Owner? { Send(o.client, FocusEvent(clients[o.client].wins[o.slot].wid, id, gained)); }
    }

    /** notify_focus */
    method NotifyFocus(id: nat)
      modifies this`focused, clients
      ensures T() == Transport.NotifyFocus(old(T()), id)
    {
      if id == focused { return; }
      Tell(focused, false);
      focused := id;
      Tell(id, true);
    }

    // ---- buffers ------------------------------------------------------------------------

    /** win_drop_buffer; the slot itself is written by the caller. */
    method DropBuffer(w: ClWin)
      requires Valid()
      modifies this`kern, stack.windows
      ensures Valid()
      ensures State() == Scene(DropBufSt(old(stack.S()), w), old(T()).(kern := DropBufK(old(kern), w)))
    {
      if w.buf.Mapping? {
        var i := stack.Index(w.serverId);
        if i >= 0 { stack.Store(i, stack.windows[i].(buf := Null)); }
        kern := Unmap(kern, w.buf.m);
      }
    }

    /** The loop of client_drop and orphan_destroy over a table of windows. */
    method Reap(wins: Table)
      requires Valid()
      modifies this`kern, stack, stack.windows
      ensures Valid()
      ensures State() == Scene(ReapSt(old(stack.S()), wins, 0), old(T()).(kern := ReapK(old(kern), wins, 0)))
    {
      hide DropBufSt, DropBufK, Windows.Destroy;
      var j := 0;
      while j < |wins|
        invariant 0 <= j <= |wins|
        invariant Valid() && T() == old(T()).(kern := kern)
        invariant ReapSt(stack.S(), wins, j) == ReapSt(old(stack.S()), wins, 0)
        invariant ReapK(kern, wins, j) == ReapK(old(kern), wins, 0)
      {
        if wins[j].wid != 0 {
          DropBuffer(wins[j]);
          stack.Destroy(wins[j].serverId);
        }
        j := j + 1;
      }
    }
  
    // ---- request handlers ------------------------------------------------------------------

    /** window_by_id(stack, id)->app_decorated = true */
    method Decorate(id: nat)
      requires Valid()
      modifies stack.windows
      ensures Valid() && State() == Scene(Transport.Decorate(old(stack.S()), id), old(T()))
    {
      var i := stack.Index(id);
      if i >= 0 { stack.Store(i, stack.windows[i].(appDecorated := true)); }
    }

    /** Placement by role. */
    method Place(id: nat, role: Role)
      requires Valid()
      modifies stack, stack.windows
      ensures Valid() && State() == Scene(Transport.Place(old(stack.S()), id, role, sw, sh), old(T()))
    {
      if role.Normal? {
        stack.Focus(id);
      } else if role.Desktop? {
        stack.SetGeometry(id, 0, 0, sw, sh);
        stack.Lower(id);
      }
    }

    /** The CONFIGURE for a new window. */
    method Announce(ci: nat, wid: nat, id: nat)
      requires Valid() && ci < clients.Length
      modifies clients
      ensures Valid() && T() == old(T()).(clients := Transport.Announce(stack.S(), old(clients[..]), ci, wid, id))
    {
      var i := stack.Index(id);
      if i >= 0 { Send(ci, ConfigureFor(wid, stack.windows[i])); }
    }

    method Claim(ci: nat, j: nat, wid: nat, id: nat)
      requires ci < clients.Length && j < |clients[ci].wins|
      modifies clients
      ensures T() == old(T()).(clients := ClaimSlot(old(clients[..]), ci, j, wid, id))
    {
      var c := clients[ci];
      SetClient(ci, c.(wins := c.wins[j := c.wins[j].(wid := wid, serverId := id)]));
    }

    /** on_create_window */
    method OnCreateWindow(ci: nat, m: Body)
      requires Valid() && ci < clients.Length && m.CreateWindow?
      modifies this`focused, clients, stack, stack.windows
      ensures Valid() && State() == OnCreate(old(State()), ci, m)
    {
      hide Transport.Place, Transport.Announce, ClaimSlot, Transport.NotifyFocus, Transport.Decorate;
      var dup := FindWindow(clients[ci].wins, m.wid);
      if dup >= 0 { return; }
      var j := AllocWindow(clients[ci].wins);
      if j < 0 { return; }
      var w, h := WidthOr(m.w, 320), WidthOr(m.h, 240);
      var role := RoleFromWire(m.role);
      if stack.count >= WIN_MAX { return; }
      var id := stack.Create(role, m.x, m.y, w, h, 0x00202020);
      Claim(ci, j, m.wid, id);
      Decorate(id);
      Place(id, role);
      Announce(ci, m.wid, id);
      if role.Normal? { NotifyFocus(id); }
    }

    /** The new frame of window and slot. */
    method Attach(ci: nat, j: nat, m: Body)
      requires Valid() && ci < clients.Length && j < |clients[ci].wins| && m.Commit?
      modifies this`kern, clients, stack.windows
      ensures Valid() && State() == Show(old(State()), ci, j, m)
    {
      hide DropBufSt, DropBufK;
      var c := clients[ci];
      var base, len, slot := Mapping(kern.nextMap), m.stride * m.height, c.wins[j];
      kern := MapNew(kern, len, slot.serverId);
      DropBuffer(slot);
      var i := stack.Index(slot.serverId);
      if i >= 0 {
        stack.Store(i, stack.windows[i].(buf := base, bufW := AsInt(m.width), bufH := AsInt(m.height), bufStride := AsInt(m.stride)));
      }
      SetClient(ci, c.(wins := c.wins[j := slot.(buf := base, bufLen := len)]));
    }

    /** The descriptors of a COMMIT: the fence is waited for and closed, then the buffer's
        descriptor is closed whatever becomes of the buffer. */
    method CloseCommitted(m: Body, fds: seq<int>) returns (held: bool)
      requires m.Commit?
      modifies this`kern
      ensures held == (|AfterFence(m, fds)| >= 1) && T() == old(T()).(kern := Closed(old(kern), CommitCloses(m, fds)))
    {
      var n := |fds|;
      if m.hasFence && n >= 2 {
        CloseFds([fds[1]]);
        n := 1;
      }
      held := n >= 1;
      if held {
        CloseFds([fds[0]]);
        if m.hasFence && |fds| >= 2 { ClosedTwice(old(kern), [fds[1]], [fds[0]]); }
      }
    }

    /** on_commit; mem is what mmap answers. */
    method OnCommit(ci: nat, m: Body, fds: seq<int>, mem: Mmap)
      requires Valid() && ci < clients.Length && m.Commit?
      modifies this`kern, clients, stack.windows
      ensures Valid() && State() == Transport.OnCommit(old(State()), ci, m, fds, mem)
    {
      hide Show, Closed, CommitCloses, AfterFence;
      var j := FindWindow(clients[ci].wins, m.wid);
      var held := CloseCommitted(m, fds);
      if !held || j < 0 || m.kind != CL_BUF_SHM { return; }
      var i := stack.Index(clients[ci].wins[j].serverId);
      if i < 0 || m.format != FORMAT_XRGB8888 || m.stride == 0 || m.height == 0 { return; }
      if mem.MapFailed? { return; }
      Attach(ci, j, m);
    }

    /** on_destroy_window */
    method OnDestroyWindow(ci: nat, m: Body)
      requires Valid() && ci < clients.Length && m.DestroyWindow?
      modifies this`kern, clients, stack, stack.windows
      ensures Valid() && State() == Transport.OnDestroyWindow(old(State()), ci, m)
    {
      hide DropBufSt, DropBufK, Windows.Destroy;
      var c := clients[ci];
      var j := FindWindow(c.wins, m.wid);
      if j < 0 { return; }
      DropBuffer(c.wins[j]);
      stack.Destroy(c.wins[j].serverId);
      SetClient(ci, c.(wins := c.wins[j := FREE_SLOT]));
    }

    /** on_set_geometry */
    method OnSetGeometry(ci: nat, m: Body)
      requires Valid() && ci < clients.Length && m.SetGeometry?
      modifies stack.windows
      ensures Valid() && State() == Transport.OnSetGeometry(old(State()), ci, m)
    {
      var j := FindWindow(clients[ci].wins, m.wid);
      if j < 0 { return; }
      var id := clients[ci].wins[j].serverId;
      var i := stack.Index(id);
      if i >= 0 && stack.windows[i].role.Desktop? { return; }
      stack.SetGeometry(id, m.x, m.y, AsInt(m.w), AsInt(m.h));
    }

    /** on_set_cursor */
    method OnSetCursor(m: Body, fds: seq<int>, mem: Mmap)
      requires m.SetCursor?
      modifies this`kern, this`cursor
      ensures T() == Transport.OnSetCursor(old(T()), m, fds, mem)
    {
      var w, h := AsInt(m.width), AsInt(m.height);
      CloseFds(fds);
      if m.hide || |fds| < 1 {
        cursor := cursor.(custom := false, hidden := m.hide);
        return;
      }
      if w <= 0 || h <= 0 || w > CURSOR_MAX || h > CURSOR_MAX { return; }
      if mem.MapFailed? { return; }
      var base := kern.nextMap;
      kern := MapNew(kern, w * h * 4, 0);
      cursor := Cursor(true, false, w, h, m.hotX, m.hotY, CopyShape(cursor.argb, mem.words, w * h));
      kern := Unmap(kern, base);
    }

    // ---- handshake and reconnect ------------------------------------------------------------

    /** client_reclaim */
    method Reclaim(ci: nat, token: nat) returns (n: nat)
      requires ci < clients.Length
      modifies clients, orphans
      ensures (T(), n) == Transport.Reclaim(old(T()), ci, token)
    {
      if token == 0 { return 0; }
      var o := OrphanByToken(token);
      if o < 0 { return 0; }
      n := CountWindows(orphans[o].wins);
      SetClient(ci, clients[ci].(wins := orphans[o].wins, token := token));
      SetOrphan(o, FreeOrphan());
    }

    /** The accepted handshake of dispatch. */
    method OnHello(ci: nat, d: Datagram)
      requires ci < clients.Length && d.body.Hello?
      modifies this`nextToken, clients, orphans
      ensures T() == Transport.OnHello(old(T()), ci, d)
    {
      hide Transport.Reclaim;
      SetClient(ci, clients[ci].(hello := true));
      var n := Reclaim(ci, Presented(d));
      if n == 0 {
        nextToken := nextToken + 1;
        SetClient(ci, clients[ci].(token := nextToken));
      }
      Send(ci, Welcome(CL_VERSION, sw, sh, clients[ci].token));
    }
  
    // ---- dispatch ------------------------------------------------------------------------------

    method Refuse(fds: seq<int>) returns (keep: bool)
      requires Valid()
      modifies this`kern
      ensures Valid() && Reply(State(), keep) == Transport.Refuse(old(State()), fds)
    {
      CloseFds(fds);
      keep := false;
    }

    method Handshake(ci: nat, d: Datagram, fds: seq<int>) returns (keep: bool)
      requires Valid() && ci < clients.Length
      modifies this`nextToken, this`kern, clients, orphans
      ensures Valid() && Reply(State(), keep) == Transport.Handshake(old(State()), ci, d, fds)
    {
      hide Transport.OnHello;
      if !d.body.Hello? { keep := Refuse(fds); return; }
      if d.len < HELLO_V1_SIZE { keep := Refuse(fds); return; }
      if !HelloAccepted(d.body) { keep := Refuse(fds); return; }
      OnHello(ci, d);
      CloseFds(fds);
      keep := true;
    }

    /** The switch of dispatch; a handler that takes the descriptors closes them itself. */
    method Request(ci: nat, b: Body, fds: seq<int>, mem: Mmap)
      requires Valid() && ci < clients.Length
      modifies this, clients, stack, stack.windows
      ensures Valid() && State() == Transport.Request(old(State()), ci, b, fds, mem)
    {
      hide OnCreate, Transport.OnCommit, Transport.OnDestroyWindow, Transport.OnSetGeometry, Transport.OnSetCursor;
      match b
      case CreateWindow(_, _, _, _, _, _) =>
        OnCreateWindow(ci, b);
        CloseFds(fds);
      case Commit(_, _, _, _, _, _, _) =>
        OnCommit(ci, b, fds, mem);
      case DestroyWindow(_) =>
        OnDestroyWindow(ci, b);
        CloseFds(fds);
      case SetGeometry(_, _, _, _, _) =>
        OnSetGeometry(ci, b);
        CloseFds(fds);
      case SetCursor(_, _, _, _, _) =>
        OnSetCursor(b, fds, mem);
      case _ =>
        CloseFds(fds);
    }

    /** dispatch: false means the client must be dropped. */
    method Dispatch(ci: nat, d: Datagram, fds: seq<int>, mem: Mmap) returns (keep: bool)
      requires Valid() && ci < clients.Length
      modifies this, clients, orphans, stack, stack.windows
      ensures Valid() && Reply(State(), keep) == Transport.Dispatch(old(State()), ci, d, fds, mem)
    {
      hide Transport.Request, Transport.Handshake;
      if d.len < TYPE_SIZE {
        keep := Refuse(fds);
      } else if !clients[ci].hello {
        keep := Handshake(ci, d, fds);
      } else if d.len < Need(d.body) {
        keep := Refuse(fds);
      } else {
        Request(ci, d.body, fds, mem);
        keep := true;
      }
    }

    // ---- client lifecycle ------------------------------------------------------------------------

    /** The first loop of client_drop. */
    method IsShell(wins: Table) returns (shell: bool)
      requires Valid()
      ensures shell == ShellFrom(stack.S().ws, wins, 0)
    {
      shell := false;
      var j := 0;
      while j < |wins|
        invariant 0 <= j <= |wins|
        invariant shell || ShellFrom(stack.S().ws, wins, j) == ShellFrom(stack.S().ws, wins, 0)
        invariant shell ==> ShellFrom(stack.S().ws, wins, 0)
      {
        var i := stack.Index(wins[j].serverId);
        if wins[j].wid != 0 && i >= 0 && ShellRole(stack.windows[i].role) { shell := true; }
        j := j + 1;
      }
    }

    /** client_drop at time now */
    method Drop(ci: nat, now: int)
      requires Valid() && ci < clients.Length
      modifies this`kern, clients, orphans, stack, stack.windows
      ensures Valid() && State() == Transport.Drop(old(State()), ci, now)
    {
      hide ReapSt, ReapK, ShellFrom;
      var c := clients[ci];
      var n := CountWindows(c.wins);
      var shell := IsShell(c.wins);
      var o := -1;
      if n > 0 && c.token != 0 && shell { o := OrphanByToken(0); }
      if o >= 0 {
        SetOrphan(o, Orphan(c.token, now + GRACE_MS, c.wins));
      } else {
        Reap(c.wins);
      }
      CloseFds([c.fd]);
      SetClient(ci, FreeClient());
    }

    /** orphan_destroy */
    method OrphanDestroy(o: nat)
      requires Valid() && o < orphans.Length
      modifies this`kern, orphans, stack, stack.windows
      ensures Valid() && State() == Transport.OrphanDestroy(old(State()), o)
    {
      hide ReapSt, ReapK;
      Reap(orphans[o].wins);
      SetOrphan(o, FreeOrphan());
    }

    /** orphans_expire at time now */
    method Expire(now: int)
      requires Valid()
      modifies this`kern, orphans, stack, stack.windows
      ensures Valid() && State() == Transport.Expire(old(State()), now)
    {
      hide Transport.OrphanDestroy;
      var i := 0;
      while i < orphans.Length
        invariant 0 <= i <= orphans.Length && Valid()
        invariant ExpireFrom(State(), now, i) == ExpireFrom(old(State()), now, 0)
      {
        if orphans[i].token != 0 && now >= orphans[i].deadline { OrphanDestroy(i); }
        i := i + 1;
      }
    }

    /** transport_add_client; false means the connection was closed again. */
    method AddClient(fd: int, watched: bool) returns (ok: bool)
      modifies this`kern, clients
      ensures T() == Transport.AddClient(old(T()), fd, watched)
      ensures ok == (Transport.ClientByFd(old(clients[..]), -1) >= 0 && watched)
    {
      var ci := ClientByFd(-1);
      ok := ci >= 0 && watched;
      if ci >= 0 { SetClient(ci, FreeClient().(fd := fd)); }
      if !ok {
        CloseFds([fd]);
        if ci >= 0 { SetClient(ci, FreeClient()); }
      }
    }

    /** client_readable, for one datagram */
    method Receive(ci: nat, d: Datagram, fds: seq<int>, mem: Mmap, now: int)
      requires Valid() && ci < clients.Length
      modifies this, clients, orphans, stack, stack.windows
      ensures Valid() && State() == Transport.Receive(old(State()), ci, d, fds, mem, now)
    {
      hide Transport.Dispatch, Transport.Drop;
      var keep := Dispatch(ci, d, fds, mem);
      if !keep { Drop(ci, now); }
    }

    // ---- input routing --------------------------------------------------------------------------------

    method SendOwner(id: nat, e: Event)
      modifies clients
      ensures T() == Transport.SendOwner(old(T()), id, e)
    {
      var o := FindByServerId(id);
      if o.Owner? { Send(o.client, e); }
    }

    /** transport_pointer_motion and transport_pointer_button */
    method RoutePointer(p: Pointer, cx: int, cy: int)
      requires Valid()
      modifies clients
      ensures T() == Transport.RoutePointer(stack.S(), old(T()), p, cx, cy)
    {
      var i := stack.At(cx, cy);
      if i < 0 { return; }
      var w := stack.windows[i];
      if cy < w.y + TitleBar(w) { return; }
      var o := FindByServerId(w.id);
      if o.Owner? {
        Send(o.client, PointerEvent(p, clients[o.client].wins[o.slot].wid, cx - w.x, cy - w.y - TitleBar(w)));
      }
    }

    /** transport_keyboard_key */
    method RouteKey(focus: nat, code: nat, down: bool)
      modifies clients
      ensures T() == Transport.RouteKey(old(T()), focus, code, down)
    {
      var o := FindByServerId(focus);
      if o.Owner? { Send(o.client, KeyEvent(clients[o.client].wins[o.slot].wid, code, down)); }
    }

    /** transport_notify_geometry */
    method NotifyGeometry(id: nat)
      requires Valid()
      modifies clients
      ensures T() == Transport.NotifyGeometry(stack.S(), old(T()), id)
    {
      var o := FindByServerId(id);
      if o.NoOwner? { return; }
      var i := stack.Index(id);
      if i >= 0 { Send(o.client, ConfigureFor(clients[o.client].wins[o.slot].wid, stack.windows[i])); }
    }

    /** transport_set_screen and transport_broadcast_screen */
    method Broadcast(w: int, h: int)
      modifies this`sw, this`sh, clients
      ensures T() == Transport.Broadcast(old(T()), w, h)
    {
      sw, sh := w, h;
      var i := 0;
      while i < clients.Length
        invariant 0 <= i <= clients.Length
        invariant T() == old(T()).(sw := w, sh := h, clients := clients[..])
        invariant BroadcastFrom(clients[..], w, h, i) == BroadcastFrom(old(clients[..]), w, h, 0)
      {
        if clients[i].fd >= 0 && clients[i].hello { Send(i, ScreenEvent(AsU32(w), AsU32(h))); }
        i := i + 1;
      }
    }

    // ---- teardown ---------------------------------------------------------------------------------------

    /** The server's own descriptors. */
    function OwnFds(): seq<int> {
      (if listenFd >= 0 then [listenFd] else []) + (if epollFd >= 0 then [epollFd] else [])
    }

    /** transport_destroy */
    method Destroy(now: int)
      requires Valid()
      modifies this`kern, clients, orphans, stack, stack.windows
      ensures Valid() && State() == CloseAll(Shutdown(old(State()), now), OwnFds())
    {
      hide Transport.Drop, Transport.OrphanDestroy;
      var i := 0;
      while i < clients.Length
        invariant 0 <= i <= clients.Length && Valid()
        invariant DropAllFrom(State(), now, i) == DropAllFrom(old(State()), now, 0)
      {
        if clients[i].fd >= 0 { Drop(i, now); }
        i := i + 1;
      }
      ghost var dropped := State();
      i := 0;
      while i < orphans.Length
        invariant 0 <= i <= orphans.Length && Valid()
        invariant ReapAllFrom(State(), i) == ReapAllFrom(dropped, 0)
      {
        if orphans[i].token != 0 { OrphanDestroy(i); }
        i := i + 1;
      }
      CloseFds(OwnFds());
    }
  }
}
