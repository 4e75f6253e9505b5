/** Which requests of a native client are served, by the wire values alone and the client's table,
    without the functions the transport decides with; and what happens to those that are not. */
module Served {
  import opened Windows
  import opened Transport
  import opened SceneBasics
  import opened SceneProofs
  import opened Requests
  import Descriptors

  // ---- wire values -----------------------------------------------------------------------------

  /** The numbers of the roles in the protocol. */
  function WireRole(r: Role): U32 {
    match r
    case Normal => 0
    case Desktop => 1
    case Taskbar => 2
    case Tray => 3
    case Menu => 4
    case Tooltip => 5
  }

  /** Each role is read back as it was sent; any other number means NORMAL. */
  lemma RoleRoundTrip(r: Role, u: U32)
    ensures RoleFromWire(WireRole(r)) == r && (u > 5 ==> RoleFromWire(u).Normal?)
  {
  }

  /** The conversions between int and uint32_t undo each other. */
  lemma IntRoundTrip(n: int, u: U32)
    ensures AsU32(AsInt(u)) == u && -0x8000_0000 <= AsInt(u) < 0x8000_0000
    ensures -0x8000_0000 <= n < 0x8000_0000 ==> AsInt(AsU32(n)) == n
    ensures u < 0x8000_0000 ==> AsInt(u) == u
  {
  }

  // ---- slots ------------------------------------------------------------------------------------

  /** j is the first slot with this wid; wid 0 marks free slots. */
  predicate First(t: Table, wid: nat, j: nat) {
    j < |t| && t[j].wid == wid && forall i | 0 <= i < j :: t[i].wid != wid
  }

  predicate Nowhere(t: Table, wid: nat) { forall i | 0 <= i < |t| :: t[i].wid != wid }

  lemma FirstIs(t: Table, wid: nat, j: nat)
    requires First(t, wid, j)
    ensures FindFrom(t, wid, 0) == j
  {
  }

  lemma SomeFirst(t: Table, wid: nat) returns (j: nat)
    requires !Nowhere(t, wid)
    ensures First(t, wid, j)
  {
    j := FindFrom(t, wid, 0);
  }

  // ---- CREATE_WINDOW --------------------------------------------------------------------------------

  /** The client does not use the wid yet (0 is never in use), has a free slot, and there are fewer than
      64 windows. */
  predicate CreateFits(sc: Scene, ci: nat, wid: nat)
    requires ci < |sc.tp.clients|
  {
    var t := sc.tp.clients[ci].wins;
    (wid == 0 || Nowhere(t, wid)) && !Nowhere(t, 0) && |sc.st.ws| < 64
  }

  lemma CreateFitsIs(sc: Scene, ci: nat, wid: nat)
    requires ci < |sc.tp.clients|
    ensures Creates(sc, ci, wid) <==> CreateFits(sc, ci, wid)
  {
  }

  /** The stack gained one window, called id, and every other one is as it was. */
  ghost predicate OneMore(a: Stack, b: Stack, id: nat) {
    && |b.ws| == |a.ws| + 1 && b.nextId == id + 1 && id !in View(a.ws) && id in View(b.ws)
    && View(b.ws) == View(a.ws)[id := View(b.ws)[id]]
  }

  /** A CREATE_WINDOW is served exactly if it fits: then there is exactly one window more, and the first
      free slot of the client names it. Otherwise nothing at all changes. */
  lemma CreateServedIff(sc: Scene, ci: nat, m: Body)
    requires SceneOk(sc) && ci < |sc.tp.clients| && m.CreateWindow?
    ensures var r, id, c := OnCreate(sc, ci, m), sc.st.nextId, sc.tp.clients[ci];
            if CreateFits(sc, ci, m.wid)
            then
              && OneMore(sc.st, r.st, id) && |r.tp.clients| == |sc.tp.clients|
              && exists j: nat :: First(c.wins, 0, j) && r.tp.clients[ci].wins == c.wins[j := c.wins[j].(wid := m.wid, serverId := id)]
            else r == sc
  {
    hide OnCreate, SceneOk, Creates;
    CreateFitsIs(sc, ci, m.wid);
    if CreateFits(sc, ci, m.wid) {
      var w := CreateStack(sc, ci, m);
      CreateSlot(sc, ci, m);
      var j := SomeFirst(sc.tp.clients[ci].wins, 0);
      FirstIs(sc.tp.clients[ci].wins, 0, j);
      StackIn(sc);
      NewestIn(sc.st, w, OnCreate(sc, ci, m).st);
      ClaimsFirst(sc, ci, m, j);
    } else {
      CreateUnserved(sc, ci, m);
    }
  }

  lemma StackIn(sc: Scene)
    requires SceneOk(sc)
    ensures Ok(sc.st)
  {
    Stays(sc.st);
  }

  lemma NewestIn(a: Stack, w: Window, b: Stack)
    requires Ok(a) && w.id == a.nextId && b.nextId == a.nextId + 1 && (b.ws == [w] + a.ws || b.ws == a.ws + [w])
    ensures OneMore(a, b, a.nextId)
  {
    ViewLive(a.ws, w.id);
    forall i | 0 <= i < |a.ws| ensures a.ws[i].id != w.id {
    }
    AppendFacts(a.ws, w);
    if b.ws == [w] + a.ws { MovedDown(a.ws, w); }
  }

  lemma MovedDown(ws: seq<Window>, w: Window)
    requires Distinct(ws + [w])
    ensures View([w] + ws) == View(ws + [w])
  {
    assert ToBottom(ws + [w], |ws|) == [w] + ws;
    ToBottomFacts(ws + [w], |ws|);
  }

  lemma ClaimsFirst(sc: Scene, ci: nat, m: Body, j: nat)
    requires ci < |sc.tp.clients| && m.CreateWindow? && Creates(sc, ci, m.wid) && First(sc.tp.clients[ci].wins, 0, j)
    requires OnlySent(ClaimSlot(sc.tp.clients, ci, WinAlloc(sc.tp.clients[ci].wins), m.wid, sc.st.nextId), OnCreate(sc, ci, m).tp.clients)
    ensures var r, c := OnCreate(sc, ci, m), sc.tp.clients[ci];
            |r.tp.clients| == |sc.tp.clients| && r.tp.clients[ci].wins == c.wins[j := c.wins[j].(wid := m.wid, serverId := sc.st.nextId)]
  {
    hide OnCreate;
    FirstIs(sc.tp.clients[ci].wins, 0, j);
  }

  lemma CreateUnserved(sc: Scene, ci: nat, m: Body)
    requires ci < |sc.tp.clients| && m.CreateWindow? && !Creates(sc, ci, m.wid)
    ensures OnCreate(sc, ci, m) == sc
  {
  }

  // ---- COMMIT -----------------------------------------------------------------------------------------

  /** One of the client's windows is named, and a shared-memory buffer in XRGB8888 with some rows and some
      stride comes with at least one descriptor that can be mapped. */
  predicate CommitFits(t: Table, m: Body, fds: seq<int>, mem: Mmap)
    requires m.Commit?
  {
    && m.wid != 0 && !Nowhere(t, m.wid)
    && m.kind == 0 && m.format == 0x34325258 && m.stride != 0 && m.height != 0
    && |fds| >= 1 && mem.Mapped?
  }

  lemma CommitFitsIs(sc: Scene, ci: nat, m: Body, fds: seq<int>, mem: Mmap)
    requires SceneOk(sc) && ci < |sc.tp.clients| && m.Commit?
    ensures CommitAccepted(sc, ci, m, fds, mem) <==> CommitFits(sc.tp.clients[ci].wins, m, fds, mem)
  {
    var j := WinFind(sc.tp.clients[ci].wins, m.wid);
    if j >= 0 { HeldWindow(sc, ci, j); }
  }

  /** A COMMIT takes effect exactly if it fits: then the window of the first slot with the wid shows the
      new buffer. Otherwise nothing changes but the descriptors that are closed. */
  lemma CommitServedIff(sc: Scene, ci: nat, m: Body, fds: seq<int>, mem: Mmap)
    requires SceneOk(sc) && ci < |sc.tp.clients| && m.Commit?
    ensures var r, t := OnCommit(sc, ci, m, fds, mem), sc.tp.clients[ci].wins;
            if CommitFits(t, m, fds, mem) then exists j: nat :: First(t, m.wid, j) && BufferTaken(sc, r, t[j], m)
            else r == sc.(tp := sc.tp.(kern := sc.tp.kern.(closed := r.tp.kern.closed)))
  {
    hide SceneOk, BufferTaken, CommitAccepted;
    CommitFitsIs(sc, ci, m, fds, mem);
    if CommitFits(sc.tp.clients[ci].wins, m, fds, mem) {
      hide OnCommit;
      CommitEffect(sc, ci, m, fds, mem);
      var j := SomeFirst(sc.tp.clients[ci].wins, m.wid);
      FirstIs(sc.tp.clients[ci].wins, m.wid, j);
    }
  }

  // ---- DESTROY_WINDOW, SET_GEOMETRY, SET_CURSOR -----------------------------------------------------------

  /** A request about a wid the client does not use is ignored. */
  lemma UnknownIgnored(sc: Scene, ci: nat, m: Body)
    requires ci < |sc.tp.clients| && (m.DestroyWindow? || m.SetGeometry?)
    requires m.wid == 0 || Nowhere(sc.tp.clients[ci].wins, m.wid)
    ensures m.DestroyWindow? ==> OnDestroyWindow(sc, ci, m) == sc
    ensures m.SetGeometry? ==> OnSetGeometry(sc, ci, m) == sc
  {
  }

  /** One about a wid it uses is about the first slot with it: that window goes, and every other window
      keeps its fields and its place; a focus that was on it is on the topmost window left. */
  lemma DestroyServed(sc: Scene, ci: nat, m: Body, j: nat)
    requires SceneOk(sc) && ci < |sc.tp.clients| && m.DestroyWindow? && m.wid != 0 && First(sc.tp.clients[ci].wins, m.wid, j)
    ensures var r, id := OnDestroyWindow(sc, ci, m), sc.tp.clients[ci].wins[j].serverId;
            && (exists i :: 0 <= i < |sc.st.ws| && sc.st.ws[i].id == id && r.st.ws == sc.st.ws[..i] + sc.st.ws[i + 1..])
            && r.st.focus == (if sc.st.focus != id then sc.st.focus else if r.st.ws == [] then 0 else r.st.ws[|r.st.ws| - 1].id)
            && r.tp.clients[ci].wins == sc.tp.clients[ci].wins[j := FREE_SLOT]
  {
    FirstIs(sc.tp.clients[ci].wins, m.wid, j);
    DestroyEffect(sc, ci, m);
    HeldWindow(sc, ci, j);
    StackIn(sc);
    WithoutThis(sc.st.ws, sc.tp.clients[ci].wins[j].serverId);
  }

  /** A SET_CURSOR that hides, or brings no shape, drops the client's shape; one that brings a shape of an
      impossible size, or one that cannot be mapped, changes nothing of the cursor. */
  lemma CursorKept(tp: Tp, m: Body, fds: seq<int>, mem: Mmap)
    requires m.SetCursor?
    ensures var cur := OnSetCursor(tp, m, fds, mem).cursor;
            && (m.hide || |fds| == 0 ==> cur == tp.cursor.(custom := false, hidden := m.hide))
            && (!m.hide && |fds| > 0 && (mem.MapFailed? || !(1 <= AsInt(m.width) <= 64 && 1 <= AsInt(m.height) <= 64)) ==>
                  cur == tp.cursor)
  {
  }

  // ---- datagrams -------------------------------------------------------------------------------------------

  /** The first datagram of a connection that it may go on after: a HELLO of at least 16 bytes with the
      protocol's magic number, for a version the server speaks (1 or 2). */
  predicate GoodHello(d: Datagram) {
    && d.len >= 16 && d.body.Hello? && d.body.magic == 0x4C435243
    && d.body.version >= 1 && d.body.minVersion <= d.body.version && d.body.minVersion <= 2
  }

  /** How long each later message has to be. */
  function Length(b: Body): int {
    match b
    case CreateWindow(_, _, _, _, _, _) => 28
    case SetTitle(_) => 72
    case Commit(_, _, _, _, _, _, _) => 48
    case DestroyWindow(_) => 8
    case SetGeometry(_, _, _, _, _) => 24
    case SetCursor(_, _, _, _, _) => 24
    case _ => 4
  }

  /** A connection may go on exactly if its first datagram is a good HELLO and every later one is long
      enough for what it says it is. */
  lemma KeptIff(sc: Scene, ci: nat, d: Datagram, fds: seq<int>, mem: Mmap)
    requires ci < |sc.tp.clients|
    ensures Dispatch(sc, ci, d, fds, mem).keep <==>
            if sc.tp.clients[ci].hello then d.len >= 4 && d.len >= Length(d.body) else GoodHello(d)
  {
    hide Request, OnHello;
  }

  /** A HELLO too short to carry a token (less than 20 bytes) gets nothing back, whatever waits. */
  lemma ShortHello(sc: Scene, ci: nat, d: Datagram)
    requires SceneOk(sc) && ci < |sc.tp.clients| && !sc.tp.clients[ci].hello && d.body.Hello? && d.len < 20
    ensures var r := OnHello(sc.tp, ci, d);
            r.orphans == sc.tp.orphans && |r.clients| == |sc.tp.clients| && Empty(r.clients[ci].wins)
            && r.clients[ci].token == sc.tp.nextToken + 1
  {
    HelloIs(sc, ci, d);
    assert ClientOk(sc.tp.clients[ci]);
  }

  // ---- connections -----------------------------------------------------------------------------------------

  /** A new connection takes the first free client slot, with an empty table; if there is none, or if the
      kernel will not watch it, it is closed and no client comes of it. */
  lemma ConnectIff(tp: Tp, fd: int, watched: bool, k: nat)
    requires k < |tp.clients| && tp.clients[k].fd == -1 && forall i | 0 <= i < k :: tp.clients[i].fd != -1
    ensures AddClient(tp, fd, watched) ==
            if watched then tp.(clients := tp.clients[k := Client(fd, false, 0, NoWindows(), [])])
            else tp.(clients := tp.clients[k := Client(-1, false, 0, NoWindows(), [])],
                     kern := tp.kern.(closed := tp.kern.closed + multiset{fd}))
  {
    assert ClientFrom(tp.clients, -1, 0) == k;
    assert multiset([fd]) == multiset{fd};
  }

  lemma NoSlotCloses(tp: Tp, fd: int, watched: bool)
    requires forall i | 0 <= i < |tp.clients| :: tp.clients[i].fd != -1
    ensures AddClient(tp, fd, watched) == tp.(kern := tp.kern.(closed := tp.kern.closed + multiset{fd}))
  {
    assert multiset([fd]) == multiset{fd};
  }

  /** The connection of a client that is dropped is closed and its slot is free, and no other client
      notices. If it is parked, its table waits in the first free place for 5000 milliseconds; if not,
      no place changes. */
  lemma DropFrees(sc: Scene, ci: nat, now: int)
    requires ci < |sc.tp.clients|
    ensures var r, c, o := Drop(sc, ci, now).tp, sc.tp.clients[ci], ParkingSlot(sc, ci);
            && r.clients == sc.tp.clients[ci := Client(-1, false, 0, NoWindows(), [])]
            && r.kern.closed == sc.tp.kern.closed + multiset{c.fd}
            && r.focused == sc.tp.focused && r.nextToken == sc.tp.nextToken && r.cursor == sc.tp.cursor
            && if o < 0 then r.orphans == sc.tp.orphans
               else
                 && (forall i | 0 <= i < o :: sc.tp.orphans[i].token != 0)
                 && r.orphans == sc.tp.orphans[o := Orphan(c.token, now + 5000, c.wins)]
  {
    hide ReapSt, ReapK;
    Descriptors.ReapClosesNone(sc.tp.kern, sc.tp.clients[ci].wins, 0);
    assert multiset([sc.tp.clients[ci].fd]) == multiset{sc.tp.clients[ci].fd};
  }
}
