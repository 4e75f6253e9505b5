/** Every request, every client death and every expiry keeps the invariants of the stack and of
    the transport together. */
module SceneProofs {
  import opened Windows
  import opened Transport
  import opened StackSteps
  import Books
  import SceneBasics
  import opened SceneMoves
  import opened SceneTables

  ghost predicate SceneOk(sc: Scene) {
    && StackOk(sc.st, sc.tp.sw, sc.tp.sh) && sc.tp.sw >= 1 && sc.tp.sh >= 1
    && TpOk(View(sc.st.ws), sc.st.nextId, sc.tp)
  }

  /** No native client reaches a window that is not native: those all stay exactly as they
      were, and every new window is a native one. */
  ghost predicate OthersUntouched(a: map<nat, Window>, b: map<nat, Window>, nextId: nat) {
    && (forall id | id in a && !a[id].appDecorated :: id in b && b[id] == a[id])
    && (forall id | id in b && id >= nextId :: b[id].appDecorated)
  }

  ghost function StraysOf(sc: Scene): set<nat> { Strays(View(sc.st.ws), sc.tp) }

  /** A step from a to b that keeps everything, except that the windows `lost` have no owner. */
  ghost predicate KeptLosing(a: Scene, b: Scene, lost: set<nat>) {
    && SceneOk(b) && Evolves(a.st, b.st) && b.tp.sw == a.tp.sw && b.tp.sh == a.tp.sh
    && OthersUntouched(View(a.st.ws), View(b.st.ws), a.st.nextId)
    && StraysOf(b) == StraysOf(a) + lost
  }

  /** A step from a to b that keeps everything. */
  ghost predicate Kept(a: Scene, b: Scene) { KeptLosing(a, b, {}) }

  lemma Stays(s: Stack)
    requires Ok(s)
    ensures Evolves(s, s) && 0 !in View(s.ws) && OthersUntouched(View(s.ws), View(s.ws), s.nextId)
    ensures forall id | id in View(s.ws) :: id < s.nextId
  {
    ViewLive(s.ws, 0);
    ViewIds(s);
  }

  lemma RewriteNative(s: Stack, w: Window)
    requires Ok(s) && w.id in View(s.ws) && View(s.ws)[w.id].appDecorated
    ensures OthersUntouched(View(s.ws), View(s.ws)[w.id := w], s.nextId)
  {
    ViewIds(s);
  }

  lemma RemoveNative(s: Stack, ids: set<nat>)
    requires Ok(s) && forall id | id in ids && id in View(s.ws) :: View(s.ws)[id].appDecorated
    ensures OthersUntouched(View(s.ws), View(s.ws) - ids, s.nextId)
  {
    ViewIds(s);
  }

  lemma KeptTwice(a: Scene, b: Scene, c: Scene, lost: set<nat>)
    requires KeptLosing(a, b, lost) && Kept(b, c)
    ensures KeptLosing(a, c, lost)
  {
    EvolvesTwice(a.st, b.st, c.st);
  }

  lemma CloseKeeps(sc: Scene, fds: seq<int>)
    requires SceneOk(sc)
    ensures Kept(sc, CloseAll(sc, fds))
  {
    Stays(sc.st);
    TpClosed(View(sc.st.ws), sc.st.nextId, sc.tp, fds);
  }

  /** A slot a client holds names a live window; here are both. */
  lemma HeldWindow(sc: Scene, ci: nat, j: nat)
    requires SceneOk(sc) && ci < |sc.tp.clients| && j < |sc.tp.clients[ci].wins| && sc.tp.clients[ci].wins[j].wid != 0
    ensures var id := sc.tp.clients[ci].wins[j].serverId;
            && id != 0 && id in View(sc.st.ws) && View(sc.st.ws)[id].appDecorated
            && var i := IndexOf(sc.st.ws, id); i >= 0 && sc.st.ws[i] == View(sc.st.ws)[id] && sc.st.ws[i].id == id
  {
    SlotAt(View(sc.st.ws), sc.st.nextId, sc.tp, ci, j);
    Stays(sc.st);
    ViewLive(sc.st.ws, sc.tp.clients[ci].wins[j].serverId);
  }

  // ---- CREATE_WINDOW ------------------------------------------------------------------

  lemma AnnounceKeeps(st: Stack, tp: Tp, ci: nat, wid: nat, id: nat)
    requires TpOk(View(st.ws), st.nextId, tp) && ci < |tp.clients| && tp.clients[ci].hello
    ensures TpOk(View(st.ws), st.nextId, tp.(clients := Announce(st, tp.clients, ci, wid, id)))
    ensures Strays(View(st.ws), tp.(clients := Announce(st, tp.clients, ci, wid, id))) == Strays(View(st.ws), tp)
  {
    var i := IndexOf(st.ws, id);
    if i >= 0 { TpSend(View(st.ws), st.nextId, tp, ci, ConfigureFor(wid, st.ws[i])); }
  }

  /** The window a request leaves without an owner: a CREATE_WINDOW for wid 0 that succeeds. */
  function Abandoned(sc: Scene, ci: nat, b: Body): set<nat>
    requires ci < |sc.tp.clients|
  {
    if b.CreateWindow? && b.wid == 0 && Creates(sc, ci, 0) then {sc.st.nextId} else {}
  }

  /** The transport's part of a successful CREATE_WINDOW: claim the slot, announce, tell focus. */
  lemma CreateTp(st: Stack, tp: Tp, v: map<nat, Window>, ci: nat, j: nat, wid: nat, w: Window)
    requires TpOk(v, w.id, tp) && ci < |tp.clients| && tp.clients[ci].hello && 0 !in v && w.id != 0
    requires j < |tp.clients[ci].wins| && tp.clients[ci].wins[j].wid == 0
    requires w.id !in v && w.buf.Null? && w.appDecorated && View(st.ws) == v[w.id := w] && st.nextId == w.id + 1
    ensures var told := tp.(clients := Announce(st, ClaimSlot(tp.clients, ci, j, wid, w.id), ci, wid, w.id));
            var r := if w.role.Normal? then NotifyFocus(told, w.id) else told;
            TpOk(View(st.ws), st.nextId, r) && Strays(View(st.ws), r) == Strays(v, tp) + if wid == 0 then {w.id} else {}
  {
    var owned := ClaimSlot(tp.clients, ci, j, wid, w.id);
    TpClaim(v, w.id, tp, ci, j, wid, w);
    AnnounceKeeps(st, tp.(clients := owned), ci, wid, w.id);
    if w.role.Normal? { TpNotify(View(st.ws), st.nextId, tp.(clients := Announce(st, owned, ci, wid, w.id)), w.id); }
  }

  lemma CreateKeeps(sc: Scene, ci: nat, m: Body)
    requires SceneOk(sc) && ci < |sc.tp.clients| && sc.tp.clients[ci].hello && m.CreateWindow?
    ensures KeptLosing(sc, OnCreate(sc, ci, m), Abandoned(sc, ci, m))
  {
    Stays(sc.st);
    if Creates(sc, ci, m.wid) {
      var role, w, h := RoleFromWire(m.role), WidthOr(m.w, 320), WidthOr(m.h, 240);
      AdmitStep(sc.st, role, m.x, m.y, w, h, sc.tp.sw, sc.tp.sh);
      CreateTp(OnCreate(sc, ci, m).st, sc.tp, View(sc.st.ws), ci, WinAlloc(sc.tp.clients[ci].wins), m.wid,
               Admitted(role, sc.st.nextId, m.x, m.y, w, h, sc.tp.sw, sc.tp.sh));
    }
  }

  // ---- COMMIT ---------------------------------------------------------------------------

  /** On the stack a COMMIT only changes the content fields of its window. */
  lemma CommitStack(s: Stack, w: ClWin, i: nat, base: Ptr, bw: int, bh: int, stride: int)
    requires Ok(s) && i < |s.ws| && s.ws[i].id == w.serverId
    ensures SetBuf(DropBufSt(s, w), w.serverId, base, bw, bh, stride)
         == s.(ws := s.ws[i := s.ws[i].(buf := base, bufW := bw, bufH := bh, bufStride := stride)])
  {
    ViewAt(s.ws, i);
    if w.buf.Mapping? {
      var n := s.ws[i].(buf := Null);
      PutOk(s, i, n);
      ViewAt(s.ws[i := n], i);
    }
  }

  /** What the window declares after C's conversions to int is never more than what was mapped. */
  lemma DeclaredFits(stride: U32, height: U32)
    ensures AsInt(stride) * AsInt(height) <= stride * height
  {
    Products(AsInt(stride), AsInt(height), stride, height);
  }

  lemma Products(a: int, b: int, c: nat, d: nat)
    requires 0 - c <= a <= c && 0 - d <= b <= d
    ensures a * b <= c * d
  {
    AtMost(if a < 0 then -a else a, if b < 0 then -b else b, c, d);
    SignsOut(a, b);
  }

  lemma SignsOut(a: int, b: int)
    ensures a * b <= (if a < 0 then -a else a) * (if b < 0 then -b else b)
  {
    assert (-a) * b == -(a * b) && a * (-b) == -(a * b) && (-a) * (-b) == a * b;
    assert (if a < 0 then -a else a) * (if b < 0 then -b else b) >= 0;
  }

  lemma AtMost(a: nat, b: nat, c: nat, d: nat)
    requires a <= c && b <= d
    ensures 0 <= a * b <= c * d
  {
    assert c * d == a * b + a * (d - b) + (c - a) * d;
  }

  lemma ShowKeeps(sc: Scene, ci: nat, j: nat, m: Body)
    requires SceneOk(sc) && ci < |sc.tp.clients| && m.Commit?
    requires j < |sc.tp.clients[ci].wins| && sc.tp.clients[ci].wins[j].wid != 0
    ensures Kept(sc, Show(sc, ci, j, m))
  {
    var c, k := sc.tp.clients[ci], sc.tp.kern;
    HeldWindow(sc, ci, j);
    var i := IndexOf(sc.st.ws, c.wins[j].serverId);
    var w := sc.st.ws[i].(buf := Mapping(k.nextMap), bufW := AsInt(m.width), bufH := AsInt(m.height), bufStride := AsInt(m.stride));
    DeclaredFits(m.stride, m.height);
    CommitStack(sc.st, c.wins[j], i, w.buf, w.bufW, w.bufH, w.bufStride);
    PutStep(sc.st, i, w, sc.tp.sw, sc.tp.sh);
    TpCommit(View(sc.st.ws), sc.st.nextId, sc.tp, ci, j, w, m.stride * m.height);
    RewriteNative(sc.st, w);
  }

  lemma CommitKeeps(sc: Scene, ci: nat, m: Body, fds: seq<int>, mem: Mmap)
    requires SceneOk(sc) && ci < |sc.tp.clients| && m.Commit?
    ensures Kept(sc, OnCommit(sc, ci, m, fds, mem))
  {
    var closed := CloseAll(sc, CommitCloses(m, fds));
    CloseKeeps(sc, CommitCloses(m, fds));
    if CommitAccepted(sc, ci, m, fds, mem) {
      var j := WinFind(sc.tp.clients[ci].wins, m.wid);
      ShowKeeps(closed, ci, j, m);
      KeptTwice(sc, closed, Show(closed, ci, j, m), {});
    }
  }

  // ---- DESTROY_WINDOW, SET_GEOMETRY, SET_CURSOR -------------------------------------------

  lemma DestroyKeeps(sc: Scene, ci: nat, m: Body)
    requires SceneOk(sc) && ci < |sc.tp.clients| && m.DestroyWindow?
    ensures Kept(sc, OnDestroyWindow(sc, ci, m))
  {
    Stays(sc.st);
    var c := sc.tp.clients[ci];
    var j := WinFind(c.wins, m.wid);
    if j >= 0 {
      HeldWindow(sc, ci, j);
      DropThenDestroy(sc.st, c.wins[j]);
      ReapedStep(sc.st, {c.wins[j].serverId}, sc.tp.sw, sc.tp.sh);
      ReapedOk(sc.st, {c.wins[j].serverId});
      TpFree(View(sc.st.ws), sc.st.nextId, sc.tp, ci, j);
      RemoveNative(sc.st, {c.wins[j].serverId});
    }
  }

  lemma GeometryKeeps(sc: Scene, ci: nat, m: Body)
    requires SceneOk(sc) && ci < |sc.tp.clients| && m.SetGeometry?
    ensures Kept(sc, OnSetGeometry(sc, ci, m))
  {
    Stays(sc.st);
    var c := sc.tp.clients[ci];
    var j := WinFind(c.wins, m.wid);
    if j >= 0 {
      HeldWindow(sc, ci, j);
      var i := IndexOf(sc.st.ws, c.wins[j].serverId);
      if !sc.st.ws[i].role.Desktop? {
        var w := Resized(sc.st.ws[i], m.x, m.y, AsInt(m.w), AsInt(m.h));
        PutStep(sc.st, i, w, sc.tp.sw, sc.tp.sh);
        RewriteNative(sc.st, w);
        TpWindows(View(sc.st.ws), View(sc.st.ws)[w.id := w], sc.st.nextId, sc.tp);
      }
    }
  }

  lemma MapAndUnmap(v: map<nat, Window>, tabs: seq<Table>, k: Kernel, len: nat)
    requires Books.BooksOk(v, tabs, k)
    ensures Books.BooksOk(v, tabs, Unmap(MapNew(k, len, 0), k.nextMap))
  {
    assert Unmap(MapNew(k, len, 0), k.nextMap).live == k.live;
  }

  lemma CursorKeeps(sc: Scene, m: Body, fds: seq<int>, mem: Mmap)
    requires SceneOk(sc) && m.SetCursor?
    ensures Kept(sc, sc.(tp := OnSetCursor(sc.tp, m, fds, mem)))
  {
    CloseKeeps(sc, fds);
    var w, h := AsInt(m.width), AsInt(m.height);
    if w > 0 && h > 0 {
      MapAndUnmap(View(sc.st.ws), SceneBasics.Tabs(sc.tp.clients, sc.tp.orphans), Closed(sc.tp.kern, fds), w * h * 4);
    }
  }

  // ---- HELLO --------------------------------------------------------------------------------

  lemma {:induction false} CountsSome(t: Table, from: nat)
    requires from <= |t|
    ensures CountFrom(t, from) == 0 ==> forall j | from <= j < |t| :: t[j].wid == 0
    decreases |t| - from
  {
  }

  /** What a HELLO leaves, before the WELCOME. */
  function AfterGreeting(tp: Tp, ci: nat, token: nat): Tp
    requires ci < |tp.clients|
  {
    var o := if token == 0 then -1 else FindOrphan(tp.orphans, token);
    if o >= 0 then Restored(tp, ci, o) else Issued(tp, ci)
  }

  lemma HelloIs(sc: Scene, ci: nat, d: Datagram)
    requires SceneOk(sc) && ci < |sc.tp.clients| && d.body.Hello?
    ensures var g := AfterGreeting(sc.tp, ci, Presented(d));
            OnHello(sc.tp, ci, d) == g.(clients := SendTo(g.clients, ci, Welcome(CL_VERSION, g.sw, g.sh, g.clients[ci].token)))
  {
    var o := if Presented(d) == 0 then -1 else FindOrphan(sc.tp.orphans, Presented(d));
    if o >= 0 {
      assert SceneBasics.OrphanOk(sc.tp.orphans[o]);
      CountsSome(sc.tp.orphans[o].wins, 0);
    }
  }

  lemma GreetedKeeps(sc: Scene, ci: nat, token: nat)
    requires SceneOk(sc) && ci < |sc.tp.clients| && !sc.tp.clients[ci].hello && sc.tp.clients[ci].fd >= 0
    ensures TpOk(View(sc.st.ws), sc.st.nextId, AfterGreeting(sc.tp, ci, token))
    ensures Strays(View(sc.st.ws), AfterGreeting(sc.tp, ci, token)) == StraysOf(sc)
  {
    var o := if token == 0 then -1 else FindOrphan(sc.tp.orphans, token);
    if o >= 0 {
      TpReclaim(View(sc.st.ws), sc.st.nextId, sc.tp, ci, o);
    } else {
      TpGreet(View(sc.st.ws), sc.st.nextId, sc.tp, ci);
    }
  }

  lemma HelloKeeps(sc: Scene, ci: nat, d: Datagram)
    requires SceneOk(sc) && ci < |sc.tp.clients| && !sc.tp.clients[ci].hello && sc.tp.clients[ci].fd >= 0 && d.body.Hello?
    ensures Kept(sc, sc.(tp := OnHello(sc.tp, ci, d)))
  {
    Stays(sc.st);
    var g := AfterGreeting(sc.tp, ci, Presented(d));
    HelloIs(sc, ci, d);
    GreetedKeeps(sc, ci, Presented(d));
    TpSend(View(sc.st.ws), sc.st.nextId, g, ci, Welcome(CL_VERSION, g.sw, g.sh, g.clients[ci].token));
  }

  // ---- one datagram ----------------------------------------------------------------------------

  lemma RequestKeeps(sc: Scene, ci: nat, b: Body, fds: seq<int>, mem: Mmap)
    requires SceneOk(sc) && ci < |sc.tp.clients| && sc.tp.clients[ci].hello
    ensures KeptLosing(sc, Request(sc, ci, b, fds, mem), Abandoned(sc, ci, b))
  {
    match b
    case CreateWindow(_, _, _, _, _, _) =>
      CreateKeeps(sc, ci, b);
      CloseKeeps(OnCreate(sc, ci, b), fds);
      KeptTwice(sc, OnCreate(sc, ci, b), CloseAll(OnCreate(sc, ci, b), fds), Abandoned(sc, ci, b));
    case Commit(_, _, _, _, _, _, _) => CommitKeeps(sc, ci, b, fds, mem);
    case DestroyWindow(_) =>
      DestroyKeeps(sc, ci, b);
      CloseKeeps(OnDestroyWindow(sc, ci, b), fds);
      KeptTwice(sc, OnDestroyWindow(sc, ci, b), CloseAll(OnDestroyWindow(sc, ci, b), fds), {});
    case SetGeometry(_, _, _, _, _) =>
      GeometryKeeps(sc, ci, b);
      CloseKeeps(OnSetGeometry(sc, ci, b), fds);
      KeptTwice(sc, OnSetGeometry(sc, ci, b), CloseAll(OnSetGeometry(sc, ci, b), fds), {});
    case SetCursor(_, _, _, _, _) => CursorKeeps(sc, b, fds, mem);
    case Hello(_, _, _, _) => CloseKeeps(sc, fds);
    case SetTitle(_) => CloseKeeps(sc, fds);
    case Unknown => CloseKeeps(sc, fds);
  }

  /** What one datagram leaves without an owner. */
  function Forsaken(sc: Scene, ci: nat, d: Datagram): set<nat>
    requires ci < |sc.tp.clients|
  {
    if sc.tp.clients[ci].hello && d.len >= CREATE_SIZE then Abandoned(sc, ci, d.body) else {}
  }

  lemma DispatchKeeps(sc: Scene, ci: nat, d: Datagram, fds: seq<int>, mem: Mmap)
    requires SceneOk(sc) && ci < |sc.tp.clients| && sc.tp.clients[ci].fd >= 0
    ensures KeptLosing(sc, Dispatch(sc, ci, d, fds, mem).sc, Forsaken(sc, ci, d))
  {
    hide Request, OnHello, SceneOk;
    CloseKeeps(sc, fds);
    if sc.tp.clients[ci].hello {
      RequestKeeps(sc, ci, d.body, fds, mem);
    } else if d.body.Hello? {
      var greeted := sc.(tp := OnHello(sc.tp, ci, d));
      HelloKeeps(sc, ci, d);
      CloseKeeps(greeted, fds);
      KeptTwice(sc, greeted, CloseAll(greeted, fds), {});
    }
  }

  // ---- death and expiry ---------------------------------------------------------------------------

  lemma TableIds(v: map<nat, Window>, live: map<nat, MapInfo>, t: Table)
    requires Books.TableOk(v, live, t) && 0 !in v
    ensures forall j | 0 <= j < |t| && t[j].wid != 0 :: t[j].serverId != 0
  {
    forall j | 0 <= j < |t| && t[j].wid != 0 ensures t[j].serverId != 0 {
      assert Books.SlotOk(v, live, t[j]);
    }
  }

  lemma ClientTable(sc: Scene, ci: nat)
    requires SceneOk(sc) && ci < |sc.tp.clients|
    ensures Books.TableOk(View(sc.st.ws), sc.tp.kern.live, sc.tp.clients[ci].wins)
    ensures SceneBasics.ClientOk(sc.tp.clients[ci])
  {
    assert SceneBasics.Tabs(sc.tp.clients, sc.tp.orphans)[ci] == sc.tp.clients[ci].wins;
  }

  lemma OrphanTable(sc: Scene, o: nat)
    requires SceneOk(sc) && o < |sc.tp.orphans|
    ensures Books.TableOk(View(sc.st.ws), sc.tp.kern.live, sc.tp.orphans[o].wins)
    ensures SceneBasics.OrphanOk(sc.tp.orphans[o])
  {
    assert SceneBasics.Tabs(sc.tp.clients, sc.tp.orphans)[|sc.tp.clients| + o] == sc.tp.orphans[o].wins;
  }

  lemma ReapStack(sc: Scene, t: Table)
    requires SceneOk(sc) && Books.TableOk(View(sc.st.ws), sc.tp.kern.live, t)
    ensures ReapSt(sc.st, t, 0) == Reaped(sc.st, Books.Held(t))
    ensures GoodStep(sc.st, ReapSt(sc.st, t, 0), sc.tp.sw, sc.tp.sh)
    ensures View(ReapSt(sc.st, t, 0).ws) == View(sc.st.ws) - Books.Held(t) && ReapSt(sc.st, t, 0).nextId == sc.st.nextId
    ensures OthersUntouched(View(sc.st.ws), View(sc.st.ws) - Books.Held(t), sc.st.nextId)
  {
    Stays(sc.st);
    forall id | id in Books.Held(t) ensures View(sc.st.ws)[id].appDecorated {
      var j :| 0 <= j < |t| && t[j].wid != 0 && t[j].serverId == id;
      assert Books.SlotOk(View(sc.st.ws), sc.tp.kern.live, t[j]);
    }
    RemoveNative(sc.st, Books.Held(t));
    TableIds(View(sc.st.ws), sc.tp.kern.live, t);
    ReapIsReaped(sc.st, t, 0);
    ReapedStep(sc.st, Books.Held(t), sc.tp.sw, sc.tp.sh);
    ReapedOk(sc.st, Books.Held(t));
  }

  lemma {:induction false} CountNotEmpty(t: Table)
    requires CountFrom(t, 0) > 0
    ensures !SceneBasics.Empty(t)
  {
  }

  lemma VacateKeeps(sc: Scene, ci: nat, now: int)
    requires SceneOk(sc) && ci < |sc.tp.clients|
    ensures Kept(sc, Vacate(sc, ci, now))
  {
    Stays(sc.st);
    ClientTable(sc, ci);
    var c, o := sc.tp.clients[ci], ParkingSlot(sc, ci);
    if o >= 0 {
      CountNotEmpty(c.wins);
      TpPark(View(sc.st.ws), sc.st.nextId, sc.tp, ci, o, now + GRACE_MS);
    } else {
      ReapStack(sc, c.wins);
      TpReapClient(View(sc.st.ws), sc.st.nextId, sc.tp, ci);
    }
  }

  lemma DropKeepsAll(sc: Scene, ci: nat, now: int)
    requires SceneOk(sc) && ci < |sc.tp.clients|
    ensures Kept(sc, Drop(sc, ci, now))
  {
    hide Vacate;
    var v := Vacate(sc, ci, now);
    VacateKeeps(sc, ci, now);
    CloseKeeps(v, [sc.tp.clients[ci].fd]);
    KeptTwice(sc, v, Drop(sc, ci, now), {});
  }

  lemma OrphanDestroyKeeps(sc: Scene, o: nat)
    requires SceneOk(sc) && o < |sc.tp.orphans|
    ensures Kept(sc, OrphanDestroy(sc, o))
  {
    OrphanTable(sc, o);
    ReapStack(sc, sc.tp.orphans[o].wins);
    TpReapOrphan(View(sc.st.ws), sc.st.nextId, sc.tp, o);
  }

  lemma {:induction false} ExpireKeeps(sc: Scene, now: int, from: nat)
    requires SceneOk(sc) && from <= |sc.tp.orphans|
    ensures Kept(sc, ExpireFrom(sc, now, from))
    decreases |sc.tp.orphans| - from
  {
    if from == |sc.tp.orphans| {
      Stays(sc.st);
    } else if Due(sc.tp.orphans[from], now) {
      OrphanDestroyKeeps(sc, from);
      ExpireKeeps(OrphanDestroy(sc, from), now, from + 1);
      KeptTwice(sc, OrphanDestroy(sc, from), ExpireFrom(OrphanDestroy(sc, from), now, from + 1), {});
    } else {
      ExpireKeeps(sc, now, from + 1);
    }
  }

  /** One datagram from a connected client, including the drop if it is refused. */
  lemma ReceiveKeeps(sc: Scene, ci: nat, d: Datagram, fds: seq<int>, mem: Mmap, now: int)
    requires SceneOk(sc) && ci < |sc.tp.clients| && sc.tp.clients[ci].fd >= 0
    ensures KeptLosing(sc, Receive(sc, ci, d, fds, mem, now), Forsaken(sc, ci, d))
  {
    var r := Dispatch(sc, ci, d, fds, mem);
    DispatchKeeps(sc, ci, d, fds, mem);
    if !r.keep && ci < |r.sc.tp.clients| {
      DropKeepsAll(r.sc, ci, now);
      KeptTwice(sc, r.sc, Drop(r.sc, ci, now), Forsaken(sc, ci, d));
    }
  }

  lemma ConnectKeeps(sc: Scene, fd: int, watched: bool)
    requires SceneOk(sc) && fd >= 0
    ensures Kept(sc, sc.(tp := AddClient(sc.tp, fd, watched)))
  {
    Stays(sc.st);
    TpConnect(View(sc.st.ws), sc.st.nextId, sc.tp, fd, watched);
  }
}
