/** The pixels of a native client's window: what it committed last, for as long as the window lives. */
module NativeContents {
  import opened Windows
  import opened StackSteps
  import opened Transport
  import SceneProofs
  import opened Session
  import opened SessionProofs
  import opened Reconnect
  import Books
  import Gestures
  import Modes
  import Pixels
  import Requests
  import Screens
  import Served
  import Snaps
  import Wayland
  import WaylandProofs
  import WmPolicy
  import WmProofs

  /** Two snapshots of a window with the same buffer. */
  predicate SameBuffer(a: Window, b: Window) {
    b.appDecorated == a.appDecorated && b.buf == a.buf && b.bufW == a.bufW && b.bufH == a.bufH && b.bufStride == a.bufStride
  }

  /** If the window is native and in both stacks, it shows the same buffer. */
  ghost predicate BufferStays(a: Stack, b: Stack, id: nat) {
    id in View(a.ws) && id in View(b.ws) && View(a.ws)[id].appDecorated ==> SameBuffer(View(a.ws)[id], View(b.ws)[id])
  }

  // ---- a client's request --------------------------------------------------------------------

  lemma SameStays(a: Stack, b: Stack, id: nat)
    requires View(b.ws) == View(a.ws)
    ensures BufferStays(a, b, id)
  {
  }

  lemma ReapedStays(a: Stack, ids: set<nat>, id: nat)
    requires Ok(a)
    ensures BufferStays(a, Reaped(a, ids), id)
  {
    ReapedOk(a, ids);
  }

  lemma CreateStays(sc: Scene, ci: nat, m: Body, id: nat)
    requires SceneProofs.SceneOk(sc) && ci < |sc.tp.clients| && m.CreateWindow?
    ensures BufferStays(sc.st, OnCreate(sc, ci, m).st, id)
  {
    hide OnCreate, SceneProofs.SceneOk, Served.CreateFits;
    Served.CreateServedIff(sc, ci, m);
  }

  lemma PutStays(a: Stack, i: nat, w: Window, id: nat)
    requires Ok(a) && i < |a.ws| && w.id == a.ws[i].id && (SameBuffer(a.ws[i], w) || w.id != id)
    ensures BufferStays(a, a.(ws := a.ws[i := w]), id)
  {
    PutOk(a, i, w);
    ViewAt(a.ws, i);
  }

  lemma GeometryStays(sc: Scene, ci: nat, m: Body, id: nat)
    requires SceneProofs.SceneOk(sc) && ci < |sc.tp.clients| && m.SetGeometry?
    ensures BufferStays(sc.st, OnSetGeometry(sc, ci, m).st, id)
  {
    Served.StackIn(sc);
    var j := WinFind(sc.tp.clients[ci].wins, m.wid);
    if j >= 0 {
      SceneProofs.HeldWindow(sc, ci, j);
      var i := IndexOf(sc.st.ws, sc.tp.clients[ci].wins[j].serverId);
      PutStays(sc.st, i, Resized(sc.st.ws[i], m.x, m.y, AsInt(m.w), AsInt(m.h)), id);
    }
  }

  lemma DestroyStays(sc: Scene, ci: nat, m: Body, id: nat)
    requires SceneProofs.SceneOk(sc) && ci < |sc.tp.clients| && m.DestroyWindow?
    ensures BufferStays(sc.st, OnDestroyWindow(sc, ci, m).st, id)
  {
    Served.StackIn(sc);
    var j := WinFind(sc.tp.clients[ci].wins, m.wid);
    if j >= 0 {
      Requests.DestroyEffect(sc, ci, m);
      ReapedStays(sc.st, {sc.tp.clients[ci].wins[j].serverId}, id);
    } else {
      SameStays(sc.st, sc.st, id);
    }
  }

  /** The COMMIT fits, and the first slot with its wid names window id. */
  ghost predicate Takes(t: Table, m: Body, fds: seq<int>, mem: Mmap, id: nat)
    requires m.Commit?
  {
    Served.CommitFits(t, m, fds, mem) && exists j: nat :: Served.First(t, m.wid, j) && t[j].serverId == id
  }

  /** The event is a COMMIT on window id that takes effect. */
  ghost predicate CommitsTo(s: Sys, e: Session.Event, id: nat) {
    && e.Receive? && Enabled(s, e)
    && var ci := ClientByFd(s.tp.clients, e.fd);
       && ci >= 0 && s.tp.clients[ci].hello && e.datagram.body.Commit? && e.datagram.len >= 48
       && Takes(s.tp.clients[ci].wins, e.datagram.body, e.fds, e.mem, id)
  }

  lemma CommitStays(sc: Scene, ci: nat, m: Body, fds: seq<int>, mem: Mmap, id: nat)
    requires SceneProofs.SceneOk(sc) && ci < |sc.tp.clients| && m.Commit?
    requires !Takes(sc.tp.clients[ci].wins, m, fds, mem, id)
    ensures BufferStays(sc.st, OnCommit(sc, ci, m, fds, mem).st, id)
  {
    hide OnCommit, Served.CommitFits;
    Served.StackIn(sc);
    Served.CommitServedIff(sc, ci, m, fds, mem);
    if Served.CommitFits(sc.tp.clients[ci].wins, m, fds, mem) {
      var j: nat :| Served.First(sc.tp.clients[ci].wins, m.wid, j) &&
        Requests.BufferTaken(sc, OnCommit(sc, ci, m, fds, mem), sc.tp.clients[ci].wins[j], m);
      var i := IndexOf(sc.st.ws, sc.tp.clients[ci].wins[j].serverId);
      PutStays(sc.st, i, Requests.Committed(sc.st.ws[i], Mapping(sc.tp.kern.nextMap), m), id);
    } else {
      SameStays(sc.st, sc.st, id);
    }
  }

  lemma RequestStays(sc: Scene, ci: nat, b: Body, fds: seq<int>, mem: Mmap, id: nat)
    requires SceneProofs.SceneOk(sc) && ci < |sc.tp.clients|
    requires !(b.Commit? && Takes(sc.tp.clients[ci].wins, b, fds, mem, id))
    ensures BufferStays(sc.st, Transport.Request(sc, ci, b, fds, mem).st, id)
  {
    hide OnCreate, OnCommit, OnDestroyWindow, OnSetGeometry, OnSetCursor, SceneProofs.SceneOk, BufferStays;
    SameStays(sc.st, sc.st, id);
    match b
    case CreateWindow(_, _, _, _, _, _) => CreateStays(sc, ci, b, id);
    case Commit(_, _, _, _, _, _, _) => CommitStays(sc, ci, b, fds, mem, id);
    case DestroyWindow(_) => DestroyStays(sc, ci, b, id);
    case SetGeometry(_, _, _, _, _) => GeometryStays(sc, ci, b, id);
    case _ =>
  }

  // ---- deaths and expiry --------------------------------------------------------------------

  lemma DropStays(s: Sys, sc: Scene, ci: nat, now: int, id: nat)
    requires SceneProofs.SceneOk(sc) && ci < |sc.tp.clients| && sc.st == s.st
    ensures BufferStays(s.st, Drop(sc, ci, now).st, id)
  {
    hide SceneProofs.SceneOk, BufferStays;
    Served.StackIn(sc);
    SceneProofs.ClientTable(sc, ci);
    if ParkingSlot(sc, ci) < 0 {
      SceneProofs.ReapStack(sc, sc.tp.clients[ci].wins);
      ReapedStays(sc.st, Books.Held(sc.tp.clients[ci].wins), id);
    } else {
      SameStays(sc.st, sc.st, id);
    }
  }

  lemma {:induction false} ExpireStays(sc: Scene, now: int, from: nat, id: nat)
    requires SceneProofs.SceneOk(sc) && from <= |sc.tp.orphans|
    ensures View(ExpireFrom(sc, now, from).st.ws).Keys <= View(sc.st.ws).Keys
    ensures BufferStays(sc.st, ExpireFrom(sc, now, from).st, id)
    decreases |sc.tp.orphans| - from
  {
    hide SceneProofs.SceneOk;
    if from < |sc.tp.orphans| {
      ExpireStays(sc, now, from + 1, id);
      if Due(sc.tp.orphans[from], now) {
        SceneProofs.OrphanTable(sc, from);
        SceneProofs.ReapStack(sc, sc.tp.orphans[from].wins);
        SceneProofs.OrphanDestroyKeeps(sc, from);
        ExpireStays(OrphanDestroy(sc, from), now, from + 1, id);
      }
    }
  }

  // ---- every step ---------------------------------------------------------------------------

  lemma OwnershipStays(a: Stack, b: Stack, id: nat)
    requires SameOwnership(View(a.ws), View(b.ws))
    ensures BufferStays(a, b, id)
  {
  }

  lemma UntouchedStays(a: Stack, b: Stack, id: nat)
    requires WaylandProofs.NativesUntouched(View(a.ws), View(b.ws), a.nextId)
    ensures BufferStays(a, b, id)
  {
  }

  lemma InputStays(s: Sys, e: Session.Event, id: nat)
    requires SysOk(s) && (e.Motion? || e.MotionAbs? || e.Button?)
    ensures BufferStays(s.st, Step(s, e).st, id)
  {
    hide Step, SysOk, BufferStays, WmPolicy.Button, WmPolicy.MotionAbs;
    assert WmProofs.DeskOk(DeskOf(s)) by { Parts(s); }
    if e.Button? {
      Gestures.ButtonDesk(s, e.button, e.pressed);
      ButtonOwnership(DeskOf(s), e.button, e.pressed);
    } else {
      Gestures.MotionIs(s, e);
      MotionOwnership(DeskOf(s), Gestures.TargetX(s, e), Gestures.TargetY(s, e));
    }
    OwnershipStays(s.st, Step(s, e).st, id);
  }

  lemma ModeStays(s: Sys, e: Session.Event, id: nat)
    requires SysOk(s) && e.SetMode?
    ensures BufferStays(s.st, ApplyMode(s, e.modes, e.w, e.h, e.refresh, e.blobOk, e.fbOk).st, id)
  {
    hide FitFrom;
    var best := Modes.Select(e.modes, e.w, e.h, e.refresh);
    if best >= 0 { FitView(s.st, e.modes[best].hdisplay, e.modes[best].vdisplay); }
  }

  lemma ReceiveStays(s: Sys, e: Session.Event, id: nat)
    requires SysOk(s) && Enabled(s, e) && e.Receive? && !CommitsTo(s, e, id)
    ensures BufferStays(s.st, Step(s, e).st, id)
  {
    hide Transport.Request, SysOk, BufferStays, Drop, OnHello;
    assert SceneProofs.SceneOk(SceneOf(s)) by { Parts(s); }
    var ci, sc := ClientByFd(s.tp.clients, e.fd), SceneOf(s);
    SameStays(s.st, s.st, id);
    if Dying(s, e) >= 0 {
      DeathIs(s, e);
      SceneProofs.CloseKeeps(sc, e.fds);
      DropStays(s, CloseAll(sc, e.fds), ci, e.now, id);
    } else if ci >= 0 && sc.tp.clients[ci].hello && e.datagram.len >= Need(e.datagram.body) {
      RequestStays(sc, ci, e.datagram.body, e.fds, e.mem, id);
    }
  }

  /** In any step a native window that stays keeps the buffer it shows, unless the step is a COMMIT
      on it that takes effect. */
  lemma StepStays(s: Sys, e: Session.Event, id: nat)
    requires SysOk(s) && !CommitsTo(s, e, id)
    ensures BufferStays(s.st, Step(s, e).st, id)
  {
    hide SysOk, BufferStays, AfterMotion, OnButton, OnReceive, ApplyMode, OnSync, Wayland.Serve, Drop, ExpireFrom, Transport.RouteKey;
    hide CommitsTo;
    SameStays(s.st, s.st, id);
    if Enabled(s, e) {
      match e
      case Motion(_, _) => InputStays(s, e, id);
      case MotionAbs(_, _) => InputStays(s, e, id);
      case Button(_, _) => InputStays(s, e, id);
      case Key(keycode, keysym, pressed, alt) =>
        Screens.PlainFrame(s, keycode, keysym, pressed, alt);
        SameStays(s.st, Step(s, e).st, id);
      case Connect(_, _) =>
      case Receive(_, _, _, _, _) => ReceiveStays(s, e, id);
      case Hangup(fd, now) =>
        Parts(s);
        if ClientByFd(s.tp.clients, fd) >= 0 { DropStays(s, SceneOf(s), ClientByFd(s.tp.clients, fd), now, id); }
      case Tick(now) =>
        Parts(s);
        ExpireStays(SceneOf(s), now, 0, id);
      case SetMode(_, _, _, _, _, _) => ModeStays(s, e, id);
      case Sync => Screens.SyncFrame(s);
      case Wl(r) =>
        Parts(s);
        WaylandProofs.ServeKeeps(FrontOf(s), r, s.tp, s.wm.screenW, s.wm.screenH);
        UntouchedStays(s.st, Wayland.Serve(FrontOf(s), r).st, id);
    }
  }

  // ---- every run ----------------------------------------------------------------------------

  ghost predicate Uncommitted(s: Sys, es: seq<Session.Event>, n: nat, id: nat)
    requires n <= |es|
  {
    n == 0 || (Uncommitted(s, es, n - 1, id) && !CommitsTo(RunTo(s, es, n - 1), es[n - 1], id))
  }

  /** Over a run without a COMMIT on it that takes effect, a native window that lives on keeps its buffer. */
  lemma {:induction false} RunStays(s: Sys, es: seq<Session.Event>, n: nat, id: nat)
    requires SysOk(s) && n <= |es| && Uncommitted(s, es, n, id)
    requires id in View(s.st.ws) && View(s.st.ws)[id].appDecorated && id in View(RunTo(s, es, n).st.ws)
    ensures SameBuffer(View(s.st.ws)[id], View(RunTo(s, es, n).st.ws)[id])
  {
    hide Step, SysOk, CommitsTo;
    if n > 0 {
      var u := RunTo(s, es, n - 1);
      Snaps.RunNoReuse(s, es, n - 1);
      Snaps.StepNoReuse(u, es[n - 1]);
      assert Ok(s.st) by { Parts(s); }
      StackSteps.ViewIds(s.st);
      RunStays(s, es, n - 1, id);
      StepStays(u, es[n - 1], id);
    }
  }

  // ---- what it shows ------------------------------------------------------------------------

  /** The window shows mapping n with the dimensions the COMMIT declared. */
  predicate Holds(w: Window, n: nat, m: Body)
    requires m.Commit?
  {
    w.appDecorated && w.buf == Mapping(n) && w.bufW == AsInt(m.width) && w.bufH == AsInt(m.height) && w.bufStride == AsInt(m.stride)
  }

  lemma CommitHolds(sc: Scene, ci: nat, m: Body, fds: seq<int>, mem: Mmap, id: nat)
    requires SceneProofs.SceneOk(sc) && ci < |sc.tp.clients| && m.Commit? && Takes(sc.tp.clients[ci].wins, m, fds, mem, id)
    ensures var v := View(OnCommit(sc, ci, m, fds, mem).st.ws); id in v && Holds(v[id], sc.tp.kern.nextMap, m)
  {
    hide OnCommit, SceneProofs.SceneOk, Requests.BufferTaken, Served.Nowhere;
    Served.CommitServedIff(sc, ci, m, fds, mem);
    var j: nat :| Served.First(sc.tp.clients[ci].wins, m.wid, j) &&
      Requests.BufferTaken(sc, OnCommit(sc, ci, m, fds, mem), sc.tp.clients[ci].wins[j], m);
    TakenHolds(sc, OnCommit(sc, ci, m, fds, mem), ci, j, m);
  }

  lemma TakenHolds(sc: Scene, r: Scene, ci: nat, j: nat, m: Body)
    requires SceneProofs.SceneOk(sc) && ci < |sc.tp.clients| && m.Commit?
    requires j < |sc.tp.clients[ci].wins| && sc.tp.clients[ci].wins[j].wid != 0
    requires Requests.BufferTaken(sc, r, sc.tp.clients[ci].wins[j], m)
    ensures var v, id := View(r.st.ws), sc.tp.clients[ci].wins[j].serverId; id in v && Holds(v[id], sc.tp.kern.nextMap, m)
  {
    hide SceneProofs.SceneOk, Requests.Swapped;
    Served.StackIn(sc);
    SceneProofs.HeldWindow(sc, ci, j);
    var i := IndexOf(sc.st.ws, sc.tp.clients[ci].wins[j].serverId);
    PutOk(sc.st, i, Requests.Committed(sc.st.ws[i], Mapping(sc.tp.kern.nextMap), m));
  }

  lemma StepHolds(s: Sys, e: Session.Event, id: nat)
    requires SysOk(s) && CommitsTo(s, e, id)
    ensures var v := View(Step(s, e).st.ws); id in v && Holds(v[id], s.tp.kern.nextMap, e.datagram.body)
  {
    hide OnCommit, SysOk, Takes;
    assert SceneProofs.SceneOk(SceneOf(s)) by { Parts(s); }
    CommitHolds(SceneOf(s), ClientByFd(s.tp.clients, e.fd), e.datagram.body, e.fds, e.mem, id);
  }

  lemma MappingReads(s: Sys, mem: Pixels.Memory, id: nat)
    requires SysOk(s) && Screens.Backed(s, mem) && id in View(s.st.ws)
    requires var w := View(s.st.ws)[id]; w.appDecorated && w.buf.Mapping? && Screens.Honest(w)
    ensures View(s.st.ws)[id].buf.m in s.tp.kern.live && s.tp.kern.live[View(s.st.ws)[id].buf.m].window == id
    ensures Pixels.Readable(View(s.st.ws)[id], mem)
  {
    var w := View(s.st.ws)[id];
    assert Ok(s.st) by { Parts(s); }
    StackSteps.ViewIds(s.st);
    Screens.LongerReads(w, Books.Extent(w), |mem[w.buf]|);
  }

  /** At every point of the window that its buffer reaches, its colour is the pixel that the client's
      bytes have there, row by row at the stride the client declared. */
  ghost predicate ShowsBytes(w: Window, focus: nat, mem: Pixels.Memory, n: nat, m: Body)
    requires m.Commit? && Pixels.Readable(w, mem)
  {
    forall x, y | Pixels.Covers(w, x, y) && x - w.x < AsInt(m.width) && y - w.y < AsInt(m.height) ::
      && Mapping(n) in mem
      && Pixels.IsPixel(Pixels.ColorAt(w, w.id == focus, mem, x, y), mem[Mapping(n)], AsInt(m.stride), y - w.y, x - w.x)
  }

  lemma HoldsShows(w: Window, focus: nat, mem: Pixels.Memory, n: nat, m: Body)
    requires m.Commit? && Pixels.Readable(w, mem) && Holds(w, n, m)
    ensures ShowsBytes(w, focus, mem, n, m)
  {
    hide Pixels.ColorAt, Pixels.IsPixel, Pixels.Readable;
    forall x, y | Pixels.Covers(w, x, y) && x - w.x < AsInt(m.width) && y - w.y < AsInt(m.height)
      ensures Mapping(n) in mem
      ensures Pixels.IsPixel(Pixels.ColorAt(w, w.id == focus, mem, x, y), mem[Mapping(n)], AsInt(m.stride), y - w.y, x - w.x)
    {
      Pixels.CoveredColor(w, focus, mem, x, y);
    }
  }

  /** What a client commits is what its window shows: from a COMMIT that takes effect on, over any run
      with no other on the same window, however long the window lives, it shows the mapping made for it,
      which is still live, and every point the buffer reaches has the pixel that is in the mapping. */
  lemma LastCommitShows(s: Sys, e: Session.Event, es: seq<Session.Event>, id: nat, mem: Pixels.Memory)
    requires SysOk(s) && CommitsTo(s, e, id) && Uncommitted(Step(s, e), es, |es|, id)
    requires var t := Run(Step(s, e), es); id in View(t.st.ws) && Screens.Backed(t, mem) && Screens.Honest(View(t.st.ws)[id])
    ensures var t, n := Run(Step(s, e), es), s.tp.kern.nextMap;
            var w := View(t.st.ws)[id];
            && Holds(w, n, e.datagram.body) && n in t.tp.kern.live && t.tp.kern.live[n].window == id
            && Pixels.Readable(w, mem) && ShowsBytes(w, t.st.focus, mem, n, e.datagram.body)
  {
    hide Act, SysOk, CommitsTo, Screens.Backed, Screens.Honest, ShowsBytes, Pixels.Readable;
    var a, t := Step(s, e), Run(Step(s, e), es);
    assert e.Receive? && e.datagram.body.Commit? by { CommitIs(s, e, id); }
    StepKeeps(s, e);
    StepHolds(s, e, id);
    RunStays(a, es, |es|, id);
    RunKeeps(a, es, |es|);
    MappingReads(t, mem, id);
    HoldsShows(View(t.st.ws)[id], t.st.focus, mem, s.tp.kern.nextMap, e.datagram.body);
  }

  lemma CommitIs(s: Sys, e: Session.Event, id: nat)
    requires CommitsTo(s, e, id)
    ensures e.Receive? && e.datagram.body.Commit?
  {
  }

  /** And that is what is on the screen: after any run from boot in which no window was snapped into a
      sliver, the painter's loop leaves at every point where the window is the highest one, and its
      buffer reaches, the pixel that the client's bytes have there. */
  lemma LastCommitSeen(mode: Modes.Mode, demo: bool, garbage: nat, es: seq<Session.Event>, mem: Pixels.Memory,
                       i: nat, n: nat, m: Body, x: int, y: int)
    requires mode.hdisplay >= 1 && mode.vdisplay >= 1 && Screens.NoLowSnap(Boot(mode, demo, garbage), es, |es|)
    requires var t := Run(Boot(mode, demo, garbage), es);
             && Screens.Backed(t, mem) && (forall k | 0 <= k < |t.st.ws| :: Screens.Honest(t.st.ws[k]))
             && Pixels.Topmost(t.st.ws, i, x, y) && m.Commit? && Holds(t.st.ws[i], n, m)
             && x - t.st.ws[i].x < AsInt(m.width) && y - t.st.ws[i].y < AsInt(m.height)
    ensures var st := Run(Boot(mode, demo, garbage), es).st;
            && Pixels.AllReadable(st.ws, mem) && Mapping(n) in mem
            && Pixels.IsPixel(Pixels.PaintedUpTo(st, mem, |st.ws|, x, y), mem[Mapping(n)], AsInt(m.stride),
                              y - st.ws[i].y, x - st.ws[i].x)
  {
    hide Step, Boot, Screens.Backed, Screens.NoLowSnap, Pixels.PaintedUpTo, Pixels.IsPixel, Pixels.AllReadable, Screens.Honest;
    Screens.FrameSays(mode, demo, garbage, es, mem, i, x, y);
  }
}
