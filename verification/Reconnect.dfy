/** The windows of a shell client that died are kept, untouched by anything else that happens,
    until its token comes back or its grace period runs out. */
module Reconnect {
  import opened Windows
  import opened Transport
  import opened Session
  import Descriptors

  ghost predicate Waiting(os: seq<Orphan>, o: nat, p: Orphan) { o < |os| && os[o] == p && p.token != 0 }

  // ---- a client's death -----------------------------------------------------------

  /** The client whose connection the event ends, or -1: it hung up, or its datagram is refused. */
  function Dying(s: Sys, e: Session.Event): (ci: int)
    ensures -1 <= ci < |s.tp.clients| && (ci >= 0 ==> e.Hangup? || e.Receive?)
  {
    if !Enabled(s, e) then -1
    else
      match e
      case Hangup(fd, _) => ClientByFd(s.tp.clients, fd)
      case Receive(fd, d, fds, mem, _) =>
        var ci := ClientByFd(s.tp.clients, fd);
        if ci >= 0 && !Dispatch(SceneOf(s), ci, d, fds, mem).keep then ci else -1
      case _ => -1
  }

  /** The descriptors that came with the event. */
  function Carried(e: Session.Event): seq<int> { if e.Receive? then e.fds else [] }

  /** Either way the client is dropped, and what came with a refused datagram is closed. */
  lemma DeathIs(s: Sys, e: Session.Event)
    requires Dying(s, e) >= 0
    ensures Step(s, e) == WithScene(s, Drop(CloseAll(SceneOf(s), Carried(e)), Dying(s, e), e.now))
  {
    hide Dispatch, Drop;
    if e.Receive? {
      Descriptors.RefusalIs(SceneOf(s), Dying(s, e), e.datagram, e.fds, e.mem);
    } else {
      assert CloseAll(SceneOf(s), []) == SceneOf(s) by { assert Closed(s.tp.kern, []) == s.tp.kern; }
    }
  }

  /** The event ends the connection of a client that is parked: its table will wait. */
  predicate Parks(s: Sys, e: Session.Event) { Dying(s, e) >= 0 && ParkingSlot(SceneOf(s), Dying(s, e)) >= 0 }

  /** What will wait. */
  function Left(s: Sys, e: Session.Event): Orphan
    requires Parks(s, e)
  {
    var c := s.tp.clients[Dying(s, e)];
    Orphan(c.token, e.now + GRACE_MS, c.wins)
  }

  /** A parked client's table waits under its token, and its slot is free. */
  lemma DeathParks(s: Sys, e: Session.Event)
    requires Parks(s, e)
    ensures var ci, t := Dying(s, e), Step(s, e);
            && Waiting(t.tp.orphans, ParkingSlot(SceneOf(s), ci), Left(s, e))
            && t.tp.clients == s.tp.clients[ci := FreeClient()]
  {
    hide Step, Dispatch;
    DeathIs(s, e);
  }

  // ---- one call -------------------------------------------------------------------

  function AfterHello(os: seq<Orphan>, token: nat): seq<Orphan> {
    var o := if token == 0 then -1 else FindOrphan(os, token);
    if o < 0 then os else os[o := FreeOrphan()]
  }

  lemma HelloOrphans(tp: Tp, ci: nat, d: Datagram)
    requires ci < |tp.clients| && d.body.Hello?
    ensures OnHello(tp, ci, d).orphans == AfterHello(tp.orphans, Presented(d))
  {
  }

  /** The handshake datagram of a new client, and it is accepted. */
  predicate Greets(cs: seq<Client>, ci: nat, d: Datagram)
    requires ci < |cs|
  {
    !cs[ci].hello && d.len >= HELLO_V1_SIZE && d.body.Hello? && HelloAccepted(d.body)
  }

  lemma RequestOrphans(sc: Scene, ci: nat, b: Body, fds: seq<int>, mem: Mmap)
    requires ci < |sc.tp.clients|
    ensures Transport.Request(sc, ci, b, fds, mem).tp.orphans == sc.tp.orphans
  {
    match b
    case CreateWindow(_, _, _, _, _, _) => CreateOrphans(sc, ci, b);
    case Commit(_, _, _, _, _, _, _) => CommitOrphans(sc, ci, b, fds, mem);
    case DestroyWindow(_) => DestroyOrphans(sc, ci, b);
    case SetGeometry(_, _, _, _, _) =>
    case SetCursor(_, _, _, _, _) => CursorOrphans(sc.tp, b, fds, mem);
    case _ =>
  }

  lemma CreateOrphans(sc: Scene, ci: nat, m: Body)
    requires ci < |sc.tp.clients| && m.CreateWindow?
    ensures OnCreate(sc, ci, m).tp.orphans == sc.tp.orphans
  {
  }

  lemma CommitOrphans(sc: Scene, ci: nat, m: Body, fds: seq<int>, mem: Mmap)
    requires ci < |sc.tp.clients| && m.Commit?
    ensures OnCommit(sc, ci, m, fds, mem).tp.orphans == sc.tp.orphans
  {
  }

  lemma DestroyOrphans(sc: Scene, ci: nat, m: Body)
    requires ci < |sc.tp.clients| && m.DestroyWindow?
    ensures OnDestroyWindow(sc, ci, m).tp.orphans == sc.tp.orphans
  {
  }

  lemma CursorOrphans(tp: Tp, m: Body, fds: seq<int>, mem: Mmap)
    requires m.SetCursor?
    ensures OnSetCursor(tp, m, fds, mem).orphans == tp.orphans
  {
  }

  lemma DispatchOrphans(sc: Scene, ci: nat, d: Datagram, fds: seq<int>, mem: Mmap)
    requires ci < |sc.tp.clients|
    ensures Dispatch(sc, ci, d, fds, mem).sc.tp.orphans ==
            if Greets(sc.tp.clients, ci, d) then AfterHello(sc.tp.orphans, Presented(d)) else sc.tp.orphans
  {
    hide Request;
    if d.body.Hello? { HelloOrphans(sc.tp, ci, d); }
    RequestOrphans(sc, ci, d.body, fds, mem);
  }

  /** A client's death takes no orphan's place. */
  lemma DropSpares(sc: Scene, ci: nat, now: int, o: nat, p: Orphan)
    requires ci < |sc.tp.clients| && Waiting(sc.tp.orphans, o, p)
    ensures Waiting(Drop(sc, ci, now).tp.orphans, o, p)
  {
  }

  lemma ReceiveSpares(sc: Scene, ci: nat, d: Datagram, fds: seq<int>, mem: Mmap, now: int, o: nat, p: Orphan)
    requires ci < |sc.tp.clients| && Waiting(sc.tp.orphans, o, p)
    requires !(Greets(sc.tp.clients, ci, d) && Presented(d) == p.token)
    ensures Waiting(Transport.Receive(sc, ci, d, fds, mem, now).tp.orphans, o, p)
  {
    hide Dispatch, Drop;
    var r := Dispatch(sc, ci, d, fds, mem);
    DispatchOrphans(sc, ci, d, fds, mem);
    assert Waiting(r.sc.tp.orphans, o, p);
    if !r.keep && ci < |r.sc.tp.clients| { DropSpares(r.sc, ci, now, o, p); }
  }

  lemma {:induction false} ExpireSpares(sc: Scene, now: int, from: nat, o: nat, p: Orphan)
    requires from <= |sc.tp.orphans| && Waiting(sc.tp.orphans, o, p) && now < p.deadline
    ensures Waiting(ExpireFrom(sc, now, from).tp.orphans, o, p)
    decreases |sc.tp.orphans| - from
  {
    if from < |sc.tp.orphans| {
      if Due(sc.tp.orphans[from], now) {
        ExpireSpares(OrphanDestroy(sc, from), now, from + 1, o, p);
      } else {
        ExpireSpares(sc, now, from + 1, o, p);
      }
    }
  }

  /** A tick frees exactly the orphan slots whose grace period has run out. */
  lemma {:induction false} ExpireExactly(sc: Scene, now: int, from: nat, i: nat)
    requires from <= |sc.tp.orphans| && i < |sc.tp.orphans|
    ensures var r := ExpireFrom(sc, now, from).tp.orphans;
            |r| == |sc.tp.orphans| && r[i] == if from <= i && Due(sc.tp.orphans[i], now) then FreeOrphan() else sc.tp.orphans[i]
    decreases |sc.tp.orphans| - from
  {
    if from < |sc.tp.orphans| {
      if Due(sc.tp.orphans[from], now) {
        ExpireExactly(OrphanDestroy(sc, from), now, from + 1, i);
      } else {
        ExpireExactly(sc, now, from + 1, i);
      }
    }
  }

  // ---- any run ---------------------------------------------------------------------

  /** The event is a HELLO, accepted, that presents this token. */
  predicate Redeems(s: Sys, e: Session.Event, token: nat) {
    && e.Receive? && Enabled(s, e)
    && var ci := ClientByFd(s.tp.clients, e.fd);
       ci >= 0 && Greets(s.tp.clients, ci, e.datagram) && Presented(e.datagram) == token
  }

  /** The event neither presents the token nor lets the grace period run out. */
  predicate Spares(s: Sys, e: Session.Event, p: Orphan) {
    !Redeems(s, e, p.token) && (e.Tick? ==> e.now < p.deadline)
  }

  /** No other event touches the orphan slots at all. */
  lemma QuietOrphans(s: Sys, e: Session.Event)
    requires Enabled(s, e) && !e.Receive? && !e.Hangup? && !e.Tick?
    ensures Act(s, e).tp.orphans == s.tp.orphans
  {
    match e
    case Motion(dx, dy) =>
    case MotionAbs(ax, ay) =>
    case Button(b, pressed) =>
    case Key(keycode, keysym, pressed, alt) =>
    case Connect(fd, watched) =>
    case SetMode(modes, w, h, refresh, blobOk, fbOk) =>
    case Sync =>
    case Wl(r) =>
  }

  lemma StepSpares(s: Sys, e: Session.Event, o: nat, p: Orphan)
    requires Waiting(s.tp.orphans, o, p) && Spares(s, e, p)
    ensures Waiting(Step(s, e).tp.orphans, o, p)
  {
    if Enabled(s, e) {
      match e
      case Receive(fd, d, fds, mem, now) => ReceivedSpares(s, fd, d, fds, mem, now, o, p);
      case Hangup(fd, now) => HangupSpares(s, fd, now, o, p);
      case Tick(now) => ExpireSpares(SceneOf(s), now, 0, o, p);
      case _ => QuietOrphans(s, e);
    }
  }

  lemma ReceivedSpares(s: Sys, fd: int, d: Datagram, fds: seq<int>, mem: Mmap, now: int, o: nat, p: Orphan)
    requires Waiting(s.tp.orphans, o, p)
    requires var ci := ClientByFd(s.tp.clients, fd);
             ci >= 0 ==> !(Greets(s.tp.clients, ci, d) && Presented(d) == p.token)
    ensures Waiting(OnReceive(s, fd, d, fds, mem, now).tp.orphans, o, p)
  {
    var ci := ClientByFd(s.tp.clients, fd);
    if ci >= 0 { ReceiveSpares(SceneOf(s), ci, d, fds, mem, now, o, p); }
  }

  lemma HangupSpares(s: Sys, fd: int, now: int, o: nat, p: Orphan)
    requires Waiting(s.tp.orphans, o, p)
    ensures Waiting(OnHangup(s, fd, now).tp.orphans, o, p)
  {
    var ci := ClientByFd(s.tp.clients, fd);
    if ci >= 0 { DropSpares(SceneOf(s), ci, now, o, p); }
  }

  predicate AllSpare(s: Sys, es: seq<Session.Event>, n: nat, p: Orphan)
    requires n <= |es|
  {
    n == 0 || (AllSpare(s, es, n - 1, p) && Spares(RunTo(s, es, n - 1), es[n - 1], p))
  }

  /** An orphan waits through any run of other clients' requests and deaths, input, resolution
      changes and Wayland requests. */
  lemma {:induction false} RunSpares(s: Sys, es: seq<Session.Event>, n: nat, o: nat, p: Orphan)
    requires Waiting(s.tp.orphans, o, p) && n <= |es| && AllSpare(s, es, n, p)
    ensures Waiting(RunTo(s, es, n).tp.orphans, o, p)
  {
    hide Act, Spares;
    if n > 0 {
      RunSpares(s, es, n - 1, o, p);
      StepSpares(RunTo(s, es, n - 1), es[n - 1], o, p);
    }
  }
}
