/** Inputs on which the server falls short of what one would expect of it, each reached by a run
    from boot. The exact conditions are stated where the guarantees are. */
module Shortfalls {
  import opened Windows
  import opened Transport
  import opened SceneBasics
  import opened Session
  import opened SessionProofs
  import opened SessionBoot
  import opened Newcomers
  import opened Runs
  import Requests
  import SceneProofs
  import Ownership
  import Clicks
  import Deliveries
  import Gestures
  import Wayland
  import WmPolicy
  import Modes
  import Pixels
  import Screens
  import opened Reconnect
  import RoundTrips
  import FocusReports
  import FocusHistory
  import Resizes
  import WireNames
  import opened WmProofs

  // ---- a window nobody owns -----------------------------------------------------------------

  const NAMELESS: Body := CreateWindow(0, 0, 0, 0, 100, 100)

  /** From any state with room, a newcomer can leave a window that nobody can ever destroy. */
  lemma StrayArises(s: Sys, fd: int)
    requires SysOk(s) && HasRoom(s, fd) && |s.st.ws| < WIN_MAX
    ensures var g := Greeted(s, fd);
            && Ownership.CreatesForZero(g, Ask(fd, NAMELESS))
            && s.st.nextId in SysStrays(Step(g, Ask(fd, NAMELESS))) && !Ownership.AllOwned(Step(g, Ask(fd, NAMELESS)))
  {
    hide Step, SysOk;
    FirstWindow(s, fd, NAMELESS);
    GreetedIs(s, fd);
    Ownership.StrayStep(Greeted(s, fd), Ask(fd, NAMELESS));
    StackOf(Step(Greeted(s, fd), Ask(fd, NAMELESS)));
    Ownership.StraysSaid(Step(Greeted(s, fd), Ask(fd, NAMELESS)));
  }

  lemma StackOf(s: Sys)
    requires SysOk(s)
    ensures Ok(s.st)
  {
  }

  lemma StrayReachable(mode: Modes.Mode, garbage: nat)
    requires mode.hdisplay >= 1 && mode.vdisplay >= 1
    ensures var t := Step(Greeted(Boot(mode, false, garbage), 3), Ask(3, NAMELESS));
            Reachable(t) && !Ownership.AllOwned(t)
  {
    hide Step;
    var b := Boot(mode, false, garbage);
    BootOk(mode, false, garbage);
    RoomFor(b, 3);
    StrayArises(b, 3);
    BootReachable(mode, false, garbage);
    ReachableStep(b, Connect(3, true));
    ReachableStep(Joined(b, 3), Receive(3, HelloWith(0), [], MapFailed, 0));
    ReachableStep(Greeted(b, 3), Ask(3, NAMELESS));
  }

  // ---- one press, two receivers ----------------------------------------------------------------

  /** A NORMAL window right under the cursor. */
  function Cover(wm: WmPolicy.Wm): Body { CreateWindow(1, 0, wm.cursorX, wm.cursorY, 10, 10) }

  lemma OnTopIsHit(ws: seq<Window>, w: Window, x: int, y: int)
    requires Hit(w, x, y)
    ensures At(ws + [w], x, y) == |ws|
  {
  }

  /** The state after the newcomer's request. */
  function Covered(s: Sys, fd: int): Sys { Step(Greeted(s, fd), Ask(fd, Cover(s.wm))) }

  lemma CoverOnTop(s: Sys, fd: int) returns (w: Window)
    requires SysOk(s) && HasRoom(s, fd) && |s.st.ws| < WIN_MAX
    ensures var t := Covered(s, fd);
            && SysOk(t) && t.wm == s.wm && t.fe == s.fe && t.st.ws == s.st.ws + [w] && t.st.focus == s.st.nextId
            && w.id == s.st.nextId && w.appDecorated && Hit(w, s.wm.cursorX, s.wm.cursorY)
  {
    hide Step, SysOk, OnCreate;
    var g, k := Greeted(s, fd), ClientByFd(s.tp.clients, -1);
    FirstWindow(s, fd, Cover(s.wm));
    GreetedIs(s, fd);
    assert SceneProofs.SceneOk(SceneOf(g)) by { Parts(g); }
    w := Requests.CreateStack(SceneOf(g), k, Cover(s.wm));
  }

  lemma CoverOwned(s: Sys, fd: int)
    requires SysOk(s) && HasRoom(s, fd) && |s.st.ws| < WIN_MAX
    ensures FindOwner(Covered(s, fd).tp.clients, s.st.nextId).Owner?
  {
    hide Step, SysOk, OnCreate;
    var g, k := Greeted(s, fd), ClientByFd(s.tp.clients, -1);
    FirstWindow(s, fd, Cover(s.wm));
    GreetedIs(s, fd);
    assert SceneProofs.SceneOk(SceneOf(g)) by { Parts(g); }
    assert SceneProofs.SceneOk(SceneOf(Covered(s, fd))) by { Parts(Covered(s, fd)); }
    Requests.CreateSlot(SceneOf(g), k, Cover(s.wm));
    Requests.SlotOwner(SceneOf(Covered(s, fd)), k, 0);
  }

  /** While a surface has the pointer, a newcomer opens a window under the resting cursor: the next
      press goes to the surface and to the newcomer. */
  lemma StalePointer(s: Sys, fd: int)
    requires SysOk(s) && Wayland.ButtonTarget(s.fe) >= 0 && HasRoom(s, fd) && |s.st.ws| < WIN_MAX
    ensures var t := Covered(s, fd);
            SysOk(t) && Wayland.ButtonTarget(t.fe) >= 0 && !Gestures.PressGrabs(t) && !Clicks.NobodyElse(t)
  {
    hide Covered, SysOk;
    var w := CoverOnTop(s, fd);
    CoverOwned(s, fd);
    OnTopIsHit(s.st.ws, w, s.wm.cursorX, s.wm.cursorY);
  }

  /** The same with the keyboard: a newcomer's window takes the focus, and until the turn ends a key
      goes to the surface and to the newcomer. */
  lemma StaleKeyboard(s: Sys, fd: int, e: Session.Event)
    requires SysOk(s) && Wayland.KeyTarget(s.fe) >= 0 && HasRoom(s, fd) && |s.st.ws| < WIN_MAX
    requires e.Key? && !Deliveries.ServersOwn(Covered(s, fd), e)
    ensures var t := Covered(s, fd); SysOk(t) && Wayland.KeyTarget(t.fe) >= 0 && Step(t, e).tp != t.tp
  {
    hide Covered, SysOk, Step, Deliveries.ServersOwn;
    var w := CoverOnTop(s, fd);
    CoverOwned(s, fd);
    Deliveries.KeyExclusiveIff(Covered(s, fd), e);
  }

  lemma HasSeats()
    ensures Wayland.ButtonTarget(EnteredFront()) == 0 && Wayland.KeyTarget(EnteredFront()) == 0
  {
    assert Wayland.SurfaceOf([Mapped1()], 1) == 0;
  }

  /** The key of a letter. */
  const LETTER_A: Session.Event := Key(30, 0x61, true, false)

  /** A run from boot after which one left press, and one key, reach a surface and a native client. */
  lemma StaleReachable(mode: Modes.Mode, garbage: nat) returns (t: Sys)
    requires mode.hdisplay >= 200 && mode.vdisplay >= 200
    ensures Reachable(t) && Wayland.ButtonTarget(t.fe) >= 0 && !Gestures.PressGrabs(t) && !Clicks.NobodyElse(t)
    ensures Wayland.KeyTarget(t.fe) >= 0 && !Deliveries.ServersOwn(t, LETTER_A) && Step(t, LETTER_A).tp != t.tp
  {
    hide Step, Reachable, SysOk, Clicks.NobodyElse, Gestures.PressGrabs, ByOneSurface;
    var s := SurfaceReached(mode, garbage);
    OneReachable(s);
    ReachableOk(s);
    HasSeats();
    RoomFor(s, 3);
    StalePointer(s, 3);
    StaleKeyboard(s, 3, LETTER_A);
    ReachableStep(s, Connect(3, true));
    ReachableStep(Joined(s, 3), Receive(3, HelloWith(0), [], MapFailed, 0));
    ReachableStep(Greeted(s, 3), Ask(3, Cover(s.wm)));
    t := Covered(s, 3);
  }

  // ---- a window snapped into a sliver ------------------------------------------------------------

  /** A taskbar that floats below the top edge of an 800x600 screen. */
  const FLOATING_BAR: Body := CreateWindow(1, 2, 0, 20, 800, 40)

  function Bar(): Window { NewWindow(4, Taskbar, 0, 20, 800, 40, 0x00202020).(appDecorated := true) }

  function Dragged3(y: int): Window { NewWindow(3, Normal, 266, y, 480, 320, 0x00eeeeee) }

  function Sliver3(): Window { WmPolicy.Snapped(Dragged3(0), WmPolicy.Rect(0, 0, 800, 20)) }

  /** The demo scene with that taskbar, and above it the second demo window w. */
  function DeskWith(w: Window): Stack {
    Stack([DemoWindows(800, 600)[0], DemoWindows(800, 600)[1], Bar(), w], 3, 5)
  }

  predicate Screen800(wm: WmPolicy.Wm) { wm.screenW == 800 && wm.screenH == 600 }

  lemma Found3(w: Window)
    requires w.id == 3
    ensures IndexOf(DeskWith(w).ws, 3) == 3 && WmPolicy.FirstTaskbar(DeskWith(w).ws) == 2
  {
    var ws := DeskWith(w).ws;
    assert ws[0].id == 1 && ws[1].id == 2 && ws[2] == Bar() && ws[3] == w;
    assert ws[0].role.Desktop? && ws[1].role.Normal?;
  }

  /** The user takes the second demo window by its title bar, */
  lemma GrabbedIs(d: WmPolicy.Desk)
    requires d.st == Stack(DemoWindows(800, 600) + [Bar()], 3, 5) && Screen800(d.wm)
    requires d.wm.cursorX == 270 && d.wm.cursorY == 205
    ensures WmPolicy.Press(d) ==
            WmPolicy.Desk(DeskWith(Dragged3(200)), d.wm.(moving := true, moveId := 3, grabDx := 4, grabDy := 5))
  {
    var ws, raised := d.st.ws, DeskWith(Dragged3(200));
    assert ws[2] == Dragged3(200) && At(ws, 270, 205) == 2 && IndexOf(ws, 3) == 2;
    assert ToTop(ws, 2) == raised.ws by { assert ToTop(ws, 2) == [ws[0], ws[1], ws[3], ws[2]]; }
    Found3(Dragged3(200));
    assert raised.ws[3 := Dragged3(200)] == raised.ws;
  }

  /** drags it to the top edge, */
  lemma DraggedIs(d: WmPolicy.Desk)
    requires d.st == DeskWith(Dragged3(200)) && Screen800(d.wm)
    requires d.wm.moving && d.wm.moveId == 3 && d.wm.grabDx == 4 && d.wm.grabDy == 5
    ensures WmPolicy.MotionAbs(d, 270, 5) == WmPolicy.Desk(DeskWith(Dragged3(0)), d.wm.(cursorX := 270, cursorY := 5))
  {
    Found3(Dragged3(200));
    assert d.st.ws[3 := Dragged3(0)] == DeskWith(Dragged3(0)).ws;
  }

  /** and lets go. */
  lemma SliverIs(d: WmPolicy.Desk)
    requires d.st == DeskWith(Dragged3(0)) && Screen800(d.wm)
    requires d.wm.moving && d.wm.moveId == 3 && d.wm.cursorX == 270 && d.wm.cursorY == 5
    ensures WmPolicy.Release(d).st == DeskWith(Sliver3())
    ensures Snaps(d) && SnapRect(d) == WmPolicy.Some(WmPolicy.Rect(0, 0, 800, 20))
  {
    Found3(Dragged3(0));
    ViewLast(d.st.ws);
    assert d.st.ws[3 := Sliver3()] == DeskWith(Sliver3()).ws;
  }

  lemma ViewLast(ws: seq<Window>)
    requires |ws| > 0
    ensures ws[|ws| - 1].id in View(ws) && View(ws)[ws[|ws| - 1].id] == ws[|ws| - 1]
  {
  }

  /** The title bar is painted over the taskbar, and a click there hits the taskbar. */
  lemma SliverShows(mem: Pixels.Memory)
    ensures var st := DeskWith(Sliver3());
            Pixels.AllReadable(st.ws, mem) && Pixels.PaintedUpTo(st, mem, |st.ws|, 0, 24) != Pixels.ScreenColor(st, mem, 0, 24)
  {
    assert At(DeskWith(Sliver3()).ws, 0, 24) == 2;
  }

  /** The taskbar's creation, on the stack. */
  lemma BarIs(sc: Transport.Scene, ci: nat)
    requires ci < |sc.tp.clients| && sc.st == Seeded(800, 600) && Creates(sc, ci, 1)
    ensures OnCreate(sc, ci, FLOATING_BAR).st == Stack(DemoWindows(800, 600) + [Bar()], 3, 5)
  {
    hide Announce, ClaimSlot;
    var made := Create(sc.st, Taskbar, 0, 20, 800, 40, 0x00202020);
    var n := NewWindow(4, Taskbar, 0, 20, 800, 40, 0x00202020);
    assert made.0.ws[0].id == 1 && made.0.ws[1].id == 2 && made.0.ws[2].id == 3 && made.0.ws[3] == n;
    assert IndexOf(made.0.ws, 4) == 3;
    assert made.0.ws[3 := Bar()] == DemoWindows(800, 600) + [Bar()];
  }

  lemma BarReached(mode: Modes.Mode, garbage: nat) returns (s: Sys)
    requires mode.hdisplay == 800 && mode.vdisplay == 600
    ensures Reachable(s) && s.st == Stack(DemoWindows(800, 600) + [Bar()], 3, 5) && Screen800(s.wm) && !s.wm.moving
    ensures HoldsFirst(s, 3, 4) && s.wm.reconfigured == garbage
  {
    hide Step, Reachable, SysOk, OnCreate, HoldsFirst;
    BarHeld(mode, garbage);
    var b := Boot(mode, true, garbage);
    BootOk(mode, true, garbage);
    BootReachable(mode, true, garbage);
    RoomFor(b, 3);
    FirstWindow(b, 3, FLOATING_BAR);
    GreetedIs(b, 3);
    BarIs(SceneOf(Greeted(b, 3)), ClientByFd(b.tp.clients, -1));
    ReachableStep(b, Connect(3, true));
    ReachableStep(Joined(b, 3), Receive(3, HelloWith(0), [], MapFailed, 0));
    ReachableStep(Greeted(b, 3), Ask(3, FLOATING_BAR));
    s := Step(Greeted(b, 3), Ask(3, FLOATING_BAR));
  }

  /** A run after which the screen shows, below the top edge, what a click there does not hit:
      a window was snapped into a work area lower than its title bar. */
  lemma LowSnapReachable(mode: Modes.Mode, garbage: nat, mem: Pixels.Memory) returns (s: Sys, t: Sys)
    requires mode.hdisplay == 800 && mode.vdisplay == 600
    ensures Reachable(s) && Screens.LowSnap(s, Button(WmPolicy.BTN_LEFT, false)) && t == Step(s, Button(WmPolicy.BTN_LEFT, false))
    ensures Reachable(t) && Pixels.AllReadable(t.st.ws, mem)
    ensures Pixels.PaintedUpTo(t.st, mem, |t.st.ws|, 0, 24) != Pixels.ScreenColor(t.st, mem, 0, 24)
  {
    hide Step, Reachable, WmPolicy.Press, WmPolicy.MotionAbs, WmPolicy.Release, DeskWith;
    s := BarReached(mode, garbage);
    AimedAt(DeskOf(s), 270, 205);
    Gestures.MotionIs(s, MotionAbs(270, 205));
    ReachableStep(s, MotionAbs(270, 205));
    s := Step(s, MotionAbs(270, 205));
    GrabbedIs(DeskOf(s));
    Gestures.ButtonDesk(s, WmPolicy.BTN_LEFT, true);
    ReachableStep(s, Button(WmPolicy.BTN_LEFT, true));
    s := Step(s, Button(WmPolicy.BTN_LEFT, true));
    DraggedIs(DeskOf(s));
    Gestures.MotionIs(s, MotionAbs(270, 5));
    ReachableStep(s, MotionAbs(270, 5));
    s := Step(s, MotionAbs(270, 5));
    SliverIs(DeskOf(s));
    Gestures.ButtonDesk(s, WmPolicy.BTN_LEFT, false);
    ReachableStep(s, Button(WmPolicy.BTN_LEFT, false));
    t := Step(s, Button(WmPolicy.BTN_LEFT, false));
    SliverShows(mem);
  }

  lemma AimedAt(d: WmPolicy.Desk, x: nat, y: nat)
    requires Screen800(d.wm) && !d.wm.moving && x < 800 && y < 600
    ensures WmPolicy.MotionAbs(d, x, y) == d.(wm := d.wm.(cursorX := x, cursorY := y))
  {
  }

  // ---- focus that nobody is told about -----------------------------------------------------------

  /** The client comes back: it connects as fd, presents its token, and the turn ends. */
  function BackAgain(s: Sys, death: Session.Event, fd: int): Sys
    requires Parks(s, death) && Left(s, death).token < 0x1_0000_0000
  {
    Step(Step(Step(s, death), Connect(fd, true)), Receive(fd, HelloWith(Left(s, death).token), [], MapFailed, death.now))
  }

  lemma ParkHeads(s: Sys, death: Session.Event)
    requires Parks(s, death)
    ensures Step(s, death).st == s.st && Step(s, death).tp.focused == s.tp.focused
  {
    hide Step, Dispatch;
    DeathIs(s, death);
  }

  lemma ConnectHeads(s: Sys, fd: int)
    ensures Step(s, Connect(fd, true)).st == s.st && Step(s, Connect(fd, true)).tp.focused == s.tp.focused
  {
  }

  /** A greeting changes no window, no focus report, and tells the greeting client nothing about focus. */
  lemma GreetHeads(s: Sys, fd: int, token: U32, now: int, id: nat)
    requires SysOk(s) && fd >= 0
    requires var k := ClientByFd(s.tp.clients, fd); k >= 0 && !s.tp.clients[k].hello
    ensures var t, k := Step(s, Receive(fd, HelloWith(token), [], MapFailed, now)), ClientByFd(s.tp.clients, fd);
            && t.st == s.st && t.tp.focused == s.tp.focused
            && k < |t.tp.clients| && !Told(t.tp.clients[k].sent, id)
  {
    hide OnHello, SysOk;
    var k := ClientByFd(s.tp.clients, fd);
    RoundTrips.GreetingIs(SceneOf(s), k, HelloWith(token), [], MapFailed, now);
    FocusReports.HelloTellsNothing(s, k, HelloWith(token), id);
    HelloFocused(s.tp, k, HelloWith(token));
  }

  lemma HelloFocused(tp: Tp, ci: nat, d: Datagram)
    requires ci < |tp.clients| && d.body.Hello?
    ensures OnHello(tp, ci, d).focused == tp.focused
  {
  }

  /** Some slot of the client that will be parked names the focused window, and the server has
      reported that focus. */
  predicate LeavesFocused(s: Sys, death: Session.Event, j: nat) {
    && Parks(s, death) && Left(s, death).token < 0x1_0000_0000
    && j < |Left(s, death).wins| && Left(s, death).wins[j].wid != 0
    && Left(s, death).wins[j].serverId == s.st.focus == s.tp.focused
  }

  lemma BackHeads(s: Sys, death: Session.Event, fd: int, j: nat)
    requires SysOk(s) && LeavesFocused(s, death, j) && Enabled(Step(s, death), Connect(fd, true))
    ensures var t, k := BackAgain(s, death, fd), ClientByFd(Step(Step(s, death), Connect(fd, true)).tp.clients, fd);
            && SysOk(t) && t.st == s.st && t.tp.focused == s.tp.focused
            && 0 <= k < |t.tp.clients| && t.tp.clients[k].wins == Left(s, death).wins
            && !Told(t.tp.clients[k].sent, s.st.focus)
  {
    hide Step, SysOk, Dying, ParkingSlot;
    var a, b := Step(s, death), Step(Step(s, death), Connect(fd, true));
    StepKeeps(s, death);
    StepKeeps(a, Connect(fd, true));
    StepKeeps(b, Receive(fd, HelloWith(Left(s, death).token), [], MapFailed, death.now));
    ParkHeads(s, death);
    ConnectHeads(a, fd);
    DeathParks(s, death);
    RoundTrips.ConnectsFresh(a, fd, Dying(s, death));
    GreetHeads(b, fd, Left(s, death).token, death.now, s.st.focus);
    RoundTrips.ComesBackAtOnce(s, death, fd);
  }

  /** A client that held the focused window dies, is parked and comes back at once: the window is
      its own again and still focused, and after the end of the turn it has not been told. */
  lemma FocusUntold(s: Sys, death: Session.Event, fd: int, j: nat)
    requires SysOk(s) && LeavesFocused(s, death, j) && Enabled(Step(s, death), Connect(fd, true))
    ensures var t := Step(BackAgain(s, death, fd), Sync);
            var o := FindOwner(t.tp.clients, t.st.focus);
            && t.st.focus == s.st.focus == t.tp.focused
            && o.Owner? && t.tp.clients[o.client].wins == Left(s, death).wins && o.slot == j
            && !Told(t.tp.clients[o.client].sent, t.st.focus)
  {
    hide Step, SysOk, BackAgain, Dying, ParkingSlot;
    var t, k := BackAgain(s, death, fd), ClientByFd(Step(Step(s, death), Connect(fd, true)).tp.clients, fd);
    BackHeads(s, death, fd, j);
    assert SceneProofs.SceneOk(SceneOf(t)) by { Parts(t); }
    Requests.SlotOwner(SceneOf(t), k, j);
    FocusReports.SyncReports(t);
    FocusHistory.SyncOwner(t, s.st.focus);
  }

  /** Client fd, the only one, holds window id in its first slot, and there is room to park it. */
  predicate HoldsFirst(s: Sys, fd: int, id: nat) {
    var k := ClientByFd(s.tp.clients, fd);
    && k >= 0 && |s.tp.clients[k].wins| > 0 && s.tp.clients[k].wins[0].wid != 0 && s.tp.clients[k].wins[0].serverId == id
    && s.tp.clients[k].token == 1 && FindOrphan(s.tp.orphans, 0) >= 0
    && forall i | 0 <= i < |s.tp.clients| && i != k :: s.tp.clients[i].fd == -1
  }

  lemma SentHolds(s: Sys, t: Sys, fd: int, id: nat)
    requires HoldsFirst(s, fd, id) && OnlySent(s.tp.clients, t.tp.clients) && t.tp.orphans == s.tp.orphans
    ensures HoldsFirst(t, fd, id)
  {
    var k := ClientByFd(s.tp.clients, fd);
    assert ClientFrom(s.tp.clients, fd, 0) == k && ClientFrom(t.tp.clients, fd, 0) == k;
  }

  lemma PointerSends(s: Sys, e: Session.Event)
    requires e.MotionAbs? || e.Button?
    ensures var t := Step(s, e); OnlySent(s.tp.clients, t.tp.clients) && t.tp.orphans == s.tp.orphans
  {
    hide WmPolicy.MotionAbs, WmPolicy.Button, Wayland.PointerMotion, Wayland.PointerButton, At;
  }

  lemma QuietHolds(s: Sys, e: Session.Event, fd: int, id: nat)
    requires HoldsFirst(s, fd, id) && (e.MotionAbs? || e.Button? || e.Sync?)
    ensures HoldsFirst(Step(s, e), fd, id)
  {
    hide Step, HoldsFirst, OnSync;
    if e.Sync? { FocusHistory.SyncOwner(s, 0); } else { PointerSends(s, e); }
    SentHolds(s, Step(s, e), fd, id);
  }

  /** A click on the taskbar's content gives it focus and nothing else. */
  lemma BarPressed(d: WmPolicy.Desk)
    requires d.st == Stack(DemoWindows(800, 600) + [Bar()], 3, 5) && Screen800(d.wm)
    requires d.wm.cursorX == 10 && d.wm.cursorY == 30
    ensures WmPolicy.Press(d) == d.(st := d.st.(focus := 4))
  {
    var ws := d.st.ws;
    assert ws[3] == Bar() && At(ws, 10, 30) == 3;
    assert IndexOf(ws, 4) == 3 by { assert ws[0].id == 1 && ws[1].id == 2 && ws[2].id == 3; }
  }

  lemma BarHeld(mode: Modes.Mode, garbage: nat)
    requires mode.hdisplay == 800 && mode.vdisplay == 600
    ensures HoldsFirst(Step(Greeted(Boot(mode, true, garbage), 3), Ask(3, FLOATING_BAR)), 3, 4)
  {
    hide Step, OnCreate, SysOk;
    var b := Boot(mode, true, garbage);
    BootOk(mode, true, garbage);
    RoomFor(b, 3);
    FirstWindow(b, 3, FLOATING_BAR);
    GreetedIs(b, 3);
    var g, k := Greeted(b, 3), ClientByFd(b.tp.clients, -1);
    Requests.CreateSlot(SceneOf(g), k, FLOATING_BAR);
    var u := g.(tp := g.tp.(clients := ClaimSlot(g.tp.clients, k, 0, 1, 4)));
    FoundAt(u.tp.clients, 3, k);
    SentHolds(u, Step(g, Ask(3, FLOATING_BAR)), 3, 4);
  }

  lemma BarParks(s: Sys)
    requires SysOk(s) && HoldsFirst(s, 3, 4) && s.tp.focused == 4
    requires s.st == Stack(DemoWindows(800, 600) + [Bar()], 4, 5)
    ensures LeavesFocused(s, Hangup(3, 0), 0) && Enabled(Step(s, Hangup(3, 0)), Connect(3, true))
  {
    hide SysOk, Step;
    var k := ClientByFd(s.tp.clients, 3);
    assert s.st.ws[0].id == 1 && s.st.ws[1].id == 2 && s.st.ws[2].id == 3 && s.st.ws[3] == Bar();
    assert IndexOf(s.st.ws, 4) == 3;
    assert Ownership.ShellSlot(s.st.ws, s.tp.clients[k].wins[0]);
    Ownership.ParkedIff(s, k);
    DeathParks(s, Hangup(3, 0));
  }

  /** A run after which the focused window belongs to a connected client that was never told. */
  lemma UntoldReachable(mode: Modes.Mode, garbage: nat) returns (s: Sys, t: Sys)
    requires mode.hdisplay == 800 && mode.vdisplay == 600
    ensures Reachable(s) && LeavesFocused(s, Hangup(3, 0), 0) && t == Step(BackAgain(s, Hangup(3, 0), 3), Sync)
    ensures Reachable(t) && t.tp.focused == t.st.focus != 0
    ensures var o := FindOwner(t.tp.clients, t.st.focus); o.Owner? && !Told(t.tp.clients[o.client].sent, t.st.focus)
  {
    hide Step, Reachable, SysOk, WmPolicy.Press, WmPolicy.MotionAbs, HoldsFirst, LeavesFocused, FindOwner, OnSync;
    s := BarReached(mode, garbage);
    Gestures.MotionIs(s, MotionAbs(10, 30));
    AimedAt(DeskOf(s), 10, 30);
    QuietHolds(s, MotionAbs(10, 30), 3, 4);
    ReachableStep(s, MotionAbs(10, 30));
    s := Step(s, MotionAbs(10, 30));
    BarPressed(DeskOf(s));
    Gestures.ButtonDesk(s, WmPolicy.BTN_LEFT, true);
    QuietHolds(s, Button(WmPolicy.BTN_LEFT, true), 3, 4);
    ReachableStep(s, Button(WmPolicy.BTN_LEFT, true));
    s := Step(s, Button(WmPolicy.BTN_LEFT, true));
    FocusHistory.SyncOwner(s, 0);
    FocusReports.SyncReports(s);
    SyncStack(s);
    QuietHolds(s, Sync, 3, 4);
    ReachableStep(s, Sync);
    s := Step(s, Sync);
    ReachableOk(s);
    BarParks(s);
    FocusUntold(s, Hangup(3, 0), 3, 0);
    t := ReturnReachable(s);
  }

  lemma SyncStack(s: Sys)
    ensures OnSync(s).st == s.st
  {
    hide Transport.NotifyFocus, Transport.NotifyGeometry;
  }

  lemma ReturnReachable(s: Sys) returns (t: Sys)
    requires Reachable(s) && LeavesFocused(s, Hangup(3, 0), 0)
    ensures t == Step(BackAgain(s, Hangup(3, 0), 3), Sync) && Reachable(t)
  {
    hide Step, Reachable, Parks;
    var a, e := Step(s, Hangup(3, 0)), Receive(3, HelloWith(Left(s, Hangup(3, 0)).token), [], MapFailed, 0);
    ReachableStep(s, Hangup(3, 0));
    ReachableStep(a, Connect(3, true));
    ReachableStep(Step(a, Connect(3, true)), e);
    ReachableStep(BackAgain(s, Hangup(3, 0), 3), Sync);
    t := Step(BackAgain(s, Hangup(3, 0), 3), Sync);
  }

  // ---- a wid used again ------------------------------------------------------------------------------

  const FIRST_USE: Body := CreateWindow(1, 0, 0, 0, 100, 100)
  const SECOND_USE: Body := CreateWindow(1, 2, 0, 0, 100, 100)

  function GiveUp(fd: int): Session.Event { Receive(fd, Datagram(DESTROY_SIZE, DestroyWindow(1)), [], MapFailed, 0) }

  /** The newcomer makes a NORMAL window under wid 1, destroys it, and makes a taskbar under wid 1. */
  function UsedOnce(s: Sys, fd: int): Sys { Step(Greeted(s, fd), Ask(fd, FIRST_USE)) }

  function GivenUp(s: Sys, fd: int): Sys { Step(UsedOnce(s, fd), GiveUp(fd)) }

  function UsedTwice(s: Sys, fd: int): Sys { Step(GivenUp(s, fd), Ask(fd, SECOND_USE)) }

  lemma GiveUpIs(s: Sys, fd: int)
    requires fd >= 0
    requires var k := ClientByFd(s.tp.clients, fd); k >= 0 && s.tp.clients[k].hello
    ensures Step(s, GiveUp(fd)) == WithScene(s, OnDestroyWindow(SceneOf(s), ClientByFd(s.tp.clients, fd), DestroyWindow(1)))
  {
    hide OnDestroyWindow;
    var r := OnDestroyWindow(SceneOf(s), ClientByFd(s.tp.clients, fd), DestroyWindow(1));
    assert CloseAll(r, []) == r by { assert Closed(r.tp.kern, []) == r.tp.kern; }
  }

  /** Client k, found by fd, is past its handshake and has only slot 0, if any. */
  predicate OnlyFirstSlot(s: Sys, fd: int, k: nat, w: ClWin) {
    && fd >= 0 && k < |s.tp.clients| && ClientByFd(s.tp.clients, fd) == k && s.tp.clients[k].hello
    && |s.tp.clients[k].wins| == WIN_MAX && s.tp.clients[k].wins[0].wid == w.wid && s.tp.clients[k].wins[0].serverId == w.serverId
    && forall j | 1 <= j < WIN_MAX :: s.tp.clients[k].wins[j].wid == 0
  }

  lemma SameFds(cs: seq<Client>, ds: seq<Client>, fd: int)
    requires |ds| == |cs| && forall i | 0 <= i < |cs| :: ds[i].fd == cs[i].fd
    ensures ClientByFd(ds, fd) == ClientByFd(cs, fd)
  {
    assert ClientFrom(cs, fd, 0) == ClientByFd(cs, fd) && ClientFrom(ds, fd, 0) == ClientByFd(ds, fd);
  }

  lemma UsedOnceIs(s: Sys, fd: int)
    requires SysOk(s) && HasRoom(s, fd) && |s.st.ws| < WIN_MAX
    ensures var t, k := UsedOnce(s, fd), ClientByFd(s.tp.clients, -1);
            && SysOk(t) && OnlyFirstSlot(t, fd, k, ClWin(1, s.st.nextId, Null, 0)) && Told(t.tp.clients[k].sent, s.st.nextId)
            && t.tp.focused == s.st.nextId && t.st.nextId == s.st.nextId + 1 && |t.st.ws| == |s.st.ws| + 1
  {
    hide Step, OnCreate, SysOk;
    var g, k := Greeted(s, fd), ClientByFd(s.tp.clients, -1);
    FirstWindow(s, fd, FIRST_USE);
    GreetedIs(s, fd);
    assert SceneProofs.SceneOk(SceneOf(g)) by { Parts(g); }
    Requests.CreateTells(SceneOf(g), k, FIRST_USE);
    Requests.CreateSlot(SceneOf(g), k, FIRST_USE);
    var w := Requests.CreateStack(SceneOf(g), k, FIRST_USE);
    SameFds(g.tp.clients, UsedOnce(s, fd).tp.clients, fd);
  }

  lemma GivenUpIs(s: Sys, fd: int, k: nat, id: nat)
    requires SysOk(s) && OnlyFirstSlot(s, fd, k, ClWin(1, id, Null, 0)) && |s.st.ws| <= WIN_MAX
    ensures var t := Step(s, GiveUp(fd));
            && SysOk(t) && OnlyFirstSlot(t, fd, k, FREE_SLOT) && t.tp.clients[k].sent == s.tp.clients[k].sent
            && t.tp.focused == s.tp.focused && t.st.nextId == s.st.nextId && |t.st.ws| < WIN_MAX
  {
    hide Step, OnDestroyWindow, SysOk;
    StepKeeps(s, GiveUp(fd));
    GiveUpIs(s, fd);
    assert SceneProofs.SceneOk(SceneOf(s)) by { Parts(s); }
    assert WinFind(s.tp.clients[k].wins, 1) == 0;
    Requests.DestroyEffect(SceneOf(s), k, DestroyWindow(1));
    DestroyHeads(SceneOf(s), k);
    SameFds(s.tp.clients, Step(s, GiveUp(fd)).tp.clients, fd);
  }

  lemma DestroyHeads(sc: Scene, ci: nat)
    requires SceneProofs.SceneOk(sc) && ci < |sc.tp.clients| && WinFind(sc.tp.clients[ci].wins, 1) >= 0
    ensures var r := OnDestroyWindow(sc, ci, DestroyWindow(1));
            r.tp.focused == sc.tp.focused && r.st.nextId == sc.st.nextId && |r.st.ws| < |sc.st.ws|
  {
    hide SceneProofs.SceneOk, DropBufSt, Destroy;
    var j := WinFind(sc.tp.clients[ci].wins, 1);
    SceneProofs.HeldWindow(sc, ci, j);
    DropHeads(sc.st, sc.tp.clients[ci].wins[j]);
    GoneHeads(DropBufSt(sc.st, sc.tp.clients[ci].wins[j]), sc.tp.clients[ci].wins[j].serverId);
  }

  lemma DropHeads(st: Stack, w: ClWin)
    requires IndexOf(st.ws, w.serverId) >= 0
    ensures var r := DropBufSt(st, w); r.nextId == st.nextId && |r.ws| == |st.ws| && IndexOf(r.ws, w.serverId) >= 0
  {
    var i, r := IndexOf(st.ws, w.serverId), DropBufSt(st, w);
    assert r.ws[i].id == w.serverId;
  }

  lemma GoneHeads(st: Stack, id: nat)
    requires IndexOf(st.ws, id) >= 0
    ensures Destroy(st, id).nextId == st.nextId && |Destroy(st, id).ws| == |st.ws| - 1
  {
  }

  /** The second window is a taskbar nobody ever focused, but the last thing the client heard about
      wid 1 is that it is focused. */
  lemma WidReused(s: Sys, fd: int)
    requires SysOk(s) && WireNames.NamesOk(s) && HasRoom(s, fd) && |s.st.ws| < WIN_MAX
    ensures var t, k := UsedTwice(s, fd), ClientByFd(s.tp.clients, -1);
            && WireNames.ReusesWid(GivenUp(s, fd), Ask(fd, SECOND_USE))
            && WireNames.ToldBySlot(t.tp.clients, k, 0)
            && t.tp.clients[k].wins[0].serverId != t.tp.focused && t.tp.clients[k].wins[0].serverId != t.st.focus
  {
    hide Step, SysOk, WireNames.NamesOk, WireNames.ReusesWid, OnCreate;
    var a, b, k := UsedOnce(s, fd), GivenUp(s, fd), ClientByFd(s.tp.clients, -1);
    UsedOnceIs(s, fd);
    StackOf(a);
    assert |a.st.ws| <= WIN_MAX;
    UsedNames(s, fd);
    KnowsWid(a, k, s.st.nextId);
    GivenUpIs(a, fd, k, s.st.nextId);
    AgainIs(b, fd, k);
  }

  lemma UsedNames(s: Sys, fd: int)
    requires SysOk(s) && WireNames.NamesOk(s) && HasRoom(s, fd) && |s.st.ws| < WIN_MAX
    ensures WireNames.NamesOk(UsedOnce(s, fd))
  {
    hide Step, SysOk, WireNames.NamesOk, OnCreate;
    var j, g := Joined(s, fd), Greeted(s, fd);
    StepKeeps(s, Connect(fd, true));
    GreetedIs(s, fd);
    WireNames.StepNames(s, Connect(fd, true));
    WireNames.StepNames(j, Receive(fd, HelloWith(0), [], MapFailed, 0));
    NothingHeard(g, fd);
    WireNames.StepNames(g, Ask(fd, FIRST_USE));
  }

  lemma NothingHeard(g: Sys, fd: int)
    requires var k := ClientByFd(g.tp.clients, fd);
             k >= 0 && forall i | 0 <= i < |g.tp.clients[k].sent| :: !g.tp.clients[k].sent[i].FocusEvent?
    ensures !WireNames.ReusesWid(g, Ask(fd, FIRST_USE))
  {
  }

  /** The client heard "focused" about wid 1. */
  lemma KnowsWid(a: Sys, k: nat, id: nat)
    requires WireNames.NamesOk(a) && k < |a.tp.clients| && |a.tp.clients[k].wins| > 0
    requires a.tp.clients[k].wins[0].wid == 1 && a.tp.clients[k].wins[0].serverId == id && Told(a.tp.clients[k].sent, id)
    ensures WireNames.ToldWid(a.tp.clients[k].sent, 1)
  {
    var c := a.tp.clients[k];
    assert WireNames.ClientNames(c, a.st.nextId);
    WireNames.WidIsId(c.sent, |c.sent|, c.wins[0]);
  }

  lemma AgainIs(b: Sys, fd: int, k: nat)
    requires SysOk(b) && OnlyFirstSlot(b, fd, k, FREE_SLOT) && |b.st.ws| < WIN_MAX
    requires WireNames.ToldWid(b.tp.clients[k].sent, 1) && b.tp.focused < b.st.nextId
    ensures var t, e := Step(b, Ask(fd, SECOND_USE)), Ask(fd, SECOND_USE);
            && WireNames.ReusesWid(b, e) && WireNames.ToldBySlot(t.tp.clients, k, 0)
            && t.tp.clients[k].wins[0].serverId == b.st.nextId != t.tp.focused && t.st.focus != b.st.nextId
  {
    hide Step, SysOk, OnCreate;
    var e := Ask(fd, SECOND_USE);
    assert WinFind(b.tp.clients[k].wins, 1) < 0 && WinAlloc(b.tp.clients[k].wins) == 0;
    AskIs(b, fd, SECOND_USE);
    assert SceneProofs.SceneOk(SceneOf(b)) by { Parts(b); }
    FocusKnown(b.st) by { StackOf(b); }
    var w := Requests.CreateStack(SceneOf(b), k, SECOND_USE);
    Requests.CreateSlot(SceneOf(b), k, SECOND_USE);
    var ci, wid, mid, normal := FocusHistory.MakeReports(b, e);
    WireNames.WidQuiet(b.tp.clients[k].sent, Step(b, e).tp.clients[k].sent, |Step(b, e).tp.clients[k].sent|, 1);
    WireNames.WidHeard(b.tp.clients[k].sent, |b.tp.clients[k].sent|, 1);
  }

  lemma WidReusedReachable(mode: Modes.Mode, garbage: nat) returns (t: Sys, k: nat)
    requires mode.hdisplay >= 1 && mode.vdisplay >= 1
    ensures Reachable(t) && WireNames.ToldBySlot(t.tp.clients, k, 0)
    ensures t.tp.clients[k].wins[0].serverId != t.tp.focused && t.tp.clients[k].wins[0].serverId != t.st.focus
  {
    hide Step, Reachable, SysOk, WireNames.NamesOk, WireNames.ToldBySlot;
    var b := Boot(mode, false, garbage);
    BootOk(mode, false, garbage);
    WireNames.BootNames(mode, false, garbage);
    RoomFor(b, 3);
    WidReused(b, 3);
    BootReachable(mode, false, garbage);
    ReachableStep(b, Connect(3, true));
    ReachableStep(Joined(b, 3), Receive(3, HelloWith(0), [], MapFailed, 0));
    ReachableStep(Greeted(b, 3), Ask(3, FIRST_USE));
    ReachableStep(UsedOnce(b, 3), GiveUp(3));
    ReachableStep(GivenUp(b, 3), Ask(3, SECOND_USE));
    t, k := UsedTwice(b, 3), ClientByFd(b.tp.clients, -1);
  }

  // ---- a work area off the screen -------------------------------------------------------------------

  /** A taskbar at the top that covers an 800x600 screen. */
  const HIGH_BAR: Body := CreateWindow(1, 2, 0, 0, 800, 600)

  lemma OneWindow(s: Stack)
    requires s.ws == []
    ensures forall w: Window :: (s.ws + [w])[0] == w && |s.ws + [w]| == 1
  {
  }

  /** A run after which the work area lies below the screen. */
  lemma OffScreenReachable(mode: Modes.Mode, garbage: nat) returns (t: Sys)
    requires mode.hdisplay == 800 && mode.vdisplay == 600
    ensures Reachable(t) && Screen800(t.wm)
    ensures !WmPolicy.InsideScreen(WmPolicy.WorkArea(t.st.ws, 800, 600), 800, 600)
  {
    hide Step, Reachable, SysOk, OnCreate;
    var b := Boot(mode, false, garbage);
    BootOk(mode, false, garbage);
    BootReachable(mode, false, garbage);
    RoomFor(b, 3);
    FirstWindow(b, 3, HIGH_BAR);
    GreetedIs(b, 3);
    var g, k := Greeted(b, 3), ClientByFd(b.tp.clients, -1);
    assert SceneProofs.SceneOk(SceneOf(g)) by { Parts(g); }
    var w := Requests.CreateStack(SceneOf(g), k, HIGH_BAR);
    OneWindow(g.st);
    ReachableStep(b, Connect(3, true));
    ReachableStep(Joined(b, 3), Receive(3, HelloWith(0), [], MapFailed, 0));
    ReachableStep(g, Ask(3, HIGH_BAR));
    t := Step(g, Ask(3, HIGH_BAR));
    assert WmPolicy.FirstTaskbar(t.st.ws) == 0;
  }

  // ---- a rectangle told by accident ------------------------------------------------------------------

  /** The only rectangle a turn can tell: boot found the number of a native window in the mark. */
  lemma GarbageTold(mode: Modes.Mode) returns (s: Sys)
    requires mode.hdisplay == 800 && mode.vdisplay == 600
    ensures Reachable(s) && !Resizes.OnlyFocusSaid(s)
  {
    hide Step, Reachable, SysOk, FindOwner, Resizes.OnlyFocusSaid;
    s := BarReached(mode, 4);
    ReachableOk(s);
    HeldOwner(s);
    Resizes.RectangleTold(s);
  }

  lemma HeldOwner(s: Sys)
    requires SysOk(s) && HoldsFirst(s, 3, 4)
    ensures FindOwner(s.tp.clients, 4).Owner?
  {
    assert SceneProofs.SceneOk(SceneOf(s)) by { Parts(s); }
    Requests.SlotOwner(SceneOf(s), ClientByFd(s.tp.clients, 3), 0);
  }
}
