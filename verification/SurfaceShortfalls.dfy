/** What surfaces are not told, each by a run from boot with one surface. */
module SurfaceShortfalls {
  import opened Windows
  import opened WmProofs
  import opened Session
  import opened SessionBoot
  import opened Runs
  import Contents
  import Entries
  import Gestures
  import Resizes
  import Wayland
  import WmPolicy
  import Modes

  // ---- a size that nobody is told ---------------------------------------------------------------

  /** The surface's window at some height on the screen, as before the snap, */
  function Lifted(y: int): Window { Window1().(y := y) }

  /** and after it. */
  function Full(w: int, h: int): Window { WmPolicy.Snapped(Lifted(-5), WmPolicy.Rect(0, 0, w, h)) }

  predicate Hand(wm: WmPolicy.Wm, x: int, y: int, moving: bool) {
    && wm.screenW >= 200 && wm.screenH >= 200 && wm.cursorX == x && wm.cursorY == y && wm.moving == moving
    && (moving ==> wm.moveId == 1 && wm.grabDx == 30 && wm.grabDy == 10)
  }

  lemma AimIs(d: WmPolicy.Desk)
    requires d.st == Stack([Lifted(90)], 1, 2) && Hand(d.wm, 150, 150, false)
    ensures WmPolicy.MotionAbs(d, 150, 100) == d.(wm := d.wm.(cursorY := 100))
  {
  }

  lemma TakeIs(d: WmPolicy.Desk)
    requires d.st == Stack([Lifted(90)], 1, 2) && Hand(d.wm, 150, 100, false)
    ensures WmPolicy.Press(d) == d.(wm := d.wm.(moving := true, moveId := 1, grabDx := 30, grabDy := 10))
  {
    assert Windows.At(d.st.ws, 150, 100) == 0 && IndexOf(d.st.ws, 1) == 0;
    assert d.st.ws[0 := Lifted(90)] == d.st.ws;
  }

  lemma LiftIs(d: WmPolicy.Desk)
    requires d.st == Stack([Lifted(90)], 1, 2) && Hand(d.wm, 150, 100, true)
    ensures WmPolicy.MotionAbs(d, 150, 5) == WmPolicy.Desk(Stack([Lifted(-5)], 1, 2), d.wm.(cursorY := 5))
  {
    assert IndexOf(d.st.ws, 1) == 0 && d.st.ws[0 := Lifted(-5)] == [Lifted(-5)];
  }

  lemma DropIs(d: WmPolicy.Desk)
    requires d.st == Stack([Lifted(-5)], 1, 2) && Hand(d.wm, 150, 5, true)
    ensures Snaps(d)
    ensures WmPolicy.Release(d) == WmPolicy.Desk(Stack([Full(d.wm.screenW, d.wm.screenH)], 1, 2),
                                                 d.wm.(moving := false, moveId := 0, reconfigured := 1))
  {
    var ws := d.st.ws;
    assert IndexOf(ws, 1) == 0 && WmPolicy.FirstTaskbar(ws) == -1;
    assert ws[0].id in View(ws) && View(ws)[1] == Lifted(-5);
    assert ws[0 := Full(d.wm.screenW, d.wm.screenH)] == [Full(d.wm.screenW, d.wm.screenH)];
  }

  /** A motion, or a button, and nobody but the surface may hear of it. */
  lemma AloneIs(s: Sys, e: Event)
    requires NoClients(s) && (e.MotionAbs? || e.Button?)
    ensures Step(s, e).tp == s.tp
  {
    hide WmPolicy.MotionAbs, WmPolicy.Button, Wayland.PointerMotion, Wayland.PointerButton;
  }

  /** The pointer leaves the content for the title bar. */
  lemma LeavesIs(fe: Wayland.Frontend)
    requires fe == EnteredFront()
    ensures Wayland.PointerMotion([Lifted(90)], fe, 150, 100) ==
            fe.(pointerFocus := 0, sent := EnteredOnce() + [Wayland.PtrLeave(1)])
  {
    assert Windows.At([Lifted(90)], 150, 100) == 0;
    assert Wayland.SurfaceOf([Mapped1()], 1) == 0;
    assert Wayland.PointerMotion([Lifted(90)], fe, 150, 100).sent == EnteredOnce() + [Wayland.PtrLeave(1)];
  }

  lemma OutsideIs(fe: Wayland.Frontend, w: Window)
    requires fe.pointerFocus == 0 && fe.surfaces == [Mapped1()] && w.id == 1 && w.y + TITLEBAR_H > 5
    ensures Wayland.PointerMotion([w], fe, 150, 5) == fe
  {
    assert Wayland.MotionEvents(fe, 0, Wayland.LocalX([w], 150, 5), Wayland.LocalY([w], 150, 5)) == [];
  }

  lemma KeepsKeyboard(fe: Wayland.Frontend)
    requires fe.kbdFocus == 1 && fe.surfaces == [Mapped1()]
    ensures Wayland.KeyboardFocus(fe, 1) == fe
  {
    assert Wayland.SurfaceOf([Mapped1()], 1) == 0;
  }

  /** A run in which the user drags a surface's window to the top edge and lets go. The window manager
      makes the window as large as the screen; when the turn ends neither the surface nor any
      connection has heard of it. */
  lemma SnapUntold(mode: Modes.Mode, garbage: nat) returns (r: Sys, t: Sys)
    requires mode.hdisplay >= 200 && mode.vdisplay >= 200
    ensures Reachable(r) && r.st.ws == [Lifted(-5)] && r.fe.surfaces == [Mapped1()] && Mapped1().serverId == Lifted(-5).id
    ensures Resizes.Marks(r, Button(WmPolicy.BTN_LEFT, false)) && t == Step(Step(r, Button(WmPolicy.BTN_LEFT, false)), Sync)
    ensures t.st.ws == [Full(mode.hdisplay, mode.vdisplay)] && Full(mode.hdisplay, mode.vdisplay).w == mode.hdisplay
    ensures t.fe == r.fe && t.tp == r.tp
  {
    hide Step, ByOneSurface, WmPolicy.MotionAbs, WmPolicy.Press, WmPolicy.Release, Snaps,
         Wayland.PointerMotion, Wayland.KeyboardFocus;
    r := SurfaceReached(mode, garbage);
    assert Window1() == Lifted(90);
    AimIs(DeskOf(r));
    r := MovedTo(r, 150, 100);
    LeavesIs(EnteredFront());
    TakeIs(DeskOf(r));
    r := PressedAt(r, true);
    LiftIs(DeskOf(r));
    OutsideIs(r.fe, Lifted(-5));
    r := MovedTo(r, 150, 5);
    DropIs(DeskOf(r));
    OneReachable(r);
    var u := PressedAt(r, false);
    SyncAlone(u);
    KeepsKeyboard(u.fe);
    t := Step(u, Sync);
  }

  lemma MovedTo(s: Sys, x: int, y: int) returns (t: Sys)
    requires ByOneSurface(s) && NoClients(s)
    ensures t == Step(s, MotionAbs(x, y)) && ByOneSurface(t) && NoClients(t) && t.tp == s.tp
    ensures DeskOf(t) == WmPolicy.MotionAbs(DeskOf(s), x, y)
    ensures t.fe == Wayland.PointerMotion(t.st.ws, s.fe, t.wm.cursorX, t.wm.cursorY)
  {
    hide Step, ByOneSurface;
    t := Step(s, MotionAbs(x, y));
    OneStep(s, MotionAbs(x, y));
    AloneIs(s, MotionAbs(x, y));
    Gestures.MotionIs(s, MotionAbs(x, y));
    Entries.MotionTells(s, MotionAbs(x, y));
  }

  lemma PressedAt(s: Sys, down: bool) returns (t: Sys)
    requires ByOneSurface(s) && NoClients(s) && s.fe.pointerFocus == 0
    ensures t == Step(s, Button(WmPolicy.BTN_LEFT, down)) && ByOneSurface(t) && NoClients(t) && t.tp == s.tp && t.fe == s.fe
    ensures DeskOf(t) == if down then WmPolicy.Press(DeskOf(s)) else WmPolicy.Release(DeskOf(s))
  {
    hide Step, ByOneSurface;
    t := Step(s, Button(WmPolicy.BTN_LEFT, down));
    OneStep(s, Button(WmPolicy.BTN_LEFT, down));
    AloneIs(s, Button(WmPolicy.BTN_LEFT, down));
    Gestures.ButtonDesk(s, WmPolicy.BTN_LEFT, down);
    NotPointed(s, down);
  }

  lemma NotPointed(s: Sys, down: bool)
    requires s.fe.pointerFocus == 0
    ensures Step(s, Button(WmPolicy.BTN_LEFT, down)).fe == s.fe
  {
    hide WmPolicy.Button;
  }

  // ---- entered twice ----------------------------------------------------------------------------

  function Unmapped(): Wayland.Surface { Wayland.Surface(true, true, true, false, Wayland.NoBuffer, Null, [], 0, 0, 0) }

  /** The surface gives its content back, and its window goes; */
  lemma UnmapIs(f: Wayland.Front)
    requires f.st == Stack([Window1()], 1, 2) && f.fe.surfaces == [Mapped1().(attached := true)]
    ensures Wayland.Commit(f, 0, true) == Wayland.Front(Stack([], 0, 2), f.fe.(surfaces := [Unmapped()]))
  {
    hide Wayland.Packed;
    assert IndexOf([Window1()], 1) == 0;
    assert RemoveAt([Window1()], 0) == [];
  }

  /** then it attaches a buffer again and has another window. */
  lemma RemapIs(s: Sys) returns (t: Sys)
    requires ByOneSurface(s) && NoClients(s) && s.st == Stack([Window1()], 1, 2) && s.fe == EnteredFront()
    ensures ByOneSurface(t) && NoClients(t) && t.wm == s.wm
    ensures t.st == Stack([WindowAs(2, 160, 130, 1)], 2, 3)
    ensures t.fe == s.fe.(surfaces := [MappedAs(2, 1)], cascade := 2, heap := 2)
  {
    hide Step, ByOneSurface, Wayland.Commit, Wayland.Packed;
    t := Requested(s, Wayland.Attach(0, Wayland.NoBuffer));
    UnmapIs(FrontOf(t));
    t := Requested(t, Wayland.CommitSurface(0, true));
    t := Requested(t, Wayland.Attach(0, Wayland.Attached(Blank())));
    CommitMaps(FrontOf(t));
    t := Requested(t, Wayland.CommitSurface(0, true));
  }

  lemma Requested(s: Sys, r: Wayland.Request) returns (t: Sys)
    requires ByOneSurface(s) && NoClients(s) && Wayland.Names(s.fe, r) && !r.CreateSurface? && !r.DestroySurface?
    ensures ByOneSurface(t) && NoClients(t) && t == WithFront(s, Wayland.Serve(FrontOf(s), r))
  {
    hide Step, ByOneSurface, Wayland.Serve;
    t := Step(s, Wl(r));
    OneStep(s, Wl(r));
    Contents.WlIs(s, r);
  }

  lemma EntersAgain(fe: Wayland.Frontend)
    requires fe.surfaces == [MappedAs(2, 1)] && fe.pointerFocus == 1
    ensures Wayland.PointerMotion([WindowAs(2, 160, 130, 1)], fe, 170, 170) ==
            fe.(pointerFocus := 2, sent := fe.sent + [Wayland.PtrEnter(2, 10, 12), Wayland.PtrMotion(2, 10, 12)])
  {
    hide Wayland.Packed;
    assert Windows.At([WindowAs(2, 160, 130, 1)], 170, 170) == 0;
    assert Wayland.SurfaceOf([MappedAs(2, 1)], 2) == 0 && Wayland.SurfaceOf([MappedAs(2, 1)], 1) == -1;
  }

  lemma KeyedAgain(fe: Wayland.Frontend)
    requires fe.surfaces == [MappedAs(2, 1)] && fe.kbdFocus == 1
    ensures Wayland.KeyboardFocus(fe, 2) == fe.(kbdFocus := 2, sent := fe.sent + [Wayland.KbdEnter(2)])
  {
    hide Wayland.Packed;
    assert Wayland.SurfaceOf([MappedAs(2, 1)], 2) == 0 && Wayland.SurfaceOf([MappedAs(2, 1)], 1) == -1;
    assert fe.sent + [] == fe.sent;
  }

  lemma PointAt(d: WmPolicy.Desk)
    requires Hand(d.wm, 150, 150, false)
    ensures WmPolicy.MotionAbs(d, 170, 170) == d.(wm := d.wm.(cursorX := 170, cursorY := 170))
  {
  }

  /** A run with one surface that has the pointer and the keyboard, gives up its content and gets new
      content: it is told to enter a second time, for both, and was never told to leave. */
  lemma EnteredTwice(mode: Modes.Mode, garbage: nat) returns (t: Sys)
    requires mode.hdisplay >= 200 && mode.vdisplay >= 200
    ensures ByOneSurface(t)
    ensures t.fe.sent == [Wayland.Configured(0, 0),
                          Wayland.PtrEnter(1, 30, 32), Wayland.PtrMotion(1, 30, 32), Wayland.KbdEnter(1),
                          Wayland.PtrEnter(2, 10, 12), Wayland.PtrMotion(2, 10, 12), Wayland.KbdEnter(2)]
  {
    hide Step, ByOneSurface, WmPolicy.MotionAbs, Wayland.PointerMotion, Wayland.KeyboardFocus, Wayland.Packed;
    var s := SurfaceReached(mode, garbage);
    t := RemapIs(s);
    PointAt(DeskOf(t));
    t := MovedTo(t, 170, 170);
    EntersAgain(s.fe.(surfaces := [MappedAs(2, 1)], cascade := 2, heap := 2));
    SyncAlone(t);
    KeyedAgain(t.fe);
    OneStep(t, Sync);
    t := Step(t, Sync);
  }
}
