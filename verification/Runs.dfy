/** Short runs from boot: one step at a time, the first client, and the first surface. */
module Runs {
  import opened Windows
  import opened Transport
  import opened Session
  import opened SessionBoot
  import opened Newcomers
  import Wayland
  import WaylandProofs
  import WmPolicy
  import Modes

  // ---- runs of a few events ------------------------------------------------------------

  lemma RunMore(s: Sys, es: seq<Session.Event>, e: Session.Event)
    ensures Run(s, es + [e]) == Step(Run(s, es), e)
  {
    hide Step;
    RunPrefix(s, es, es + [e], |es|);
  }

  lemma {:induction false} RunPrefix(s: Sys, a: seq<Session.Event>, b: seq<Session.Event>, n: nat)
    requires n <= |a| && n <= |b| && forall i | 0 <= i < n :: a[i] == b[i]
    ensures RunTo(s, a, n) == RunTo(s, b, n)
  {
    hide Step;
    if n > 0 { RunPrefix(s, a, b, n - 1); }
  }

  lemma ReachableStep(s: Sys, e: Session.Event)
    requires Reachable(s)
    ensures Reachable(Step(s, e))
  {
    hide Step, Boot;
    var mode, demo, garbage, es :| IsRun(s, mode, demo, garbage, es);
    RunMore(Boot(mode, demo, garbage), es, e);
    assert IsRun(Step(s, e), mode, demo, garbage, es + [e]);
  }

  lemma BootReachable(mode: Modes.Mode, demo: bool, garbage: nat)
    requires mode.hdisplay >= 1 && mode.vdisplay >= 1
    ensures Reachable(Boot(mode, demo, garbage))
  {
    hide Step, Boot;
    assert IsRun(Boot(mode, demo, garbage), mode, demo, garbage, []);
  }

  /** A run of one surface: it is created first, and none is created or destroyed after. */
  predicate OneSurface(es: seq<Session.Event>) {
    && |es| > 0 && es[0] == Wl(Wayland.CreateSurface)
    && forall i | 1 <= i < |es| :: !(es[i].Wl? && (es[i].request.CreateSurface? || es[i].request.DestroySurface?))
  }

  ghost predicate ByOneSurface(s: Sys) {
    exists mode, garbage, es :: ByOneRun(s, mode, garbage, es)
  }

  ghost predicate ByOneRun(s: Sys, mode: Modes.Mode, garbage: nat, es: seq<Session.Event>) {
    IsRun(s, mode, false, garbage, es) && OneSurface(es)
  }

  lemma OneReachable(s: Sys)
    requires ByOneSurface(s)
    ensures Reachable(s)
  {
    var mode, garbage, es :| ByOneRun(s, mode, garbage, es);
    assert IsRun(s, mode, false, garbage, es);
  }

  lemma FirstSurface(mode: Modes.Mode, garbage: nat)
    requires mode.hdisplay >= 1 && mode.vdisplay >= 1
    ensures ByOneSurface(Step(Boot(mode, false, garbage), Wl(Wayland.CreateSurface)))
  {
    hide Step, Boot;
    var b, e := Boot(mode, false, garbage), Wl(Wayland.CreateSurface);
    RunMore(b, [], e);
    assert [] + [e] == [e] && Run(b, []) == b;
    assert ByOneRun(Step(b, e), mode, garbage, [e]);
  }

  lemma OneStep(s: Sys, e: Session.Event)
    requires ByOneSurface(s) && !(e.Wl? && (e.request.CreateSurface? || e.request.DestroySurface?))
    ensures ByOneSurface(Step(s, e))
  {
    hide Step, Boot;
    var mode, garbage, es :| ByOneRun(s, mode, garbage, es);
    RunMore(Boot(mode, false, garbage), es, e);
    assert ByOneRun(Step(s, e), mode, garbage, es + [e]);
  }

  /** From boot until the first client connects there is room for it. */
  lemma RoomFor(s: Sys, fd: int)
    requires fd >= 0 && |s.tp.clients| > 0 && forall i | 0 <= i < |s.tp.clients| :: s.tp.clients[i].fd == -1
    ensures HasRoom(s, fd)
  {
  }

  // ---- a surface that has the pointer ------------------------------------------------------------

  /** 100 by 100 pixels. */
  function Blank(): (b: Wayland.Buffer)
    ensures b.Shm? && b.w == 100 && b.h == 100
  {
    Wayland.Shm(100, 100, 400, seq(40000, _ => 0))
  }

  /** A surface that is ready to be mapped by its next commit. */
  function Ready(): Wayland.Surface {
    Wayland.Surface(true, true, true, true, Wayland.Attached(Blank()), Null, [], 0, 0, 0)
  }

  /** The same surface once it shows its buffer in window id. */
  function MappedAs(id: nat, block: nat): Wayland.Surface {
    Wayland.Surface(true, true, true, false, Wayland.NoBuffer, Heap(block), Wayland.Packed(Blank()), 100, 100, id)
  }

  function WindowAs(id: nat, x: int, y: int, block: nat): Window {
    Wayland.Showing(NewWindow(id, Normal, x, y, 100, 128, 0x00202020), MappedAs(id, block))
  }

  function Mapped1(): Wayland.Surface { MappedAs(1, 0) }

  function Window1(): Window { WindowAs(1, 120, 90, 0) }

  /** On an empty stack the commit makes its window the only one, focused. */
  lemma CommitMaps(f: Wayland.Front)
    requires f.st == Stack([], 0, f.st.nextId) && f.st.nextId > 0 && f.fe.surfaces == [Ready()]
    ensures var id, n := f.st.nextId, f.fe.cascade;
            Wayland.Commit(f, 0, true) ==
            Wayland.Front(Stack([WindowAs(id, Wayland.Cascade(120, n), Wayland.Cascade(90, n), f.fe.heap)], id, id + 1),
                          f.fe.(surfaces := [MappedAs(id, f.fe.heap)], cascade := n + 1, heap := f.fe.heap + 1))
  {
    hide Wayland.Packed, Wayland.MapAt, Wayland.Cascade;
    var c := f.(fe := f.fe.(surfaces := [MappedAs(0, f.fe.heap)], heap := f.fe.heap + 1));
    assert Wayland.Commit(f, 0, true) == Wayland.MapOrUpdate(c, 0) by { CopiesBlank(f); }
    MapsAlone(c, Wayland.Cascade(120, c.fe.cascade), Wayland.Cascade(90, c.fe.cascade), f.fe.heap);
  }

  lemma CopiesBlank(f: Wayland.Front)
    requires f.fe.surfaces == [Ready()]
    ensures Wayland.Commit(f, 0, true) ==
            Wayland.MapOrUpdate(f.(fe := f.fe.(surfaces := [MappedAs(0, f.fe.heap)], heap := f.fe.heap + 1)), 0)
  {
    hide Wayland.Packed, Wayland.MapOrUpdate;
    var taken := f.(fe := Wayland.SetSurface(f.fe, 0, Ready().(attached := false, pending := Wayland.NoBuffer)));
    assert Wayland.CopyShm(taken.fe, 0, Blank(), true).surfaces == [MappedAs(0, f.fe.heap)];
  }

  lemma MapsAlone(f: Wayland.Front, x: int, y: int, block: nat)
    requires f.st == Stack([], 0, f.st.nextId) && f.st.nextId > 0 && f.fe.surfaces == [MappedAs(0, block)]
    ensures var id := f.st.nextId;
            Wayland.MapAt(f, 0, x, y) ==
            Wayland.Front(Stack([WindowAs(id, x, y, block)], id, id + 1),
                          f.fe.(surfaces := [MappedAs(id, block)], cascade := f.fe.cascade + 1))
  {
    hide Wayland.Packed, Wayland.MapAt;
    var id := f.st.nextId;
    WaylandProofs.MapAtIs(f, 0, x, y);
    assert IndexOf([WindowAs(id, x, y, block)], id) == 0;
    assert WaylandProofs.NewlyShown(f, 0, x, y) == WindowAs(id, x, y, block);
  }

  /** The requests of a client that maps its first surface. */
  function MapRequests(): seq<Wayland.Request> {
    [Wayland.CreateSurface, Wayland.GetXdgSurface(0), Wayland.GetToplevel(0), Wayland.CommitSurface(0, true),
     Wayland.Attach(0, Wayland.Attached(Blank())), Wayland.CommitSurface(0, true)]
  }

  lemma PreparedIs(mode: Modes.Mode, garbage: nat) returns (t: Sys)
    requires mode.hdisplay >= 1 && mode.vdisplay >= 1
    ensures ByOneSurface(t) && t == Boot(mode, false, garbage).(fe := PreparedFront(5))
  {
    hide ByOneSurface;
    var s, rs := Boot(mode, false, garbage), MapRequests();
    FirstSurface(mode, garbage);
    t := Step(s, Wl(rs[0]));
    assert t.fe.surfaces == [Wayland.NEW_SURFACE];
    for i := 1 to 5
      invariant ByOneSurface(t) && t == s.(fe := PreparedFront(i))
    {
      OneStep(t, Wl(rs[i]));
      t := Step(t, Wl(rs[i]));
    }
  }

  /** The surface after the first i + 1 requests. */
  function Prepared(i: nat): Wayland.Surface {
    Wayland.Surface(i > 1, i > 2, i > 3, i > 4, if i > 4 then Wayland.Attached(Blank()) else Wayland.NoBuffer,
                    Null, [], 0, 0, 0)
  }

  const FIRST_CONFIGURE: seq<Wayland.Sent> := [Wayland.Configured(0, 0)]

  function PreparedFront(i: nat): Wayland.Frontend {
    Wayland.NEW_FRONTEND.(surfaces := [Prepared(i)], sent := if i > 3 then FIRST_CONFIGURE else [])
  }

  function MappedFront(): Wayland.Frontend { Wayland.Frontend([Mapped1()], 1, 1, 0, 0, FIRST_CONFIGURE) }

  lemma MappedIs(s: Sys)
    requires s.st == EmptyStack && s.fe == PreparedFront(5)
    ensures Step(s, Wl(Wayland.CommitSurface(0, true))) ==
            s.(st := Stack([Window1()], 1, 2), fe := MappedFront())
  {
    hide Wayland.Commit;
    CommitMaps(FrontOf(s));
  }

  /** The pointer moves over the content. */
  lemma EntersIs(s: Sys)
    requires s.st == Stack([Window1()], 1, 2) && s.fe == MappedFront()
    requires s.wm.screenW >= 200 && s.wm.screenH >= 200 && !s.wm.moving
    ensures var t := Step(s, MotionAbs(150, 150));
            && t.st == s.st && t.wm == s.wm.(cursorX := 150, cursorY := 150) && Wayland.ButtonTarget(t.fe) >= 0
            && t.fe.surfaces == s.fe.surfaces && t.fe.cascade == 1 && t.fe.heap == 1
            && t.fe.pointerFocus == 1 && t.fe.kbdFocus == 0
            && t.fe.sent == FIRST_CONFIGURE + [Wayland.PtrEnter(1, 30, 32), Wayland.PtrMotion(1, 30, 32)]
  {
    assert At(s.st.ws, 150, 150) == 0;
    assert Wayland.SurfaceOf([Mapped1()], 1) == 0;
  }

  lemma EntersTp(s: Sys)
    requires forall i | 0 <= i < |s.tp.clients| :: s.tp.clients[i] == FreeClient()
    ensures Step(s, MotionAbs(150, 150)).tp == s.tp
  {
    hide WmPolicy.MotionAbs, Wayland.PointerMotion;
  }

  /** The frontend with the pointer and the keyboard in window 1. */
  function EnteredFront(): Wayland.Frontend {
    Wayland.Frontend([Mapped1()], 1, 1, 1, 1, EnteredOnce())
  }

  function EnteredOnce(): seq<Wayland.Sent> {
    FIRST_CONFIGURE + [Wayland.PtrEnter(1, 30, 32), Wayland.PtrMotion(1, 30, 32), Wayland.KbdEnter(1)]
  }

  predicate NoClients(s: Sys) { forall i | 0 <= i < |s.tp.clients| :: s.tp.clients[i] == FreeClient() }

  /** The end of a turn tells nobody anything when there are no clients. */
  lemma SyncAlone(s: Sys)
    requires NoClients(s)
    ensures Step(s, Sync).st == s.st && Step(s, Sync).fe == Wayland.KeyboardFocus(s.fe, s.st.focus)
    ensures Step(s, Sync).wm == s.wm.(reconfigured := 0) && Step(s, Sync).tp == s.tp.(focused := s.st.focus)
  {
    hide Wayland.KeyboardFocus;
    forall id ensures FindOwner(s.tp.clients, id).NoOwner? {
    }
  }

  /** The turn ends: the surface has the keyboard too. */
  lemma TurnEnds(fe: Wayland.Frontend)
    requires fe == EnteredFront().(
      kbdFocus := 0, sent := FIRST_CONFIGURE + [Wayland.PtrEnter(1, 30, 32), Wayland.PtrMotion(1, 30, 32)])
    ensures Wayland.KeyboardFocus(fe, 1) == EnteredFront()
  {
    assert Wayland.SurfaceOf([Mapped1()], 1) == 0;
    assert Wayland.KeyboardFocus(fe, 1).sent == EnteredOnce();
  }

  /** A run from boot after which a surface's window is focused, alone, and has the pointer and the
      keyboard; no native client ever came. */
  lemma SurfaceReached(mode: Modes.Mode, garbage: nat) returns (s: Sys)
    requires mode.hdisplay >= 200 && mode.vdisplay >= 200
    ensures ByOneSurface(s) && NoClients(s) && |s.tp.clients| == MAX_CLIENTS && s.tp.focused == 1
    ensures s.st == Stack([Window1()], 1, 2) && s.fe == EnteredFront()
    ensures s.wm == WmPolicy.InitWm(mode.hdisplay, mode.vdisplay, 0).(cursorX := 150, cursorY := 150)
  {
    hide Step, ByOneSurface, Wayland.KeyboardFocus;
    s := PreparedIs(mode, garbage);
    OneStep(s, Wl(Wayland.CommitSurface(0, true)));
    MappedIs(s);
    s := Step(s, Wl(Wayland.CommitSurface(0, true)));
    EntersIs(s);
    EntersTp(s);
    OneStep(s, MotionAbs(150, 150));
    s := Step(s, MotionAbs(150, 150));
    SyncAlone(s);
    TurnEnds(s.fe);
    OneStep(s, Sync);
    s := Step(s, Sync);
  }
}
