/** Drags and snaps as they play out on a running server, with clients, Wayland requests and
    resolution changes between the events of the mouse. */
module Gestures {
  import opened Windows
  import opened WmPolicy
  import opened WmProofs
  import opened StackSteps
  import opened Session
  import opened SessionProofs
  import ZOrder
  import SceneProofs
  import WaylandProofs
  import Wayland
  import Transport
  import Modes

  predicate Moves(e: Event) { e.Motion? || e.MotionAbs? }

  predicate LeftButton(e: Event) { e.Button? && e.button == BTN_LEFT }

  // ---- what all the other events leave alone ---------------------------------------

  /** The drag state of the window manager. */
  ghost predicate SameHand(a: Wm, b: Wm) {
    b.moving == a.moving && b.moveId == a.moveId && b.grabDx == a.grabDx && b.grabDy == a.grabDy
  }

  lemma FitEvolves(s: Stack, w: int, h: int)
    requires Ok(s) && ZOrder.Ordered(s)
    ensures Evolves(s, FitFrom(s, w, h, 0))
  {
    FitView(s, w, h);
  }

  lemma ReceiveEvolves(s: Sys, fd: int, d: Transport.Datagram, fds: seq<int>, mem: Transport.Mmap, now: int)
    requires SysOk(s) && fd >= 0
    ensures Evolves(s.st, OnReceive(s, fd, d, fds, mem, now).st) && OnReceive(s, fd, d, fds, mem, now).wm == s.wm
  {
    Parts(s);
    SceneProofs.Stays(s.st);
    var ci := Transport.ClientByFd(s.tp.clients, fd);
    if ci >= 0 { SceneProofs.ReceiveKeeps(SceneOf(s), ci, d, fds, mem, now); }
  }

  lemma HangupEvolves(s: Sys, fd: int, now: int)
    requires SysOk(s)
    ensures Evolves(s.st, OnHangup(s, fd, now).st) && OnHangup(s, fd, now).wm == s.wm
  {
    Parts(s);
    SceneProofs.Stays(s.st);
    var ci := Transport.ClientByFd(s.tp.clients, fd);
    if ci >= 0 { SceneProofs.DropKeepsAll(SceneOf(s), ci, now); }
  }

  lemma TickEvolves(s: Sys, now: int)
    requires SysOk(s)
    ensures Evolves(s.st, Transport.Expire(SceneOf(s), now).st)
  {
    Parts(s);
    SceneProofs.ExpireKeeps(SceneOf(s), now, 0);
  }

  lemma WlEvolves(s: Sys, r: Wayland.Request)
    requires SysOk(s) && Wayland.Names(s.fe, r)
    ensures Evolves(s.st, Wayland.Serve(FrontOf(s), r).st)
  {
    Parts(s);
    WaylandProofs.ServeKeeps(FrontOf(s), r, s.tp, s.wm.screenW, s.wm.screenH);
  }

  lemma ModeEvolves(s: Sys, modes: seq<Modes.Mode>, w: int, h: int, refresh: Modes.U32, blobOk: bool, fbOk: bool)
    requires SysOk(s)
    ensures var t := ApplyMode(s, modes, w, h, refresh, blobOk, fbOk); Evolves(s.st, t.st) && SameHand(s.wm, t.wm)
  {
    SceneProofs.Stays(s.st);
    var best := Modes.Select(modes, w, h, refresh);
    if best >= 0 && blobOk && fbOk { FitEvolves(s.st, modes[best].hdisplay, modes[best].vdisplay); }
  }

  lemma KeyEvolves(s: Sys, keycode: nat, keysym: nat, pressed: bool, alt: bool)
    requires SysOk(s)
    ensures var t := OnKey(s, keycode, keysym, pressed, alt); Evolves(s.st, t.st) && t.wm == s.wm
  {
    hide FocusCycle, Transport.RouteKey;
    SceneProofs.Stays(s.st);
    FocusCycleOk(s.st, 1);
    assert FocusCycle(s.st, 1).nextId == s.st.nextId by { CycleKeepsNext(s.st); }
  }

  lemma CycleKeepsNext(s: Stack)
    ensures FocusCycle(s, 1).nextId == s.nextId
  {
  }

  lemma SyncStays(s: Sys)
    ensures OnSync(s).st == s.st && SameHand(s.wm, OnSync(s).wm)
  {
    hide Transport.NotifyFocus, Transport.NotifyGeometry;
  }

  /** Only motions and the left button touch the drag state, or move or snap a window that has a
      server title bar. */
  lemma QuietStep(s: Sys, e: Event)
    requires SysOk(s) && !Moves(e) && !LeftButton(e)
    ensures Evolves(s.st, Step(s, e).st) && SameHand(s.wm, Step(s, e).wm)
  {
    hide OnReceive, OnHangup, ApplyMode, Wayland.Serve, Transport.ExpireFrom, OnKey, OnSync, AfterMotion, Transport.AddClient,
         Transport.RoutePointer, Wayland.PointerButton;
    SceneProofs.Stays(s.st);
    if Enabled(s, e) {
      match e
      case Button(b, pressed) =>
      case Key(keycode, keysym, pressed, alt) => KeyEvolves(s, keycode, keysym, pressed, alt);
      case Connect(fd, watched) =>
      case Receive(fd, d, fds, mem, now) => ReceiveEvolves(s, fd, d, fds, mem, now);
      case Hangup(fd, now) => HangupEvolves(s, fd, now);
      case Tick(now) => TickEvolves(s, now);
      case SetMode(modes, w, h, refresh, blobOk, fbOk) => ModeEvolves(s, modes, w, h, refresh, blobOk, fbOk);
      case Sync => SyncStays(s);
      case Wl(r) => WlEvolves(s, r);
    }
  }

  // ---- drags ---------------------------------------------------------------------------

  /** Ids are not reused, and every window with a server title bar that is still there has the
      same position, except perhaps the one being dragged. */
  ghost predicate OthersStay(a: Sys, b: Sys) {
    && a.st.nextId <= b.st.nextId
    && forall id | id in View(b.st.ws) && id < a.st.nextId ::
         && id in View(a.st.ws)
         && (HasSsd(View(a.st.ws)[id]) ==> HasSsd(View(b.st.ws)[id]))
         && (HasSsd(View(a.st.ws)[id]) && !(a.wm.moving && a.wm.moveId == id) ==>
               View(b.st.ws)[id].x == View(a.st.ws)[id].x && View(b.st.ws)[id].y == View(a.st.ws)[id].y)
  }

  predicate CursorKept(a: Wm, b: Wm) { b.cursorX == a.cursorX && b.cursorY == a.cursorY }

  lemma OthersStayTwice(a: Sys, b: Sys, c: Sys)
    requires OthersStay(a, b) && OthersStay(b, c) && SameHand(a.wm, b.wm)
    ensures OthersStay(a, c)
  {
  }

  function TargetX(s: Sys, e: Event): int
    requires Moves(e)
  {
    if e.Motion? then s.wm.cursorX + e.dx else e.ax
  }

  function TargetY(s: Sys, e: Event): int
    requires Moves(e)
  {
    if e.Motion? then s.wm.cursorY + e.dy else e.ay
  }

  lemma MotionIs(s: Sys, e: Event)
    requires Moves(e)
    ensures DeskOf(Step(s, e)) == WmPolicy.MotionAbs(DeskOf(s), TargetX(s, e), TargetY(s, e))
  {
  }

  lemma ButtonDesk(s: Sys, button: nat, pressed: bool)
    ensures DeskOf(Step(s, Button(button, pressed))) == WmPolicy.Button(DeskOf(s), button, pressed)
  {
    hide WmPolicy.Button, Transport.RoutePointer, Wayland.PointerButton;
  }

  lemma MotionDragStep(s: Sys, e: Event)
    requires SysOk(s) && Moves(e)
    ensures var t := Step(s, e); SameHand(s.wm, t.wm) && OthersStay(s, t) && InHand(DeskOf(t))
  {
    hide Step;
    MotionIs(s, e);
    MotionEffect(DeskOf(s), TargetX(s, e), TargetY(s, e));
    ViewIds(s.st);
  }

  /** In hand means in hand, as long as neither the window nor the cursor is moved. */
  lemma StaysInHand(a: Sys, b: Sys)
    requires SysOk(a) && InHand(DeskOf(a)) && Evolves(a.st, b.st) && SameHand(a.wm, b.wm) && CursorKept(a.wm, b.wm)
    ensures InHand(DeskOf(b))
  {
  }

  lemma QuietDragStep(s: Sys, e: Event)
    requires SysOk(s) && !Moves(e) && !LeftButton(e)
    ensures var t := Step(s, e);
            && SameHand(s.wm, t.wm) && OthersStay(s, t)
            && (InHand(DeskOf(s)) && CursorKept(s.wm, t.wm) ==> InHand(DeskOf(t)))
  {
    hide Act;
    QuietStep(s, e);
    if InHand(DeskOf(s)) && CursorKept(s.wm, Step(s, e).wm) { StaysInHand(s, Step(s, e)); }
  }

  /** The cursor has not moved by itself since the last motion: only a resolution change can
      do that, when the new screen leaves it outside. */
  predicate Settled(s: Sys, es: seq<Event>, n: nat)
    requires n <= |es|
  {
    n == 0 || Moves(es[n - 1]) || (Settled(s, es, n - 1) && CursorKept(RunTo(s, es, n - 1).wm, RunTo(s, es, n).wm))
  }

  predicate NoLeftButton(es: seq<Event>) { forall i | 0 <= i < |es| :: !LeftButton(es[i]) }

  lemma {:induction false} DragRun(s: Sys, es: seq<Event>, n: nat)
    requires SysOk(s) && InHand(DeskOf(s)) && NoLeftButton(es) && n <= |es|
    ensures var t := RunTo(s, es, n);
            && SysOk(t) && SameHand(s.wm, t.wm) && OthersStay(s, t)
            && (Settled(s, es, n) ==> InHand(DeskOf(t)))
  {
    hide Step;
    if n == 0 {
      ViewIds(s.st);
    } else {
      var u := RunTo(s, es, n - 1);
      DragRun(s, es, n - 1);
      StepKeeps(u, es[n - 1]);
      if Moves(es[n - 1]) { MotionDragStep(u, es[n - 1]); } else { QuietDragStep(u, es[n - 1]); }
      OthersStayTwice(s, u, RunTo(s, es, n));
    }
  }

  /** A left press on a server title bar. */
  predicate PressGrabs(s: Sys) {
    var hit := At(s.st.ws, s.wm.cursorX, s.wm.cursorY);
    hit >= 0 && Grabs(s.st.ws[hit], s.wm.cursorY)
  }

  lemma PressHolds(s: Sys)
    requires SysOk(s) && PressGrabs(s)
    ensures var t := Step(s, Button(BTN_LEFT, true));
            t.wm.moving && t.wm.moveId == s.st.ws[At(s.st.ws, s.wm.cursorX, s.wm.cursorY)].id && InHand(DeskOf(t))
  {
    WmPolicy.PressEffect(DeskOf(s));
  }

  /** Drag fidelity: from a press on a title bar until the button is used again, whatever motions
      are made and whatever else happens, the grab offset is constant and the window's net
      displacement is the cursor's (the motions are clamped to the screen, so that is how far the
      cursor got); a resolution change may move the cursor off the grabbed point, but only until
      the next motion. No other title-bar window moves, even if the dragged one is gone. */
  lemma DragFidelity(s: Sys, es: seq<Event>)
    requires SysOk(s) && PressGrabs(s) && NoLeftButton(es)
    ensures var a := Step(s, Button(BTN_LEFT, true));
            var b := Run(a, es);
            var id, v, w := a.wm.moveId, View(a.st.ws), View(b.st.ws);
            && SameHand(a.wm, b.wm) && OthersStay(a, b)
            && (id in w && Settled(a, es, |es|) ==>
                  && id in v
                  && w[id].x - v[id].x == b.wm.cursorX - a.wm.cursorX
                  && w[id].y - v[id].y == b.wm.cursorY - a.wm.cursorY)
  {
    hide Act;
    PressHolds(s);
    var a := Step(s, Button(BTN_LEFT, true));
    StepKeeps(s, Button(BTN_LEFT, true));
    DragRun(a, es, |es|);
  }
}
