/** The whole server as a state machine (src/server.c): input, native clients, Wayland clients,
    resolution changes and the end-of-loop notifications, one step at a time. */
module Session {
  import opened Windows
  import WmPolicy
  import Transport
  import Wayland
  import Modes

  /** The modifiers on_input tracks, and whether the main loop goes on. */
  datatype Keyboard = Keyboard(ctrl: bool, alt: bool, running: bool)

  datatype Sys = Sys(
    st: Stack, wm: WmPolicy.Wm, tp: Transport.Tp, fe: Wayland.Frontend, mode: Modes.Mode, keys: Keyboard)

  const KEY_ESC: nat := 0xff1b
  const KEYCODE_T: nat := 20

  datatype Event =
    | Motion(dx: int, dy: int)
    | MotionAbs(ax: int, ay: int)
    | Button(button: nat, pressed: bool)
    | Key(keycode: nat, keysym: nat, pressed: bool, alt: bool)
    | Connect(fd: int, watched: bool)
    | Receive(fd: int, datagram: Transport.Datagram, fds: seq<int>, mem: Transport.Mmap, now: int)
    | Hangup(fd: int, now: int)
    | Tick(now: int)
    | SetMode(modes: seq<Modes.Mode>, w: int, h: int, refresh: Modes.U32, blobOk: bool, fbOk: bool)
    | Sync
    | Wl(request: Wayland.Request)

  function DeskOf(s: Sys): WmPolicy.Desk { WmPolicy.Desk(s.st, s.wm) }

  function SceneOf(s: Sys): Transport.Scene { Transport.Scene(s.st, s.tp) }

  function FrontOf(s: Sys): Wayland.Front { Wayland.Front(s.st, s.fe) }

  function WithDesk(s: Sys, d: WmPolicy.Desk): Sys { s.(st := d.st, wm := d.wm) }

  function WithScene(s: Sys, sc: Transport.Scene): Sys { s.(st := sc.st, tp := sc.tp) }

  function WithFront(s: Sys, f: Wayland.Front): Sys { s.(st := f.st, fe := f.fe) }

  // ---- input -----------------------------------------------------------------------

  /** on_input, motion: the window manager moves cursor and drag, then both frontends hear. */
  function AfterMotion(s: Sys): Sys {
    s.(fe := Wayland.PointerMotion(s.st.ws, s.fe, s.wm.cursorX, s.wm.cursorY),
       tp := Transport.RoutePointer(s.st, s.tp, Transport.Moved, s.wm.cursorX, s.wm.cursorY))
  }

  /** on_input, button: the window manager acts first, then the Wayland surface that had the
      pointer is told, then the native client under the cursor. */
  function OnButton(s: Sys, button: nat, pressed: bool): Sys {
    var t := WithDesk(s, WmPolicy.Button(DeskOf(s), button, pressed));
    t.(fe := Wayland.PointerButton(t.fe, button, pressed),
       tp := Transport.RoutePointer(t.st, t.tp, Transport.Pressed(button, pressed), t.wm.cursorX, t.wm.cursorY))
  }

  /** Left and right Ctrl and Alt are tracked by their raw keycodes. */
  function Tracked(k: Keyboard, keycode: nat, pressed: bool): Keyboard {
    if keycode == 29 || keycode == 97 then k.(ctrl := pressed)
    else if keycode == 56 || keycode == 100 then k.(alt := pressed)
    else k
  }

  /** Two presses go neither to the window manager nor to a client: Ctrl+Alt+T starts a terminal, */
  predicate OpensTerminal(k: Keyboard, keycode: nat, pressed: bool) {
    pressed && k.ctrl && k.alt && keycode == KEYCODE_T
  }

  /** and Escape ends the main loop. */
  predicate Quits(keysym: nat, pressed: bool) { pressed && keysym == KEY_ESC }

  /** What the window manager does not consume goes to the surface that has the keyboard, by its
      keycode, and to the native client that owns the focused window, by its keysym. */
  function PlainKey(s: Sys, keycode: nat, keysym: nat, pressed: bool, alt: bool): Sys {
    var k := WmPolicy.Key(DeskOf(s), keysym, pressed, alt);
    if k.1 then WithDesk(s, k.0)
    else
      s.(fe := Wayland.KeyboardKey(s.fe, keycode, pressed),
         tp := Transport.RouteKey(s.tp, s.st.focus, keysym, pressed))
  }

  /** on_input, key */
  function OnKey(s: Sys, keycode: nat, keysym: nat, pressed: bool, alt: bool): Sys {
    var t := s.(keys := Tracked(s.keys, keycode, pressed));
    if OpensTerminal(t.keys, keycode, pressed) then t
    else if Quits(keysym, pressed) then t.(keys := t.keys.(running := false))
    else PlainKey(t, keycode, keysym, pressed, alt)
  }

  // ---- native clients ----------------------------------------------------------------

  function OnReceive(s: Sys, fd: int, d: Transport.Datagram, fds: seq<int>, mem: Transport.Mmap, now: int): Sys {
    var ci := Transport.ClientByFd(s.tp.clients, fd);
    if ci < 0 then s else WithScene(s, Transport.Receive(SceneOf(s), ci, d, fds, mem, now))
  }

  function OnHangup(s: Sys, fd: int, now: int): Sys {
    var ci := Transport.ClientByFd(s.tp.clients, fd);
    if ci < 0 then s else WithScene(s, Transport.Drop(SceneOf(s), ci, now))
  }

  // ---- resolution changes --------------------------------------------------------------

  /** Fit every wallpaper to the new screen, from stack index `from` on. */
  function FitFrom(s: Stack, w: int, h: int, from: nat): Stack
    requires from <= |s.ws|
    decreases |s.ws| - from
  {
    if from == |s.ws| then s
    else if s.ws[from].role.Desktop? then FitFrom(SetGeometry(s, s.ws[from].id, 0, 0, w, h), w, h, from + 1)
    else FitFrom(s, w, h, from + 1)
  }

  function Resize(s: Sys, w: int, h: int): Sys {
    s.(wm := s.wm.(screenW := w, screenH := h,
                   cursorX := if s.wm.cursorX >= w then w - 1 else s.wm.cursorX,
                   cursorY := if s.wm.cursorY >= h then h - 1 else s.wm.cursorY),
       st := FitFrom(s.st, w, h, 0),
       tp := Transport.Broadcast(s.tp, w, h))
  }

  /** apply_mode_cb: nothing changes unless a mode is found and its blob made; the screen changes
      only if the framebuffers could be allocated too. */
  function ApplyMode(s: Sys, modes: seq<Modes.Mode>, w: int, h: int, refresh: Modes.U32, blobOk: bool, fbOk: bool): Sys {
    var best := Modes.Select(modes, w, h, refresh);
    if best < 0 || !blobOk then s
    else
      var t := s.(mode := modes[best]);
      if !fbOk then t else Resize(t, t.mode.hdisplay, t.mode.vdisplay)
  }

  // ---- end of the loop -------------------------------------------------------------------

  /** The Wayland keyboard follows the focus, then transport_update_focus, and
      transport_notify_geometry for a window the WM resized. */
  function OnSync(s: Sys): Sys {
    var t := s.(fe := Wayland.KeyboardFocus(s.fe, s.st.focus), tp := Transport.NotifyFocus(s.tp, s.st.focus));
    if t.wm.reconfigured == 0 then t
    else t.(tp := Transport.NotifyGeometry(t.st, t.tp, t.wm.reconfigured), wm := t.wm.(reconfigured := 0))
  }

  // ---- runs ----------------------------------------------------------------------------------

  /** What the environment guarantees: a new connection has a descriptor of its own, a datagram
      comes from a real descriptor, a connector's modes are not empty, a request names a surface
      that exists. */
  predicate Enabled(s: Sys, e: Event) {
    match e
    case Connect(fd, _) => fd >= 0 && Transport.ClientByFd(s.tp.clients, fd) < 0
    case Receive(fd, _, fds, _, _) => fd >= 0 && |fds| <= Transport.MAX_FDS
    case Hangup(fd, _) => fd >= 0
    case SetMode(modes, _, _, _, _, _) => forall i | 0 <= i < |modes| :: modes[i].hdisplay >= 1 && modes[i].vdisplay >= 1
    case Wl(r) => Wayland.Names(s.fe, r)
    case _ => true
  }

  function Act(s: Sys, e: Event): Sys
    requires Enabled(s, e)
  {
    match e
    case Motion(dx, dy) => AfterMotion(WithDesk(s, WmPolicy.Motion(DeskOf(s), dx, dy)))
    case MotionAbs(ax, ay) => AfterMotion(WithDesk(s, WmPolicy.MotionAbs(DeskOf(s), ax, ay)))
    case Button(b, pressed) => OnButton(s, b, pressed)
    case Key(keycode, keysym, pressed, alt) => OnKey(s, keycode, keysym, pressed, alt)
    case Connect(fd, watched) => s.(tp := Transport.AddClient(s.tp, fd, watched))
    case Receive(fd, d, fds, mem, now) => OnReceive(s, fd, d, fds, mem, now)
    case Hangup(fd, now) => OnHangup(s, fd, now)
    case Tick(now) => WithScene(s, Transport.Expire(SceneOf(s), now))
    case SetMode(modes, w, h, refresh, blobOk, fbOk) => ApplyMode(s, modes, w, h, refresh, blobOk, fbOk)
    case Sync => OnSync(s)
    case Wl(r) => WithFront(s, Wayland.Serve(FrontOf(s), r))
  }

  /** One turn of the server; an event the environment cannot produce does nothing. */
  function Step(s: Sys, e: Event): Sys { if Enabled(s, e) then Act(s, e) else s }

  /** The state after the first n events. */
  function RunTo(s: Sys, es: seq<Event>, n: nat): Sys
    requires n <= |es|
  {
    if n == 0 then s else Step(RunTo(s, es, n - 1), es[n - 1])
  }

  function Run(s: Sys, es: seq<Event>): Sys { RunTo(s, es, |es|) }

  // ---- boot -------------------------------------------------------------------------------------

  function DemoWindows(sw: nat, sh: nat): seq<Window> {
    [NewWindow(1, Desktop, 0, 0, sw, sh, 0x00204060),
     NewWindow(2, Normal, sw / 6, sh / 6, 520, 360, 0x00d8d8d8),
     NewWindow(3, Normal, sw / 3, sh / 3, 480, 320, 0x00eeeeee)]
  }

  /** The demo scene seed_windows leaves: a wallpaper and two windows, the second focused. */
  function Seeded(sw: nat, sh: nat): Stack { Stack(DemoWindows(sw, sh), 3, 4) }

  /** server_run up to its loop; reconfigured_id starts with whatever was on the C stack. */
  function Boot(mode: Modes.Mode, demo: bool, garbage: nat): Sys {
    var sw, sh := mode.hdisplay, mode.vdisplay;
    Sys(if demo then Seeded(sw, sh) else EmptyStack,
        WmPolicy.InitWm(sw, sh, garbage), Transport.NewTransport(sw, sh), Wayland.NEW_FRONTEND, mode,
        Keyboard(false, false, true))
  }
}
