/** The server as the program keeps it (src/server.c): one stack shared by the window manager, the
    native transport and the Wayland frontend. Handling an event is proved to be exactly one step
    of the state machine in module Session, so everything proved about its runs holds here. */
module Servers {
  import opened Windows
  import opened Session
  import opened WindowStacks
  import opened WindowManagers
  import opened TransportServers
  import opened WaylandFrontends
  import WmPolicy
  import Transport
  import Wayland
  import Modes

  class Server {
    const stack: WindowStack
    const wm: WindowManager
    const tp: TransportServer
    const fe: WaylandFrontend
    const kms: Modes.Kms
    var keys: Keyboard

    ghost predicate Valid()
      reads stack
    {
      stack.Valid() && wm.stack == stack && tp.stack == stack && fe.stack == stack
    }

    ghost function Footprint(): set<object> {
      {this, stack, stack.windows, wm, tp, tp.clients, tp.orphans, fe, kms}
    }

    ghost function State(): Sys
      requires Valid()
      reads stack, Footprint()
    {
      Sys(stack.S(), wm.W(), tp.T(), fe.F(), kms.mode, keys)
    }

    /** server_run up to its loop. */
    constructor (mode: Modes.Mode, demo: bool, listenFd: int, epollFd: int)
      ensures Valid() && fresh(Footprint())
      ensures State() == Boot(mode, demo, wm.reconfiguredId)
    {
      var s := new WindowStack();
      stack := s;
      kms := new Modes.Kms(mode, 0);
      wm := new WindowManager(s, mode.hdisplay, mode.vdisplay);
      tp := new TransportServer(s, mode.hdisplay, mode.vdisplay, listenFd, epollFd);
      fe := new WaylandFrontend(s);
      keys := Keyboard(false, false, true);
      new;
      if demo { Seed(mode.hdisplay, mode.vdisplay); }
    }

    /** seed_windows */
    method Seed(sw: nat, sh: nat)
      requires Valid() && stack.S() == EmptyStack
      modifies stack, stack.windows
      ensures Valid() && stack.S() == Seeded(sw, sh)
    {
      var a := stack.Create(Desktop, 0, 0, sw, sh, 0x00204060);
      var b := stack.Create(Normal, sw / 6, sh / 6, 520, 360, 0x00d8d8d8);
      var c := stack.Create(Normal, sw / 3, sh / 3, 480, 320, 0x00eeeeee);
      assert stack.S() == Stack(DemoWindows(sw, sh), 0, 4);
      LiveAt(stack.S().ws, 2, c);
      stack.Focus(c);
    }

    /** on_input, after a motion */
    method Moved()
      requires Valid()
      modifies fe, tp.clients
      ensures Valid() && State() == AfterMotion(old(State()))
    {
      fe.PointerMotion(wm.cursorX, wm.cursorY);
      tp.RoutePointer(Transport.Moved, wm.cursorX, wm.cursorY);
    }

    /** on_input, button */
    method Button(button: nat, pressed: bool)
      requires Valid()
      modifies Footprint()
      ensures Valid() && State() == OnButton(old(State()), button, pressed)
    {
      hide WmPolicy.Button, Transport.RoutePointer, Wayland.PointerButton;
      wm.PointerButton(button, pressed);
      fe.PointerButton(button, pressed);
      tp.RoutePointer(Transport.Pressed(button, pressed), wm.cursorX, wm.cursorY);
    }

    /** on_input, key */
    method Key(keycode: nat, keysym: nat, pressed: bool, alt: bool)
      requires Valid()
      modifies Footprint()
      ensures Valid() && State() == OnKey(old(State()), keycode, keysym, pressed, alt)
    {
      hide Transport.RouteKey, Windows.FocusCycle, Wayland.KeyboardKey;
      if keycode == 29 || keycode == 97 {
        keys := keys.(ctrl := pressed);
      } else if keycode == 56 || keycode == 100 {
        keys := keys.(alt := pressed);
      }
      if pressed && keys.ctrl && keys.alt && keycode == KEYCODE_T { return; }
      if pressed && keysym == KEY_ESC {
        keys := keys.(running := false);
        return;
      }
      var consumed := wm.Key(keysym, pressed, alt);
      if consumed { return; }
      fe.KeyboardKey(keycode, pressed);
      tp.RouteKey(stack.focusId, keysym, pressed);
    }

    /** transport_process, for one readable connection */
    method Readable(fd: int, d: Transport.Datagram, fds: seq<int>, mem: Transport.Mmap, now: int)
      requires Valid()
      modifies Footprint()
      ensures Valid() && State() == OnReceive(old(State()), fd, d, fds, mem, now)
    {
      hide Transport.Receive;
      var ci := tp.ClientByFd(fd);
      if ci >= 0 { tp.Receive(ci, d, fds, mem, now); }
    }

    /** transport_process, for one connection that hung up */
    method HungUp(fd: int, now: int)
      requires Valid()
      modifies Footprint()
      ensures Valid() && State() == OnHangup(old(State()), fd, now)
    {
      hide Transport.Drop;
      var ci := tp.ClientByFd(fd);
      if ci >= 0 { tp.Drop(ci, now); }
    }

    /** The wallpaper loop of apply_mode_cb. */
    method FitWallpapers(w: int, h: int)
      requires Valid()
      modifies stack.windows
      ensures Valid() && stack.S() == FitFrom(old(stack.S()), w, h, 0)
    {
      hide Windows.SetGeometry;
      var i := 0;
      while i < stack.count
        invariant 0 <= i <= stack.count && Valid()
        invariant stack.count == old(stack.count)
        invariant FitFrom(stack.S(), w, h, i) == FitFrom(old(stack.S()), w, h, 0)
      {
        if stack.windows[i].role.Desktop? { stack.SetGeometry(stack.windows[i].id, 0, 0, w, h); }
        i := i + 1;
      }
    }

    /** The end of apply_mode_cb, once mode and framebuffers are there. */
    method Resize(nw: int, nh: int)
      requires Valid()
      modifies Footprint()
      ensures Valid() && State() == Session.Resize(old(State()), nw, nh)
    {
      hide FitFrom, Transport.BroadcastFrom;
      wm.screenW, wm.screenH := nw, nh;
      if wm.cursorX >= nw { wm.cursorX := nw - 1; }
      if wm.cursorY >= nh { wm.cursorY := nh - 1; }
      FitWallpapers(nw, nh);
      tp.Broadcast(nw, nh);
    }

    /** apply_mode_cb */
    method ApplyMode(modes: seq<Modes.Mode>, w: int, h: int, refresh: Modes.U32, blobOk: bool, fbOk: bool)
      requires Valid()
      modifies Footprint()
      ensures Valid() && State() == Session.ApplyMode(old(State()), modes, w, h, refresh, blobOk, fbOk)
    {
      hide Session.Resize;
      Modes.BestOfIsBest(modes, w, h, refresh, |modes|);
      var ok := kms.SetModeWh(modes, w, h, refresh, if blobOk then 1 else 0);
      if !ok { return; }
      if !fbOk { return; }
      Resize(kms.mode.hdisplay, kms.mode.vdisplay);
    }

    /** The end of the main loop: report focus to both frontends, then the window the window manager resized. */
    method EndOfTurn()
      requires Valid()
      modifies Footprint()
      ensures Valid() && State() == OnSync(old(State()))
    {
      hide Transport.NotifyFocus, Transport.NotifyGeometry, Wayland.KeyboardFocus;
      fe.KeyboardFocus(stack.focusId);
      tp.NotifyFocus(stack.focusId);
      if wm.reconfiguredId != 0 {
        tp.NotifyGeometry(wm.reconfiguredId);
        wm.reconfiguredId := 0;
      }
    }

    /** Whatever happens, the server does one step of the state machine. */
    method Handle(e: Event)
      requires Valid() && Enabled(State(), e)
      modifies Footprint()
      ensures Valid() && State() == Step(old(State()), e)
    {
      hide AfterMotion, OnButton, OnKey, OnReceive, OnHangup, Session.ApplyMode, OnSync, Transport.AddClient,
           Transport.ExpireFrom, Wayland.Serve, WmPolicy.MotionAbs;
      match e
      case Motion(dx, dy) =>
        wm.PointerMotion(dx, dy);
        Moved();
      case MotionAbs(ax, ay) =>
        wm.PointerMotionAbs(ax, ay);
        Moved();
      case Button(b, pressed) => Button(b, pressed);
      case Key(keycode, keysym, pressed, alt) => Key(keycode, keysym, pressed, alt);
      case Connect(fd, watched) => var ok := tp.AddClient(fd, watched);
      case Receive(fd, d, fds, mem, now) => Readable(fd, d, fds, mem, now);
      case Hangup(fd, now) => HungUp(fd, now);
      case Tick(now) => tp.Expire(now);
      case SetMode(modes, w, h, refresh, blobOk, fbOk) => ApplyMode(modes, w, h, refresh, blobOk, fbOk);
      case Sync => EndOfTurn();
      case Wl(r) => fe.Serve(r);
    }
  }
}
