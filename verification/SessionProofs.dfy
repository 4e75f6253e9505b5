/** One invariant for the whole server, kept by every step and so true in every reachable state. */
module SessionProofs {
  import opened Windows
  import opened ZOrder
  import opened WmProofs
  import opened StackSteps
  import opened SceneMoves
  import opened SceneProofs
  import opened WaylandProofs
  import opened Session
  import WmPolicy
  import Transport
  import Wayland
  import Modes

  ghost predicate SysOk(s: Sys) {
    && StackOk(s.st, s.wm.screenW, s.wm.screenH)
    && ScreenOk(s.wm) && s.tp.sw == s.wm.screenW && s.tp.sh == s.wm.screenH
    && GrabOk(View(s.st.ws), s.wm, s.st.nextId)
    && TpOk(View(s.st.ws), s.st.nextId, s.tp)
    && WlOk(View(s.st.ws), s.fe)
  }

  ghost function SysStrays(s: Sys): set<nat> { Strays(View(s.st.ws), s.tp) }

  ghost function SysUnclaimed(s: Sys): set<nat> { Unclaimed(View(s.st.ws), s.fe) }

  /** A step from s to t keeps the invariant and the ownership of all windows; the windows `lost`
      (none, except for one kind of request) come without an owner. */
  ghost predicate Good(s: Sys, t: Sys, lost: set<nat>) {
    SysOk(t) && SysStrays(t) == SysStrays(s) + lost && SysUnclaimed(t) <= SysUnclaimed(s)
  }

  lemma Parts(s: Sys)
    requires SysOk(s)
    ensures DeskOk(DeskOf(s)) && SceneOk(SceneOf(s)) && FrontOk(FrontOf(s), s.tp, s.wm.screenW, s.wm.screenH)
  {
  }

  // ---- what the owners' invariants need of a stack change -----------------------------

  /** Only geometry, order, focus or snap state may differ. */
  ghost predicate SameOwnership(a: map<nat, Window>, b: map<nat, Window>) {
    a.Keys == b.Keys && forall id | id in a ::
      && b[id].role == a[id].role && b[id].appDecorated == a[id].appDecorated
      && b[id].buf == a[id].buf && b[id].bufW == a[id].bufW && b[id].bufH == a[id].bufH && b[id].bufStride == a[id].bufStride
  }

  lemma OwnersAgree(a: map<nat, Window>, b: map<nat, Window>, nextId: nat, tp: Transport.Tp, fe: Wayland.Frontend)
    requires SameOwnership(a, b) && TpOk(a, nextId, tp) && WlOk(a, fe)
    ensures TpOk(b, nextId, tp) && WlOk(b, fe)
    ensures Strays(b, tp) == Strays(a, tp) && Unclaimed(b, fe) == Unclaimed(a, fe)
  {
    TpWindows(a, b, nextId, tp);
    forall k | 0 <= k < |fe.surfaces| ensures Linked(b, fe.surfaces[k]) {
      assert Linked(a, fe.surfaces[k]);
    }
  }

  lemma MotionOwnership(d: WmPolicy.Desk, ax: int, ay: int)
    requires Ok(d.st) && Ordered(d.st)
    ensures SameOwnership(View(d.st.ws), View(WmPolicy.MotionAbs(d, ax, ay).st.ws))
    ensures WmPolicy.MotionAbs(d, ax, ay).st.nextId == d.st.nextId
  {
    MotionEffect(d, ax, ay);
  }

  lemma ButtonOwnership(d: WmPolicy.Desk, button: nat, pressed: bool)
    requires Ok(d.st) && Ordered(d.st)
    ensures SameOwnership(View(d.st.ws), View(WmPolicy.Button(d, button, pressed).st.ws))
    ensures WmPolicy.Button(d, button, pressed).st.nextId == d.st.nextId
  {
    if button == WmPolicy.BTN_LEFT {
      if pressed { WmPolicy.PressEffect(d); PressOrdered(d); } else { ReleaseEffect(d); }
    }
  }

  // ---- input ---------------------------------------------------------------------------

  lemma RouteKeeps(v: map<nat, Window>, nextId: nat, st: Stack, tp: Transport.Tp, p: Transport.Pointer, cx: int, cy: int)
    requires TpOk(v, nextId, tp)
    ensures TpOk(v, nextId, Transport.RoutePointer(st, tp, p, cx, cy))
    ensures Strays(v, Transport.RoutePointer(st, tp, p, cx, cy)) == Strays(v, tp)
  {
    var i := Transport.PointerTarget(st.ws, cx, cy);
    if i >= 0 {
      var w := st.ws[i];
      var e := Transport.PointerEvent(p, Transport.OwnerWid(tp.clients, w.id), cx - w.x, cy - w.y - Transport.TitleBar(w));
      assert Transport.RoutePointer(st, tp, p, cx, cy) == Transport.SendOwner(tp, w.id, e);
      TpSendOwner(v, nextId, tp, w.id, e);
    }
  }

  lemma DeskStep(s: Sys, d: WmPolicy.Desk)
    requires SysOk(s) && DeskOk(d) && d.wm.screenW == s.wm.screenW && d.wm.screenH == s.wm.screenH
    requires SameOwnership(View(s.st.ws), View(d.st.ws)) && d.st.nextId == s.st.nextId
    ensures Good(s, WithDesk(s, d), {})
  {
    OwnersAgree(View(s.st.ws), View(d.st.ws), s.st.nextId, s.tp, s.fe);
  }

  /** What surfaces are told changes no surface. */
  lemma ToldSurfaces(v: map<nat, Window>, fe: Wayland.Frontend, told: Wayland.Frontend)
    requires told == fe.(pointerFocus := told.pointerFocus, kbdFocus := told.kbdFocus, sent := told.sent)
    ensures WlOk(v, told) == WlOk(v, fe) && Unclaimed(v, told) == Unclaimed(v, fe)
  {
    forall id: nat ensures Claimed(told, id) == Claimed(fe, id) {
    }
  }

  /** Both frontends hear of the pointer. */
  lemma PointerHeard(s: Sys, t: Sys, told: Wayland.Frontend, p: Transport.Pointer)
    requires Good(s, t, {}) && told == t.fe.(pointerFocus := told.pointerFocus, kbdFocus := told.kbdFocus, sent := told.sent)
    ensures Good(s, t.(fe := told, tp := Transport.RoutePointer(t.st, t.tp, p, t.wm.cursorX, t.wm.cursorY)), {})
  {
    hide StackOk, ScreenOk, GrabOk;
    ToldSurfaces(View(t.st.ws), t.fe, told);
    RouteKeeps(View(t.st.ws), t.st.nextId, t.st, t.tp, p, t.wm.cursorX, t.wm.cursorY);
    RouteScreen(t.st, t.tp, p, t.wm.cursorX, t.wm.cursorY);
  }

  lemma RouteScreen(st: Stack, tp: Transport.Tp, p: Transport.Pointer, cx: int, cy: int)
    ensures var r := Transport.RoutePointer(st, tp, p, cx, cy); r.sw == tp.sw && r.sh == tp.sh
  {
  }

  /** What the window manager does with a motion, before anybody hears of it. */
  lemma MotionDesk(s: Sys, ax: int, ay: int)
    requires SysOk(s)
    ensures Good(s, WithDesk(s, WmPolicy.MotionAbs(DeskOf(s), ax, ay)), {})
  {
    hide Good, WmPolicy.MotionAbs;
    assert DeskOk(DeskOf(s)) by { Parts(s); }
    MotionKeeps(DeskOf(s), ax, ay);
    MotionOwnership(DeskOf(s), ax, ay);
    MotionEffect(DeskOf(s), ax, ay);
    DeskStep(s, WmPolicy.MotionAbs(DeskOf(s), ax, ay));
  }

  lemma MotionStep(s: Sys, ax: int, ay: int)
    requires SysOk(s)
    ensures Good(s, AfterMotion(WithDesk(s, WmPolicy.MotionAbs(DeskOf(s), ax, ay))), {})
  {
    hide Good, WmPolicy.MotionAbs, Transport.RoutePointer;
    MotionDesk(s, ax, ay);
    var t := WithDesk(s, WmPolicy.MotionAbs(DeskOf(s), ax, ay));
    PointerHeard(s, t, Wayland.PointerMotion(t.st.ws, t.fe, t.wm.cursorX, t.wm.cursorY), Transport.Moved);
  }

  lemma ButtonScreen(d: WmPolicy.Desk, button: nat, pressed: bool)
    requires Ok(d.st) && Ordered(d.st)
    ensures var r := WmPolicy.Button(d, button, pressed).wm; r.screenW == d.wm.screenW && r.screenH == d.wm.screenH
  {
    if button == WmPolicy.BTN_LEFT { if pressed { WmPolicy.PressEffect(d); } else { ReleaseEffect(d); } }
  }

  lemma ButtonDeskGood(s: Sys, button: nat, pressed: bool)
    requires SysOk(s)
    ensures Good(s, WithDesk(s, WmPolicy.Button(DeskOf(s), button, pressed)), {})
  {
    hide Good, WmPolicy.Button;
    assert DeskOk(DeskOf(s)) by { Parts(s); }
    ButtonKeeps(DeskOf(s), button, pressed);
    ButtonOwnership(DeskOf(s), button, pressed);
    ButtonScreen(DeskOf(s), button, pressed);
    DeskStep(s, WmPolicy.Button(DeskOf(s), button, pressed));
  }

  lemma ButtonStep(s: Sys, button: nat, pressed: bool)
    requires SysOk(s)
    ensures Good(s, OnButton(s, button, pressed), {})
  {
    hide Good, WmPolicy.Button, Transport.RoutePointer;
    ButtonDeskGood(s, button, pressed);
    var d := WmPolicy.Button(DeskOf(s), button, pressed);
    PointerHeard(s, WithDesk(s, d), Wayland.PointerButton(s.fe, button, pressed), Transport.Pressed(button, pressed));
  }

  lemma PlainKeyStep(s: Sys, keycode: nat, keysym: nat, pressed: bool, alt: bool)
    requires SysOk(s)
    ensures Good(s, PlainKey(s, keycode, keysym, pressed, alt), {})
  {
    Parts(s);
    var k := WmPolicy.Key(DeskOf(s), keysym, pressed, alt);
    if k.1 {
      KeyKeeps(DeskOf(s), keysym, pressed, alt);
      FocusCycleOk(s.st, 1);
      DeskStep(s, k.0);
    } else {
      ToldSurfaces(View(s.st.ws), s.fe, Wayland.KeyboardKey(s.fe, keycode, pressed));
      TpSendOwner(View(s.st.ws), s.st.nextId, s.tp, s.st.focus,
        Transport.KeyEvent(Transport.OwnerWid(s.tp.clients, s.st.focus), keysym, pressed));
    }
  }

  lemma KeyStep(s: Sys, keycode: nat, keysym: nat, pressed: bool, alt: bool)
    requires SysOk(s)
    ensures Good(s, OnKey(s, keycode, keysym, pressed, alt), {})
  {
    hide PlainKey;
    var t := s.(keys := Tracked(s.keys, keycode, pressed));
    assert Good(s, t, {});
    PlainKeyStep(t, keycode, keysym, pressed, alt);
  }

  // ---- clients ----------------------------------------------------------------------------

  lemma GrabEvolves(a: Stack, b: Stack, wm: WmPolicy.Wm)
    requires Evolves(a, b) && GrabOk(View(a.ws), wm, a.nextId)
    ensures GrabOk(View(b.ws), wm, b.nextId)
  {
  }

  /** Native clients never disturb a surface's window. */
  lemma SceneStep(s: Sys, sc: Transport.Scene, lost: set<nat>)
    requires SysOk(s) && KeptLosing(SceneOf(s), sc, lost)
    ensures Good(s, WithScene(s, sc), lost)
  {
    GrabEvolves(s.st, sc.st, s.wm);
    forall k | 0 <= k < |s.fe.surfaces| ensures Linked(View(sc.st.ws), s.fe.surfaces[k]) {
      assert Linked(View(s.st.ws), s.fe.surfaces[k]);
    }
  }

  /** The window a datagram leaves without an owner, if any. */
  function LostTo(s: Sys, fd: int, d: Transport.Datagram): set<nat> {
    var ci := Transport.ClientByFd(s.tp.clients, fd);
    if ci < 0 then {} else Forsaken(SceneOf(s), ci, d)
  }

  lemma ReceiveStep(s: Sys, fd: int, d: Transport.Datagram, fds: seq<int>, mem: Transport.Mmap, now: int)
    requires SysOk(s) && fd >= 0
    ensures Good(s, OnReceive(s, fd, d, fds, mem, now), LostTo(s, fd, d))
  {
    Parts(s);
    var ci := Transport.ClientByFd(s.tp.clients, fd);
    if ci >= 0 {
      var sc := Transport.Receive(SceneOf(s), ci, d, fds, mem, now);
      assert OnReceive(s, fd, d, fds, mem, now) == WithScene(s, sc);
      ReceiveKeeps(SceneOf(s), ci, d, fds, mem, now);
      SceneStep(s, sc, Forsaken(SceneOf(s), ci, d));
    }
  }

  lemma ConnectStep(s: Sys, fd: int, watched: bool)
    requires SysOk(s) && fd >= 0
    ensures Good(s, s.(tp := Transport.AddClient(s.tp, fd, watched)), {})
  {
    Parts(s);
    ConnectKeeps(SceneOf(s), fd, watched);
    SceneStep(s, SceneOf(s).(tp := Transport.AddClient(s.tp, fd, watched)), {});
  }

  lemma TickStep(s: Sys, now: int)
    requires SysOk(s)
    ensures Good(s, WithScene(s, Transport.Expire(SceneOf(s), now)), {})
  {
    Parts(s);
    ExpireKeeps(SceneOf(s), now, 0);
    SceneStep(s, Transport.Expire(SceneOf(s), now), {});
  }

  lemma HangupStep(s: Sys, fd: int, now: int)
    requires SysOk(s)
    ensures Good(s, OnHangup(s, fd, now), {})
  {
    Parts(s);
    var ci := Transport.ClientByFd(s.tp.clients, fd);
    if ci >= 0 {
      var sc := Transport.Drop(SceneOf(s), ci, now);
      assert OnHangup(s, fd, now) == WithScene(s, sc);
      DropKeepsAll(SceneOf(s), ci, now);
      SceneStep(s, sc, {});
    }
  }

  lemma WlStep(s: Sys, r: Wayland.Request)
    requires SysOk(s) && Wayland.Names(s.fe, r)
    ensures Good(s, WithFront(s, Wayland.Serve(FrontOf(s), r)), {})
  {
    Parts(s);
    ServeKeeps(FrontOf(s), r, s.tp, s.wm.screenW, s.wm.screenH);
    GrabEvolves(s.st, Wayland.Serve(FrontOf(s), r).st, s.wm);
  }

  // ---- resolution changes -------------------------------------------------------------------

  /** Wallpapers from index `from` on are fitted, every other window is as it was. */
  lemma {:induction false} FitEach(s: Stack, w: int, h: int, from: nat)
    requires Ok(s) && from <= |s.ws|
    ensures var r := FitFrom(s, w, h, from);
            && |r.ws| == |s.ws| && SameHeads(s, r)
            && forall i | 0 <= i < |s.ws| ::
                 r.ws[i] == if from <= i && s.ws[i].role.Desktop? then Resized(s.ws[i], 0, 0, w, h) else s.ws[i]
    decreases |s.ws| - from
  {
    if from < |s.ws| {
      if s.ws[from].role.Desktop? {
        ViewAt(s.ws, from);
        PutOk(s, from, Resized(s.ws[from], 0, 0, w, h));
        FitEach(s.(ws := s.ws[from := Resized(s.ws[from], 0, 0, w, h)]), w, h, from + 1);
      } else {
        FitEach(s, w, h, from + 1);
      }
    }
  }

  /** A stack rewritten entry by entry, keeping ids. */
  lemma Rewritten(a: Stack, b: Stack)
    requires Ok(a) && |b.ws| == |a.ws| && SameHeads(a, b) && forall i | 0 <= i < |a.ws| :: b.ws[i].id == a.ws[i].id
    ensures Ok(b) && View(b.ws).Keys == View(a.ws).Keys
    ensures forall id | id in View(a.ws) :: 0 <= IndexOf(a.ws, id) < |b.ws| && View(b.ws)[id] == b.ws[IndexOf(a.ws, id)]
  {
    forall id ensures id in View(b.ws) <==> id in View(a.ws) {
      ViewLive(a.ws, id);
      ViewLive(b.ws, id);
      if Live(a.ws, id) { LiveAt(b.ws, IndexOf(a.ws, id), id); }
      if Live(b.ws, id) { LiveAt(a.ws, IndexOf(b.ws, id), id); }
    }
    forall id | id in View(a.ws)
      ensures 0 <= IndexOf(a.ws, id) < |b.ws| && View(b.ws)[id] == b.ws[IndexOf(a.ws, id)]
    {
      ViewLive(a.ws, id);
      ViewAt(b.ws, IndexOf(a.ws, id));
    }
    if a.focus != 0 { LiveAt(b.ws, IndexOf(a.ws, a.focus), a.focus); }
  }

  /** The windows after fitting the wallpapers. */
  lemma FitView(s: Stack, w: int, h: int)
    requires Ok(s) && Ordered(s)
    ensures var r, v := FitFrom(s, w, h, 0), View(s.ws);
            && Ok(r) && Ordered(r) && SameHeads(s, r) && View(r.ws).Keys == v.Keys
            && forall id | id in v :: View(r.ws)[id] == if v[id].role.Desktop? then Resized(v[id], 0, 0, w, h) else v[id]
  {
    FitEach(s, w, h, 0);
    var r := FitFrom(s, w, h, 0);
    Rewritten(s, r);
    ShapeOrdered(s, r.ws);
    forall id | id in View(s.ws)
      ensures View(r.ws)[id] == if View(s.ws)[id].role.Desktop? then Resized(View(s.ws)[id], 0, 0, w, h) else View(s.ws)[id]
    {
      ViewLive(s.ws, id);
    }
  }

  lemma {:induction false} BroadcastSent(v: map<nat, Window>, nextId: nat, tp: Transport.Tp, w: int, h: int, from: nat)
    requires TpOk(v, nextId, tp) && from <= |tp.clients|
    ensures TpOk(v, nextId, tp.(clients := Transport.BroadcastFrom(tp.clients, w, h, from)))
    ensures Strays(v, tp.(clients := Transport.BroadcastFrom(tp.clients, w, h, from))) == Strays(v, tp)
    decreases |tp.clients| - from
  {
    hide TpOk, Strays;
    if from < |tp.clients| {
      if tp.clients[from].fd >= 0 && tp.clients[from].hello {
        var e := Transport.ScreenEvent(Transport.AsU32(w), Transport.AsU32(h));
        TpSend(v, nextId, tp, from, e);
        BroadcastSent(v, nextId, tp.(clients := Transport.SendTo(tp.clients, from, e)), w, h, from + 1);
      } else {
        BroadcastSent(v, nextId, tp, w, h, from + 1);
      }
    }
  }

  lemma BroadcastKeeps(v: map<nat, Window>, nextId: nat, tp: Transport.Tp, w: int, h: int)
    requires TpOk(v, nextId, tp)
    ensures var r := Transport.Broadcast(tp, w, h);
            TpOk(v, nextId, r) && Strays(v, r) == Strays(v, tp) && r.sw == w && r.sh == h
  {
    hide Transport.BroadcastFrom;
    BroadcastSent(v, nextId, tp, w, h, 0);
  }

  /** What fitting the wallpapers does to the stack's own invariants. */
  lemma FitKeeps(s: Sys, w: int, h: int)
    requires SysOk(s) && w >= 1 && h >= 1
    ensures var r := FitFrom(s.st, w, h, 0);
            && StackOk(r, w, h) && r.nextId == s.st.nextId && SameOwnership(View(s.st.ws), View(r.ws))
            && GrabOk(View(r.ws), s.wm, r.nextId)
  {
    hide FitFrom, TpOk, WlOk;
    FitView(s.st, w, h);
  }

  lemma ResizeStep(s: Sys, w: int, h: int)
    requires SysOk(s) && w >= 1 && h >= 1
    ensures Good(s, Resize(s, w, h), {})
  {
    hide FitFrom, Transport.Broadcast, TpOk, WlOk, Strays, Unclaimed, StackOk, SameOwnership;
    var r := FitFrom(s.st, w, h, 0);
    FitKeeps(s, w, h);
    OwnersAgree(View(s.st.ws), View(r.ws), s.st.nextId, s.tp, s.fe);
    BroadcastKeeps(View(r.ws), s.st.nextId, s.tp, w, h);
  }

  lemma ModeStep(s: Sys, modes: seq<Modes.Mode>, w: int, h: int, refresh: Modes.U32, blobOk: bool, fbOk: bool)
    requires SysOk(s) && forall i | 0 <= i < |modes| :: modes[i].hdisplay >= 1 && modes[i].vdisplay >= 1
    ensures Good(s, ApplyMode(s, modes, w, h, refresh, blobOk, fbOk), {})
  {
    var best := Modes.Select(modes, w, h, refresh);
    if best >= 0 && blobOk && fbOk {
      ResizeStep(s.(mode := modes[best]), modes[best].hdisplay, modes[best].vdisplay);
    }
  }

  // ---- end of the loop ------------------------------------------------------------------------

  lemma NotifyGeometryKeeps(v: map<nat, Window>, nextId: nat, st: Stack, tp: Transport.Tp, id: nat)
    requires TpOk(v, nextId, tp)
    ensures TpOk(v, nextId, Transport.NotifyGeometry(st, tp, id)) && Strays(v, Transport.NotifyGeometry(st, tp, id)) == Strays(v, tp)
  {
    var i := IndexOf(st.ws, id);
    if i >= 0 {
      TpSendOwner(v, nextId, tp, id, Transport.ConfigureFor(Transport.OwnerWid(tp.clients, id), st.ws[i]));
    }
  }

  lemma FocusKnown(s: Stack)
    requires Ok(s)
    ensures s.focus < s.nextId && 0 !in View(s.ws)
  {
    Stays(s);
    ViewLive(s.ws, s.focus);
  }

  lemma SyncStep(s: Sys)
    requires SysOk(s)
    ensures Good(s, OnSync(s), {})
  {
    var told := Transport.NotifyFocus(s.tp, s.st.focus);
    FocusKnown(s.st);
    ToldSurfaces(View(s.st.ws), s.fe, Wayland.KeyboardFocus(s.fe, s.st.focus));
    TpNotify(View(s.st.ws), s.st.nextId, s.tp, s.st.focus);
    if s.wm.reconfigured != 0 {
      NotifyGeometryKeeps(View(s.st.ws), s.st.nextId, s.st, told, s.wm.reconfigured);
    }
  }

  // ---- every step, every run -----------------------------------------------------------------------

  /** The window an event leaves without an owner, if any: only a CREATE_WINDOW for wid 0 does. */
  function Lost(s: Sys, e: Event): set<nat> {
    if e.Receive? && Enabled(s, e) then LostTo(s, e.fd, e.datagram) else {}
  }

  lemma ActKeeps(s: Sys, e: Event)
    requires SysOk(s) && Enabled(s, e)
    ensures Good(s, Act(s, e), Lost(s, e))
  {
    hide Good, AfterMotion, OnButton, OnKey, OnReceive, OnHangup, ApplyMode, OnSync, Wayland.Serve, Transport.ExpireFrom,
         Transport.AddClient, WmPolicy.MotionAbs, SysOk;
    match e
    case Motion(dx, dy) => MotionStep(s, s.wm.cursorX + dx, s.wm.cursorY + dy);
    case MotionAbs(ax, ay) => MotionStep(s, ax, ay);
    case Button(b, pressed) => ButtonStep(s, b, pressed);
    case Key(keycode, keysym, pressed, alt) => KeyStep(s, keycode, keysym, pressed, alt);
    case Connect(fd, watched) => ConnectStep(s, fd, watched);
    case Receive(fd, d, fds, mem, now) => ReceiveStep(s, fd, d, fds, mem, now);
    case Hangup(fd, now) => HangupStep(s, fd, now);
    case Tick(now) => TickStep(s, now);
    case SetMode(modes, w, h, refresh, blobOk, fbOk) => ModeStep(s, modes, w, h, refresh, blobOk, fbOk);
    case Sync => SyncStep(s);
    case Wl(r) => WlStep(s, r);
  }

  lemma StepKeeps(s: Sys, e: Event)
    requires SysOk(s)
    ensures Good(s, Step(s, e), Lost(s, e))
  {
    if Enabled(s, e) { ActKeeps(s, e); }
  }

  lemma {:induction false} RunKeeps(s: Sys, es: seq<Event>, n: nat)
    requires SysOk(s) && n <= |es|
    ensures SysOk(RunTo(s, es, n)) && SysUnclaimed(RunTo(s, es, n)) <= SysUnclaimed(s)
  {
    hide Step, SysOk, SysUnclaimed;
    if n > 0 {
      RunKeeps(s, es, n - 1);
      StepKeeps(RunTo(s, es, n - 1), es[n - 1]);
    }
  }
}
