/** What the compositor may rely on in every reachable state: no window shows freed memory, and
    what is seen at a pixel is what a click there hits. */
module Screens {
  import opened Windows
  import opened WmProofs
  import opened StackSteps
  import opened Wayland
  import opened WaylandProofs
  import opened Session
  import opened SessionProofs
  import opened SessionBoot
  import Gestures
  import Pixels
  import SceneProofs
  import Books
  import Transport
  import WmPolicy
  import Modes

  // ---- what a Wayland request does to windows ---------------------------------------

  /** Every window is as it was, or is shown by a surface at a height that fits a title bar. */
  ghost predicate WlChange(a: map<nat, Window>, b: map<nat, Window>, fe: Frontend) {
    forall id | id in b :: (id in a && b[id] == a[id]) || (Claimed(fe, id) && b[id].h >= TITLEBAR_H)
  }

  lemma UnmapChange(f: Front, k: nat)
    requires Ok(f.st) && k < |f.fe.surfaces|
    ensures WlChange(View(f.st.ws), View(Unmap(f, k).st.ws), Unmap(f, k).fe)
    ensures forall id | id in View(Unmap(f, k).st.ws) :: id in View(f.st.ws) && View(Unmap(f, k).st.ws)[id] == View(f.st.ws)[id]
  {
    var id := f.fe.surfaces[k].serverId;
    if id != 0 {
      DestroyIsReaped(f.st, id);
      ReapedOk(f.st, {id});
    }
  }

  lemma UpdateChange(f: Front, k: nat)
    requires Ok(f.st) && k < |f.fe.surfaces| && f.fe.surfaces[k].serverId != 0 && f.fe.surfaces[k].ch >= 0
    ensures WlChange(View(f.st.ws), View(MapOrUpdate(f, k).st.ws), MapOrUpdate(f, k).fe)
  {
    var s := f.fe.surfaces[k];
    var i := IndexOf(f.st.ws, s.serverId);
    assert Claimed(f.fe, s.serverId);
    if i >= 0 { PutOk(f.st, i, Showing(f.st.ws[i], s).(w := s.cw, h := s.ch + TITLEBAR_H)); }
  }

  lemma MapChange(f: Front, k: nat, x: int, y: int)
    requires Ok(f.st) && k < |f.fe.surfaces| && f.fe.surfaces[k].serverId == 0 && f.fe.surfaces[k].ch >= 0
    ensures WlChange(View(f.st.ws), View(MapAt(f, k, x, y).st.ws), MapAt(f, k, x, y).fe)
  {
    MapAtIs(f, k, x, y);
    if |f.st.ws| < WIN_MAX {
      var w := NewlyShown(f, k, x, y);
      AppendedOk(f.st, w);
      FocusOk(Appended(f.st, w), w.id);
      assert MapAt(f, k, x, y).fe.surfaces[k].serverId == w.id;
    }
  }

  lemma ShowChange(f: Front, k: nat)
    requires Ok(f.st) && k < |f.fe.surfaces| && f.fe.surfaces[k].ch >= 0
    ensures WlChange(View(f.st.ws), View(MapOrUpdate(f, k).st.ws), MapOrUpdate(f, k).fe)
  {
    if f.fe.surfaces[k].serverId != 0 {
      UpdateChange(f, k);
    } else {
      var x, y := Cascade(120, f.fe.cascade), Cascade(90, f.fe.cascade);
      MapChange(f, k, x, y);
      assert MapOrUpdate(f, k) == MapAt(f, k, x, y);
    }
  }

  lemma CommitChange(f: Front, k: nat, allocOk: bool)
    requires Ok(f.st) && WlOk(View(f.st.ws), f.fe) && k < |f.fe.surfaces|
    ensures WlChange(View(f.st.ws), View(Commit(f, k, allocOk).st.ws), Commit(f, k, allocOk).fe)
  {
    hide CopyShm, MapOrUpdate;
    var s := f.fe.surfaces[k];
    var taken := f.(fe := SetSurface(f.fe, k, s.(attached := false, pending := NoBuffer)));
    SurfaceOnly(View(f.st.ws), f.fe, k, s.(attached := false, pending := NoBuffer));
    if !(s.xdgSurface && !s.configured) && s.attached {
      match s.pending
      case NoBuffer => UnmapChange(taken, k);
      case Attached(Dmabuf) =>
      case Attached(b) =>
        var c := taken.(fe := CopyShm(taken.fe, k, b, allocOk));
        CopyApart(View(f.st.ws), taken.fe, k, b, allocOk);
        assert ContentOk(c.fe.surfaces[k], c.fe.heap);
        ShowChange(c, k);
    }
  }

  lemma ServeChange(f: Front, r: Wayland.Request)
    requires Ok(f.st) && WlOk(View(f.st.ws), f.fe) && Names(f.fe, r)
    ensures WlChange(View(f.st.ws), View(Serve(f, r).st.ws), Serve(f, r).fe)
  {
    hide Commit;
    match r
    case CommitSurface(k, allocOk) => CommitChange(f, k, allocOk);
    case DestroyToplevel(k) => UnmapChange(f.(fe := SetSurface(f.fe, k, f.fe.surfaces[k].(toplevel := false))), k);
    case DestroySurface(k) => UnmapChange(f, k);
    case _ =>
  }

  // ---- what every step keeps -------------------------------------------------------------

  /** A copied content is shown only by the window of the surface that holds it. */
  ghost predicate HeapClaimed(v: map<nat, Window>, fe: Frontend) {
    forall id | id in v && !v[id].appDecorated && v[id].buf.Heap? :: Claimed(fe, id)
  }

  /** Visible windows with a server title bar are tall enough for it. */
  ghost predicate TallIn(v: map<nat, Window>) {
    forall id | id in v && HasSsd(v[id]) && v[id].w >= 1 :: v[id].h >= TITLEBAR_H
  }

  /** The event snaps a window into a work area lower than a title bar. */
  ghost predicate LowSnap(s: Sys, e: Session.Event) {
    e == Button(WmPolicy.BTN_LEFT, false) && Snaps(DeskOf(s)) && SnapRect(DeskOf(s)).value.h < TITLEBAR_H
  }

  /** A change that leaves what a window shows alone, and if it is tall, its height under a title bar. */
  ghost predicate SameFrame(a: map<nat, Window>, b: map<nat, Window>, tall: bool) {
    forall id | id in b && !b[id].appDecorated ::
      && id in a && !a[id].appDecorated && b[id].buf == a[id].buf && b[id].role == a[id].role
      && (tall && HasSsd(b[id]) ==> (b[id].w == a[id].w && b[id].h == a[id].h) || b[id].h >= TITLEBAR_H)
  }

  /** What a step that may snap low (or not: tall) keeps. */
  ghost predicate StaysSound(s: Sys, t: Sys, tall: bool) {
    && (HeapClaimed(View(s.st.ws), s.fe) ==> HeapClaimed(View(t.st.ws), t.fe))
    && (tall && TallIn(View(s.st.ws)) ==> TallIn(View(t.st.ws)))
  }

  lemma FrameSound(s: Sys, t: Sys, tall: bool)
    requires SameFrame(View(s.st.ws), View(t.st.ws), tall) && t.fe.surfaces == s.fe.surfaces
    ensures StaysSound(s, t, tall)
  {
    forall id: nat | Claimed(s.fe, id) ensures Claimed(t.fe, id) {
    }
  }

  lemma SceneFrame(s: Sys, sc: Transport.Scene, lost: set<nat>)
    requires SceneProofs.KeptLosing(SceneOf(s), sc, lost)
    ensures SameFrame(View(s.st.ws), View(sc.st.ws), true)
  {
    forall id | id in View(sc.st.ws) && !View(sc.st.ws)[id].appDecorated
      ensures id in View(s.st.ws) && View(sc.st.ws)[id] == View(s.st.ws)[id]
    {
      assert id < s.st.nextId;
    }
  }

  lemma ReceiveFrame(s: Sys, fd: int, d: Transport.Datagram, fds: seq<int>, mem: Transport.Mmap, now: int)
    requires SysOk(s) && fd >= 0
    ensures SameFrame(View(s.st.ws), View(OnReceive(s, fd, d, fds, mem, now).st.ws), true)
    ensures OnReceive(s, fd, d, fds, mem, now).fe == s.fe
  {
    hide Transport.Receive;
    Parts(s);
    var ci := Transport.ClientByFd(s.tp.clients, fd);
    if ci >= 0 {
      SceneProofs.ReceiveKeeps(SceneOf(s), ci, d, fds, mem, now);
      SceneFrame(s, Transport.Receive(SceneOf(s), ci, d, fds, mem, now), SceneProofs.Forsaken(SceneOf(s), ci, d));
    }
  }

  lemma HangupFrame(s: Sys, fd: int, now: int)
    requires SysOk(s)
    ensures SameFrame(View(s.st.ws), View(OnHangup(s, fd, now).st.ws), true) && OnHangup(s, fd, now).fe == s.fe
  {
    hide Transport.Drop;
    Parts(s);
    var ci := Transport.ClientByFd(s.tp.clients, fd);
    if ci >= 0 {
      SceneProofs.DropKeepsAll(SceneOf(s), ci, now);
      SceneFrame(s, Transport.Drop(SceneOf(s), ci, now), {});
    }
  }

  lemma TickFrame(s: Sys, now: int)
    requires SysOk(s)
    ensures SameFrame(View(s.st.ws), View(Transport.Expire(SceneOf(s), now).st.ws), true)
  {
    Parts(s);
    SceneProofs.ExpireKeeps(SceneOf(s), now, 0);
    SceneFrame(s, Transport.Expire(SceneOf(s), now), {});
  }

  lemma ModeFrame(s: Sys, modes: seq<Modes.Mode>, w: int, h: int, refresh: Modes.U32, blobOk: bool, fbOk: bool)
    requires SysOk(s)
    ensures var t := ApplyMode(s, modes, w, h, refresh, blobOk, fbOk); SameFrame(View(s.st.ws), View(t.st.ws), true) && t.fe == s.fe
  {
    var best := Modes.Select(modes, w, h, refresh);
    if best >= 0 && blobOk && fbOk { FitView(s.st, modes[best].hdisplay, modes[best].vdisplay); }
  }

  lemma PressFrame(d: WmPolicy.Desk)
    requires DeskOk(d)
    ensures SameFrame(View(d.st.ws), View(WmPolicy.Press(d).st.ws), true)
  {
    hide WmPolicy.Press;
    WmPolicy.PressEffect(d);
    var hit := At(d.st.ws, d.wm.cursorX, d.wm.cursorY);
    if hit >= 0 {
      ViewAt(d.st.ws, hit);
      assert TitleFits(View(d.st.ws)[d.st.ws[hit].id]);
    }
  }

  lemma ReleaseFrame(d: WmPolicy.Desk)
    requires DeskOk(d)
    ensures SameFrame(View(d.st.ws), View(WmPolicy.Release(d).st.ws), !(Snaps(d) && SnapRect(d).value.h < TITLEBAR_H))
  {
    hide WmPolicy.Release;
    ReleaseEffect(d);
  }

  lemma ButtonSurfaces(s: Sys, code: nat, down: bool)
    ensures Step(s, Button(code, down)).fe.surfaces == s.fe.surfaces
  {
    hide WmPolicy.Button, Transport.RoutePointer;
  }

  lemma ButtonFrame(s: Sys, e: Session.Event)
    requires SysOk(s) && e.Button?
    ensures SameFrame(View(s.st.ws), View(Step(s, e).st.ws), !LowSnap(s, e)) && Step(s, e).fe.surfaces == s.fe.surfaces
  {
    hide Step, SysOk, WmPolicy.Press, WmPolicy.Release;
    assert DeskOk(DeskOf(s)) by { Parts(s); }
    ButtonSurfaces(s, e.button, e.pressed);
    Gestures.ButtonDesk(s, e.button, e.pressed);
    if e.button == WmPolicy.BTN_LEFT {
      if e.pressed { PressFrame(DeskOf(s)); } else { ReleaseFrame(DeskOf(s)); }
    }
  }

  lemma MotionSurfaces(s: Sys, e: Session.Event)
    requires Gestures.Moves(e)
    ensures Step(s, e).fe.surfaces == s.fe.surfaces
  {
    hide Transport.RoutePointer, WmPolicy.MotionAbs;
  }

  lemma MotionFrame(s: Sys, e: Session.Event)
    requires SysOk(s) && Gestures.Moves(e)
    ensures SameFrame(View(s.st.ws), View(Step(s, e).st.ws), true) && Step(s, e).fe.surfaces == s.fe.surfaces
  {
    hide Step;
    MotionSurfaces(s, e);
    Gestures.MotionIs(s, e);
    MotionEffect(DeskOf(s), Gestures.TargetX(s, e), Gestures.TargetY(s, e));
  }

  lemma WlSound(s: Sys, r: Wayland.Request)
    requires SysOk(s) && Names(s.fe, r)
    ensures StaysSound(s, WithFront(s, Serve(FrontOf(s), r)), true)
  {
    hide Serve;
    Parts(s);
    ServeChange(FrontOf(s), r);
    ServeKeeps(FrontOf(s), r, s.tp, s.wm.screenW, s.wm.screenH);
    var f := Serve(FrontOf(s), r);
    forall id | id in View(f.st.ws) && !View(f.st.ws)[id].appDecorated && View(f.st.ws)[id].buf.Heap? && HeapClaimed(View(s.st.ws), s.fe)
      ensures Claimed(f.fe, id)
    {
      assert id in Unclaimed(View(f.st.ws), f.fe) ==> id in SysUnclaimed(s);
    }
  }

  lemma StepSound(s: Sys, e: Session.Event)
    requires SysOk(s)
    ensures StaysSound(s, Step(s, e), !LowSnap(s, e))
  {
    hide OnReceive, OnHangup, ApplyMode, Serve, Transport.ExpireFrom, OnButton, OnKey, AfterMotion, OnSync;
    if Enabled(s, e) {
      match e
      case Motion(dx, dy) => MotionFrame(s, e); FrameSound(s, Step(s, e), true);
      case MotionAbs(ax, ay) => MotionFrame(s, e); FrameSound(s, Step(s, e), true);
      case Button(b, pressed) => ButtonFrame(s, e); FrameSound(s, Step(s, e), !LowSnap(s, e));
      case Key(keycode, keysym, pressed, alt) => KeyFrame(s, e); FrameSound(s, Step(s, e), true);
      case Connect(fd, watched) => FrameSound(s, Step(s, e), true);
      case Receive(fd, d, fds, mem, now) => ReceiveFrame(s, fd, d, fds, mem, now); FrameSound(s, Step(s, e), true);
      case Hangup(fd, now) => HangupFrame(s, fd, now); FrameSound(s, Step(s, e), true);
      case Tick(now) => TickFrame(s, now); FrameSound(s, Step(s, e), true);
      case SetMode(modes, w, h, refresh, blobOk, fbOk) => ModeFrame(s, modes, w, h, refresh, blobOk, fbOk); FrameSound(s, Step(s, e), true);
      case Sync => KeyFrame(s, e); FrameSound(s, Step(s, e), true);
      case Wl(r) => WlSound(s, r);
    }
  }

  lemma KeyFrame(s: Sys, e: Session.Event)
    requires SysOk(s) && (e.Key? || e.Sync?)
    ensures SameFrame(View(s.st.ws), View(Step(s, e).st.ws), true) && Step(s, e).fe.surfaces == s.fe.surfaces
  {
    hide OnKey, OnSync;
    if e.Key? { PlainFrame(s, e.keycode, e.keysym, e.pressed, e.alt); } else { SyncFrame(s); }
  }

  lemma PlainFrame(s: Sys, keycode: nat, keysym: nat, pressed: bool, alt: bool)
    requires SysOk(s)
    ensures var t := OnKey(s, keycode, keysym, pressed, alt); View(t.st.ws) == View(s.st.ws) && t.fe.surfaces == s.fe.surfaces
  {
    hide FocusCycle, Transport.RouteKey;
    FocusCycleOk(s.st, 1);
  }

  lemma SyncFrame(s: Sys)
    ensures OnSync(s).st == s.st && OnSync(s).fe.surfaces == s.fe.surfaces
  {
    hide Transport.NotifyFocus, Transport.NotifyGeometry;
  }

  /** No step of the run snaps a window into a work area lower than a title bar. */
  ghost predicate NoLowSnap(s: Sys, es: seq<Session.Event>, n: nat)
    requires n <= |es|
  {
    n == 0 || (NoLowSnap(s, es, n - 1) && !LowSnap(RunTo(s, es, n - 1), es[n - 1]))
  }

  lemma {:induction false} RunSound(s: Sys, es: seq<Session.Event>, n: nat)
    requires SysOk(s) && HeapClaimed(View(s.st.ws), s.fe) && TallIn(View(s.st.ws)) && n <= |es|
    ensures var t := RunTo(s, es, n);
            SysOk(t) && HeapClaimed(View(t.st.ws), t.fe) && (NoLowSnap(s, es, n) ==> TallIn(View(t.st.ws)))
  {
    hide Step, LowSnap, HeapClaimed, TallIn;
    if n > 0 {
      RunSound(s, es, n - 1);
      StepKeeps(RunTo(s, es, n - 1), es[n - 1]);
      StepSound(RunTo(s, es, n - 1), es[n - 1]);
    }
  }

  lemma BootSound(mode: Modes.Mode, demo: bool, garbage: nat)
    requires mode.hdisplay >= 1 && mode.vdisplay >= 1
    ensures var b := Boot(mode, demo, garbage); HeapClaimed(View(b.st.ws), b.fe) && TallIn(View(b.st.ws))
  {
    if demo { SeededOk(mode.hdisplay, mode.vdisplay); }
  }

  // ---- no freed memory -----------------------------------------------------------------------

  /** The window shows nothing, or a mapping that is still live and was made for it, at least as
      long as the window declares, or the current content of the surface that owns it. */
  ghost predicate ShowsLiveMemory(s: Sys, w: Window) {
    match w.buf
    case Null => true
    case Mapping(m) =>
      m in s.tp.kern.live && s.tp.kern.live[m].window == w.id && Books.Extent(w) <= s.tp.kern.live[m].len
    case Heap(h) =>
      exists k :: 0 <= k < |s.fe.surfaces| && s.fe.surfaces[k].serverId == w.id && s.fe.surfaces[k].content == w.buf
  }

  lemma ClaimedShows(s: Sys, id: nat)
    requires SysOk(s) && id in View(s.st.ws) && View(s.st.ws)[id].id == id && Claimed(s.fe, id) && View(s.st.ws)[id].buf.Heap?
    ensures ShowsLiveMemory(s, View(s.st.ws)[id])
  {
    var k :| 0 <= k < |s.fe.surfaces| && s.fe.surfaces[k].serverId == id;
    FocusKnown(s.st);
    assert Linked(View(s.st.ws), s.fe.surfaces[k]);
  }

  lemma LiveMemory(s: Sys, i: nat)
    requires SysOk(s) && HeapClaimed(View(s.st.ws), s.fe) && i < |s.st.ws|
    ensures ShowsLiveMemory(s, s.st.ws[i])
  {
    ViewAt(s.st.ws, i);
    if s.st.ws[i].buf.Heap? { ClaimedShows(s, s.st.ws[i].id); }
  }

  /** In every reachable state no window shows memory that was unmapped or freed. */
  lemma NoFreedMemory(s: Sys, i: nat)
    requires Reachable(s) && i < |s.st.ws|
    ensures ShowsLiveMemory(s, s.st.ws[i])
  {
    hide Step, Boot;
    var mode, demo, garbage, es :| IsRun(s, mode, demo, garbage, es);
    BootOk(mode, demo, garbage);
    BootSound(mode, demo, garbage);
    RunSound(Boot(mode, demo, garbage), es, |es|);
    LiveMemory(s, i);
  }

  // ---- what is read is there -------------------------------------------------------------------

  /** Behind every live mapping and every content block are the bytes it was made with. */
  ghost predicate Backed(s: Sys, mem: Pixels.Memory) {
    && (forall m | m in s.tp.kern.live :: Mapping(m) in mem && |mem[Mapping(m)]| >= s.tp.kern.live[m].len)
    && (forall k | 0 <= k < |s.fe.surfaces| && s.fe.surfaces[k].content.Heap? ::
          var f := s.fe.surfaces[k]; f.content in mem && mem[f.content] == f.pixels)
  }

  /** What is visible of a client's buffer lies within the length the client declared: all that
      is left to the client's honesty. */
  predicate Honest(w: Window) { w.buf.Mapping? ==> Pixels.ReadsWithin(w, Books.Extent(w)) }

  lemma LongerReads(w: Window, a: int, b: int)
    requires Pixels.ReadsWithin(w, a) && a <= b
    ensures Pixels.ReadsWithin(w, b)
  {
  }

  lemma SurfaceReads(s: Sys, mem: Pixels.Memory, k: nat)
    requires SysOk(s) && Backed(s, mem) && k < |s.fe.surfaces| && s.fe.surfaces[k].serverId != 0
    ensures var id := s.fe.surfaces[k].serverId; id in View(s.st.ws) && Pixels.Readable(View(s.st.ws)[id], mem)
  {
    var f := s.fe.surfaces[k];
    assert Linked(View(s.st.ws), f) && ContentOk(f, s.fe.heap);
    var w := View(s.st.ws)[f.serverId];
    Pixels.RowsFit(w);
    assert w.bufStride * w.bufH == 4 * f.cw * f.ch;
    LongerReads(w, w.bufStride * w.bufH, |mem[f.content]|);
  }

  lemma WindowReads(s: Sys, mem: Pixels.Memory, i: nat)
    requires SysOk(s) && HeapClaimed(View(s.st.ws), s.fe) && Backed(s, mem) && i < |s.st.ws| && Honest(s.st.ws[i])
    ensures Pixels.Readable(s.st.ws[i], mem)
  {
    var w := s.st.ws[i];
    LiveMemory(s, i);
    ViewAt(s.st.ws, i);
    match w.buf
    case Null =>
    case Mapping(m) => LongerReads(w, Books.Extent(w), |mem[w.buf]|);
    case Heap(h) =>
      var k :| 0 <= k < |s.fe.surfaces| && s.fe.surfaces[k].serverId == w.id && s.fe.surfaces[k].content == w.buf;
      FocusKnown(s.st);
      SurfaceReads(s, mem, k);
  }

  // ---- what you see is what you click -------------------------------------------------------------

  /** What you see is what you click: after any run in which no window was snapped into a sliver,
      every pixel the compositor reads is there, and painting the windows from the bottom to the
      top shows, at every point, the colour that the window a click there would hit has there. */
  lemma SeeWhatYouClick(mode: Modes.Mode, demo: bool, garbage: nat, es: seq<Session.Event>, mem: Pixels.Memory, x: int, y: int)
    requires mode.hdisplay >= 1 && mode.vdisplay >= 1 && NoLowSnap(Boot(mode, demo, garbage), es, |es|)
    requires Backed(Run(Boot(mode, demo, garbage), es), mem)
    requires forall i | 0 <= i < |Run(Boot(mode, demo, garbage), es).st.ws| :: Honest(Run(Boot(mode, demo, garbage), es).st.ws[i])
    ensures var st := Run(Boot(mode, demo, garbage), es).st;
            && Pixels.AllReadable(st.ws, mem) && Pixels.TitlesTall(st.ws)
            && Pixels.PaintedUpTo(st, mem, |st.ws|, x, y) == Pixels.ScreenColor(st, mem, x, y)
  {
    hide Step, LowSnap, Boot, Backed, HeapClaimed;
    var b := Boot(mode, demo, garbage);
    BootOk(mode, demo, garbage);
    BootSound(mode, demo, garbage);
    RunSound(b, es, |es|);
    var t := Run(b, es);
    forall i | 0 <= i < |t.st.ws|
      ensures Pixels.Readable(t.st.ws[i], mem)
      ensures !(t.st.ws[i].mapped && HasSsd(t.st.ws[i]) && t.st.ws[i].w >= 1 && t.st.ws[i].h < TITLEBAR_H)
    {
      WindowReads(t, mem, i);
      ViewAt(t.st.ws, i);
    }
    Pixels.PaintedIsHit(t.st, mem, |t.st.ws|, x, y);
  }

  /** In full: after such a run the highest window over a point determines its colour, and the painter's
      loop, which goes from the bottom to the top, leaves exactly that. */
  lemma FrameSays(mode: Modes.Mode, demo: bool, garbage: nat, es: seq<Session.Event>, mem: Pixels.Memory, i: nat, x: int, y: int)
    requires mode.hdisplay >= 1 && mode.vdisplay >= 1 && NoLowSnap(Boot(mode, demo, garbage), es, |es|)
    requires Backed(Run(Boot(mode, demo, garbage), es), mem)
    requires forall i | 0 <= i < |Run(Boot(mode, demo, garbage), es).st.ws| :: Honest(Run(Boot(mode, demo, garbage), es).st.ws[i])
    requires Pixels.Topmost(Run(Boot(mode, demo, garbage), es).st.ws, i, x, y)
    ensures var st := Run(Boot(mode, demo, garbage), es).st;
            Pixels.AllReadable(st.ws, mem) &&
            Pixels.IsColorOf(Pixels.PaintedUpTo(st, mem, |st.ws|, x, y), st.ws[i], st.focus, mem, x, y)
  {
    hide Step, Boot, Backed, NoLowSnap, Pixels.IsColorOf, Pixels.PaintedUpTo, Pixels.ScreenColor;
    SeeWhatYouClick(mode, demo, garbage, es, mem, x, y);
    Pixels.ScreenSays(Run(Boot(mode, demo, garbage), es).st, mem, x, y);
  }
}
