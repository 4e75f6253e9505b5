/** Who is told the size the window manager gave a window. The end of a turn is meant to tell the
    owner of a window that was snapped or taken out of a snap; over any run it never does. */
module Resizes {
  import opened Windows
  import opened WmPolicy
  import opened WmProofs
  import opened Transport
  import opened SceneBasics
  import opened StackSteps
  import opened Session
  import opened SessionProofs
  import opened SessionBoot
  import opened Gestures
  import Clicks
  import Contents
  import Entries
  import FocusReports
  import Modes
  import Requests
  import SceneProofs
  import Wayland

  // ---- what the end of a turn sends ------------------------------------------------------------

  lemma GeometrySends(st: Stack, tp: Tp, id: nat, c: nat, j: nat)
    requires FindOwner(tp.clients, id) == Owner(c, j) && IndexOf(st.ws, id) >= 0
    ensures var w := st.ws[IndexOf(st.ws, id)];
            NotifyGeometry(st, tp, id) ==
            tp.(clients := SendTo(tp.clients, c, Configure(tp.clients[c].wins[j].wid, w.x, w.y, AsU32(w.w), AsU32(w.h))))
  {
  }

  lemma NobodyTold(st: Stack, tp: Tp, id: nat)
    requires FindOwner(tp.clients, id).NoOwner?
    ensures NotifyGeometry(st, tp, id) == tp
  {
  }

  lemma SyncIs(s: Sys)
    ensures var t, u := Step(s, Sync), NotifyFocus(s.tp, s.st.focus);
            && t.st == s.st && t.wm.reconfigured == 0
            && t.tp == if s.wm.reconfigured == 0 then u else NotifyGeometry(s.st, u, s.wm.reconfigured)
  {
    hide NotifyFocus, NotifyGeometry, Wayland.KeyboardFocus;
  }

  lemma SameOwner(cs: seq<Client>, ds: seq<Client>, id: nat)
    requires OnlySent(cs, ds)
    ensures FindOwner(ds, id) == FindOwner(cs, id)
  {
    FocusReports.OwnerSame(cs, ds, id, 0);
  }

  /** The end of a turn says nothing but what there is to say about focus. */
  predicate OnlyFocusSaid(s: Sys) { Step(s, Sync).tp == NotifyFocus(s.tp, s.st.focus) }

  /** In any state: the end of the turn tells a rectangle if and only if a connected native client
      holds the marked window; then that client is told the rectangle it has now, once. */
  lemma RectangleTold(s: Sys)
    requires SysOk(s)
    ensures var o, t, ds := FindOwner(s.tp.clients, s.wm.reconfigured), Step(s, Sync), NotifyFocus(s.tp, s.st.focus).clients;
            && (OnlyFocusSaid(s) <==> o.NoOwner?)
            && (o.Owner? ==>
                  var i := IndexOf(s.st.ws, s.wm.reconfigured);
                  && i >= 0 && o.client < |ds|
                  && var w := s.st.ws[i];
                     t.tp.clients == SendTo(ds, o.client,
                       Configure(s.tp.clients[o.client].wins[o.slot].wid, w.x, w.y, AsU32(w.w), AsU32(w.h))))
  {
    hide NotifyFocus, NotifyGeometry, FindOwner, SysOk, Step, SendTo;
    var u, o := NotifyFocus(s.tp, s.st.focus), FindOwner(s.tp.clients, s.wm.reconfigured);
    Requests.NotifySent(s.tp, s.st.focus);
    SameOwner(s.tp.clients, u.clients, s.wm.reconfigured);
    SyncIs(s);
    if o.Owner? {
      assert SceneProofs.SceneOk(SceneOf(s)) by { Parts(s); }
      SceneProofs.HeldWindow(SceneOf(s), o.client, o.slot);
      GeometrySends(s.st, u, s.wm.reconfigured, o.client, o.slot);
      var w := s.st.ws[IndexOf(s.st.ws, s.wm.reconfigured)];
      Clicks.SentMore(u, o.client, Configure(u.clients[o.client].wins[o.slot].wid, w.x, w.y, AsU32(w.w), AsU32(w.h)));
    } else {
      NobodyTold(s.st, u, s.wm.reconfigured);
    }
  }

  // ---- which windows are ever marked ------------------------------------------------------------

  /** The mark is none, or names a window that is not native, or one that is gone for good. */
  ghost predicate Foreign(v: map<nat, Window>, mark: nat, nextId: nat) {
    mark == 0 || (mark < nextId && (mark in v ==> !v[mark].appDecorated))
  }

  /** The event snaps a window or takes one out of a snap. */
  ghost predicate Marks(s: Sys, e: Session.Event) {
    || (e == Button(BTN_LEFT, false) && Snaps(DeskOf(s)))
    || (e == Button(BTN_LEFT, true) && PressGrabs(s) && s.st.ws[At(s.st.ws, s.wm.cursorX, s.wm.cursorY)].snapped)
  }

  /** Existing windows keep their owners' kind; ids only grow. */
  ghost predicate SameKind(a: Stack, b: Stack) {
    a.nextId <= b.nextId && forall id | id in View(b.ws) && id < a.nextId ::
      id in View(a.ws) && View(b.ws)[id].appDecorated == View(a.ws)[id].appDecorated
  }

  lemma PressMark(s: Sys)
    requires SysOk(s)
    ensures var t, e := Step(s, Button(BTN_LEFT, true)), Button(BTN_LEFT, true);
            && SameKind(s.st, t.st)
            && (Marks(s, e) ==> Foreign(View(t.st.ws), t.wm.reconfigured, t.st.nextId))
            && (!Marks(s, e) ==> t.wm.reconfigured == s.wm.reconfigured)
  {
    hide Step, WmPolicy.Press;
    assert DeskOk(DeskOf(s)) by { Parts(s); }
    ButtonDesk(s, BTN_LEFT, true);
    WmPolicy.PressEffect(DeskOf(s));
    ButtonOwnership(DeskOf(s), BTN_LEFT, true);
    ViewIds(s.st);
  }

  lemma ReleaseMark(s: Sys)
    requires SysOk(s)
    ensures var t, e := Step(s, Button(BTN_LEFT, false)), Button(BTN_LEFT, false);
            && SameKind(s.st, t.st)
            && (Marks(s, e) ==> Foreign(View(t.st.ws), t.wm.reconfigured, t.st.nextId))
            && (!Marks(s, e) ==> t.wm.reconfigured == s.wm.reconfigured)
  {
    hide Step, WmPolicy.Release;
    assert DeskOk(DeskOf(s)) by { Parts(s); }
    ButtonDesk(s, BTN_LEFT, false);
    ReleaseEffect(DeskOf(s));
    ButtonOwnership(DeskOf(s), BTN_LEFT, false);
    ViewIds(s.st);
  }

  lemma MotionMark(s: Sys, e: Session.Event)
    requires SysOk(s) && Moves(e)
    ensures var t := Step(s, e); SameKind(s.st, t.st) && t.wm.reconfigured == s.wm.reconfigured
  {
    hide Step, WmPolicy.MotionAbs;
    assert DeskOk(DeskOf(s)) by { Parts(s); }
    MotionIs(s, e);
    MotionEffect(DeskOf(s), TargetX(s, e), TargetY(s, e));
    MotionOwnership(DeskOf(s), TargetX(s, e), TargetY(s, e));
    ViewIds(s.st);
  }

  lemma QuietMark(s: Sys, e: Session.Event)
    requires SysOk(s) && !Moves(e) && !LeftButton(e)
    ensures var t := Step(s, e); SameKind(s.st, t.st) && t.wm.reconfigured == if e.Sync? then 0 else s.wm.reconfigured
  {
    hide Step;
    QuietStep(s, e);
    QuietManager(s, e);
  }

  lemma QuietManager(s: Sys, e: Session.Event)
    requires !Moves(e) && !LeftButton(e)
    ensures Step(s, e).wm.reconfigured == if e.Sync? then 0 else s.wm.reconfigured
  {
    hide FitFrom, Transport.Receive, Drop, ExpireFrom, RouteKey, RoutePointer, NotifyFocus, NotifyGeometry,
         Wayland.Serve, FocusCycle;
  }

  /** What a step does to the mark. */
  lemma StepMark(s: Sys, e: Session.Event)
    requires SysOk(s)
    ensures var t := Step(s, e);
            && SameKind(s.st, t.st)
            && (e.Sync? || Marks(s, e) ==> Foreign(View(t.st.ws), t.wm.reconfigured, t.st.nextId))
            && (!e.Sync? && !Marks(s, e) ==> t.wm.reconfigured == s.wm.reconfigured)
  {
    hide Step;
    if Moves(e) { MotionMark(s, e); }
    else if LeftButton(e) { if e.pressed { PressMark(s); } else { ReleaseMark(s); } }
    else { QuietMark(s, e); }
  }

  lemma ForeignUnowned(s: Sys)
    requires SysOk(s) && Foreign(View(s.st.ws), s.wm.reconfigured, s.st.nextId)
    ensures FindOwner(s.tp.clients, s.wm.reconfigured).NoOwner?
  {
    var o := FindOwner(s.tp.clients, s.wm.reconfigured);
    if o.Owner? { Clicks.OwnedIsNative(s, s.wm.reconfigured, o.client, o.slot); }
  }

  // ---- over runs -----------------------------------------------------------------------------------

  /** No turn has ended, and nothing was snapped or taken out of a snap. */
  ghost predicate Unmarked(s: Sys, es: seq<Session.Event>, n: nat)
    requires n <= |es|
  {
    n == 0 || (Unmarked(s, es, n - 1) && !es[n - 1].Sync? && !Marks(RunTo(s, es, n - 1), es[n - 1]))
  }

  lemma {:induction false} MarkOverRun(s: Sys, es: seq<Session.Event>, n: nat)
    requires SysOk(s) && n <= |es|
    ensures var t := RunTo(s, es, n);
            && SysOk(t)
            && (if Unmarked(s, es, n) then t.wm.reconfigured == s.wm.reconfigured
                else Foreign(View(t.st.ws), t.wm.reconfigured, t.st.nextId))
  {
    hide Step, SysOk, Marks;
    if n > 0 {
      MarkOverRun(s, es, n - 1);
      StepKeeps(RunTo(s, es, n - 1), es[n - 1]);
      StepMark(RunTo(s, es, n - 1), es[n - 1]);
    }
  }

  /** Over any run: the end of a turn tells a client a rectangle if and only if no turn has ended and
      nothing was snapped yet, and the number boot found in the mark is that of a window which a
      connected client holds by now. A window the window manager did resize is never reported. */
  lemma RectangleToldIff(mode: Modes.Mode, demo: bool, garbage: nat, es: seq<Session.Event>, n: nat)
    requires mode.hdisplay >= 1 && mode.vdisplay >= 1 && n <= |es|
    ensures var b := Boot(mode, demo, garbage);
            var s := RunTo(b, es, n);
            !OnlyFocusSaid(s) <==> Unmarked(b, es, n) && FindOwner(s.tp.clients, garbage).Owner?
  {
    hide Step, Boot, SysOk, Unmarked, OnlyFocusSaid, FindOwner;
    var b := Boot(mode, demo, garbage);
    BootOk(mode, demo, garbage);
    BootMark(mode, demo, garbage);
    MarkOverRun(b, es, n);
    var s := RunTo(b, es, n);
    RectangleTold(s);
    if !Unmarked(b, es, n) { ForeignUnowned(s); }
  }

  lemma BootMark(mode: Modes.Mode, demo: bool, garbage: nat)
    ensures Boot(mode, demo, garbage).wm.reconfigured == garbage
  {
  }

  /** So after a turn has ended, from whatever state, no end of a turn tells a rectangle. */
  lemma NeverAfterTurn(s: Sys, es: seq<Session.Event>, n: nat)
    requires SysOk(s) && n <= |es|
    ensures OnlyFocusSaid(RunTo(Step(s, Sync), es, n))
  {
    hide Step, SysOk, OnlyFocusSaid, FindOwner, Unmarked;
    var a := Step(s, Sync);
    StepKeeps(s, Sync);
    SyncIs(s);
    MarkOverRun(a, es, n);
    ForeignUnowned(RunTo(a, es, n));
    RectangleTold(RunTo(a, es, n));
  }

  // ---- surfaces --------------------------------------------------------------------------------------

  /** A surface is told a size at its first commit only, and that size is 0x0: choose your own. */
  predicate NoSizes(sent: seq<Wayland.Sent>) {
    forall k | 0 <= k < |sent| && sent[k].Configured? :: sent[k] == Wayland.Configured(0, 0)
  }

  lemma StepSizes(s: Sys, e: Session.Event)
    requires NoSizes(s.fe.sent)
    ensures NoSizes(Step(s, e).fe.sent)
  {
    hide Step, Wayland.KeyboardFocus, Wayland.PointerMotion;
    if Moves(e) {
      Entries.MotionTells(s, e);
      PointerSizes(Step(s, e).st.ws, s.fe, Step(s, e).wm.cursorX, Step(s, e).wm.cursorY);
    } else if e.Sync? {
      Entries.SyncTells(s);
      KeyboardSizes(s.fe, s.st.focus);
    } else if e.Button? || e.Key? {
      var more := Entries.InputTells(s, e);
    } else if e.Wl? {
      if Wayland.Names(s.fe, e.request) { ServeSizes(FrontOf(s), e.request); Contents.WlIs(s, e.request); }
      else { Entries.NotNamed(s, e.request); }
    } else {
      Entries.SilentFront(s, e);
    }
  }

  lemma PointerSizes(ws: seq<Window>, fe: Wayland.Frontend, gx: int, gy: int)
    requires NoSizes(fe.sent)
    ensures NoSizes(Wayland.PointerMotion(ws, fe, gx, gy).sent)
  {
  }

  lemma KeyboardSizes(fe: Wayland.Frontend, id: nat)
    requires NoSizes(fe.sent)
    ensures NoSizes(Wayland.KeyboardFocus(fe, id).sent)
  {
  }

  lemma ServeSizes(f: Wayland.Front, r: Wayland.Request)
    requires Wayland.Names(f.fe, r) && NoSizes(f.fe.sent)
    ensures NoSizes(Wayland.Serve(f, r).fe.sent)
  {
    hide Wayland.MapOrUpdate, Destroy, Wayland.CopyShm;
    if r.CommitSurface? { CommitNoSizes(f, r.k, r.allocOk); }
  }

  lemma CommitNoSizes(f: Wayland.Front, k: nat, allocOk: bool)
    requires k < |f.fe.surfaces| && NoSizes(f.fe.sent)
    ensures NoSizes(Wayland.Commit(f, k, allocOk).fe.sent)
  {
    hide Wayland.MapOrUpdate, Destroy, Wayland.Packed;
    var s := f.fe.surfaces[k];
    if !(s.xdgSurface && !s.configured) && s.attached && s.pending.Attached? && s.pending.buffer.Shm? {
      var taken := f.(fe := Wayland.SetSurface(f.fe, k, s.(attached := false, pending := Wayland.NoBuffer)));
      Entries.MapSilent(taken.(fe := Wayland.CopyShm(taken.fe, k, s.pending.buffer, allocOk)), k);
    }
  }

  /** Over any run no surface is ever told a size, so none hears of a snap. */
  lemma {:induction false} SurfacesUnsized(mode: Modes.Mode, demo: bool, garbage: nat, es: seq<Session.Event>, n: nat)
    requires n <= |es|
    ensures NoSizes(RunTo(Boot(mode, demo, garbage), es, n).fe.sent)
  {
    hide Step, NoSizes;
    if n > 0 {
      SurfacesUnsized(mode, demo, garbage, es, n - 1);
      StepSizes(RunTo(Boot(mode, demo, garbage), es, n - 1), es[n - 1]);
    } else {
      BootSizes(mode, demo, garbage);
    }
  }

  lemma BootSizes(mode: Modes.Mode, demo: bool, garbage: nat)
    ensures NoSizes(Boot(mode, demo, garbage).fe.sent)
  {
  }
}
