/** The snap round trip on a running server: a window snapped to an edge remembers its floating
    size until it is taken by its title bar again, and then has it back. */
module Snaps {
  import opened Windows
  import opened WmPolicy
  import opened WmProofs
  import opened StackSteps
  import opened Session
  import opened SessionProofs
  import opened Gestures
  import ZOrder

  /** The window is snapped and remembers this floating size. */
  ghost predicate Saved(st: Stack, id: nat, w: int, h: int) {
    var v := View(st.ws);
    id in v && v[id].snapped && v[id].savedW == w && v[id].savedH == h
  }

  /** A drag never holds a snapped window. */
  lemma DraggedFloats(s: Sys)
    requires SysOk(s) && s.wm.moving && Live(s.st.ws, s.wm.moveId)
    ensures !s.st.ws[IndexOf(s.st.ws, s.wm.moveId)].snapped
  {
    ViewLive(s.st.ws, s.wm.moveId);
  }

  /** The event is a left press that grabs this window. */
  predicate Takes(s: Sys, e: Event, id: nat) {
    e == Button(BTN_LEFT, true) && PressGrabs(s) && s.st.ws[At(s.st.ws, s.wm.cursorX, s.wm.cursorY)].id == id
  }

  /** No id comes back. */
  ghost predicate NoReuse(a: Stack, b: Stack) {
    a.nextId <= b.nextId && forall id | id in View(b.ws) && id < a.nextId :: id in View(a.ws)
  }

  lemma PressSaves(d: Desk, id: nat, w: int, h: int)
    requires Ok(d.st) && ZOrder.Ordered(d.st)
    ensures NoReuse(d.st, Press(d).st)
    ensures var hit := At(d.st.ws, d.wm.cursorX, d.wm.cursorY);
            Saved(d.st, id, w, h) && !(hit >= 0 && Grabs(d.st.ws[hit], d.wm.cursorY) && d.st.ws[hit].id == id) ==>
              Saved(Press(d).st, id, w, h)
  {
    hide Press;
    WmPolicy.PressEffect(d);
    PressOrdered(d);
  }

  lemma ReleaseKeepsSaved(d: Desk, id: nat, w: int, h: int)
    requires Ok(d.st) && ZOrder.Ordered(d.st)
    ensures NoReuse(d.st, Release(d).st)
    ensures Saved(d.st, id, w, h) ==> Saved(Release(d).st, id, w, h)
  {
    hide Release;
    ReleaseEffect(d);
  }

  lemma ButtonSaves(s: Sys, e: Event, id: nat, w: int, h: int)
    requires SysOk(s) && LeftButton(e)
    ensures NoReuse(s.st, Step(s, e).st)
    ensures Saved(s.st, id, w, h) && !Takes(s, e, id) ==> Saved(Step(s, e).st, id, w, h)
  {
    hide Step, Press, Release;
    ButtonDesk(s, e.button, e.pressed);
    if e.pressed { PressSaves(DeskOf(s), id, w, h); } else { ReleaseKeepsSaved(DeskOf(s), id, w, h); }
  }

  lemma MotionSaves(s: Sys, e: Event, id: nat, w: int, h: int)
    requires SysOk(s) && Moves(e)
    ensures NoReuse(s.st, Step(s, e).st)
    ensures Saved(s.st, id, w, h) ==> Saved(Step(s, e).st, id, w, h)
  {
    hide Step;
    MotionIs(s, e);
    MotionEffect(DeskOf(s), TargetX(s, e), TargetY(s, e));
  }

  /** As long as a snapped window is there and is not grabbed, it stays snapped and keeps its
      floating size, whatever its client asks for. */
  lemma StepSaves(s: Sys, e: Event, id: nat, w: int, h: int)
    requires SysOk(s) && Saved(s.st, id, w, h) && id < s.st.nextId && !Takes(s, e, id)
    ensures NoReuse(s.st, Step(s, e).st)
    ensures id in View(Step(s, e).st.ws) ==> Saved(Step(s, e).st, id, w, h)
  {
    hide Step, Takes;
    if Moves(e) { MotionSaves(s, e, id, w, h); }
    else if LeftButton(e) { ButtonSaves(s, e, id, w, h); }
    else { QuietStep(s, e); }
  }

  lemma StepNoReuse(s: Sys, e: Event)
    requires SysOk(s)
    ensures NoReuse(s.st, Step(s, e).st)
  {
    hide Step;
    if Moves(e) { MotionSaves(s, e, 0, 0, 0); }
    else if LeftButton(e) { ButtonSaves(s, e, 0, 0, 0); }
    else { QuietStep(s, e); }
  }

  predicate Untaken(s: Sys, es: seq<Event>, n: nat, id: nat)
    requires n <= |es|
  {
    n == 0 || (Untaken(s, es, n - 1, id) && !Takes(RunTo(s, es, n - 1), es[n - 1], id))
  }

  /** A window that is gone never comes back, in any run. */
  lemma {:induction false} RunNoReuse(s: Sys, es: seq<Event>, n: nat)
    requires SysOk(s) && n <= |es|
    ensures SysOk(RunTo(s, es, n)) && NoReuse(s.st, RunTo(s, es, n).st)
  {
    hide Step;
    if n > 0 {
      RunNoReuse(s, es, n - 1);
      StepKeeps(RunTo(s, es, n - 1), es[n - 1]);
      StepNoReuse(RunTo(s, es, n - 1), es[n - 1]);
    }
  }

  lemma {:induction false} RunSaves(s: Sys, es: seq<Event>, n: nat, id: nat, w: int, h: int)
    requires SysOk(s) && Saved(s.st, id, w, h) && n <= |es| && Untaken(s, es, n, id)
    ensures id in View(RunTo(s, es, n).st.ws) ==> Saved(RunTo(s, es, n).st, id, w, h)
  {
    hide Step, Takes;
    if n > 0 {
      var u := RunTo(s, es, n - 1);
      RunNoReuse(s, es, n - 1);
      RunSaves(s, es, n - 1, id, w, h);
      StepNoReuse(u, es[n - 1]);
      ViewIds(s.st);
      if id in View(u.st.ws) { StepSaves(u, es[n - 1], id, w, h); }
    }
  }

  /** The window a press took: floating, of this size, with the cursor in its title bar. */
  ghost predicate TakenAt(s: Sys, id: nat, w: int, h: int) {
    var v := View(s.st.ws);
    && id in v && !v[id].snapped && v[id].w == w && v[id].h == h
    && Contains(v[id], s.wm.cursorX, s.wm.cursorY) && s.wm.cursorY - v[id].y < TITLEBAR_H
    && s.wm.moving && s.wm.moveId == id
  }

  lemma DeskTakeRestores(d: Desk, id: nat, w: int, h: int)
    requires DeskOk(d) && Saved(d.st, id, w, h)
    requires var i := At(d.st.ws, d.wm.cursorX, d.wm.cursorY); i >= 0 && Grabs(d.st.ws[i], d.wm.cursorY) && d.st.ws[i].id == id
    ensures var v := View(Press(d).st.ws);
            && id in v && !v[id].snapped && v[id].w == w && v[id].h == h
            && Contains(v[id], d.wm.cursorX, d.wm.cursorY) && d.wm.cursorY - v[id].y < TITLEBAR_H
            && CursorKept(d.wm, Press(d).wm) && Press(d).wm.moving && Press(d).wm.moveId == id
  {
    hide Press;
    ViewAt(d.st.ws, At(d.st.ws, d.wm.cursorX, d.wm.cursorY));
    GrabRestores(d);
    WmPolicy.PressEffect(d);
  }

  lemma TakeRestores(s: Sys, id: nat, w: int, h: int)
    requires SysOk(s) && Saved(s.st, id, w, h) && Takes(s, Button(BTN_LEFT, true), id)
    ensures TakenAt(Step(s, Button(BTN_LEFT, true)), id, w, h)
  {
    hide Press;
    Parts(s);
    DeskTakeRestores(DeskOf(s), id, w, h);
  }

  lemma ReleaseSaves(s: Sys)
    requires SysOk(s) && Snaps(DeskOf(s))
    ensures var w := View(s.st.ws)[s.wm.moveId]; Saved(Step(s, Button(BTN_LEFT, false)).st, s.wm.moveId, w.w, w.h)
  {
    Parts(s);
    ReleaseSnaps(DeskOf(s));
  }

  /** Snap round trip: a drag ends at an edge and snaps its window; anything happens, except that
      the window is grabbed; then a press on its title bar takes it, and it has exactly the size
      it had before it snapped, under the cursor. */
  lemma SnapRoundTrip(s: Sys, es: seq<Event>)
    requires SysOk(s) && Snaps(DeskOf(s))
    requires var a := Step(s, Button(BTN_LEFT, false));
             Untaken(a, es, |es|, s.wm.moveId) && Takes(Run(a, es), Button(BTN_LEFT, true), s.wm.moveId)
    ensures var w := View(s.st.ws)[s.wm.moveId];
            TakenAt(Step(Run(Step(s, Button(BTN_LEFT, false)), es), Button(BTN_LEFT, true)), s.wm.moveId, w.w, w.h)
  {
    hide Act;
    var id, a := s.wm.moveId, Step(s, Button(BTN_LEFT, false));
    var w := View(s.st.ws)[id];
    var b := Run(a, es);
    StepKeeps(s, Button(BTN_LEFT, false));
    ReleaseSaves(s);
    RunNoReuse(a, es, |es|);
    RunSaves(a, es, |es|, id, w.w, w.h);
    ViewAt(b.st.ws, At(b.st.ws, b.wm.cursorX, b.wm.cursorY));
    TakeRestores(b, id, w.w, w.h);
  }
}
