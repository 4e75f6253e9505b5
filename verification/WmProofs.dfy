/** What the window manager keeps and promises, one input event at a time. */
module WmProofs {
  import opened Windows
  import opened ZOrder
  import opened WmPolicy

  // ---- invariants --------------------------------------------------------

  ghost predicate ScreenOk(wm: Wm) {
    wm.screenW >= 1 && wm.screenH >= 1 && 0 <= wm.cursorX < wm.screenW && 0 <= wm.cursorY < wm.screenH
  }

  /** Every wallpaper covers exactly the screen. */
  ghost predicate Wallpaper(v: map<nat, Window>, sw: int, sh: int) {
    forall id | id in v && v[id].role.Desktop? ::
      v[id].x == 0 && v[id].y == 0 && v[id].w == sw && v[id].h == sh
  }

  /** The floating size of a window with a server title bar shows at least that title bar. */
  ghost predicate TitleFits(w: Window) {
    HasSsd(w) ==> if w.snapped then w.savedW >= 1 && w.savedH >= TITLEBAR_H else w.w >= 1 && w.h >= TITLEBAR_H
  }

  ghost predicate TitlesFit(v: map<nat, Window>) { forall id | id in v :: TitleFits(v[id]) }

  /** A drag holds a title bar of a floating window, or the id of a window that is gone for good. */
  ghost predicate GrabOk(v: map<nat, Window>, wm: Wm, nextId: nat) {
    wm.moving ==> wm.moveId < nextId && (wm.moveId in v ==> HasSsd(v[wm.moveId]) && !v[wm.moveId].snapped)
  }

  ghost predicate DeskOk(d: Desk) {
    && Ok(d.st) && Ordered(d.st)
    && ScreenOk(d.wm)
    && Wallpaper(View(d.st.ws), d.wm.screenW, d.wm.screenH)
    && TitlesFit(View(d.st.ws))
    && GrabOk(View(d.st.ws), d.wm, d.st.nextId)
  }

  // ---- effects on the view and the order ----------------------------------

  /** Rewriting one window's geometry, content or snap state. */
  lemma PutKeeps(s: Stack, i: nat, w: Window)
    requires Ok(s) && Ordered(s) && i < |s.ws|
    requires w.id == s.ws[i].id && w.role == s.ws[i].role && w.mapped == s.ws[i].mapped
    ensures var r := s.(ws := s.ws[i := w]); Ok(r) && Ordered(r) && View(r.ws) == View(s.ws)[w.id := w]
  {
    PutOk(s, i, w);
    ShapeOrdered(s, s.ws[i := w]);
  }

  ghost function Relocated(v: map<nat, Window>, id: nat, x: int, y: int): map<nat, Window> {
    if id in v then v[id := v[id].(x := x, y := y)] else v
  }

  lemma MoveKeeps(s: Stack, id: nat, x: int, y: int)
    requires Ok(s) && Ordered(s)
    ensures var r := MoveTo(s, id, x, y);
            Ok(r) && Ordered(r) && SameHeads(s, r) && View(r.ws) == Relocated(View(s.ws), id, x, y)
  {
    ViewLive(s.ws, id);
    var i := IndexOf(s.ws, id);
    if i >= 0 { PutKeeps(s, i, s.ws[i].(x := x, y := y)); }
  }

  function CursorAt(wm: Wm, ax: int, ay: int): Wm {
    wm.(cursorX := Clamp(ax, 0, wm.screenW - 1), cursorY := Clamp(ay, 0, wm.screenH - 1))
  }

  /** The windows after a drag step: only the grabbed one moves. */
  ghost function Dragged(v: map<nat, Window>, wm: Wm): map<nat, Window> {
    if wm.moving then Relocated(v, wm.moveId, wm.cursorX - wm.grabDx, wm.cursorY - wm.grabDy) else v
  }

  ghost predicate SameHeads(a: Stack, b: Stack) { a.focus == b.focus && a.nextId == b.nextId }

  /** The conclusion of MoveKeeps, for the stack a drag step leaves. */
  ghost predicate DragDone(d: Desk, r: Stack) {
    Ok(r) && Ordered(r) && SameHeads(d.st, r) && View(r.ws) == Dragged(View(d.st.ws), d.wm)
  }

  lemma DragEffect(d: Desk)
    requires Ok(d.st) && Ordered(d.st)
    ensures DragDone(d, DragGrabbed(d).st) && DragGrabbed(d).wm == d.wm
  {
    if d.wm.moving {
      var x, y := d.wm.cursorX - d.wm.grabDx, d.wm.cursorY - d.wm.grabDy;
      MoveKeeps(d.st, d.wm.moveId, x, y);
      assert DragDone(d, MoveTo(d.st, d.wm.moveId, x, y));
    }
  }

  lemma MotionEffect(d: Desk, ax: int, ay: int)
    requires Ok(d.st) && Ordered(d.st)
    ensures var r := MotionAbs(d, ax, ay);
            && Ok(r.st) && Ordered(r.st) && SameHeads(d.st, r.st)
            && r.wm == CursorAt(d.wm, ax, ay)
            && View(r.st.ws) == Dragged(View(d.st.ws), r.wm)
  {
    DragEffect(d.(wm := CursorAt(d.wm, ax, ay)));
  }

  function SnapRect(d: Desk): Option<Rect> {
    SnapTarget(d.wm, WorkArea(d.st.ws, d.wm.screenW, d.wm.screenH))
  }

  /** Does a release now snap the dragged window? */
  ghost predicate Snaps(d: Desk) {
    var v := View(d.st.ws);
    d.wm.moving && d.wm.moveId in v && HasSsd(v[d.wm.moveId]) && SnapRect(d).Some?
  }

  lemma SnapEffect(d: Desk, id: nat)
    requires Ok(d.st) && Ordered(d.st)
    ensures var r, v := SnapOnRelease(d, id), View(d.st.ws);
            && Ok(r.st) && Ordered(r.st) && SameHeads(d.st, r.st)
            && if id in v && HasSsd(v[id]) && SnapRect(d).Some?
               then View(r.st.ws) == v[id := Snapped(v[id], SnapRect(d).value)] && r.wm == d.wm.(reconfigured := id)
               else r == d
  {
    ViewLive(d.st.ws, id);
    var i := IndexOf(d.st.ws, id);
    if i >= 0 && SnapRect(d).Some? {
      PutKeeps(d.st, i, Snapped(d.st.ws[i], SnapRect(d).value));
    }
  }

  /** A release ends the drag; it snaps exactly the dragged window, if the cursor is at an edge. */
  lemma ReleaseEffect(d: Desk)
    requires Ok(d.st) && Ordered(d.st)
    ensures var r, v, id := Release(d), View(d.st.ws), d.wm.moveId;
            && Ok(r.st) && Ordered(r.st) && SameHeads(d.st, r.st)
            && r.wm == (if d.wm.moving then d.wm.(moving := false, moveId := 0) else d.wm)
                       .(reconfigured := if Snaps(d) then id else d.wm.reconfigured)
            && View(r.st.ws) == if Snaps(d) then v[id := Snapped(v[id], SnapRect(d).value)] else v
  {
    if d.wm.moving {
      SnapEffect(d.(wm := d.wm.(moving := false, moveId := 0)), d.wm.moveId);
    }
  }

  lemma GrabOrdered(d: Desk, i: nat)
    requires Ordered(d.st) && i < |d.st.ws|
    ensures Ordered(Grab(d, i).st) && Grab(d, i).st.nextId == d.st.nextId
  {
    ShapeOrdered(d.st, d.st.ws[i := Grabbed(d.st.ws[i], d.wm.cursorX, d.wm.cursorY)]);
  }

  lemma PressOrdered(d: Desk)
    requires Ok(d.st) && Ordered(d.st)
    ensures Ordered(Press(d).st) && Press(d).st.nextId == d.st.nextId
  {
    var f, i := PressIs(d);
    var hit := At(d.st.ws, d.wm.cursorX, d.wm.cursorY);
    if hit >= 0 {
      FocusOrdered(d.st, d.st.ws[hit].id);
      if Grabs(d.st.ws[hit], d.wm.cursorY) { GrabOrdered(f, i); }
    }
  }

  // ---- every event keeps the invariant -------------------------------------

  lemma MotionKeeps(d: Desk, ax: int, ay: int)
    requires DeskOk(d)
    ensures DeskOk(MotionAbs(d, ax, ay))
  {
    MotionEffect(d, ax, ay);
    ViewLive(d.st.ws, d.wm.moveId);
  }

  lemma ReleaseKeeps(d: Desk)
    requires DeskOk(d)
    ensures DeskOk(Release(d))
  {
    ReleaseEffect(d);
    ViewLive(d.st.ws, d.wm.moveId);
  }

  lemma GrabKeeps(v: map<nat, Window>, wm: Wm, id: nat, nextId: nat)
    requires id in v && v[id].id == id && Grabs(v[id], wm.cursorY) && id < nextId
    requires Wallpaper(v, wm.screenW, wm.screenH) && TitlesFit(v)
    ensures var r := v[id := Grabbed(v[id], wm.cursorX, wm.cursorY)];
            Wallpaper(r, wm.screenW, wm.screenH) && TitlesFit(r) && GrabOk(r, Holding(wm, v[id]), nextId)
  {
  }

  lemma PressKeeps(d: Desk)
    requires DeskOk(d)
    ensures DeskOk(Press(d))
  {
    PressEffect(d);
    PressOrdered(d);
    var hit := At(d.st.ws, d.wm.cursorX, d.wm.cursorY);
    if hit >= 0 && Grabs(d.st.ws[hit], d.wm.cursorY) {
      GrabKeeps(View(d.st.ws), d.wm, d.st.ws[hit].id, d.st.nextId);
    }
  }

  lemma ButtonKeeps(d: Desk, button: nat, pressed: bool)
    requires DeskOk(d)
    ensures DeskOk(Button(d, button, pressed))
  {
    if button == BTN_LEFT {
      if pressed { PressKeeps(d); } else { ReleaseKeeps(d); }
    }
  }

  lemma KeyKeeps(d: Desk, keysym: nat, pressed: bool, alt: bool)
    requires DeskOk(d)
    ensures DeskOk(Key(d, keysym, pressed, alt).0)
  {
    FocusCycleOk(d.st, 1);
    FocusCycleOrdered(d.st, 1);
    assert FocusCycle(d.st, 1).nextId == d.st.nextId;
  }

  // ---- clicks ------------------------------------------------------------

  lemma FocusOnTop(s: Stack, hit: nat)
    requires Ok(s) && hit < |s.ws| && !s.ws[hit].role.Desktop?
    ensures var r := Focus(s, s.ws[hit].id).ws;
            |r| == |s.ws| && r[|r| - 1] == s.ws[hit] && IndexOf(r, s.ws[hit].id) == |r| - 1
  {
    ViewAt(s.ws, hit);
    ToTopFacts(s.ws, hit);
    ViewAt(ToTop(s.ws, hit), |s.ws| - 1);
  }

  /** The window under the cursor is the same before and after a left press, through focus,
      raise and the relocation of a snapped window; and a window just grabbed has the cursor
      inside its title bar. */
  lemma ClickStable(d: Desk)
    requires DeskOk(d)
    ensures var hit, r := At(d.st.ws, d.wm.cursorX, d.wm.cursorY), Press(d);
            var after := At(r.st.ws, d.wm.cursorX, d.wm.cursorY);
            if hit < 0 then after < 0
            else
              && after >= 0 && r.st.ws[after].id == d.st.ws[hit].id
              && (Grabs(d.st.ws[hit], d.wm.cursorY) ==>
                    r.st.ws[after] == Grabbed(d.st.ws[hit], d.wm.cursorX, d.wm.cursorY) &&
                    0 <= d.wm.cursorY - r.st.ws[after].y < TITLEBAR_H)
              && (!Grabs(d.st.ws[hit], d.wm.cursorY) ==> r.st.ws[after] == d.st.ws[hit])
  {
    var cx, cy := d.wm.cursorX, d.wm.cursorY;
    var hit := At(d.st.ws, cx, cy);
    if hit >= 0 {
      var w := d.st.ws[hit];
      var f, i := PressIs(d);
      ViewAt(d.st.ws, hit);
      assert TitleFits(View(d.st.ws)[w.id]);
      if !w.role.Desktop? {
        FocusOnTop(d.st, hit);
        GrabStaysUnderCursor(w, cx, cy);
      }
    }
  }

  lemma GrabStaysUnderCursor(w: Window, cx: int, cy: int)
    requires cx >= 0 && cy >= 0 && Hit(w, cx, cy) && TitleFits(w)
    ensures Grabs(w, cy) ==> Hit(Grabbed(w, cx, cy), cx, cy) && 0 <= cy - Grabbed(w, cx, cy).y < TITLEBAR_H
  {
  }

  // ---- drags -------------------------------------------------------------

  /** The grabbed point of the dragged window is under the cursor. */
  ghost predicate InHand(d: Desk) {
    var v := View(d.st.ws);
    d.wm.moving && d.wm.moveId in v ==>
      v[d.wm.moveId].x == d.wm.cursorX - d.wm.grabDx && v[d.wm.moveId].y == d.wm.cursorY - d.wm.grabDy
  }

  /** Any motion puts the window back in hand, whatever happened before, keeps the grab offset,
      and changes nothing but the position of the dragged window. */
  lemma MotionDrags(d: Desk, ax: int, ay: int)
    requires Ok(d.st) && Ordered(d.st)
    ensures var r, v := MotionAbs(d, ax, ay), View(d.st.ws);
            && InHand(r)
            && r.wm.moving == d.wm.moving && r.wm.moveId == d.wm.moveId
            && r.wm.grabDx == d.wm.grabDx && r.wm.grabDy == d.wm.grabDy
            && (forall id | id in v && !(d.wm.moving && id == d.wm.moveId) ::
                  id in View(r.st.ws) && View(r.st.ws)[id] == v[id])
            && (d.wm.moving && d.wm.moveId !in v ==> View(r.st.ws) == v)
  {
    MotionEffect(d, ax, ay);
  }

  // ---- snapping ----------------------------------------------------------

  /** Releasing a drag at an edge snaps the window to its part of the work area and keeps the
      floating rectangle it had. */
  lemma ReleaseSnaps(d: Desk)
    requires DeskOk(d) && Snaps(d)
    ensures var w := View(d.st.ws)[d.wm.moveId];
            && d.wm.moveId in View(Release(d).st.ws)
            && var n := View(Release(d).st.ws)[d.wm.moveId];
               && n.snapped
               && n.savedX == w.x && n.savedY == w.y && n.savedW == w.w && n.savedH == w.h
               && n.x == SnapRect(d).value.x && n.y == SnapRect(d).value.y
               && (SnapRect(d).value.w >= 1 ==> n.w == SnapRect(d).value.w)
               && (SnapRect(d).value.h >= 1 ==> n.h == SnapRect(d).value.h)
  {
    ReleaseEffect(d);
  }

  /** Grabbing a snapped window by its title bar gives it back its saved size. */
  lemma GrabRestores(d: Desk)
    requires DeskOk(d)
    requires var hit := At(d.st.ws, d.wm.cursorX, d.wm.cursorY);
             hit >= 0 && Grabs(d.st.ws[hit], d.wm.cursorY) && d.st.ws[hit].snapped
    ensures var w := d.st.ws[At(d.st.ws, d.wm.cursorX, d.wm.cursorY)];
            && w.id in View(Press(d).st.ws)
            && var n := View(Press(d).st.ws)[w.id];
               && !n.snapped && n.w == w.savedW && n.h == w.savedH
               && Contains(n, d.wm.cursorX, d.wm.cursorY) && d.wm.cursorY - n.y < TITLEBAR_H
  {
    var hit := At(d.st.ws, d.wm.cursorX, d.wm.cursorY);
    PressEffect(d);
    ViewAt(d.st.ws, hit);
    assert TitleFits(View(d.st.ws)[d.st.ws[hit].id]);
    GrabStaysUnderCursor(d.st.ws[hit], d.wm.cursorX, d.wm.cursorY);
  }
}
