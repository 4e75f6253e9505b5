/** Window-manager policy (src/wm.c) on values: cursor, drag, Aero Snap, click-to-focus. */
module WmPolicy {
  import opened Windows

  const SNAP_EDGE: int := 16
  const BTN_LEFT: nat := 0x110
  const KEY_TAB: nat := 0xff09

  datatype Wm = Wm(
    screenW: int, screenH: int, cursorX: int, cursorY: int,
    moving: bool, moveId: nat, grabDx: int, grabDy: int,
    reconfigured: nat)

  /** The stack together with the window manager that works on it. */
  datatype Desk = Desk(st: Stack, wm: Wm)

  datatype Rect = Rect(x: int, y: int, w: int, h: int)

  function Clamp(v: int, lo: int, hi: int): int { if v < lo then lo else if v > hi then hi else v }

  /** wm_init leaves reconfigured_id as it found it. */
  function InitWm(screenW: nat, screenH: nat, reconfigured: nat): Wm {
    Wm(screenW, screenH, screenW / 2, screenH / 2, false, 0, 0, 0, reconfigured)
  }

  // ---- motion ------------------------------------------------------------

  function DragGrabbed(d: Desk): Desk {
    if d.wm.moving
    then d.(st := MoveTo(d.st, d.wm.moveId, d.wm.cursorX - d.wm.grabDx, d.wm.cursorY - d.wm.grabDy))
    else d
  }

  function MotionAbs(d: Desk, ax: int, ay: int): Desk {
    DragGrabbed(d.(wm := d.wm.(cursorX := Clamp(ax, 0, d.wm.screenW - 1), cursorY := Clamp(ay, 0, d.wm.screenH - 1))))
  }

  function Motion(d: Desk, dx: int, dy: int): Desk {
    MotionAbs(d, d.wm.cursorX + dx, d.wm.cursorY + dy)
  }

  // ---- Aero Snap ---------------------------------------------------------

  function TaskbarFrom(ws: seq<Window>, from: nat): (i: int)
    requires from <= |ws|
    ensures i == -1 || from <= i < |ws|
    ensures i >= 0 ==> ws[i].role.Taskbar? && ws[i].mapped
    ensures forall j | from <= j < (if i < 0 then |ws| else i) :: !(ws[j].role.Taskbar? && ws[j].mapped)
    decreases |ws| - from
  {
    if from == |ws| then -1 else if ws[from].role.Taskbar? && ws[from].mapped then from else TaskbarFrom(ws, from + 1)
  }

  /** The first mapped taskbar, or -1. */
  function FirstTaskbar(ws: seq<Window>): (i: int)
    ensures -1 <= i < |ws|
    ensures i >= 0 ==> ws[i].role.Taskbar? && ws[i].mapped
    ensures forall j | 0 <= j < (if i < 0 then |ws| else i) :: !(ws[j].role.Taskbar? && ws[j].mapped)
  {
    TaskbarFrom(ws, 0)
  }

  datatype Dock = Floating | DockTop | DockBottom | DockLeft | DockRight

  function DockOf(t: Window, sw: int, sh: int): Dock {
    var fullW := t.w >= TruncDiv(sw * 3, 4);
    var fullH := t.h >= TruncDiv(sh * 3, 4);
    if fullW && t.y <= 0 then DockTop
    else if fullW then DockBottom
    else if fullH && t.x <= 0 then DockLeft
    else if fullH then DockRight
    else Floating
  }

  /** The screen minus the taskbar t, before the fallback for an empty result. */
  function Carve(t: Window, sw: int, sh: int): Rect {
    match DockOf(t, sw, sh)
    case DockTop => if t.y + t.h > 0 then Rect(0, t.y + t.h, sw, sh - (t.y + t.h)) else Rect(0, 0, sw, sh)
    case DockBottom => if t.y < sh then Rect(0, 0, sw, t.y) else Rect(0, 0, sw, sh)
    case DockLeft => if t.x + t.w > 0 then Rect(t.x + t.w, 0, sw - (t.x + t.w), sh) else Rect(0, 0, sw, sh)
    case DockRight => if t.x < sw then Rect(0, 0, t.x, sh) else Rect(0, 0, sw, sh)
    case Floating => Rect(0, 0, sw, sh)
  }

  function WorkArea(ws: seq<Window>, sw: int, sh: int): Rect {
    var i := FirstTaskbar(ws);
    var r := if i < 0 then Rect(0, 0, sw, sh) else Carve(ws[i], sw, sh);
    Rect(r.x, r.y, if r.w < 1 then sw else r.w, if r.h < 1 then sh else r.h)
  }

  function LeftHalf(a: Rect): Rect { Rect(a.x, a.y, TruncDiv(a.w, 2), a.h) }

  function RightHalf(a: Rect): Rect { Rect(a.x + a.w - TruncDiv(a.w, 2), a.y, TruncDiv(a.w, 2), a.h) }

  datatype Option<T> = None | Some(value: T)

  /** Where a release at the cursor snaps to, if the cursor is at an edge. */
  function SnapTarget(wm: Wm, a: Rect): Option<Rect> {
    if wm.cursorY <= SNAP_EDGE then Some(a)
    else if wm.cursorX <= SNAP_EDGE then Some(LeftHalf(a))
    else if wm.cursorX >= wm.screenW - SNAP_EDGE then Some(RightHalf(a))
    else None
  }

  /** The window after it snapped to r; the floating rectangle is saved on the first snap. */
  function Snapped(w: Window, r: Rect): Window {
    var s := if w.snapped then w else w.(savedX := w.x, savedY := w.y, savedW := w.w, savedH := w.h);
    Resized(s.(snapped := true), r.x, r.y, r.w, r.h)
  }

  function SnapOnRelease(d: Desk, id: nat): Desk {
    var i := IndexOf(d.st.ws, id);
    if i < 0 || !HasSsd(d.st.ws[i]) then d
    else
      match SnapTarget(d.wm, WorkArea(d.st.ws, d.wm.screenW, d.wm.screenH))
      case None => d
      case Some(r) => Desk(d.st.(ws := d.st.ws[i := Snapped(d.st.ws[i], r)]), d.wm.(reconfigured := id))
  }

  // ---- buttons and keys --------------------------------------------------

  function Release(d: Desk): Desk {
    if d.wm.moving then SnapOnRelease(d.(wm := d.wm.(moving := false, moveId := 0)), d.wm.moveId) else d
  }

  /** A snapped window grabbed at the cursor goes back to its floating size under it. */
  function Unsnapped(w: Window, cx: int, cy: int): Window {
    var nw := if w.savedW > 0 then w.savedW else w.w;
    var nh := if w.savedH > 0 then w.savedH else w.h;
    var wx := cx - TruncDiv(nw, 2);
    var wy := cy - TITLEBAR_H / 2;
    Resized(w, if wx < 0 then 0 else wx, if wy < 0 then 0 else wy, nw, nh).(snapped := false)
  }

  /** A press on a server title bar starts a drag; a content press only focuses. */
  predicate Grabs(w: Window, cy: int) { HasSsd(w) && cy - w.y < TITLEBAR_H }

  function Grab(d: Desk, i: nat): Desk
    requires i < |d.st.ws|
  {
    var w, cx, cy := d.st.ws[i], d.wm.cursorX, d.wm.cursorY;
    var n := if w.snapped then Unsnapped(w, cx, cy) else w;
    Desk(d.st.(ws := d.st.ws[i := n]),
         d.wm.(moving := true, moveId := w.id, grabDx := cx - n.x, grabDy := cy - n.y,
               reconfigured := if w.snapped then w.id else d.wm.reconfigured))
  }

  function Press(d: Desk): Desk {
    var hit := At(d.st.ws, d.wm.cursorX, d.wm.cursorY);
    if hit < 0 then d
    else
      var f := d.(st := Focus(d.st, d.st.ws[hit].id));
      var i := IndexOf(f.st.ws, d.st.ws[hit].id);
      if i < 0 || !Grabs(f.st.ws[i], d.wm.cursorY) then f else Grab(f, i)
  }

  function Button(d: Desk, button: nat, pressed: bool): Desk {
    if button != BTN_LEFT then d else if pressed then Press(d) else Release(d)
  }

  /** Alt-Tab; the result says whether the key was consumed. */
  function Key(d: Desk, keysym: nat, pressed: bool, alt: bool): (Desk, bool) {
    if pressed && alt && keysym == KEY_TAB then (d.(st := FocusCycle(d.st, 1)), true) else (d, false)
  }

  // ---- snap geometry -----------------------------------------------------

  predicate InRect(r: Rect, x: int, y: int) { r.x <= x < r.x + r.w && r.y <= y < r.y + r.h }

  predicate InsideScreen(r: Rect, sw: int, sh: int) {
    0 <= r.x && 0 <= r.y && r.w >= 1 && r.h >= 1 && r.x + r.w <= sw && r.y + r.h <= sh
  }

  /** The taskbar leaves at least one pixel on the axis it is docked along. Only a taskbar
      docked at the top or the left can fail to. */
  predicate LeavesRoom(t: Window, sw: int, sh: int) {
    match DockOf(t, sw, sh)
    case DockTop => t.y + t.h < sh
    case DockLeft => t.x + t.w < sw
    case _ => true
  }

  /** The work area lies inside the screen exactly when the taskbar leaves room. */
  lemma WorkAreaInside(ws: seq<Window>, sw: int, sh: int)
    requires sw >= 1 && sh >= 1
    ensures InsideScreen(WorkArea(ws, sw, sh), sw, sh) <==>
            (FirstTaskbar(ws) < 0 || LeavesRoom(ws[FirstTaskbar(ws)], sw, sh))
  {
    assert sw * 3 / 4 >= 0 && sh * 3 / 4 >= 0;
    if FirstTaskbar(ws) >= 0 { assert TruncDiv(sw * 3, 4) == sw * 3 / 4; }
  }

  /** A taskbar as tall as the screen, docked at the top, pushes the work area off the screen. */
  lemma WorkAreaCanLeaveScreen()
    ensures exists ws :: FirstTaskbar(ws) == 0 && !InsideScreen(WorkArea(ws, 800, 600), 800, 600)
  {
    var t := NewWindow(1, Taskbar, 0, 0, 800, 600, 0);
    assert FirstTaskbar([t]) == 0;
    assert WorkArea([t], 800, 600) == Rect(0, 600, 800, 600);
  }

  /** Whichever edge the taskbar is docked to, the work area does not touch it. */
  lemma WorkAreaClearsTaskbar(ws: seq<Window>, sw: int, sh: int, x: int, y: int)
    requires sw >= 1 && sh >= 1
    requires FirstTaskbar(ws) >= 0 && !DockOf(ws[FirstTaskbar(ws)], sw, sh).Floating?
    ensures !(InRect(WorkArea(ws, sw, sh), x, y) && Contains(ws[FirstTaskbar(ws)], x, y))
  {
  }

  /** The two halves are disjoint parts of the work area that miss at most its middle column. */
  lemma HalvesSplit(a: Rect, x: int, y: int)
    requires a.w >= 2
    ensures InRect(LeftHalf(a), x, y) ==> InRect(a, x, y) && !InRect(RightHalf(a), x, y)
    ensures InRect(RightHalf(a), x, y) ==> InRect(a, x, y)
    ensures InRect(a, x, y) && !InRect(LeftHalf(a), x, y) && !InRect(RightHalf(a), x, y) ==>
            a.w % 2 == 1 && x == a.x + a.w / 2
    ensures LeftHalf(a).w == RightHalf(a).w >= 1
  {
  }

  // ---- what a press does -------------------------------------------------

  /** The window a grab leaves behind. */
  function Grabbed(w: Window, cx: int, cy: int): Window {
    if w.snapped then Unsnapped(w, cx, cy) else w
  }

  /** The window manager's fields after a press on the title bar of w. */
  function Holding(wm: Wm, w: Window): Wm {
    var n := Grabbed(w, wm.cursorX, wm.cursorY);
    wm.(moving := true, moveId := w.id, grabDx := wm.cursorX - n.x, grabDy := wm.cursorY - n.y,
        reconfigured := if w.snapped then w.id else wm.reconfigured)
  }

  lemma GrabEffect(d: Desk, i: nat)
    requires Ok(d.st) && i < |d.st.ws|
    ensures var w := d.st.ws[i];
            && Ok(Grab(d, i).st)
            && Grab(d, i).st.focus == d.st.focus
            && View(Grab(d, i).st.ws) == View(d.st.ws)[w.id := Grabbed(w, d.wm.cursorX, d.wm.cursorY)]
            && Grab(d, i).wm == Holding(d.wm, w)
  {
    PutOk(d.st, i, Grabbed(d.st.ws[i], d.wm.cursorX, d.wm.cursorY));
  }

  /** Focusing keeps the window itself, so the press is decided by the window that was hit. */
  lemma PressIs(d: Desk) returns (f: Desk, i: int)
    requires Ok(d.st)
    ensures var hit := At(d.st.ws, d.wm.cursorX, d.wm.cursorY);
            if hit < 0 then Press(d) == d
            else
              && f == d.(st := Focus(d.st, d.st.ws[hit].id)) && Ok(f.st) && View(f.st.ws) == View(d.st.ws)
              && 0 <= i < |f.st.ws| && f.st.ws[i] == d.st.ws[hit] && f.st.focus == d.st.ws[hit].id
              && Press(d) == if Grabs(d.st.ws[hit], d.wm.cursorY) then Grab(f, i) else f
  {
    var hit := At(d.st.ws, d.wm.cursorX, d.wm.cursorY);
    f, i := d, -1;
    if hit >= 0 {
      var id := d.st.ws[hit].id;
      ViewAt(d.st.ws, hit);
      FocusOk(d.st, id);
      f := d.(st := Focus(d.st, id));
      ViewLive(f.st.ws, id);
      i := IndexOf(f.st.ws, id);
    }
  }

  /** A press focuses the window under the cursor, and changes no window except the one it
      grabs; it grabs exactly when the cursor is on a server title bar. */
  lemma PressEffect(d: Desk)
    requires Ok(d.st)
    ensures Ok(Press(d).st)
    ensures var hit, v := At(d.st.ws, d.wm.cursorX, d.wm.cursorY), View(d.st.ws);
            if hit < 0 then Press(d) == d
            else
              var w := d.st.ws[hit];
              && w.id in v && v[w.id] == w
              && Press(d).st.focus == w.id
              && View(Press(d).st.ws) ==
                 (if Grabs(w, d.wm.cursorY) then v[w.id := Grabbed(w, d.wm.cursorX, d.wm.cursorY)] else v)
              && Press(d).wm == if Grabs(w, d.wm.cursorY) then Holding(d.wm, w) else d.wm
  {
    var hit := At(d.st.ws, d.wm.cursorX, d.wm.cursorY);
    var f, i := PressIs(d);
    if hit >= 0 {
      ViewAt(d.st.ws, hit);
      GrabEffect(f, i);
    }
  }
}
