/** Where the cursor and the windows go: what the window manager's decisions amount to in pixels,
    without the functions it decides with. */
module Placements {
  import opened Windows
  import opened WmPolicy
  import opened WmProofs
  import opened Session
  import opened SessionProofs
  import opened Gestures
  import StackOperations

  // ---- the cursor --------------------------------------------------------------------------------

  /** v is where a coordinate that should be at `to` ends up on a screen n pixels long. */
  predicate Nearest(v: int, to: int, n: int) {
    0 <= v < n && (0 <= to < n ==> v == to) && (to < 0 ==> v == 0) && (to >= n ==> v == n - 1)
  }

  /** A motion takes the cursor as far as the screen allows on each axis, and nothing else of the
      window manager changes. */
  lemma MotionMoves(s: Sys, e: Event)
    requires SysOk(s) && Moves(e)
    ensures var t := Step(s, e);
            && Nearest(t.wm.cursorX, if e.Motion? then s.wm.cursorX + e.dx else e.ax, s.wm.screenW)
            && Nearest(t.wm.cursorY, if e.Motion? then s.wm.cursorY + e.dy else e.ay, s.wm.screenH)
            && t.wm == s.wm.(cursorX := t.wm.cursorX, cursorY := t.wm.cursorY)
  {
    hide Step, DragGrabbed;
    MotionIs(s, e);
    DragWm(DeskOf(s).(wm := CursorAt(s.wm, TargetX(s, e), TargetY(s, e))));
  }

  lemma DragWm(d: Desk)
    ensures DragGrabbed(d).wm == d.wm
  {
  }

  // ---- the work area ------------------------------------------------------------------------------

  predicate OnScreen(x: int, y: int, sw: int, sh: int) { 0 <= x < sw && 0 <= y < sh }

  /** t is the lowest mapped taskbar. */
  predicate Lowest(ws: seq<Window>, i: nat) {
    && i < |ws| && ws[i].role.Taskbar? && ws[i].mapped
    && forall j | 0 <= j < i :: !(ws[j].role.Taskbar? && ws[j].mapped)
  }

  lemma LowestIs(ws: seq<Window>, i: nat)
    requires Lowest(ws, i)
    ensures FirstTaskbar(ws) == i
  {
  }

  /** Pixel by pixel, what a taskbar t leaves of the screen: one that spans three quarters of the width
      takes everything from its edge of the screen on, the top edge if it starts there and else the
      bottom; one that spans three quarters of the height takes a side in the same way; any other
      takes nothing. */
  predicate Free(t: Window, sw: int, sh: int, x: int, y: int) {
    OnScreen(x, y, sw, sh) &&
    if t.w >= sw * 3 / 4 then (if t.y <= 0 then y >= t.y + t.h else y < t.y)
    else if t.h >= sh * 3 / 4 then (if t.x <= 0 then x >= t.x + t.w else x < t.x)
    else true
  }

  /** The work area is exactly what the lowest mapped taskbar leaves free, if that is anything, and the
      whole screen if there is no taskbar. */
  lemma WorkAreaIsFree(ws: seq<Window>, i: nat, sw: int, sh: int, x: int, y: int)
    requires sw >= 1 && sh >= 1 && Lowest(ws, i) && exists a, b :: Free(ws[i], sw, sh, a, b)
    ensures InRect(WorkArea(ws, sw, sh), x, y) <==> Free(ws[i], sw, sh, x, y)
  {
    LowestIs(ws, i);
    var a, b :| Free(ws[i], sw, sh, a, b);
    assert TruncDiv(sw * 3, 4) == sw * 3 / 4 && TruncDiv(sh * 3, 4) == sh * 3 / 4;
  }

  lemma NoTaskbarAllFree(ws: seq<Window>, sw: int, sh: int, x: int, y: int)
    requires sw >= 1 && sh >= 1 && forall j | 0 <= j < |ws| :: !(ws[j].role.Taskbar? && ws[j].mapped)
    ensures InRect(WorkArea(ws, sw, sh), x, y) <==> OnScreen(x, y, sw, sh)
  {
  }

  lemma AreaSize(ws: seq<Window>, sw: int, sh: int)
    requires sw >= 1 && sh >= 1
    ensures WorkArea(ws, sw, sh).w >= 1 && WorkArea(ws, sw, sh).h >= 1
  {
  }

  // ---- snapping ------------------------------------------------------------------------------------

  /** The rectangle, with the size w had where the new one is not positive. */
  predicate Placed(n: Window, w: Window, x: int, y: int, nw: int, nh: int) {
    n.x == x && n.y == y && n.w == (if nw > 0 then nw else w.w) && n.h == (if nh > 0 then nh else w.h)
  }

  /** Where a release at the cursor puts the dragged window: in the whole work area at the top edge of
      the screen, in its left part at the left edge, in its right part at the right edge. */
  predicate SnappedTo(n: Window, w: Window, a: Rect, cx: int, cy: int, sw: int) {
    if cy <= 16 then Placed(n, w, a.x, a.y, a.w, a.h)
    else if cx <= 16 then Placed(n, w, a.x, a.y, a.w / 2, a.h)
    else cx >= sw - 16 && Placed(n, w, a.x + a.w - a.w / 2, a.y, a.w / 2, a.h)
  }

  predicate AtEdge(wm: Wm) { wm.cursorY <= 16 || wm.cursorX <= 16 || wm.cursorX >= wm.screenW - 16 }

  /** A release of the left button: if a window with a server title bar is being dragged and the cursor
      is at the top, left or right edge, that window snaps there and remembers the rectangle it had; no
      other window changes. Otherwise no window changes at all. Either way nothing is dragged any more. */
  lemma ReleasePlaces(s: Sys)
    requires SysOk(s)
    ensures var t, v, id := Step(s, Button(0x110, false)), View(s.st.ws), s.wm.moveId;
            && t.wm == s.wm.(moving := false, moveId := t.wm.moveId, reconfigured := t.wm.reconfigured)
            && t.wm.moveId == (if s.wm.moving then 0 else id)
            && if s.wm.moving && id in v && HasSsd(v[id]) && AtEdge(s.wm)
               then
                 && t.wm.reconfigured == id
                 && View(t.st.ws).Keys == v.Keys && (forall x | x in v && x != id :: View(t.st.ws)[x] == v[x])
                 && var w, n := v[id], View(t.st.ws)[id];
                    && SnappedTo(n, w, WorkArea(s.st.ws, s.wm.screenW, s.wm.screenH), s.wm.cursorX, s.wm.cursorY, s.wm.screenW)
                    && n.snapped && n.savedX == w.x && n.savedY == w.y && n.savedW == w.w && n.savedH == w.h
               else View(t.st.ws) == v && t.wm.reconfigured == s.wm.reconfigured
  {
    hide Step, Release, WorkArea;
    assert DeskOk(DeskOf(s)) by { Parts(s); }
    AreaSize(s.st.ws, s.wm.screenW, s.wm.screenH);
    ButtonDesk(s, 0x110, false);
    ReleaseEffect(DeskOf(s));
  }

  // ---- taking hold ---------------------------------------------------------------------------------

  /** A left press on the first 28 rows of a window the server decorates takes hold of it: where the
      cursor has it, if it floats; centred under the cursor at its floating size, as far as the top and
      left edges of the screen allow, if it is snapped. Any other press takes hold of nothing. */
  lemma PressTakes(s: Sys)
    requires SysOk(s)
    ensures var t, hit := Step(s, Button(0x110, true)), At(s.st.ws, s.wm.cursorX, s.wm.cursorY);
            if hit >= 0 && s.st.ws[hit].role.Normal? && !s.st.ws[hit].appDecorated && s.wm.cursorY < s.st.ws[hit].y + 28
            then
              var w := s.st.ws[hit];
              && w.id in View(t.st.ws)
              && t.wm == s.wm.(moving := true, moveId := w.id, grabDx := t.wm.grabDx, grabDy := t.wm.grabDy,
                               reconfigured := if w.snapped then w.id else s.wm.reconfigured)
              && var n := View(t.st.ws)[w.id];
                 && t.wm.grabDx == s.wm.cursorX - n.x && t.wm.grabDy == s.wm.cursorY - n.y && !n.snapped
                 && (!w.snapped ==> n == w)
                 && (w.snapped ==> n.w == w.savedW && n.h == w.savedH)
                 && (w.snapped ==> n.x == AtLeast(s.wm.cursorX - w.savedW / 2, 0) && n.y == AtLeast(s.wm.cursorY - 14, 0))
            else t.wm == s.wm && View(t.st.ws) == View(s.st.ws)
  {
    hide Step, Press;
    assert DeskOk(DeskOf(s)) by { Parts(s); }
    ButtonDesk(s, 0x110, true);
    WmPolicy.PressEffect(DeskOf(s));
    var hit := At(s.st.ws, s.wm.cursorX, s.wm.cursorY);
    if hit >= 0 {
      ViewAt(s.st.ws, hit);
      assert TitleFits(View(s.st.ws)[s.st.ws[hit].id]);
    }
  }

  function AtLeast(v: int, lo: int): int { if v < lo then lo else v }

  /** In window order: the window hit goes on top of the others, unless it is a wallpaper, and it has the
      focus; a press on no window changes nothing. */
  lemma PressRaises(s: Sys, k: nat)
    requires SysOk(s) && k < |s.st.ws|
    ensures var t, hit, n := Step(s, Button(0x110, true)), At(s.st.ws, s.wm.cursorX, s.wm.cursorY), |s.st.ws|;
            && |t.st.ws| == n && t.st.nextId == s.st.nextId
            && if hit < 0 then t.st == s.st
               else
                 && t.st.focus == s.st.ws[hit].id
                 && t.st.ws[k].id == if s.st.ws[hit].role.Desktop? || k < hit then s.st.ws[k].id
                                     else if k < n - 1 then s.st.ws[k + 1].id else s.st.ws[hit].id
  {
    hide Step, At;
    ButtonDesk(s, 0x110, true);
    assert Ok(s.st) by { Parts(s); }
    var hit := At(s.st.ws, s.wm.cursorX, s.wm.cursorY);
    if hit >= 0 {
      ViewAt(s.st.ws, hit);
      assert StackOperations.First(s.st.ws, s.st.ws[hit].id, hit);
      StackOperations.FocusSays(s.st, s.st.ws[hit].id, hit);
    }
  }
}
