/** The window manager as the program keeps it (src/wm.c): fields updated in place over the shared
    stack. Every method is proved to do exactly what its counterpart in module WmPolicy says. */
module WindowManagers {
  import opened Windows
  import opened WmPolicy
  import opened WindowStacks

  lemma IndexKept(ws: seq<Window>, i: nat, w: Window)
    requires i < |ws| && IndexOf(ws, ws[i].id) == i && w.id == ws[i].id
    ensures IndexOf(ws[i := w], w.id) == i
  {
    var j := IndexOf(ws[i := w], w.id);
    assert ws[i := w][i].id == w.id;
  }

  lemma GeometryAt(s: Stack, i: nat, x: int, y: int, w: int, h: int)
    requires i < |s.ws| && IndexOf(s.ws, s.ws[i].id) == i
    ensures Windows.SetGeometry(s, s.ws[i].id, x, y, w, h) == s.(ws := s.ws[i := Resized(s.ws[i], x, y, w, h)])
  {
  }

  lemma StoredTwice(ws: seq<Window>, i: nat, a: Window, b: Window)
    requires i < |ws|
    ensures ws[i := a][i := b] == ws[i := b]
  {
  }

  class WindowManager {
    const stack: WindowStack
    var screenW: int
    var screenH: int
    var cursorX: int
    var cursorY: int
    var moving: bool
    var moveId: nat
    var grabDx: int
    var grabDy: int
    var reconfiguredId: nat

    ghost predicate Valid()
      reads stack
    {
      stack.Valid()
    }

    ghost function W(): Wm
      reads this
    {
      Wm(screenW, screenH, cursorX, cursorY, moving, moveId, grabDx, grabDy, reconfiguredId)
    }

    ghost function State(): Desk
      requires Valid()
      reads this, stack, stack.windows
    {
      Desk(stack.S(), W())
    }

    /** wm_init; reconfiguredId keeps whatever the memory held. */
    constructor (stack: WindowStack, screenW: nat, screenH: nat)
      ensures this.stack == stack && W() == InitWm(screenW, screenH, reconfiguredId)
    {
      this.stack := stack;
      this.screenW, this.screenH := screenW, screenH;
      cursorX, cursorY := screenW / 2, screenH / 2;
      moving, moveId := false, 0;
      grabDx, grabDy := 0, 0;
    }

    method DragGrabbed()
      requires Valid()
      modifies stack.windows
      ensures Valid() && State() == WmPolicy.DragGrabbed(old(State()))
    {
      if moving { stack.Move(moveId, cursorX - grabDx, cursorY - grabDy); }
    }

    /** wm_pointer_motion */
    method PointerMotion(dx: int, dy: int)
      requires Valid()
      modifies this, stack.windows
      ensures Valid() && State() == Motion(old(State()), dx, dy)
    {
      cursorX := Clamp(cursorX + dx, 0, screenW - 1);
      cursorY := Clamp(cursorY + dy, 0, screenH - 1);
      DragGrabbed();
    }

    /** wm_pointer_motion_abs */
    method PointerMotionAbs(ax: int, ay: int)
      requires Valid()
      modifies this, stack.windows
      ensures Valid() && State() == MotionAbs(old(State()), ax, ay)
    {
      cursorX := Clamp(ax, 0, screenW - 1);
      cursorY := Clamp(ay, 0, screenH - 1);
      DragGrabbed();
    }

    /** wm_work_area: the loop stops at the first mapped taskbar. */
    method WorkArea() returns (x: int, y: int, w: int, h: int)
      requires Valid()
      ensures Rect(x, y, w, h) == WmPolicy.WorkArea(stack.S().ws, screenW, screenH)
    {
      x, y, w, h := 0, 0, screenW, screenH;
      var i := 0;
      while i < stack.count
        invariant 0 <= i <= stack.count
        invariant x == 0 && y == 0 && w == screenW && h == screenH
        invariant TaskbarFrom(stack.S().ws, 0) == TaskbarFrom(stack.S().ws, i)
      {
        var t := stack.windows[i];
        if t.role.Taskbar? && t.mapped {
          x, y, w, h := Dock(t);
          break;
        }
        i := i + 1;
      }
      if w < 1 { w := screenW; }
      if h < 1 { h := screenH; }
    }

    /** What the docked taskbar t leaves of the screen. */
    method Dock(t: Window) returns (x: int, y: int, w: int, h: int)
      ensures Rect(x, y, w, h) == Carve(t, screenW, screenH)
    {
      x, y, w, h := 0, 0, screenW, screenH;
      var fullW := t.w >= TruncDiv(screenW * 3, 4);
      var fullH := t.h >= TruncDiv(screenH * 3, 4);
      if fullW && t.y <= 0 {
        var b := t.y + t.h;
        if b > y { h := h - (b - y); y := b; }
      } else if fullW {
        if t.y < y + h { h := t.y - y; }
      } else if fullH && t.x <= 0 {
        var r := t.x + t.w;
        if r > x { w := w - (r - x); x := r; }
      } else if fullH {
        if t.x < x + w { w := t.x - x; }
      }
    }

    /** wm_snap_on_release */
    method SnapOnRelease(id: nat)
      requires Valid()
      modifies this, stack.windows
      ensures Valid() && State() == WmPolicy.SnapOnRelease(old(State()), id)
    {
      var i := stack.Index(id);
      if i < 0 || !HasSsd(stack.windows[i]) { return; }
      var ax, ay, aw, ah := WorkArea();
      var nx, ny, nw, nh := ax, ay, aw, ah;
      if cursorY <= SNAP_EDGE {
      } else if cursorX <= SNAP_EDGE {
        nw := TruncDiv(aw, 2);
      } else if cursorX >= screenW - SNAP_EDGE {
        nw := TruncDiv(aw, 2);
        nx := ax + aw - nw;
      } else {
        return;
      }
      Snap(i, nx, ny, nw, nh);
    }

    /** The window at index i takes this rectangle; its floating one is kept. */
    method Snap(i: nat, nx: int, ny: int, nw: int, nh: int)
      requires Valid() && i < stack.count && IndexOf(stack.S().ws, stack.windows[i].id) == i
      modifies this, stack.windows
      ensures Valid()
      ensures var w, n := old(stack.windows[i]), Snapped(old(stack.windows[i]), Rect(nx, ny, nw, nh));
              State() == Desk(old(stack.S()).(ws := old(stack.S().ws)[i := n]), old(W()).(reconfigured := w.id))
    {
      var w := stack.windows[i];
      if !w.snapped { w := w.(savedX := w.x, savedY := w.y, savedW := w.w, savedH := w.h); }
      IndexKept(stack.S().ws, i, w.(snapped := true));
      stack.Store(i, w.(snapped := true));
      stack.SetGeometry(w.id, nx, ny, nw, nh);
      reconfiguredId := w.id;
    }

    /** wm_pointer_button, release */
    method Release()
      requires Valid()
      modifies this, stack.windows
      ensures Valid() && State() == WmPolicy.Release(old(State()))
    {
      if moving {
        var id := moveId;
        moving, moveId := false, 0;
        SnapOnRelease(id);
      }
    }

    /** The snapped window at index i goes back to its floating size under the cursor. */
    method Unsnap(i: nat)
      requires Valid() && i < stack.count && IndexOf(stack.S().ws, stack.windows[i].id) == i
      modifies this, stack.windows
      ensures Valid()
      ensures var w, n := old(stack.windows[i]), Unsnapped(old(stack.windows[i]), cursorX, cursorY);
              State() == Desk(old(stack.S()).(ws := old(stack.S().ws)[i := n]), old(W()).(reconfigured := w.id))
    {
      var w := stack.windows[i];
      var nw := if w.savedW > 0 then w.savedW else w.w;
      var nh := if w.savedH > 0 then w.savedH else w.h;
      var wx, wy := cursorX - TruncDiv(nw, 2), cursorY - TITLEBAR_H / 2;
      if wx < 0 { wx := 0; }
      if wy < 0 { wy := 0; }
      Restore(i, wx, wy, nw, nh);
      reconfiguredId := w.id;
    }

    /** window_set_geometry, then the window is floating again. */
    method Restore(i: nat, wx: int, wy: int, nw: int, nh: int)
      requires Valid() && i < stack.count && IndexOf(stack.S().ws, stack.windows[i].id) == i
      modifies stack.windows
      ensures Valid()
      ensures stack.S() == old(stack.S()).(ws := old(stack.S().ws)[i := Resized(old(stack.windows[i]), wx, wy, nw, nh).(snapped := false)])
    {
      hide Windows.SetGeometry, IndexOf, Resized;
      var w := stack.windows[i];
      GeometryAt(stack.S(), i, wx, wy, nw, nh);
      StoredTwice(stack.S().ws, i, Resized(w, wx, wy, nw, nh), Resized(w, wx, wy, nw, nh).(snapped := false));
      stack.SetGeometry(w.id, wx, wy, nw, nh);
      assert stack.windows[i] == stack.S().ws[i];
      stack.Store(i, stack.windows[i].(snapped := false));
    }

    /** The press is on the title bar of the window at index i: drag it from here. */
    method Grab(i: nat)
      requires Valid() && i < stack.count && IndexOf(stack.S().ws, stack.windows[i].id) == i
      modifies this, stack.windows
      ensures Valid() && State() == WmPolicy.Grab(old(State()), i)
    {
      var id := stack.windows[i].id;
      assert stack.S().ws == stack.S().ws[i := stack.windows[i]];
      if stack.windows[i].snapped { Unsnap(i); }
      moving, moveId := true, id;
      grabDx, grabDy := cursorX - stack.windows[i].x, cursorY - stack.windows[i].y;
    }

    /** wm_pointer_button, press */
    method Press()
      requires Valid()
      modifies this, stack, stack.windows
      ensures Valid() && State() == WmPolicy.Press(old(State()))
    {
      hide WmPolicy.Grab, Windows.Focus;
      var hit := stack.At(cursorX, cursorY);
      if hit < 0 { return; }
      var id := stack.windows[hit].id;
      stack.Focus(id);
      var i := stack.Index(id);
      if i < 0 || !HasSsd(stack.windows[i]) { return; }
      if cursorY - stack.windows[i].y >= TITLEBAR_H { return; }
      Grab(i);
    }

    /** wm_pointer_button */
    method PointerButton(button: nat, pressed: bool)
      requires Valid()
      modifies this, stack, stack.windows
      ensures Valid() && State() == WmPolicy.Button(old(State()), button, pressed)
    {
      if button != BTN_LEFT { return; }
      if pressed { Press(); } else { Release(); }
    }

    /** wm_key */
    method Key(keysym: nat, pressed: bool, alt: bool) returns (consumed: bool)
      requires Valid()
      modifies stack, stack.windows
      ensures Valid() && (State(), consumed) == WmPolicy.Key(old(State()), keysym, pressed, alt)
    {
      consumed := pressed && alt && keysym == KEY_TAB;
      if consumed { stack.FocusCycle(1); }
    }
  }
}
