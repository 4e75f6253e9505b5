/** The window stack as the program keeps it (src/window.c): a bounded array edited in place.
    Every method is proved to do exactly what its counterpart in module Windows says. */
module WindowStacks {
  import opened Windows

  lemma GapClosed(a: seq<Window>, b: seq<Window>, i: nat)
    requires i < |a| && |b| == |a| - 1
    requires forall k | 0 <= k < |b| :: b[k] == a[if k < i then k else k + 1]
    ensures b == RemoveAt(a, i)
  {
    forall k | 0 <= k < |b| ensures RemoveAt(a, i)[k] == b[k] {
    }
  }

  lemma SunkToBottom(a: seq<Window>, b: seq<Window>, i: nat)
    requires 0 < i < |a| == |b| && b[0] == a[i]
    requires forall k | 0 < k < |b| :: b[k] == a[if k <= i then k - 1 else k]
    ensures b == ToBottom(a, i)
  {
    forall k | 0 < k < |b| ensures ToBottom(a, i)[k] == b[k] {
    }
  }

  class WindowStack {
    const windows: array<Window>
    var count: nat
    var focusId: nat
    var nextId: nat

    ghost predicate Valid()
      reads this
    {
      windows.Length == WIN_MAX && count <= WIN_MAX
    }

    ghost function S(): Stack
      requires Valid()
      reads this, windows
    {
      Stack(windows[..count], focusId, nextId)
    }

    constructor ()
      ensures Valid() && fresh(windows) && S() == EmptyStack
    {
      windows := new Window[WIN_MAX](_ => NewWindow(0, Normal, 0, 0, 0, 0, 0));
      count, focusId, nextId := 0, 0, 1;
    }

    method Create(role: Role, x: int, y: int, w: int, h: int, color: nat) returns (id: nat)
      requires Valid()
      modifies this, windows
      ensures Valid() && (S(), id) == Windows.Create(old(S()), role, x, y, w, h, color)
    {
      if count >= WIN_MAX { return 0; }
      windows[count] := NewWindow(nextId, role, x, y, w, h, color);
      id := nextId;
      count, nextId := count + 1, nextId + 1;
      assert windows[..count] == old(windows[..count]) + [windows[count - 1]];
    }

    /** window_index: the first entry with this id, or -1. */
    method Index(id: nat) returns (i: int)
      requires Valid()
      ensures i == IndexOf(S().ws, id)
    {
      i := 0;
      while i < count
        invariant 0 <= i <= count
        invariant forall j | 0 <= j < i :: windows[j].id != id
      {
        if windows[i].id == id { return; }
        i := i + 1;
      }
      i := -1;
    }

    /** The shifting loop of window_destroy and move_to_top: everything above idx moves down. */
    method CloseGap(idx: nat)
      requires Valid() && idx < count
      modifies windows
      ensures windows[..count - 1] == RemoveAt(old(S().ws), idx)
    {
      ghost var was := windows[..count];
      var i := idx;
      while i < count - 1
        modifies windows
        invariant idx <= i <= count - 1
        invariant forall k | 0 <= k < i :: windows[k] == was[if k < idx then k else k + 1]
        invariant forall k | i <= k < count :: windows[k] == was[k]
      {
        windows[i] := windows[i + 1];
        i := i + 1;
      }
      GapClosed(was, windows[..count - 1], idx);
    }

    method Destroy(id: nat)
      requires Valid()
      modifies this, windows
      ensures Valid() && S() == Windows.Destroy(old(S()), id)
    {
      var idx := Index(id);
      if idx < 0 { return; }
      CloseGap(idx);
      count := count - 1;
      if focusId == id {
        focusId := if count > 0 then windows[count - 1].id else 0;
      }
    }

    /** window_at: walk from the top down to the first mapped window under the point. */
    method At(gx: int, gy: int) returns (i: int)
      requires Valid()
      ensures i == Windows.At(S().ws, gx, gy)
    {
      i := count - 1;
      while i >= 0
        invariant -1 <= i < count
        invariant forall j | i < j < count :: !Hit(windows[j], gx, gy)
      {
        if windows[i].mapped && gx >= windows[i].x && gx < windows[i].x + windows[i].w
           && gy >= windows[i].y && gy < windows[i].y + windows[i].h
        {
          return;
        }
        i := i - 1;
      }
    }

    method MoveToTop(idx: int)
      requires Valid() && idx < count
      modifies windows
      ensures S() == old(S()).(ws := ToTop(old(S().ws), idx))
    {
      if idx < 0 || idx >= count - 1 { return; }
      var tmp := windows[idx];
      CloseGap(idx);
      windows[count - 1] := tmp;
      assert windows[..count] == windows[..count - 1] + [tmp];
    }

    method MoveToBottom(idx: int)
      requires Valid() && idx < count
      modifies windows
      ensures S() == old(S()).(ws := ToBottom(old(S().ws), idx))
    {
      if idx <= 0 || idx >= count { return; }
      ghost var was := windows[..count];
      var tmp := windows[idx];
      var i := idx;
      while i > 0
        modifies windows
        invariant 0 <= i <= idx
        invariant forall k | 0 <= k < count :: windows[k] == was[if i < k <= idx then k - 1 else k]
      {
        windows[i] := windows[i - 1];
        i := i - 1;
      }
      windows[0] := tmp;
      SunkToBottom(was, windows[..count], idx);
    }

    method Raise(id: nat)
      requires Valid()
      modifies windows
      ensures S() == Windows.Raise(old(S()), id)
    {
      var i := Index(id);
      MoveToTop(i);
    }

    method Lower(id: nat)
      requires Valid()
      modifies windows
      ensures S() == Windows.Lower(old(S()), id)
    {
      var i := Index(id);
      MoveToBottom(i);
    }

    /** Store through the pointer window_by_id returned. */
    method Store(i: nat, w: Window)
      requires Valid() && i < count
      modifies windows
      ensures S() == old(S()).(ws := old(S().ws)[i := w])
    {
      windows[i] := w;
      assert windows[..count] == old(windows[..count])[i := w];
    }

    method Move(id: nat, x: int, y: int)
      requires Valid()
      modifies windows
      ensures S() == MoveTo(old(S()), id, x, y)
    {
      var i := Index(id);
      if i >= 0 { Store(i, windows[i].(x := x, y := y)); }
    }

    method SetGeometry(id: nat, x: int, y: int, w: int, h: int)
      requires Valid()
      modifies windows
      ensures S() == Windows.SetGeometry(old(S()), id, x, y, w, h)
    {
      var i := Index(id);
      if i < 0 { return; }
      var win := windows[i].(x := x, y := y);
      if w > 0 { win := win.(w := w); }
      if h > 0 { win := win.(h := h); }
      Store(i, win);
    }

    method Focus(id: nat)
      requires Valid()
      modifies this, windows
      ensures Valid() && S() == Windows.Focus(old(S()), id)
    {
      var i := Index(id);
      if i < 0 { return; }
      focusId := id;
      if !windows[i].role.Desktop? { Raise(id); }
    }

    /** The scan of window_focus_cycle. */
    method CycleIndex(start: int, dir: int) returns (i: int)
      requires Valid() && count > 0
      ensures i == CycleFrom(S().ws, start, dir, 1)
    {
      var n := 1;
      while n <= count
        invariant 1 <= n <= count + 1
        invariant CycleFrom(S().ws, start, dir, n) == CycleFrom(S().ws, start, dir, 1)
      {
        i := Probe(count, start, dir, n);
        if windows[i].role.Normal? && windows[i].mapped { return; }
        n := n + 1;
      }
      i := -1;
    }

    method FocusCycle(dir: int)
      requires Valid()
      modifies this, windows
      ensures Valid() && S() == Windows.FocusCycle(old(S()), dir)
    {
      if count == 0 { return; }
      var start := Index(focusId);
      var i := CycleIndex(start, dir);
      if i >= 0 { Focus(windows[i].id); }
    }
  }
}
