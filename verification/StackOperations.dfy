/** What each operation of the window stack does to its entries, written out: which entry it takes,
    where it puts it, which fields change. Everything not named is as it was. */
module StackOperations {
  import opened Windows

  /** Entry i is the first one called id. */
  predicate First(ws: seq<Window>, id: nat, i: nat) {
    i < |ws| && ws[i].id == id && forall j | 0 <= j < i :: ws[j].id != id
  }

  lemma FirstIs(ws: seq<Window>, id: nat, i: nat)
    requires First(ws, id, i)
    ensures IndexOf(ws, id) == i
  {
  }

  /** A new window goes on top of at most 63 others: it is mapped, floats, shows nothing and is left to
      the server to decorate; it does not get the focus. The 65th is refused. */
  lemma CreateSays(s: Stack, role: Role, x: int, y: int, w: int, h: int, color: nat)
    ensures var (r, id) := Create(s, role, x, y, w, h, color);
            if |s.ws| >= 64 then r == s && id == 0
            else
              && id == s.nextId && r.nextId == id + 1 && r.focus == s.focus
              && |r.ws| == |s.ws| + 1 && r.ws[..|s.ws|] == s.ws
              && var n := r.ws[|s.ws|];
                 && n.id == id && n.role == role && n.x == x && n.y == y && n.w == w && n.h == h && n.color == color
                 && n.mapped && n.buf.Null? && !n.snapped && !n.appDecorated
  {
  }

  /** None of the operations does anything about an id no window has. */
  lemma DeadId(s: Stack, id: nat, x: int, y: int, w: int, h: int)
    requires forall j | 0 <= j < |s.ws| :: s.ws[j].id != id
    ensures Focus(s, id) == s && Raise(s, id) == s && Lower(s, id) == s && Destroy(s, id) == s
    ensures MoveTo(s, id, x, y) == s && SetGeometry(s, id, x, y, w, h) == s
  {
  }

  /** A window that takes the focus goes on top of all the others, unless it is a wallpaper, which
      stays where it is. */
  lemma FocusSays(s: Stack, id: nat, i: nat)
    requires First(s.ws, id, i)
    ensures var r := Focus(s, id);
            && r.focus == id && r.nextId == s.nextId
            && r.ws == if s.ws[i].role.Desktop? then s.ws else s.ws[..i] + s.ws[i + 1..] + [s.ws[i]]
  {
    FirstIs(s.ws, id, i);
  }

  lemma RaiseSays(s: Stack, id: nat, i: nat)
    requires First(s.ws, id, i)
    ensures Raise(s, id).ws == s.ws[..i] + s.ws[i + 1..] + [s.ws[i]]
    ensures Raise(s, id).focus == s.focus && Raise(s, id).nextId == s.nextId
  {
    FirstIs(s.ws, id, i);
  }

  lemma LowerSays(s: Stack, id: nat, i: nat)
    requires First(s.ws, id, i)
    ensures Lower(s, id).ws == [s.ws[i]] + s.ws[..i] + s.ws[i + 1..]
    ensures Lower(s, id).focus == s.focus && Lower(s, id).nextId == s.nextId
  {
    FirstIs(s.ws, id, i);
  }

  /** A destroyed window leaves a gap that closes; if it had the focus, the window on top of what is
      left has it then, or no window. */
  lemma DestroySays(s: Stack, id: nat, i: nat)
    requires First(s.ws, id, i)
    ensures var r := Destroy(s, id);
            && r.ws == s.ws[..i] + s.ws[i + 1..] && r.nextId == s.nextId
            && (s.focus != id ==> r.focus == s.focus)
            && (s.focus == id ==>
                  r.focus == if |s.ws| == 1 then 0 else if i == |s.ws| - 1 then s.ws[i - 1].id else s.ws[|s.ws| - 1].id)
  {
    FirstIs(s.ws, id, i);
  }

  /** Only the position changes, of that window only. */
  lemma MoveSays(s: Stack, id: nat, x: int, y: int, i: nat, j: nat)
    requires First(s.ws, id, i) && j < |s.ws|
    ensures var r := MoveTo(s, id, x, y);
            && |r.ws| == |s.ws| && r.focus == s.focus && r.nextId == s.nextId
            && r.ws[j] == if j == i then s.ws[i].(x := x, y := y) else s.ws[j]
  {
    FirstIs(s.ws, id, i);
  }

  /** Only the rectangle changes, of that window only, and of its size only what is positive. */
  lemma GeometrySays(s: Stack, id: nat, x: int, y: int, w: int, h: int, i: nat, j: nat)
    requires First(s.ws, id, i) && j < |s.ws|
    ensures var r, n := SetGeometry(s, id, x, y, w, h), s.ws[i];
            && |r.ws| == |s.ws| && r.focus == s.focus && r.nextId == s.nextId
            && r.ws[j] == if j != i then s.ws[j]
                          else if w > 0 && h > 0 then n.(x := x, y := y, w := w, h := h)
                          else if w > 0 then n.(x := x, y := y, w := w)
                          else if h > 0 then n.(x := x, y := y, h := h)
                          else n.(x := x, y := y)
  {
    FirstIs(s.ws, id, i);
  }

  // ---- Alt-Tab ---------------------------------------------------------------------------------

  predicate InRotation(w: Window) { w.role == Normal && w.mapped }

  /** The entry k steps up from `start`, or down, going round at the ends. */
  function Away(n: nat, start: int, dir: int, k: nat): (i: nat)
    requires n > 0
    ensures i < n
  {
    (if dir >= 0 then start + k else start - k) % n
  }

  /** Entry i is the first mapped NORMAL window that one comes to from `start`, itself last. */
  ghost predicate NextFrom(ws: seq<Window>, start: int, dir: int, i: nat)
    requires ws != []
  {
    exists k: nat :: 1 <= k <= |ws| && i == Away(|ws|, start, dir, k) && InRotation(ws[i])
      && forall l: nat | 1 <= l < k :: !InRotation(ws[Away(|ws|, start, dir, l)])
  }

  lemma {:induction false} CycleSays(ws: seq<Window>, start: int, dir: int, k: nat)
    requires ws != [] && 1 <= k <= |ws| + 1
    requires forall l: nat | 1 <= l < k :: !InRotation(ws[Away(|ws|, start, dir, l)])
    ensures var i := CycleFrom(ws, start, dir, k);
            if i >= 0 then NextFrom(ws, start, dir, i)
            else forall l: nat | 1 <= l <= |ws| :: !InRotation(ws[Away(|ws|, start, dir, l)])
    decreases |ws| + 1 - k
  {
    if k <= |ws| {
      WrapIsEuclidean(if dir >= 0 then start + k else start - k, |ws|);
      assert Probe(|ws|, start, dir, k) == Away(|ws|, start, dir, k);
      if !InRotation(ws[Away(|ws|, start, dir, k)]) { CycleSays(ws, start, dir, k + 1); }
    }
  }

  /** Alt-Tab focuses the window the walk comes to first from the focused one (from below the bottom if
      none is), and if it comes to none, nothing happens. */
  lemma TabSays(s: Stack, f: int, dir: int)
    requires s.ws != []
    requires if f >= 0 then First(s.ws, s.focus, f) else f == -1 && forall j | 0 <= j < |s.ws| :: s.ws[j].id != s.focus
    ensures (exists i: nat :: i < |s.ws| && NextFrom(s.ws, f, dir, i) && FocusCycle(s, dir) == Focus(s, s.ws[i].id))
         || ((forall l: nat | 1 <= l <= |s.ws| :: !InRotation(s.ws[Away(|s.ws|, f, dir, l)])) && FocusCycle(s, dir) == s)
  {
    hide Focus;
    if f >= 0 { FirstIs(s.ws, s.focus, f); }
    CycleSays(s.ws, f, dir, 1);
  }
}
