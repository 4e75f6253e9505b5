/** The server-owned window model (include/window.h, src/window.c) on values: the z-ordered
    stack, every operation on it, and the two views the other modules reason with. */
module Windows {
  const WIN_MAX: nat := 64
  const TITLEBAR_H: int := 28

  type U8 = n: nat | n < 256

  datatype Role = Normal | Desktop | Taskbar | Tray | Menu | Tooltip

  /** A C pointer to pixels: NULL, a client mapping made by the transport, or a heap copy made
      by the Wayland frontend. Each mapping and each heap block has its own number. */
  datatype Ptr = Null | Mapping(m: nat) | Heap(h: nat)

  datatype Window = Window(
    id: nat, role: Role, x: int, y: int, w: int, h: int, mapped: bool, color: nat,
    buf: Ptr, bufW: int, bufH: int, bufStride: int,
    snapped: bool, savedX: int, savedY: int, savedW: int, savedH: int,
    appDecorated: bool)

  /** ws[0] is the bottom, the last entry is the top. */
  datatype Stack = Stack(ws: seq<Window>, focus: nat, nextId: nat)

  const EmptyStack := Stack([], 0, 1)

  predicate HasSsd(w: Window) { w.role.Normal? && !w.appDecorated }

  predicate Contains(w: Window, gx: int, gy: int) {
    w.x <= gx < w.x + w.w && w.y <= gy < w.y + w.h
  }

  predicate Hit(w: Window, gx: int, gy: int) { w.mapped && Contains(w, gx, gy) }

  /** A window Alt-Tab may land on. */
  predicate Tabbable(w: Window) { w.role.Normal? && w.mapped }

  /** C's integer division and remainder, which truncate toward zero. */
  function TruncDiv(a: int, b: nat): int
    requires b > 0
  {
    if a >= 0 then a / b else -((-a) / b)
  }

  function TruncMod(a: int, b: nat): int
    requires b > 0
  {
    if a >= 0 then a % b else -((-a) % b)
  }

  // ---- lookups -----------------------------------------------------------

  function IndexFrom(ws: seq<Window>, id: nat, from: nat): (i: int)
    requires from <= |ws|
    ensures i == -1 || from <= i < |ws|
    ensures i >= 0 ==> ws[i].id == id && forall j | from <= j < i :: ws[j].id != id
    ensures i < 0 ==> forall j | from <= j < |ws| :: ws[j].id != id
    decreases |ws| - from
  {
    if from == |ws| then -1 else if ws[from].id == id then from else IndexFrom(ws, id, from + 1)
  }

  /** window_index: the first entry with this id, or -1. */
  function IndexOf(ws: seq<Window>, id: nat): (i: int)
    ensures -1 <= i < |ws|
    ensures i >= 0 ==> ws[i].id == id && forall j | 0 <= j < i :: ws[j].id != id
    ensures i < 0 ==> forall j | 0 <= j < |ws| :: ws[j].id != id
  {
    IndexFrom(ws, id, 0)
  }

  function AtFrom(ws: seq<Window>, gx: int, gy: int, n: nat): (i: int)
    requires n <= |ws|
    ensures -1 <= i < n
    ensures i >= 0 ==> Hit(ws[i], gx, gy)
    ensures forall j | i < j < n :: !Hit(ws[j], gx, gy)
  {
    if n == 0 then -1 else if Hit(ws[n - 1], gx, gy) then n - 1 else AtFrom(ws, gx, gy, n - 1)
  }

  /** window_at: index of the topmost mapped window whose rectangle has the point, or -1. */
  function At(ws: seq<Window>, gx: int, gy: int): (i: int)
    ensures -1 <= i < |ws|
    ensures i >= 0 ==> Hit(ws[i], gx, gy)
    ensures forall j | i < j < |ws| :: !Hit(ws[j], gx, gy)
  {
    AtFrom(ws, gx, gy, |ws|)
  }

  predicate Live(ws: seq<Window>, id: nat) { IndexOf(ws, id) >= 0 }

  // ---- operations --------------------------------------------------------

  function NewWindow(id: nat, role: Role, x: int, y: int, w: int, h: int, color: nat): Window {
    Window(id, role, x, y, w, h, true, color, Null, 0, 0, 0, false, 0, 0, 0, 0, false)
  }

  function Create(s: Stack, role: Role, x: int, y: int, w: int, h: int, color: nat): (Stack, nat) {
    if |s.ws| >= WIN_MAX then (s, 0)
    else (Stack(s.ws + [NewWindow(s.nextId, role, x, y, w, h, color)], s.focus, s.nextId + 1), s.nextId)
  }

  function RemoveAt(ws: seq<Window>, i: int): seq<Window>
    requires 0 <= i < |ws|
  {
    ws[..i] + ws[i + 1..]
  }

  function TopId(ws: seq<Window>): nat { if ws == [] then 0 else ws[|ws| - 1].id }

  function Destroy(s: Stack, id: nat): Stack {
    var i := IndexOf(s.ws, id);
    if i < 0 then s
    else
      var ws := RemoveAt(s.ws, i);
      Stack(ws, if s.focus == id then TopId(ws) else s.focus, s.nextId)
  }

  function ToTop(ws: seq<Window>, i: int): seq<Window>
    requires i < |ws|
  {
    if i < 0 || i >= |ws| - 1 then ws else ws[..i] + ws[i + 1..] + [ws[i]]
  }

  function ToBottom(ws: seq<Window>, i: int): seq<Window>
    requires i < |ws|
  {
    if i <= 0 then ws else [ws[i]] + ws[..i] + ws[i + 1..]
  }

  function Raise(s: Stack, id: nat): Stack { s.(ws := ToTop(s.ws, IndexOf(s.ws, id))) }

  function Lower(s: Stack, id: nat): Stack { s.(ws := ToBottom(s.ws, IndexOf(s.ws, id))) }

  /** Overwrite the window called id with w; nothing happens when there is none. */
  function Put(ws: seq<Window>, id: nat, w: Window): seq<Window> {
    var i := IndexOf(ws, id);
    if i < 0 then ws else ws[i := w]
  }

  function MoveTo(s: Stack, id: nat, x: int, y: int): Stack {
    var i := IndexOf(s.ws, id);
    if i < 0 then s else s.(ws := s.ws[i := s.ws[i].(x := x, y := y)])
  }

  function Resized(w: Window, x: int, y: int, nw: int, nh: int): Window {
    w.(x := x, y := y, w := if nw > 0 then nw else w.w, h := if nh > 0 then nh else w.h)
  }

  function SetGeometry(s: Stack, id: nat, x: int, y: int, w: int, h: int): Stack {
    var i := IndexOf(s.ws, id);
    if i < 0 then s else s.(ws := s.ws[i := Resized(s.ws[i], x, y, w, h)])
  }

  function Focus(s: Stack, id: nat): Stack {
    var i := IndexOf(s.ws, id);
    if i < 0 then s
    else if s.ws[i].role.Desktop? then s.(focus := id)
    else Raise(s.(focus := id), id)
  }

  /** The wrapped index ((v % n) + n) % n with C's remainder. */
  function Wrap(v: int, n: nat): int
    requires n > 0
  {
    TruncMod(TruncMod(v, n) + n, n)
  }

  lemma WrapIsEuclidean(v: int, n: nat)
    requires n > 0
    ensures Wrap(v, n) == v % n && 0 <= Wrap(v, n) < n
  {
    if v >= 0 {
      ModUnique(v % n + n, n, 1, v % n);
    } else {
      WrapNegative(0 - v, n);
    }
  }

  lemma WrapNegative(u: nat, n: nat)
    requires n > 0
    ensures (-(u % n) + n) % n == (0 - u) % n
    ensures -(u % n) + n > 0
  {
    var q, k := u % n, u / n;
    assert u == n * k + q;
    if q == 0 {
      ModUnique(n, n, 1, 0);
      ModUnique(0 - u, n, -k, 0);
    } else {
      ModUnique(n - q, n, 0, n - q);
      assert n * (-k - 1) == -(n * k) - n;
      ModUnique(0 - u, n, -k - 1, n - q);
    }
  }

  lemma MulAtLeast(n: nat, d: int)
    ensures d > 0 ==> n * d >= n
    ensures d < 0 ==> n * d <= -(n as int)
  {
  }

  lemma ModUnique(v: int, n: nat, k: int, r: int)
    requires n > 0 && 0 <= r < n && v == n * k + r
    ensures v % n == r
  {
    assert v == n * (v / n) + v % n;
    assert n * (v / n - k) == r - v % n;
    MulAtLeast(n, v / n - k);
  }

  /** The index the k-th probe of window_focus_cycle looks at. */
  function Probe(n: nat, start: int, dir: int, k: nat): (i: nat)
    requires n > 0
    ensures i < n
  {
    WrapIsEuclidean(if dir >= 0 then start + k else start - k, n);
    Wrap(if dir >= 0 then start + k else start - k, n)
  }

  /** The scan of window_focus_cycle from its k-th probe on: the index it focuses, or -1. */
  function CycleFrom(ws: seq<Window>, start: int, dir: int, k: nat): (i: int)
    requires ws != []
    ensures -1 <= i < |ws|
    decreases |ws| + 1 - k
  {
    if k > |ws| then -1
    else if Tabbable(ws[Probe(|ws|, start, dir, k)]) then Probe(|ws|, start, dir, k)
    else CycleFrom(ws, start, dir, k + 1)
  }

  function FocusCycle(s: Stack, dir: int): Stack {
    if s.ws == [] then s
    else
      var i := CycleFrom(s.ws, IndexOf(s.ws, s.focus), dir, 1);
      if i < 0 then s else Focus(s, s.ws[i].id)
  }

  // ---- well-formed stacks ------------------------------------------------

  ghost predicate Distinct(ws: seq<Window>) {
    forall i, j | 0 <= i < j < |ws| :: ws[i].id != ws[j].id
  }

  /** Ids are distinct, nonzero and already handed out; focus is 0 or a live window. */
  ghost predicate Ok(s: Stack) {
    && |s.ws| <= WIN_MAX
    && Distinct(s.ws)
    && s.nextId > 0
    && (forall i | 0 <= i < |s.ws| :: 0 < s.ws[i].id < s.nextId)
    && (s.focus == 0 || Live(s.ws, s.focus))
  }

  // ---- the order-free view -----------------------------------------------

  ghost function ViewUpTo(ws: seq<Window>, n: nat): map<nat, Window>
    requires n <= |ws|
  {
    if n == 0 then map[] else ViewUpTo(ws, n - 1)[ws[n - 1].id := ws[n - 1]]
  }

  /** The windows by id, forgetting the z-order. */
  ghost function View(ws: seq<Window>): map<nat, Window> { ViewUpTo(ws, |ws|) }

  lemma {:induction false} ViewUpToAt(ws: seq<Window>, n: nat, i: nat)
    requires Distinct(ws) && i < n <= |ws|
    ensures ws[i].id in ViewUpTo(ws, n) && ViewUpTo(ws, n)[ws[i].id] == ws[i]
  {
    if i < n - 1 { ViewUpToAt(ws, n - 1, i); }
  }

  lemma {:induction false} NotInView(ws: seq<Window>, id: nat, n: nat)
    requires n <= |ws| && forall i | 0 <= i < |ws| :: ws[i].id != id
    ensures id !in ViewUpTo(ws, n)
  {
    if n > 0 { NotInView(ws, id, n - 1); }
  }

  lemma ViewAt(ws: seq<Window>, i: int)
    requires Distinct(ws) && 0 <= i < |ws|
    ensures IndexOf(ws, ws[i].id) == i
    ensures ws[i].id in View(ws) && View(ws)[ws[i].id] == ws[i]
  {
    var j := IndexOf(ws, ws[i].id);
    assert j >= 0 && ws[j].id == ws[i].id;
    ViewUpToAt(ws, |ws|, i);
  }

  lemma ViewLive(ws: seq<Window>, id: nat)
    requires Distinct(ws)
    ensures id in View(ws) <==> Live(ws, id)
    ensures id in View(ws) ==> View(ws)[id] == ws[IndexOf(ws, id)] && View(ws)[id].id == id
  {
    if Live(ws, id) {
      ViewAt(ws, IndexOf(ws, id));
    } else {
      NotInView(ws, id, |ws|);
    }
  }

  lemma LiveAt(ws: seq<Window>, i: int, id: nat)
    requires 0 <= i < |ws| && ws[i].id == id
    ensures Live(ws, id)
  {
  }

  /** A map that holds every entry, and no dead id, is the view. */
  lemma ViewIs(ws: seq<Window>, v: map<nat, Window>)
    requires Distinct(ws)
    requires forall i | 0 <= i < |ws| :: ws[i].id in v && v[ws[i].id] == ws[i]
    requires forall id | id in v :: Live(ws, id)
    ensures View(ws) == v
  {
    forall id ensures id in View(ws) <==> id in v {
      ViewLive(ws, id);
    }
    forall id | id in v ensures View(ws)[id] == v[id] {
      ViewLive(ws, id);
    }
  }

  function Source(i: nat, j: nat, k: int): int { if k == j then i else if i <= k < j then k + 1 else k }

  function Target(i: nat, j: nat, k: int): int { if k == i then j else if i < k <= j then k - 1 else k }

  /** b is a with the entry at i moved up to j. */
  ghost predicate Moved(a: seq<Window>, b: seq<Window>, i: nat, j: nat) {
    i <= j < |a| && |b| == |a| && forall k | 0 <= k < |a| :: b[k] == a[Source(i, j, k)]
  }

  lemma MovedBack(a: seq<Window>, b: seq<Window>, i: nat, j: nat, k: nat)
    requires Moved(a, b, i, j) && k < |a|
    ensures a[k] == b[Target(i, j, k)]
  {
    assert Source(i, j, Target(i, j, k)) == k;
  }

  lemma MovedView(a: seq<Window>, b: seq<Window>, i: nat, j: nat)
    requires Moved(a, b, i, j) && Distinct(a)
    ensures Distinct(b) && View(b) == View(a)
  {
    forall k, l | 0 <= k < l < |b| ensures b[k].id != b[l].id {
      assert b[k] == a[Source(i, j, k)] && b[l] == a[Source(i, j, l)];
    }
    forall k | 0 <= k < |b| ensures b[k].id in View(a) && View(a)[b[k].id] == b[k] {
      ViewAt(a, Source(i, j, k));
    }
    forall id | id in View(a) ensures Live(b, id) {
      ViewLive(a, id);
      MovedBack(a, b, i, j, IndexOf(a, id));
      LiveAt(b, Target(i, j, IndexOf(a, id)), id);
    }
    ViewIs(b, View(a));
  }

  lemma MovedDistinct(a: seq<Window>, b: seq<Window>, i: nat, j: nat)
    requires Moved(a, b, i, j) && Distinct(b)
    ensures Distinct(a)
  {
    forall k, l | 0 <= k < l < |a| ensures a[k].id != a[l].id {
      MovedBack(a, b, i, j, k);
      MovedBack(a, b, i, j, l);
      assert Target(i, j, k) != Target(i, j, l);
    }
  }

  lemma ToTopMoved(ws: seq<Window>, i: nat)
    requires i < |ws|
    ensures Moved(ws, ToTop(ws, i), i, |ws| - 1)
  {
  }

  lemma ToBottomMoved(ws: seq<Window>, i: nat)
    requires i < |ws|
    ensures Moved(ToBottom(ws, i), ws, 0, i)
  {
  }

  lemma ToTopFacts(ws: seq<Window>, i: int)
    requires Distinct(ws) && i < |ws|
    ensures Distinct(ToTop(ws, i)) && |ToTop(ws, i)| == |ws| && View(ToTop(ws, i)) == View(ws)
  {
    if 0 <= i {
      ToTopMoved(ws, i);
      MovedView(ws, ToTop(ws, i), i, |ws| - 1);
    }
  }

  lemma ToBottomFacts(ws: seq<Window>, i: int)
    requires Distinct(ws) && i < |ws|
    ensures Distinct(ToBottom(ws, i)) && |ToBottom(ws, i)| == |ws| && View(ToBottom(ws, i)) == View(ws)
  {
    if 0 <= i {
      ToBottomMoved(ws, i);
      MovedDistinct(ToBottom(ws, i), ws, 0, i);
      MovedView(ToBottom(ws, i), ws, 0, i);
    }
  }

  lemma PutFacts(ws: seq<Window>, i: int, w: Window)
    requires Distinct(ws) && 0 <= i < |ws| && w.id == ws[i].id
    ensures Distinct(ws[i := w]) && View(ws[i := w]) == View(ws)[w.id := w]
  {
    var r, v := ws[i := w], View(ws)[w.id := w];
    forall k | 0 <= k < |r| ensures r[k].id in v && v[r[k].id] == r[k] {
      ViewAt(ws, k);
    }
    forall id | id in v ensures Live(r, id) {
      ViewAt(ws, i);
      ViewLive(ws, id);
      LiveAt(r, IndexOf(ws, id), id);
    }
    ViewIs(r, v);
  }

  lemma AppendFacts(ws: seq<Window>, w: Window)
    requires Distinct(ws) && !Live(ws, w.id)
    ensures Distinct(ws + [w]) && View(ws + [w]) == View(ws)[w.id := w]
  {
    var r, v := ws + [w], View(ws)[w.id := w];
    forall k | 0 <= k < |r| ensures r[k].id in v && v[r[k].id] == r[k] {
      if k < |ws| { ViewAt(ws, k); }
    }
    forall id | id in v ensures Live(r, id) {
      ViewLive(ws, id);
      LiveAt(r, if id == w.id then |ws| else IndexOf(ws, id), id);
    }
    ViewIs(r, v);
  }

  // ---- removing any set of windows ---------------------------------------

  function Without(ws: seq<Window>, ids: set<nat>): seq<Window> {
    if ws == [] then []
    else if ws[|ws| - 1].id in ids then Without(ws[..|ws| - 1], ids)
    else Without(ws[..|ws| - 1], ids) + [ws[|ws| - 1]]
  }

  /** The stack after every window of a set is gone: the others keep their order, and a lost
      focus goes to the topmost survivor. */
  function Reaped(s: Stack, ids: set<nat>): Stack {
    var ws := Without(s.ws, ids);
    Stack(ws, if s.focus in ids then TopId(ws) else s.focus, s.nextId)
  }

  lemma {:induction false} WithoutMembers(ws: seq<Window>, ids: set<nat>)
    ensures |Without(ws, ids)| <= |ws|
    ensures forall w :: w in Without(ws, ids) <==> w in ws && w.id !in ids
  {
    if ws != [] {
      WithoutMembers(ws[..|ws| - 1], ids);
      assert ws == ws[..|ws| - 1] + [ws[|ws| - 1]];
    }
  }

  lemma {:induction false} WithoutDistinct(ws: seq<Window>, ids: set<nat>)
    requires Distinct(ws)
    ensures Distinct(Without(ws, ids))
  {
    if ws != [] {
      var front := ws[..|ws| - 1];
      WithoutDistinct(front, ids);
      WithoutMembers(front, ids);
      var r := Without(front, ids);
      forall i | 0 <= i < |r| ensures r[i].id != ws[|ws| - 1].id {
        assert r[i] in r;
        assert r[i] in front;
      }
    }
  }

  lemma WithoutView(ws: seq<Window>, ids: set<nat>)
    requires Distinct(ws)
    ensures Distinct(Without(ws, ids)) && View(Without(ws, ids)) == View(ws) - ids
  {
    var r := Without(ws, ids);
    WithoutDistinct(ws, ids);
    WithoutMembers(ws, ids);
    forall k | 0 <= k < |r| ensures r[k].id in View(ws) - ids && View(ws)[r[k].id] == r[k] {
      assert r[k] in r;
      var j :| 0 <= j < |ws| && ws[j] == r[k];
      ViewAt(ws, j);
    }
    forall id | id in View(ws) - ids ensures Live(r, id) {
      ViewLive(ws, id);
      assert ws[IndexOf(ws, id)] in ws;
      var k :| 0 <= k < |r| && r[k] == ws[IndexOf(ws, id)];
      LiveAt(r, k, id);
    }
    ViewIs(r, View(ws) - ids);
  }

  lemma {:induction false} WithoutNone(ws: seq<Window>, ids: set<nat>)
    requires forall i | 0 <= i < |ws| :: ws[i].id !in ids
    ensures Without(ws, ids) == ws
  {
    if ws != [] { WithoutNone(ws[..|ws| - 1], ids); }
  }

  lemma {:induction false} WithoutTwice(ws: seq<Window>, a: set<nat>, b: set<nat>)
    ensures Without(Without(ws, a), b) == Without(ws, a + b)
  {
    if ws != [] {
      var last := ws[|ws| - 1];
      WithoutTwice(ws[..|ws| - 1], a, b);
      if last.id !in a {
        var r := Without(ws[..|ws| - 1], a);
        assert (r + [last])[..|r + [last]| - 1] == r;
      }
    }
  }

  lemma {:induction false} RemoveIsWithout(ws: seq<Window>, i: nat, id: nat)
    requires Distinct(ws) && i < |ws| && ws[i].id == id
    ensures Without(ws, {id}) == RemoveAt(ws, i)
  {
    var front := ws[..|ws| - 1];
    if i == |ws| - 1 {
      WithoutNone(front, {id});
    } else {
      RemoveIsWithout(front, i, id);
    }
  }

  lemma WithoutThis(ws: seq<Window>, id: nat)
    requires Distinct(ws)
    ensures Without(ws, {id}) == if IndexOf(ws, id) < 0 then ws else RemoveAt(ws, IndexOf(ws, id))
  {
    var i := IndexOf(ws, id);
    if i < 0 { WithoutNone(ws, {id}); } else { RemoveIsWithout(ws, i, id); }
  }

  /** window_destroy removes exactly the named window; a lost focus goes to the new top. */
  lemma DestroyIsReaped(s: Stack, id: nat)
    requires Ok(s) && id != 0
    ensures Destroy(s, id) == Reaped(s, {id})
  {
    WithoutThis(s.ws, id);
  }

  lemma {:induction false} WithoutTop(ws: seq<Window>, a: set<nat>, b: set<nat>)
    requires Without(ws, a) != [] && TopId(Without(ws, a)) !in b
    ensures TopId(Without(ws, a + b)) == TopId(Without(ws, a)) && Without(ws, a + b) != []
  {
    if ws[|ws| - 1].id in a { WithoutTop(ws[..|ws| - 1], a, b); }
  }

  /** Reaping in two rounds is reaping at once, focus included. */
  lemma ReapedTwice(s: Stack, a: set<nat>, b: set<nat>)
    requires Ok(s) && 0 !in a && 0 !in b
    ensures Reaped(Reaped(s, a), b) == Reaped(s, a + b)
  {
    WithoutTwice(s.ws, a, b);
    if s.focus in a && Without(s.ws, a) != [] && TopId(Without(s.ws, a)) !in b {
      WithoutTop(s.ws, a, b);
    } else if s.focus in a && Without(s.ws, a) == [] {
      assert Without([], b) == [];
    }
  }

  lemma ReapedOk(s: Stack, ids: set<nat>)
    requires Ok(s)
    ensures Ok(Reaped(s, ids)) && View(Reaped(s, ids).ws) == View(s.ws) - ids
  {
    WithoutView(s.ws, ids);
    WithoutMembers(s.ws, ids);
    var r := Reaped(s, ids);
    forall i | 0 <= i < |r.ws| ensures 0 < r.ws[i].id < r.nextId {
      assert r.ws[i] in r.ws;
    }
    if s.focus in ids {
      if r.ws != [] { ViewAt(r.ws, |r.ws| - 1); }
    } else if s.focus != 0 {
      ViewLive(s.ws, s.focus);
      ViewLive(r.ws, s.focus);
    }
  }

  // ---- well-formedness and views through the other operations -------------

  lemma CreateOk(s: Stack, role: Role, x: int, y: int, w: int, h: int, color: nat)
    requires Ok(s)
    ensures var (r, id) := Create(s, role, x, y, w, h, color);
            && Ok(r)
            && (id == 0 <==> |s.ws| >= WIN_MAX)
            && (id != 0 ==> id == s.nextId && id !in View(s.ws) &&
                            View(r.ws) == View(s.ws)[id := NewWindow(id, role, x, y, w, h, color)])
  {
    if |s.ws| < WIN_MAX {
      var n := NewWindow(s.nextId, role, x, y, w, h, color);
      ViewLive(s.ws, s.nextId);
      AppendFacts(s.ws, n);
      if s.focus != 0 {
        ViewLive(s.ws, s.focus);
        ViewLive(s.ws + [n], s.focus);
      }
    }
  }

  lemma FocusOk(s: Stack, id: nat)
    requires Ok(s)
    ensures Ok(Focus(s, id)) && View(Focus(s, id).ws) == View(s.ws)
    ensures id in View(s.ws) ==> Focus(s, id).focus == id
  {
    ViewLive(s.ws, id);
    var i := IndexOf(s.ws, id);
    if i >= 0 {
      ToTopFacts(s.ws, i);
      Reordered(s.(focus := id), ToTop(s.ws, i));
    }
  }

  /** A stack whose entries are only rearranged stays well-formed. */
  lemma Reordered(s: Stack, ws: seq<Window>)
    requires Ok(s) && Distinct(ws) && |ws| == |s.ws| && View(ws) == View(s.ws)
    ensures Ok(s.(ws := ws))
  {
    forall i | 0 <= i < |ws| ensures 0 < ws[i].id < s.nextId {
      ViewAt(ws, i);
      ViewLive(s.ws, ws[i].id);
    }
    ViewLive(s.ws, s.focus);
    ViewLive(ws, s.focus);
  }

  lemma LowerOk(s: Stack, id: nat)
    requires Ok(s)
    ensures Ok(Lower(s, id)) && View(Lower(s, id).ws) == View(s.ws)
  {
    var i := IndexOf(s.ws, id);
    ToBottomFacts(s.ws, i);
    Reordered(s, ToBottom(s.ws, i));
  }

  /** Rewriting the fields of one window. */
  lemma PutOk(s: Stack, i: int, w: Window)
    requires Ok(s) && 0 <= i < |s.ws| && w.id == s.ws[i].id
    ensures Ok(s.(ws := s.ws[i := w])) && View(s.ws[i := w]) == View(s.ws)[w.id := w]
  {
    PutFacts(s.ws, i, w);
    ViewAt(s.ws, i);
    var r := s.ws[i := w];
    forall k | 0 <= k < |r| ensures 0 < r[k].id < s.nextId {
      assert r[k].id == s.ws[k].id;
    }
    ViewLive(s.ws, s.focus);
    ViewLive(r, s.focus);
  }

  lemma FocusCycleOk(s: Stack, dir: int)
    requires Ok(s)
    ensures Ok(FocusCycle(s, dir)) && View(FocusCycle(s, dir).ws) == View(s.ws)
  {
    if s.ws != [] {
      var i := CycleFrom(s.ws, IndexOf(s.ws, s.focus), dir, 1);
      if i >= 0 { FocusOk(s, s.ws[i].id); }
    }
  }
}
