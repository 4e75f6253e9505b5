/** Alt-Tab is a fair round robin over the mapped NORMAL windows. */
module AltTab {
  import opened Windows
  import opened ZOrder

  /** The Alt-Tab candidates (tab) or everything else (!tab), bottom to top. */
  function Pick(ws: seq<Window>, tab: bool): seq<Window> {
    if ws == [] then []
    else if Tabbable(ws[|ws| - 1]) == tab then Pick(ws[..|ws| - 1], tab) + [ws[|ws| - 1]]
    else Pick(ws[..|ws| - 1], tab)
  }

  lemma {:induction false} PickSplit(a: seq<Window>, b: seq<Window>, tab: bool)
    ensures Pick(a + b, tab) == Pick(a, tab) + Pick(b, tab)
  {
    if b == [] {
      assert a + b == a;
    } else {
      var front := b[..|b| - 1];
      PickSplit(a, front, tab);
      assert (a + b)[..|a + b| - 1] == a + front;
    }
  }

  lemma {:induction false} PickNone(ws: seq<Window>)
    requires forall i | 0 <= i < |ws| :: !Tabbable(ws[i])
    ensures Pick(ws, true) == []
  {
    if ws != [] { PickNone(ws[..|ws| - 1]); }
  }

  ghost predicate IsLowest(ws: seq<Window>, i: nat) {
    i < |ws| && Tabbable(ws[i]) && forall j | 0 <= j < i :: !Tabbable(ws[j])
  }

  lemma {:induction false} Lowest(ws: seq<Window>) returns (i: nat)
    requires Pick(ws, true) != []
    ensures IsLowest(ws, i)
  {
    var front := ws[..|ws| - 1];
    if Pick(front, true) != [] {
      i := Lowest(front);
    } else {
      i := |ws| - 1;
      forall j | 0 <= j < i ensures !Tabbable(ws[j]) {
        NotPicked(front, j);
      }
    }
  }

  lemma {:induction false} NotPicked(ws: seq<Window>, j: nat)
    requires Pick(ws, true) == [] && j < |ws|
    ensures !Tabbable(ws[j])
  {
    if j < |ws| - 1 { NotPicked(ws[..|ws| - 1], j); }
  }

  /** The scan stops at its first hit. */
  lemma {:induction false} FirstHit(ws: seq<Window>, start: int, n: nat, m: nat)
    requires 1 <= n <= m <= |ws|
    requires Tabbable(ws[Probe(|ws|, start, 1, m)])
    requires forall k | n <= k < m :: !Tabbable(ws[Probe(|ws|, start, 1, k)])
    ensures CycleFrom(ws, start, 1, n) == Probe(|ws|, start, 1, m)
    decreases m - n
  {
    if n < m { FirstHit(ws, start, n + 1, m); }
  }

  lemma ProbeIs(n: nat, start: int, k: nat)
    requires n > 0 && 0 <= start + k < 2 * n
    ensures Probe(n, start, 1, k) == if start + k < n then start + k else start + k - n
  {
    WrapIsEuclidean(start + k, n);
    ModUnique(start + k, n, if start + k < n then 0 else 1, if start + k < n then start + k else start + k - n);
  }

  /** From an extreme focus, Alt-Tab always lands on the lowest candidate. */
  lemma LandsOnLowest(s: Stack, low: nat)
    requires Ok(s) && FocusExtreme(s) && IsLowest(s.ws, low)
    ensures CycleFrom(s.ws, IndexOf(s.ws, s.focus), 1, 1) == low
  {
    var n, f := |s.ws|, IndexOf(s.ws, s.focus);
    var m := if low <= f then n - f + low else low - f;
    if low <= f {
      assert !NoTabBelow(s.ws, s.focus);
    }
    ProbeIs(n, f, m);
    forall k | 1 <= k < m ensures !Tabbable(s.ws[Probe(n, f, 1, k)]) {
      ProbeIs(n, f, k);
      if low <= f && f + k < n { assert s.ws[f].id == s.focus; }
    }
    FirstHit(s.ws, f, 1, m);
  }

  lemma PickThree(a: seq<Window>, b: seq<Window>, c: seq<Window>, tab: bool)
    ensures Pick(a + b + c, tab) == Pick(a, tab) + Pick(b, tab) + Pick(c, tab)
  {
    PickSplit(a + b, c, tab);
    PickSplit(a, b, tab);
  }

  lemma PickOne(w: Window, tab: bool)
    ensures Pick([w], tab) == if Tabbable(w) == tab then [w] else []
  {
    assert [w][..0] == [];
  }

  /** What raising a candidate does to the two subsequences, in terms of its two sides. */
  lemma RaiseSplits(ws: seq<Window>, i: nat, tab: bool) returns (a: seq<Window>, b: seq<Window>)
    requires i < |ws| && Tabbable(ws[i])
    ensures Pick(ws, tab) == a + (if tab then [ws[i]] else []) + b
    ensures Pick(ToTop(ws, i), tab) == a + b + (if tab then [ws[i]] else [])
    ensures tab && IsLowest(ws, i) ==> a == []
  {
    var lo, w, hi := ws[..i], [ws[i]], ws[i + 1..];
    assert ToTop(ws, i) == lo + hi + w;
    assert ws == lo + w + hi;
    PickThree(lo, w, hi, tab);
    PickThree(lo, hi, w, tab);
    PickOne(ws[i], tab);
    a, b := Pick(lo, tab), Pick(hi, tab);
    if tab && IsLowest(ws, i) { PickNone(lo); }
  }

  lemma RaiseLowest(ws: seq<Window>, i: nat)
    requires IsLowest(ws, i)
    ensures Pick(ws, true) != [] && Pick(ws, true)[0] == ws[i]
    ensures Pick(ToTop(ws, i), true) == Pick(ws, true)[1..] + [ws[i]]
  {
    var a, b := RaiseSplits(ws, i, true);
    ConsTail(ws[i], b);
  }

  lemma RaiseOthers(ws: seq<Window>, i: nat)
    requires IsLowest(ws, i)
    ensures Pick(ToTop(ws, i), false) == Pick(ws, false)
  {
    var c, d := RaiseSplits(ws, i, false);
    assert c + [] + d == c + d + [];
  }

  lemma ConsTail<T>(x: T, s: seq<T>)
    ensures ([] + [x] + s)[1..] == s && ([] + [x] + s)[0] == x && [] + s == s
  {
  }

  /** One press: the lowest candidate is focused and becomes the highest. */
  lemma OnePress(s: Stack)
    requires Ok(s) && Ordered(s) && Pick(s.ws, true) != []
    ensures var r, c := FocusCycle(s, 1), Pick(s.ws, true);
            && Ok(r) && Ordered(r)
            && r.focus == c[0].id
            && Pick(r.ws, true) == c[1..] + [c[0]]
            && Pick(r.ws, false) == Pick(s.ws, false)
  {
    var low := Lowest(s.ws);
    LandsOnLowest(s, low);
    FocusCycleOk(s, 1);
    FocusCycleOrdered(s, 1);
    ViewAt(s.ws, low);
    RaiseLowest(s.ws, low);
    RaiseOthers(s.ws, low);
  }

  function Presses(s: Stack, j: nat): Stack {
    if j == 0 then s else FocusCycle(Presses(s, j - 1), 1)
  }

  function Rotate<T>(c: seq<T>, j: nat): seq<T>
    requires j <= |c|
  {
    c[j..] + c[..j]
  }

  lemma RotateStep<T>(c: seq<T>, m: nat)
    requires m < |c|
    ensures Rotate(c, m)[1..] + [Rotate(c, m)[0]] == Rotate(c, if m + 1 < |c| then m + 1 else 0)
    ensures Rotate(c, m)[0] == c[m]
  {
  }

  /** j modulo k, counted up one press at a time. */
  function Turn(j: nat, k: nat): (t: nat)
    requires k > 0
    ensures t < k
  {
    if j == 0 then 0 else if Turn(j - 1, k) + 1 < k then Turn(j - 1, k) + 1 else 0
  }

  lemma {:induction false} TurnIsMod(j: nat, k: nat)
    requires k > 0
    ensures Turn(j, k) == j % k
  {
    if j > 0 {
      TurnIsMod(j - 1, k);
      var q, m := (j - 1) / k, (j - 1) % k;
      assert k * (q + 1) == k * q + k;
      ModUnique(j, k, if m + 1 < k then q else q + 1, if m + 1 < k then m + 1 else 0);
    } else {
      ModUnique(0, k, 0, 0);
    }
  }

  /** r is s with its candidates c rotated by t and everything else as it was. */
  ghost predicate Turned(s: Stack, r: Stack, t: nat) {
    && Ok(r) && Ordered(r)
    && t < |Pick(s.ws, true)|
    && Pick(r.ws, true) == Rotate(Pick(s.ws, true), t)
    && Pick(r.ws, false) == Pick(s.ws, false)
  }

  lemma PressTurned(s: Stack, r: Stack, t: nat)
    requires Turned(s, r, t)
    ensures Turned(s, FocusCycle(r, 1), if t + 1 < |Pick(s.ws, true)| then t + 1 else 0)
    ensures FocusCycle(r, 1).focus == Pick(s.ws, true)[t].id
  {
    OnePress(r);
    RotateStep(Pick(s.ws, true), t);
  }

  lemma {:induction false} RoundRobinTurn(s: Stack, j: nat)
    requires Ok(s) && Ordered(s) && Pick(s.ws, true) != []
    ensures Turned(s, Presses(s, j), Turn(j, |Pick(s.ws, true)|))
  {
    if j == 0 {
      assert Rotate(Pick(s.ws, true), 0) == Pick(s.ws, true);
    } else {
      RoundRobinTurn(s, j - 1);
      PressTurned(s, Presses(s, j - 1), Turn(j - 1, |Pick(s.ws, true)|));
    }
  }

  lemma FocusTurn(s: Stack, j: nat)
    requires Ok(s) && Ordered(s) && Pick(s.ws, true) != []
    ensures Presses(s, j + 1).focus == Pick(s.ws, true)[Turn(j, |Pick(s.ws, true)|)].id
  {
    var r := Presses(s, j);
    RoundRobinTurn(s, j);
    PressTurned(s, r, Turn(j, |Pick(s.ws, true)|));
  }

  /** j presses rotate the k candidates by m = j mod k and leave every other window where it was
      relative to the rest; the next press focuses the original candidate number m. */
  lemma RoundRobin(s: Stack, j: nat, m: nat)
    requires Ok(s) && Ordered(s) && Pick(s.ws, true) != []
    requires m == j % |Pick(s.ws, true)|
    ensures Turned(s, Presses(s, j), m)
    ensures Presses(s, j + 1).focus == Pick(s.ws, true)[m].id
  {
    TurnIsMod(j, |Pick(s.ws, true)|);
    RoundRobinTurn(s, j);
    FocusTurn(s, j);
  }

  /** What j presses have done to s, if r is the result. */
  ghost predicate Cycled(s: Stack, r: Stack, j: nat) {
    var c := Pick(s.ws, true);
    && c != []
    && Turned(s, r, j % |c|)
    && (j > 0 ==> 0 <= (j - 1) % |c| < |c| && r.focus == c[(j - 1) % |c|].id)
  }

  lemma AfterPresses(s: Stack, j: nat)
    requires Ok(s) && Ordered(s) && Pick(s.ws, true) != []
    ensures Cycled(s, Presses(s, j), j)
  {
    var k := |Pick(s.ws, true)|;
    RoundRobin(s, j, j % k);
    if j > 0 { RoundRobin(s, j - 1, (j - 1) % k); }
  }

  /** After k presses the candidates are back in their original order. */
  lemma FullCircle(s: Stack)
    requires Ok(s) && Ordered(s) && Pick(s.ws, true) != []
    ensures Pick(Presses(s, |Pick(s.ws, true)|).ws, true) == Pick(s.ws, true)
  {
    var c := Pick(s.ws, true);
    ModUnique(|c|, |c|, 1, 0);
    RoundRobin(s, |c|, 0);
    assert Rotate(c, 0) == c;
  }

  /** With no candidate a press changes nothing. */
  lemma {:induction false} NothingToTab(ws: seq<Window>, start: int, k: nat)
    requires ws != [] && Pick(ws, true) == []
    ensures CycleFrom(ws, start, 1, k) == -1
    decreases |ws| + 1 - k
  {
    if k <= |ws| {
      NotPicked(ws, Probe(|ws|, start, 1, k));
      NothingToTab(ws, start, k + 1);
    }
  }
}
