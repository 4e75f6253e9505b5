/** What every run keeps about the z-order: wallpapers stay below everything else, and the
    focused window is above every Alt-Tab candidate or below all of them. */
module ZOrder {
  import opened Windows

  /** Desktop windows form a prefix of the stack. */
  ghost predicate DesktopPrefix(ws: seq<Window>) {
    forall i, j | 0 <= i < j < |ws| :: ws[j].role.Desktop? ==> ws[i].role.Desktop?
  }

  ghost predicate NoTabAbove(ws: seq<Window>, id: nat) {
    forall i, j | 0 <= i < j < |ws| :: ws[i].id == id ==> !Tabbable(ws[j])
  }

  ghost predicate NoTabBelow(ws: seq<Window>, id: nat) {
    forall i, j | 0 <= i <= j < |ws| :: ws[j].id == id ==> !Tabbable(ws[i])
  }

  ghost predicate FocusExtreme(s: Stack) {
    NoTabAbove(s.ws, s.focus) || NoTabBelow(s.ws, s.focus)
  }

  ghost predicate Ordered(s: Stack) { DesktopPrefix(s.ws) && FocusExtreme(s) }

  /** Same windows in the same places as far as order and Alt-Tab are concerned. */
  ghost predicate SameShape(a: seq<Window>, b: seq<Window>) {
    |a| == |b| && forall i | 0 <= i < |a| :: a[i].id == b[i].id && a[i].role == b[i].role && a[i].mapped == b[i].mapped
  }

  lemma ShapeOrdered(s: Stack, ws: seq<Window>)
    requires Ordered(s) && SameShape(s.ws, ws)
    ensures Ordered(s.(ws := ws))
  {
  }

  /** Where the k-th survivor of Without stood before. */
  ghost function Origin(ws: seq<Window>, ids: set<nat>, k: nat): (p: nat)
    requires k < |Without(ws, ids)|
    ensures p < |ws| && ws[p] == Without(ws, ids)[k]
  {
    var front := ws[..|ws| - 1];
    if ws[|ws| - 1].id !in ids && k == |Without(ws, ids)| - 1 then |ws| - 1 else Origin(front, ids, k)
  }

  lemma {:induction false} OriginMonotone(ws: seq<Window>, ids: set<nat>, k: nat, l: nat)
    requires k < l < |Without(ws, ids)|
    ensures Origin(ws, ids, k) < Origin(ws, ids, l)
  {
    var front := ws[..|ws| - 1];
    if ws[|ws| - 1].id in ids || l < |Without(ws, ids)| - 1 { OriginMonotone(front, ids, k, l); }
  }

  /** Survivors keep every pairwise fact about their order. */
  lemma Survivors(ws: seq<Window>, ids: set<nat>, k: nat, l: nat) returns (p: nat, q: nat)
    requires k <= l < |Without(ws, ids)|
    ensures p <= q < |ws| && (k < l ==> p < q) && ws[p] == Without(ws, ids)[k] && ws[q] == Without(ws, ids)[l]
  {
    p, q := Origin(ws, ids, k), Origin(ws, ids, l);
    if k < l { OriginMonotone(ws, ids, k, l); }
  }

  lemma ReapedOrdered(s: Stack, ids: set<nat>)
    requires Ok(s) && Ordered(s)
    ensures Ordered(Reaped(s, ids))
  {
    var r := Without(s.ws, ids);
    forall i, j | 0 <= i < j < |r| ensures r[j].role.Desktop? ==> r[i].role.Desktop? {
      var p, q := Survivors(s.ws, ids, i, j);
    }
    if s.focus in ids {
      WithoutDistinct(s.ws, ids);
    } else {
      ReapedExtreme(s, ids);
    }
  }

  lemma ReapedExtreme(s: Stack, ids: set<nat>)
    requires FocusExtreme(s) && s.focus !in ids
    ensures FocusExtreme(Reaped(s, ids))
  {
    var r := Without(s.ws, ids);
    if NoTabAbove(s.ws, s.focus) {
      forall i, j | 0 <= i < j < |r| ensures r[i].id == s.focus ==> !Tabbable(r[j]) {
        var p, q := Survivors(s.ws, ids, i, j);
      }
    } else {
      forall i, j | 0 <= i <= j < |r| ensures r[j].id == s.focus ==> !Tabbable(r[i]) {
        var p, q := Survivors(s.ws, ids, i, j);
      }
    }
  }

  lemma FocusOrdered(s: Stack, id: nat)
    requires Ok(s) && Ordered(s)
    ensures Ordered(Focus(s, id))
  {
    var i := IndexOf(s.ws, id);
    if i >= 0 {
      if s.ws[i].role.Desktop? {
        forall a, b | 0 <= a <= b < |s.ws| && s.ws[b].id == id ensures !Tabbable(s.ws[a]) {
          assert b == i;
        }
      } else {
        var r := ToTop(s.ws, i);
        ToTopMoved(s.ws, i);
        ToTopFacts(s.ws, i);
        assert r[|r| - 1].id == id;
      }
    }
  }

  lemma FocusCycleOrdered(s: Stack, dir: int)
    requires Ok(s) && Ordered(s)
    ensures Ordered(FocusCycle(s, dir))
  {
    if s.ws != [] {
      var i := CycleFrom(s.ws, IndexOf(s.ws, s.focus), dir, 1);
      if i >= 0 { FocusOrdered(s, s.ws[i].id); }
    }
  }

  /** A new window on top that is neither a wallpaper nor an Alt-Tab candidate. */
  lemma AppendOrdered(s: Stack, w: Window)
    requires Ok(s) && Ordered(s) && w.id == s.nextId && !w.role.Desktop? && !w.role.Normal?
    ensures Ordered(Stack(s.ws + [w], s.focus, s.nextId + 1))
  {
    ViewLive(s.ws, s.focus);
  }

  /** A new NORMAL window is focused as soon as it is created. */
  lemma AppendFocusOrdered(s: Stack, w: Window)
    requires Ok(s) && Ordered(s) && w.id == s.nextId && w.role.Normal?
    ensures Ordered(Focus(Stack(s.ws + [w], s.focus, s.nextId + 1), w.id))
  {
    var r := s.ws + [w];
    LiveAt(r, |s.ws|, w.id);
    assert IndexOf(r, w.id) == |s.ws|;
  }

  /** A new wallpaper at the bottom. */
  lemma BottomOrdered(s: Stack, w: Window)
    requires Ok(s) && Ordered(s) && w.id == s.nextId && w.role.Desktop?
    ensures Ordered(Stack([w] + s.ws, s.focus, s.nextId + 1))
  {
    var b := [w] + s.ws;
    assert forall i | 0 < i < |b| :: b[i] == s.ws[i - 1];
    ViewLive(s.ws, s.focus);
  }
}
