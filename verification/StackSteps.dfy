/** What the stack keeps when a client's request, a client's death or the Wayland frontend
    changes it: order, wallpapers, title bars, and the nature of every window that stays. */
module StackSteps {
  import opened Windows
  import opened ZOrder
  import opened WmProofs
  import opened Transport
  import Books

  ghost predicate StackOk(s: Stack, sw: int, sh: int) {
    Ok(s) && Ordered(s) && Wallpaper(View(s.ws), sw, sh) && TitlesFit(View(s.ws))
  }

  /** Two snapshots of one window, with only client-side changes between them: role, owner and
      snap state never change, and a window with a server title bar is not moved. */
  ghost predicate SameNature(a: Window, b: Window) {
    && b.role == a.role && b.appDecorated == a.appDecorated && b.mapped == a.mapped
    && b.snapped == a.snapped && b.savedW == a.savedW && b.savedH == a.savedH
    && (HasSsd(a) ==> b.x == a.x && b.y == a.y)
  }

  /** Ids are never reused: a window that was there before is either the same one or gone. */
  ghost predicate Evolves(a: Stack, b: Stack) {
    && a.nextId <= b.nextId
    && forall id | id in View(b.ws) && id < a.nextId ::
         id in View(a.ws) && SameNature(View(a.ws)[id], View(b.ws)[id])
  }

  lemma EvolvesTwice(a: Stack, b: Stack, c: Stack)
    requires Evolves(a, b) && Evolves(b, c)
    ensures Evolves(a, c)
  {
  }

  /** The conclusion every step below reaches. */
  ghost predicate GoodStep(a: Stack, b: Stack, sw: int, sh: int) { StackOk(b, sw, sh) && Evolves(a, b) }

  lemma ReapedStep(s: Stack, ids: set<nat>, sw: int, sh: int)
    requires StackOk(s, sw, sh)
    ensures GoodStep(s, Reaped(s, ids), sw, sh)
  {
    ReapedOk(s, ids);
    ReapedOrdered(s, ids);
  }

  lemma PutStep(s: Stack, i: nat, w: Window, sw: int, sh: int)
    requires StackOk(s, sw, sh) && i < |s.ws| && w.id == s.ws[i].id && SameNature(s.ws[i], w)
    requires TitleFits(w)
    requires w.role.Desktop? ==> w.x == 0 && w.y == 0 && w.w == sw && w.h == sh
    ensures GoodStep(s, s.(ws := s.ws[i := w]), sw, sh)
    ensures View(s.ws[i := w]) == View(s.ws)[w.id := w]
  {
    PutKeeps(s, i, w);
    ViewAt(s.ws, i);
  }

  // ---- new windows ------------------------------------------------------------

  /** The stack right after window_create put w on top. */
  function Appended(s: Stack, w: Window): Stack { Stack(s.ws + [w], s.focus, s.nextId + 1) }

  lemma AppendedOk(s: Stack, w: Window)
    requires Ok(s) && |s.ws| < WIN_MAX && w.id == s.nextId
    ensures Ok(Appended(s, w)) && View(Appended(s, w).ws) == View(s.ws)[w.id := w] && w.id !in View(s.ws)
    ensures IndexOf(s.ws + [w], w.id) == |s.ws|
  {
    ViewLive(s.ws, s.nextId);
    AppendFacts(s.ws, w);
    ViewAt(s.ws + [w], |s.ws|);
    if s.focus != 0 {
      ViewLive(s.ws, s.focus);
      LiveAt(s.ws + [w], IndexOf(s.ws, s.focus), s.focus);
    }
  }

  lemma ViewIds(s: Stack)
    requires Ok(s)
    ensures forall id | id in View(s.ws) :: id < s.nextId && View(s.ws)[id].id == id
  {
    forall id | id in View(s.ws) ensures id < s.nextId && View(s.ws)[id].id == id {
      ViewLive(s.ws, id);
    }
  }

  /** A NORMAL window is created and takes focus. */
  lemma FocusedStep(s: Stack, w: Window, sw: int, sh: int)
    requires StackOk(s, sw, sh) && |s.ws| < WIN_MAX && w.id == s.nextId && w.role.Normal? && TitleFits(w)
    ensures var r := Focus(Appended(s, w), w.id);
            GoodStep(s, r, sw, sh) && View(r.ws) == View(s.ws)[w.id := w] && r.focus == w.id && r.nextId == s.nextId + 1
  {
    AppendedOk(s, w);
    AppendFocusOrdered(s, w);
    FocusOk(Appended(s, w), w.id);
    ViewIds(s);
  }

  /** Taskbar, tray, menu and tooltip stay on top without focus. */
  lemma OnTopStep(s: Stack, w: Window, sw: int, sh: int)
    requires StackOk(s, sw, sh) && |s.ws| < WIN_MAX && w.id == s.nextId && !w.role.Normal? && !w.role.Desktop?
    ensures var r := Appended(s, w);
            GoodStep(s, r, sw, sh) && View(r.ws) == View(s.ws)[w.id := w]
  {
    AppendedOk(s, w);
    AppendOrdered(s, w);
    ViewIds(s);
  }

  /** A wallpaper is fitted to the screen and sinks to the bottom. */
  lemma BottomStep(s: Stack, w: Window, sw: int, sh: int)
    requires StackOk(s, sw, sh) && |s.ws| < WIN_MAX && w.id == s.nextId && w.role.Desktop?
    requires w.x == 0 && w.y == 0 && w.w == sw && w.h == sh
    ensures var r := Lower(Appended(s, w), w.id);
            GoodStep(s, r, sw, sh) && View(r.ws) == View(s.ws)[w.id := w] && r.nextId == s.nextId + 1
  {
    AppendedOk(s, w);
    assert ToBottom(s.ws + [w], |s.ws|) == [w] + s.ws;
    BottomOrdered(s, w);
    LowerOk(Appended(s, w), w.id);
    ViewIds(s);
  }

  /** What on_create_window leaves on the stack for one request. */
  function Admitted(role: Role, id: nat, x: int, y: int, w: int, h: int, sw: int, sh: int): Window {
    var n := NewWindow(id, role, x, y, w, h, 0x00202020).(appDecorated := true);
    if role.Desktop? then Resized(n, 0, 0, sw, sh) else n
  }

  lemma DecorateNewest(s: Stack, role: Role, x: int, y: int, w: int, h: int)
    requires Ok(s) && |s.ws| < WIN_MAX
    ensures var (st1, id) := Create(s, role, x, y, w, h, 0x00202020);
            var n := NewWindow(id, role, x, y, w, h, 0x00202020).(appDecorated := true);
            && id == s.nextId
            && Decorate(st1, id) == Appended(s, n)
            && forall sw, sh :: Windows.SetGeometry(Appended(s, n), id, 0, 0, sw, sh) == Appended(s, Resized(n, 0, 0, sw, sh))
  {
    var m := NewWindow(s.nextId, role, x, y, w, h, 0x00202020);
    var n := m.(appDecorated := true);
    AppendedOk(s, m);
    AppendedOk(s, n);
    assert (s.ws + [m])[|s.ws| := n] == s.ws + [n];
    forall sw, sh
      ensures Windows.SetGeometry(Appended(s, n), s.nextId, 0, 0, sw, sh) == Appended(s, Resized(n, 0, 0, sw, sh))
    {
      assert (s.ws + [n])[|s.ws| := Resized(n, 0, 0, sw, sh)] == s.ws + [Resized(n, 0, 0, sw, sh)];
    }
  }

  /** CREATE_WINDOW on the stack: one new window of the requested role, placed by role. */
  lemma AdmitStep(s: Stack, role: Role, x: int, y: int, w: int, h: int, sw: int, sh: int)
    requires StackOk(s, sw, sh) && |s.ws| < WIN_MAX && sw >= 1 && sh >= 1
    ensures var (st1, id) := Create(s, role, x, y, w, h, 0x00202020);
            var r := Place(Decorate(st1, id), id, role, sw, sh);
            && GoodStep(s, r, sw, sh) && id == s.nextId && r.nextId == s.nextId + 1
            && View(r.ws) == View(s.ws)[id := Admitted(role, id, x, y, w, h, sw, sh)]
            && id !in View(s.ws)
            && (role.Normal? ==> r.focus == id)
  {
    var n := Admitted(role, s.nextId, x, y, w, h, sw, sh);
    DecorateNewest(s, role, x, y, w, h);
    AppendedOk(s, n);
    if role.Normal? { FocusedStep(s, n, sw, sh); }
    else if role.Desktop? { BottomStep(s, n, sw, sh); }
    else { OnTopStep(s, n, sw, sh); }
  }

  // ---- destroying and reaping ------------------------------------------------------

  lemma ClearThenDestroy(s: Stack, w: ClWin)
    requires Ok(s)
    ensures Destroy(DropBufSt(s, w), w.serverId) == Destroy(s, w.serverId)
  {
    var i := IndexOf(s.ws, w.serverId);
    if w.buf.Mapping? && i >= 0 {
      var n := s.ws[i].(buf := Null);
      PutOk(s, i, n);
      ViewAt(s.ws[i := n], i);
      assert RemoveAt(s.ws[i := n], i) == RemoveAt(s.ws, i);
    }
  }

  /** Destroying one owned window after dropping its buffer just removes it. */
  lemma DropThenDestroy(s: Stack, w: ClWin)
    requires Ok(s) && w.serverId != 0
    ensures Destroy(DropBufSt(s, w), w.serverId) == Reaped(s, {w.serverId})
  {
    ClearThenDestroy(s, w);
    DestroyIsReaped(s, w.serverId);
  }

  /** The reaping loop removes exactly the windows the table holds; the survivors keep
      geometry, content and order, and a lost focus goes to the topmost of them. */
  lemma {:induction false} ReapIsReaped(s: Stack, t: Table, from: nat)
    requires Ok(s) && from <= |t| && forall j | from <= j < |t| && t[j].wid != 0 :: t[j].serverId != 0
    ensures ReapSt(s, t, from) == Reaped(s, Books.HeldFrom(t, from))
    decreases |t| - from
  {
    if from == |t| {
      assert Books.HeldFrom(t, from) == {};
      WithoutNone(s.ws, {});
    } else {
      Books.HeldStep(t, from);
      if t[from].wid == 0 {
        ReapIsReaped(s, t, from + 1);
        assert Books.HeldFrom(t, from) == Books.HeldFrom(t, from + 1);
      } else {
        DropThenDestroy(s, t[from]);
        ReapedOk(s, {t[from].serverId});
        ReapIsReaped(Reaped(s, {t[from].serverId}), t, from + 1);
        ReapedTwice(s, {t[from].serverId}, Books.HeldFrom(t, from + 1));
      }
    }
  }
}
