/** What the enter and leave events of a run amount to: by window, a mapped surface stands as
    entered exactly while it has the pointer, or the keyboard. */
module Entries {
  import opened Windows
  import opened Wayland
  import opened Session
  import opened SessionProofs
  import opened SessionBoot
  import Contents
  import Gestures
  import Modes
  import Snaps
  import Transport
  import WmPolicy

  datatype Seat = Pointer | Keyboard

  predicate Enters(e: Sent, seat: Seat, id: nat) {
    match seat
    case Pointer => e.PtrEnter? && e.id == id
    case Keyboard => e.KbdEnter? && e.id == id
  }

  predicate Leaves(e: Sent, seat: Seat, id: nat) {
    match seat
    case Pointer => e.PtrLeave? && e.id == id
    case Keyboard => e.KbdLeave? && e.id == id
  }

  /** The last enter or leave event about the window was an enter. */
  predicate Entered(sent: seq<Sent>, seat: Seat, id: nat) {
    |sent| > 0 &&
    var e := sent[|sent| - 1];
    Enters(e, seat, id) || (!Leaves(e, seat, id) && Entered(sent[..|sent| - 1], seat, id))
  }

  /** The window that has the pointer, or the keyboard; 0 for none. */
  function Holder(fe: Frontend, seat: Seat): nat { if seat.Pointer? then fe.pointerFocus else fe.kbdFocus }

  /** A mapped surface stands as entered if and only if it has the seat; nothing was ever said about a
      window not made yet. */
  ghost predicate EntriesOk(fe: Frontend, nextId: nat) {
    && (forall k, seat | 0 <= k < |fe.surfaces| && fe.surfaces[k].serverId != 0 ::
          Entered(fe.sent, seat, fe.surfaces[k].serverId) <==> Holder(fe, seat) == fe.surfaces[k].serverId)
    && (forall seat, id: nat | Entered(fe.sent, seat, id) :: id < nextId)
    && (forall seat :: Holder(fe, seat) < nextId)
  }

  // ---- appending -------------------------------------------------------------------------------

  /** At most one event is appended. */
  lemma EnteredMore(sent: seq<Sent>, more: seq<Sent>, seat: Seat, id: nat)
    requires |more| <= 1
    ensures Entered(sent + more, seat, id) <==>
            if more == [] then Entered(sent, seat, id)
            else Enters(more[0], seat, id) || (!Leaves(more[0], seat, id) && Entered(sent, seat, id))
  {
    if more == [] { assert sent + more == sent; } else { assert (sent + more)[..|sent|] == sent; }
  }

  /** An event that is no enter or leave. */
  predicate Neutral(e: Sent) { !e.PtrEnter? && !e.PtrLeave? && !e.KbdEnter? && !e.KbdLeave? }

  lemma NeutralKeeps(fe: Frontend, more: seq<Sent>, nextId: nat)
    requires EntriesOk(fe, nextId) && |more| <= 1 && forall i | 0 <= i < |more| :: Neutral(more[i])
    ensures EntriesOk(fe.(sent := fe.sent + more), nextId)
  {
    var ge := fe.(sent := fe.sent + more);
    forall seat, id: nat ensures Entered(ge.sent, seat, id) <==> Entered(fe.sent, seat, id) {
      EnteredMore(fe.sent, more, seat, id);
    }
    forall k, seat | 0 <= k < |ge.surfaces| && ge.surfaces[k].serverId != 0
      ensures Entered(ge.sent, seat, ge.surfaces[k].serverId) <==> Holder(ge, seat) == ge.surfaces[k].serverId
    {
      assert Entered(fe.sent, seat, fe.surfaces[k].serverId) <==> Holder(fe, seat) == fe.surfaces[k].serverId;
    }
    forall seat ensures Holder(ge, seat) < nextId { assert Holder(fe, seat) < nextId; }
  }

  /** The seat moves: the old holder, if it is there, is told to leave, the new one to enter. */
  ghost predicate SeatMoved(a: Frontend, b: Frontend, seat: Seat, to: nat) {
    && b.surfaces == a.surfaces && Holder(b, seat) == to
    && (forall other | other != seat :: Holder(b, other) == Holder(a, other))
    && (forall other, id: nat | other != seat :: Entered(b.sent, other, id) <==> Entered(a.sent, other, id))
    && (forall id: nat :: Entered(b.sent, seat, id) <==>
          if to == Holder(a, seat) then Entered(a.sent, seat, id)
          else id == to != 0 || (Entered(a.sent, seat, id) && !(id == Holder(a, seat) && SurfaceOf(a.surfaces, id) >= 0)))
  }

  lemma MovedKeeps(a: Frontend, b: Frontend, seat: Seat, to: nat, nextId: nat)
    requires EntriesOk(a, nextId) && SeatMoved(a, b, seat, to) && to < nextId
    ensures EntriesOk(b, nextId)
  {
    forall k, t: Seat | 0 <= k < |b.surfaces| && b.surfaces[k].serverId != 0
      ensures Entered(b.sent, t, b.surfaces[k].serverId) <==> Holder(b, t) == b.surfaces[k].serverId
    {
      var id := b.surfaces[k].serverId;
      assert Entered(a.sent, t, a.surfaces[k].serverId) <==> Holder(a, t) == id;
    }
    forall t: Seat, id: nat | Entered(b.sent, t, id) ensures id < nextId {
      assert (t == seat && id == to) || Entered(a.sent, t, id);
    }
    forall t: Seat ensures Holder(b, t) < nextId {
      assert Holder(a, t) < nextId;
    }
  }

  lemma ThreeMore(sent: seq<Sent>, l: seq<Sent>, e: seq<Sent>, m: seq<Sent>, seat: Seat, id: nat)
    requires |l| <= 1 && |e| <= 1 && |m| <= 1 && forall i | 0 <= i < |m| :: Neutral(m[i])
    ensures Entered(sent + (l + e + m), seat, id) <==> Entered((sent + l) + e, seat, id)
  {
    assert sent + (l + e + m) == ((sent + l) + e) + m;
    EnteredMore((sent + l) + e, m, seat, id);
  }

  lemma PointerMoves(ws: seq<Window>, fe: Frontend, gx: int, gy: int)
    ensures SeatMoved(fe, PointerMotion(ws, fe, gx, gy), Pointer, PointerOver(ws, fe, gx, gy))
  {
    var to, lx, ly := PointerOver(ws, fe, gx, gy), LocalX(ws, gx, gy), LocalY(ws, gx, gy);
    var l := if to != fe.pointerFocus && SurfaceOf(fe.surfaces, fe.pointerFocus) >= 0 then [PtrLeave(fe.pointerFocus)] else [];
    var e := if to != fe.pointerFocus && to != 0 then [PtrEnter(to, lx, ly)] else [];
    var m := if to != 0 then [PtrMotion(to, lx, ly)] else [];
    hide PointerOver, LocalX, LocalY, SurfaceOf;
    forall seat, id: nat
      ensures Entered(PointerMotion(ws, fe, gx, gy).sent, seat, id) <==> Entered((fe.sent + l) + e, seat, id)
    {
      ThreeMore(fe.sent, l, e, m, seat, id);
    }
    forall seat, id: nat
      ensures Entered((fe.sent + l) + e, seat, id) <==>
              (seat.Pointer? && e != [] && id == to) ||
              (Entered(fe.sent, seat, id) && !(seat.Pointer? && l != [] && id == fe.pointerFocus))
    {
      EnteredMore(fe.sent + l, e, seat, id);
      EnteredMore(fe.sent, l, seat, id);
    }
  }

  lemma KeyboardMoves(fe: Frontend, id: nat)
    ensures SeatMoved(fe, KeyboardFocus(fe, id), Seat.Keyboard, KeyboardOver(fe, id))
  {
    var to := KeyboardOver(fe, id);
    var l := if KeyTarget(fe) >= 0 then [KbdLeave(fe.kbdFocus)] else [];
    var e := if to != 0 then [KbdEnter(to)] else [];
    hide KeyboardOver, SurfaceOf;
    forall seat, x: nat
      ensures Entered((fe.sent + l) + e, seat, x) <==>
              (seat.Keyboard? && e != [] && x == to) ||
              (Entered(fe.sent, seat, x) && !(seat.Keyboard? && l != [] && x == fe.kbdFocus))
    {
      EnteredMore(fe.sent + l, e, seat, x);
      EnteredMore(fe.sent, l, seat, x);
    }
  }

  // ---- Wayland requests ------------------------------------------------------------------------

  /** What the request adds is neutral, and moves no seat. */
  ghost predicate OnlyNeutral(a: Frontend, b: Frontend, more: seq<Sent>) {
    && b.pointerFocus == a.pointerFocus && b.kbdFocus == a.kbdFocus && b.sent == a.sent + more
    && |more| <= 1 && forall i | 0 <= i < |more| :: Neutral(more[i])
  }

  lemma MapSilent(f: Front, k: nat)
    requires k < |f.fe.surfaces|
    ensures var g := MapOrUpdate(f, k).fe;
            g.pointerFocus == f.fe.pointerFocus && g.kbdFocus == f.fe.kbdFocus && g.sent == f.fe.sent
  {
    hide Create, Focus, Update;
  }

  lemma CommitNeutral(f: Front, k: nat, allocOk: bool) returns (more: seq<Sent>)
    requires k < |f.fe.surfaces|
    ensures OnlyNeutral(f.fe, Commit(f, k, allocOk).fe, more)
  {
    hide MapOrUpdate, Destroy, Packed;
    var s := f.fe.surfaces[k];
    if s.xdgSurface && !s.configured {
      more := if s.toplevel then [Configured(0, 0)] else [];
    } else {
      more := [];
      assert f.fe.sent + [] == f.fe.sent;
      if s.attached && s.pending.Attached? && s.pending.buffer.Shm? {
        var taken := f.(fe := SetSurface(f.fe, k, s.(attached := false, pending := NoBuffer)));
        MapSilent(taken.(fe := CopyShm(taken.fe, k, s.pending.buffer, allocOk)), k);
      }
    }
  }

  lemma ServeNeutral(f: Front, r: Wayland.Request) returns (more: seq<Sent>)
    requires Names(f.fe, r)
    ensures OnlyNeutral(f.fe, Serve(f, r).fe, more)
  {
    hide Commit, Destroy;
    if r.CommitSurface? {
      more := CommitNeutral(f, r.k, r.allocOk);
    } else {
      more := [];
      assert f.fe.sent + [] == f.fe.sent;
    }
  }

  /** A mapped surface had its window before, or the window is new. */
  ghost predicate KnownOrNew(a: Front, b: Front, j: nat)
    requires j < |b.fe.surfaces|
  {
    var id := b.fe.surfaces[j].serverId;
    id != 0 ==>
      || (exists i :: 0 <= i < |a.fe.surfaces| && a.fe.surfaces[i].serverId == id)
      || (id == a.st.nextId && b.st.nextId > id)
  }

  lemma MapKnown(f: Front, k: nat)
    requires k < |f.fe.surfaces|
    ensures MapOrUpdate(f, k).st.nextId >= f.st.nextId && |MapOrUpdate(f, k).fe.surfaces| == |f.fe.surfaces|
    ensures forall j | 0 <= j < |f.fe.surfaces| && j != k :: MapOrUpdate(f, k).fe.surfaces[j] == f.fe.surfaces[j]
    ensures KnownOrNew(f, MapOrUpdate(f, k), k)
  {
    hide Showing, ToTop;
  }

  lemma CommitKnown(f: Front, k: nat, allocOk: bool, j: nat)
    requires k < |f.fe.surfaces|
    ensures Commit(f, k, allocOk).st.nextId >= f.st.nextId
    ensures j < |Commit(f, k, allocOk).fe.surfaces| ==> KnownOrNew(f, Commit(f, k, allocOk), j)
  {
    hide MapOrUpdate, RemoveAt, TopId, Packed;
    var s := f.fe.surfaces[k];
    if !(s.xdgSurface && !s.configured) && s.attached && s.pending.Attached? && s.pending.buffer.Shm? {
      var taken := f.(fe := SetSurface(f.fe, k, s.(attached := false, pending := NoBuffer)));
      var c := taken.(fe := CopyShm(taken.fe, k, s.pending.buffer, allocOk));
      MapKnown(c, k);
    }
  }

  lemma ServeKnown(f: Front, r: Wayland.Request, j: nat)
    requires Names(f.fe, r)
    ensures Serve(f, r).st.nextId >= f.st.nextId
    ensures j < |Serve(f, r).fe.surfaces| ==> KnownOrNew(f, Serve(f, r), j)
  {
    hide Commit, RemoveAt, TopId;
    match r
    case CommitSurface(k, allocOk) => CommitKnown(f, k, allocOk, j);
    case CreateSurface => if 0 < j <= |f.fe.surfaces| { assert Serve(f, r).fe.surfaces[j] == f.fe.surfaces[j - 1]; }
    case DestroySurface(k) => if j < |Serve(f, r).fe.surfaces| { DestroyKnown(f, k, j); }
    case _ =>
  }

  lemma DestroyKnown(f: Front, k: nat, j: nat)
    requires k < |f.fe.surfaces| && j < |Serve(f, DestroySurface(k)).fe.surfaces|
    ensures Serve(f, DestroySurface(k)).fe.surfaces[j] == f.fe.surfaces[if j < k then j else j + 1]
  {
    hide Destroy;
  }

  lemma KnownKeeps(a: Front, b: Front)
    requires EntriesOk(a.fe, a.st.nextId) && b.st.nextId >= a.st.nextId
    requires b.fe.sent == a.fe.sent && b.fe.pointerFocus == a.fe.pointerFocus && b.fe.kbdFocus == a.fe.kbdFocus
    requires forall j | 0 <= j < |b.fe.surfaces| :: KnownOrNew(a, b, j)
    ensures EntriesOk(b.fe, b.st.nextId)
  {
    forall j, seat | 0 <= j < |b.fe.surfaces| && b.fe.surfaces[j].serverId != 0
      ensures Entered(b.fe.sent, seat, b.fe.surfaces[j].serverId) <==> Holder(b.fe, seat) == b.fe.surfaces[j].serverId
    {
      var id := b.fe.surfaces[j].serverId;
      assert KnownOrNew(a, b, j);
      assert Holder(b.fe, seat) == Holder(a.fe, seat) < a.st.nextId;
      if i :| 0 <= i < |a.fe.surfaces| && a.fe.surfaces[i].serverId == id {
        assert Entered(a.fe.sent, seat, a.fe.surfaces[i].serverId) <==> Holder(a.fe, seat) == id;
      }
    }
    forall seat ensures Holder(b.fe, seat) < b.st.nextId { assert Holder(a.fe, seat) < a.st.nextId; }
  }

  lemma ServeEntries(f: Front, r: Wayland.Request)
    requires Names(f.fe, r) && EntriesOk(f.fe, f.st.nextId)
    ensures EntriesOk(Serve(f, r).fe, Serve(f, r).st.nextId)
  {
    hide Serve, EntriesOk, KnownOrNew;
    var g := Serve(f, r);
    var more := ServeNeutral(f, r);
    NeutralKeeps(f.fe, more, f.st.nextId);
    var a := f.(fe := f.fe.(sent := f.fe.sent + more));
    forall j | 0 <= j < |g.fe.surfaces| ensures KnownOrNew(a, g, j) {
      ServeKnown(f, r, j);
      SameKnown(f, a, g, j);
    }
    ServeKnown(f, r, 0);
    KnownKeeps(a, g);
  }

  lemma SameKnown(f: Front, a: Front, g: Front, j: nat)
    requires j < |g.fe.surfaces| && KnownOrNew(f, g, j) && a.fe.surfaces == f.fe.surfaces && a.st == f.st
    ensures KnownOrNew(a, g, j)
  {
  }

  // ---- every step, every run -------------------------------------------------------------------

  lemma LaterKeeps(fe: Frontend, nextId: nat, later: nat)
    requires EntriesOk(fe, nextId) && nextId <= later
    ensures EntriesOk(fe, later)
  {
    forall seat ensures Holder(fe, seat) < later { assert Holder(fe, seat) < nextId; }
  }

  lemma OverKnown(s: Stack, fe: Frontend, gx: int, gy: int)
    requires Ok(s)
    ensures PointerOver(s.ws, fe, gx, gy) < s.nextId
  {
  }

  lemma MotionEntries(s: Sys, e: Session.Event)
    requires SysOk(s) && Gestures.Moves(e) && EntriesOk(s.fe, s.st.nextId)
    ensures EntriesOk(Step(s, e).fe, Step(s, e).st.nextId)
  {
    hide Step, SysOk, EntriesOk, PointerOver;
    var t := Step(s, e);
    StepKeeps(s, e);
    Snaps.StepNoReuse(s, e);
    StackWell(t);
    MotionTells(s, e);
    LaterKeeps(s.fe, s.st.nextId, t.st.nextId);
    OverKnown(t.st, s.fe, t.wm.cursorX, t.wm.cursorY);
    PointerMoves(t.st.ws, s.fe, t.wm.cursorX, t.wm.cursorY);
    MovedKeeps(s.fe, t.fe, Pointer, PointerOver(t.st.ws, s.fe, t.wm.cursorX, t.wm.cursorY), t.st.nextId);
  }

  lemma StackWell(s: Sys)
    requires SysOk(s)
    ensures Ok(s.st) && s.st.focus < s.st.nextId
  {
    FocusKnown(s.st);
  }

  lemma MotionTells(s: Sys, e: Session.Event)
    requires Gestures.Moves(e)
    ensures var t := Step(s, e); t.fe == PointerMotion(t.st.ws, s.fe, t.wm.cursorX, t.wm.cursorY)
  {
    hide Transport.RoutePointer, WmPolicy.MotionAbs, PointerMotion;
  }

  lemma SyncEntries(s: Sys)
    requires SysOk(s) && EntriesOk(s.fe, s.st.nextId)
    ensures EntriesOk(Step(s, Sync).fe, Step(s, Sync).st.nextId)
  {
    hide SysOk, EntriesOk, Transport.NotifyFocus, Transport.NotifyGeometry, KeyboardFocus, KeyboardOver;
    StackWell(s);
    KeyboardMoves(s.fe, s.st.focus);
    assert KeyboardOver(s.fe, s.st.focus) < s.st.nextId by { OverFocus(s.fe, s.st); }
    MovedKeeps(s.fe, KeyboardFocus(s.fe, s.st.focus), Seat.Keyboard, KeyboardOver(s.fe, s.st.focus), s.st.nextId);
  }

  lemma OverFocus(fe: Frontend, s: Stack)
    requires s.focus < s.nextId
    ensures KeyboardOver(fe, s.focus) < s.nextId
  {
  }

  /** A button or a key is neutral. */
  lemma InputEntries(s: Sys, e: Session.Event)
    requires SysOk(s) && (e.Button? || e.Key?) && EntriesOk(s.fe, s.st.nextId)
    ensures EntriesOk(Step(s, e).fe, Step(s, e).st.nextId)
  {
    hide Step, SysOk, EntriesOk;
    Snaps.StepNoReuse(s, e);
    var more := InputTells(s, e);
    NeutralKeeps(s.fe, more, s.st.nextId);
    LaterKeeps(Step(s, e).fe, s.st.nextId, Step(s, e).st.nextId);
  }

  lemma InputTells(s: Sys, e: Session.Event) returns (more: seq<Sent>)
    requires e.Button? || e.Key?
    ensures |more| <= 1 && (forall i | 0 <= i < |more| :: more[i].PtrButton? || more[i].KbdKey?)
    ensures Step(s, e).fe == s.fe.(sent := s.fe.sent + more)
  {
    hide Transport.RoutePointer, Transport.RouteKey, WmPolicy.Button, FocusCycle;
    assert s.fe.sent + [] == s.fe.sent;
    more := if Step(s, e).fe == s.fe then []
            else if e.Button? then [PtrButton(s.fe.pointerFocus, e.button, e.pressed)]
            else [KbdKey(s.fe.kbdFocus, e.keycode, e.pressed)];
  }

  lemma SilentEntries(s: Sys, e: Session.Event)
    requires SysOk(s) && (e.Connect? || e.Receive? || e.Hangup? || e.Tick? || e.SetMode?) && EntriesOk(s.fe, s.st.nextId)
    ensures EntriesOk(Step(s, e).fe, Step(s, e).st.nextId)
  {
    hide Step, SysOk, EntriesOk;
    Snaps.StepNoReuse(s, e);
    SilentFront(s, e);
    LaterKeeps(s.fe, s.st.nextId, Step(s, e).st.nextId);
  }

  lemma SilentFront(s: Sys, e: Session.Event)
    requires e.Connect? || e.Receive? || e.Hangup? || e.Tick? || e.SetMode?
    ensures Step(s, e).fe == s.fe
  {
    hide FitFrom, Transport.Receive, Transport.Drop, Transport.ExpireFrom;
  }

  lemma StepEntries(s: Sys, e: Session.Event)
    requires SysOk(s) && EntriesOk(s.fe, s.st.nextId)
    ensures EntriesOk(Step(s, e).fe, Step(s, e).st.nextId)
  {
    hide Step, SysOk, EntriesOk;
    match e
    case Motion(dx, dy) => MotionEntries(s, e);
    case MotionAbs(ax, ay) => MotionEntries(s, e);
    case Button(b, pressed) => InputEntries(s, e);
    case Key(keycode, keysym, pressed, alt) => InputEntries(s, e);
    case Sync => SyncEntries(s);
    case Wl(r) => WlEntries(s, r);
    case _ => SilentEntries(s, e);
  }

  lemma WlEntries(s: Sys, r: Wayland.Request)
    requires EntriesOk(s.fe, s.st.nextId)
    ensures EntriesOk(Step(s, Wl(r)).fe, Step(s, Wl(r)).st.nextId)
  {
    hide EntriesOk, Serve;
    if Names(s.fe, r) { ServeEntries(FrontOf(s), r); }
  }

  lemma {:induction false} RunEntries(s: Sys, es: seq<Session.Event>, n: nat)
    requires SysOk(s) && EntriesOk(s.fe, s.st.nextId) && n <= |es|
    ensures SysOk(RunTo(s, es, n)) && EntriesOk(RunTo(s, es, n).fe, RunTo(s, es, n).st.nextId)
  {
    hide Step, SysOk, EntriesOk;
    if n > 0 {
      RunEntries(s, es, n - 1);
      StepKeeps(RunTo(s, es, n - 1), es[n - 1]);
      StepEntries(RunTo(s, es, n - 1), es[n - 1]);
    }
  }

  lemma BootEntries(mode: Modes.Mode, demo: bool, garbage: nat)
    ensures var b := Boot(mode, demo, garbage); EntriesOk(b.fe, b.st.nextId)
  {
    var b := Boot(mode, demo, garbage);
    forall seat ensures Holder(b.fe, seat) < b.st.nextId {
    }
  }

  /** After any run: the surface of a mapped window was last told that the pointer, or the keyboard, is
      in that window if and only if the frontend counts the window as having it. */
  lemma EnteredIff(s: Sys, k: nat, seat: Seat)
    requires Reachable(s) && k < |s.fe.surfaces| && s.fe.surfaces[k].serverId != 0
    ensures Entered(s.fe.sent, seat, s.fe.surfaces[k].serverId) <==> Holder(s.fe, seat) == s.fe.surfaces[k].serverId
  {
    hide Step, Boot;
    var mode, demo, garbage, es :| IsRun(s, mode, demo, garbage, es);
    BootOk(mode, demo, garbage);
    BootEntries(mode, demo, garbage);
    RunEntries(Boot(mode, demo, garbage), es, |es|);
  }

  /** No window is told to enter while it stands as entered: not before it was told to leave. */
  lemma EntersOnce(s: Sys, e: Session.Event, k: nat, seat: Seat, j: nat)
    requires Reachable(s) && k < |s.fe.surfaces| && s.fe.surfaces[k].serverId != 0
    requires |s.fe.sent| <= j < |Step(s, e).fe.sent| && Enters(Step(s, e).fe.sent[j], seat, s.fe.surfaces[k].serverId)
    ensures !Entered(s.fe.sent, seat, s.fe.surfaces[k].serverId)
  {
    hide SysOk, Step, EntriesOk, Entered;
    EnteredIff(s, k, seat);
    EnterMoves(s, e, j, seat, s.fe.surfaces[k].serverId);
  }

  lemma EnterMoves(s: Sys, e: Session.Event, j: nat, seat: Seat, id: nat)
    requires |s.fe.sent| <= j < |Step(s, e).fe.sent| && Enters(Step(s, e).fe.sent[j], seat, id)
    ensures Holder(s.fe, seat) != id
  {
    hide Step;
    if Gestures.Moves(e) {
      MotionTells(s, e);
    } else if e.Sync? {
      SyncTells(s);
    } else if e.Button? || e.Key? {
      var more := InputTells(s, e);
    } else if e.Wl? {
      if Names(s.fe, e.request) {
        var more := ServeNeutral(FrontOf(s), e.request);
        Contents.WlIs(s, e.request);
      } else {
        NotNamed(s, e.request);
      }
    } else {
      SilentFront(s, e);
    }
  }

  lemma NotNamed(s: Sys, r: Wayland.Request)
    requires !Names(s.fe, r)
    ensures Step(s, Wl(r)) == s
  {
  }

  lemma SyncTells(s: Sys)
    ensures Step(s, Sync).fe == KeyboardFocus(s.fe, s.st.focus)
  {
    hide Transport.NotifyFocus, Transport.NotifyGeometry, KeyboardFocus;
  }
}
