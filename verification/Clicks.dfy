/** Where a click goes: to the window under the cursor, once. */
module Clicks {
  import opened Windows
  import WmPolicy
  import opened WmProofs
  import opened Transport
  import Wayland
  import opened WaylandProofs
  import Session
  import opened SessionProofs
  import Gestures
  import Ownership

  /** The forwarded coordinates lie inside the content of the topmost window under the cursor,
      and adding its origin and title bar gives the cursor back. */
  lemma ForwardedInside(ws: seq<Window>, cx: int, cy: int)
    ensures var i := PointerTarget(ws, cx, cy);
            i >= 0 ==>
              && i == At(ws, cx, cy)
              && var w := ws[i];
                 var lx, ly := cx - w.x, cy - w.y - TitleBar(w);
                 && 0 <= lx < w.w && 0 <= ly < w.h - TitleBar(w)
                 && w.x + lx == cx && w.y + TitleBar(w) + ly == cy
  {
  }

  /** The press is one of a pair: the window manager starts a drag, or the event goes on. */
  lemma TargetAfterPress(d: WmPolicy.Desk)
    requires DeskOk(d)
    ensures var hit, r := At(d.st.ws, d.wm.cursorX, d.wm.cursorY), WmPolicy.Press(d);
            var to := PointerTarget(r.st.ws, d.wm.cursorX, d.wm.cursorY);
            && r.wm.cursorX == d.wm.cursorX && r.wm.cursorY == d.wm.cursorY
            && (hit >= 0 && WmPolicy.Grabs(d.st.ws[hit], d.wm.cursorY) ==> to < 0)
            && (!(hit >= 0 && WmPolicy.Grabs(d.st.ws[hit], d.wm.cursorY)) ==> r.wm == d.wm)
            && (to >= 0 ==> hit >= 0 && r.st.ws[to] == d.st.ws[hit])
            && (hit >= 0 && !WmPolicy.Grabs(d.st.ws[hit], d.wm.cursorY) ==> to >= 0)
  {
    hide WmPolicy.Press;
    ClickStable(d);
    WmPolicy.PressEffect(d);
  }

  lemma ButtonIs(s: Session.Sys)
    ensures var d := WmPolicy.Press(Session.DeskOf(s));
            Session.Step(s, Session.Button(WmPolicy.BTN_LEFT, true)) ==
            Session.WithDesk(s, d).(
              fe := Wayland.PointerButton(s.fe, WmPolicy.BTN_LEFT, true),
              tp := RoutePointer(d.st, s.tp, Pressed(WmPolicy.BTN_LEFT, true), d.wm.cursorX, d.wm.cursorY))
  {
    hide WmPolicy.Press, RoutePointer, Wayland.PointerButton;
  }

  /** One left press never both starts a drag and reaches a native client: on a title bar no
      connection is sent anything; anywhere else the window manager's state is as it was. */
  lemma PressExclusive(s: Session.Sys)
    requires SysOk(s)
    ensures var t := Session.Step(s, Session.Button(WmPolicy.BTN_LEFT, true));
            if Gestures.PressGrabs(s) then t.tp == s.tp && t.wm.moving else t.wm == s.wm
  {
    hide WmPolicy.Press, Session.Step;
    Parts(s);
    ButtonIs(s);
    TargetAfterPress(Session.DeskOf(s));
    WmPolicy.PressEffect(Session.DeskOf(s));
  }

  /** A press on a native window's content reaches exactly its owner, once, under the owner's own
      name for the window, with the coordinates of the cursor in that window. */
  lemma PressReaches(s: Session.Sys, c: nat, j: nat)
    requires SysOk(s)
    requires var hit := At(s.st.ws, s.wm.cursorX, s.wm.cursorY);
             hit >= 0 && FindOwner(s.tp.clients, s.st.ws[hit].id) == Owner(c, j)
    ensures var w := s.st.ws[At(s.st.ws, s.wm.cursorX, s.wm.cursorY)];
            Session.Step(s, Session.Button(WmPolicy.BTN_LEFT, true)).tp.clients ==
            SendTo(s.tp.clients, c,
                   ButtonEvent(s.tp.clients[c].wins[j].wid, s.wm.cursorX - w.x, s.wm.cursorY - w.y, WmPolicy.BTN_LEFT, true))
  {
    hide WmPolicy.Press, Session.Step, SysOk, DeskOk;
    assert DeskOk(Session.DeskOf(s)) by { Parts(s); }
    ButtonIs(s);
    var hit := At(s.st.ws, s.wm.cursorX, s.wm.cursorY);
    assert Ok(s.st) by { Parts(s); }
    OwnedIsNative(s, s.st.ws[hit].id, c, j);
    ViewAt(s.st.ws, hit);
    TargetAfterPress(Session.DeskOf(s));
  }

  lemma OwnedIsNative(s: Session.Sys, id: nat, c: nat, j: nat)
    requires SysOk(s) && FindOwner(s.tp.clients, id) == Owner(c, j)
    ensures id in View(s.st.ws) && View(s.st.ws)[id].appDecorated
  {
    Ownership.SlotsPartition(s, c, j, c, j);
    ViewLive(s.st.ws, id);
  }

  // ---- every button, every motion ---------------------------------------------------------------

  /** Connection c gets the message, and no other connection gets anything; without an owner of the
      window under the cursor nobody does. */
  ghost predicate OnlyOwnerHears(before: Tp, after: Tp, st: Stack, cx: int, cy: int, m: (nat, int, int) -> Event) {
    var hit := At(st.ws, cx, cy);
    if hit < 0 || FindOwner(before.clients, st.ws[hit].id).NoOwner? then after == before
    else
      var w := st.ws[hit];
      var o := FindOwner(before.clients, w.id);
      var c := before.clients[o.client];
      after == before.(clients := before.clients[o.client := c.(sent := c.sent + [m(c.wins[o.slot].wid, cx - w.x, cy - w.y)])])
  }

  lemma RoutedTo(s: Session.Sys, p: Pointer, m: (nat, int, int) -> Event)
    requires SysOk(s) && forall wid, x, y :: PointerEvent(p, wid, x, y) == m(wid, x, y)
    ensures OnlyOwnerHears(s.tp, RoutePointer(s.st, s.tp, p, s.wm.cursorX, s.wm.cursorY), s.st, s.wm.cursorX, s.wm.cursorY, m)
  {
    hide PointerEvent, SysOk;
    var hit := At(s.st.ws, s.wm.cursorX, s.wm.cursorY);
    if hit >= 0 {
      var o := FindOwner(s.tp.clients, s.st.ws[hit].id);
      if o.Owner? {
        OwnedIsNative(s, s.st.ws[hit].id, o.client, o.slot);
        assert Ok(s.st) by { Parts(s); }
        ViewAt(s.st.ws, hit);
      }
    }
  }

  /** Whatever button goes down or up: the owner of the window then under the cursor hears exactly
      that, once, in the coordinates of that window, and no other connection hears anything. */
  lemma ButtonReaches(s: Session.Sys, b: nat, pressed: bool)
    requires SysOk(s)
    ensures var t := Session.Step(s, Session.Button(b, pressed));
            OnlyOwnerHears(s.tp, t.tp, t.st, t.wm.cursorX, t.wm.cursorY, (wid: nat, x: int, y: int) => ButtonEvent(wid, x, y, b, pressed))
  {
    hide SysOk, WmPolicy.Button, RoutePointer, OnlyOwnerHears, Wayland.PointerButton;
    var m := Session.WithDesk(s, WmPolicy.Button(Session.DeskOf(s), b, pressed));
    assert SysOk(m) by { ButtonDeskGood(s, b, pressed); }
    RoutedTo(m, Pressed(b, pressed), (wid: nat, x: int, y: int) => ButtonEvent(wid, x, y, b, pressed));
  }

  /** And every motion: its owner hears where the pointer is now. */
  lemma MotionReaches(s: Session.Sys, e: Session.Event)
    requires SysOk(s) && Gestures.Moves(e)
    ensures var t := Session.Step(s, e);
            OnlyOwnerHears(s.tp, t.tp, t.st, t.wm.cursorX, t.wm.cursorY, (wid: nat, x: int, y: int) => MotionEvent(wid, x, y))
  {
    hide SysOk, WmPolicy.MotionAbs, RoutePointer, OnlyOwnerHears, Wayland.PointerMotion;
    var m := Session.WithDesk(s, WmPolicy.MotionAbs(Session.DeskOf(s), Gestures.TargetX(s, e), Gestures.TargetY(s, e)));
    assert SysOk(m) by { MotionDesk(s, Gestures.TargetX(s, e), Gestures.TargetY(s, e)); }
    RoutedTo(m, Moved, (wid: nat, x: int, y: int) => MotionEvent(wid, x, y));
  }

  // ---- and the Wayland surface that had the pointer -----------------------------------------

  /** The press grabs no title bar, and no native client owns the window under the cursor. */
  predicate NobodyElse(s: Session.Sys) {
    var hit := At(s.st.ws, s.wm.cursorX, s.wm.cursorY);
    !Gestures.PressGrabs(s) && (hit < 0 || FindOwner(s.tp.clients, s.st.ws[hit].id).NoOwner?)
  }

  lemma SentMore(tp: Tp, c: nat, e: Event)
    requires c < |tp.clients|
    ensures tp.(clients := SendTo(tp.clients, c, e)) != tp
  {
    assert |SendTo(tp.clients, c, e)[c].sent| == |tp.clients[c].sent| + 1;
  }

  /** Exactly when a left press is nobody else's: it grabs nothing and no connection hears of it. */
  lemma NobodyElseIff(s: Session.Sys)
    requires SysOk(s)
    ensures var t := Session.Step(s, Session.Button(WmPolicy.BTN_LEFT, true));
            && (!Gestures.PressGrabs(s) && t.tp == s.tp <==> NobodyElse(s))
            && (NobodyElse(s) ==> t.wm == s.wm)
  {
    hide WmPolicy.Press, Session.Step;
    Parts(s);
    ButtonIs(s);
    var hit := At(s.st.ws, s.wm.cursorX, s.wm.cursorY);
    TargetAfterPress(Session.DeskOf(s));
    if hit >= 0 && !Gestures.PressGrabs(s) {
      var w := s.st.ws[hit];
      var o := FindOwner(s.tp.clients, w.id);
      if o.Owner? {
        SentMore(s.tp, o.client, PointerEvent(Pressed(WmPolicy.BTN_LEFT, true), s.tp.clients[o.client].wins[o.slot].wid,
          s.wm.cursorX - w.x, s.wm.cursorY - w.y - TitleBar(w)));
      }
    }
  }

  /** A left press while a Wayland surface has the pointer: that surface is told, once; and it is
      the only one to get the press - no drag starts, no native client hears of it - if and only
      if the cursor is on no title bar and on no native client's window. */
  lemma WaylandExclusive(s: Session.Sys)
    requires SysOk(s) && Wayland.ButtonTarget(s.fe) >= 0
    ensures var t := Session.Step(s, Session.Button(WmPolicy.BTN_LEFT, true));
            && t.fe == s.fe.(sent := s.fe.sent + [Wayland.PtrButton(s.fe.pointerFocus, WmPolicy.BTN_LEFT, true)])
            && (!Gestures.PressGrabs(s) && t.tp == s.tp <==> NobodyElse(s))
            && (NobodyElse(s) ==> t.wm == s.wm)
  {
    hide Session.Step, WmPolicy.Press, RoutePointer;
    NobodyElseIff(s);
    ButtonIs(s);
  }

  /** The remembered pointer window is the one under the cursor. */
  predicate Fresh(s: Session.Sys) {
    s.fe.pointerFocus == Wayland.PointerOver(s.st.ws, s.fe, s.wm.cursorX, s.wm.cursorY)
  }

  lemma FreshIsExclusive(s: Session.Sys)
    requires SysOk(s) && Fresh(s) && Wayland.ButtonTarget(s.fe) >= 0
    ensures NobodyElse(s)
  {
    var hit, k := At(s.st.ws, s.wm.cursorX, s.wm.cursorY), Wayland.ButtonTarget(s.fe);
    ViewAt(s.st.ws, hit);
    assert Linked(View(s.st.ws), s.fe.surfaces[k]);
    var o := FindOwner(s.tp.clients, s.st.ws[hit].id);
    if o.Owner? { OwnedIsNative(s, s.st.ws[hit].id, o.client, o.slot); }
  }

  /** Every motion makes it fresh; */
  lemma MotionFreshens(s: Session.Sys, e: Session.Event)
    requires Gestures.Moves(e)
    ensures Fresh(Session.Step(s, e))
  {
  }

  /** so a press right after a motion has one receiver: never both a surface and a native client,
      and never a surface and a drag. */
  lemma PressAfterMotion(s: Session.Sys, e: Session.Event)
    requires SysOk(s) && Gestures.Moves(e) && Wayland.ButtonTarget(Session.Step(s, e).fe) >= 0
    ensures SysOk(Session.Step(s, e)) && NobodyElse(Session.Step(s, e))
  {
    hide Session.Step;
    StepKeeps(s, e);
    MotionFreshens(s, e);
    FreshIsExclusive(Session.Step(s, e));
  }

  /** What a surface is told about the pointer lies inside its content and maps back to it. */
  lemma ToldInside(ws: seq<Window>, fe: Wayland.Frontend, gx: int, gy: int)
    ensures var to, lx, ly := Wayland.PointerOver(ws, fe, gx, gy), Wayland.LocalX(ws, gx, gy), Wayland.LocalY(ws, gx, gy);
            to != 0 ==>
              var i, k := At(ws, gx, gy), Wayland.SurfaceOf(fe.surfaces, to);
              && i >= 0 && k >= 0 && ws[i].id == to && fe.surfaces[k].serverId == to
              && 0 <= lx < fe.surfaces[k].cw && 0 <= ly < fe.surfaces[k].ch
              && ws[i].x + lx == gx && ws[i].y + TITLEBAR_H + ly == gy
  {
  }
}
