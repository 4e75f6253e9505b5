/** Where a key goes. */
module Deliveries {
  import opened Windows
  import opened Transport
  import opened WaylandProofs
  import opened SessionProofs
  import Wayland
  import WmPolicy
  import Session
  import Clicks

  // ---- keys ----------------------------------------------------------------------------------

  /** The key is the server's own: it starts a terminal, ends the loop, or is Alt-Tab. */
  predicate ServersOwn(s: Session.Sys, e: Session.Event)
    requires e.Key?
  {
    || Session.OpensTerminal(Session.Tracked(s.keys, e.keycode, e.pressed), e.keycode, e.pressed)
    || Session.Quits(e.keysym, e.pressed)
    || (e.pressed && e.alt && e.keysym == WmPolicy.KEY_TAB)
  }

  /** That is Ctrl+Alt+T by keycode, with Ctrl and Alt as tracked; Escape; and Alt-Tab: only presses. */
  lemma OwnKeys(s: Session.Sys, e: Session.Event)
    requires e.Key?
    ensures ServersOwn(s, e) <==>
            e.pressed && ((s.keys.ctrl && s.keys.alt && e.keycode == 20) || e.keysym == 0xff1b || (e.alt && e.keysym == 0xff09))
  {
  }

  /** Ctrl+Alt+T and Escape change nothing but what is tracked; Alt-Tab also moves the focus. */
  lemma OwnKeysDo(s: Session.Sys, e: Session.Event)
    requires e.Key? && ServersOwn(s, e)
    ensures var t := Session.Step(s, e);
            t == s.(keys := t.keys, st := if (s.keys.ctrl && s.keys.alt && e.keycode == 20) || e.keysym == 0xff1b then s.st
                                          else FocusCycle(s.st, 1))
  {
    hide FocusCycle, FindOwner, SendTo;
  }

  // ---- modifiers -----------------------------------------------------------------------------

  /** Whether the last of the first n events that is about key a or b says it went down; if none is, as
      it was before. */
  predicate Down(es: seq<Session.Event>, n: nat, a: nat, b: nat, before: bool)
    requires n <= |es|
  {
    if n == 0 then before
    else if es[n - 1].Key? && (es[n - 1].keycode == a || es[n - 1].keycode == b) then es[n - 1].pressed
    else Down(es, n - 1, a, b, before)
  }

  /** Some press of Escape among the first n events went to the server's main loop. */
  predicate Quit(s: Session.Sys, es: seq<Session.Event>, n: nat)
    requires n <= |es|
  {
    n > 0 && (Quit(s, es, n - 1) ||
              (es[n - 1].Key? && es[n - 1].pressed && es[n - 1].keysym == 0xff1b
               && !(es[n - 1].keycode == 20 && Session.RunTo(s, es, n - 1).keys.ctrl && Session.RunTo(s, es, n - 1).keys.alt)))
  }

  lemma KeysStep(s: Session.Sys, e: Session.Event)
    ensures var k := Session.Step(s, e).keys;
            if !e.Key? then k == s.keys
            else
              && k.ctrl == (if e.keycode == 29 || e.keycode == 97 then e.pressed else s.keys.ctrl)
              && k.alt == (if e.keycode == 56 || e.keycode == 100 then e.pressed else s.keys.alt)
              && k.running == (s.keys.running &&
                               !(e.pressed && e.keysym == 0xff1b && !(e.keycode == 20 && s.keys.ctrl && s.keys.alt)))
  {
    hide Transport.Receive, Transport.Drop, Transport.Expire, Transport.AddClient, Transport.RoutePointer, Transport.RouteKey,
         Transport.NotifyFocus, Transport.NotifyGeometry, Wayland.Serve, Wayland.PointerMotion, WmPolicy.Motion, WmPolicy.MotionAbs,
         WmPolicy.Button, WmPolicy.Key, Session.FitFrom, Wayland.KeyboardKey, Wayland.PointerButton, Wayland.KeyboardFocus;
  }

  /** Over any run the server takes Ctrl (left 29, right 97) and Alt (56, 100) to be held as their last
      key event says, and it goes on until Escape is pressed, whatever else happens. */
  lemma {:induction false} ModifiersOverRuns(s: Session.Sys, es: seq<Session.Event>, n: nat)
    requires n <= |es|
    ensures var k := Session.RunTo(s, es, n).keys;
            && (k.ctrl <==> Down(es, n, 29, 97, s.keys.ctrl)) && (k.alt <==> Down(es, n, 56, 100, s.keys.alt))
            && (k.running <==> s.keys.running && !Quit(s, es, n))
  {
    hide Session.Step;
    if n > 0 {
      ModifiersOverRuns(s, es, n - 1);
      KeysStep(Session.RunTo(s, es, n - 1), es[n - 1]);
    }
  }

  // ---- who gets a key ------------------------------------------------------------------------

  /** Both frontends are as they were. */
  predicate Unheard(s: Session.Sys, t: Session.Sys) { t.tp == s.tp && t.fe == s.fe }

  /** A key of the server's own reaches nobody. Any other key moves no window, and reaches the
      surface that has the keyboard, once, by its keycode; and the native client that holds the
      focused window, once, by its keysym, under that client's name for the window. */
  lemma KeyReaches(s: Session.Sys, e: Session.Event)
    requires e.Key?
    ensures var t := Session.Step(s, e);
            && (ServersOwn(s, e) ==> Unheard(s, t))
            && (!ServersOwn(s, e) ==> t.st == s.st && t.wm == s.wm)
            && (!ServersOwn(s, e) ==>
                  t.fe == if Wayland.KeyTarget(s.fe) < 0 then s.fe
                          else s.fe.(sent := s.fe.sent + [Wayland.KbdKey(s.fe.kbdFocus, e.keycode, e.pressed)]))
            && (!ServersOwn(s, e) ==>
                  var o, cs := FindOwner(s.tp.clients, s.st.focus), s.tp.clients;
                  t.tp.clients == if o.NoOwner? then cs
                                  else SendTo(cs, o.client, KeyEvent(cs[o.client].wins[o.slot].wid, e.keysym, e.pressed)))
  {
    hide FocusCycle, FindOwner, SendTo;
  }

  /** While a surface has the keyboard, it is the only one to get a key exactly if no connected
      native client holds the focused window. */
  lemma KeyExclusiveIff(s: Session.Sys, e: Session.Event)
    requires e.Key? && !ServersOwn(s, e) && Wayland.KeyTarget(s.fe) >= 0
    ensures Session.Step(s, e).tp == s.tp <==> FindOwner(s.tp.clients, s.st.focus).NoOwner?
  {
    hide Session.Step, ServersOwn;
    KeyReaches(s, e);
    var o := FindOwner(s.tp.clients, s.st.focus);
    if o.Owner? {
      Clicks.SentMore(s.tp, o.client, KeyEvent(s.tp.clients[o.client].wins[o.slot].wid, e.keysym, e.pressed));
    } else {
      KeyUnsent(s, e);
    }
  }

  lemma KeyUnsent(s: Session.Sys, e: Session.Event)
    requires e.Key? && !ServersOwn(s, e) && FindOwner(s.tp.clients, s.st.focus).NoOwner?
    ensures Session.Step(s, e).tp == s.tp
  {
    hide FocusCycle, FindOwner;
  }

  /** The keyboard is with the surface whose window is focused, or with none. */
  predicate KeyboardFollows(s: Session.Sys) { s.fe.kbdFocus == Wayland.KeyboardOver(s.fe, s.st.focus) }

  /** Every end of a turn brings that about; */
  lemma SyncFollows(s: Session.Sys)
    ensures KeyboardFollows(Session.Step(s, Session.Sync))
  {
    hide Transport.NotifyFocus, Transport.NotifyGeometry;
  }

  /** and while it is so, no key reaches both a surface and a native client. */
  lemma FollowsIsExclusive(s: Session.Sys)
    requires SysOk(s) && KeyboardFollows(s) && Wayland.KeyTarget(s.fe) >= 0
    ensures FindOwner(s.tp.clients, s.st.focus).NoOwner?
  {
    var k, o := Wayland.KeyTarget(s.fe), FindOwner(s.tp.clients, s.st.focus);
    assert Linked(View(s.st.ws), s.fe.surfaces[k]);
    if o.Owner? { Clicks.OwnedIsNative(s, s.st.focus, o.client, o.slot); }
  }

  /** So a key right after the end of a turn has one receiver: the surface of the focused window, or
      the native client that holds it. */
  lemma KeyAfterTurn(s: Session.Sys, e: Session.Event)
    requires SysOk(s) && e.Key? && !ServersOwn(Session.Step(s, Session.Sync), e)
    ensures var t := Session.Step(s, Session.Sync);
            && Wayland.KeyTarget(t.fe) == Wayland.SurfaceOf(t.fe.surfaces, t.st.focus)
            && (Wayland.KeyTarget(t.fe) >= 0 ==> Session.Step(t, e).tp == t.tp)
  {
    hide Session.Step, ServersOwn, SysOk;
    var t := Session.Step(s, Session.Sync);
    StepKeeps(s, Session.Sync);
    SyncFollows(s);
    if Wayland.KeyTarget(t.fe) >= 0 {
      FollowsIsExclusive(t);
      KeyExclusiveIff(t, e);
    }
  }
}
