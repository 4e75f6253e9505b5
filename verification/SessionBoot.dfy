/** Every run starts in a state that satisfies the invariant, so every reachable state does. */
module SessionBoot {
  import opened Windows
  import opened StackSteps
  import opened SceneMoves
  import opened SceneTables
  import opened Session
  import opened SessionProofs
  import Transport
  import SceneBasics
  import Modes

  lemma NewTransportOk(v: map<nat, Window>, nextId: nat, sw: int, sh: int)
    requires nextId > 0 && forall id | id in v :: v[id].buf.Null?
    ensures TpOk(v, nextId, Transport.NewTransport(sw, sh))
  {
    var tp := Transport.NewTransport(sw, sh);
    var tabs := SceneBasics.Tabs(tp.clients, tp.orphans);
    FreeIsOk();
    forall i | 0 <= i < |tabs| ensures tabs[i] == Transport.NoWindows() {
      if i >= |tp.clients| { assert tabs[|tp.clients| + (i - |tp.clients|)] == tp.orphans[i - |tp.clients|].wins; }
    }
    var toks := SceneBasics.Toks(tp.clients, tp.orphans);
    forall i | 0 <= i < |toks| ensures toks[i] == 0 {
      if i >= |tp.clients| { assert toks[|tp.clients| + (i - |tp.clients|)] == tp.orphans[i - |tp.clients|].token; }
    }
  }

  lemma EmptyStackOk(sw: int, sh: int)
    ensures StackOk(EmptyStack, sw, sh) && View(EmptyStack.ws) == map[]
  {
  }

  lemma SeededOk(sw: nat, sh: nat)
    ensures StackOk(Seeded(sw, sh), sw, sh)
    ensures forall id | id in View(Seeded(sw, sh).ws) :: View(Seeded(sw, sh).ws)[id] in Seeded(sw, sh).ws
  {
    var s := Seeded(sw, sh);
    LiveAt(s.ws, 2, 3);
    assert Ok(s);
    forall id | id in View(s.ws) ensures View(s.ws)[id] in s.ws {
      ViewLive(s.ws, id);
    }
  }

  lemma BootOk(mode: Modes.Mode, demo: bool, garbage: nat)
    requires mode.hdisplay >= 1 && mode.vdisplay >= 1
    ensures SysOk(Boot(mode, demo, garbage))
  {
    var sw, sh := mode.hdisplay, mode.vdisplay;
    if demo { SeededOk(sw, sh); } else { EmptyStackOk(sw, sh); }
    var st := Boot(mode, demo, garbage).st;
    NewTransportOk(View(st.ws), st.nextId, sw, sh);
  }

  /** A screen of this size before anything has happened: 16 free connections and 16 free places for the
      windows of dead clients, 64 windows each; the cursor, the server's own arrow, in the middle. */
  lemma BootEmpty(mode: Modes.Mode, demo: bool, garbage: nat, k: nat, j: nat)
    requires k < 16 && j < 64
    ensures var b := Boot(mode, demo, garbage);
            && b.wm.screenW == b.tp.sw == mode.hdisplay && b.wm.screenH == b.tp.sh == mode.vdisplay
            && b.wm.cursorX == mode.hdisplay / 2 && b.wm.cursorY == mode.vdisplay / 2 && !b.wm.moving
            && b.tp.focused == 0 && b.tp.nextToken == 0 && !b.tp.cursor.custom && !b.tp.cursor.hidden
            && b.tp.kern.live == map[] && b.tp.kern.released == multiset{} && b.tp.kern.closed == multiset{}
            && |b.tp.clients| == 16 && b.tp.clients[k].fd == -1 && |b.tp.clients[k].wins| == 64 && b.tp.clients[k].wins[j].wid == 0
            && |b.tp.orphans| == 16 && b.tp.orphans[k].token == 0 && |b.tp.orphans[k].wins| == 64 && b.tp.orphans[k].wins[j].wid == 0
            && b.fe.surfaces == [] && b.fe.pointerFocus == 0 && b.fe.kbdFocus == 0 && b.fe.sent == []
            && b.keys == Keyboard(false, false, true)
  {
  }

  predicate Placed(w: Window, role: Role, x: int, y: int, ww: int, hh: int) {
    w.role == role && w.x == x && w.y == y && w.w == ww && w.h == hh && w.mapped && w.buf.Null? && !w.snapped && !w.appDecorated
  }

  /** The stack is empty, or has the demo scene: a wallpaper over the whole screen, and two windows that
      stand one and two sixths of the screen in, the upper one focused. */
  lemma BootScene(mode: Modes.Mode, demo: bool, garbage: nat)
    ensures var s, sw, sh := Boot(mode, demo, garbage).st, mode.hdisplay, mode.vdisplay;
            if !demo then s == Stack([], 0, 1)
            else
              && |s.ws| == 3 && s.focus == s.ws[2].id && s.nextId == 4 && (forall i | 0 <= i < 3 :: s.ws[i].id == i + 1)
              && Placed(s.ws[0], Desktop, 0, 0, sw, sh)
              && Placed(s.ws[1], Normal, sw / 6, sh / 6, 520, 360)
              && Placed(s.ws[2], Normal, sw / 3, sh / 3, 480, 320)
  {
  }

  /** A state some run of the server reaches. */
  ghost predicate Reachable(s: Sys) {
    exists mode, demo, garbage, es :: IsRun(s, mode, demo, garbage, es)
  }

  ghost predicate IsRun(s: Sys, mode: Modes.Mode, demo: bool, garbage: nat, es: seq<Event>) {
    mode.hdisplay >= 1 && mode.vdisplay >= 1 && s == Run(Boot(mode, demo, garbage), es)
  }

  lemma ReachableOk(s: Sys)
    requires Reachable(s)
    ensures SysOk(s)
  {
    var mode, demo, garbage, es :| IsRun(s, mode, demo, garbage, es);
    BootOk(mode, demo, garbage);
    RunKeeps(Boot(mode, demo, garbage), es, |es|);
  }
}
