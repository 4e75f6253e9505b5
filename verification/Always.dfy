/** What holds after every step of every run: wallpapers, cursor and focus; and Alt-Tab as it
    works on a running server. */
module Always {
  import opened Windows
  import opened ZOrder
  import opened AltTab
  import opened WmProofs
  import opened Session
  import opened SessionProofs
  import opened SessionBoot
  import WmPolicy
  import SceneBasics

  ghost predicate Covers(w: Window, sw: int, sh: int) { w.x == 0 && w.y == 0 && w.w == sw && w.h == sh }

  /** Whatever clients, input and resolution changes did: each wallpaper covers exactly the
      screen and lies below every other window, and the cursor is on the screen. */
  lemma WallpaperAlways(s: Sys, i: nat)
    requires Reachable(s) && i < |s.st.ws| && s.st.ws[i].role.Desktop?
    ensures Covers(s.st.ws[i], s.wm.screenW, s.wm.screenH)
    ensures forall j | 0 <= j < i :: s.st.ws[j].role.Desktop?
    ensures 0 <= s.wm.cursorX < s.wm.screenW && 0 <= s.wm.cursorY < s.wm.screenH
  {
    ReachableOk(s);
    ViewAt(s.st.ws, i);
  }

  /** Nothing is focused, or a live window is, and it is above all Alt-Tab candidates or below
      all of them. Ids are distinct, nonzero and were handed out, and at most 64 are live. */
  lemma FocusAlways(s: Sys)
    requires Reachable(s)
    ensures s.st.focus == 0 || Live(s.st.ws, s.st.focus)
    ensures NoTabAbove(s.st.ws, s.st.focus) || NoTabBelow(s.st.ws, s.st.focus)
    ensures |s.st.ws| <= WIN_MAX && Distinct(s.st.ws)
    ensures forall i | 0 <= i < |s.st.ws| :: 0 < s.st.ws[i].id < s.st.nextId
  {
    ReachableOk(s);
  }

  /** The event is an Alt-Tab press, and not the one of Ctrl+Alt+T. */
  predicate IsTab(s: Sys, e: Event) {
    && e.Key? && e.keysym == WmPolicy.KEY_TAB && e.pressed && e.alt
    && !OpensTerminal(Tracked(s.keys, e.keycode, true), e.keycode, true)
  }

  function TabCount(s: Sys, es: seq<Event>, n: nat): nat
    requires n <= |es|
  {
    if n == 0 then 0 else TabCount(s, es, n - 1) + if IsTab(RunTo(s, es, n - 1), es[n - 1]) then 1 else 0
  }

  /** Only keys are pressed and released, and the server ends its turns. */
  ghost predicate KeysOnly(es: seq<Event>) { forall i | 0 <= i < |es| :: es[i].Key? || es[i].Sync? }

  lemma KeyStack(s: Sys, e: Event)
    requires e.Key? || e.Sync?
    ensures Step(s, e).st == if IsTab(s, e) then FocusCycle(s.st, 1) else s.st
  {
  }

  lemma {:induction false} KeysPress(s: Sys, es: seq<Event>, n: nat)
    requires KeysOnly(es) && n <= |es|
    ensures RunTo(s, es, n).st == Presses(s.st, TabCount(s, es, n))
  {
    hide Step, IsTab;
    if n > 0 {
      KeysPress(s, es, n - 1);
      KeyStack(RunTo(s, es, n - 1), es[n - 1]);
    }
  }

  /** From any reachable state: when only keys are used, and Alt-Tab is pressed j times among
      them, the k candidates are rotated by j mod k, every other window keeps its place among
      the others, and the last press focused candidate number (j - 1) mod k. */
  lemma AltTabOverRuns(s: Sys, es: seq<Event>)
    requires SysOk(s) && KeysOnly(es) && Pick(s.st.ws, true) != []
    ensures Cycled(s.st, Run(s, es).st, TabCount(s, es, |es|))
  {
    hide Act;
    KeysPress(s, es, |es|);
    AfterPresses(s.st, TabCount(s, es, |es|));
  }

  /** With no candidate Alt-Tab does nothing to the windows, and no client hears of it. */
  lemma NothingToFocus(s: Sys, e: Event)
    requires Pick(s.st.ws, true) == [] && IsTab(s, e)
    ensures Step(s, e) == s.(keys := Tracked(s.keys, e.keycode, true))
  {
    if s.st.ws != [] { NothingToTab(s.st.ws, IndexOf(s.st.ws, s.st.focus), 1); }
  }

  // ---- what the compositor relies on ---------------------------------------------------

  /** A visible window can only be too low for its title bar if it was snapped into a work area
      that low; so without such windows every pixel shows what a click on it would hit. */
  lemma OnlySnapsAreLow(s: Sys, i: nat)
    requires Reachable(s) && i < |s.st.ws|
    requires s.st.ws[i].mapped && HasSsd(s.st.ws[i]) && s.st.ws[i].h < TITLEBAR_H
    ensures s.st.ws[i].snapped
  {
    ReachableOk(s);
    ViewAt(s.st.ws, i);
    assert TitleFits(View(s.st.ws)[s.st.ws[i].id]);
  }

  /** The cursor shape always fits its buffer. */
  lemma CursorFits(s: Sys)
    requires Reachable(s)
    ensures SceneBasics.CursorOk(s.tp.cursor)
  {
    ReachableOk(s);
  }
}
