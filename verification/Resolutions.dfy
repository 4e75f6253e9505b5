/** What a resolution change does, to the screen, to every window and to every connection. */
module Resolutions {
  import opened Windows
  import opened Transport
  import opened Session
  import opened SessionProofs
  import Modes
  import Requests

  /** The change goes through: a mode was found, its blob made, and the framebuffers allocated. */
  predicate GoesThrough(e: Session.Event)
    requires e.SetMode?
  {
    Modes.Select(e.modes, e.w, e.h, e.refresh) >= 0 && e.blobOk && e.fbOk
  }

  /** A connection past its handshake heard the new size, once, last; any other heard nothing. */
  predicate HeardSize(c: Client, d: Client, w: U32, h: U32) {
    d == if c.fd >= 0 && c.hello then c.(sent := c.sent + [ScreenEvent(w, h)]) else c
  }

  function AtMost(v: int, hi: int): int { if v > hi then hi else v }

  /** Every connection past its handshake is told the new width and height, and nobody anything else. */
  lemma ChangeTells(s: Sys, e: Session.Event)
    requires e.SetMode? && Enabled(s, e) && GoesThrough(e)
    ensures var t, m := Step(s, e), e.modes[Modes.Select(e.modes, e.w, e.h, e.refresh)];
            && t.tp == s.tp.(sw := m.hdisplay, sh := m.vdisplay, clients := t.tp.clients)
            && |t.tp.clients| == |s.tp.clients|
            && forall i | 0 <= i < |s.tp.clients| :: HeardSize(s.tp.clients[i], t.tp.clients[i], m.hdisplay, m.vdisplay)
  {
    hide FitFrom, BroadcastFrom, Modes.Select;
    var m := e.modes[Modes.Select(e.modes, e.w, e.h, e.refresh)];
    forall i | 0 <= i < |s.tp.clients|
      ensures HeardSize(s.tp.clients[i], BroadcastFrom(s.tp.clients, m.hdisplay, m.vdisplay, 0)[i], m.hdisplay, m.vdisplay)
    {
      Requests.BroadcastEach(s.tp.clients, m.hdisplay, m.vdisplay, 0, i);
    }
  }

  /** The screen has the mode's size, the cursor is pulled back onto it, every wallpaper covers it,
      and no other window changes; the drag and the surfaces are as they were. */
  lemma ChangeFits(s: Sys, e: Session.Event)
    requires SysOk(s) && e.SetMode? && Enabled(s, e) && GoesThrough(e)
    ensures var t, m := Step(s, e), e.modes[Modes.Select(e.modes, e.w, e.h, e.refresh)];
            && t.mode == m && t.fe == s.fe && t.keys == s.keys
            && t.wm == s.wm.(screenW := m.hdisplay, screenH := m.vdisplay, cursorX := AtMost(s.wm.cursorX, m.hdisplay - 1),
                             cursorY := AtMost(s.wm.cursorY, m.vdisplay - 1))
            && t.st.focus == s.st.focus && |t.st.ws| == |s.st.ws|
            && forall i | 0 <= i < |s.st.ws| :: t.st.ws[i] ==
                 if s.st.ws[i].role.Desktop? then s.st.ws[i].(x := 0, y := 0, w := m.hdisplay, h := m.vdisplay) else s.st.ws[i]
  {
    hide BroadcastFrom, Modes.Select, FitFrom;
    var m := e.modes[Modes.Select(e.modes, e.w, e.h, e.refresh)];
    FitEach(s.st, m.hdisplay, m.vdisplay, 0);
  }

  /** A change that stops earlier tells nobody anything and leaves windows and screen alone. */
  lemma StoppedSilent(s: Sys, e: Session.Event)
    requires e.SetMode? && !GoesThrough(e)
    ensures var best := Modes.Select(e.modes, e.w, e.h, e.refresh);
            Step(s, e) == if Enabled(s, e) && best >= 0 && e.blobOk then s.(mode := e.modes[best]) else s
  {
    hide Modes.Select;
  }
}
