/** What each connection is sent, message by message, when the focus changes and when a window is made. */
module Announcements {
  import opened Windows
  import opened Transport
  import opened SceneBasics
  import opened SceneProofs
  import FocusReports
  import Requests
  import Served

  // ---- focus --------------------------------------------------------------------------------

  /** What connection i is to hear about the focus of window id: something only if it holds the window,
      and then by its own name for it. */
  function AboutFocus(cs: seq<Client>, i: nat, id: nat, gained: bool): seq<Event> {
    match FindOwner(cs, id)
    case NoOwner => []
    case Owner(c, j) => if c == i then [FocusEvent(cs[c].wins[j].wid, id, gained)] else []
  }

  lemma TellSays(cs: seq<Client>, id: nat, gained: bool, i: nat)
    requires i < |cs|
    ensures |TellFocus(cs, id, gained)| == |cs|
    ensures TellFocus(cs, id, gained)[i] == cs[i].(sent := cs[i].sent + AboutFocus(cs, i, id, gained))
  {
    assert cs[i].sent + [] == cs[i].sent;
  }

  lemma SameAbout(cs: seq<Client>, ds: seq<Client>, i: nat, id: nat, gained: bool)
    requires OnlySent(cs, ds)
    ensures AboutFocus(ds, i, id, gained) == AboutFocus(cs, i, id, gained)
  {
    FocusReports.OwnerSame(cs, ds, id, 0);
  }

  /** When the focus goes to another window, its old holder is sent that it lost it, then its new one
      that it got it; nobody is sent anything else, and when it stays, nobody is sent anything. */
  lemma NotifySays(tp: Tp, id: nat, i: nat)
    requires i < |tp.clients|
    ensures var r, c := NotifyFocus(tp, id), tp.clients[i];
            && r == tp.(clients := r.clients, focused := id) && |r.clients| == |tp.clients|
            && r.clients[i] ==
               if id == tp.focused then c
               else c.(sent := c.sent + (AboutFocus(tp.clients, i, tp.focused, false) + AboutFocus(tp.clients, i, id, true)))
  {
    hide AboutFocus, TellFocus;
    if id != tp.focused {
      var ds := TellFocus(tp.clients, tp.focused, false);
      assert OnlySent(tp.clients, ds) by { TellSends(tp.clients, tp.focused, false); }
      TellSays(tp.clients, tp.focused, false, i);
      TellSays(ds, id, true, i);
      SameAbout(tp.clients, ds, i, id, true);
      assert ds[i].sent + AboutFocus(tp.clients, i, id, true)
          == tp.clients[i].sent + (AboutFocus(tp.clients, i, tp.focused, false) + AboutFocus(tp.clients, i, id, true));
    }
  }

  // ---- new windows ------------------------------------------------------------------------------

  /** The CONFIGURE a new window's creator is sent: its wid, and where the window is; a size that was
      not asked for is 320x240, and a wallpaper has the screen's. */
  predicate Placement(e: Event, m: Body, sw: int, sh: int)
    requires m.CreateWindow?
  {
    && e.Configure? && e.wid == m.wid
    && if m.role == 1 then e.x == 0 && e.y == 0 && e.w == AsU32(sw) && e.h == AsU32(sh)
       else e.x == m.x && e.y == m.y && e.w == (if m.w == 0 then 320 else m.w) && e.h == (if m.h == 0 then 240 else m.h)
  }

  /** A window that no slot names has no holder. */
  lemma NobodyHolds(sc: Scene, id: nat)
    requires SceneOk(sc) && id >= sc.st.nextId
    ensures FindOwner(sc.tp.clients, id).NoOwner?
  {
    var o := FindOwner(sc.tp.clients, id);
    if o.Owner? {
      HeldWindow(sc, o.client, o.slot);
      Stays(sc.st);
    }
  }

  lemma {:induction false} SlotKept(t: Table, j: nat, wid: nat, new_: nat, id: nat, from: nat)
    requires j < |t| && t[j].wid == 0 && from <= |t| && id != new_
    ensures SlotFrom(t[j := t[j].(wid := wid, serverId := new_)], id, from) == SlotFrom(t, id, from)
    decreases |t| - from
  {
    if from < |t| { SlotKept(t, j, wid, new_, id, from + 1); }
  }

  lemma {:induction false} OwnerKept(cs: seq<Client>, ci: nat, j: nat, wid: nat, new_: nat, id: nat, from: nat)
    requires ci < |cs| && j < |cs[ci].wins| && cs[ci].wins[j].wid == 0 && from <= |cs| && id != new_
    ensures OwnerFrom(ClaimSlot(cs, ci, j, wid, new_), id, from) == OwnerFrom(cs, id, from)
    decreases |cs| - from
  {
    if from < |cs| {
      OwnerKept(cs, ci, j, wid, new_, id, from + 1);
      if from == ci { SlotKept(cs[ci].wins, j, wid, new_, id, 0); }
    }
  }

  lemma {:induction false} OwnerClaimed(cs: seq<Client>, ci: nat, j: nat, wid: nat, id: nat, from: nat)
    requires ci < |cs| && cs[ci].fd >= 0 && j < |cs[ci].wins| && cs[ci].wins[j].wid == 0 && from <= |cs|
    requires OwnerFrom(cs, id, from).NoOwner?
    ensures OwnerFrom(ClaimSlot(cs, ci, j, wid, id), id, from) == if wid != 0 && from <= ci then Owner(ci, j) else NoOwner
    decreases |cs| - from
  {
    if from < |cs| {
      OwnerClaimed(cs, ci, j, wid, id, from + 1);
      if from == ci { SlotClaimed(cs[ci].wins, j, wid, id, 0); }
    }
  }

  lemma {:induction false} SlotClaimed(t: Table, j: nat, wid: nat, id: nat, from: nat)
    requires j < |t| && t[j].wid == 0 && from <= |t| && SlotFrom(t, id, from) < 0
    ensures SlotFrom(t[j := t[j].(wid := wid, serverId := id)], id, from) == if wid != 0 && from <= j then j else -1
    decreases |t| - from
  {
    if from < |t| { SlotClaimed(t, j, wid, id, from + 1); }
  }

  /** Claiming a free slot for a new window changes nothing of who hears about another one; */
  lemma AboutKept(cs: seq<Client>, ci: nat, j: nat, wid: nat, new_: nat, i: nat, id: nat, gained: bool)
    requires ci < |cs| && j < |cs[ci].wins| && cs[ci].wins[j].wid == 0 && id != new_
    ensures AboutFocus(ClaimSlot(cs, ci, j, wid, new_), i, id, gained) == AboutFocus(cs, i, id, gained)
  {
    OwnerKept(cs, ci, j, wid, new_, id, 0);
  }

  /** and it is the claimant who hears about the new one, if it gave it a name. */
  lemma AboutNew(cs: seq<Client>, ci: nat, j: nat, wid: nat, id: nat, i: nat)
    requires ci < |cs| && cs[ci].fd >= 0 && j < |cs[ci].wins| && cs[ci].wins[j].wid == 0 && id != 0
    requires FindOwner(cs, id).NoOwner?
    ensures AboutFocus(ClaimSlot(cs, ci, j, wid, id), i, id, true) == if i == ci && wid != 0 then [FocusEvent(wid, id, true)] else []
  {
    OwnerClaimed(cs, ci, j, wid, id, 0);
  }

  /** The creator is sent where its window is. */
  lemma AnnounceSays(sc: Scene, ci: nat, m: Body) returns (e: Event)
    requires SceneOk(sc) && ci < |sc.tp.clients| && m.CreateWindow? && Creates(sc, ci, m.wid)
    ensures Placement(e, m, sc.tp.sw, sc.tp.sh)
    ensures Requests.Announced(sc, ci, m).clients ==
            SendTo(ClaimSlot(sc.tp.clients, ci, WinAlloc(sc.tp.clients[ci].wins), m.wid, sc.st.nextId), ci, e)
  {
    hide OnCreate, ClaimSlot, SceneOk;
    var st, id := OnCreate(sc, ci, m).st, sc.st.nextId;
    var w := Requests.CreateStack(sc, ci, m);
    e := Configure(m.wid, w.x, w.y, AsU32(w.w), AsU32(w.h));
    Served.StackIn(sc);
    NewestAt(sc.st, w, st.ws);
    Served.IntRoundTrip(0, m.w);
    Served.IntRoundTrip(0, m.h);
    Requests.ClaimSize(sc.tp.clients, ci, WinAlloc(sc.tp.clients[ci].wins), m.wid, id);
  }

  lemma NewestAt(a: Stack, w: Window, ws: seq<Window>)
    requires Ok(a) && w.id == a.nextId && (ws == [w] + a.ws || ws == a.ws + [w])
    ensures IndexOf(ws, w.id) >= 0 && ws[IndexOf(ws, w.id)] == w
  {
    var k := if ws == [w] + a.ws then 0 else |a.ws|;
    assert ws[k] == w;
    forall i | 0 <= i < |ws| && i != k ensures ws[i].id != w.id {
      assert ws[i] == a.ws[if ws == [w] + a.ws then i - 1 else i];
    }
  }

  predicate AsksNormal(m: Body)
    requires m.CreateWindow?
  {
    m.role == 0 || m.role > 5
  }

  /** What connection i is sent when client ci's CREATE_WINDOW is served: the creator its CONFIGURE, and
      if the window is a NORMAL one, the holder of the focus that it lost it, and then the creator that
      its window has it. */
  ghost predicate SentFor(sc: Scene, ci: nat, m: Body, i: nat, more: seq<Event>)
    requires i < |sc.tp.clients| && m.CreateWindow?
  {
    exists e | Placement(e, m, sc.tp.sw, sc.tp.sh) ::
      more == (if i == ci then [e] else [])
            + (if AsksNormal(m) then AboutFocus(sc.tp.clients, i, sc.tp.focused, false) else [])
            + (if AsksNormal(m) && i == ci && m.wid != 0 then [FocusEvent(m.wid, sc.st.nextId, true)] else [])
  }

  lemma CreateSays(sc: Scene, ci: nat, m: Body, i: nat)
    requires SceneOk(sc) && ci < |sc.tp.clients| && sc.tp.clients[ci].hello && m.CreateWindow? && Served.CreateFits(sc, ci, m.wid)
    requires i < |sc.tp.clients|
    ensures var r := OnCreate(sc, ci, m).tp;
            && |r.clients| == |sc.tp.clients|
            && exists more :: SentFor(sc, ci, m, i, more) && r.clients[i].sent == sc.tp.clients[i].sent + more
  {
    hide OnCreate, AboutFocus, SceneOk, Requests.Announced, Transport.NotifyFocus, Placement, Creates;
    Served.CreateFitsIs(sc, ci, m.wid);
    var cs, id, j := sc.tp.clients, sc.st.nextId, WinAlloc(sc.tp.clients[ci].wins);
    SlotFacts(sc, ci, m);
    var e := AnnounceSays(sc, ci, m);
    var owned, told := ClaimSlot(cs, ci, j, m.wid, id), Requests.Announced(sc, ci, m);
    Requests.AnnouncedFocus(sc, ci, m);
    var first := if i == ci then [e] else [];
    assert told.clients[i].sent == cs[i].sent + first;
    if AsksNormal(m) {
      Requests.CreateNotifies(sc, ci, m);
      NotifySays(told, id, i);
      assert OnlySent(owned, told.clients);
      SameAbout(owned, told.clients, i, sc.tp.focused, false);
      SameAbout(owned, told.clients, i, id, true);
      AboutKept(cs, ci, j, m.wid, id, i, sc.tp.focused, false);
      AboutNew(cs, ci, j, m.wid, id, i);
    } else {
      CreateQuiet(sc, ci, m);
    }
    var lost := if AsksNormal(m) then AboutFocus(cs, i, sc.tp.focused, false) else [];
    var got := if AsksNormal(m) && i == ci && m.wid != 0 then [FocusEvent(m.wid, id, true)] else [];
    assert SentFor(sc, ci, m, i, first + lost + got);
    assert cs[i].sent + first + (lost + got) == cs[i].sent + (first + lost + got);
  }

  lemma SlotFacts(sc: Scene, ci: nat, m: Body)
    requires SceneOk(sc) && ci < |sc.tp.clients| && sc.tp.clients[ci].hello && m.CreateWindow? && Creates(sc, ci, m.wid)
    ensures sc.tp.clients[ci].fd >= 0 && sc.tp.focused < sc.st.nextId
    ensures FindOwner(sc.tp.clients, sc.st.nextId).NoOwner?
  {
    assert ClientOk(sc.tp.clients[ci]);
    NobodyHolds(sc, sc.st.nextId);
  }

  lemma CreateQuiet(sc: Scene, ci: nat, m: Body)
    requires ci < |sc.tp.clients| && m.CreateWindow? && Creates(sc, ci, m.wid) && !AsksNormal(m)
    ensures OnCreate(sc, ci, m).tp == Requests.Announced(sc, ci, m)
  {
    hide Announce, Place, Decorate, ClaimSlot;
  }

  // ---- the handshake ----------------------------------------------------------------------------

  /** A HELLO that is accepted is answered with the version the server speaks, the screen and the token
      the connection has from now on; nobody else is sent anything. */
  lemma WelcomeSays(sc: Scene, ci: nat, d: Datagram, i: nat)
    requires SceneOk(sc) && ci < |sc.tp.clients| && !sc.tp.clients[ci].hello && d.body.Hello? && i < |sc.tp.clients|
    ensures var r := OnHello(sc.tp, ci, d);
            && |r.clients| == |sc.tp.clients|
            && if i == ci then r.clients[i].hello && r.clients[i].sent == [Welcome(2, sc.tp.sw, sc.tp.sh, r.clients[i].token)]
               else r.clients[i] == sc.tp.clients[i]
  {
    HelloIs(sc, ci, d);
    assert ClientOk(sc.tp.clients[ci]);
  }
}
