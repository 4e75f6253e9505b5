/** What each step of the server does to the clients' tables and to what they were told about focus;
    and from that, over whole runs, who knows that it is focused. */
module FocusHistory {
  import opened Windows
  import opened Transport
  import opened SceneBasics
  import SceneProofs
  import opened Session
  import opened SessionProofs
  import opened Reconnect
  import opened Tokens
  import FocusReports
  import Modes
  import Requests
  import Wayland
  import WmPolicy

  // ---- one client ----------------------------------------------------------------------------

  /** b is a with more messages, none of them about focus. */
  ghost predicate QuietSince(a: seq<Transport.Event>, b: seq<Transport.Event>) {
    |a| <= |b| && b[..|a|] == a && forall k | |a| <= k < |b| :: !b[k].FocusEvent?
  }

  predicate SameName(a: ClWin, b: ClWin) { b.wid == a.wid && b.serverId == a.serverId }

  /** The same connection: no window was added to its table, and it heard nothing new about focus. */
  ghost predicate Continues(c: Client, d: Client) {
    && |d.wins| == |c.wins| && QuietSince(c.sent, d.sent)
    && forall j | 0 <= j < |d.wins| && d.wins[j].wid != 0 :: SameName(c.wins[j], d.wins[j])
  }

  ghost predicate NoFocusYet(d: Client) { forall k | 0 <= k < |d.sent| :: !d.sent[k].FocusEvent? }

  /** The event gets this table back. */
  ghost predicate Returned(s: Sys, e: Session.Event, wins: Table) {
    exists o :: 0 <= o < |s.tp.orphans| && Reclaims(s, e, s.tp.orphans[o].token) && wins == s.tp.orphans[o].wins
  }

  /** A client is as it was, or it is new and empty, or new with a table it got back. */
  ghost predicate Plain(s: Sys, e: Session.Event, c: Client, d: Client) {
    Continues(c, d) || (NoFocusYet(d) && (Empty(d.wins) || Returned(s, e, d.wins)))
  }

  ghost predicate AllPlain(s: Sys, e: Session.Event, ds: seq<Client>) {
    |ds| == |s.tp.clients| && forall i | 0 <= i < |ds| :: Plain(s, e, s.tp.clients[i], ds[i])
  }

  lemma SentKept(cs: seq<Client>, ci: nat, m: Transport.Event, i: nat)
    requires ci < |cs| && i < |cs| && !m.FocusEvent?
    ensures Continues(cs[i], SendTo(cs, ci, m)[i])
  {
  }

  lemma OwnerKept(tp: Tp, id: nat, m: Transport.Event, i: nat)
    requires i < |tp.clients| && !m.FocusEvent?
    ensures |SendOwner(tp, id, m).clients| == |tp.clients| && Continues(tp.clients[i], SendOwner(tp, id, m).clients[i])
    ensures SendOwner(tp, id, m).focused == tp.focused
  {
    var o := FindOwner(tp.clients, id);
    if o.Owner? { SentKept(tp.clients, o.client, m, i); }
  }

  lemma KeptAll(s: Sys, e: Session.Event, ds: seq<Client>)
    requires |ds| == |s.tp.clients| && forall i | 0 <= i < |ds| :: Continues(s.tp.clients[i], ds[i])
    ensures AllPlain(s, e, ds)
  {
  }

  // ---- steps that report nothing -----------------------------------------------------------------

  /** The event is a CREATE_WINDOW that gets a window. */
  predicate Makes(s: Sys, e: Session.Event) {
    && e.Receive? && Enabled(s, e)
    && var ci := ClientByFd(s.tp.clients, e.fd);
       && ci >= 0 && s.tp.clients[ci].hello
       && e.datagram.body.CreateWindow? && e.datagram.len >= CREATE_SIZE
       && Creates(SceneOf(s), ci, e.datagram.body.wid)
  }

  lemma RoutePlain(s: Sys, e: Session.Event, id: nat, m: Transport.Event)
    requires !m.FocusEvent?
    ensures AllPlain(s, e, SendOwner(s.tp, id, m).clients) && SendOwner(s.tp, id, m).focused == s.tp.focused
  {
    hide Continues;
    forall i | 0 <= i < |s.tp.clients|
      ensures |SendOwner(s.tp, id, m).clients| == |s.tp.clients|
      ensures Continues(s.tp.clients[i], SendOwner(s.tp, id, m).clients[i])
    {
      OwnerKept(s.tp, id, m, i);
    }
    OwnerSize(s.tp, id, m);
    KeptAll(s, e, SendOwner(s.tp, id, m).clients);
  }

  lemma OwnerSize(tp: Tp, id: nat, m: Transport.Event)
    ensures |SendOwner(tp, id, m).clients| == |tp.clients| && SendOwner(tp, id, m).focused == tp.focused
  {
  }

  lemma StaysPlain(s: Sys, e: Session.Event)
    ensures AllPlain(s, e, s.tp.clients)
  {
  }

  ghost predicate PlainStep(s: Sys, e: Session.Event) {
    var t := Step(s, e); AllPlain(s, e, t.tp.clients) && t.tp.focused == s.tp.focused
  }

  lemma InputPlain(s: Sys, e: Session.Event)
    requires e.Motion? || e.MotionAbs? || e.Button? || e.Key?
    ensures PlainStep(s, e)
  {
    hide AllPlain, SendOwner, WmPolicy.Motion, WmPolicy.MotionAbs, WmPolicy.Button, WmPolicy.Key,
         Wayland.PointerMotion, Wayland.PointerButton;
    StaysPlain(s, e);
    forall id, m: Transport.Event | !m.FocusEvent?
      ensures AllPlain(s, e, SendOwner(s.tp, id, m).clients) && SendOwner(s.tp, id, m).focused == s.tp.focused
    {
      RoutePlain(s, e, id, m);
    }
  }

  lemma ModePlain(s: Sys, e: Session.Event)
    requires e.SetMode?
    ensures PlainStep(s, e)
  {
    hide BroadcastFrom, FitFrom, Modes.Select, AllPlain;
    StaysPlain(s, e);
    forall w, h ensures AllPlain(s, e, BroadcastFrom(s.tp.clients, w, h, 0)) { ScreenPlain(s, e, w, h); }
  }

  lemma ScreenPlain(s: Sys, e: Session.Event, w: int, h: int)
    ensures AllPlain(s, e, BroadcastFrom(s.tp.clients, w, h, 0))
  {
    hide BroadcastFrom;
    forall i | 0 <= i < |s.tp.clients| ensures Continues(s.tp.clients[i], BroadcastFrom(s.tp.clients, w, h, 0)[i]) {
      Requests.BroadcastEach(s.tp.clients, w, h, 0, i);
    }
    KeptAll(s, e, BroadcastFrom(s.tp.clients, w, h, 0));
  }

  lemma QuietPlain(s: Sys, e: Session.Event)
    requires e.Connect? || e.Tick? || e.Wl?
    ensures PlainStep(s, e)
  {
    hide Wayland.Serve, ExpireFrom;
    ExpireClients(SceneOf(s), if e.Tick? then e.now else 0, 0);
    ExpireFocused(SceneOf(s), if e.Tick? then e.now else 0, 0);
  }

  lemma {:induction false} ExpireFocused(sc: Scene, now: int, from: nat)
    requires from <= |sc.tp.orphans|
    ensures ExpireFrom(sc, now, from).tp.focused == sc.tp.focused
    decreases |sc.tp.orphans| - from
  {
    if from < |sc.tp.orphans| {
      ExpireFocused(sc, now, from + 1);
      ExpireFocused(OrphanDestroy(sc, from), now, from + 1);
    }
  }

  lemma DeathPlain(s: Sys, e: Session.Event)
    requires Dying(s, e) >= 0
    ensures PlainStep(s, e)
  {
    hide Step, Dying, ReapSt, ReapK;
    DeathIs(s, e);
  }

  lemma TablePlain(s: Sys, e: Session.Event, ci: nat, ds: seq<Client>)
    requires ci < |s.tp.clients| && |ds| == |s.tp.clients| && Continues(s.tp.clients[ci], ds[ci])
    requires forall i | 0 <= i < |ds| && i != ci :: ds[i] == s.tp.clients[i]
    ensures AllPlain(s, e, ds)
  {
  }

  lemma RequestPlain(s: Sys, e: Session.Event, ci: nat, b: Body, fds: seq<int>, mem: Mmap)
    requires ci < |s.tp.clients| && !(b.CreateWindow? && Creates(SceneOf(s), ci, b.wid))
    ensures var r := Transport.Request(SceneOf(s), ci, b, fds, mem).tp; AllPlain(s, e, r.clients) && r.focused == s.tp.focused
  {
    hide Destroy, SetBuf, DropBufSt, DropBufK, AllPlain, Creates;
    var r := Transport.Request(SceneOf(s), ci, b, fds, mem).tp;
    assert |r.clients| == |s.tp.clients| && Continues(s.tp.clients[ci], r.clients[ci]);
    TablePlain(s, e, ci, r.clients);
  }

  /** The greeting client was told nothing about focus; its table is empty or that of the orphan. */
  lemma HelloShape(sc: Scene, ci: nat, d: Datagram)
    requires SceneProofs.SceneOk(sc) && ci < |sc.tp.clients| && !sc.tp.clients[ci].hello && d.body.Hello?
    ensures var r, o := OnHello(sc.tp, ci, d), if Presented(d) == 0 then -1 else FindOrphan(sc.tp.orphans, Presented(d));
            && |r.clients| == |sc.tp.clients| && r.focused == sc.tp.focused
            && (forall i | 0 <= i < |r.clients| && i != ci :: r.clients[i] == sc.tp.clients[i])
            && NoFocusYet(r.clients[ci])
            && (if o < 0 then Empty(r.clients[ci].wins) else r.clients[ci].wins == sc.tp.orphans[o].wins)
  {
    hide OnHello, FindOrphan;
    SceneProofs.HelloIs(sc, ci, d);
    assert ClientOk(sc.tp.clients[ci]);
  }

  lemma HelloPlain(s: Sys, e: Session.Event)
    requires SysOk(s) && e.Receive? && Enabled(s, e)
    requires var ci := ClientByFd(s.tp.clients, e.fd); ci >= 0 && Greets(s.tp.clients, ci, e.datagram)
    ensures var r := OnHello(s.tp, ClientByFd(s.tp.clients, e.fd), e.datagram);
            AllPlain(s, e, r.clients) && r.focused == s.tp.focused
  {
    hide OnHello, SysOk, NoFocusYet, AllPlain, Returned;
    assert SceneProofs.SceneOk(SceneOf(s)) by { Parts(s); }
    var ci := ClientByFd(s.tp.clients, e.fd);
    HelloShape(SceneOf(s), ci, e.datagram);
    var o := if Presented(e.datagram) == 0 then -1 else FindOrphan(s.tp.orphans, Presented(e.datagram));
    if o >= 0 { PresentsReturned(s, e, o); }
    NewcomerPlain(s, e, ci, OnHello(s.tp, ci, e.datagram).clients);
  }

  lemma PresentsReturned(s: Sys, e: Session.Event, o: nat)
    requires o < |s.tp.orphans| && s.tp.orphans[o].token != 0 && Redeems(s, e, s.tp.orphans[o].token)
    ensures Returned(s, e, s.tp.orphans[o].wins)
  {
    hide Redeems;
  }

  lemma NewcomerPlain(s: Sys, e: Session.Event, ci: nat, ds: seq<Client>)
    requires ci < |s.tp.clients| && |ds| == |s.tp.clients| && forall i | 0 <= i < |ds| && i != ci :: ds[i] == s.tp.clients[i]
    requires NoFocusYet(ds[ci]) && (Empty(ds[ci].wins) || Returned(s, e, ds[ci].wins))
    ensures AllPlain(s, e, ds)
  {
    hide Returned;
  }

  lemma ReceivePlain(s: Sys, e: Session.Event)
    requires SysOk(s) && e.Receive? && Enabled(s, e) && Dying(s, e) < 0 && !Makes(s, e)
    ensures PlainStep(s, e)
  {
    hide Step, SysOk, OnHello, Transport.Request, Dying, AllPlain;
    var ci := ClientByFd(s.tp.clients, e.fd);
    if ci < 0 {
      UnheardPlain(s, e);
    } else {
      ServedIs(s, e);
      if Greets(s.tp.clients, ci, e.datagram) { HelloPlain(s, e); }
      else {
        ServedHello(s, e);
        RequestPlain(s, e, ci, e.datagram.body, e.fds, e.mem);
      }
    }
  }

  lemma UnheardPlain(s: Sys, e: Session.Event)
    requires e.Receive? && ClientByFd(s.tp.clients, e.fd) < 0
    ensures PlainStep(s, e)
  {
  }

  /** What is served without a greeting comes from a client past its handshake, in full length. */
  lemma ServedHello(s: Sys, e: Session.Event)
    requires e.Receive? && Enabled(s, e) && Dying(s, e) < 0
    requires var ci := ClientByFd(s.tp.clients, e.fd); ci >= 0 && !Greets(s.tp.clients, ci, e.datagram)
    ensures s.tp.clients[ClientByFd(s.tp.clients, e.fd)].hello && e.datagram.len >= Need(e.datagram.body)
  {
    hide OnHello, Transport.Request;
  }

  /** No step but the end of a turn and a new window reports focus. */
  lemma StepPlain(s: Sys, e: Session.Event)
    requires SysOk(s) && !e.Sync? && !Makes(s, e)
    ensures PlainStep(s, e)
  {
    hide SysOk, Step, Dying, AllPlain, Makes;
    if !Enabled(s, e) { DisabledIs(s, e); StaysPlain(s, e); }
    else if Dying(s, e) >= 0 { DeathPlain(s, e); }
    else if e.Receive? { ReceivePlain(s, e); }
    else if e.Hangup? { HangupPlain(s, e); }
    else if e.SetMode? { ModePlain(s, e); }
    else if e.Connect? || e.Tick? || e.Wl? { QuietPlain(s, e); }
    else { InputPlain(s, e); }
  }

  lemma DisabledIs(s: Sys, e: Session.Event)
    requires !Enabled(s, e)
    ensures Step(s, e) == s
  {
  }

  lemma HangupPlain(s: Sys, e: Session.Event)
    requires e.Hangup? && Enabled(s, e) && Dying(s, e) < 0
    ensures PlainStep(s, e)
  {
  }

  // ---- steps that report ---------------------------------------------------------------------------

  /** In a step that makes a window: the clients before focus is reported. One slot names the new
      window; nothing else was added or said. */
  ghost predicate Named(s: Sys, ci: nat, wid: nat, id: nat, mid: Tp) {
    && ci < |s.tp.clients| && |mid.clients| == |s.tp.clients| && mid.focused == s.tp.focused
    && (forall i | 0 <= i < |mid.clients| && i != ci :: mid.clients[i] == s.tp.clients[i])
    && |mid.clients[ci].wins| == |s.tp.clients[ci].wins| && QuietSince(s.tp.clients[ci].sent, mid.clients[ci].sent)
    && mid.clients[ci].fd == s.tp.clients[ci].fd
    && exists k :: 0 <= k < |mid.clients[ci].wins| &&
         mid.clients[ci].wins == s.tp.clients[ci].wins[k := s.tp.clients[ci].wins[k].(wid := wid, serverId := id)]
  }

  lemma AnnouncedNames(s: Sys, ci: nat, m: Body)
    requires ci < |s.tp.clients| && m.CreateWindow? && Creates(SceneOf(s), ci, m.wid)
    ensures Named(s, ci, m.wid, s.st.nextId, Requests.Announced(SceneOf(s), ci, m))
  {
    hide OnCreate;
    var mid, j := Requests.Announced(SceneOf(s), ci, m), WinAlloc(s.tp.clients[ci].wins);
    assert mid.clients[ci].wins == s.tp.clients[ci].wins[j := s.tp.clients[ci].wins[j].(wid := m.wid, serverId := s.st.nextId)];
  }

  lemma CreateFocus(sc: Scene, ci: nat, m: Body)
    requires ci < |sc.tp.clients| && m.CreateWindow? && Creates(sc, ci, m.wid)
    ensures var mid := Requests.Announced(sc, ci, m);
            OnCreate(sc, ci, m).tp == if RoleFromWire(m.role).Normal? then NotifyFocus(mid, sc.st.nextId) else mid
  {
    hide Announce, Place, Decorate, ClaimSlot, NotifyFocus;
  }

  lemma MakesIs(s: Sys, e: Session.Event)
    requires Makes(s, e)
    ensures var ci, m := ClientByFd(s.tp.clients, e.fd), e.datagram.body;
            && Step(s, e).st == OnCreate(SceneOf(s), ci, m).st
            && Step(s, e).tp.(kern := s.tp.kern) == OnCreate(SceneOf(s), ci, m).tp.(kern := s.tp.kern)
  {
    hide OnCreate;
  }

  /** A step that makes a window names it, and reports focus if it is a NORMAL one. */
  lemma MakeReports(s: Sys, e: Session.Event) returns (ci: nat, wid: nat, mid: Tp, normal: bool)
    requires Makes(s, e)
    ensures Named(s, ci, wid, s.st.nextId, mid) && ci == ClientByFd(s.tp.clients, e.fd) && wid == e.datagram.body.wid
    ensures normal == RoleFromWire(e.datagram.body.role).Normal?
    ensures var t, r := Step(s, e).tp, if normal then NotifyFocus(mid, s.st.nextId) else mid;
            t.clients == r.clients && t.focused == r.focused
  {
    hide Step, OnCreate, NotifyFocus, Named;
    ci, wid, normal := ClientByFd(s.tp.clients, e.fd), e.datagram.body.wid, RoleFromWire(e.datagram.body.role).Normal?;
    mid := Requests.Announced(SceneOf(s), ci, e.datagram.body);
    AnnouncedNames(s, ci, e.datagram.body);
    CreateFocus(SceneOf(s), ci, e.datagram.body);
    MakesIs(s, e);
  }

  /** After the end of a turn: focus was reported, then perhaps one more message sent. */
  lemma SyncReportsThen(s: Sys, i: nat)
    requires i < |s.tp.clients|
    ensures var u, t := NotifyFocus(s.tp, s.st.focus), Step(s, Sync).tp;
            && |u.clients| == |s.tp.clients| == |t.clients| && Continues(u.clients[i], t.clients[i])
            && t.focused == u.focused == s.st.focus
  {
    hide Continues, NotifyFocus;
    var u := NotifyFocus(s.tp, s.st.focus);
    Requests.NotifySent(s.tp, s.st.focus);
    GeometryKept(s.st, u, s.wm.reconfigured, i);
    SameKept(u.clients[i]);
    SyncShape(s);
  }

  lemma SyncShape(s: Sys)
    ensures var u, t := NotifyFocus(s.tp, s.st.focus), Step(s, Sync).tp;
            t == u || t == NotifyGeometry(s.st, u, s.wm.reconfigured)
  {
    hide NotifyFocus, NotifyGeometry, Wayland.KeyboardFocus;
  }

  lemma SameKept(c: Client)
    ensures Continues(c, c)
  {
  }

  lemma GeometryKept(st: Stack, tp: Tp, id: nat, i: nat)
    requires i < |tp.clients|
    ensures var r := NotifyGeometry(st, tp, id);
            |r.clients| == |tp.clients| && Continues(tp.clients[i], r.clients[i]) && r.focused == tp.focused
  {
    var k := IndexOf(st.ws, id);
    if k >= 0 { OwnerKept(tp, id, ConfigureFor(OwnerWid(tp.clients, id), st.ws[k]), i); }
  }

  lemma SyncOwner(s: Sys, id: nat)
    ensures Step(s, Sync) == OnSync(s) && OnlySent(s.tp.clients, OnSync(s).tp.clients) && OnSync(s).tp.orphans == s.tp.orphans
    ensures FindOwner(OnSync(s).tp.clients, id) == FindOwner(s.tp.clients, id)
  {
    Requests.NotifySent(s.tp, s.st.focus);
    FocusReports.OwnerSame(s.tp.clients, OnSync(s).tp.clients, id, 0);
  }
}
