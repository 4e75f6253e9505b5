/** What each request of a native client changes, exactly, on the stack, in the client's table and
    in the kernel; everything not named stays as it was. */
module Requests {
  import opened Windows
  import opened Transport
  import opened StackSteps
  import opened SceneBasics
  import opened SceneMoves
  import opened SceneProofs
  import FocusReports
  import Books

  // ---- CREATE_WINDOW ------------------------------------------------------------------

  /** The window a CREATE_WINDOW makes. */
  ghost predicate IsRequested(w: Window, id: nat, m: Body, sw: int, sh: int)
    requires m.CreateWindow?
  {
    && w.id == id && w.role == RoleFromWire(m.role) && w.mapped && w.appDecorated && !w.snapped && w.buf.Null?
    && if w.role.Desktop? then w.x == 0 && w.y == 0 && w.w == sw && w.h == sh
       else w.x == m.x && w.y == m.y && w.w == (if m.w == 0 then 320 else AsInt(m.w)) && w.h == (if m.h == 0 then 240 else AsInt(m.h))
  }

  /** The new window is exactly as requested; a wallpaper goes below all the others and fits the
      screen, everything else goes on top, and only a NORMAL window takes focus. */
  lemma CreateStack(sc: Scene, ci: nat, m: Body) returns (w: Window)
    requires SceneOk(sc) && ci < |sc.tp.clients| && m.CreateWindow? && Creates(sc, ci, m.wid)
    ensures IsRequested(w, sc.st.nextId, m, sc.tp.sw, sc.tp.sh)
    ensures var r, id := OnCreate(sc, ci, m).st, sc.st.nextId;
            && r.ws == (if w.role.Desktop? then [w] + sc.st.ws else sc.st.ws + [w])
            && r.focus == (if w.role.Normal? then id else sc.st.focus)
            && r.nextId == id + 1
  {
    hide Announce, Transport.NotifyFocus;
    var role, x, y := RoleFromWire(m.role), WidthOr(m.w, 320), WidthOr(m.h, 240);
    w := Admitted(role, sc.st.nextId, m.x, m.y, x, y, sc.tp.sw, sc.tp.sh);
    assert SceneOk(sc) ==> sc.tp.sw >= 1 && sc.tp.sh >= 1;
    DecorateNewest(sc.st, role, m.x, m.y, x, y);
    AppendedOk(sc.st, w);
    assert ToBottom(sc.st.ws + [w], |sc.st.ws|) == [w] + sc.st.ws;
  }

  lemma NotifySent(tp: Tp, id: nat)
    ensures OnlySent(tp.clients, Transport.NotifyFocus(tp, id).clients)
    ensures Transport.NotifyFocus(tp, id) == tp.(clients := Transport.NotifyFocus(tp, id).clients, focused := id)
  {
    TellSends(tp.clients, tp.focused, false);
    TellSends(TellFocus(tp.clients, tp.focused, false), id, true);
  }

  lemma AnnounceSent(st: Stack, cs: seq<Client>, ci: nat, wid: nat, id: nat)
    requires ci < |cs|
    ensures OnlySent(cs, Announce(st, cs, ci, wid, id))
  {
  }

  /** The client's side of it: the first free slot is claimed for the new window, and no other
      slot, orphan, mapping or token changes. */
  lemma CreateSlot(sc: Scene, ci: nat, m: Body)
    requires ci < |sc.tp.clients| && m.CreateWindow? && Creates(sc, ci, m.wid)
    ensures var r, j := OnCreate(sc, ci, m).tp, WinAlloc(sc.tp.clients[ci].wins);
            && OnlySent(ClaimSlot(sc.tp.clients, ci, j, m.wid, sc.st.nextId), r.clients)
            && r.orphans == sc.tp.orphans && r.kern == sc.tp.kern && r.nextToken == sc.tp.nextToken && r.cursor == sc.tp.cursor
  {
    hide Announce, Transport.NotifyFocus, Place, Decorate, ClaimSlot;
    var id := sc.st.nextId;
    var owned := ClaimSlot(sc.tp.clients, ci, WinAlloc(sc.tp.clients[ci].wins), m.wid, id);
    ClaimSize(sc.tp.clients, ci, WinAlloc(sc.tp.clients[ci].wins), m.wid, id);
    AnnounceSent(OnCreate(sc, ci, m).st, owned, ci, m.wid, id);
    NotifySent(sc.tp.(clients := Announce(OnCreate(sc, ci, m).st, owned, ci, m.wid, id)), id);
  }

  lemma ClaimSize(cs: seq<Client>, ci: nat, j: nat, wid: nat, id: nat)
    requires ci < |cs| && j < |cs[ci].wins|
    ensures |ClaimSlot(cs, ci, j, wid, id)| == |cs|
  {
  }

  lemma OneSlot(sc: Scene, ci: nat, a: nat, b: nat)
    requires SceneOk(sc) && ci < |sc.tp.clients| && a < |sc.tp.clients[ci].wins| && b < |sc.tp.clients[ci].wins|
    requires sc.tp.clients[ci].wins[a].wid != 0 && sc.tp.clients[ci].wins[b].wid != 0
    requires sc.tp.clients[ci].wins[a].serverId == sc.tp.clients[ci].wins[b].serverId
    ensures a == b
  {
    ClientTable(sc, ci);
  }

  /** A window has one owner, and find_by_server_id finds it. */
  lemma SlotOwner(sc: Scene, ci: nat, j: nat)
    requires SceneOk(sc) && ci < |sc.tp.clients| && j < |sc.tp.clients[ci].wins| && sc.tp.clients[ci].wins[j].wid != 0
    ensures FindOwner(sc.tp.clients, sc.tp.clients[ci].wins[j].serverId) == Owner(ci, j)
  {
    Stays(sc.st);
    Holders(View(sc.st.ws), sc.st.nextId, sc.tp);
    SoleOwner(sc.tp.clients, ci, j);
    OneSlot(sc, ci, FindOwner(sc.tp.clients, sc.tp.clients[ci].wins[j].serverId).slot, j);
  }

  /** The transport between claiming the slot and reporting focus. */
  function Announced(sc: Scene, ci: nat, m: Body): Tp
    requires ci < |sc.tp.clients| && m.CreateWindow? && Creates(sc, ci, m.wid)
  {
    var id := sc.st.nextId;
    var owned := ClaimSlot(sc.tp.clients, ci, WinAlloc(sc.tp.clients[ci].wins), m.wid, id);
    sc.tp.(clients := Announce(OnCreate(sc, ci, m).st, owned, ci, m.wid, id))
  }

  lemma CreateNotifies(sc: Scene, ci: nat, m: Body)
    requires ci < |sc.tp.clients| && m.CreateWindow? && Creates(sc, ci, m.wid) && RoleFromWire(m.role).Normal?
    ensures OnCreate(sc, ci, m).tp == Transport.NotifyFocus(Announced(sc, ci, m), sc.st.nextId)
  {
    hide Announce, Place, Decorate, ClaimSlot, Transport.NotifyFocus;
  }

  /** The creator of a NORMAL window is the one told that it is focused. */
  lemma CreateTells(sc: Scene, ci: nat, m: Body)
    requires SceneOk(sc) && ci < |sc.tp.clients| && sc.tp.clients[ci].hello && m.CreateWindow? && Creates(sc, ci, m.wid)
    requires m.wid != 0 && RoleFromWire(m.role).Normal?
    ensures var r, id := OnCreate(sc, ci, m).tp, sc.st.nextId;
            r.focused == id && ci < |r.clients| && Told(r.clients[ci].sent, id)
  {
    hide OnCreate, Announced;
    var r, id, j := OnCreate(sc, ci, m), sc.st.nextId, WinAlloc(sc.tp.clients[ci].wins);
    CreateSlot(sc, ci, m);
    CreateKeeps(sc, ci, m);
    SlotOwner(r, ci, j);
    CreateNotifies(sc, ci, m);
    NotifySent(Announced(sc, ci, m), id);
    FocusReports.OwnerSame(Announced(sc, ci, m).clients, r.tp.clients, id, 0);
    AnnouncedFocus(sc, ci, m);
    FocusReports.NotifyTells(Announced(sc, ci, m), id, ci, j);
  }

  lemma AnnouncedFocus(sc: Scene, ci: nat, m: Body)
    requires ci < |sc.tp.clients| && m.CreateWindow? && Creates(sc, ci, m.wid)
    ensures Announced(sc, ci, m).focused == sc.tp.focused
  {
  }

  // ---- COMMIT and DESTROY_WINDOW --------------------------------------------------------------

  ghost function Releases(w: ClWin): multiset<nat> { if w.buf.Mapping? then multiset{w.buf.m} else multiset{} }

  /** The mappings after a buffer of window id took the place of the one slot w held. */
  ghost predicate Swapped(k: Kernel, r: Kernel, w: ClWin, len: nat, id: nat) {
    && r.released == k.released + Releases(w)
    && (forall n | n in k.live && w.buf != Mapping(n) :: n in r.live && r.live[n] == k.live[n])
    && k.nextMap in r.live && r.live[k.nextMap] == MapInfo(len, id)
  }

  lemma SwapsMapping(k: Kernel, w: ClWin, len: nat, id: nat)
    requires k.nextMap !in k.live && (w.buf.Mapping? ==> w.buf.m in k.live)
    ensures Swapped(k, DropBufK(MapNew(k, len, id), w), w, len, id)
  {
  }

  /** The window with the committed buffer. */
  function Committed(w: Window, base: Ptr, m: Body): Window
    requires m.Commit?
  {
    w.(buf := base, bufW := AsInt(m.width), bufH := AsInt(m.height), bufStride := AsInt(m.stride))
  }

  /** From sc to r only the slot's window changed, to show a fresh mapping of the whole declared
      buffer with the declared size and stride; and the slot's previous mapping was released. */
  ghost predicate BufferTaken(sc: Scene, r: Scene, slot: ClWin, m: Body)
    requires m.Commit?
  {
    var i, k := IndexOf(sc.st.ws, slot.serverId), sc.tp.kern;
    && i >= 0
    && r.st == sc.st.(ws := sc.st.ws[i := Committed(sc.st.ws[i], Mapping(k.nextMap), m)])
    && Swapped(k, r.tp.kern, slot, m.stride * m.height, slot.serverId)
  }

  lemma ShowEffect(sc: Scene, ci: nat, j: nat, m: Body)
    requires SceneOk(sc) && ci < |sc.tp.clients| && m.Commit?
    requires j < |sc.tp.clients[ci].wins| && sc.tp.clients[ci].wins[j].wid != 0
    ensures BufferTaken(sc, Show(sc, ci, j, m), sc.tp.clients[ci].wins[j], m)
  {
    var slot := sc.tp.clients[ci].wins[j];
    HeldWindow(sc, ci, j);
    ClientTable(sc, ci);
    assert Books.SlotOk(View(sc.st.ws), sc.tp.kern.live, slot);
    SwapsMapping(sc.tp.kern, slot, m.stride * m.height, slot.serverId);
    CommitStack(sc.st, slot, IndexOf(sc.st.ws, slot.serverId), Mapping(sc.tp.kern.nextMap), AsInt(m.width), AsInt(m.height), AsInt(m.stride));
  }

  /** An accepted COMMIT: its window, and nothing else on the stack, changes to the new buffer; the
      previous mapping of that window, and no other, is released. */
  lemma CommitEffect(sc: Scene, ci: nat, m: Body, fds: seq<int>, mem: Mmap)
    requires SceneOk(sc) && ci < |sc.tp.clients| && m.Commit? && CommitAccepted(sc, ci, m, fds, mem)
    ensures var j := WinFind(sc.tp.clients[ci].wins, m.wid);
            j >= 0 && BufferTaken(sc, OnCommit(sc, ci, m, fds, mem), sc.tp.clients[ci].wins[j], m)
  {
    hide Show;
    var closed := CloseAll(sc, CommitCloses(m, fds));
    CloseKeeps(sc, CommitCloses(m, fds));
    ShowEffect(closed, ci, WinFind(sc.tp.clients[ci].wins, m.wid), m);
  }

  /** DESTROY_WINDOW removes exactly that window, frees its slot and releases its mapping; a lost
      focus goes to the topmost window left. */
  lemma DestroyEffect(sc: Scene, ci: nat, m: Body)
    requires SceneOk(sc) && ci < |sc.tp.clients| && m.DestroyWindow? && WinFind(sc.tp.clients[ci].wins, m.wid) >= 0
    ensures var r, j := OnDestroyWindow(sc, ci, m), WinFind(sc.tp.clients[ci].wins, m.wid);
            var slot := sc.tp.clients[ci].wins[j];
            && r.st == Reaped(sc.st, {slot.serverId})
            && r.tp.clients == sc.tp.clients[ci := sc.tp.clients[ci].(wins := sc.tp.clients[ci].wins[j := FREE_SLOT])]
            && r.tp.kern.released == sc.tp.kern.released + Releases(slot)
  {
    var j := WinFind(sc.tp.clients[ci].wins, m.wid);
    HeldWindow(sc, ci, j);
    DropThenDestroy(sc.st, sc.tp.clients[ci].wins[j]);
  }

  // ---- SET_GEOMETRY ---------------------------------------------------------------------------

  /** From w to n the position is as asked, and each size that was asked for and is positive. */
  predicate PutWhere(w: Window, n: Window, m: Body)
    requires m.SetGeometry?
  {
    && n == w.(x := m.x, y := m.y, w := n.w, h := n.h)
    && n.w == (if 0 < AsInt(m.w) then AsInt(m.w) else w.w) && n.h == (if 0 < AsInt(m.h) then AsInt(m.h) else w.h)
  }

  /** A client's SET_GEOMETRY puts its own window there, unless that is a wallpaper; no other window
      changes, the z-order and the focus stay, and nothing of the transport changes. */
  lemma GeometryEffect(sc: Scene, ci: nat, m: Body)
    requires SceneOk(sc) && ci < |sc.tp.clients| && m.SetGeometry? && WinFind(sc.tp.clients[ci].wins, m.wid) >= 0
    ensures var r, id := OnSetGeometry(sc, ci, m), sc.tp.clients[ci].wins[WinFind(sc.tp.clients[ci].wins, m.wid)].serverId;
            && r.tp == sc.tp && r.st.focus == sc.st.focus && r.st.nextId == sc.st.nextId && |r.st.ws| == |sc.st.ws|
            && forall i | 0 <= i < |sc.st.ws| ::
                 if sc.st.ws[i].id == id && !sc.st.ws[i].role.Desktop? then PutWhere(sc.st.ws[i], r.st.ws[i], m)
                 else r.st.ws[i] == sc.st.ws[i]
  {
    var j := WinFind(sc.tp.clients[ci].wins, m.wid);
    HeldWindow(sc, ci, j);
    Stays(sc.st);
    var k := IndexOf(sc.st.ws, sc.tp.clients[ci].wins[j].serverId);
    forall i | 0 <= i < |sc.st.ws| && sc.st.ws[i].id == sc.st.ws[k].id ensures i == k {
    }
  }

  // ---- resolution changes -----------------------------------------------------------------------

  /** A new resolution is announced once on every connection past its handshake, and only there. */
  lemma {:induction false} BroadcastEach(cs: seq<Client>, w: int, h: int, from: nat, i: nat)
    requires from <= |cs| && i < |cs|
    ensures var c := cs[i];
            BroadcastFrom(cs, w, h, from)[i] ==
            if from <= i && c.fd >= 0 && c.hello then c.(sent := c.sent + [ScreenEvent(AsU32(w), AsU32(h))]) else c
    decreases |cs| - from
  {
    if from < |cs| {
      if cs[from].fd >= 0 && cs[from].hello {
        BroadcastEach(SendTo(cs, from, ScreenEvent(AsU32(w), AsU32(h))), w, h, from + 1, i);
      } else {
        BroadcastEach(cs, w, h, from + 1, i);
      }
    }
  }
}
