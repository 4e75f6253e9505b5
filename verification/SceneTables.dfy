/** The moves that change who holds what: claim, commit, free, park, reap, reclaim, connect. */
module SceneTables {
  import opened Windows
  import opened Transport
  import opened Books
  import opened SceneBasics
  import opened SceneMoves

  lemma SlotAt(v: map<nat, Window>, nextId: nat, tp: Tp, ci: nat, j: nat)
    requires TpOk(v, nextId, tp) && ci < |tp.clients| && j < |tp.clients[ci].wins|
    ensures |tp.clients[ci].wins| == WIN_MAX && SlotOk(v, tp.kern.live, tp.clients[ci].wins[j])
    ensures Tabs(tp.clients, tp.orphans)[ci] == tp.clients[ci].wins && ClientOk(tp.clients[ci])
    ensures tp.clients[ci].wins[j].wid != 0 ==> Owned(Tabs(tp.clients, tp.orphans), tp.clients[ci].wins[j].serverId)
  {
    assert TableOk(v, tp.kern.live, Tabs(tp.clients, tp.orphans)[ci]);
    if tp.clients[ci].wins[j].wid != 0 { OwnedIn(Tabs(tp.clients, tp.orphans), ci, j); }
  }

  /** CREATE_WINDOW: the new window w takes the free slot j. */
  lemma TpClaim(v: map<nat, Window>, nextId: nat, tp: Tp, ci: nat, j: nat, wid: nat, w: Window)
    requires TpOk(v, nextId, tp) && ci < |tp.clients| && tp.clients[ci].hello
    requires j < |tp.clients[ci].wins| && tp.clients[ci].wins[j].wid == 0
    requires w.id !in v && w.id == nextId && w.buf.Null? && w.appDecorated
    ensures TpOk(v[w.id := w], nextId + 1, tp.(clients := ClaimSlot(tp.clients, ci, j, wid, w.id)))
    ensures Strays(v[w.id := w], tp.(clients := ClaimSlot(tp.clients, ci, j, wid, w.id)))
         == Strays(v, tp) + if wid == 0 then {w.id} else {}
  {
    var s := tp.clients[ci].wins[j].(wid := wid, serverId := w.id);
    SlotAt(v, nextId, tp, ci, j);
    BooksClaim(v, Tabs(tp.clients, tp.orphans), tp.kern, ci, j, w, s);
    OwnedLive(v, Tabs(tp.clients, tp.orphans), tp.kern);
    TpSlot(v, nextId, tp, ci, j, s, v[w.id := w], nextId + 1, tp.kern);
  }

  /** COMMIT: slot j and its window get the mapping just made; the old one is released. */
  lemma TpCommit(v: map<nat, Window>, nextId: nat, tp: Tp, ci: nat, j: nat, w: Window, len: nat)
    requires TpOk(v, nextId, tp) && ci < |tp.clients| && j < |tp.clients[ci].wins| && tp.clients[ci].wins[j].wid != 0
    requires w.id == tp.clients[ci].wins[j].serverId && w.buf == Mapping(tp.kern.nextMap) && w.appDecorated && Extent(w) <= len
    ensures var old_ := tp.clients[ci].wins[j];
            var s := old_.(buf := Mapping(tp.kern.nextMap), bufLen := len);
            var r := tp.(clients := WithTable(tp.clients, ci, tp.clients[ci].wins[j := s]),
                         kern := DropBufK(MapNew(tp.kern, len, w.id), old_));
            TpOk(v[w.id := w], nextId, r) && Strays(v[w.id := w], r) == Strays(v, tp)
  {
    var s := tp.clients[ci].wins[j].(buf := Mapping(tp.kern.nextMap), bufLen := len);
    SlotAt(v, nextId, tp, ci, j);
    BooksCommit(v, Tabs(tp.clients, tp.orphans), tp.kern, ci, j, w, len);
    TpSlot(v, nextId, tp, ci, j, s, v[w.id := w], nextId, DropBufK(MapNew(tp.kern, len, w.id), tp.clients[ci].wins[j]));
  }

  /** DESTROY_WINDOW: slot j is free again, its window and mapping are gone. */
  lemma TpFree(v: map<nat, Window>, nextId: nat, tp: Tp, ci: nat, j: nat)
    requires TpOk(v, nextId, tp) && ci < |tp.clients| && j < |tp.clients[ci].wins| && tp.clients[ci].wins[j].wid != 0
    ensures var old_ := tp.clients[ci].wins[j];
            var r := tp.(clients := WithTable(tp.clients, ci, tp.clients[ci].wins[j := FREE_SLOT]), kern := DropBufK(tp.kern, old_));
            TpOk(v - {old_.serverId}, nextId, r) && Strays(v - {old_.serverId}, r) == Strays(v, tp)
  {
    var old_ := tp.clients[ci].wins[j];
    SlotAt(v, nextId, tp, ci, j);
    BooksFree(v, Tabs(tp.clients, tp.orphans), tp.kern, ci, j);
    TpSlot(v, nextId, tp, ci, j, FREE_SLOT, v - {old_.serverId}, nextId, DropBufK(tp.kern, old_));
  }

  /** Reaping a table leaves no stray behind: what it held is gone, what it did not hold is as before. */
  lemma ReapStrays(v: map<nat, Window>, tabs: seq<Table>, next: seq<Table>, gone: set<nat>)
    requires forall id :: Owned(next, id) <==> Owned(tabs, id) && id !in gone
    requires forall id | id in gone :: Owned(tabs, id)
    ensures (set id | id in v - gone && (v - gone)[id].appDecorated && !Owned(next, id))
         == (set id | id in v && v[id].appDecorated && !Owned(tabs, id))
  {
  }

  lemma HeldOwned(tabs: seq<Table>, t: nat)
    requires t < |tabs|
    ensures forall id | id in Held(tabs[t]) :: Owned(tabs, id)
  {
  }

  // ---- whole tables -------------------------------------------------------------------

  /** The part of the invariant about connections, when one of them is replaced by a client
      that was told nothing yet. */
  lemma ToldQuiet(cs: seq<Client>, focused: nat, nextId: nat, ci: nat, c: Client)
    requires ToldOk(cs, focused, nextId) && ci < |cs| && c.sent == []
    ensures ToldOk(cs[ci := c], focused, nextId)
  {
  }

  lemma FreeIsOk()
    ensures ClientOk(FreeClient()) && OrphanOk(FreeOrphan()) && Held(NoWindows()) == {} && Empty(NoWindows())
  {
    EmptyHolds(NoWindows());
  }

  /** Client death, parked: the orphan slot o takes over token and windows. */
  lemma TpPark(v: map<nat, Window>, nextId: nat, tp: Tp, ci: nat, o: nat, deadline: int)
    requires TpOk(v, nextId, tp) && ci < |tp.clients| && o < |tp.orphans| && tp.orphans[o].token == 0
    requires tp.clients[ci].token != 0 && !Empty(tp.clients[ci].wins)
    ensures var r := tp.(clients := tp.clients[ci := FreeClient()],
                         orphans := tp.orphans[o := Orphan(tp.clients[ci].token, deadline, tp.clients[ci].wins)]);
            TpOk(v, nextId, r) && Strays(v, r) == Strays(v, tp)
  {
    var cs, os, c := tp.clients, tp.orphans, tp.clients[ci];
    var p := Orphan(c.token, deadline, c.wins);
    var tabs := Tabs(cs, os);
    assert ClientOk(c) && OrphanOk(os[o]);
    FreeIsOk();
    EmptyHolds(os[o].wins);
    TabsClient(cs, os, ci, FreeClient());
    TabsOrphan(cs[ci := FreeClient()], os, o, p);
    BooksShift(v, tabs, tp.kern, ci, |cs| + o);
    TokensShift(Toks(cs, os), tp.nextToken, ci, |cs| + o);
    ToldQuiet(cs, tp.focused, nextId, ci, FreeClient());
  }

  /** Client death, reaped: its windows and mappings are gone. */
  lemma TpReapClient(v: map<nat, Window>, nextId: nat, tp: Tp, ci: nat)
    requires TpOk(v, nextId, tp) && ci < |tp.clients|
    ensures var r := tp.(clients := tp.clients[ci := FreeClient()], kern := ReapK(tp.kern, tp.clients[ci].wins, 0));
            TpOk(v - Held(tp.clients[ci].wins), nextId, r) && Strays(v - Held(tp.clients[ci].wins), r) == Strays(v, tp)
  {
    var cs, os := tp.clients, tp.orphans;
    FreeIsOk();
    TabsClient(cs, os, ci, FreeClient());
    BooksReap(v, Tabs(cs, os), tp.kern, ci, 0);
    HeldOwned(Tabs(cs, os), ci);
    ReapStrays(v, Tabs(cs, os), Tabs(cs, os)[ci := NoWindows()], Held(cs[ci].wins));
    TokensGone(Toks(cs, os), tp.nextToken, ci);
    ToldQuiet(cs, tp.focused, nextId, ci, FreeClient());
  }

  lemma TpReapOrphan(v: map<nat, Window>, nextId: nat, tp: Tp, o: nat)
    requires TpOk(v, nextId, tp) && o < |tp.orphans|
    ensures var r := tp.(orphans := tp.orphans[o := FreeOrphan()], kern := ReapK(tp.kern, tp.orphans[o].wins, 0));
            TpOk(v - Held(tp.orphans[o].wins), nextId, r) && Strays(v - Held(tp.orphans[o].wins), r) == Strays(v, tp)
  {
    var cs, os := tp.clients, tp.orphans;
    FreeIsOk();
    TabsOrphan(cs, os, o, FreeOrphan());
    BooksReap(v, Tabs(cs, os), tp.kern, |cs| + o, 0);
    HeldOwned(Tabs(cs, os), |cs| + o);
    ReapStrays(v, Tabs(cs, os), Tabs(cs, os)[|cs| + o := NoWindows()], Held(os[o].wins));
    TokensGone(Toks(cs, os), tp.nextToken, |cs| + o);
  }

  /** The transport once a client without one is issued a new token, */
  function Issued(tp: Tp, ci: nat): Tp
    requires ci < |tp.clients|
  {
    tp.(nextToken := tp.nextToken + 1, clients := tp.clients[ci := tp.clients[ci].(hello := true, token := tp.nextToken + 1)])
  }

  /** or once it is given an orphan's token and windows. */
  function Restored(tp: Tp, ci: nat, o: nat): Tp
    requires ci < |tp.clients| && o < |tp.orphans|
  {
    var p := tp.orphans[o];
    tp.(clients := tp.clients[ci := tp.clients[ci].(hello := true, wins := p.wins, token := p.token)],
        orphans := tp.orphans[o := FreeOrphan()])
  }

  /** A fresh client that presents no live token gets a new one. */
  lemma TpGreet(v: map<nat, Window>, nextId: nat, tp: Tp, ci: nat)
    requires TpOk(v, nextId, tp) && ci < |tp.clients| && !tp.clients[ci].hello && tp.clients[ci].fd >= 0
    ensures TpOk(v, nextId, Issued(tp, ci)) && Strays(v, Issued(tp, ci)) == Strays(v, tp)
  {
    var cs, os := tp.clients, tp.orphans;
    var c := cs[ci].(hello := true, token := tp.nextToken + 1);
    assert ClientOk(cs[ci]);
    TabsClient(cs, os, ci, c);
    assert Tabs(cs, os)[ci := c.wins] == Tabs(cs, os);
    TokensNew(Toks(cs, os), tp.nextToken, ci);
    ToldQuiet(cs, tp.focused, nextId, ci, c);
  }

  /** Reclaim: the orphan's token and windows move to a client that has none. */
  lemma TpReclaim(v: map<nat, Window>, nextId: nat, tp: Tp, ci: nat, o: nat)
    requires TpOk(v, nextId, tp) && ci < |tp.clients| && !tp.clients[ci].hello && tp.clients[ci].fd >= 0
    requires o < |tp.orphans| && tp.orphans[o].token != 0
    ensures TpOk(v, nextId, Restored(tp, ci, o)) && Strays(v, Restored(tp, ci, o)) == Strays(v, tp)
  {
    var cs, os, p := tp.clients, tp.orphans, tp.orphans[o];
    var c := cs[ci].(hello := true, wins := p.wins, token := p.token);
    var tabs, toks := Tabs(cs, os), Toks(cs, os);
    assert ClientOk(cs[ci]) && OrphanOk(p);
    FreeIsOk();
    EmptyHolds(cs[ci].wins);
    TabsOrphan(cs, os, o, FreeOrphan());
    TabsClient(cs, os[o := FreeOrphan()], ci, c);
    BooksShift(v, tabs, tp.kern, |cs| + o, ci);
    TokensShift(toks, tp.nextToken, |cs| + o, ci);
    ToldQuiet(cs, tp.focused, nextId, ci, c);
  }

  /** transport_add_client puts a connection into a free slot. */
  lemma TpConnect(v: map<nat, Window>, nextId: nat, tp: Tp, fd: int, watched: bool)
    requires TpOk(v, nextId, tp) && fd >= 0
    ensures TpOk(v, nextId, AddClient(tp, fd, watched)) && Strays(v, AddClient(tp, fd, watched)) == Strays(v, tp)
  {
    var ci := ClientByFd(tp.clients, -1);
    if ci >= 0 {
      var cs, os, c := tp.clients, tp.orphans, if watched then FreeClient().(fd := fd) else FreeClient();
      assert ClientOk(cs[ci]);
      FreeIsOk();
      EmptyHolds(cs[ci].wins);
      TabsClient(cs, os, ci, c);
      BooksBlank(v, Tabs(cs, os), tp.kern, ci);
      assert Toks(cs, os)[ci := 0] == Toks(cs, os);
      ToldQuiet(cs, tp.focused, nextId, ci, c);
    }
  }
}
