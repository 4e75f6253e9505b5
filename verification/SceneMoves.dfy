/** Each elementary move of the transport keeps its invariants. */
module SceneMoves {
  import opened Windows
  import opened Transport
  import opened Books
  import opened SceneBasics

  /** The transport's own invariant, over the windows v with ids below nextId. */
  ghost predicate TpOk(v: map<nat, Window>, nextId: nat, tp: Tp) {
    && Shapes(tp.clients, tp.orphans)
    && BooksOk(v, Tabs(tp.clients, tp.orphans), tp.kern)
    && TokensOk(Toks(tp.clients, tp.orphans), tp.nextToken)
    && ToldOk(tp.clients, tp.focused, nextId) && tp.focused < nextId
    && CursorOk(tp.cursor)
  }

  /** Native windows no client and no orphan holds: nobody could ever destroy them. */
  ghost function Strays(v: map<nat, Window>, tp: Tp): set<nat> {
    set id | id in v && v[id].appDecorated && !Owned(Tabs(tp.clients, tp.orphans), id)
  }

  lemma Holders(v: map<nat, Window>, nextId: nat, tp: Tp)
    requires TpOk(v, nextId, tp) && 0 !in v
    ensures HoldersApart(tp.clients) && Connected(tp.clients)
  {
    var tabs := Tabs(tp.clients, tp.orphans);
    forall i, j | 0 <= i < j < |tp.clients| ensures Held(tp.clients[i].wins) !! Held(tp.clients[j].wins) {
      assert Held(tabs[i]) !! Held(tabs[j]);
    }
    forall i, j | 0 <= i < |tp.clients| && 0 <= j < |tp.clients[i].wins| && tp.clients[i].wins[j].wid != 0
      ensures tp.clients[i].fd >= 0 && tp.clients[i].wins[j].serverId != 0
    {
      assert ClientOk(tp.clients[i]);
      assert TableOk(v, tp.kern.live, tabs[i]);
      assert SlotOk(v, tp.kern.live, tabs[i][j]);
    }
  }

  // ---- sending ------------------------------------------------------------------

  lemma TpSent(v: map<nat, Window>, nextId: nat, tp: Tp, ds: seq<Client>, focused: nat)
    requires TpOk(v, nextId, tp) && OnlySent(tp.clients, ds) && Shapes(ds, tp.orphans)
    requires ToldOk(ds, focused, nextId) && focused < nextId
    ensures TpOk(v, nextId, tp.(clients := ds, focused := focused))
    ensures Strays(v, tp.(clients := ds, focused := focused)) == Strays(v, tp)
  {
    TabsSent(tp.clients, ds, tp.orphans);
  }

  lemma TpSend(v: map<nat, Window>, nextId: nat, tp: Tp, ci: nat, e: Event)
    requires TpOk(v, nextId, tp) && ci < |tp.clients| && tp.clients[ci].hello && !e.FocusEvent?
    ensures TpOk(v, nextId, tp.(clients := SendTo(tp.clients, ci, e)))
    ensures Strays(v, tp.(clients := SendTo(tp.clients, ci, e))) == Strays(v, tp)
  {
    SendShapes(tp.clients, ci, e, tp.orphans);
    ToldOther(tp.clients, tp.focused, nextId, ci, e);
    TpSent(v, nextId, tp, SendTo(tp.clients, ci, e), tp.focused);
  }

  lemma TpSendOwner(v: map<nat, Window>, nextId: nat, tp: Tp, id: nat, e: Event)
    requires TpOk(v, nextId, tp) && !e.FocusEvent?
    ensures TpOk(v, nextId, SendOwner(tp, id, e)) && Strays(v, SendOwner(tp, id, e)) == Strays(v, tp)
  {
    var o := FindOwner(tp.clients, id);
    if o.Owner? {
      assert ClientOk(tp.clients[o.client]) && !Empty(tp.clients[o.client].wins);
      TpSend(v, nextId, tp, o.client, e);
    }
  }

  lemma TpNotify(v: map<nat, Window>, nextId: nat, tp: Tp, id: nat)
    requires TpOk(v, nextId, tp) && id < nextId && 0 !in v
    ensures TpOk(v, nextId, NotifyFocus(tp, id)) && Strays(v, NotifyFocus(tp, id)) == Strays(v, tp)
  {
    Holders(v, nextId, tp);
    NotifySends(tp, id, tp.orphans);
    NotifyTold(tp, id, nextId);
    if id != tp.focused { TpSent(v, nextId, tp, NotifyFocus(tp, id).clients, id); }
  }

  // ---- windows and descriptors ----------------------------------------------------

  lemma ToldLater(cs: seq<Client>, focused: nat, nextId: nat, later: nat)
    requires ToldOk(cs, focused, nextId) && nextId <= later
    ensures ToldOk(cs, focused, later)
  {
  }

  lemma TpWindows(v: map<nat, Window>, w: map<nat, Window>, nextId: nat, tp: Tp)
    requires TpOk(v, nextId, tp) && SameContent(v, w)
    ensures TpOk(w, nextId, tp) && Strays(w, tp) == Strays(v, tp)
  {
    BooksSameContent(v, w, Tabs(tp.clients, tp.orphans), tp.kern);
  }

  lemma TpNewWindow(v: map<nat, Window>, nextId: nat, tp: Tp, w: Window)
    requires TpOk(v, nextId, tp) && w.id !in v && !w.buf.Mapping? && (w.appDecorated ==> w.buf.Null?)
    ensures TpOk(v[w.id := w], nextId + 1, tp)
    ensures !w.appDecorated ==> Strays(v[w.id := w], tp) == Strays(v, tp)
  {
    BooksNewWindow(v, Tabs(tp.clients, tp.orphans), tp.kern, w);
    ToldLater(tp.clients, tp.focused, nextId, nextId + 1);
  }

  lemma TpOutsider(v: map<nat, Window>, nextId: nat, tp: Tp, w: Window)
    requires TpOk(v, nextId, tp) && w.id in v && !v[w.id].appDecorated && !w.appDecorated && !w.buf.Mapping?
    ensures TpOk(v[w.id := w], nextId, tp) && Strays(v[w.id := w], tp) == Strays(v, tp)
  {
    BooksOutsider(v, Tabs(tp.clients, tp.orphans), tp.kern, w);
  }

  lemma TpOutsiderGone(v: map<nat, Window>, nextId: nat, tp: Tp, id: nat)
    requires TpOk(v, nextId, tp) && id in v && !v[id].appDecorated
    ensures TpOk(v - {id}, nextId, tp) && Strays(v - {id}, tp) == Strays(v, tp)
  {
    BooksOutsiderGone(v, Tabs(tp.clients, tp.orphans), tp.kern, id);
  }

  lemma BooksClosed(v: map<nat, Window>, tabs: seq<Table>, k: Kernel, fds: seq<int>)
    requires BooksOk(v, tabs, k)
    ensures BooksOk(v, tabs, Closed(k, fds))
  {
  }

  lemma TpClosed(v: map<nat, Window>, nextId: nat, tp: Tp, fds: seq<int>)
    requires TpOk(v, nextId, tp)
    ensures TpOk(v, nextId, tp.(kern := Closed(tp.kern, fds)))
    ensures Strays(v, tp.(kern := Closed(tp.kern, fds))) == Strays(v, tp)
  {
    BooksClosed(v, Tabs(tp.clients, tp.orphans), tp.kern, fds);
  }

  // ---- one client's table ------------------------------------------------------------

  /** The clients once client ci's table is t. */
  function WithTable(cs: seq<Client>, ci: nat, t: Table): seq<Client>
    requires ci < |cs|
  {
    cs[ci := cs[ci].(wins := t)]
  }

  /** The new slot is free, names the same window, or names a brand-new one. */
  predicate Renames(old_: ClWin, s: ClWin, nextId: nat) {
    s.wid == 0 || (old_.wid != 0 && s.serverId == old_.serverId) || s.serverId >= nextId
  }

  /** A change of one slot keeps shapes, tokens and focus reports, whatever it does to the books. */
  lemma TpSlot(v: map<nat, Window>, nextId: nat, tp: Tp, ci: nat, j: nat, s: ClWin, w: map<nat, Window>, later: nat, k: Kernel)
    requires TpOk(v, nextId, tp) && ci < |tp.clients| && tp.clients[ci].hello && j < |tp.clients[ci].wins|
    requires BooksOk(w, Tabs(tp.clients, tp.orphans)[ci := tp.clients[ci].wins[j := s]], k) && nextId <= later
    requires Renames(tp.clients[ci].wins[j], s, nextId)
    ensures TpOk(w, later, tp.(clients := WithTable(tp.clients, ci, tp.clients[ci].wins[j := s]), kern := k))
    ensures Tabs(WithTable(tp.clients, ci, tp.clients[ci].wins[j := s]), tp.orphans)
         == Tabs(tp.clients, tp.orphans)[ci := tp.clients[ci].wins[j := s]]
  {
    var cs := tp.clients;
    var c := cs[ci].(wins := cs[ci].wins[j := s]);
    TabsClient(cs, tp.orphans, ci, c);
    assert Toks(cs, tp.orphans)[ci := c.token] == Toks(cs, tp.orphans);
    assert ClientOk(cs[ci]);
    SlotTold(cs, tp.focused, nextId, ci, j, s, later);
  }

  lemma SlotTold(cs: seq<Client>, focused: nat, nextId: nat, ci: nat, j: nat, s: ClWin, later: nat)
    requires ToldOk(cs, focused, nextId) && ci < |cs| && j < |cs[ci].wins| && nextId <= later
    requires Renames(cs[ci].wins[j], s, nextId)
    ensures ToldOk(WithTable(cs, ci, cs[ci].wins[j := s]), focused, later)
  {
  }
}
