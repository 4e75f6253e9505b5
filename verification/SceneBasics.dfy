/** The transport's invariants: shape of the tables, tokens, focus reports, cursor shape; and
    how the small moves of its handlers act on each of them. */
module SceneBasics {
  import opened Windows
  import opened Transport
  import opened Books

  // ---- tables and tokens of clients and orphans as one list ---------------------

  ghost function Tabs(cs: seq<Client>, os: seq<Orphan>): (r: seq<Table>)
    ensures |r| == |cs| + |os|
    ensures forall i | 0 <= i < |cs| :: r[i] == cs[i].wins
    ensures forall i | 0 <= i < |os| :: r[|cs| + i] == os[i].wins
  {
    seq(|cs| + |os|, i requires 0 <= i < |cs| + |os| => if i < |cs| then cs[i].wins else os[i - |cs|].wins)
  }

  ghost function Toks(cs: seq<Client>, os: seq<Orphan>): (r: seq<int>)
    ensures |r| == |cs| + |os|
    ensures forall i | 0 <= i < |cs| :: r[i] == cs[i].token
    ensures forall i | 0 <= i < |os| :: r[|cs| + i] == os[i].token
  {
    seq(|cs| + |os|, i requires 0 <= i < |cs| + |os| => if i < |cs| then cs[i].token else os[i - |cs|].token)
  }

  lemma TabsClient(cs: seq<Client>, os: seq<Orphan>, ci: nat, c: Client)
    requires ci < |cs|
    ensures Tabs(cs[ci := c], os) == Tabs(cs, os)[ci := c.wins]
    ensures Toks(cs[ci := c], os) == Toks(cs, os)[ci := c.token]
  {
    assert Tabs(cs[ci := c], os) == Tabs(cs, os)[ci := c.wins];
    assert Toks(cs[ci := c], os) == Toks(cs, os)[ci := c.token];
  }

  lemma TabsOrphan(cs: seq<Client>, os: seq<Orphan>, o: nat, p: Orphan)
    requires o < |os|
    ensures Tabs(cs, os[o := p]) == Tabs(cs, os)[|cs| + o := p.wins]
    ensures Toks(cs, os[o := p]) == Toks(cs, os)[|cs| + o := p.token]
  {
    assert Tabs(cs, os[o := p]) == Tabs(cs, os)[|cs| + o := p.wins];
    assert Toks(cs, os[o := p]) == Toks(cs, os)[|cs| + o := p.token];
  }

  /** Clients that differ only in what they were sent. */
  ghost predicate OnlySent(cs: seq<Client>, ds: seq<Client>) {
    |ds| == |cs| && forall i | 0 <= i < |cs| ::
      ds[i].fd == cs[i].fd && ds[i].hello == cs[i].hello && ds[i].token == cs[i].token && ds[i].wins == cs[i].wins
  }

  lemma TabsSent(cs: seq<Client>, ds: seq<Client>, os: seq<Orphan>)
    requires OnlySent(cs, ds)
    ensures Tabs(ds, os) == Tabs(cs, os) && Toks(ds, os) == Toks(cs, os)
  {
    var r, t := Tabs(ds, os), Toks(ds, os);
    forall i | 0 <= i < |r| ensures r[i] == Tabs(cs, os)[i] && t[i] == Toks(cs, os)[i] {
      if i >= |cs| { assert r[|cs| + (i - |cs|)] == os[i - |cs|].wins; assert Tabs(cs, os)[|cs| + (i - |cs|)] == os[i - |cs|].wins; }
    }
  }

  // ---- shapes ---------------------------------------------------------------------

  ghost predicate Empty(t: Table) { forall j | 0 <= j < |t| :: t[j].wid == 0 }

  /** Before its handshake a client has no token, no windows and was sent nothing. */
  ghost predicate ClientOk(c: Client) {
    && |c.wins| == WIN_MAX
    && (c.fd < 0 ==> !c.hello)
    && (if c.hello then c.token != 0 else c.token == 0 && Empty(c.wins) && c.sent == [])
  }

  /** An orphan slot holds windows exactly while it has a token. */
  ghost predicate OrphanOk(o: Orphan) {
    |o.wins| == WIN_MAX && (o.token == 0 <==> Empty(o.wins))
  }

  ghost predicate Shapes(cs: seq<Client>, os: seq<Orphan>) {
    && |cs| == MAX_CLIENTS && |os| == MAX_CLIENTS
    && (forall i | 0 <= i < |cs| :: ClientOk(cs[i]))
    && (forall i | 0 <= i < |os| :: OrphanOk(os[i]))
  }

  lemma EmptyHolds(t: Table)
    ensures Empty(t) <==> Held(t) == {}
  {
    if !Empty(t) {
      var j :| 0 <= j < |t| && t[j].wid != 0;
      HeldIn(t, j);
    }
  }

  // ---- tokens -----------------------------------------------------------------------

  /** Live tokens are distinct and were handed out by the allocator. */
  ghost predicate TokensOk(ts: seq<int>, next: nat) {
    && (forall i | 0 <= i < |ts| :: ts[i] <= next)
    && (forall i, j | 0 <= i < j < |ts| :: ts[i] != 0 ==> ts[i] != ts[j])
  }

  lemma TokensNew(ts: seq<int>, next: nat, i: nat)
    requires TokensOk(ts, next) && i < |ts|
    ensures TokensOk(ts[i := next + 1], next + 1)
  {
  }

  lemma TokensGone(ts: seq<int>, next: nat, i: nat)
    requires TokensOk(ts, next) && i < |ts|
    ensures TokensOk(ts[i := 0], next)
  {
  }

  lemma TokensShift(ts: seq<int>, next: nat, a: nat, b: nat)
    requires TokensOk(ts, next) && a < |ts| && b < |ts| && a != b && ts[b] == 0
    ensures TokensOk(ts[a := 0][b := ts[a]], next)
  {
  }

  // ---- focus reports --------------------------------------------------------------------

  /** What the first n messages of a connection last said about a window's focus. */
  ghost predicate ToldUpTo(sent: seq<Event>, n: nat, id: nat)
    requires n <= |sent|
  {
    if n == 0 then false
    else if sent[n - 1].FocusEvent? && sent[n - 1].serverId == id then sent[n - 1].gained
    else ToldUpTo(sent, n - 1, id)
  }

  /** Was the connection last told that this window is focused? */
  ghost predicate Told(sent: seq<Event>, id: nat) { ToldUpTo(sent, |sent|, id) }

  lemma {:induction false} ToldPrefix(a: seq<Event>, b: seq<Event>, n: nat, id: nat)
    requires n <= |a| && n <= |b| && a[..n] == b[..n]
    ensures ToldUpTo(a, n, id) == ToldUpTo(b, n, id)
  {
    if n > 0 {
      assert a[n - 1] == a[..n][n - 1] == b[n - 1];
      assert a[..n - 1] == a[..n][..n - 1] == b[..n - 1];
      ToldPrefix(a, b, n - 1, id);
    }
  }

  lemma ToldAppend(sent: seq<Event>, e: Event, id: nat)
    ensures Told(sent + [e], id) == if e.FocusEvent? && e.serverId == id then e.gained else Told(sent, id)
  {
    ToldPrefix(sent + [e], sent, |sent|, id);
  }

  /** A connected client was last told "focused" only about the window the server last
      reported focused; and nobody was told anything about an id not handed out yet. */
  ghost predicate ToldOk(cs: seq<Client>, focused: nat, nextId: nat) {
    && (forall i, j | 0 <= i < |cs| && 0 <= j < |cs[i].wins| ::
          cs[i].wins[j].wid != 0 && Told(cs[i].sent, cs[i].wins[j].serverId) ==> cs[i].wins[j].serverId == focused)
    && (forall i, id: nat | 0 <= i < |cs| && Told(cs[i].sent, id) :: id < nextId)
  }

  /** Any message but a CL_FOCUS leaves the focus reports alone. */
  lemma ToldOther(cs: seq<Client>, focused: nat, nextId: nat, ci: nat, e: Event)
    requires ToldOk(cs, focused, nextId) && ci < |cs| && !e.FocusEvent?
    ensures ToldOk(SendTo(cs, ci, e), focused, nextId) && OnlySent(cs, SendTo(cs, ci, e))
  {
    forall id ensures Told(cs[ci].sent + [e], id) == Told(cs[ci].sent, id) { ToldAppend(cs[ci].sent, e, id); }
  }

  /** Clients are told apart by what they hold. */
  ghost predicate HoldersApart(cs: seq<Client>) {
    forall i, j | 0 <= i < j < |cs| :: Held(cs[i].wins) !! Held(cs[j].wins)
  }

  lemma SoleOwner(cs: seq<Client>, c: nat, j: nat)
    requires HoldersApart(cs) && c < |cs| && cs[c].fd >= 0 && j < |cs[c].wins| && cs[c].wins[j].wid != 0
    requires cs[c].wins[j].serverId != 0
    ensures FindOwner(cs, cs[c].wins[j].serverId).Owner? && FindOwner(cs, cs[c].wins[j].serverId).client == c
  {
    var id := cs[c].wins[j].serverId;
    var o := FindOwner(cs, id);
    HeldIn(cs[c].wins, j);
    assert o.Owner?;
    HeldIn(cs[o.client].wins, o.slot);
    assert id in Held(cs[o.client].wins) * Held(cs[c].wins);
  }

  /** A CL_FOCUS message changes only what is known about the window it names. */
  lemma TellChanges(cs: seq<Client>, id: nat, gained: bool, i: nat, x: nat)
    requires i < |cs| && x != id
    ensures OnlySent(cs, TellFocus(cs, id, gained)) && Told(TellFocus(cs, id, gained)[i].sent, x) == Told(cs[i].sent, x)
  {
    match FindOwner(cs, id)
    case NoOwner =>
    case Owner(c, j) => ToldAppend(cs[c].sent, FocusEvent(cs[c].wins[j].wid, id, gained), x);
  }

  /** The old owner is told that it lost focus, whoever is told what next. */
  lemma TellLost(cs: seq<Client>, c: nat, j: nat)
    requires HoldersApart(cs) && c < |cs| && cs[c].fd >= 0 && j < |cs[c].wins| && cs[c].wins[j].wid != 0
    requires cs[c].wins[j].serverId != 0
    ensures !Told(TellFocus(cs, cs[c].wins[j].serverId, false)[c].sent, cs[c].wins[j].serverId)
  {
    var id := cs[c].wins[j].serverId;
    SoleOwner(cs, c, j);
    ToldAppend(cs[c].sent, FocusEvent(cs[c].wins[FindOwner(cs, id).slot].wid, id, false), id);
  }

  /** Occupied slots belong to connected clients and name real windows. */
  ghost predicate Connected(cs: seq<Client>) {
    forall i, j | 0 <= i < |cs| && 0 <= j < |cs[i].wins| && cs[i].wins[j].wid != 0 ::
      cs[i].fd >= 0 && cs[i].wins[j].serverId != 0
  }

  lemma TellSends(cs: seq<Client>, id: nat, gained: bool)
    ensures OnlySent(cs, TellFocus(cs, id, gained))
  {
  }

  /** notify_focus: afterwards only the newly focused window may be thought focused. */
  lemma NotifyTold(tp: Tp, id: nat, nextId: nat)
    requires ToldOk(tp.clients, tp.focused, nextId) && HoldersApart(tp.clients) && Connected(tp.clients) && id < nextId
    requires tp.focused < nextId
    ensures ToldOk(NotifyFocus(tp, id).clients, id, nextId)
  {
    if id != tp.focused {
      var cs, f := tp.clients, tp.focused;
      var ds := TellFocus(cs, f, false);
      var es := TellFocus(ds, id, true);
      TellSends(cs, f, false);
      TellSends(ds, id, true);
      forall i, j | 0 <= i < |es| && 0 <= j < |es[i].wins| && es[i].wins[j].wid != 0 && Told(es[i].sent, es[i].wins[j].serverId)
        ensures es[i].wins[j].serverId == id
      {
        var x := cs[i].wins[j].serverId;
        assert cs[i].fd >= 0 && x != 0;
        if x != id {
          TellChanges(ds, id, true, i, x);
          if x != f { TellChanges(cs, f, false, i, x); } else { TellLost(cs, i, j); }
        }
      }
      forall i: nat, x: nat | 0 <= i < |es| && Told(es[i].sent, x) ensures x < nextId {
        if x != id && x != f {
          TellChanges(ds, id, true, i, x);
          TellChanges(cs, f, false, i, x);
        }
      }
    }
  }

  /** notify_focus only sends, and only to clients that own windows. */
  lemma NotifySends(tp: Tp, id: nat, os: seq<Orphan>)
    requires Shapes(tp.clients, os)
    ensures OnlySent(tp.clients, NotifyFocus(tp, id).clients) && Shapes(NotifyFocus(tp, id).clients, os)
  {
    if id != tp.focused {
      TellShapes(tp.clients, tp.focused, false, os);
      TellShapes(TellFocus(tp.clients, tp.focused, false), id, true, os);
    }
  }

  lemma TellShapes(cs: seq<Client>, id: nat, gained: bool, os: seq<Orphan>)
    requires Shapes(cs, os)
    ensures OnlySent(cs, TellFocus(cs, id, gained)) && Shapes(TellFocus(cs, id, gained), os)
  {
    match FindOwner(cs, id)
    case NoOwner =>
    case Owner(c, j) => assert ClientOk(cs[c]) && !Empty(cs[c].wins);
  }

  lemma SendShapes(cs: seq<Client>, ci: nat, e: Event, os: seq<Orphan>)
    requires Shapes(cs, os) && ci < |cs| && cs[ci].hello
    ensures OnlySent(cs, SendTo(cs, ci, e)) && Shapes(SendTo(cs, ci, e), os)
  {
    assert ClientOk(cs[ci]);
  }

  // ---- cursor -------------------------------------------------------------------------------

  /** A custom cursor fits the 64x64 shape buffer. */
  predicate CursorOk(c: Cursor) {
    |c.argb| == CURSOR_MAX * CURSOR_MAX && (c.custom ==> 1 <= c.w <= CURSOR_MAX && 1 <= c.h <= CURSOR_MAX)
  }
}
