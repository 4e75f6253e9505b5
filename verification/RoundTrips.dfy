/** The reconnect round trip: a shell client that died and comes back with its token gets exactly
    the table it had, and gets it once. */
module RoundTrips {
  import opened Windows
  import opened Transport
  import opened SceneBasics
  import SceneProofs
  import opened Session
  import opened SessionProofs
  import opened Reconnect
  import Buffers
  import opened Newcomers

  // ---- coming back ---------------------------------------------------------------------

  /** The slot's window is live and shows the slot's buffer. */
  ghost predicate Intact(st: Stack, w: ClWin) {
    w.wid != 0 ==> Live(st.ws, w.serverId) && st.ws[IndexOf(st.ws, w.serverId)].buf == w.buf
  }

  /** Client k is past its handshake with this token and table, each window live and intact. */
  ghost predicate Back(s: Sys, k: nat, token: nat, wins: Table) {
    && k < |s.tp.clients|
    && s.tp.clients[k].hello && s.tp.clients[k].token == token && s.tp.clients[k].wins == wins
    && forall j | 0 <= j < |wins| :: Intact(s.st, wins[j])
  }

  lemma SlotsIntact(s: Sys, k: nat)
    requires SysOk(s) && k < |s.tp.clients|
    ensures forall j | 0 <= j < |s.tp.clients[k].wins| :: Intact(s.st, s.tp.clients[k].wins[j])
  {
    forall j | 0 <= j < |s.tp.clients[k].wins| ensures Intact(s.st, s.tp.clients[k].wins[j]) {
      if s.tp.clients[k].wins[j].wid != 0 { Buffers.ShowsItsSlot(s, k, j); }
    }
  }

  lemma FindsIt(sc: Scene, o: nat, p: Orphan)
    requires SceneProofs.SceneOk(sc) && Waiting(sc.tp.orphans, o, p)
    ensures FindOrphan(sc.tp.orphans, p.token) == o
  {
    var i, toks := FindOrphan(sc.tp.orphans, p.token), Toks(sc.tp.clients, sc.tp.orphans);
    assert toks[|sc.tp.clients| + o] == p.token == toks[|sc.tp.clients| + i];
  }

  /** What a HELLO that presents a waiting token does to the tables. */
  lemma HelloRestores(sc: Scene, ci: nat, d: Datagram, o: nat, p: Orphan)
    requires SceneProofs.SceneOk(sc) && ci < |sc.tp.clients| && d.body.Hello?
    requires Waiting(sc.tp.orphans, o, p) && Presented(d) == p.token
    ensures var r := OnHello(sc.tp, ci, d);
            && |r.clients| == |sc.tp.clients| && r.orphans == sc.tp.orphans[o := FreeOrphan()]
            && r.clients[ci].hello && r.clients[ci].token == p.token && r.clients[ci].wins == p.wins
  {
    FindsIt(sc, o, p);
    SceneProofs.HelloIs(sc, ci, d);
  }

  lemma GreetingIs(sc: Scene, ci: nat, d: Datagram, fds: seq<int>, mem: Mmap, now: int)
    requires ci < |sc.tp.clients| && Greets(sc.tp.clients, ci, d)
    ensures var r, h := Transport.Receive(sc, ci, d, fds, mem, now), OnHello(sc.tp, ci, d);
            r.st == sc.st && r.tp == h.(kern := r.tp.kern)
  {
  }

  /** Presenting a waiting token brings back the table and frees the orphan slot. */
  lemma RedeemGives(s: Sys, e: Session.Event, o: nat, p: Orphan)
    requires SysOk(s) && Waiting(s.tp.orphans, o, p) && Redeems(s, e, p.token)
    ensures var t := Step(s, e);
            SysOk(t) && Back(t, ClientByFd(s.tp.clients, e.fd), p.token, p.wins)
            && t.tp.orphans == s.tp.orphans[o := FreeOrphan()]
  {
    Parts(s);
    var ci := ClientByFd(s.tp.clients, e.fd);
    StepKeeps(s, e);
    RedeemTables(s, e, o, p);
    SlotsIntact(Step(s, e), ci);
  }

  lemma RedeemTables(s: Sys, e: Session.Event, o: nat, p: Orphan)
    requires SceneProofs.SceneOk(SceneOf(s)) && Waiting(s.tp.orphans, o, p) && Redeems(s, e, p.token)
    ensures var t, k := Step(s, e), ClientByFd(s.tp.clients, e.fd);
            && k < |t.tp.clients| && t.tp.orphans == s.tp.orphans[o := FreeOrphan()]
            && t.tp.clients[k].hello && t.tp.clients[k].token == p.token && t.tp.clients[k].wins == p.wins
  {
    var ci := ClientByFd(s.tp.clients, e.fd);
    HelloRestores(SceneOf(s), ci, e.datagram, o, p);
    GreetingIs(SceneOf(s), ci, e.datagram, e.fds, e.mem, e.now);
  }

  /** A shell client's connection ends, because it hung up or because its datagram was refused; then
      anything happens, except that the grace period runs out; then some connection presents the
      token: it has the dead client's table, wid by wid, and every window of it is live with the
      buffer it had. */
  lemma RoundTrip(s: Sys, death: Session.Event, es: seq<Session.Event>, e: Session.Event)
    requires SysOk(s) && Parks(s, death) && AllSpare(Step(s, death), es, |es|, Left(s, death))
    requires Redeems(Run(Step(s, death), es), e, Left(s, death).token)
    ensures var p, before := Left(s, death), Run(Step(s, death), es);
            Back(Step(before, e), ClientByFd(before.tp.clients, e.fd), p.token, p.wins)
    ensures forall j | 0 <= j < |Left(s, death).wins| :: Intact(s.st, Left(s, death).wins[j])
  {
    hide Step, Spares, Redeems, ParkingSlot, Dying;
    var o, dropped := ParkingSlot(SceneOf(s), Dying(s, death)), Step(s, death);
    DeathParks(s, death);
    StepKeeps(s, death);
    RunSpares(dropped, es, |es|, o, Left(s, death));
    RunKeeps(dropped, es, |es|);
    RedeemGives(Run(dropped, es), e, o, Left(s, death));
    SlotsIntact(s, Dying(s, death));
  }

  lemma ConnectsFresh(s: Sys, fd: int, ci: nat)
    requires Enabled(s, Connect(fd, true)) && ci < |s.tp.clients| && s.tp.clients[ci].fd == -1
    ensures var t := Step(s, Connect(fd, true));
            var k := ClientByFd(t.tp.clients, fd);
            k >= 0 && !t.tp.clients[k].hello
  {
    var k := ClientByFd(s.tp.clients, -1);
    assert AddClient(s.tp, fd, true).clients[k].fd == fd;
  }

  /** A parked client can come back at once: a connection that says HELLO with the token has the
      table, its windows and their buffers again. */
  lemma ComesBackAtOnce(s: Sys, death: Session.Event, fd: int)
    requires SysOk(s) && Parks(s, death) && Left(s, death).token < 0x1_0000_0000
    requires Enabled(Step(s, death), Connect(fd, true))
    ensures var p, t := Left(s, death), Step(Step(s, death), Connect(fd, true));
            var k := ClientByFd(t.tp.clients, fd);
            k >= 0 && Back(Step(t, Receive(fd, HelloWith(p.token), [], MapFailed, death.now)), k, p.token, p.wins)
  {
    hide Step, ParkingSlot, Dying;
    var p, dropped, es := Left(s, death), Step(s, death), [Connect(fd, true)];
    DeathParks(s, death);
    ConnectsFresh(dropped, fd, Dying(s, death));
    assert RunTo(dropped, es, 0) == dropped && Run(dropped, es) == Step(dropped, Connect(fd, true));
    assert AllSpare(dropped, es, 0, p);
    RoundTrip(s, death, es, Receive(fd, HelloWith(p.token), [], MapFailed, death.now));
  }

  // ---- once ------------------------------------------------------------------------------

  /** A HELLO that presents a token no orphan waits under gets a token never used before and no
      windows, and takes nothing from anyone. */
  lemma NothingWaits(s: Sys, ci: nat, d: Datagram)
    requires SysOk(s) && ci < |s.tp.clients| && !s.tp.clients[ci].hello && d.body.Hello?
    requires forall o | 0 <= o < |s.tp.orphans| :: s.tp.orphans[o].token != Presented(d)
    ensures var r := OnHello(s.tp, ci, d);
            && |r.clients| == |s.tp.clients| && r.orphans == s.tp.orphans
            && Empty(r.clients[ci].wins) && r.clients[ci].token == s.tp.nextToken + 1
            && forall k | 0 <= k < |s.tp.clients| :: r.clients[ci].token > s.tp.clients[k].token
  {
    Parts(s);
    assert ClientOk(s.tp.clients[ci]);
    SceneProofs.HelloIs(SceneOf(s), ci, d);
    var toks := Toks(s.tp.clients, s.tp.orphans);
    forall k | 0 <= k < |s.tp.clients| ensures s.tp.clients[k].token <= s.tp.nextToken {
      assert toks[k] == s.tp.clients[k].token;
    }
  }

  /** A token some client holds is on no orphan, so it cannot be redeemed again: another HELLO
      that presents it gets a token never used before and no windows. */
  lemma RedeemedOnce(s: Sys, i: nat, ci: nat, d: Datagram)
    requires SysOk(s) && i < |s.tp.clients| && s.tp.clients[i].hello
    requires ci < |s.tp.clients| && !s.tp.clients[ci].hello && d.body.Hello? && Presented(d) == s.tp.clients[i].token
    ensures forall o | 0 <= o < |s.tp.orphans| :: s.tp.orphans[o].token != s.tp.clients[i].token
    ensures var r := OnHello(s.tp, ci, d);
            && |r.clients| == |s.tp.clients| && r.orphans == s.tp.orphans
            && Empty(r.clients[ci].wins)
            && forall k | 0 <= k < |s.tp.clients| :: r.clients[ci].token > s.tp.clients[k].token
  {
    Parts(s);
    assert ClientOk(s.tp.clients[i]);
    NotParked(s.tp, i);
    NothingWaits(s, ci, d);
  }

  lemma NotParked(tp: Tp, i: nat)
    requires TokensOk(Toks(tp.clients, tp.orphans), tp.nextToken) && i < |tp.clients| && tp.clients[i].token != 0
    ensures forall o | 0 <= o < |tp.orphans| :: tp.orphans[o].token != tp.clients[i].token
  {
    var toks := Toks(tp.clients, tp.orphans);
    forall o | 0 <= o < |tp.orphans| ensures tp.orphans[o].token != tp.clients[i].token {
      assert toks[i] == tp.clients[i].token && toks[|tp.clients| + o] == tp.orphans[o].token;
    }
  }
}
