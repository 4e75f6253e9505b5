/** Reconnect tokens over whole runs: a token comes back only from an orphan that waits under it, is
    parked again before it can come back twice, and once nobody has it, it is gone for good. */
module Tokens {
  import opened Transport
  import opened SceneBasics
  import SceneProofs
  import opened Session
  import opened SessionProofs
  import opened Reconnect
  import Requests
  import Wayland
  import WmPolicy
  import Modes
  import RoundTrips

  // ---- where a token is ------------------------------------------------------------------

  ghost predicate OnClient(tp: Tp, token: nat) { exists i :: 0 <= i < |tp.clients| && tp.clients[i].token == token }

  ghost predicate OnOrphan(tp: Tp, token: nat) { exists o :: 0 <= o < |tp.orphans| && tp.orphans[o].token == token }

  /** Handed out once, but no client and no orphan has it any more. */
  ghost predicate Spent(tp: Tp, token: nat) {
    0 < token <= tp.nextToken && !OnClient(tp, token) && !OnOrphan(tp, token)
  }

  /** The event gets a table back with this token. */
  ghost predicate Reclaims(s: Sys, e: Session.Event, token: nat) {
    token != 0 && Redeems(s, e, token) && OnOrphan(s.tp, token)
  }

  /** The event parks a client that holds this token. */
  ghost predicate ParksToken(s: Sys, e: Session.Event, token: nat) { Parks(s, e) && Left(s, e).token == token }

  // ---- how a token moves -----------------------------------------------------------------

  /** No token is anywhere it was not before. */
  ghost predicate Fewer(a: Tp, b: Tp) {
    && |b.clients| == |a.clients| && |b.orphans| == |a.orphans| && b.nextToken == a.nextToken
    && (forall i | 0 <= i < |a.clients| :: b.clients[i].token == 0 || b.clients[i].token == a.clients[i].token)
    && (forall o | 0 <= o < |a.orphans| :: b.orphans[o].token == 0 || b.orphans[o].token == a.orphans[o].token)
  }

  lemma CreateFewer(sc: Scene, ci: nat, m: Body)
    requires ci < |sc.tp.clients| && m.CreateWindow?
    ensures Fewer(sc.tp, OnCreate(sc, ci, m).tp)
  {
    if Creates(sc, ci, m.wid) {
      hide OnCreate;
      Requests.CreateSlot(sc, ci, m);
    }
  }

  lemma RequestFewer(sc: Scene, ci: nat, b: Body, fds: seq<int>, mem: Mmap)
    requires ci < |sc.tp.clients|
    ensures Fewer(sc.tp, Transport.Request(sc, ci, b, fds, mem).tp)
  {
    hide OnCreate;
    if b.CreateWindow? { CreateFewer(sc, ci, b); }
  }

  lemma DropFewer(sc: Scene, ci: nat, now: int)
    requires ci < |sc.tp.clients| && ParkingSlot(sc, ci) < 0
    ensures Fewer(sc.tp, Drop(sc, ci, now).tp)
  {
  }

  lemma ExpireFewer(sc: Scene, now: int)
    ensures Fewer(sc.tp, Expire(sc, now).tp)
  {
    ExpireClients(sc, now, 0);
    forall o | 0 <= o < |sc.tp.orphans|
      ensures |Expire(sc, now).tp.orphans| == |sc.tp.orphans|
      ensures Expire(sc, now).tp.orphans[o].token == 0 || Expire(sc, now).tp.orphans[o].token == sc.tp.orphans[o].token
    {
      ExpireExactly(sc, now, 0, o);
    }
  }

  lemma {:induction false} ExpireClients(sc: Scene, now: int, from: nat)
    requires from <= |sc.tp.orphans|
    ensures var r := ExpireFrom(sc, now, from).tp;
            r.clients == sc.tp.clients && r.nextToken == sc.tp.nextToken && |r.orphans| == |sc.tp.orphans|
    decreases |sc.tp.orphans| - from
  {
    if from < |sc.tp.orphans| {
      ExpireClients(sc, now, from + 1);
      ExpireClients(OrphanDestroy(sc, from), now, from + 1);
    }
  }

  lemma BroadcastFewer(tp: Tp, w: int, h: int)
    ensures Fewer(tp, Broadcast(tp, w, h))
  {
    forall i | 0 <= i < |tp.clients| ensures Broadcast(tp, w, h).clients[i].token == tp.clients[i].token {
      Requests.BroadcastEach(tp.clients, w, h, 0, i);
    }
  }

  lemma SyncFewer(s: Sys)
    ensures Fewer(s.tp, OnSync(s).tp)
  {
    Requests.NotifySent(s.tp, s.st.focus);
  }

  lemma ModeFewer(s: Sys, modes: seq<Modes.Mode>, w: int, h: int, refresh: Modes.U32, blobOk: bool, fbOk: bool)
    ensures Fewer(s.tp, ApplyMode(s, modes, w, h, refresh, blobOk, fbOk).tp)
  {
    hide Transport.Broadcast, FitFrom;
    var best := Modes.Select(modes, w, h, refresh);
    if best >= 0 { BroadcastFewer(s.tp, modes[best].hdisplay, modes[best].vdisplay); }
  }

  lemma RouteFewer(tp: Tp, id: nat, e: Transport.Event)
    ensures Fewer(tp, SendOwner(tp, id, e))
  {
  }

  /** Input, connections, resolution changes and Wayland requests move no token. */
  lemma QuietFewer(s: Sys, e: Session.Event)
    requires Enabled(s, e) && !e.Receive? && !e.Hangup? && !e.Tick?
    ensures Fewer(s.tp, Act(s, e).tp)
  {
    hide ApplyMode, OnSync, SendOwner, WmPolicy.Button, WmPolicy.Motion, WmPolicy.MotionAbs, WmPolicy.Key, Wayland.Serve;
    hide Wayland.PointerMotion, Wayland.PointerButton;
    if e.SetMode? {
      ModeFewer(s, e.modes, e.w, e.h, e.refresh, e.blobOk, e.fbOk);
    } else if e.Sync? {
      SyncFewer(s);
    } else {
      forall id, m ensures Fewer(s.tp, SendOwner(s.tp, id, m)) { RouteFewer(s.tp, id, m); }
    }
  }

  // ---- one step ----------------------------------------------------------------------------

  /** What the step does about a token handed out before. */
  ghost predicate Tracks(s: Sys, e: Session.Event, t: Tp, token: nat) {
    && t.nextToken >= s.tp.nextToken
    && (OnOrphan(t, token) ==> OnOrphan(s.tp, token) || ParksToken(s, e, token))
    && (OnClient(t, token) ==> OnClient(s.tp, token) || Reclaims(s, e, token))
    && (Reclaims(s, e, token) ==> !OnOrphan(t, token))
  }

  lemma FewerTracks(s: Sys, e: Session.Event, t: Tp, token: nat)
    requires token != 0 && Fewer(s.tp, t) && !Redeems(s, e, token)
    ensures Tracks(s, e, t, token)
  {
    hide Redeems, Parks;
  }

  lemma DeathNoGreeting(s: Sys, e: Session.Event, token: nat)
    requires Dying(s, e) >= 0
    ensures !Redeems(s, e, token)
  {
    hide OnHello, Transport.Request;
  }

  lemma DeathTracks(s: Sys, e: Session.Event, token: nat)
    requires token != 0 && Dying(s, e) >= 0
    ensures Tracks(s, e, Step(s, e).tp, token)
  {
    hide Step, Dispatch;
    var sc, ci := CloseAll(SceneOf(s), Carried(e)), Dying(s, e);
    DeathIs(s, e);
    DeathNoGreeting(s, e, token);
    if !Parks(s, e) {
      DropFewer(sc, ci, e.now);
      FewerTracks(s, e, Step(s, e).tp, token);
    }
  }

  /** A HELLO takes the token it presents from its orphan, and hands out none that was seen before. */
  lemma HelloMoves(sc: Scene, ci: nat, d: Datagram, token: nat)
    requires SceneProofs.SceneOk(sc) && 0 < token <= sc.tp.nextToken && ci < |sc.tp.clients| && d.body.Hello?
    ensures var r := OnHello(sc.tp, ci, d);
            && r.nextToken >= sc.tp.nextToken
            && (OnOrphan(r, token) ==> OnOrphan(sc.tp, token) && Presented(d) != token)
            && (OnClient(r, token) ==> OnClient(sc.tp, token) || (Presented(d) == token && OnOrphan(sc.tp, token)))
  {
    hide OnHello;
    SceneProofs.HelloIs(sc, ci, d);
    var o, toks := FindOrphan(sc.tp.orphans, token), Toks(sc.tp.clients, sc.tp.orphans);
    forall k | 0 <= k < |sc.tp.orphans| && sc.tp.orphans[k].token == token ensures k == o {
      assert toks[|sc.tp.clients| + o] == toks[|sc.tp.clients| + k];
    }
  }

  lemma HelloTracks(s: Sys, e: Session.Event, token: nat)
    requires SysOk(s) && 0 < token <= s.tp.nextToken && e.Receive? && Enabled(s, e)
    requires var ci := ClientByFd(s.tp.clients, e.fd); ci >= 0 && Greets(s.tp.clients, ci, e.datagram)
    ensures Tracks(s, e, OnHello(s.tp, ClientByFd(s.tp.clients, e.fd), e.datagram), token)
  {
    hide OnHello, SysOk, Parks, OnOrphan, OnClient;
    assert SceneProofs.SceneOk(SceneOf(s)) by { Parts(s); }
    HelloMoves(SceneOf(s), ClientByFd(s.tp.clients, e.fd), e.datagram, token);
  }

  lemma ServedIs(s: Sys, e: Session.Event)
    requires e.Receive? && Enabled(s, e) && Dying(s, e) < 0 && ClientByFd(s.tp.clients, e.fd) >= 0
    ensures var ci := ClientByFd(s.tp.clients, e.fd);
            Step(s, e).tp.(kern := s.tp.kern) ==
            (if Greets(s.tp.clients, ci, e.datagram) then OnHello(s.tp, ci, e.datagram)
             else Transport.Request(SceneOf(s), ci, e.datagram.body, e.fds, e.mem).tp).(kern := s.tp.kern)
  {
    hide OnHello, Transport.Request;
  }

  lemma KernTracks(s: Sys, e: Session.Event, a: Tp, b: Tp, token: nat)
    requires Tracks(s, e, a, token) && a.(kern := s.tp.kern) == b.(kern := s.tp.kern)
    ensures Tracks(s, e, b, token)
  {
    hide Reclaims, ParksToken;
  }

  lemma ReceiveTracks(s: Sys, e: Session.Event, token: nat)
    requires SysOk(s) && 0 < token <= s.tp.nextToken && e.Receive? && Enabled(s, e) && Dying(s, e) < 0
    ensures Tracks(s, e, Step(s, e).tp, token)
  {
    hide Step, SysOk, OnHello, Transport.Request, Dying, Tracks;
    var ci := ClientByFd(s.tp.clients, e.fd);
    if ci < 0 {
      UnheardTracks(s, e, token);
    } else {
      ServedIs(s, e);
      if Greets(s.tp.clients, ci, e.datagram) {
        HelloTracks(s, e, token);
        KernTracks(s, e, OnHello(s.tp, ci, e.datagram), Step(s, e).tp, token);
      } else {
        var r := Transport.Request(SceneOf(s), ci, e.datagram.body, e.fds, e.mem).tp;
        RequestFewer(SceneOf(s), ci, e.datagram.body, e.fds, e.mem);
        FewerTracks(s, e, r, token);
        KernTracks(s, e, r, Step(s, e).tp, token);
      }
    }
  }

  lemma UnheardTracks(s: Sys, e: Session.Event, token: nat)
    requires e.Receive? && ClientByFd(s.tp.clients, e.fd) < 0 && token != 0
    ensures Tracks(s, e, Step(s, e).tp, token)
  {
    FewerTracks(s, e, s.tp, token);
  }

  /** A token handed out before gets onto an orphan only when its holder is parked, and back onto a
      client only from an orphan, which then has it no more. */
  lemma StepTracks(s: Sys, e: Session.Event, token: nat)
    requires SysOk(s) && 0 < token <= s.tp.nextToken
    ensures Tracks(s, e, Step(s, e).tp, token)
  {
    hide SysOk, Act, Tracks, Fewer;
    if !Enabled(s, e) {
      NothingTracks(s, e, token);
    } else if Dying(s, e) >= 0 {
      DeathTracks(s, e, token);
    } else if e.Receive? {
      ReceiveTracks(s, e, token);
    } else {
      if e.Tick? { ExpireFewer(SceneOf(s), e.now); TickIs(s, e); }
      else if e.Hangup? { HangupNothing(s, e); }
      else { QuietFewer(s, e); }
      FewerTracks(s, e, Step(s, e).tp, token);
    }
  }

  lemma NothingTracks(s: Sys, e: Session.Event, token: nat)
    requires !Enabled(s, e) && token != 0
    ensures Tracks(s, e, s.tp, token)
  {
    FewerTracks(s, e, s.tp, token);
  }

  lemma TickIs(s: Sys, e: Session.Event)
    requires e.Tick?
    ensures Step(s, e).tp == Expire(SceneOf(s), e.now).tp
  {
  }

  lemma HangupNothing(s: Sys, e: Session.Event)
    requires e.Hangup? && Enabled(s, e) && Dying(s, e) < 0
    ensures Fewer(s.tp, Step(s, e).tp)
  {
  }

  // ---- spent for good ------------------------------------------------------------------------

  /** Nobody else has a client's token, and the allocator handed it out. */
  lemma TokenAlone(s: Sys, ci: nat)
    requires SysOk(s) && ci < |s.tp.clients| && s.tp.clients[ci].token != 0
    ensures s.tp.clients[ci].token <= s.tp.nextToken
    ensures forall i | 0 <= i < |s.tp.clients| && i != ci :: s.tp.clients[i].token != s.tp.clients[ci].token
    ensures forall o | 0 <= o < |s.tp.orphans| :: s.tp.orphans[o].token != s.tp.clients[ci].token
  {
    var toks := Toks(s.tp.clients, s.tp.orphans);
    assert toks[ci] == s.tp.clients[ci].token;
    forall i | 0 <= i < |s.tp.clients| && i != ci ensures s.tp.clients[i].token != s.tp.clients[ci].token {
      assert toks[i] == s.tp.clients[i].token;
    }
    forall o | 0 <= o < |s.tp.orphans| ensures s.tp.orphans[o].token != s.tp.clients[ci].token {
      assert toks[|s.tp.clients| + o] == s.tp.orphans[o].token;
    }
  }

  /** The token of a client whose death is not followed by parking is spent; */
  lemma ReapSpends(s: Sys, e: Session.Event)
    requires SysOk(s) && Dying(s, e) >= 0 && !Parks(s, e) && s.tp.clients[Dying(s, e)].token != 0
    ensures Spent(Step(s, e).tp, s.tp.clients[Dying(s, e)].token)
  {
    hide Step, Dispatch, SysOk, Dying, ReapSt, ReapK;
    var ci := Dying(s, e);
    TokenAlone(s, ci);
    DeathIs(s, e);
    DropFewer(CloseAll(SceneOf(s), Carried(e)), ci, e.now);
    assert Step(s, e).tp.clients[ci].token == 0;
  }

  /** so is the token of an orphan whose grace period has run out. */
  lemma ExpirySpends(s: Sys, now: int, o: nat)
    requires SysOk(s) && o < |s.tp.orphans| && Due(s.tp.orphans[o], now)
    ensures Spent(Step(s, Tick(now)).tp, s.tp.orphans[o].token)
  {
    hide Step;
    var token, toks := s.tp.orphans[o].token, Toks(s.tp.clients, s.tp.orphans);
    TickIs(s, Tick(now));
    ExpireClients(SceneOf(s), now, 0);
    assert toks[|s.tp.clients| + o] == token <= s.tp.nextToken;
    forall i | 0 <= i < |s.tp.clients| ensures s.tp.clients[i].token != token {
      assert toks[i] == s.tp.clients[i].token;
    }
    forall k | 0 <= k < |s.tp.orphans| ensures Step(s, Tick(now)).tp.orphans[k].token != token {
      ExpireExactly(SceneOf(s), now, 0, k);
      assert toks[|s.tp.clients| + k] == s.tp.orphans[k].token;
    }
  }

  lemma SpentParksNot(s: Sys, e: Session.Event, token: nat)
    requires Spent(s.tp, token)
    ensures !ParksToken(s, e, token) && !Reclaims(s, e, token)
  {
    hide Dying, Redeems, ParkingSlot;
  }

  /** A spent token stays spent: through any run no client holds it and no orphan waits under it; */
  lemma {:induction false} SpentForever(s: Sys, es: seq<Session.Event>, n: nat, token: nat)
    requires SysOk(s) && Spent(s.tp, token) && n <= |es|
    ensures SysOk(RunTo(s, es, n)) && Spent(RunTo(s, es, n).tp, token)
  {
    hide SysOk, Step, OnClient, OnOrphan, ParksToken, Reclaims;
    if n > 0 {
      var t := RunTo(s, es, n - 1);
      SpentForever(s, es, n - 1, token);
      StepKeeps(t, es[n - 1]);
      StepTracks(t, es[n - 1], token);
      SpentParksNot(t, es[n - 1], token);
    }
  }

  /** so whoever presents it later gets no windows, and another token, never seen before. */
  lemma NeverAgain(s: Sys, es: seq<Session.Event>, j: nat, token: nat)
    requires SysOk(s) && Spent(s.tp, token) && j < |es| && Redeems(RunTo(s, es, j), es[j], token)
    ensures var t := RunTo(s, es, j);
            var k, r := ClientByFd(t.tp.clients, es[j].fd), Step(t, es[j]);
            && 0 <= k < |r.tp.clients| && r.tp.clients[k].token > t.tp.nextToken && Empty(r.tp.clients[k].wins)
            && r.tp.orphans == t.tp.orphans
  {
    hide SysOk, Step, OnHello;
    SpentForever(s, es, j, token);
    var t, e := RunTo(s, es, j), es[j];
    var k := ClientByFd(t.tp.clients, e.fd);
    RoundTrips.NothingWaits(t, k, e.datagram);
    GreetingServed(t, e);
    ServedIs(t, e);
  }

  lemma GreetingServed(s: Sys, e: Session.Event)
    requires e.Receive? && Enabled(s, e)
    requires var ci := ClientByFd(s.tp.clients, e.fd); ci >= 0 && Greets(s.tp.clients, ci, e.datagram)
    ensures Dying(s, e) < 0
  {
    hide OnHello;
  }

  // ---- parked in between -----------------------------------------------------------------------

  lemma OrphansKnown(s: Sys, token: nat)
    requires SysOk(s) && OnOrphan(s.tp, token)
    ensures token <= s.tp.nextToken
  {
    var toks := Toks(s.tp.clients, s.tp.orphans);
    var o :| 0 <= o < |s.tp.orphans| && s.tp.orphans[o].token == token;
    assert toks[|s.tp.clients| + o] == token;
  }

  /** A token that got onto an orphan in the course of a run was put there by a death. */
  lemma {:induction false} ParkedOnTheWay(s: Sys, es: seq<Session.Event>, i: nat, n: nat, token: nat) returns (k: nat)
    requires i <= n <= |es| && SysOk(RunTo(s, es, i)) && 0 < token <= RunTo(s, es, i).tp.nextToken
    requires !OnOrphan(RunTo(s, es, i).tp, token) && OnOrphan(RunTo(s, es, n).tp, token)
    ensures i <= k < n && ParksToken(RunTo(s, es, k), es[k], token)
    decreases n
  {
    hide SysOk, Step, OnOrphan, OnClient, ParksToken, Reclaims;
    var t := RunTo(s, es, n - 1);
    Later(s, es, i, n - 1, token);
    StepTracks(t, es[n - 1], token);
    if OnOrphan(t.tp, token) { k := ParkedOnTheWay(s, es, i, n - 1, token); } else { k := n - 1; }
  }

  lemma {:induction false} Later(s: Sys, es: seq<Session.Event>, i: nat, n: nat, token: nat)
    requires i <= n <= |es| && SysOk(RunTo(s, es, i)) && 0 < token <= RunTo(s, es, i).tp.nextToken
    ensures SysOk(RunTo(s, es, n)) && token <= RunTo(s, es, n).tp.nextToken
    decreases n
  {
    hide SysOk, Step, OnOrphan, OnClient, ParksToken, Reclaims;
    if i < n {
      Later(s, es, i, n - 1, token);
      StepKeeps(RunTo(s, es, n - 1), es[n - 1]);
      StepTracks(RunTo(s, es, n - 1), es[n - 1], token);
    }
  }

  /** Between two events of a run that get a table back with the same token, a client that held it
      died and was parked: one parking is redeemed at most once. */
  lemma ParkedBetween(s: Sys, es: seq<Session.Event>, i: nat, j: nat, token: nat) returns (k: nat)
    requires SysOk(s) && i < j < |es|
    requires Reclaims(RunTo(s, es, i), es[i], token) && Reclaims(RunTo(s, es, j), es[j], token)
    ensures i < k < j && ParksToken(RunTo(s, es, k), es[k], token)
  {
    hide SysOk, Step, OnOrphan, OnClient, ParksToken, Redeems;
    var t := RunTo(s, es, i);
    RunKeeps(s, es, i);
    OrphansKnown(t, token);
    StepKeeps(t, es[i]);
    StepTracks(t, es[i], token);
    assert RunTo(s, es, i + 1) == Step(t, es[i]);
    k := ParkedOnTheWay(s, es, i + 1, j, token);
  }
}
