/** Guarantee about the descriptors that arrive with a datagram: each is closed exactly once, on
    every path, except for one shape of COMMIT. */
module Descriptors {
  import opened Transport

  /** A COMMIT that carries two descriptors but declares no fence: nobody closes the second. */
  predicate DropsOne(sc: Scene, ci: nat, d: Datagram, fds: seq<int>)
    requires ci < |sc.tp.clients|
  {
    && sc.tp.clients[ci].hello && d.body.Commit? && d.len >= COMMIT_SIZE
    && !d.body.hasFence && |fds| == 2
  }

  lemma CommitClosesAll(m: Body, fds: seq<int>)
    requires m.Commit? && |fds| <= MAX_FDS
    ensures multiset(CommitCloses(m, fds)) == multiset(fds) <==> m.hasFence || |fds| < 2
  {
    if |fds| == 2 {
      assert fds == [fds[0], fds[1]];
      if m.hasFence {
        assert CommitCloses(m, fds) == [fds[1], fds[0]];
      } else {
        assert CommitCloses(m, fds) == [fds[0]];
        assert |multiset(fds)| == 2;
      }
    } else if |fds| == 1 {
      assert fds == [fds[0]] && CommitCloses(m, fds) == [fds[0]];
    }
  }

  lemma CreateClosesNone(sc: Scene, ci: nat, m: Body)
    requires ci < |sc.tp.clients| && m.CreateWindow?
    ensures OnCreate(sc, ci, m).tp.kern == sc.tp.kern
  {
  }

  lemma DestroyClosesNone(sc: Scene, ci: nat, m: Body)
    requires ci < |sc.tp.clients| && m.DestroyWindow?
    ensures OnDestroyWindow(sc, ci, m).tp.kern.closed == sc.tp.kern.closed
  {
  }

  lemma HelloClosesNone(tp: Tp, ci: nat, d: Datagram)
    requires ci < |tp.clients| && d.body.Hello?
    ensures OnHello(tp, ci, d).kern == tp.kern
  {
  }

  lemma CommitClosed(sc: Scene, ci: nat, m: Body, fds: seq<int>, mem: Mmap)
    requires ci < |sc.tp.clients| && m.Commit?
    ensures OnCommit(sc, ci, m, fds, mem).tp.kern.closed == sc.tp.kern.closed + multiset(CommitCloses(m, fds))
  {
  }

  /** A served COMMIT closes what it carried exactly when it declares a fence or carries at most one. */
  lemma CommitExactly(sc: Scene, ci: nat, m: Body, fds: seq<int>, mem: Mmap)
    requires ci < |sc.tp.clients| && m.Commit? && |fds| <= MAX_FDS
    ensures ClosesExactly(sc, OnCommit(sc, ci, m, fds, mem), fds) <==> m.hasFence || |fds| < 2
  {
    CommitClosesAll(m, fds);
    CommitClosed(sc, ci, m, fds, mem);
    SumCancels(sc.tp.kern.closed, multiset(CommitCloses(m, fds)), multiset(fds));
  }

  lemma SumCancels(c: multiset<int>, a: multiset<int>, b: multiset<int>)
    ensures c + a == c + b <==> a == b
  {
    assert c + a - c == a && c + b - c == b;
  }

  predicate ClosesExactly(a: Scene, b: Scene, fds: seq<int>) {
    b.tp.kern.closed == a.tp.kern.closed + multiset(fds)
  }

  lemma OthersClose(sc: Scene, ci: nat, b: Body, fds: seq<int>, mem: Mmap)
    requires ci < |sc.tp.clients| && !b.Commit?
    ensures ClosesExactly(sc, Request(sc, ci, b, fds, mem), fds)
  {
    match b
    case CreateWindow(_, _, _, _, _, _) => CreateClosesNone(sc, ci, b);
    case DestroyWindow(_) => DestroyClosesNone(sc, ci, b);
    case SetGeometry(_, _, _, _, _) => assert OnSetGeometry(sc, ci, b).tp == sc.tp;
    case SetCursor(_, _, _, _, _) => assert OnSetCursor(sc.tp, b, fds, mem).kern.closed == sc.tp.kern.closed + multiset(fds);
    case _ =>
  }

  lemma HandshakeCloses(sc: Scene, ci: nat, d: Datagram, fds: seq<int>)
    requires ci < |sc.tp.clients|
    ensures ClosesExactly(sc, Handshake(sc, ci, d, fds).sc, fds)
  {
    if d.body.Hello? { HelloClosesNone(sc.tp, ci, d); }
  }

  /** Whatever dispatch does with a datagram - refuse it, shake hands, serve it, ignore it - the
      descriptors closed are exactly those that came with it, unless it is that COMMIT. */
  lemma DispatchClosesExactly(sc: Scene, ci: nat, d: Datagram, fds: seq<int>, mem: Mmap)
    requires ci < |sc.tp.clients| && |fds| <= MAX_FDS
    ensures ClosesExactly(sc, Dispatch(sc, ci, d, fds, mem).sc, fds) <==> !DropsOne(sc, ci, d, fds)
  {
    hide OnHello, OnCreate, OnCommit, OnDestroyWindow, OnSetGeometry, OnSetCursor;
    HandshakeCloses(sc, ci, d, fds);
    if d.body.Commit? { CommitExactly(sc, ci, d.body, fds, mem); } else { OthersClose(sc, ci, d.body, fds, mem); }
  }

  lemma {:induction false} ReapClosesNone(k: Kernel, t: Table, from: nat)
    requires from <= |t|
    ensures ReapK(k, t, from).closed == k.closed
    decreases |t| - from
  {
    if from < |t| {
      ReapClosesNone(k, t, from + 1);
      ReapClosesNone(DropBufK(k, t[from]), t, from + 1);
    }
  }

  /** The same for the whole turn: a drop that follows a refusal also closes the connection, and
      nothing else. */
  lemma ReceiveClosesExactly(sc: Scene, ci: nat, d: Datagram, fds: seq<int>, mem: Mmap, now: int)
    requires ci < |sc.tp.clients| && |fds| <= MAX_FDS
    ensures var own := if Dispatch(sc, ci, d, fds, mem).keep then [] else [sc.tp.clients[ci].fd];
            ClosesExactly(sc, Receive(sc, ci, d, fds, mem, now), fds + own) <==> !DropsOne(sc, ci, d, fds)
  {
    hide Dispatch, Drop;
    var r := Dispatch(sc, ci, d, fds, mem);
    DispatchClosesExactly(sc, ci, d, fds, mem);
    if r.keep {
      assert fds + [] == fds;
    } else {
      RefusalIs(sc, ci, d, fds, mem);
      DropCloses(r.sc, ci, now);
      assert multiset(fds + [sc.tp.clients[ci].fd]) == multiset(fds) + multiset{sc.tp.clients[ci].fd};
    }
  }

  /** A refusal closes the descriptors and changes nothing else. */
  lemma RefusalIs(sc: Scene, ci: nat, d: Datagram, fds: seq<int>, mem: Mmap)
    requires ci < |sc.tp.clients| && !Dispatch(sc, ci, d, fds, mem).keep
    ensures Dispatch(sc, ci, d, fds, mem).sc == CloseAll(sc, fds) && !DropsOne(sc, ci, d, fds)
  {
    hide Request, OnHello;
  }

  lemma DropCloses(sc: Scene, ci: nat, now: int)
    requires ci < |sc.tp.clients|
    ensures ClosesExactly(sc, Drop(sc, ci, now), [sc.tp.clients[ci].fd])
  {
    ReapClosesNone(sc.tp.kern, sc.tp.clients[ci].wins, 0);
  }

  /** Such a COMMIT exists: from any client past its handshake, two descriptors, no fence. */
  lemma SomeCommitDropsOne(sc: Scene, ci: nat, mem: Mmap)
    requires ci < |sc.tp.clients| && sc.tp.clients[ci].hello
    ensures var d := Datagram(COMMIT_SIZE, Commit(7, CL_BUF_SHM, 1, 1, 4, FORMAT_XRGB8888, false));
            !ClosesExactly(sc, Dispatch(sc, ci, d, [10, 11], mem).sc, [10, 11])
  {
    var d := Datagram(COMMIT_SIZE, Commit(7, CL_BUF_SHM, 1, 1, 4, FORMAT_XRGB8888, false));
    DispatchClosesExactly(sc, ci, d, [10, 11], mem);
  }

  // ---- shutdown ----------------------------------------------------------------------------------

  /** The descriptors of the open connections, from slot `from` on. */
  ghost function Open(cs: seq<Client>, from: nat): multiset<int>
    requires from <= |cs|
    decreases |cs| - from
  {
    if from == |cs| then multiset{} else (if cs[from].fd >= 0 then multiset{cs[from].fd} else multiset{}) + Open(cs, from + 1)
  }

  lemma {:induction false} OpenLater(cs: seq<Client>, i: nat, c: Client, from: nat)
    requires i < from <= |cs|
    ensures Open(cs[i := c], from) == Open(cs, from)
    decreases |cs| - from
  {
    if from < |cs| { OpenLater(cs, i, c, from + 1); }
  }

  lemma DropClients(sc: Scene, ci: nat, now: int)
    requires ci < |sc.tp.clients|
    ensures Drop(sc, ci, now).tp.clients == sc.tp.clients[ci := FreeClient()]
    ensures |Drop(sc, ci, now).tp.orphans| == |sc.tp.orphans|
  {
    hide ReapSt, ReapK;
  }

  lemma {:induction false} DropAllCloses(sc: Scene, now: int, from: nat, i: nat)
    requires from <= |sc.tp.clients| && i < |sc.tp.clients|
    ensures var r := DropAllFrom(sc, now, from).tp;
            && r.kern.closed == sc.tp.kern.closed + Open(sc.tp.clients, from) && |r.clients| == |sc.tp.clients|
            && r.clients[i] == if from <= i && sc.tp.clients[i].fd >= 0 then FreeClient() else sc.tp.clients[i]
    decreases |sc.tp.clients| - from
  {
    hide Drop, FreeClient;
    if from < |sc.tp.clients| {
      if sc.tp.clients[from].fd >= 0 {
        DropCloses(sc, from, now);
        DropClients(sc, from, now);
        DropAllCloses(Drop(sc, from, now), now, from + 1, i);
        OpenLater(sc.tp.clients, from, FreeClient(), from + 1);
        assert multiset([sc.tp.clients[from].fd]) == multiset{sc.tp.clients[from].fd};
      } else {
        DropAllCloses(sc, now, from + 1, i);
      }
    }
  }

  lemma {:induction false} ReapAllCloses(sc: Scene, from: nat)
    requires from <= |sc.tp.orphans|
    ensures var r := ReapAllFrom(sc, from).tp; r.kern.closed == sc.tp.kern.closed && r.clients == sc.tp.clients
    decreases |sc.tp.orphans| - from
  {
    if from < |sc.tp.orphans| {
      if sc.tp.orphans[from].token != 0 {
        ReapClosesNone(sc.tp.kern, sc.tp.orphans[from].wins, 0);
        ReapAllCloses(OrphanDestroy(sc, from), from + 1);
      } else {
        ReapAllCloses(sc, from + 1);
      }
    }
  }

  /** A shutdown closes exactly the connections that were open, each once, and leaves none. */
  lemma ShutdownCloses(sc: Scene, now: int)
    ensures var r := Shutdown(sc, now).tp;
            && r.kern.closed == sc.tp.kern.closed + Open(sc.tp.clients, 0)
            && |r.clients| == |sc.tp.clients| && forall i | 0 <= i < |r.clients| :: r.clients[i].fd < 0
  {
    hide DropAllFrom, ReapAllFrom;
    var d := DropAllFrom(sc, now, 0);
    ReapAllCloses(d, 0);
    if sc.tp.clients == [] {
      assert d == sc by { NoneDropped(sc, now); }
    } else {
      DropAllCloses(sc, now, 0, 0);
    }
    forall i | 0 <= i < |d.tp.clients| ensures d.tp.clients[i].fd < 0 {
      DropAllCloses(sc, now, 0, i);
    }
  }

  lemma NoneDropped(sc: Scene, now: int)
    requires sc.tp.clients == []
    ensures DropAllFrom(sc, now, 0) == sc
  {
  }
}
