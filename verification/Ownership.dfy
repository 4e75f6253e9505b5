/** Guarantees about windows and their owners. SysOk holds in every reachable state
    (SessionBoot.ReachableOk), so each of them does too. */
module Ownership {
  import opened Windows
  import opened StackSteps
  import opened Books
  import opened SceneBasics
  import opened SceneProofs
  import opened WaylandProofs
  import opened Session
  import opened SessionProofs
  import opened SessionBoot
  import Transport
  import Modes

  ghost function Tables(s: Sys): seq<Transport.Table> { Tabs(s.tp.clients, s.tp.orphans) }

  /** Slot j of table k (clients first, then orphans) is occupied. */
  ghost predicate Occupied(s: Sys, k: nat, j: nat) {
    k < |Tables(s)| && j < |Tables(s)[k]| && Tables(s)[k][j].wid != 0
  }

  /** Every occupied slot of every client and orphan names a live window of a native client, and
      no two occupied slots name the same one. */
  lemma SlotsPartition(s: Sys, k: nat, j: nat, l: nat, i: nat)
    requires SysOk(s) && Occupied(s, k, j) && Occupied(s, l, i)
    ensures var id := Tables(s)[k][j].serverId;
            && Live(s.st.ws, id) && s.st.ws[IndexOf(s.st.ws, id)].appDecorated
            && (Tables(s)[l][i].serverId == id ==> l == k && i == j)
  {
    var tabs := Tables(s);
    assert TableOk(View(s.st.ws), s.tp.kern.live, tabs[k]) && TableOk(View(s.st.ws), s.tp.kern.live, tabs[l]);
    assert SlotOk(View(s.st.ws), s.tp.kern.live, tabs[k][j]);
    ViewLive(s.st.ws, tabs[k][j].serverId);
    HeldIn(tabs[k], j);
    HeldIn(tabs[l], i);
    assert k != l ==> Held(tabs[k]) * Held(tabs[l]) == {};
    assert tabs[l][i].serverId in Held(tabs[l]);
  }

  /** A mapped surface owns a live window of its own, which no native client owns too. */
  lemma SurfacesPartition(s: Sys, a: nat, b: nat)
    requires SysOk(s) && a < |s.fe.surfaces| && b < |s.fe.surfaces| && s.fe.surfaces[a].serverId != 0
    ensures var id := s.fe.surfaces[a].serverId;
            && Live(s.st.ws, id) && !s.st.ws[IndexOf(s.st.ws, id)].appDecorated
            && (s.fe.surfaces[b].serverId == id ==> b == a)
            && !Owned(Tables(s), id)
  {
    var id := s.fe.surfaces[a].serverId;
    assert Linked(View(s.st.ws), s.fe.surfaces[a]);
    ViewLive(s.st.ws, id);
    NotHeld(View(s.st.ws), Tables(s), s.tp.kern, id);
  }

  // ---- counting -----------------------------------------------------------------------

  lemma {:induction false} HeldCount(t: Transport.Table, from: nat)
    requires Injective(t) && from <= |t|
    ensures |HeldFrom(t, from)| == Transport.CountFrom(t, from)
    decreases |t| - from
  {
    if from < |t| {
      HeldCount(t, from + 1);
      HeldStep(t, from);
      if t[from].wid == 0 { assert HeldFrom(t, from) == HeldFrom(t, from + 1); }
      else { assert t[from].serverId !in HeldFrom(t, from + 1); }
    } else {
      assert HeldFrom(t, from) == {};
    }
  }

  ghost function TotalFrom(tabs: seq<Transport.Table>, n: nat): nat
    requires n <= |tabs|
  {
    if n == 0 then 0 else TotalFrom(tabs, n - 1) + Transport.CountFrom(tabs[n - 1], 0)
  }

  ghost function AllHeld(tabs: seq<Transport.Table>, n: nat): set<nat>
    requires n <= |tabs|
  {
    if n == 0 then {} else AllHeld(tabs, n - 1) + Held(tabs[n - 1])
  }

  lemma {:induction false} AllHeldApart(tabs: seq<Transport.Table>, n: nat, k: nat)
    requires Apart(tabs) && n <= k < |tabs|
    ensures AllHeld(tabs, n) !! Held(tabs[k])
  {
    if n > 0 { AllHeldApart(tabs, n - 1, k); }
  }

  /** A table names as many windows as it has occupied slots, all among ids. */
  ghost predicate Counted(t: Transport.Table, ids: set<nat>) {
    Held(t) <= ids && |Held(t)| == Transport.CountFrom(t, 0)
  }

  lemma TableFacts(s: Sys)
    requires SysOk(s)
    ensures Apart(Tables(s))
    ensures forall i | 0 <= i < |Tables(s)| :: Counted(Tables(s)[i], View(s.st.ws).Keys)
  {
    forall i | 0 <= i < |Tables(s)| ensures Counted(Tables(s)[i], View(s.st.ws).Keys) {
      assert TableOk(View(s.st.ws), s.tp.kern.live, Tables(s)[i]);
      HeldLive(View(s.st.ws), s.tp.kern.live, Tables(s)[i]);
      HeldCount(Tables(s)[i], 0);
    }
  }

  lemma {:induction false} TotalIsHeld(ids: set<nat>, tabs: seq<Transport.Table>, n: nat)
    requires Apart(tabs) && n <= |tabs| && forall i | 0 <= i < |tabs| :: Counted(tabs[i], ids)
    ensures |AllHeld(tabs, n)| == TotalFrom(tabs, n) && AllHeld(tabs, n) <= ids
  {
    if n > 0 {
      TotalIsHeld(ids, tabs, n - 1);
      AllHeldApart(tabs, n - 1, n - 1);
      assert Counted(tabs[n - 1], ids);
      UnionSize(AllHeld(tabs, n - 1), Held(tabs[n - 1]));
    }
  }

  lemma UnionSize(a: set<nat>, b: set<nat>)
    requires a !! b
    ensures |a + b| == |a| + |b|
  {
  }

  lemma {:induction false} ViewSize(ws: seq<Window>, n: nat)
    requires n <= |ws|
    ensures |ViewUpTo(ws, n).Keys| <= n
  {
    if n > 0 {
      ViewSize(ws, n - 1);
      assert ViewUpTo(ws, n).Keys == ViewUpTo(ws, n - 1).Keys + {ws[n - 1].id};
    }
  }

  lemma {:induction false} SubsetSize(a: set<nat>, b: set<nat>)
    requires a <= b
    ensures |a| <= |b|
  {
    if a != {} {
      var x :| x in a;
      SubsetSize(a - {x}, b - {x});
    }
  }

  /** The occupied slots of all clients and orphans together never outnumber the windows. */
  lemma SlotsFitTheStack(s: Sys)
    requires SysOk(s)
    ensures TotalFrom(Tables(s), |Tables(s)|) <= |s.st.ws| <= WIN_MAX
  {
    TableFacts(s);
    TotalIsHeld(View(s.st.ws).Keys, Tables(s), |Tables(s)|);
    SubsetSize(AllHeld(Tables(s), |Tables(s)|), View(s.st.ws).Keys);
    ViewSize(s.st.ws, |s.st.ws|);
  }

  // ---- nobody's windows -----------------------------------------------------------------

  /** The event is a CREATE_WINDOW for wid 0, from a client past its handshake, that gets a window. */
  predicate CreatesForZero(s: Sys, e: Event) {
    && e.Receive? && Enabled(s, e)
    && var ci := Transport.ClientByFd(s.tp.clients, e.fd);
       && ci >= 0 && s.tp.clients[ci].hello
       && e.datagram.body.CreateWindow? && e.datagram.len >= Transport.CREATE_SIZE
       && e.datagram.body.wid == 0 && Transport.Creates(SceneOf(s), ci, 0)
  }

  lemma StrayStep(s: Sys, e: Event)
    requires SysOk(s)
    ensures SysOk(Step(s, e))
    ensures SysStrays(Step(s, e)) == SysStrays(s) + if CreatesForZero(s, e) then {s.st.nextId} else {}
  {
    StepKeeps(s, e);
  }

  /** None of the first n events creates a window for wid 0. */
  predicate AllNamed(s: Sys, es: seq<Event>, n: nat)
    requires n <= |es|
  {
    n == 0 || (AllNamed(s, es, n - 1) && !CreatesForZero(RunTo(s, es, n - 1), es[n - 1]))
  }

  lemma {:induction false} StraysOverRun(s: Sys, es: seq<Event>, n: nat)
    requires SysOk(s) && SysStrays(s) == {} && n <= |es|
    ensures SysOk(RunTo(s, es, n))
    ensures SysStrays(RunTo(s, es, n)) == {} <==> AllNamed(s, es, n)
  {
    if n > 0 {
      StraysOverRun(s, es, n - 1);
      StrayStep(RunTo(s, es, n - 1), es[n - 1]);
    }
  }

  /** After a run every native window is held by a client or an orphan if and only if no step of
      the run created a window for wid 0 (which the protocol forbids but the server accepts). */
  lemma NativeWindowsOwned(mode: Modes.Mode, demo: bool, garbage: nat, es: seq<Event>)
    requires mode.hdisplay >= 1 && mode.vdisplay >= 1
    ensures var b := Boot(mode, demo, garbage);
            AllOwned(Run(b, es)) <==> AllNamed(b, es, |es|)
  {
    var b := Boot(mode, demo, garbage);
    BootOk(mode, demo, garbage);
    BootStrays(mode, demo, garbage);
    StraysOverRun(b, es, |es|);
    StraysSaid(Run(b, es));
  }

  /** Every live native window is held by some client or orphan. */
  ghost predicate AllOwned(s: Sys) {
    forall id | Live(s.st.ws, id) && s.st.ws[IndexOf(s.st.ws, id)].appDecorated :: Owned(Tables(s), id)
  }

  lemma StraysSaid(t: Sys)
    requires Ok(t.st)
    ensures SysStrays(t) == {} <==> AllOwned(t)
  {
    forall id ensures id in SysStrays(t) <==>
      Live(t.st.ws, id) && t.st.ws[IndexOf(t.st.ws, id)].appDecorated && !Owned(Tables(t), id)
    {
      ViewLive(t.st.ws, id);
    }
  }

  lemma BootPlain(mode: Modes.Mode, demo: bool, garbage: nat)
    requires mode.hdisplay >= 1 && mode.vdisplay >= 1
    ensures var v := View(Boot(mode, demo, garbage).st.ws); forall id | id in v :: !v[id].appDecorated && demo && id < 4
  {
    if demo {
      SeededOk(mode.hdisplay, mode.vdisplay);
      ViewIds(Seeded(mode.hdisplay, mode.vdisplay));
    }
  }

  lemma BootStrays(mode: Modes.Mode, demo: bool, garbage: nat)
    requires mode.hdisplay >= 1 && mode.vdisplay >= 1
    ensures SysStrays(Boot(mode, demo, garbage)) == {}
    ensures forall id | id in SysUnclaimed(Boot(mode, demo, garbage)) :: demo && id < 4
  {
    BootPlain(mode, demo, garbage);
  }

  /** After any run every live window that is not native belongs to a surface (to one only:
      SurfacesPartition); in a boot with the demo scene, except for the three demo windows. */
  lemma WaylandWindowsOwned(mode: Modes.Mode, demo: bool, garbage: nat, es: seq<Event>, id: nat)
    requires mode.hdisplay >= 1 && mode.vdisplay >= 1
    requires var s := Run(Boot(mode, demo, garbage), es);
             Live(s.st.ws, id) && !s.st.ws[IndexOf(s.st.ws, id)].appDecorated
    requires demo ==> id >= 4
    ensures Claimed(Run(Boot(mode, demo, garbage), es).fe, id)
  {
    hide Step, Boot;
    var s := Run(Boot(mode, demo, garbage), es);
    BootOk(mode, demo, garbage);
    BootStrays(mode, demo, garbage);
    RunKeeps(Boot(mode, demo, garbage), es, |es|);
    ViewLive(s.st.ws, id);
    assert id !in SysUnclaimed(s);
  }

  // ---- crash containment -------------------------------------------------------------------

  /** A client's death takes exactly its own windows, and none of them if it is parked: every
      other window keeps every field and its place among the rest, and a focus that is lost goes
      to the topmost survivor. */
  lemma CrashContained(s: Sys, ci: nat, now: int)
    requires SysOk(s) && ci < |s.tp.clients|
    ensures var t := Transport.Drop(SceneOf(s), ci, now);
            t.st == if Transport.ParkingSlot(SceneOf(s), ci) >= 0 then s.st else Reaped(s.st, Held(s.tp.clients[ci].wins))
  {
    Parts(s);
    ClientTable(SceneOf(s), ci);
    if Transport.ParkingSlot(SceneOf(s), ci) < 0 { ReapStack(SceneOf(s), s.tp.clients[ci].wins); }
  }

  /** A client is parked exactly when it holds a live shell window and an orphan slot is free. */
  lemma ParkedIff(s: Sys, ci: nat)
    requires SysOk(s) && ci < |s.tp.clients|
    ensures Transport.ParkingSlot(SceneOf(s), ci) >= 0 <==>
            && (exists j :: 0 <= j < |s.tp.clients[ci].wins| && ShellSlot(s.st.ws, s.tp.clients[ci].wins[j]))
            && exists o :: 0 <= o < |s.tp.orphans| && s.tp.orphans[o].token == 0
  {
    var c := s.tp.clients[ci];
    assert ClientOk(c);
    ShellIff(s.st.ws, c.wins, 0);
  }

  /** The slot names a live taskbar, wallpaper or tray. */
  predicate ShellSlot(ws: seq<Window>, w: Transport.ClWin) {
    w.wid != 0 && Live(ws, w.serverId) && ws[IndexOf(ws, w.serverId)].role in {Taskbar, Desktop, Tray}
  }

  lemma {:induction false} ShellIff(ws: seq<Window>, wins: Transport.Table, from: nat)
    requires from <= |wins|
    ensures Transport.ShellFrom(ws, wins, from) <==> exists j :: from <= j < |wins| && ShellSlot(ws, wins[j])
    decreases |wins| - from
  {
    if from < |wins| { ShellIff(ws, wins, from + 1); }
  }
}
