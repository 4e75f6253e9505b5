/** The first turns of a new native client, from any state with room for it: it connects, says
    HELLO, and asks for a window. */
module Newcomers {
  import opened Windows
  import opened Transport
  import opened Session
  import opened SessionProofs

  /** The first handshake of a client that presents a token (0: none). */
  function HelloWith(token: U32): Datagram {
    Datagram(HELLO_SIZE, Hello(CL_MAGIC, CL_VERSION, CL_MIN_VERSION, token))
  }

  /** There is a free client slot, and the descriptor is new. */
  predicate HasRoom(s: Sys, fd: int) { Enabled(s, Connect(fd, true)) && ClientByFd(s.tp.clients, -1) >= 0 }

  function Joined(s: Sys, fd: int): Sys { Step(s, Connect(fd, true)) }

  function Greeted(s: Sys, fd: int): Sys { Step(Joined(s, fd), Receive(fd, HelloWith(0), [], MapFailed, 0)) }

  /** The only client with this descriptor is found. */
  lemma FoundAt(cs: seq<Client>, fd: int, k: nat)
    requires k < |cs| && cs[k].fd == fd && forall i | 0 <= i < |cs| && i != k :: cs[i].fd != fd
    ensures ClientByFd(cs, fd) == k
  {
  }

  lemma ConnectIs(s: Sys, fd: int)
    requires HasRoom(s, fd)
    ensures var k := ClientByFd(s.tp.clients, -1);
            && Joined(s, fd) == s.(tp := s.tp.(clients := s.tp.clients[k := FreeClient().(fd := fd)]))
            && ClientByFd(Joined(s, fd).tp.clients, fd) == k
  {
    var k := ClientByFd(s.tp.clients, -1);
    var cs := s.tp.clients[k := FreeClient().(fd := fd)];
    FoundAt(cs, fd, k);
  }

  /** The transport after the greeting: the newcomer's slot, and the next token, are all that changed. */
  function WithNewcomer(tp: Tp, k: nat, fd: int): Tp
    requires k < |tp.clients|
  {
    tp.(nextToken := tp.nextToken + 1,
        clients := tp.clients[k := Client(fd, true, tp.nextToken + 1, NoWindows(),
                                          [Welcome(CL_VERSION, tp.sw, tp.sh, tp.nextToken + 1)])])
  }

  lemma HelloNew(tp: Tp, k: nat, fd: int)
    requires k < |tp.clients| && tp.clients[k] == FreeClient().(fd := fd)
    ensures OnHello(tp, k, HelloWith(0)) == WithNewcomer(tp, k, fd)
  {
    assert [] + [Welcome(CL_VERSION, tp.sw, tp.sh, tp.nextToken + 1)] == [Welcome(CL_VERSION, tp.sw, tp.sh, tp.nextToken + 1)];
    var cs := OnHello(tp, k, HelloWith(0)).clients;
    assert cs == WithNewcomer(tp, k, fd).clients;
  }

  lemma ReceiveHello(sc: Scene, k: nat)
    requires k < |sc.tp.clients| && !sc.tp.clients[k].hello
    ensures Transport.Receive(sc, k, HelloWith(0), [], MapFailed, 0) == sc.(tp := OnHello(sc.tp, k, HelloWith(0)))
  {
    hide OnHello;
    HelloCarriesNone(sc.tp, k);
  }

  lemma HelloCarriesNone(tp: Tp, k: nat)
    requires k < |tp.clients|
    ensures var r := OnHello(tp, k, HelloWith(0)); r.(kern := Closed(r.kern, [])) == r
  {
    hide OnHello;
  }

  lemma GreetedTables(s: Sys, fd: int)
    requires HasRoom(s, fd)
    ensures var k := ClientByFd(s.tp.clients, -1);
            Greeted(s, fd) == s.(tp := WithNewcomer(s.tp, k, fd)) && ClientByFd(Greeted(s, fd).tp.clients, fd) == k
  {
    hide Step, OnHello, Transport.Receive;
    var k, t := ClientByFd(s.tp.clients, -1), Joined(s, fd);
    ConnectIs(s, fd);
    HelloNew(t.tp, k, fd);
    ReceiveHello(SceneOf(t), k);
    HelloStep(t, fd, k);
    assert WithNewcomer(s.tp, k, fd).clients == WithNewcomer(t.tp, k, fd).clients;
    FoundAt(WithNewcomer(s.tp, k, fd).clients, fd, k);
  }

  /** A newcomer's greeting gives it the next token and an empty table, and changes nothing else. */
  lemma GreetedIs(s: Sys, fd: int)
    requires SysOk(s) && HasRoom(s, fd)
    ensures var k := ClientByFd(s.tp.clients, -1);
            && SysOk(Greeted(s, fd)) && Greeted(s, fd) == s.(tp := WithNewcomer(s.tp, k, fd))
            && ClientByFd(Greeted(s, fd).tp.clients, fd) == k
  {
    hide Step, OnHello, SysOk;
    StepKeeps(s, Connect(fd, true));
    StepKeeps(Joined(s, fd), Receive(fd, HelloWith(0), [], MapFailed, 0));
    GreetedTables(s, fd);
  }

  lemma HelloStep(t: Sys, fd: int, k: nat)
    requires fd >= 0 && ClientByFd(t.tp.clients, fd) == k
    ensures Step(t, Receive(fd, HelloWith(0), [], MapFailed, 0))
         == WithScene(t, Transport.Receive(SceneOf(t), k, HelloWith(0), [], MapFailed, 0))
  {
    hide Transport.Receive;
  }

  // ---- asking for a window -----------------------------------------------------------------

  function Ask(fd: int, m: Body): Session.Event { Receive(fd, Datagram(CREATE_SIZE, m), [], MapFailed, 0) }

  /** A request from a client past its handshake is just served. */
  lemma AskIs(s: Sys, fd: int, m: Body)
    requires fd >= 0 && m.CreateWindow?
    requires var k := ClientByFd(s.tp.clients, fd); k >= 0 && s.tp.clients[k].hello
    ensures Step(s, Ask(fd, m)) == WithScene(s, OnCreate(SceneOf(s), ClientByFd(s.tp.clients, fd), m))
  {
    hide OnCreate;
    var r := OnCreate(SceneOf(s), ClientByFd(s.tp.clients, fd), m);
    assert CloseAll(r, []) == r by { assert Closed(r.tp.kern, []) == r.tp.kern; }
  }

  lemma RoomInTable(wins: Table, wid: nat)
    requires |wins| > 0 && forall j | 0 <= j < |wins| :: wins[j].wid == 0
    ensures WinFind(wins, wid) < 0 && WinAlloc(wins) == 0
  {
  }

  /** The newcomer's first window request finds a free table, so it is served if the stack has room. */
  lemma FirstWindow(s: Sys, fd: int, m: Body)
    requires SysOk(s) && HasRoom(s, fd) && |s.st.ws| < WIN_MAX && m.CreateWindow?
    ensures var g, k := Greeted(s, fd), ClientByFd(s.tp.clients, -1);
            && SysOk(g) && SysOk(Step(g, Ask(fd, m)))
            && k < |g.tp.clients| && g.tp.clients[k].hello && Creates(SceneOf(g), k, m.wid) && WinAlloc(g.tp.clients[k].wins) == 0
            && ClientByFd(g.tp.clients, fd) == k
            && Step(g, Ask(fd, m)) == WithScene(g, OnCreate(SceneOf(g), k, m))
  {
    hide Step, OnCreate, SysOk;
    var g, k := Greeted(s, fd), ClientByFd(s.tp.clients, -1);
    GreetedIs(s, fd);
    RoomInTable(NoWindows(), m.wid);
    AskIs(g, fd, m);
    StepKeeps(g, Ask(fd, m));
  }
}
