/** The ephemeral ports of the actor: how they are handed out and when two live connections share one. */
module NetstackPorts {
  import opened Options
  import opened Arithmetic
  import opened Netstack
  import opened NetstackProofs
  import opened NetstackTheorems

  /** How many connects a run has handled. */
  function Connects(es: seq<Event>): nat {
    if es == [] then 0 else Connects(es[..|es| - 1]) + One(es[|es| - 1].Connect?)
  }

  const PORTS: nat := LAST_PORT - FIRST_PORT + 1

  /** The allocator walks the whole dynamic range in order, over and over: after k connects the next
      one, the k-th counted from 0, gets port 49152 + k mod 16384. */
  lemma {:induction false} PortCycle(dns: Handle, es: seq<Event>)
    requires Run(Start(dns), es).Some?
    ensures Run(Start(dns), es).value.nextPort == 49152 + Connects(es) % 16384
    decreases |es|
  {
    if es != [] {
      var before := es[..|es| - 1];
      PortCycle(dns, before);
      PortNext(Run(Start(dns), before).value, es[|es| - 1]);
      PortCount(Connects(before));
    }
  }

  lemma PortNext(n: Net, e: Event)
    requires Apply(n, e).Some?
    ensures Apply(n, e).value.nextPort == if e.Connect? then NextPort(n.nextPort) else n.nextPort
  {
  }

  lemma PortCount(k: nat)
    ensures NextPort(FIRST_PORT + k % PORTS) == FIRST_PORT + (k + 1) % PORTS
  {
  }

  // ---- shared ports -------------------------------------------------------

  /** How many connects had been handled before that of `id`. */
  function Serial(es: seq<Event>, id: nat): nat {
    if es == [] then 0
    else
      var before, last := es[..|es| - 1], es[|es| - 1];
      if last.Connect? && last.id == id then Connects(before) else Serial(before, id)
  }

  /** A listed connection was there before, on the same port, or is the one just opened. */
  lemma PortStays(n: Net, e: Event, h: Handle)
    requires Inv(n) && Apply(n, e).Some? && h in Apply(n, e).value.conns && IsConn(Apply(n, e).value, h)
    ensures var n' := Apply(n, e).value;
            if e.Connect? && n'.conns[h].id == e.id then n'.sockets[h].sock.port == n.nextPort
            else IsConn(n, h) && n'.conns[h].id == n.conns[h].id && n'.sockets[h].sock.port == n.sockets[h].sock.port
  {
    if h in n.conns {
      assert LinkOk(n, h);
    }
    if !e.Connect? {
      SamePort(n, e, h);
    }
  }

  lemma SamePort(n: Net, e: Event, h: Handle)
    requires !e.Connect? && Apply(n, e).Some? && h in Apply(n, e).value.conns && IsConn(Apply(n, e).value, h)
    ensures var n' := Apply(n, e).value;
            && h in n.conns && h in n.sockets && n.sockets[h].Tcp? && n'.conns[h].id == n.conns[h].id
            && n'.sockets[h].sock.port == n.sockets[h].sock.port
  {
  }

  /** The port of a listed connection tells its number. */
  lemma {:induction false} PortIs(dns: Handle, es: seq<Event>, h: Handle)
    requires Run(Start(dns), es).Some? && h in Run(Start(dns), es).value.conns
    ensures var n := Run(Start(dns), es).value;
            IsConn(n, h) && n.sockets[h].sock.port == 49152 + Serial(es, n.conns[h].id) % 16384
    decreases |es|
  {
    if es != [] {
      var before := es[..|es| - 1];
      var n := Run(Start(dns), before).value;
      StartInv(dns);
      RunKeeps(Start(dns), before);
      StepKeeps(n, es[|es| - 1]);
      assert LinkOk(Run(Start(dns), es).value, h);
      PortStays(n, es[|es| - 1], h);
      if es[|es| - 1].Connect? && Run(Start(dns), es).value.conns[h].id == es[|es| - 1].id {
        PortCycle(dns, before);
      } else {
        PortIs(dns, before, h);
      }
    }
  }

  lemma SameRemainder(a: nat, b: nat, n: nat)
    requires n > 0
    ensures a % n == b % n <==> (a - b) % n == 0
  {
    var d := a / n - b / n;
    assert a - b == d * n + (a % n - b % n);
    if a % n == b % n {
      assert (a - b) == d * n;
      ModAdd(0, n, 0);
      Multiple(d, n);
    } else if (a - b) % n == 0 {
      var q := (a - b) / n;
      assert a == b + q * n;
      ModAdd(b, n, q);
    }
  }

  lemma Multiple(d: int, n: nat)
    requires n > 0
    ensures (d * n) % n == 0
  {
    var q, r := (d * n) / n, (d * n) % n;
    assert d * n == q * n + r;
    assert (d - q) * n == r;
    if d - q >= 1 {
      MulLeq(1, d - q, n);
    } else if d - q <= -1 {
      MulLeq(d - q, -1, n);
    }
  }

  /** Two live connections share their local port iff a multiple of 16384 connects lies between theirs. */
  lemma PortsClashIff(dns: Handle, es: seq<Event>, h: Handle, k: Handle)
    requires Run(Start(dns), es).Some? && h in Run(Start(dns), es).value.conns && k in Run(Start(dns), es).value.conns
    ensures var n := Run(Start(dns), es).value;
            && IsConn(n, h) && IsConn(n, k)
            && (n.sockets[h].sock.port == n.sockets[k].sock.port <==>
                  (Serial(es, n.conns[h].id) - Serial(es, n.conns[k].id)) % 16384 == 0)
  {
    var n := Run(Start(dns), es).value;
    PortIs(dns, es, h);
    PortIs(dns, es, k);
    SameRemainder(Serial(es, n.conns[h].id), Serial(es, n.conns[k].id), PORTS);
  }

  // ---- a run in which it happens ------------------------------------------

  function RefusedPipes(k: nat): (pipes: map<nat, Pipe>)
    ensures 0 in pipes && forall i :: i in pipes ==> i <= k
  {
    if k == 0 then map[0 := FRESH_PIPE] else RefusedPipes(k - 1)[k := CLOSED_PIPE]
  }

  function Refusals(k: nat): seq<Reply> {
    if k == 0 then [] else Refusals(k - 1) + [Reply(k, Refused)]
  }

  /** Connect 0 live on handle 1 and k refused connects after it. */
  function Refusing(k: nat): Net {
    Net(map[0 := Dns, 1 := Tcp(NewSock(FIRST_PORT))], 0, map[1 := Conn(0, [], true, false, [], None)],
        FIRST_PORT + (k + 1) % PORTS, RefusedPipes(k), Refusals(k), {}, Idle)
  }

  lemma RefusingStep(k: nat)
    ensures Apply(Refusing(k), Connect(k + 1, 2, false)) == Some(Refusing(k + 1))
  {
    PortCount(k + 1);
  }

  lemma RefusingStart()
    ensures Apply(Start(0), Connect(0, 1, true)) == Some(Refusing(0))
  {
    assert Start(0).sockets[1 := Tcp(NewSock(FIRST_PORT))] == Refusing(0).sockets;
    PortCount(0);
  }

  lemma {:induction false} RefusingReachable(k: nat)
    ensures Reachable(Refusing(k))
  {
    if k == 0 {
      assert Run(Start(0), []) == Some(Start(0));
      RefusingStart();
      ReachableStep(Start(0), Connect(0, 1, true));
    } else {
      RefusingReachable(k - 1);
      RefusingStep(k - 1);
      ReachableStep(Refusing(k - 1), Connect(k, 2, false));
    }
  }

  lemma SharedPort()
    ensures exists n :: Reachable(n) && IsConn(n, 1) && IsConn(n, 2) && n.sockets[1].sock.port == n.sockets[2].sock.port
  {
    var n, e := Refusing(PORTS - 1), Connect(PORTS, 2, true);
    RefusingReachable(PORTS - 1);
    assert n.nextPort == FIRST_PORT && PORTS !in n.pipes;
    ReachableStep(n, e);
    var n' := Apply(n, e).value;
    assert IsConn(n', 1) && IsConn(n', 2) && n'.sockets[1].sock.port == n'.sockets[2].sock.port;
  }
}
