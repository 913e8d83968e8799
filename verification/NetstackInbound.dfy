/** When the end of an inbound stream hides bytes that had arrived. */
module NetstackInbound {
  import opened Options
  import opened Varint
  import opened Netstack
  import opened NetstackProofs
  import opened NetstackTheorems
  import opened NetstackHistory
  import opened NetstackClients

  /** The end of a service removes the connection of `id` while its socket still holds readable bytes. */
  predicate RemovesUnread(n: Net, e: Event, id: nat) {
    e.Finish? && FinishService(n).Some? && n.cursor.h !in FinishService(n).value.conns &&
    n.conns[n.cursor.h].id == id && n.sockets[n.cursor.h].sock.rx != []
  }

  function Unread(id: nat): Happening {
    (n, e) => RemovesUnread(n, e, id)
  }

  ghost predicate Truncated(n: Net, id: nat) {
    id in n.pipes && n.pipes[id].end.Some? && n.pipes[id].end.value.left != []
  }

  lemma TruncatedStep(n: Net, e: Event, id: nat)
    requires Inv(n) && Apply(n, e).Some?
    ensures Truncated(Apply(n, e).value, id) <==> Truncated(n, id) || RemovesUnread(n, e, id)
  {
    if e.Finish? {
      TruncatedFinish(n, id);
    } else {
      TruncatedOther(n, e, id);
    }
  }

  lemma TruncatedFinish(n: Net, id: nat)
    requires Inv(n) && FinishService(n).Some?
    ensures Truncated(FinishService(n).value, id) <==> Truncated(n, id) || RemovesUnread(n, Finish, id)
  {
    assert LinkOk(n, n.cursor.h);
    assert PipeOk(n.pipes[n.conns[n.cursor.h].id]);
  }

  lemma TruncatedOther(n: Net, e: Event, id: nat)
    requires Apply(n, e).Some? && !e.Finish?
    ensures Truncated(Apply(n, e).value, id) <==> Truncated(n, id)
  {
    PipeEnds(n, e, id);
  }

  /** Only the end of a service ends a channel that was open. */
  lemma PipeEnds(n: Net, e: Event, id: nat)
    requires Apply(n, e).Some? && !e.Finish?
    ensures id in n.pipes ==> id in Apply(n, e).value.pipes && Apply(n, e).value.pipes[id].end == n.pipes[id].end
    ensures id !in n.pipes && id in Apply(n, e).value.pipes ==>
              Apply(n, e).value.pipes[id] == FRESH_PIPE || Apply(n, e).value.pipes[id] == CLOSED_PIPE
  {
  }

  lemma {:induction false} TruncatedEver(dns: Handle, es: seq<Event>, id: nat)
    requires Run(Start(dns), es).Some?
    ensures Truncated(Run(Start(dns), es).value, id) <==> Ever(Start(dns), es, Unread(id))
    decreases |es|
  {
    if es != [] {
      var mid := Run(Start(dns), es[..|es| - 1]).value;
      TruncatedEver(dns, es[..|es| - 1], id);
      StartInv(dns);
      RunKeeps(Start(dns), es[..|es| - 1]);
      TruncatedStep(mid, es[|es| - 1], id);
      EverStep(Start(dns), es, Unread(id), mid);
    }
  }

  /** At end of stream a reader has been given everything that ever arrived for its connection, iff no
      removal found bytes still readable in its socket. */
  lemma CompleteIff(dns: Handle, es: seq<Event>, id: nat, space: nat)
    requires Run(Start(dns), es).Some? && id in Run(Start(dns), es).value.pipes && space > 0
    requires PollRead(Run(Start(dns), es).value.pipes[id], space).1 == Ready([])
    ensures var p := Run(Start(dns), es).value.pipes[id];
            p.end.Some? && (p.out == p.end.value.arrived <==> !Ever(Start(dns), es, Unread(id)))
  {
    var n := Run(Start(dns), es).value;
    assert Reachable(n);
    EmptyReadIsEof(n, id, space);
    EndOfStream(n, id);
    TruncatedEver(dns, es, id);
  }

  // ---- progress -----------------------------------------------------------

  /** State m ends the receiving loop of the service that n is in, with nothing more to be had. */
  ghost predicate TookAll(m: Net, n: Net) {
    n.cursor.Serving? && m.cursor == n.cursor.(stage := Receiving) && IsConn(m, n.cursor.h) && IsConn(n, n.cursor.h) &&
    m.sockets[n.cursor.h] == n.sockets[n.cursor.h] &&
    var sock, pipe := m.sockets[n.cursor.h].sock, m.pipes[m.conns[n.cursor.h].id];
    sock.rx == [] || sock.gives == 0 || |pipe.queue| >= 64 || !pipe.receiverAlive
  }

  /** Inbound progress: whatever a connection still has to read after its service was kept back by the
      socket or by a channel that was full, or had no reader any more, when the receiving loop ended. */
  lemma {:induction false} ServiceTakesInbound(dns: Handle, es: seq<Event>) returns (i: nat)
    requires Run(Start(dns), es).Some?
    requires var n := Run(Start(dns), es).value; n.cursor.Serving? && n.cursor.stage == Ending
    ensures i < |es| && es[i] == EndRecv && Run(Start(dns), es[..i]).Some?
    ensures TookAll(Run(Start(dns), es[..i]).value, Run(Start(dns), es).value)
    decreases |es|
  {
    var last := |es| - 1;
    var mid := Run(Start(dns), es[..last]).value;
    if es[last] == EndRecv {
      i := last;
      ReceivingEnds(mid);
    } else {
      StillEnding(mid, es[last]);
      i := ServiceTakesInbound(dns, es[..last]);
      assert es[..last][..i] == es[..i];
    }
  }

  /** Once the receiving loop is over only readers act before the end of the service. */
  lemma StillEnding(n: Net, e: Event)
    requires Apply(n, e).Some? && e != EndRecv
    requires Apply(n, e).value.cursor.Serving? && Apply(n, e).value.cursor.stage == Ending
    ensures var n' := Apply(n, e).value;
            && n.cursor == n'.cursor && n'.sockets == n.sockets && n'.conns == n.conns && n.pipes.Keys <= n'.pipes.Keys
  {
  }

  // ---- a run in which it happens ------------------------------------------

  function Zeros(k: nat): (s: seq<byte>)
    ensures |s| == k
  {
    seq(k, i => 0)
  }

  /** k one-byte chunks. */
  function Ones(k: nat): (chunks: seq<Chunk>)
    ensures |chunks| == k
  {
    seq(k, i => [0])
  }

  /** 65 bytes have arrived for connection 7; k of them are in its channel, one by one, unread. */
  function Filling(k: nat, state: TcpState, cursor: Cursor): Net
    requires k <= 65
  {
    var sock := Sock(FIRST_PORT, state, 0, 0, Zeros(65 - k), 100 - k, Zeros(65), [], Zeros(k), None);
    Net(map[0 := Dns, 1 := Tcp(sock)], 0, map[1 := Conn(7, [], false, false, [], None)], FIRST_PORT + 1,
        map[7 := FRESH_PIPE.(queue := Ones(k), received := Zeros(k))], [Reply(7, Connected(1))], {}, cursor)
  }

  /** The connection gone, its last byte with it. */
  function Cut(): Net {
    Net(map[0 := Dns], 0, map[], FIRST_PORT + 1,
        map[7 := FRESH_PIPE.(queue := Ones(64), received := Zeros(64), senderAlive := false,
                             end := Some(End(Zeros(65), Zeros(1), [], [], [])))],
        [Reply(7, Connected(1))], {}, Idle)
  }

  /** Connect 7 established with 65 bytes to read, before its reply. */
  function Arrived(): Net {
    var n := Filling(0, Established, Idle);
    n.(conns := map[1 := Conn(7, [], true, false, [], None)], replies := [])
  }

  lemma ArriveStep()
    ensures Apply(First(SynSent, true, Idle), Progress(1, Established, 0, 0, Zeros(65), 100)) == Some(Arrived())
  {
    var n := First(SynSent, true, Idle);
    assert NewSock(FIRST_PORT).rx + Zeros(65) == Zeros(65) && NewSock(FIRST_PORT).arrived + Zeros(65) == Zeros(65);
    assert n.sockets[1 := Arrived().sockets[1]] == Arrived().sockets;
    assert Ones(0) == [] && Zeros(0) == [];
  }

  lemma AnsweredStep()
    ensures Apply(Arrived(), Answer(1)) == Some(Filling(0, Established, Serving(1, Sending, false)))
  {
    var n := Filling(0, Established, Idle);
    assert Arrived().conns[1 := n.conns[1]] == n.conns;
    assert Arrived().replies + n.replies == n.replies;
  }

  lemma FillStep(k: nat)
    requires k < 64
    ensures Apply(Filling(k, Established, Serving(1, Receiving, false)), RecvSome(1))
         == Some(Filling(k + 1, Established, Serving(1, Receiving, false)))
  {
    var n, n' := Filling(k, Established, Serving(1, Receiving, false)), Filling(k + 1, Established, Serving(1, Receiving, false));
    assert Zeros(65 - k)[1..] == Zeros(65 - k - 1) && Zeros(65 - k)[..1] == [0];
    assert Zeros(k) + [0] == Zeros(k + 1) && Ones(k) + [[0]] == Ones(k + 1);
    assert n.sockets[1 := n'.sockets[1]] == n'.sockets && n.pipes[7 := n'.pipes[7]] == n'.pipes;
  }

  lemma {:induction false} Filled(k: nat)
    requires k <= 64 && ClientReachable(Filling(0, Established, Serving(1, Receiving, false)))
    ensures ClientReachable(Filling(k, Established, Serving(1, Receiving, false)))
    decreases k
  {
    if k > 0 {
      Filled(k - 1);
      FillStep(k - 1);
      ClientStep(Filling(k - 1, Established, Serving(1, Receiving, false)), RecvSome(1),
                 Filling(k, Established, Serving(1, Receiving, false)));
    }
  }

  /** The steps of a service on a full channel that move nothing. */
  lemma IdleSteps(k: nat, state: TcpState)
    requires k <= 64
    ensures Apply(Filling(k, state, Serving(1, Sending, false)), EndSend) == Some(Filling(k, state, Serving(1, Receiving, false)))
    ensures k == 64 ==>
              Apply(Filling(k, state, Serving(1, Receiving, false)), EndRecv) == Some(Filling(k, state, Serving(1, Ending, false)))
    ensures Apply(Filling(k, state, Idle), Answer(1)) == Some(Filling(k, state, Serving(1, Sending, false)))
  {
    assert IsConn(Filling(k, state, Idle), 1);
  }

  lemma EndSteps()
    ensures Apply(Filling(64, Established, Serving(1, Ending, false)), Finish) == Some(Filling(64, Established, Idle))
    ensures Apply(Filling(64, Established, Idle), Progress(1, Closed, 0, 0, [], 36)) == Some(Filling(64, Closed, Idle))
    ensures Apply(Filling(64, Closed, Serving(1, Ending, false)), Finish) == Some(Cut())
  {
    var n, gone := Filling(64, Established, Idle), Filling(64, Closed, Idle);
    assert n.sockets[1 := n.sockets[1]] == n.sockets;
    assert Zeros(1) + [] == Zeros(1) && Zeros(65) + [] == Zeros(65);
    assert n.sockets[1 := gone.sockets[1]] == gone.sockets;
    assert gone.sockets - {1} == Cut().sockets && gone.conns - {1} == Cut().conns;
    assert gone.pipes[7 := Cut().pipes[7]] == Cut().pipes;
  }

  lemma FirstFull()
    ensures ClientReachable(Filling(64, Established, Idle))
  {
    assert Run(Start(0), []) == Some(Start(0)) && ClientRun(Start(0), []);
    OpenSteps();
    ArriveStep();
    AnsweredStep();
    IdleSteps(0, Established);
    IdleSteps(64, Established);
    EndSteps();
    ClientStep(Start(0), Connect(7, 1, true), First(SynSent, true, Idle));
    ClientStep(First(SynSent, true, Idle), Progress(1, Established, 0, 0, Zeros(65), 100), Arrived());
    ClientStep(Arrived(), Answer(1), Filling(0, Established, Serving(1, Sending, false)));
    ClientStep(Filling(0, Established, Serving(1, Sending, false)), EndSend, Filling(0, Established, Serving(1, Receiving, false)));
    Filled(64);
    ClientStep(Filling(64, Established, Serving(1, Receiving, false)), EndRecv, Filling(64, Established, Serving(1, Ending, false)));
    ClientStep(Filling(64, Established, Serving(1, Ending, false)), Finish, Filling(64, Established, Idle));
  }

  /** 65 bytes arrive, 64 one-byte chunks fill the channel, the peer closes: the removal takes the last
      byte with it, and all the reader will ever see is a clean end of stream after 64. */
  lemma LastByteLost()
    ensures ClientReachable(Cut()) && Truncated(Cut(), 7)
    ensures var p := Cut().pipes[7]; |p.end.value.arrived| == 65 && |p.received| == 64 && !p.senderAlive
  {
    FirstFull();
    IdleSteps(64, Closed);
    EndSteps();
    ClientStep(Filling(64, Established, Idle), Progress(1, Closed, 0, 0, [], 36), Filling(64, Closed, Idle));
    ClientStep(Filling(64, Closed, Idle), Answer(1), Filling(64, Closed, Serving(1, Sending, false)));
    ClientStep(Filling(64, Closed, Serving(1, Sending, false)), EndSend, Filling(64, Closed, Serving(1, Receiving, false)));
    ClientStep(Filling(64, Closed, Serving(1, Receiving, false)), EndRecv, Filling(64, Closed, Serving(1, Ending, false)));
    ClientStep(Filling(64, Closed, Serving(1, Ending, false)), Finish, Cut());
  }
}
