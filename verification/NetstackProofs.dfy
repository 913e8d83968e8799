/** Invariants of the netstack actor, over every interleaving of commands, polls, servicing and readers. */
module NetstackProofs {
  import opened Options
  import opened Varint
  import opened Arithmetic
  import opened Sequences
  import opened Netstack

  // ---- the invariant ------------------------------------------------------

  ghost predicate Distinct(n: Net) {
    forall h, k :: h in n.conns && k in n.conns && h != k ==> n.conns[h].id != n.conns[k].id
  }

  /** Socket-table agreement: the live handles are the connections' and the resolver's. */
  ghost predicate Table(n: Net) {
    && n.dnsHandle !in n.conns && n.dnsHandle in n.sockets && n.sockets[n.dnsHandle] == Dns
    && (forall h :: h in n.conns ==> h in n.sockets && n.sockets[h].Tcp?)
    && (forall h :: h in n.sockets ==> h == n.dnsHandle || h in n.conns)
  }

  ghost predicate LinkOk(n: Net, h: Handle)
    requires IsConn(n, h)
  {
    var sock, conn, pipe := n.sockets[h].sock, n.conns[h], n.pipes[n.conns[h].id];
    && sock.tx + conn.outBuf == conn.queued && sock.taken + sock.rx == sock.arrived
    && pipe.senderAlive && pipe.received == sock.taken
    && (conn.closing <==> conn.closeAt.Some?)
    && (conn.closing ==> conn.closeAt.value <= |conn.queued|)
    && (sock.fin.Some? ==> conn.closing && conn.closeAt.value <= sock.fin.value <= |sock.tx|)
  }

  ghost predicate ChunksOk(queue: seq<Chunk>) {
    forall i :: 0 <= i < |queue| ==> 1 <= |queue[i]| <= RECV_CHUNK
  }

  /** What a reader has been given, what it still holds and what is queued is all that was ever sent to it. */
  ghost predicate PipeOk(p: Pipe) {
    && p.readPos <= |p.readBuf|
    && p.out + p.readBuf[p.readPos..] + Flat(p.queue) == p.received
    && |p.queue| <= CHAN_DEPTH && ChunksOk(p.queue)
    && (p.senderAlive <==> p.end.None?)
    && (p.end.Some? ==> p.received + p.end.value.left == p.end.value.arrived &&
                        p.end.value.accepted + p.end.value.unsent == p.end.value.queued)
  }

  ghost predicate Owned(n: Net, id: nat) {
    exists h :: h in n.conns && n.conns[h].id == id
  }

  ghost predicate Held(n: Net, id: nat) {
    exists h :: h in n.conns && n.conns[h].id == id && n.conns[h].replyHeld
  }

  function Count(replies: seq<Reply>, id: nat): nat {
    if replies == [] then 0
    else Count(replies[..|replies| - 1], id) + if replies[|replies| - 1].id == id then 1 else 0
  }

  /** Every connect's reply is in exactly one place: held, sent, or dropped. */
  ghost predicate LedgerOk(n: Net, id: nat) {
    Count(n.replies, id) + One(Held(n, id)) + One(id in n.dropped) == One(id in n.pipes)
  }

  ghost predicate CursorOk(n: Net) {
    n.cursor.Serving? ==> n.cursor.h in n.conns && (n.cursor.remove ==> !n.conns[n.cursor.h].replyHeld)
  }

  ghost predicate Links(n: Net)
    requires Table(n)
  {
    forall h :: h in n.conns ==> n.conns[h].id in n.pipes && LinkOk(n, h)
  }

  /** Only a connection keeps its channel open. */
  ghost predicate Pipes(n: Net) {
    forall id :: id in n.pipes ==> PipeOk(n.pipes[id]) && (n.pipes[id].senderAlive ==> Owned(n, id))
  }

  ghost predicate Ledger(n: Net) {
    forall id :: LedgerOk(n, id)
  }

  ghost predicate Inv(n: Net) {
    && Table(n) && Distinct(n) && CursorOk(n) && Links(n) && Pipes(n) && Ledger(n)
    && FIRST_PORT <= n.nextPort <= LAST_PORT
  }

  // ---- channels -----------------------------------------------------------

  lemma {:induction false} FlatConcat(a: seq<Chunk>, b: seq<Chunk>)
    ensures Flat(a + b) == Flat(a) + Flat(b)
  {
    if a == [] {
      assert a + b == b;
    } else {
      FlatConcat(a[1..], b);
      assert (a + b)[1..] == a[1..] + b;
      Assoc(a[0], Flat(a[1..]), Flat(b));
    }
  }

  lemma PushKeeps(p: Pipe, chunk: Chunk)
    requires PipeOk(p) && p.senderAlive && HasPermit(p) && 1 <= |chunk| <= RECV_CHUNK
    ensures PipeOk(p.(queue := p.queue + [chunk], received := p.received + chunk))
  {
    FlatConcat(p.queue, [chunk]);
    assert Flat([chunk]) == chunk + Flat([]);
  }

  lemma PollKeeps(p: Pipe, space: nat)
    requires PipeOk(p)
    ensures PipeOk(PollRead(p, space).0)
    ensures PollRead(p, space).0.senderAlive == p.senderAlive && PollRead(p, space).0.received == p.received
  {
    if p.readPos == |p.readBuf| && p.queue != [] {
      var q := p.(readBuf := p.queue[0], readPos := 0, queue := p.queue[1..]);
      assert p.out + p.readBuf[p.readPos..] + Flat(p.queue) == q.out + q.readBuf[0..] + Flat(q.queue);
      HandOutKeeps(q, space);
    } else if p.readPos < |p.readBuf| {
      HandOutKeeps(p, space);
    }
  }

  lemma HandOutKeeps(p: Pipe, space: nat)
    requires PipeOk(p)
    ensures PipeOk(HandOut(p, space).0)
  {
    var n := Min(space, |p.readBuf| - p.readPos);
    assert p.readBuf[p.readPos..] == p.readBuf[p.readPos..p.readPos + n] + p.readBuf[p.readPos + n..];
  }

  // ---- preservation -------------------------------------------------------

  /** n' differs from n in connection h, its socket and its pipe only, and h keeps its id and its reply. */
  ghost predicate OnlyLink(n: Net, n': Net, h: Handle)
    requires IsConn(n, h)
  {
    && n'.dnsHandle == n.dnsHandle && n'.nextPort == n.nextPort && n'.replies == n.replies && n'.dropped == n.dropped
    && IsConn(n', h) && n'.conns[h].id == n.conns[h].id && n'.conns[h].replyHeld == n.conns[h].replyHeld
    && n'.sockets == n.sockets[h := n'.sockets[h]]
    && n'.conns == n.conns[h := n'.conns[h]]
    && n'.pipes == n.pipes[n.conns[h].id := n'.pipes[n.conns[h].id]]
  }

  lemma LinkMoves(n: Net, n': Net, h: Handle)
    requires Inv(n) && IsConn(n, h) && OnlyLink(n, n', h) && CursorOk(n')
    requires LinkOk(n', h) && PipeOk(n'.pipes[n.conns[h].id])
    ensures Inv(n')
  {
    SameTable(n, n', h);
    OtherLinks(n, n', h);
    OwnersStay(n, n');
    LedgerMoves(n, n', h);
  }

  lemma SameTable(n: Net, n': Net, h: Handle)
    requires Inv(n) && IsConn(n, h) && OnlyLink(n, n', h)
    ensures Table(n') && Distinct(n')
  {
  }

  lemma LedgerMoves(n: Net, n': Net, h: Handle)
    requires Inv(n) && IsConn(n, h) && OnlyLink(n, n', h)
    ensures Ledger(n')
  {
    assert LedgerOk(n, n.conns[h].id);
    SameHolders(n, n', n.conns[h].id);
    OtherLedger(n, n', n.conns[h].id);
  }

  /** Ledger entries other than id's are as they were. */
  lemma OtherLedger(n: Net, n': Net, id: nat)
    requires Ledger(n) && LedgerOk(n', id)
    requires forall j :: j != id ==> Count(n'.replies, j) == Count(n.replies, j)
    requires forall j :: j != id ==> (j in n'.dropped <==> j in n.dropped) && (j in n'.pipes <==> j in n.pipes)
    requires forall h :: h in n.conns && n.conns[h].id != id ==>
      h in n'.conns && n'.conns[h].id == n.conns[h].id && n'.conns[h].replyHeld == n.conns[h].replyHeld
    requires forall h :: h in n'.conns && n'.conns[h].id != id ==> h in n.conns && n.conns[h].id == n'.conns[h].id
    ensures Ledger(n')
  {
    forall j ensures LedgerOk(n', j) {
      if j != id {
        assert LedgerOk(n, j);
        SameHolders(n, n', j);
      }
    }
  }

  /** One more reply counts for its own connect only. */
  lemma CountSnoc(replies: seq<Reply>, reply: Reply)
    ensures forall id :: Count(replies + [reply], id) == Count(replies, id) + One(reply.id == id)
  {
    assert (replies + [reply])[..|replies + [reply]| - 1] == replies;
  }

  /** Connections other than h, with their sockets and pipes, are as they were. */
  lemma OtherLinks(n: Net, n': Net, h: Handle)
    requires Table(n) && Links(n) && Distinct(n) && Table(n')
    requires forall k :: k in n'.conns && k != h ==>
      k in n.conns && n'.conns[k] == n.conns[k] && n'.sockets[k] == n.sockets[k] &&
      n'.conns[k].id in n'.pipes && n'.pipes[n'.conns[k].id] == n.pipes[n.conns[k].id]
    requires h in n'.conns ==> n'.conns[h].id in n'.pipes && LinkOk(n', h)
    ensures Links(n')
  {
    forall k | k in n'.conns ensures n'.conns[k].id in n'.pipes && LinkOk(n', k) {
      if k != h {
        assert LinkOk(n, k);
      }
    }
  }

  /** No connection goes away, so every open channel keeps its owner. */
  lemma OwnersStay(n: Net, n': Net)
    requires forall k :: k in n.conns ==> k in n'.conns && n'.conns[k].id == n.conns[k].id
    ensures forall id :: Owned(n, id) ==> Owned(n', id)
  {
    forall id | Owned(n, id) ensures Owned(n', id) {
      var k :| k in n.conns && n.conns[k].id == id;
      assert k in n'.conns && n'.conns[k].id == id;
    }
  }

  /** The same connections hold the same replies. */
  lemma SameHolders(n: Net, n': Net, id: nat)
    requires forall h :: h in n.conns && n.conns[h].id == id ==>
      h in n'.conns && n'.conns[h].id == id && n'.conns[h].replyHeld == n.conns[h].replyHeld
    requires forall h :: h in n'.conns && n'.conns[h].id == id ==> h in n.conns && n.conns[h].id == id
    ensures Held(n, id) == Held(n', id)
  {
    if h :| h in n.conns && n.conns[h].id == id && n.conns[h].replyHeld {
      assert h in n'.conns && n'.conns[h].id == id && n'.conns[h].replyHeld;
    }
    if h :| h in n'.conns && n'.conns[h].id == id && n'.conns[h].replyHeld {
      assert h in n.conns && n.conns[h].id == id && n.conns[h].replyHeld;
    }
  }

  lemma SendKeeps(n: Net, h: Handle, data: seq<byte>)
    requires Inv(n) && HandleSend(n, h, data).Some?
    ensures Inv(HandleSend(n, h, data).value)
  {
    var n' := HandleSend(n, h, data).value;
    if h in n.conns {
      assert LinkOk(n, h);
      assert n'.conns[h].queued == n.sockets[h].sock.tx + n'.conns[h].outBuf;
      LinkMoves(n, n', h);
    }
  }

  lemma CloseKeeps(n: Net, h: Handle)
    requires Inv(n) && HandleClose(n, h).Some?
    ensures Inv(HandleClose(n, h).value)
  {
    if h in n.conns {
      assert LinkOk(n, h);
      LinkMoves(n, HandleClose(n, h).value, h);
    }
  }

  lemma ProgressKeeps(n: Net, e: Event)
    requires Inv(n) && e.Progress? && Apply(n, e).Some?
    ensures Inv(Apply(n, e).value)
  {
    assert LinkOk(n, e.h);
    LinkMoves(n, Apply(n, e).value, e.h);
  }

  lemma SendStepKeeps(n: Net, k: nat)
    requires Inv(n) && SendStep(n, k).Some?
    ensures Inv(SendStep(n, k).value)
  {
    var h := n.cursor.h;
    var conn := n.conns[h];
    assert LinkOk(n, h);
    assert n.sockets[h].sock.tx + conn.outBuf == n.sockets[h].sock.tx + conn.outBuf[..k] + conn.outBuf[k..];
    LinkMoves(n, SendStep(n, k).value, h);
  }

  lemma RecvStepKeeps(n: Net, k: nat)
    requires Inv(n) && RecvStep(n, k).Some?
    ensures Inv(RecvStep(n, k).value)
  {
    var h := n.cursor.h;
    assert LinkOk(n, h);
    PushKeeps(n.pipes[n.conns[h].id], n.sockets[h].sock.rx[..k]);
    LinkMoves(n, RecvStep(n, k).value, h);
  }

  lemma StageKeeps(n: Net, e: Event)
    requires Inv(n) && (e.EndSend? || e.EndRecv?) && Apply(n, e).Some?
    ensures Inv(Apply(n, e).value)
  {
    assert LinkOk(n, n.cursor.h);
    LinkMoves(n, Apply(n, e).value, n.cursor.h);
  }

  lemma FinishKeeps(n: Net)
    requires Inv(n) && FinishService(n).Some?
    ensures Inv(FinishService(n).value)
  {
    var n', h := FinishService(n).value, n.cursor.h;
    assert LinkOk(n, h);
    if h in n'.conns {
      LinkMoves(n, n', h);
    } else {
      RemovalKeeps(n, n', h);
    }
  }

  /** n' is n without connection h: its socket freed, its channel closed, its reply dropped if still held. */
  ghost predicate Removed(n: Net, n': Net, h: Handle)
    requires IsConn(n, h)
  {
    && n'.cursor == Idle && n'.dnsHandle == n.dnsHandle && n'.nextPort == n.nextPort && n'.replies == n.replies
    && n'.sockets == n.sockets - {h} && n'.conns == n.conns - {h}
    && n'.pipes == n.pipes[n.conns[h].id := Ended(n.pipes[n.conns[h].id], AfterService(n.sockets[h].sock, n.conns[h]), n.conns[h])]
    && n'.dropped == if n.conns[h].replyHeld then n.dropped + {n.conns[h].id} else n.dropped
  }

  lemma RemovalKeeps(n: Net, n': Net, h: Handle)
    requires Inv(n) && IsConn(n, h) && Removed(n, n', h)
    ensures Inv(n')
  {
    assert Table(n') && Distinct(n') && LinkOk(n, h);
    OtherLinks(n, n', h);
    RemovalPipes(n, n', h);
    RemovalLedger(n, n', h);
  }

  lemma RemovalPipes(n: Net, n': Net, h: Handle)
    requires Pipes(n) && IsConn(n, h) && LinkOk(n, h) && Removed(n, n', h)
    ensures Pipes(n')
  {
    forall id | id in n'.pipes ensures PipeOk(n'.pipes[id]) && (n'.pipes[id].senderAlive ==> Owned(n', id)) {
      if id != n.conns[h].id && Owned(n, id) {
        var k :| k in n.conns && n.conns[k].id == id;
        assert k in n'.conns && n'.conns[k].id == id;
      }
    }
  }

  lemma RemovalLedger(n: Net, n': Net, h: Handle)
    requires Ledger(n) && Distinct(n) && IsConn(n, h) && Removed(n, n', h)
    ensures Ledger(n')
  {
    HolderIs(n, h);
    assert LedgerOk(n, n.conns[h].id);
    assert !Held(n', n.conns[h].id);
    OtherLedger(n, n', n.conns[h].id);
  }

  /** A connection's reply is held iff the connection says so. */
  lemma HolderIs(n: Net, h: Handle)
    requires Distinct(n) && h in n.conns
    ensures Held(n, n.conns[h].id) == n.conns[h].replyHeld
  {
  }

  /** A reply leaves its connection and enters the list of sent ones. */
  lemma ReplyKeeps(n: Net, n': Net, h: Handle, outcome: Outcome)
    requires Inv(n) && IsConn(n, h) && n.conns[h].replyHeld && CursorOk(n')
    requires n' == n.(conns := n.conns[h := n.conns[h].(replyHeld := false)],
                      replies := n.replies + [Reply(n.conns[h].id, outcome)], cursor := n'.cursor)
    ensures Inv(n')
  {
    assert LinkOk(n, h);
    assert Table(n') && Distinct(n');
    OtherLinks(n, n', h);
    OwnersStay(n, n');
    ReplyLedgerKeeps(n, n', h, outcome);
  }

  lemma ReplyLedgerKeeps(n: Net, n': Net, h: Handle, outcome: Outcome)
    requires Ledger(n) && Distinct(n) && Distinct(n') && h in n.conns && n.conns[h].replyHeld
    requires n' == n.(conns := n.conns[h := n.conns[h].(replyHeld := false)],
                      replies := n.replies + [Reply(n.conns[h].id, outcome)], cursor := n'.cursor)
    ensures Ledger(n')
  {
    CountSnoc(n.replies, Reply(n.conns[h].id, outcome));
    HolderIs(n, h);
    HolderIs(n', h);
    assert LedgerOk(n, n.conns[h].id);
    OtherLedger(n, n', n.conns[h].id);
  }

  lemma AnswerKeeps(n: Net, h: Handle)
    requires Inv(n) && AnswerConnect(n, h).Some?
    ensures Inv(AnswerConnect(n, h).value)
  {
    var n' := AnswerConnect(n, h).value;
    if n'.replies == n.replies {
      assert LinkOk(n, h);
      LinkMoves(n, n', h);
    } else {
      ReplyKeeps(n, n', h, n'.replies[|n.replies|].outcome);
    }
  }

  lemma ConnectKeeps(n: Net, id: nat, slot: Handle, accepted: bool)
    requires Inv(n) && HandleConnect(n, id, slot, accepted).Some?
    ensures Inv(HandleConnect(n, id, slot, accepted).value)
  {
    ConnectTables(n, id, slot, accepted);
    ConnectLinks(n, id, slot, accepted);
    ConnectPipes(n, id, slot, accepted);
    ConnectLedger(n, id, slot, accepted);
  }

  lemma ConnectTables(n: Net, id: nat, slot: Handle, accepted: bool)
    requires Inv(n) && HandleConnect(n, id, slot, accepted).Some?
    ensures Table(HandleConnect(n, id, slot, accepted).value) && Distinct(HandleConnect(n, id, slot, accepted).value)
  {
    forall h | h in n.conns ensures n.conns[h].id != id {
      assert LinkOk(n, h);
    }
  }

  lemma ConnectLinks(n: Net, id: nat, slot: Handle, accepted: bool)
    requires Inv(n) && HandleConnect(n, id, slot, accepted).Some? && Table(HandleConnect(n, id, slot, accepted).value)
    ensures Links(HandleConnect(n, id, slot, accepted).value)
  {
    var n' := HandleConnect(n, id, slot, accepted).value;
    if accepted {
      NewLink(n, n', id, slot);
    }
    OtherLinks(n, n', slot);
  }

  lemma NewLink(n: Net, n': Net, id: nat, slot: Handle)
    requires HandleConnect(n, id, slot, true) == Some(n')
    ensures IsConn(n', slot) && LinkOk(n', slot)
  {
  }

  lemma ConnectPipes(n: Net, id: nat, slot: Handle, accepted: bool)
    requires Inv(n) && HandleConnect(n, id, slot, accepted).Some?
    ensures Pipes(HandleConnect(n, id, slot, accepted).value)
  {
    var n' := HandleConnect(n, id, slot, accepted).value;
    OwnersStay(n, n');
    assert accepted ==> slot in n'.conns && n'.conns[slot].id == id;
  }

  lemma ConnectLedger(n: Net, id: nat, slot: Handle, accepted: bool)
    requires Inv(n) && HandleConnect(n, id, slot, accepted).Some?
    requires Distinct(HandleConnect(n, id, slot, accepted).value)
    ensures Ledger(HandleConnect(n, id, slot, accepted).value)
  {
    if accepted {
      AcceptedLedger(n, HandleConnect(n, id, slot, true).value, id, slot);
    } else {
      RefusedLedger(n, HandleConnect(n, id, slot, false).value, id, slot);
    }
  }

  lemma AcceptedLedger(n: Net, n': Net, id: nat, slot: Handle)
    requires Ledger(n) && Table(n) && HandleConnect(n, id, slot, true) == Some(n') && Distinct(n')
    ensures Ledger(n')
  {
    assert LedgerOk(n, id);
    HolderIs(n', slot);
    OtherLedger(n, n', id);
  }

  lemma RefusedLedger(n: Net, n': Net, id: nat, slot: Handle)
    requires Ledger(n) && HandleConnect(n, id, slot, false) == Some(n')
    ensures Ledger(n')
  {
    assert LedgerOk(n, id);
    CountSnoc(n.replies, Reply(id, Refused));
    SameHolders(n, n', id);
    OtherLedger(n, n', id);
  }

  /** A step of the reading side leaves everything but the pipe alone. */
  lemma ReaderKeeps(n: Net, id: nat, pipe: Pipe)
    requires Inv(n) && id in n.pipes && PipeOk(pipe)
    requires pipe.senderAlive == n.pipes[id].senderAlive && pipe.received == n.pipes[id].received
    ensures Inv(SetPipe(n, id, pipe))
  {
    var n' := SetPipe(n, id, pipe);
    assert Table(n') && Distinct(n');
    forall k | k in n'.conns ensures n'.conns[k].id in n'.pipes && LinkOk(n', k) {
      assert LinkOk(n, k);
    }
    OwnersStay(n, n');
    PipeLedger(n, n');
  }

  lemma PipeLedger(n: Net, n': Net)
    requires Ledger(n) && n'.conns == n.conns && n'.replies == n.replies && n'.dropped == n.dropped
    requires n'.pipes.Keys == n.pipes.Keys
    ensures Ledger(n')
  {
    forall id ensures LedgerOk(n', id) {
      assert LedgerOk(n, id);
      SameHolders(n, n', id);
    }
  }

  lemma StepKeeps(n: Net, e: Event)
    requires Inv(n) && Apply(n, e).Some?
    ensures Inv(Apply(n, e).value)
  {
    match e
    case Connect(id, slot, accepted) => ConnectKeeps(n, id, slot, accepted);
    case Send(_, h, data) => SendKeeps(n, h, data);
    case Close(_, h) => CloseKeeps(n, h);
    case Progress(_, _, _, _, _, _) => ProgressKeeps(n, e);
    case Answer(h) => AnswerKeeps(n, h);
    case SendSome(k) => SendStepKeeps(n, k);
    case EndSend => StageKeeps(n, e);
    case RecvSome(k) => RecvStepKeeps(n, k);
    case EndRecv => StageKeeps(n, e);
    case Finish => FinishKeeps(n);
    case ReaderPolls(id, space) =>
      PollKeeps(n.pipes[id], space);
      ReaderKeeps(n, id, PollRead(n.pipes[id], space).0);
    case ReaderHangsUp(id) => ReaderKeeps(n, id, n.pipes[id].(receiverAlive := false));
  }

  lemma {:induction false} RunKeeps(n: Net, es: seq<Event>)
    requires Inv(n) && Run(n, es).Some?
    ensures Inv(Run(n, es).value)
    decreases |es|
  {
    if es != [] {
      RunKeeps(n, es[..|es| - 1]);
      StepKeeps(Run(n, es[..|es| - 1]).value, es[|es| - 1]);
    }
  }
}
