/** What the netstack actor guarantees in every state some run reaches. */
module NetstackTheorems {
  import opened Options
  import opened Netstack
  import opened NetstackProofs

  ghost predicate Reachable(n: Net) {
    exists dns, es :: Run(Start(dns), es) == Some(n)
  }

  lemma StartInv(dns: Handle)
    ensures Inv(Start(dns))
  {
  }

  lemma ReachableInv(n: Net)
    requires Reachable(n)
    ensures Inv(n)
  {
    var dns, es :| Run(Start(dns), es) == Some(n);
    StartInv(dns);
    RunKeeps(Start(dns), es);
  }

  /** Outbound conservation: what the socket accepted, followed by what still waits, is exactly
      the data of every Send handled for the connection: nothing lost, doubled or reordered. */
  lemma OutboundConserved(n: Net, h: Handle)
    requires Reachable(n) && h in n.conns
    ensures h in n.sockets && n.sockets[h].Tcp?
    ensures n.sockets[h].sock.tx + n.conns[h].outBuf == n.conns[h].queued
  {
    ReachableInv(n);
    assert LinkOk(n, h);
  }

  /** No FIN ahead of data: a socket is closed for sending only after a Close was handled and at a
      point where it holds every byte queued before that Close, and those bytes are unchanged. */
  lemma FinAfterData(n: Net, h: Handle)
    requires Reachable(n) && h in n.conns && h in n.sockets && n.sockets[h].Tcp? && n.sockets[h].sock.fin.Some?
    ensures var sock, conn := n.sockets[h].sock, n.conns[h];
            && conn.closeAt.Some? && conn.closeAt.value <= sock.fin.value <= |sock.tx| <= |conn.queued|
            && sock.tx[..conn.closeAt.value] == conn.queued[..conn.closeAt.value]
  {
    ReachableInv(n);
    assert LinkOk(n, h);
  }

  /** Every close(), the first or a later one, whether the connection goes on or is removed with it:
      it is issued iff the connection was asked to close and every byte queued so far is in the socket. */
  lemma CloseIsDrained(n: Net)
    requires Reachable(n) && FinishService(n).Some?
    ensures var conn, sock := n.conns[n.cursor.h], n.sockets[n.cursor.h].sock;
            && (CallsClose(conn) <==> conn.closing && sock.tx == conn.queued)
            && (n.cursor.h in FinishService(n).value.conns ==>
                  FinishService(n).value.sockets[n.cursor.h].sock.fin
                    == if sock.fin.None? && conn.closing && sock.tx == conn.queued then Some(|conn.queued|) else sock.fin)
  {
    ReachableInv(n);
    var h := n.cursor.h;
    assert LinkOk(n, h);
    var sock, conn := n.sockets[h].sock, n.conns[h];
    assert sock.tx == conn.queued ==> |conn.outBuf| == 0;
    assert conn.outBuf == [] ==> sock.tx == conn.queued;
  }

  /** The service of a connection is past its sending loop only with nothing left to send, or a socket
      that is full or takes nothing. */
  ghost predicate Thorough(n: Net) {
    n.cursor.Serving? && n.cursor.stage != Sending && IsConn(n, n.cursor.h) ==>
      n.conns[n.cursor.h].outBuf == [] || n.sockets[n.cursor.h].sock.room == 0 || n.sockets[n.cursor.h].sock.accepts == 0
  }

  /** When the sending loop ends: nothing left, the socket full, or a send that takes nothing. */
  lemma SendingEnds(n: Net)
    requires Apply(n, EndSend).Some?
    ensures IsConn(n, n.cursor.h)
    ensures n.conns[n.cursor.h].outBuf == [] || n.sockets[n.cursor.h].sock.room == 0 || n.sockets[n.cursor.h].sock.accepts == 0
  {
  }

  /** When the receiving loop ends: nothing readable, a read that yields nothing, or no permit, that is
      64 chunks in the channel or nobody to read them. */
  lemma ReceivingEnds(n: Net)
    requires Apply(n, EndRecv).Some?
    ensures IsConn(n, n.cursor.h)
    ensures var sock, pipe := n.sockets[n.cursor.h].sock, n.pipes[n.conns[n.cursor.h].id];
            sock.rx == [] || sock.gives == 0 || |pipe.queue| >= 64 || !pipe.receiverAlive
  {
  }

  lemma ThoroughStep(n: Net, e: Event)
    requires Thorough(n) && Apply(n, e).Some?
    ensures Thorough(Apply(n, e).value)
  {
  }

  lemma {:induction false} AlwaysThorough(dns: Handle, es: seq<Event>)
    requires Run(Start(dns), es).Some?
    ensures Thorough(Run(Start(dns), es).value)
    decreases |es|
  {
    if es != [] {
      AlwaysThorough(dns, es[..|es| - 1]);
      ThoroughStep(Run(Start(dns), es[..|es| - 1]).value, es[|es| - 1]);
    }
  }

  /** Outbound progress: after a whole service of h, whatever a connection that stays still holds back is
      held back by its socket, and one that was asked to close and is not held back has been closed. */
  lemma ServiceMakesProgress(n: Net, h: Handle)
    requires Reachable(n) && n.cursor.Serving? && n.cursor.h == h && FinishService(n).Some?
    requires h in FinishService(n).value.conns
    ensures var n', sock := FinishService(n).value, FinishService(n).value.sockets[h].sock;
            && IsConn(n', h)
            && (n'.conns[h].outBuf != [] ==> sock.room == 0 || sock.accepts == 0)
            && (n'.conns[h].closing && sock.room > 0 && sock.accepts > 0 ==> sock.fin.Some? && sock.tx == n'.conns[h].queued)
  {
    ReachableInv(n);
    assert LinkOk(n, h);
    var dns, es :| Run(Start(dns), es) == Some(n);
    AlwaysThorough(dns, es);
  }

  /** Inbound conservation with backpressure, for every connection there ever was: handed out, then
      unread, then queued is exactly what was taken from the socket; the channel holds at most 64
      chunks of 1 to 8192 bytes; while the connection lives, that and what is readable in its socket is
      everything that has arrived. */
  lemma InboundConserved(n: Net, id: nat)
    requires Reachable(n) && id in n.pipes
    ensures var p := n.pipes[id];
            && p.readPos <= |p.readBuf| && p.out + p.readBuf[p.readPos..] + Flat(p.queue) == p.received
            && |p.queue| <= 64 && forall i :: 0 <= i < |p.queue| ==> 1 <= |p.queue[i]| <= 8192
    ensures forall h :: h in n.conns && n.conns[h].id == id ==>
              && h in n.sockets && n.sockets[h].Tcp? && n.sockets[h].sock.taken == n.pipes[id].received
              && n.pipes[id].received + n.sockets[h].sock.rx == n.sockets[h].sock.arrived
  {
    ReachableInv(n);
    assert PipeOk(n.pipes[id]);
    forall h | h in n.conns && n.conns[h].id == id
      ensures h in n.sockets && n.sockets[h].Tcp? && n.sockets[h].sock.taken == n.pipes[id].received
      ensures n.pipes[id].received + n.sockets[h].sock.rx == n.sockets[h].sock.arrived
    {
      assert LinkOk(n, h);
    }
  }

  /** What a stream has got when its connection is gone: everything taken from the socket, and so all
      that ever arrived iff the removal found nothing readable in the socket. Outbound likewise: the
      socket had accepted all that was queued iff nothing waited at the removal. */
  lemma EndOfStream(n: Net, id: nat)
    requires Reachable(n) && id in n.pipes && forall h :: h in n.conns ==> n.conns[h].id != id
    ensures var p := n.pipes[id];
            && p.end.Some? && p.received + p.end.value.left == p.end.value.arrived
            && (p.out == p.received ==> (p.out == p.end.value.arrived <==> p.end.value.left == []))
            && p.end.value.accepted + p.end.value.unsent == p.end.value.queued
            && (p.end.value.accepted == p.end.value.queued <==> p.end.value.unsent == [])
  {
    ReachableInv(n);
    var p := n.pipes[id];
    assert PipeOk(p);
    assert p.senderAlive ==> Owned(n, id);
    assert p.end.value.left != [] ==> |p.received| < |p.end.value.arrived|;
    assert p.end.value.unsent != [] ==> |p.end.value.accepted| < |p.end.value.queued|;
  }

  /** poll_read into a non-empty buffer yields no bytes exactly at end of stream: the connection is
      gone and every byte ever taken from its socket has been handed out. (Whether those are all bytes that
      arrived is EndOfStream's question.) */
  lemma EmptyReadIsEof(n: Net, id: nat, space: nat)
    requires Reachable(n) && id in n.pipes && space > 0
    ensures PollRead(n.pipes[id], space).1 == Ready([])
       <==> (forall h :: h in n.conns ==> n.conns[h].id != id) && n.pipes[id].out == n.pipes[id].received
  {
    ReachableInv(n);
    var p := n.pipes[id];
    assert PipeOk(p);
    if h :| h in n.conns && n.conns[h].id == id {
      assert LinkOk(n, h);
    }
    if !p.senderAlive {
      assert forall h :: h in n.conns ==> n.conns[h].id != id by {
        forall h | h in n.conns ensures n.conns[h].id != id {
          assert LinkOk(n, h);
        }
      }
    }
    if p.queue != [] {
      assert |Flat(p.queue)| >= |p.queue[0]|;
    }
  }

  /** Socket-table agreement, so no lookup of a listed connection can fail. */
  lemma TableAgrees(n: Net)
    requires Reachable(n)
    ensures n.sockets.Keys == n.conns.Keys + {n.dnsHandle} && n.dnsHandle !in n.conns
    ensures n.sockets[n.dnsHandle] == Dns && forall h :: h in n.conns ==> n.sockets[h].Tcp?
  {
    ReachableInv(n);
  }

  // ---- connect replies ----------------------------------------------------

  /** Every connect has its reply in exactly one place: held by a live connection, sent once, or dropped. */
  lemma ReplyLedger(n: Net, id: nat)
    requires Reachable(n) && id in n.pipes
    ensures Count(n.replies, id) <= 1
    ensures Held(n, id) <==> Count(n.replies, id) == 0 && id !in n.dropped
    ensures id in n.dropped ==> Count(n.replies, id) == 0
  {
    ReachableInv(n);
    assert LedgerOk(n, id);
  }

  /** At event i of the run the actor serviced handle h, saw its socket established and its reply pending. */
  ghost predicate SawEstablished(n: Net, es: seq<Event>, i: nat, reply: Reply)
    requires i < |es|
  {
    Run(n, es[..i]).Some? && es[i].Answer? && reply.outcome == Connected(es[i].h) &&
    var before := Run(n, es[..i]).value;
    IsConn(before, es[i].h) && before.sockets[es[i].h].sock.state == Established &&
    before.conns[es[i].h].replyHeld && before.conns[es[i].h].id == reply.id
  }

  /** Success is only ever reported on an observed Established, to the connect it belongs to. */
  lemma {:induction false} OkMeansEstablished(n: Net, es: seq<Event>, reply: Reply)
    requires Run(n, es).Some? && reply in Run(n, es).value.replies && reply !in n.replies && reply.outcome.Connected?
    ensures exists i :: 0 <= i < |es| && SawEstablished(n, es, i, reply)
    decreases |es|
  {
    if es != [] {
      var last := |es| - 1;
      var mid := Run(n, es[..last]).value;
      if reply in mid.replies {
        OkMeansEstablished(n, es[..last], reply);
        var i :| 0 <= i < last && SawEstablished(n, es[..last], i, reply);
        assert es[..last][..i] == es[..i];
        assert SawEstablished(n, es, i, reply);
      } else {
        NewReply(mid, es[last], reply);
        assert SawEstablished(n, es, last, reply);
      }
    }
  }

  lemma NewReply(n: Net, e: Event, reply: Reply)
    requires Apply(n, e).Some? && reply in Apply(n, e).value.replies && reply !in n.replies && reply.outcome.Connected?
    ensures e.Answer? && reply.outcome == Connected(e.h) && IsConn(n, e.h)
    ensures n.sockets[e.h].sock.state == Established && n.conns[e.h].replyHeld && n.conns[e.h].id == reply.id
  {
  }

  /** In the middle of a service an unanswered connect has a live socket that is not yet established. */
  ghost predicate Attentive(n: Net) {
    n.cursor.Serving? && IsConn(n, n.cursor.h) && n.conns[n.cursor.h].replyHeld ==>
      IsActive(n.sockets[n.cursor.h].sock.state) && n.sockets[n.cursor.h].sock.state != Established
  }

  lemma AttentiveStep(n: Net, e: Event)
    requires Attentive(n) && Apply(n, e).Some?
    ensures Attentive(Apply(n, e).value)
  {
  }

  lemma {:induction false} AlwaysAttentive(dns: Handle, es: seq<Event>)
    requires Run(Start(dns), es).Some?
    ensures Attentive(Run(Start(dns), es).value)
    decreases |es|
  {
    if es != [] {
      AlwaysAttentive(dns, es[..|es| - 1]);
      AttentiveStep(Run(Start(dns), es[..|es| - 1]).value, es[|es| - 1]);
    }
  }

  /** Exactly when a step drops a reply unanswered: the end of a service closes a connection that was
      asked to close, has nothing queued, and is still in SynSent with its connect unanswered. */
  lemma DroppedIff(n: Net, e: Event)
    requires Reachable(n) && Apply(n, e).Some?
    ensures Apply(n, e).value.dropped != n.dropped <==>
              e.Finish? && n.conns[n.cursor.h].replyHeld && CallsClose(n.conns[n.cursor.h]) &&
              n.sockets[n.cursor.h].sock.state == SynSent
    ensures Apply(n, e).value.dropped != n.dropped ==>
              Apply(n, e).value.dropped == n.dropped + {n.conns[n.cursor.h].id}
  {
    ReachableInv(n);
    if e.Finish? {
      var dns, es :| Run(Start(dns), es) == Some(n);
      AlwaysAttentive(dns, es);
      FinishDrops(n);
    }
  }

  lemma FinishDrops(n: Net)
    requires Inv(n) && Attentive(n) && FinishService(n).Some?
    ensures FinishService(n).value.dropped != n.dropped <==>
              n.conns[n.cursor.h].replyHeld && CallsClose(n.conns[n.cursor.h]) &&
              n.sockets[n.cursor.h].sock.state == SynSent
    ensures FinishService(n).value.dropped != n.dropped ==>
              FinishService(n).value.dropped == n.dropped + {n.conns[n.cursor.h].id}
  {
    var h := n.cursor.h;
    HolderIs(n, h);
    assert LedgerOk(n, n.conns[h].id);
    assert LinkOk(n, h);
  }

  lemma ReachableStep(n: Net, e: Event)
    requires Reachable(n) && Apply(n, e).Some?
    ensures Reachable(Apply(n, e).value)
  {
    var dns, es :| Run(Start(dns), es) == Some(n);
    assert (es + [e])[..|es + [e]| - 1] == es;
    assert Run(Start(dns), es + [e]) == Apply(n, e);
  }
}
