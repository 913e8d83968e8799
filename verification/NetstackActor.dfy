/** The actor object: its methods, as they run against smoltcp's contracts, take exactly the steps of
    the Netstack and Resolver state machines, so everything proved there holds of it. */
module NetstackActor {
  import opened Options
  import opened Varint
  import opened Netstack
  import opened NetstackProofs
  import opened NetstackTheorems
  import Resolver

  predicate InService(e: Event) {
    e.Answer? || e.SendSome? || e.EndSend? || e.RecvSome? || e.EndRecv? || e.Finish? || e.ReaderPolls? || e.ReaderHangsUp?
  }

  /** The connections serviced in a run of events, in order. */
  function Serviced(es: seq<Event>): seq<Handle> {
    if es == [] then []
    else Serviced(es[..|es| - 1]) + if es[|es| - 1].Answer? then [es[|es| - 1].h] else []
  }

  predicate OnlyService(es: seq<Event>) {
    forall i :: 0 <= i < |es| ==> InService(es[i])
  }

  /** From `start`, the service events `es` (and readers' between them) lead to n and serve `order`. */
  ghost predicate Trace(start: Net, es: seq<Event>, n: Net, order: seq<Handle>) {
    Run(start, es) == Some(n) && OnlyService(es) && Serviced(es) == order
  }

  lemma TraceStep(start: Net, es: seq<Event>, mid: Net, order: seq<Handle>, e: Event, next: Net)
    requires Trace(start, es, mid, order) && InService(e) && Apply(mid, e) == Some(next)
    ensures Trace(start, es + [e], next, order + if e.Answer? then [e.h] else [])
  {
    assert (es + [e])[..|es + [e]| - 1] == es;
  }

  const UNUSED := NewSock(0).(state := Closed)

  /** Adding a socket and freeing it again on a refused connect leaves the table as it was. */
  lemma ConnectIs(n: Net, id: nat, slot: Handle, accepted: bool, n': Net)
    requires n.cursor == Idle && slot !in n.sockets && id !in n.pipes
    requires n'.dnsHandle == n.dnsHandle && n'.nextPort == NextPort(n.nextPort) && n'.dropped == n.dropped && n'.cursor == Idle
    requires accepted ==> n'.sockets == n.sockets[slot := Tcp(UNUSED)][slot := Tcp(NewSock(n.nextPort))] &&
                          n'.conns == n.conns[slot := Conn(id, [], true, false, [], None)] && n'.replies == n.replies
    requires !accepted ==> n'.sockets == n.sockets[slot := Tcp(UNUSED)] - {slot} &&
                           n'.conns == n.conns && n'.replies == n.replies + [Reply(id, Refused)]
    requires n'.pipes == n.pipes[id := if accepted then FRESH_PIPE else CLOSED_PIPE]
    ensures Apply(n, Connect(id, slot, accepted)) == Some(n')
  {
    if accepted {
      assert n'.sockets == n.sockets[slot := Tcp(NewSock(n.nextPort))];
    } else {
      assert n'.sockets == n.sockets;
    }
  }

  class Actor {
    var sockets: map<Handle, Socket>
    var dnsHandle: Handle
    var conns: map<Handle, Conn>
    var nextPort: nat
    var pipes: map<nat, Pipe>            // the channels, shared with the readers
    var queries: map<nat, Resolver.Status>  // the DNS socket's slots
    var dnsPending: seq<Resolver.Waiting>
    ghost var replies: seq<Reply>
    ghost var dropped: set<nat>
    ghost var cursor: Cursor
    ghost var dnsReplies: seq<Resolver.Reply>

    ghost function View(): Net
      reads this
    {
      Net(sockets, dnsHandle, conns, nextPort, pipes, replies, dropped, cursor)
    }

    ghost function DnsView(): Resolver.Dns
      reads this
    {
      Resolver.Dns(queries, dnsPending, dnsReplies)
    }

    ghost predicate Valid()
      reads this
    {
      Reachable(View()) && cursor == Idle && Resolver.Reachable(DnsView())
    }

    constructor (dnsHandle: Handle)
      ensures Valid() && View() == Start(dnsHandle) && DnsView() == Resolver.START
    {
      this.dnsHandle := dnsHandle;
      sockets, conns, pipes := map[dnsHandle := Dns], map[], map[];
      nextPort := FIRST_PORT;
      queries, dnsPending := map[], [];
      replies, dropped, cursor, dnsReplies := [], {}, Idle, [];
      new;
      assert Run(Start(dnsHandle), []) == Some(View());
      assert Resolver.Run(Resolver.START, []) == Some(DnsView());
    }

    method NextEphemeralPort() returns (p: nat)
      requires FIRST_PORT <= nextPort <= LAST_PORT
      modifies this`nextPort
      ensures p == old(nextPort) && nextPort == NextPort(p) && FIRST_PORT <= nextPort <= LAST_PORT
    {
      p := nextPort;
      nextPort := if nextPort == 65535 then 49152 else nextPort + 1;
    }

    /** `slot` is the handle sockets.add returns, `accepted` whether connect() succeeds. */
    method HandleConnect(id: nat, slot: Handle, accepted: bool) returns (port: nat)
      requires Valid() && slot !in sockets && id !in pipes
      modifies this`sockets, this`conns, this`pipes, this`nextPort, this`replies
      ensures Valid()
      ensures Apply(old(View()), Connect(id, slot, accepted)) == Some(View())
      ensures port == old(nextPort)  // the local port of the new socket
    {
      ghost var before := View();
      ReachableInv(before);
      sockets := sockets[slot := Tcp(UNUSED)];
      port := NextEphemeralPort();
      if accepted {
        sockets := sockets[slot := Tcp(NewSock(port))];
        conns := conns[slot := Conn(id, [], true, false, [], None)];
        pipes := pipes[id := FRESH_PIPE];
      } else {
        sockets := sockets - {slot};
        pipes := pipes[id := CLOSED_PIPE];  // from_net goes with the command
        replies := replies + [Reply(id, Refused)];
      }
      ConnectIs(before, id, slot, accepted, View());
      ReachableStep(before, Connect(id, slot, accepted));
    }

    method HandleSend(ghost from: nat, h: Handle, data: seq<byte>)
      requires Valid()
      modifies this`conns
      ensures Valid() && Apply(old(View()), Send(from, h, data)) == Some(View())
    {
      ghost var before := View();
      if h in conns {
        conns := conns[h := conns[h].(outBuf := conns[h].outBuf + data, queued := conns[h].queued + data)];
      }
      ReachableStep(before, Send(from, h, data));
    }

    method HandleClose(ghost from: nat, h: Handle)
      requires Valid()
      modifies this`conns
      ensures Valid() && Apply(old(View()), Close(from, h)) == Some(View())
    {
      ghost var before := View();
      if h in conns {
        var closeAt := if conns[h].closing then conns[h].closeAt else Some(|conns[h].queued|);
        conns := conns[h := conns[h].(closing := true, closeAt := closeAt)];
      }
      ReachableStep(before, Close(from, h));
    }

    /** `literal` is the address the name parses as, `slot` what start_query returns. */
    method HandleResolve(id: nat, literal: Option<Resolver.Ip>, slot: Option<nat>)
      requires Valid() && !Resolver.Asked(DnsView(), id) && (slot.Some? ==> slot.value !in queries)
      modifies this`queries, this`dnsPending, this`dnsReplies
      ensures Valid() && Resolver.Apply(old(DnsView()), Resolver.Resolve(id, literal, slot)) == Some(DnsView())
    {
      ghost var before := DnsView();
      if literal.Some? {
        dnsReplies := dnsReplies + [Resolver.Reply(id, Resolver.Address(literal.value))];
      } else {
        match slot
        case Some(query) =>
          queries := queries[query := Resolver.InFlight];
          dnsPending := dnsPending + [Resolver.Waiting(query, id)];
        case None => dnsReplies := dnsReplies + [Resolver.Reply(id, Resolver.BadQuery)];
      }
      Resolver.ReachableStep(before, Resolver.Resolve(id, literal, slot));
    }

    // ---- the readers, running beside the actor ----------------------------

    method ReadersRun(ghost start: Net, ghost es0: seq<Event>, ghost order: seq<Handle>) returns (ghost es: seq<Event>)
      requires Trace(start, es0, View(), order)
      modifies this`pipes
      ensures Trace(start, es, View(), order) && pipes.Keys == old(pipes.Keys)
    {
      es := es0;
      var turns: nat := *;
      while turns > 0 && |pipes| > 0
        invariant Trace(start, es, View(), order) && pipes.Keys == old(pipes.Keys)
      {
        var id :| id in pipes;
        es := ReaderTurn(start, es, order, id);
        turns := turns - 1;
      }
    }

    /** A reader polls with a buffer of some size, or goes away. */
    method ReaderTurn(ghost start: Net, ghost es0: seq<Event>, ghost order: seq<Handle>, id: nat) returns (ghost es: seq<Event>)
      requires Trace(start, es0, View(), order) && id in pipes
      modifies this`pipes
      ensures Trace(start, es, View(), order) && pipes.Keys == old(pipes.Keys)
    {
      ghost var before := View();
      var space: nat := *;
      var hangsUp: bool := *;
      ghost var e := ReaderHangsUp(id);
      if !hangsUp && pipes[id].receiverAlive {
        e := ReaderPolls(id, space);
        pipes := pipes[id := PollRead(pipes[id], space).0];
      } else {
        pipes := pipes[id := pipes[id].(receiverAlive := false)];
      }
      TraceStep(start, es0, before, order, e, View());
      es := es0 + [e];
    }

    // ---- service_sockets, its loop body piece by piece ---------------------

    /** The reply a connect still waits for: success, failure, or not yet. */
    method AnswerConnect(ghost start: Net, ghost es0: seq<Event>, ghost order: seq<Handle>, h: Handle)
      returns (remove: bool, ghost es: seq<Event>)
      requires Trace(start, es0, View(), order) && cursor == Idle && IsConn(View(), h)
      modifies this`conns, this`replies, this`cursor
      ensures Trace(start, es, View(), order + [h]) && cursor == Serving(h, Sending, remove)
      ensures IsConn(View(), h) && conns.Keys == old(conns.Keys)
    {
      ghost var before := View();
      remove := false;
      if conns[h].replyHeld {
        if sockets[h].sock.state == Established {
          replies := replies + [Reply(conns[h].id, Connected(h))];
          conns := conns[h := conns[h].(replyHeld := false)];
        } else if !IsActive(sockets[h].sock.state) {
          replies := replies + [Reply(conns[h].id, Refused)];
          conns := conns[h := conns[h].(replyHeld := false)];
          remove := true;
        }
      }
      cursor := Serving(h, Sending, remove);
      TraceStep(start, es0, before, order, Answer(h), View());
      es := es0 + [Answer(h)];
    }

    /** The socket takes the first k waiting bytes, which are then drained. */
    method SendSlice(ghost start: Net, ghost es0: seq<Event>, ghost order: seq<Handle>, h: Handle, k: nat) returns (ghost es: seq<Event>)
      requires Trace(start, es0, View(), order) && IsConn(View(), h)
      requires cursor.Serving? && cursor.h == h && cursor.stage == Sending
      requires sockets[h].sock.accepts > 0 && 1 <= k <= sockets[h].sock.room && k <= |conns[h].outBuf|
      modifies this`conns, this`sockets
      ensures Trace(start, es, View(), order) && IsConn(View(), h) && conns.Keys == old(conns.Keys)
      ensures conns[h].outBuf == old(conns[h].outBuf)[k..]
    {
      ghost var before := View();
      var sock, out := sockets[h].sock, conns[h].outBuf;
      sockets := sockets[h := Tcp(sock.(room := sock.room - k, accepts := sock.accepts - 1, tx := sock.tx + out[..k]))];
      conns := conns[h := conns[h].(outBuf := out[k..])];
      TraceStep(start, es0, before, order, SendSome(k), View());
      es := es0 + [SendSome(k)];
    }

    /** k readable bytes go from the socket into the channel as one chunk, on a permit. */
    method RecvSlice(ghost start: Net, ghost es0: seq<Event>, ghost order: seq<Handle>, h: Handle, k: nat) returns (ghost es: seq<Event>)
      requires Trace(start, es0, View(), order) && IsConn(View(), h)
      requires cursor.Serving? && cursor.h == h && cursor.stage == Receiving
      requires sockets[h].sock.gives > 0 && 1 <= k <= RECV_CHUNK && k <= |sockets[h].sock.rx| && HasPermit(pipes[conns[h].id])
      modifies this`sockets, this`pipes
      ensures Trace(start, es, View(), order) && IsConn(View(), h)
      ensures sockets[h].sock.rx == old(sockets[h].sock.rx)[k..]
    {
      ghost var before := View();
      var id, sock := conns[h].id, sockets[h].sock;
      var chunk := sock.rx[..k];
      sockets := sockets[h := Tcp(sock.(rx := sock.rx[k..], gives := sock.gives - 1, taken := sock.taken + chunk))];
      pipes := pipes[id := pipes[id].(queue := pipes[id].queue + [chunk], received := pipes[id].received + chunk)];
      TraceStep(start, es0, before, order, RecvSome(k), View());
      es := es0 + [RecvSome(k)];
    }

    /** socks -> net: as_slices yields some non-empty front part, send_slice takes some of that. */
    method SendLoop(ghost start: Net, ghost es0: seq<Event>, ghost order: seq<Handle>, h: Handle) returns (ghost es: seq<Event>)
      requires Trace(start, es0, View(), order) && IsConn(View(), h)
      requires cursor.Serving? && cursor.h == h && cursor.stage == Sending
      modifies this`conns, this`sockets, this`pipes, this`cursor
      ensures Trace(start, es, View(), order) && cursor == old(cursor).(stage := Receiving)
      ensures IsConn(View(), h) && conns.Keys == old(conns.Keys)
      ensures conns[h].outBuf == [] || sockets[h].sock.room == 0 || sockets[h].sock.accepts == 0
    {
      es := es0;
      while sockets[h].sock.room > 0 && conns[h].outBuf != []
        invariant Trace(start, es, View(), order) && cursor == old(cursor) && IsConn(View(), h)
        invariant conns.Keys == old(conns.Keys)
        decreases |conns[h].outBuf|
      {
        es := ReadersRun(start, es, order);
        if sockets[h].sock.accepts == 0 {  // send_slice: Ok(0) or an error
          break;
        }
        var head: nat :| 0 < head <= |conns[h].outBuf|;
        var taken: nat :| 0 < taken <= head && taken <= sockets[h].sock.room;
        es := SendSlice(start, es, order, h, taken);
      }
      ghost var before := View();
      cursor := cursor.(stage := Receiving);
      TraceStep(start, es, before, order, EndSend, View());
      es := es + [EndSend];
    }

    /** net -> socks: nothing is taken from the socket without a permit. */
    method RecvLoop(ghost start: Net, ghost es0: seq<Event>, ghost order: seq<Handle>, h: Handle) returns (ghost es: seq<Event>)
      requires Trace(start, es0, View(), order) && IsConn(View(), h)
      requires cursor.Serving? && cursor.h == h && cursor.stage == Receiving
      modifies this`sockets, this`pipes, this`cursor
      ensures Trace(start, es, View(), order) && cursor == old(cursor).(stage := Ending)
      ensures IsConn(View(), h)
      ensures sockets[h].sock.rx == [] || sockets[h].sock.gives == 0 ||
              |pipes[conns[h].id].queue| >= 64 || !pipes[conns[h].id].receiverAlive
    {
      es := es0;
      var id := conns[h].id;
      while sockets[h].sock.rx != []
        invariant Trace(start, es, View(), order) && cursor == old(cursor) && IsConn(View(), h) && id == conns[h].id
        decreases |sockets[h].sock.rx|
      {
        es := ReadersRun(start, es, order);
        if !HasPermit(pipes[id]) {
          break;
        }
        if sockets[h].sock.gives == 0 {  // recv_slice: Ok(0) or an error
          break;
        }
        var read: nat :| 0 < read <= RECV_CHUNK && read <= |sockets[h].sock.rx|;
        es := RecvSlice(start, es, order, h, read);
      }
      ghost var before := View();
      cursor := cursor.(stage := Ending);
      TraceStep(start, es, before, order, EndRecv, View());
      es := es + [EndRecv];
    }

    /** Close once drained; free what is closed or failed. */
    method CloseOrFree(h: Handle, remove: bool)
      requires IsConn(View(), h) && cursor == Serving(h, Ending, remove)
      modifies this`conns, this`sockets, this`pipes, this`cursor, this`dropped
      ensures Apply(old(View()), Finish) == Some(View()) && cursor == Idle
      ensures old(conns.Keys) - {h} <= conns.Keys
    {
      ghost var before := View();
      var sock := sockets[h].sock;
      if conns[h].closing && conns[h].outBuf == [] {
        sock := sock.(state := AfterClose(sock.state), fin := if sock.fin.Some? then sock.fin else Some(|sock.tx|));
        sockets := sockets[h := Tcp(sock)];
      }
      cursor := Idle;
      if remove || sock.state == Closed {
        var id := conns[h].id;
        dropped := if conns[h].replyHeld then dropped + {id} else dropped;
        pipes := pipes[id := Ended(pipes[id], sock, conns[h])];
        sockets := sockets - {h};
        conns := conns - {h};
        FinishRemovesConn(before, View());
      } else {
        FinishKeepsConn(before, View());
      }
    }

    method FinishOne(ghost start: Net, ghost es0: seq<Event>, ghost order: seq<Handle>, h: Handle, remove: bool)
      returns (ghost es: seq<Event>)
      requires Trace(start, es0, View(), order) && IsConn(View(), h) && cursor == Serving(h, Ending, remove)
      modifies this`conns, this`sockets, this`pipes, this`cursor, this`dropped
      ensures Trace(start, es, View(), order) && cursor == Idle
      ensures old(conns.Keys) - {h} <= conns.Keys
    {
      ghost var before := View();
      CloseOrFree(h, remove);
      TraceStep(start, es0, before, order, Finish, View());
      es := es0 + [Finish];
    }

    method ServiceOne(ghost start: Net, ghost es0: seq<Event>, ghost order: seq<Handle>, h: Handle) returns (ghost es: seq<Event>)
      requires Trace(start, es0, View(), order) && IsConn(View(), h) && cursor == Idle
      modifies this`conns, this`sockets, this`pipes, this`cursor, this`dropped, this`replies
      ensures Trace(start, es, View(), order + [h]) && cursor == Idle
      ensures old(conns.Keys) - {h} <= conns.Keys
    {
      var remove;
      remove, es := AnswerConnect(start, es0, order, h);
      es := SendLoop(start, es, order + [h], h);
      es := RecvLoop(start, es, order + [h], h);
      es := FinishOne(start, es, order + [h], h, remove);
    }

    /** Every connection listed at the start is serviced exactly once, in the order of the key
        snapshot, though entries are freed on the way; no lookup fails. */
    method ServiceSockets() returns (ghost es: seq<Event>, ghost handles: seq<Handle>)
      requires Valid()
      modifies this`conns, this`sockets, this`pipes, this`cursor, this`dropped, this`replies
      ensures Valid() && Run(old(View()), es) == Some(View())
      ensures OnlyService(es) && Serviced(es) == handles
      ensures multiset(handles) == multiset(old(conns.Keys))
    {
      ghost var start := View();
      handles := [];
      es := [];
      var left := conns.Keys;
      while left != {}
        invariant Trace(start, es, View(), handles) && cursor == Idle
        invariant left <= conns.Keys
        invariant multiset(handles) + multiset(left) == multiset(start.conns.Keys)
        decreases |left|
      {
        var h :| h in left;
        ListedIsConn(start, es, View(), h);
        es := ServiceOne(start, es, handles, h);
        assert multiset(left) == multiset{h} + multiset(left - {h});
        handles := handles + [h];
        left := left - {h};
      }
      ReachableRun(start, es);
    }

    /** A finished query is taken out, its slot is free and its request answered. */
    method TakeOut(i: nat)
      requires i < |dnsPending| && Resolver.Matched(queries, dnsPending) && Resolver.Finished(queries, dnsPending[i])
      modifies this`queries, this`dnsPending, this`dnsReplies
      ensures |dnsPending| == old(|dnsPending|) - 1 && Resolver.Matched(queries, dnsPending)
      ensures Resolver.ServedFrom(DnsView(), i) == old(Resolver.ServedFrom(DnsView(), i))
    {
      Resolver.DropMatched(queries, dnsPending, i);
      Resolver.DropOne(DnsView(), i);
      var w := dnsPending[i];
      var status := queries[w.query];
      queries := queries - {w.query};
      dnsPending := dnsPending[..i] + dnsPending[i + 1..];
      dnsReplies := dnsReplies + [Resolver.Reply(w.id, Resolver.ResultOf(status))];
    }

    /** One look at index i: an unfinished query is passed over, a finished one is taken out and answered. */
    method ServeAt(i: nat) returns (next: nat)
      requires i < |dnsPending| && Resolver.Matched(queries, dnsPending)
      modifies this`queries, this`dnsPending, this`dnsReplies
      ensures i <= next <= |dnsPending| && |dnsPending| - next < old(|dnsPending|) - i
      ensures Resolver.Matched(queries, dnsPending)
      ensures Resolver.ServedFrom(DnsView(), next) == old(Resolver.ServedFrom(DnsView(), i))
    {
      assert dnsPending[i] in dnsPending;
      if queries[dnsPending[i].query].InFlight? {
        Resolver.SkipOne(DnsView(), i);
        next := i + 1;
      } else {
        TakeOut(i);
        next := i;
      }
    }

    /** The loop of service_dns: walk the pending list, removing what is finished while going on
        at the same index. */
    method ServePending()
      requires Resolver.Matched(queries, dnsPending)
      modifies this`queries, this`dnsPending, this`dnsReplies
      ensures DnsView() == old(Resolver.Serviced(DnsView()))
    {
      ghost var before := DnsView();
      ghost var target := Resolver.Serviced(before);
      Resolver.ServedEnds(before);
      var i := 0;
      while i < |dnsPending|
        invariant i <= |dnsPending| && Resolver.Matched(queries, dnsPending)
        invariant Resolver.ServedFrom(DnsView(), i) == target
        decreases |dnsPending| - i
      {
        i := ServeAt(i);
      }
      Resolver.ServedEnds(DnsView());
    }

    method ServiceDns()
      requires Valid()
      modifies this`queries, this`dnsPending, this`dnsReplies
      ensures Valid() && Resolver.Apply(old(DnsView()), Resolver.Service) == Some(DnsView())
    {
      ghost var before := DnsView();
      Resolver.ReachableInv(before);
      ServePending();
      Resolver.ReachableStep(before, Resolver.Service);
    }
  }

  lemma ListedIsConn(start: Net, es: seq<Event>, n: Net, h: Handle)
    requires Reachable(start) && Run(start, es) == Some(n) && h in n.conns
    ensures IsConn(n, h)
  {
    ReachableInv(start);
    RunKeeps(start, es);
    assert LinkOk(n, h);
  }

  lemma ReachableRun(n: Net, es: seq<Event>)
    requires Reachable(n) && Run(n, es).Some?
    ensures Reachable(Run(n, es).value)
  {
    var dns, es0 :| Run(Start(dns), es0) == Some(n);
    RunConcat(Start(dns), es0, es);
    assert Run(Start(dns), es0 + es) == Run(n, es);
  }

  lemma {:induction false} RunConcat(n: Net, es: seq<Event>, more: seq<Event>)
    requires Run(n, es).Some?
    ensures Run(n, es + more) == Run(Run(n, es).value, more)
    decreases |more|
  {
    if more == [] {
      assert es + more == es;
    } else {
      var before, last := more[..|more| - 1], more[|more| - 1];
      RunConcat(n, es, before);
      assert (es + more)[..|es + more| - 1] == es + before;
      assert (es + more)[|es + more| - 1] == last;
    }
  }

  /** The socket table when close() may just have changed h's entry. */
  function Closing(n: Net, h: Handle): map<Handle, Socket>
    requires IsConn(n, h)
  {
    if CallsClose(n.conns[h]) then n.sockets[h := Tcp(AfterService(n.sockets[h].sock, n.conns[h]))] else n.sockets
  }

  lemma FinishKeepsConn(n: Net, n': Net)
    requires n.cursor.Serving? && n.cursor.stage == Ending && IsConn(n, n.cursor.h)
    requires !n.cursor.remove && AfterService(n.sockets[n.cursor.h].sock, n.conns[n.cursor.h]).state != Closed
    requires n' == n.(sockets := Closing(n, n.cursor.h), cursor := Idle)
    ensures Apply(n, Finish) == Some(n')
  {
    assert n.sockets[n.cursor.h := n.sockets[n.cursor.h]] == n.sockets;
  }

  lemma FinishRemovesConn(n: Net, n': Net)
    requires n.cursor.Serving? && n.cursor.stage == Ending && IsConn(n, n.cursor.h)
    requires n.cursor.remove || AfterService(n.sockets[n.cursor.h].sock, n.conns[n.cursor.h]).state == Closed
    requires var h := n.cursor.h;
             var conn, sock := n.conns[h], AfterService(n.sockets[h].sock, n.conns[h]);
             n' == n.(sockets := Closing(n, h) - {h}, conns := n.conns - {h},
                      pipes := n.pipes[conn.id := Ended(n.pipes[conn.id], sock, conn)],
                      dropped := if conn.replyHeld then n.dropped + {conn.id} else n.dropped, cursor := Idle)
    ensures Apply(n, Finish) == Some(n')
  {
    var h := n.cursor.h;
    assert n.sockets[h := Tcp(AfterService(n.sockets[h].sock, n.conns[h]))] - {h} == n.sockets - {h};
  }
}
