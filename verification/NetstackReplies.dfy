/** Which answer a connect gets: exactly what the services of its connection found in its socket. */
module NetstackReplies {
  import opened Options
  import opened Netstack
  import opened NetstackProofs
  import opened NetstackTheorems
  import opened NetstackHistory
  import opened NetstackClients

  predicate ServesConn(n: Net, e: Event, id: nat) {
    e.Answer? && IsConn(n, e.h) && n.conns[e.h].id == id
  }

  /** A service of id's connection finds its socket established. */
  predicate FindsEstablished(n: Net, e: Event, id: nat) {
    ServesConn(n, e, id) && n.sockets[e.h].sock.state == Established
  }

  /** A service of id's connection finds its socket dead. */
  predicate FindsDead(n: Net, e: Event, id: nat) {
    ServesConn(n, e, id) && !IsActive(n.sockets[e.h].sock.state)
  }

  predicate RefusedAtOnce(e: Event, id: nat) {
    e.Connect? && e.id == id && !e.accepted
  }

  function Establishment(id: nat): Happening {
    (n, e) => FindsEstablished(n, e, id)
  }

  function Death(id: nat): Happening {
    (n, e) => FindsDead(n, e, id)
  }

  function Refusal(id: nat): Happening {
    (n, e) => RefusedAtOnce(e, id)
  }

  ghost predicate AnsweredOk(n: Net, id: nat) {
    exists h :: Reply(id, Connected(h)) in n.replies
  }

  predicate AnsweredRefused(n: Net, id: nat) {
    Reply(id, Refused) in n.replies
  }

  /** A listed connection that holds no reply was answered with success, or is about to be removed;
      and what is about to be removed was refused. */
  ghost predicate Standing(n: Net) {
    && (forall h :: h in n.conns && !n.conns[h].replyHeld ==>
          Reply(n.conns[h].id, Connected(h)) in n.replies || (n.cursor.Serving? && n.cursor.h == h && n.cursor.remove))
    && (n.cursor.Serving? && n.cursor.remove ==>
          n.cursor.h in n.conns && AnsweredRefused(n, n.conns[n.cursor.h].id))
  }

  // ---- one step -----------------------------------------------------------

  lemma StandingStep(n: Net, e: Event)
    requires Inv(n) && Standing(n) && Apply(n, e).Some?
    ensures Standing(Apply(n, e).value)
  {
    var n' := Apply(n, e).value;
    forall h | h in n'.conns && !n'.conns[h].replyHeld
      ensures Reply(n'.conns[h].id, Connected(h)) in n'.replies || (n'.cursor.Serving? && n'.cursor.h == h && n'.cursor.remove)
    {
      RepliesGrow(n, e);
      UnheldStep(n, e, h);
    }
    RepliesGrow(n, e);
    RemovalStep(n, e);
  }

  lemma RemovalStep(n: Net, e: Event)
    requires Standing(n) && Apply(n, e).Some? && n.replies <= Apply(n, e).value.replies
    ensures var n' := Apply(n, e).value;
            n'.cursor.Serving? && n'.cursor.remove ==> n'.cursor.h in n'.conns && AnsweredRefused(n', n'.conns[n'.cursor.h].id)
  {
    var n' := Apply(n, e).value;
    if e.Answer? && n'.cursor.Serving? && n'.cursor.remove {
      assert n'.replies[|n.replies|] == Reply(n.conns[e.h].id, Refused);
    }
  }

  lemma RepliesGrow(n: Net, e: Event)
    requires Apply(n, e).Some?
    ensures n.replies <= Apply(n, e).value.replies
  {
  }

  lemma UnheldStep(n: Net, e: Event, h: Handle)
    requires Standing(n) && Apply(n, e).Some? && h in Apply(n, e).value.conns && !Apply(n, e).value.conns[h].replyHeld
    requires n.replies <= Apply(n, e).value.replies
    ensures var n' := Apply(n, e).value;
            Reply(n'.conns[h].id, Connected(h)) in n'.replies || (n'.cursor.Serving? && n'.cursor.h == h && n'.cursor.remove)
  {
  }

  lemma OkStep(n: Net, e: Event, id: nat)
    requires Inv(n) && Standing(n) && Apply(n, e).Some?
    ensures AnsweredOk(Apply(n, e).value, id) <==> AnsweredOk(n, id) || FindsEstablished(n, e, id)
  {
    var n' := Apply(n, e).value;
    RepliesGrow(n, e);
    if AnsweredOk(n', id) && !AnsweredOk(n, id) {
      var h :| Reply(id, Connected(h)) in n'.replies;
      NewReply(n, e, Reply(id, Connected(h)));
    }
    if AnsweredOk(n, id) {
      var h :| Reply(id, Connected(h)) in n.replies;
      assert Reply(id, Connected(h)) in n'.replies;
    }
    if FindsEstablished(n, e, id) {
      EstablishedIsAnswered(n, e.h);
      assert Reply(id, Connected(e.h)) in n'.replies;
    }
  }

  /** A service that finds the socket established leaves the connect answered with success. */
  lemma EstablishedIsAnswered(n: Net, h: Handle)
    requires Standing(n) && AnswerConnect(n, h).Some? && n.sockets[h].sock.state == Established
    ensures Reply(n.conns[h].id, Connected(h)) in AnswerConnect(n, h).value.replies
  {
    if n.conns[h].replyHeld {
      var reply := Reply(n.conns[h].id, Connected(h));
      assert (n.replies + [reply])[|n.replies|] == reply;
    }
  }

  lemma RefusedStep(n: Net, e: Event, id: nat)
    requires Inv(n) && Standing(n) && Apply(n, e).Some?
    ensures AnsweredRefused(Apply(n, e).value, id)
       <==> AnsweredRefused(n, id) || RefusedAtOnce(e, id) || (FindsDead(n, e, id) && !AnsweredOk(n, id))
  {
    if e.Answer? {
      DeadStep(n, e.h, id);
    } else {
      OtherRefusal(n, e, id);
    }
  }

  lemma OtherRefusal(n: Net, e: Event, id: nat)
    requires Apply(n, e).Some? && !e.Answer?
    ensures AnsweredRefused(Apply(n, e).value, id) <==> AnsweredRefused(n, id) || RefusedAtOnce(e, id)
  {
    if RefusedAtOnce(e, id) {
      assert (n.replies + [Reply(id, Refused)])[|n.replies|] == Reply(id, Refused);
    }
  }

  lemma DeadStep(n: Net, h: Handle, id: nat)
    requires Inv(n) && Standing(n) && AnswerConnect(n, h).Some?
    ensures AnsweredRefused(AnswerConnect(n, h).value, id)
       <==> AnsweredRefused(n, id) || (FindsDead(n, Answer(h), id) && !AnsweredOk(n, id))
  {
    var conn, n' := n.conns[h], AnswerConnect(n, h).value;
    if AnsweredOk(n, id) && conn.id == id {
      var k :| Reply(id, Connected(k)) in n.replies;
      AnsweredConnects(n, Reply(id, Connected(k)));
      HolderIs(n, h);
    }
    if conn.replyHeld && n.sockets[h].sock.state != Established && !IsActive(n.sockets[h].sock.state) {
      assert n'.replies[|n.replies|] == Reply(conn.id, Refused);
    }
    if FindsDead(n, Answer(h), id) && !AnsweredOk(n, id) {
      assert conn.replyHeld;
    }
  }

  // ---- over runs ----------------------------------------------------------

  lemma {:induction false} TwiceCounted(replies: seq<Reply>, a: Reply, b: Reply)
    requires a in replies && b in replies && a != b && a.id == b.id
    ensures Count(replies, a.id) >= 2
  {
    var last := |replies| - 1;
    if a == replies[last] {
      RepliedOnce(replies[..last], b);
    } else if b == replies[last] {
      RepliedOnce(replies[..last], a);
    } else {
      TwiceCounted(replies[..last], a, b);
    }
  }

  lemma NotBoth(n: Net, id: nat)
    requires Inv(n)
    ensures !(AnsweredOk(n, id) && AnsweredRefused(n, id))
  {
    assert LedgerOk(n, id);
    if AnsweredOk(n, id) && AnsweredRefused(n, id) {
      var h :| Reply(id, Connected(h)) in n.replies;
      TwiceCounted(n.replies, Reply(id, Connected(h)), Reply(id, Refused));
    }
  }

  lemma {:induction false} StandingRun(dns: Handle, es: seq<Event>)
    requires Run(Start(dns), es).Some?
    ensures Inv(Run(Start(dns), es).value) && Standing(Run(Start(dns), es).value)
    decreases |es|
  {
    if es == [] {
      StartInv(dns);
    } else {
      StandingRun(dns, es[..|es| - 1]);
      StepKeeps(Run(Start(dns), es[..|es| - 1]).value, es[|es| - 1]);
      StandingStep(Run(Start(dns), es[..|es| - 1]).value, es[|es| - 1]);
    }
  }

  /** A connect is answered with success iff some service of its connection found the socket established. */
  lemma {:induction false} ConnectedIff(dns: Handle, es: seq<Event>, id: nat)
    requires Run(Start(dns), es).Some?
    ensures AnsweredOk(Run(Start(dns), es).value, id) <==> Ever(Start(dns), es, Establishment(id))
    decreases |es|
  {
    if es != [] {
      var mid := Run(Start(dns), es[..|es| - 1]).value;
      ConnectedIff(dns, es[..|es| - 1], id);
      StandingRun(dns, es[..|es| - 1]);
      OkStep(mid, es[|es| - 1], id);
      EverStep(Start(dns), es, Establishment(id), mid);
    }
  }

  /** A connect is answered with a refusal iff smoltcp refused it at once, or some service of its
      connection found the socket dead and none found it established. */
  lemma {:induction false} RefusedIff(dns: Handle, es: seq<Event>, id: nat)
    requires Run(Start(dns), es).Some?
    ensures AnsweredRefused(Run(Start(dns), es).value, id)
       <==> Ever(Start(dns), es, Refusal(id)) || (Ever(Start(dns), es, Death(id)) && !Ever(Start(dns), es, Establishment(id)))
    decreases |es|
  {
    if es != [] {
      var before, e := es[..|es| - 1], es[|es| - 1];
      var mid := Run(Start(dns), before).value;
      RefusedIff(dns, before, id);
      ConnectedIff(dns, before, id);
      EverStep(Start(dns), es, Refusal(id), mid);
      EverStep(Start(dns), es, Death(id), mid);
      EverStep(Start(dns), es, Establishment(id), mid);
      StandingRun(dns, before);
      AnswerKinds(mid, e, id);
    }
  }

  /** What one event does to both kinds of answers. */
  lemma AnswerKinds(n: Net, e: Event, id: nat)
    requires Inv(n) && Standing(n) && Apply(n, e).Some?
    ensures var n' := Apply(n, e).value;
            && (AnsweredRefused(n', id) <==>
                  AnsweredRefused(n, id) || RefusedAtOnce(e, id) || (FindsDead(n, e, id) && !AnsweredOk(n, id)))
            && (AnsweredOk(n', id) <==> AnsweredOk(n, id) || FindsEstablished(n, e, id))
            && !(AnsweredOk(n', id) && AnsweredRefused(n', id))
  {
    OkStep(n, e, id);
    RefusedStep(n, e, id);
    StepKeeps(n, e);
    NotBoth(Apply(n, e).value, id);
  }

  /** Exactly when the end of a service removes a connection: its connect was refused, its socket is
      closed, or the close() it is due closes a socket that has only sent its SYN. */
  lemma RemovedIff(dns: Handle, es: seq<Event>)
    requires Run(Start(dns), es).Some? && FinishService(Run(Start(dns), es).value).Some?
    ensures var n := Run(Start(dns), es).value;
            var conn, sock := n.conns[n.cursor.h], n.sockets[n.cursor.h].sock;
            n.cursor.h !in FinishService(n).value.conns <==>
              || AnsweredRefused(n, conn.id) || sock.state == Closed
              || (conn.closing && conn.outBuf == [] && (sock.state == SynSent || sock.state == Listen))
  {
    var n := Run(Start(dns), es).value;
    var h := n.cursor.h;
    StandingRun(dns, es);
    NotBoth(n, n.conns[h].id);
    assert LedgerOk(n, n.conns[h].id);
    if AnsweredRefused(n, n.conns[h].id) {
      AnsweredConnects(n, Reply(n.conns[h].id, Refused));
      HolderIs(n, h);
    }
  }

  lemma CloseWaitReachable()
    ensures ClientReachable(First(CloseWait, true, Idle))
  {
    assert Run(Start(0), []) == Some(Start(0)) && ClientRun(Start(0), []);
    OpenSteps();
    ClientStep(Start(0), Connect(7, 1, true), First(SynSent, true, Idle));
    ProgressStep(SynSent, true, CloseWait);
    ClientStep(First(SynSent, true, Idle), Progress(1, CloseWait, 0, 0, [], 0), First(CloseWait, true, Idle));
  }

  lemma CloseWaitPassed()
    ensures Apply(First(CloseWait, true, Idle), Answer(1)) == Some(First(CloseWait, true, Serving(1, Sending, false)))
    ensures IsConn(First(CloseWait, true, Idle), 1)
  {
  }

  /** A socket that went from SynSent past Established between two polls is alive and was open for a
      moment, but the service passes its connect over. */
  lemma PassedOver()
    ensures var n := First(CloseWait, true, Idle);
            && ClientReachable(n) && IsConn(n, 1) && n.sockets[1].sock.state == CloseWait && Held(n, 7)
            && Apply(n, Answer(1)).Some? && Apply(n, Answer(1)).value.replies == n.replies
            && Held(Apply(n, Answer(1)).value, 7)
  {
    CloseWaitReachable();
    CloseWaitPassed();
    assert First(CloseWait, true, Idle).conns[1] == Conn(7, [], true, false, [], None);
    assert First(CloseWait, true, Serving(1, Sending, false)).conns[1] == Conn(7, [], true, false, [], None);
  }
}
