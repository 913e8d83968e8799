/** What the clients of the actor get: whose bytes a connection carries, and whose connects are answered.
    Commands name a socket handle only, and smoltcp hands out a freed handle again, so both depend on
    no client using a handle that by then belongs to someone else. */
module NetstackClients {
  import opened Options
  import opened Varint
  import opened Netstack
  import opened NetstackProofs
  import opened NetstackTheorems
  import opened NetstackHistory

  predicate IsCommand(e: Event) {
    e.Send? || e.Close?
  }

  /** A stream object exists only once its connect was answered, and it uses the handle it was given. */
  predicate Entitled(n: Net, e: Event) {
    IsCommand(e) ==> Reply(e.from, Connected(e.h)) in n.replies
  }

  /** A run in which every command comes from a stream object. */
  ghost predicate ClientRun(n: Net, es: seq<Event>) {
    Always(n, es, Entitled)
  }

  /** A command whose handle is by now listed under another connect. */
  predicate Foreign(n: Net, e: Event) {
    IsCommand(e) && e.h in n.conns && n.conns[e.h].id != e.from
  }

  /** ... and that makes a difference there: it queues bytes, or is the first Close. */
  predicate Spoils(n: Net, e: Event) {
    Foreign(n, e) && if e.Send? then e.data != [] else !n.conns[e.h].closing
  }

  /** A command changes a connection of another connect iff its handle is listed under that one
      and it queues bytes there or closes it; nothing but that connection changes. */
  lemma SpoilsIff(n: Net, e: Event)
    requires IsCommand(e) && Apply(n, e).Some?
    ensures Spoils(n, e) <==> exists k :: k in n.conns && n.conns[k].id != e.from && Apply(n, e).value.conns[k] != n.conns[k]
    ensures Apply(n, e).value == n || Apply(n, e).value == n.(conns := n.conns[e.h := Apply(n, e).value.conns[e.h]])
  {
    var n' := Apply(n, e).value;
    if e.h in n.conns {
      var conn := n.conns[e.h];
      assert n'.conns == n.conns[e.h := n'.conns[e.h]];
      if e.Send? {
        assert e.data != [] ==> |n'.conns[e.h].queued| > |conn.queued|;
        assert e.data == [] ==> n'.conns[e.h] == conn;
      }
    }
  }

  // ---- what a client asked for --------------------------------------------

  /** The data of every Send of connect id, in order. */
  function SentBy(es: seq<Event>, id: nat): seq<byte> {
    if es == [] then []
    else
      var e := es[|es| - 1];
      SentBy(es[..|es| - 1], id) + if e.Send? && e.from == id then e.data else []
  }

  predicate AskedClose(es: seq<Event>, id: nat) {
    es != [] && (AskedClose(es[..|es| - 1], id) || (es[|es| - 1].Close? && es[|es| - 1].from == id))
  }

  /** Every connection carries exactly what its own client sent, and closes iff its own client asked. */
  ghost predicate Isolated(n: Net, es: seq<Event>) {
    forall h :: h in n.conns ==>
      n.conns[h].queued == SentBy(es, n.conns[h].id) && (n.conns[h].closing <==> AskedClose(es, n.conns[h].id))
  }

  /** Success replies name the handle of their connection, for as long as it is listed. */
  ghost predicate RepliesName(n: Net) {
    forall r, h :: r in n.replies && r.outcome.Connected? && h in n.conns && n.conns[h].id == r.id ==> r.outcome.h == h
  }

  /** Who has not connected yet has not asked for anything. */
  ghost predicate Silent(n: Net, es: seq<Event>) {
    forall id :: id !in n.pipes ==> SentBy(es, id) == [] && !AskedClose(es, id)
  }

  lemma {:induction false} RepliedOnce(replies: seq<Reply>, r: Reply)
    requires r in replies
    ensures Count(replies, r.id) >= 1
  {
    var last := |replies| - 1;
    if r != replies[last] {
      RepliedOnce(replies[..last], r);
    }
  }

  /** Who was answered has connected, and nobody holds that reply any more. */
  lemma AnsweredConnects(n: Net, r: Reply)
    requires Inv(n) && r in n.replies
    ensures r.id in n.pipes && !Held(n, r.id)
  {
    RepliedOnce(n.replies, r);
    assert LedgerOk(n, r.id);
  }

  // ---- one step -----------------------------------------------------------

  lemma NamesStep(n: Net, e: Event)
    requires Inv(n) && RepliesName(n) && Apply(n, e).Some?
    ensures RepliesName(Apply(n, e).value)
  {
    var n' := Apply(n, e).value;
    forall r, h | r in n'.replies && r.outcome.Connected? && h in n'.conns && n'.conns[h].id == r.id
      ensures r.outcome.h == h
    {
      if r in n.replies {
        AnsweredConnects(n, r);
        OldConn(n, e, h);
      } else {
        NewReply(n, e, r);
        assert n.conns[e.h].id == r.id && n'.conns[e.h].id == r.id;
        OldConn(n, e, h);
      }
    }
  }

  /** A listed connection is an old one or the one just opened. */
  lemma OldConn(n: Net, e: Event, h: Handle)
    requires Apply(n, e).Some? && h in Apply(n, e).value.conns
    ensures e.Connect? && e.slot == h && h !in n.conns ==> Apply(n, e).value.conns[h].id == e.id && e.id !in n.pipes
    ensures !(e.Connect? && e.slot == h) ==> h in n.conns && Apply(n, e).value.conns[h].id == n.conns[h].id
  {
  }

  lemma NothingAsked(es: seq<Event>, e: Event)
    requires !IsCommand(e)
    ensures forall id :: SentBy(es + [e], id) == SentBy(es, id) && AskedClose(es + [e], id) == AskedClose(es, id)
  {
    assert (es + [e])[..|es + [e]| - 1] == es;
  }

  lemma OtherIsolated(n: Net, es: seq<Event>, e: Event)
    requires Inv(n) && Isolated(n, es) && Silent(n, es) && !IsCommand(e) && Apply(n, e).Some?
    ensures Isolated(Apply(n, e).value, es + [e]) && Silent(Apply(n, e).value, es + [e])
  {
    var n' := Apply(n, e).value;
    NothingAsked(es, e);
    PipesStay(n, e);
    forall h | h in n'.conns ensures AsBefore(n, n', h) {
      UncommandedConn(n, e, h);
    }
    KeptIsolated(n, n', es);
  }

  /** Connection h of n' is one of n with the same bytes and the same wish to close, or a new one without any. */
  ghost predicate AsBefore(n: Net, n': Net, h: Handle)
    requires h in n'.conns
  {
    var conn := n'.conns[h];
    (conn.queued == [] && !conn.closing && conn.id !in n.pipes) ||
    (h in n.conns && conn.id == n.conns[h].id && conn.queued == n.conns[h].queued && conn.closing == n.conns[h].closing)
  }

  lemma KeptIsolated(n: Net, n': Net, es: seq<Event>)
    requires Isolated(n, es) && Silent(n, es) && forall h :: h in n'.conns ==> AsBefore(n, n', h)
    ensures Isolated(n', es)
  {
  }

  lemma PipesStay(n: Net, e: Event)
    requires Apply(n, e).Some?
    ensures forall id :: id in n.pipes ==> id in Apply(n, e).value.pipes
  {
  }

  lemma UncommandedConn(n: Net, e: Event, h: Handle)
    requires !IsCommand(e) && Apply(n, e).Some? && h in Apply(n, e).value.conns
    ensures AsBefore(n, Apply(n, e).value, h)
  {
  }

  /** A command reaches its own client's connection, or none, unless it spoils another. */
  lemma CommandIsolated(n: Net, es: seq<Event>, e: Event)
    requires Inv(n) && RepliesName(n) && Isolated(n, es) && Silent(n, es)
    requires IsCommand(e) && Entitled(n, e) && !Spoils(n, e) && Apply(n, e).Some?
    ensures Isolated(Apply(n, e).value, es + [e]) && Silent(Apply(n, e).value, es + [e])
  {
    assert (es + [e])[..|es + [e]| - 1] == es;
    var n' := Apply(n, e).value;
    AnsweredConnects(n, Reply(e.from, Connected(e.h)));
    forall h | h in n'.conns
      ensures n'.conns[h].queued == SentBy(es + [e], n'.conns[h].id)
      ensures n'.conns[h].closing <==> AskedClose(es + [e], n'.conns[h].id)
    {
      if n.conns[h].id == e.from {
        assert h == e.h;
      } else {
        SpoilsIff(n, e);
      }
    }
  }

  lemma IsolatedStep(n: Net, es: seq<Event>, e: Event)
    requires Inv(n) && RepliesName(n) && Isolated(n, es) && Silent(n, es)
    requires Entitled(n, e) && !Spoils(n, e) && Apply(n, e).Some?
    ensures var n' := Apply(n, e).value; RepliesName(n') && Isolated(n', es + [e]) && Silent(n', es + [e])
  {
    NamesStep(n, e);
    if IsCommand(e) {
      CommandIsolated(n, es, e);
    } else {
      OtherIsolated(n, es, e);
    }
  }

  /** A spoiling command breaks isolation at once. */
  lemma SpoiltStep(n: Net, es: seq<Event>, e: Event)
    requires Isolated(n, es) && Spoils(n, e) && Apply(n, e).Some?
    ensures !Isolated(Apply(n, e).value, es + [e])
  {
    assert (es + [e])[..|es + [e]| - 1] == es;
    var n' := Apply(n, e).value;
    var conn := n.conns[e.h];
    assert e.h in n'.conns && n'.conns[e.h].id == conn.id;
    if e.Send? {
      assert |n'.conns[e.h].queued| > |conn.queued|;
      assert SentBy(es + [e], conn.id) == SentBy(es, conn.id) + [] == conn.queued;
    }
  }

  // ---- over runs ----------------------------------------------------------

  lemma OneMore(es: seq<Event>, i: nat)
    requires i < |es|
    ensures es[..i + 1] == es[..i] + [es[i]]
  {
  }

  const Harmless: Happening := (n, e) => !Spoils(n, e)

  lemma {:induction false} IsolatedRun(dns: Handle, es: seq<Event>)
    requires Run(Start(dns), es).Some? && ClientRun(Start(dns), es) && Always(Start(dns), es, Harmless)
    ensures var n := Run(Start(dns), es).value; Inv(n) && RepliesName(n) && Isolated(n, es) && Silent(n, es)
    decreases |es|
  {
    if es == [] {
      StartInv(dns);
    } else {
      var n := HarmlessLast(dns, es);
      IsolatedRun(dns, es[..|es| - 1]);
      IsolatedLast(dns, es, n);
    }
  }

  lemma HarmlessLast(dns: Handle, es: seq<Event>) returns (n: Net)
    requires es != [] && Run(Start(dns), es).Some? && ClientRun(Start(dns), es) && Always(Start(dns), es, Harmless)
    ensures Run(Start(dns), es[..|es| - 1]) == Some(n)
    ensures ClientRun(Start(dns), es[..|es| - 1]) && Always(Start(dns), es[..|es| - 1], Harmless)
    ensures Entitled(n, es[|es| - 1]) && !Spoils(n, es[|es| - 1])
  {
    n := Run(Start(dns), es[..|es| - 1]).value;
    AlwaysPrefix(Start(dns), es, Entitled, |es| - 1);
    AlwaysPrefix(Start(dns), es, Harmless, |es| - 1);
  }

  lemma IsolatedLast(dns: Handle, es: seq<Event>, n: Net)
    requires es != [] && Run(Start(dns), es).Some? && Run(Start(dns), es[..|es| - 1]) == Some(n)
    requires Inv(n) && RepliesName(n) && Isolated(n, es[..|es| - 1]) && Silent(n, es[..|es| - 1])
    requires Entitled(n, es[|es| - 1]) && !Spoils(n, es[|es| - 1])
    ensures var n' := Run(Start(dns), es).value; Inv(n') && RepliesName(n') && Isolated(n', es) && Silent(n', es)
  {
    StepKeeps(n, es[|es| - 1]);
    IsolatedStep(n, es[..|es| - 1], es[|es| - 1]);
    LastSplit(es);
  }

  /** Per-connection isolation after every event of a run ... */
  ghost predicate IsolatedThroughout(dns: Handle, es: seq<Event>) {
    forall i :: 0 <= i <= |es| && Run(Start(dns), es[..i]).Some? ==> Isolated(Run(Start(dns), es[..i]).value, es[..i])
  }

  /** ... holds iff no command of the run spoils a foreign connection. */
  lemma IsolationIff(dns: Handle, es: seq<Event>)
    requires Run(Start(dns), es).Some? && ClientRun(Start(dns), es)
    ensures IsolatedThroughout(dns, es) <==> Always(Start(dns), es, Harmless)
  {
    if Always(Start(dns), es, Harmless) {
      forall i | 0 <= i <= |es| && Run(Start(dns), es[..i]).Some?
        ensures Isolated(Run(Start(dns), es[..i]).value, es[..i])
      {
        AlwaysPrefix(Start(dns), es, Entitled, i);
        AlwaysPrefix(Start(dns), es, Harmless, i);
        IsolatedRun(dns, es[..i]);
      }
    } else {
      var i :| 0 <= i < |es| && Run(Start(dns), es[..i]).Some? && Spoils(Run(Start(dns), es[..i]).value, es[i]);
      SpoiltRun(dns, es, i);
    }
  }

  lemma SpoiltRun(dns: Handle, es: seq<Event>, i: nat)
    requires i < |es| && Run(Start(dns), es).Some? && Run(Start(dns), es[..i]).Some?
    requires Spoils(Run(Start(dns), es[..i]).value, es[i])
    ensures !IsolatedThroughout(dns, es)
  {
    RunPrefix(Start(dns), es, i);
    RunPrefix(Start(dns), es, i + 1);
    if Isolated(Run(Start(dns), es[..i]).value, es[..i]) {
      SpoiltStep(Run(Start(dns), es[..i]).value, es[..i], es[i]);
      OneMore(es, i);
    }
  }

  /** The outbound stream of a client: as long as no command spoilt a foreign connection, what the
      socket of a listed connection accepted, followed by what still waits, is exactly what its own
      client sent, in order; and it is closed for sending only if its own client asked. */
  lemma StreamIsOwn(dns: Handle, es: seq<Event>, h: Handle)
    requires Run(Start(dns), es).Some? && ClientRun(Start(dns), es) && Always(Start(dns), es, Harmless)
    requires h in Run(Start(dns), es).value.conns
    ensures var n := Run(Start(dns), es).value;
            && IsConn(n, h)
            && n.sockets[h].sock.tx + n.conns[h].outBuf == SentBy(es, n.conns[h].id)
            && (n.sockets[h].sock.fin.Some? ==> AskedClose(es, n.conns[h].id))
  {
    IsolatedRun(dns, es);
    assert LinkOk(Run(Start(dns), es).value, h);
  }

  // ---- connect replies ----------------------------------------------------

  /** Another client's Close reaches the connection of connect id. */
  predicate ClosedByOther(n: Net, e: Event, id: nat) {
    e.Close? && Foreign(n, e) && n.conns[e.h].id == id
  }

  /** The reply of connect id was not dropped, and while it is held nobody has closed its connection. */
  ghost predicate Safe(n: Net, id: nat) {
    id !in n.dropped && forall h :: h in n.conns && n.conns[h].id == id && n.conns[h].replyHeld ==> !n.conns[h].closing
  }

  lemma SafeStep(n: Net, e: Event, id: nat)
    requires Reachable(n) && Safe(n, id) && Entitled(n, e) && !ClosedByOther(n, e, id) && Apply(n, e).Some?
    ensures Safe(Apply(n, e).value, id)
  {
    ReachableInv(n);
    DroppedIff(n, e);
    if IsCommand(e) {
      SafeCommand(n, e, id);
    } else {
      SafeOther(n, e, id);
    }
  }

  lemma SafeCommand(n: Net, e: Event, id: nat)
    requires Inv(n) && Safe(n, id) && IsCommand(e) && Entitled(n, e) && !ClosedByOther(n, e, id) && Apply(n, e).Some?
    ensures Safe(Apply(n, e).value, id)
  {
    AnsweredConnects(n, Reply(e.from, Connected(e.h)));
    assert e.h in n.conns && n.conns[e.h].id == e.from ==> !n.conns[e.h].replyHeld;
  }

  lemma SafeOther(n: Net, e: Event, id: nat)
    requires Safe(n, id) && !IsCommand(e) && Apply(n, e).Some?
    requires Apply(n, e).value.dropped == n.dropped || id !in Apply(n, e).value.dropped
    ensures Safe(Apply(n, e).value, id)
  {
    var n' := Apply(n, e).value;
    forall h | h in n'.conns && n'.conns[h].id == id && n'.conns[h].replyHeld ensures !n'.conns[h].closing {
      UncommandedConn(n, e, h);
    }
  }

  /** No Close of another client ever reaches connect id's connection. */
  ghost predicate NeverClosedByOther(n: Net, es: seq<Event>, id: nat) {
    forall i :: 0 <= i < |es| && Run(n, es[..i]).Some? ==> !ClosedByOther(Run(n, es[..i]).value, es[i], id)
  }

  lemma NeverClosedBefore(n: Net, es: seq<Event>, id: nat)
    requires es != [] && Run(n, es).Some? && ClientRun(n, es) && NeverClosedByOther(n, es, id)
    ensures ClientRun(n, es[..|es| - 1]) && Entitled(Run(n, es[..|es| - 1]).value, es[|es| - 1])
    ensures NeverClosedByOther(n, es[..|es| - 1], id)
    ensures !ClosedByOther(Run(n, es[..|es| - 1]).value, es[|es| - 1], id)
  {
    var before := es[..|es| - 1];
    AlwaysPrefix(n, es, Entitled, |es| - 1);
    forall j | 0 <= j < |before| && Run(n, before[..j]).Some? ensures !ClosedByOther(Run(n, before[..j]).value, before[j], id) {
      assert before[..j] == es[..j];
    }
  }

  lemma {:induction false} SafeRun(dns: Handle, es: seq<Event>, id: nat)
    requires Run(Start(dns), es).Some? && ClientRun(Start(dns), es) && NeverClosedByOther(Start(dns), es, id)
    ensures Safe(Run(Start(dns), es).value, id)
    decreases |es|
  {
    if es != [] {
      NeverClosedBefore(Start(dns), es, id);
      SafeRun(dns, es[..|es| - 1], id);
      SafeLast(dns, es, id);
    }
  }

  lemma SafeLast(dns: Handle, es: seq<Event>, id: nat)
    requires es != [] && Run(Start(dns), es).Some? && ClientRun(Start(dns), es) && NeverClosedByOther(Start(dns), es, id)
    requires Safe(Run(Start(dns), es[..|es| - 1]).value, id)
    ensures Safe(Run(Start(dns), es).value, id)
  {
    var n := Run(Start(dns), es[..|es| - 1]).value;
    assert Reachable(n);
    NeverClosedBefore(Start(dns), es, id);
    SafeStep(n, es[|es| - 1], id);
  }

  /** Connect replies exactly once: a connect whose connection no other client's Close reaches is still
      held by a live connection, or has been answered exactly once. */
  lemma AnsweredExactlyOnce(dns: Handle, es: seq<Event>, id: nat)
    requires Run(Start(dns), es).Some? && ClientRun(Start(dns), es) && NeverClosedByOther(Start(dns), es, id)
    requires id in Run(Start(dns), es).value.pipes
    ensures var n := Run(Start(dns), es).value;
            id !in n.dropped && Count(n.replies, id) == if Held(n, id) then 0 else 1
  {
    SafeRun(dns, es, id);
    StartInv(dns);
    RunKeeps(Start(dns), es);
    assert LedgerOk(Run(Start(dns), es).value, id);
  }

  // ---- a freed handle in use again ----------------------------------------

  ghost predicate ClientReachable(n: Net) {
    exists dns, es :: Run(Start(dns), es) == Some(n) && ClientRun(Start(dns), es)
  }

  lemma ClientStep(n: Net, e: Event, n': Net)
    requires ClientReachable(n) && Entitled(n, e) && Apply(n, e) == Some(n')
    ensures ClientReachable(n')
  {
    var dns, es :| Run(Start(dns), es) == Some(n) && ClientRun(Start(dns), es);
    var longer := es + [e];
    assert longer[..|longer| - 1] == es;
    forall i | 0 <= i < |longer| && Run(Start(dns), longer[..i]).Some?
      ensures Entitled(Run(Start(dns), longer[..i]).value, longer[i])
    {
      if i < |es| {
        assert longer[..i] == es[..i];
      }
    }
    assert Run(Start(dns), longer) == Some(n');
  }

  /** A whole service of h when there is nothing to send or to receive. */
  lemma QuietService(n: Net, h: Handle, a: Net, b: Net, n': Net)
    requires ClientReachable(n) && IsConn(n, h) && n.conns[h].outBuf == [] && n.sockets[h].sock.rx == []
    requires Apply(n, Answer(h)) == Some(a)
    requires b == a.(cursor := Serving(h, Ending, a.cursor.remove)) && Apply(b, Finish) == Some(n')
    ensures ClientReachable(n')
  {
    var mid := a.(cursor := Serving(h, Receiving, a.cursor.remove));
    QuietLoops(n, h, a, mid, b);
    ClientStep(n, Answer(h), a);
    ClientStep(a, EndSend, mid);
    ClientStep(mid, EndRecv, b);
    ClientStep(b, Finish, n');
  }

  lemma QuietLoops(n: Net, h: Handle, a: Net, mid: Net, b: Net)
    requires IsConn(n, h) && n.conns[h].outBuf == [] && n.sockets[h].sock.rx == []
    requires AnswerConnect(n, h) == Some(a)
    requires mid == a.(cursor := Serving(h, Receiving, a.cursor.remove))
    requires b == a.(cursor := Serving(h, Ending, a.cursor.remove))
    ensures Apply(a, EndSend) == Some(mid) && Apply(mid, EndRecv) == Some(b)
  {
  }

  /** Connect 7 on handle 1, in the given state; its reply is sent iff it is not held any more. */
  function First(state: TcpState, held: bool, cursor: Cursor): Net {
    Net(map[0 := Dns, 1 := Tcp(NewSock(FIRST_PORT).(state := state))], 0, map[1 := Conn(7, [], held, false, [], None)],
        FIRST_PORT + 1, map[7 := FRESH_PIPE], if held then [] else [Reply(7, Connected(1))], {}, cursor)
  }

  /** Connect 7 came and went; its client was told of handle 1. */
  function Gone(): Net {
    Net(map[0 := Dns], 0, map[], FIRST_PORT + 1, map[7 := CLOSED_PIPE], [Reply(7, Connected(1))], {}, Idle)
  }

  /** Connect 8 on handle 1 again, still connecting. */
  function Second(closing: bool, cursor: Cursor): Net {
    Net(map[0 := Dns, 1 := Tcp(NewSock(FIRST_PORT + 1))], 0,
        map[1 := Conn(8, [], true, closing, [], if closing then Some(0) else None)], FIRST_PORT + 2,
        map[7 := CLOSED_PIPE, 8 := FRESH_PIPE], [Reply(7, Connected(1))], {}, cursor)
  }

  /** Connect 8 gone unanswered. */
  function Lost(): Net {
    Net(map[0 := Dns], 0, map[], FIRST_PORT + 2, map[7 := CLOSED_PIPE, 8 := CLOSED_PIPE], [Reply(7, Connected(1))], {8}, Idle)
  }

  lemma OpenSteps()
    ensures Apply(Start(0), Connect(7, 1, true)) == Some(First(SynSent, true, Idle))
    ensures Apply(Gone(), Connect(8, 1, true)) == Some(Second(false, Idle))
  {
    assert Start(0).sockets[1 := Tcp(NewSock(FIRST_PORT))] == First(SynSent, true, Idle).sockets;
    assert Gone().sockets[1 := Tcp(NewSock(FIRST_PORT + 1))] == Second(false, Idle).sockets;
    assert Gone().pipes[8 := FRESH_PIPE] == Second(false, Idle).pipes;
  }

  lemma ProgressStep(state: TcpState, held: bool, next: TcpState)
    ensures Apply(First(state, held, Idle), Progress(1, next, 0, 0, [], 0)) == Some(First(next, held, Idle))
  {
    assert NewSock(FIRST_PORT).rx + [] == NewSock(FIRST_PORT).rx && IsConn(First(state, held, Idle), 1);
    assert First(state, held, Idle).sockets[1 := Tcp(NewSock(FIRST_PORT).(state := next))] == First(next, held, Idle).sockets;
  }

  lemma AnswerSteps()
    ensures Apply(First(Established, true, Idle), Answer(1)) == Some(First(Established, false, Serving(1, Sending, false)))
    ensures Apply(First(Closed, false, Idle), Answer(1)) == Some(First(Closed, false, Serving(1, Sending, false)))
    ensures Apply(Second(true, Idle), Answer(1)) == Some(Second(true, Serving(1, Sending, false)))
  {
    var held := First(Established, true, Idle);
    assert held.conns[1 := Conn(7, [], false, false, [], None)] == First(Established, false, Idle).conns;
    assert held.replies + [Reply(7, Connected(1))] == First(Established, false, Idle).replies;
    assert IsConn(held, 1) && IsConn(First(Closed, false, Idle), 1) && IsConn(Second(true, Idle), 1);
  }

  lemma KeepStep()
    ensures Apply(First(Established, false, Serving(1, Ending, false)), Finish) == Some(First(Established, false, Idle))
  {
    var n := First(Established, false, Serving(1, Ending, false));
    assert IsConn(n, 1);
    assert n.sockets[1 := n.sockets[1]] == n.sockets;
  }

  lemma FreeStep()
    ensures Apply(First(Closed, false, Serving(1, Ending, false)), Finish) == Some(Gone())
  {
    var n := First(Closed, false, Serving(1, Ending, false));
    assert IsConn(n, 1);
    assert n.sockets - {1} == Gone().sockets && n.conns - {1} == Gone().conns && n.pipes[7 := CLOSED_PIPE] == Gone().pipes;
  }

  lemma LoseStep()
    ensures Apply(Second(true, Serving(1, Ending, false)), Finish) == Some(Lost())
  {
    var n := Second(true, Serving(1, Ending, false));
    assert IsConn(n, 1);
    assert n.sockets - {1} == Lost().sockets && n.conns - {1} == Lost().conns && n.pipes[8 := CLOSED_PIPE] == Lost().pipes;
    assert n.dropped + {8} == Lost().dropped;
  }

  lemma FirstGone()
    ensures ClientReachable(Gone())
  {
    assert Run(Start(0), []) == Some(Start(0)) && ClientRun(Start(0), []);
    OpenSteps();
    AnswerSteps();
    KeepStep();
    FreeStep();
    ClientStep(Start(0), Connect(7, 1, true), First(SynSent, true, Idle));
    ProgressStep(SynSent, true, Established);
    ClientStep(First(SynSent, true, Idle), Progress(1, Established, 0, 0, [], 0), First(Established, true, Idle));
    QuietService(First(Established, true, Idle), 1, First(Established, false, Serving(1, Sending, false)),
                 First(Established, false, Serving(1, Ending, false)), First(Established, false, Idle));
    ProgressStep(Established, false, Closed);
    ClientStep(First(Established, false, Idle), Progress(1, Closed, 0, 0, [], 0), First(Closed, false, Idle));
    QuietService(First(Closed, false, Idle), 1, First(Closed, false, Serving(1, Sending, false)),
                 First(Closed, false, Serving(1, Ending, false)), Gone());
  }

  /** A remote reset frees handle 1, the next connect gets it, and the first client still has its
      stream object: then any byte it sends, or its Close, goes to the second client's connection. */
  lemma HandleReused()
    ensures ClientReachable(Second(false, Idle))
    ensures var n := Second(false, Idle);
            && Entitled(n, Send(7, 1, [42])) && Spoils(n, Send(7, 1, [42]))
            && Entitled(n, Close(7, 1)) && Spoils(n, Close(7, 1)) && ClosedByOther(n, Close(7, 1), 8)
  {
    FirstGone();
    OpenSteps();
    ClientStep(Gone(), Connect(8, 1, true), Second(false, Idle));
  }

  /** The Close that dropping the stale stream object sends makes the second connect's reply vanish. */
  lemma StaleCloseDropsReply()
    ensures exists n :: ClientReachable(n) && Reply(7, Connected(1)) in n.replies && 8 in n.dropped
  {
    HandleReused();
    assert Apply(Second(false, Idle), Close(7, 1)) == Some(Second(true, Idle)) by {
      assert Second(false, Idle).conns[1 := Second(true, Idle).conns[1]] == Second(true, Idle).conns;
    }
    ClientStep(Second(false, Idle), Close(7, 1), Second(true, Idle));
    AnswerSteps();
    LoseStep();
    QuietService(Second(true, Idle), 1, Second(true, Serving(1, Sending, false)), Second(true, Serving(1, Ending, false)), Lost());
    assert ClientReachable(Lost()) && Reply(7, Connected(1)) in Lost().replies && 8 in Lost().dropped;
  }
}
