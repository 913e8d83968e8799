/** The resolver half of the netstack actor: queries in flight in the DNS socket and the
    requests waiting for them. */
module Resolver {
  import opened Options

  type Ip = nat

  datatype Status = InFlight | Done(addrs: seq<Ip>) | Failed

  /** A waiting request: the socket's query slot and the identity of the request to answer. */
  datatype Waiting = Waiting(query: nat, id: nat)

  datatype Result = Address(ip: Ip) | NoAddress | ResolutionFailed | BadQuery

  datatype Reply = Reply(id: nat, result: Result)

  /** The socket's live slots, the requests in order, and every reply sent so far. */
  datatype Dns = Dns(queries: map<nat, Status>, pending: seq<Waiting>, replies: seq<Reply>)

  const START := Dns(map[], [], [])

  /** The answer a finished query gives. */
  function ResultOf(status: Status): Result
    requires !status.InFlight?
  {
    if status.Failed? then ResolutionFailed
    else if status.addrs == [] then NoAddress
    else Address(status.addrs[0])
  }

  predicate Finished(queries: map<nat, Status>, w: Waiting) {
    w.query in queries && !queries[w.query].InFlight?
  }

  /** The requests still waiting, in their old order. */
  function StillPending(queries: map<nat, Status>, pending: seq<Waiting>): (rest: seq<Waiting>)
    ensures |rest| <= |pending|
  {
    if pending == [] then []
    else (if Finished(queries, pending[0]) then [] else [pending[0]]) + StillPending(queries, pending[1..])
  }

  /** The replies due, in the order of the requests. */
  function Due(queries: map<nat, Status>, pending: seq<Waiting>): seq<Reply> {
    if pending == [] then []
    else (if Finished(queries, pending[0]) then [Reply(pending[0].id, ResultOf(queries[pending[0].query]))] else [])
         + Due(queries, pending[1..])
  }

  /** The slots that reading the finished queries frees. */
  function Freed(queries: map<nat, Status>, pending: seq<Waiting>): set<nat> {
    set w | w in pending && Finished(queries, w) :: w.query
  }

  function Serviced(d: Dns): Dns {
    Dns(d.queries - Freed(d.queries, d.pending), StillPending(d.queries, d.pending),
        d.replies + Due(d.queries, d.pending))
  }

  datatype Event =
    | Resolve(id: nat, literal: Option<Ip>, slot: Option<nat>)  // slot: start_query's, None if it refuses
    | Advance(query: nat, status: Status)                       // the socket makes progress
    | Service

  predicate Asked(d: Dns, id: nat) {
    (exists w :: w in d.pending && w.id == id) || (exists r :: r in d.replies && r.id == id)
  }

  function Apply(d: Dns, e: Event): Option<Dns> {
    match e
    case Resolve(id, literal, slot) =>
      if Asked(d, id) then None
      else if literal.Some? then Some(d.(replies := d.replies + [Reply(id, Address(literal.value))]))
      else if slot.None? then Some(d.(replies := d.replies + [Reply(id, BadQuery)]))
      else if slot.value in d.queries then None
      else Some(d.(queries := d.queries[slot.value := InFlight], pending := d.pending + [Waiting(slot.value, id)]))
    case Advance(query, status) =>
      if query in d.queries && d.queries[query].InFlight? then Some(d.(queries := d.queries[query := status])) else None
    case Service => Some(Serviced(d))
  }

  function Run(d: Dns, es: seq<Event>): Option<Dns>
    decreases |es|
  {
    if es == [] then Some(d) else
    match Run(d, es[..|es| - 1])
    case None => None
    case Some(mid) => Apply(mid, es[|es| - 1])
  }

  // ---- the invariant ------------------------------------------------------

  ghost predicate DistinctQueries(pending: seq<Waiting>) {
    forall i, j :: 0 <= i < j < |pending| ==> pending[i].query != pending[j].query
  }

  /** Pending requests and live slots match one to one, so no freed slot is ever polled again. */
  ghost predicate Matched(queries: map<nat, Status>, pending: seq<Waiting>) {
    DistinctQueries(pending) &&
    (forall w :: w in pending ==> w.query in queries) &&
    (forall q :: q in queries ==> exists w :: w in pending && w.query == q)
  }

  function InPending(pending: seq<Waiting>, id: nat): nat {
    if pending == [] then 0 else (if pending[0].id == id then 1 else 0) + InPending(pending[1..], id)
  }

  function InReplies(replies: seq<Reply>, id: nat): nat {
    if replies == [] then 0 else (if replies[0].id == id then 1 else 0) + InReplies(replies[1..], id)
  }

  /** A request is waiting once, or was answered once, or was never made. */
  ghost predicate Once(d: Dns, id: nat) {
    InPending(d.pending, id) + InReplies(d.replies, id) <= 1
  }

  ghost predicate Inv(d: Dns) {
    Matched(d.queries, d.pending) && forall id :: Once(d, id)
  }

  lemma {:induction false} PendingConcat(a: seq<Waiting>, b: seq<Waiting>, id: nat)
    ensures InPending(a + b, id) == InPending(a, id) + InPending(b, id)
  {
    if a == [] {
      assert a + b == b;
    } else {
      assert (a + b)[1..] == a[1..] + b;
      PendingConcat(a[1..], b, id);
    }
  }

  lemma {:induction false} RepliesConcat(a: seq<Reply>, b: seq<Reply>, id: nat)
    ensures InReplies(a + b, id) == InReplies(a, id) + InReplies(b, id)
  {
    if a == [] {
      assert a + b == b;
    } else {
      assert (a + b)[1..] == a[1..] + b;
      RepliesConcat(a[1..], b, id);
    }
  }

  lemma {:induction false} CountZero(d: Dns, id: nat)
    requires !Asked(d, id)
    ensures InPending(d.pending, id) == 0 && InReplies(d.replies, id) == 0
    decreases |d.pending| + |d.replies|
  {
    if d.pending != [] {
      var rest := d.(pending := d.pending[1..]);
      assert d.pending[0].id != id;
      CountZero(rest, id);
    } else if d.replies != [] {
      var rest := d.(replies := d.replies[1..]);
      assert d.replies[0].id != id;
      CountZero(rest, id);
    }
  }

  /** Servicing moves each finished request from the pending list to the replies, once. */
  lemma {:induction false} ServiceCounts(queries: map<nat, Status>, pending: seq<Waiting>, id: nat)
    ensures InPending(StillPending(queries, pending), id) + InReplies(Due(queries, pending), id) == InPending(pending, id)
  {
    if pending != [] {
      ServiceCounts(queries, pending[1..], id);
      var head := if Finished(queries, pending[0]) then [] else [pending[0]];
      PendingConcat(head, StillPending(queries, pending[1..]), id);
      var first := if Finished(queries, pending[0]) then [Reply(pending[0].id, ResultOf(queries[pending[0].query]))] else [];
      RepliesConcat(first, Due(queries, pending[1..]), id);
    }
  }

  lemma {:induction false} StillPendingIn(queries: map<nat, Status>, pending: seq<Waiting>)
    ensures forall w :: w in StillPending(queries, pending) <==> w in pending && !Finished(queries, w)
    ensures DistinctQueries(pending) ==> DistinctQueries(StillPending(queries, pending))
  {
    if pending != [] {
      StillPendingIn(queries, pending[1..]);
      if DistinctQueries(pending) && !Finished(queries, pending[0]) {
        var rest := StillPending(queries, pending[1..]);
        forall i | 0 <= i < |rest| ensures rest[i].query != pending[0].query {
          assert rest[i] in pending[1..];
        }
      }
    }
  }

  lemma ServiceMatched(queries: map<nat, Status>, pending: seq<Waiting>)
    requires Matched(queries, pending)
    ensures Matched(queries - Freed(queries, pending), StillPending(queries, pending))
  {
    StillPendingIn(queries, pending);
    var left, rest := queries - Freed(queries, pending), StillPending(queries, pending);
    forall w | w in rest ensures w.query in left {
      SameQuerySameRequest(pending, w);
    }
    forall q | q in left ensures exists w :: w in rest && w.query == q {
      var w :| w in pending && w.query == q;
      assert w in rest;
    }
  }

  lemma SameQuerySameRequest(pending: seq<Waiting>, w: Waiting)
    requires DistinctQueries(pending) && w in pending
    ensures forall v :: v in pending && v.query == w.query ==> v == w
  {
  }

  lemma StepKeeps(d: Dns, e: Event)
    requires Inv(d) && Apply(d, e).Some?
    ensures Inv(Apply(d, e).value)
  {
    var d' := Apply(d, e).value;
    match e
    case Resolve(id, literal, slot) =>
      CountZero(d, id);
      forall j ensures Once(d', j) {
        assert Once(d, j);
        if literal.Some? || slot.None? {
          RepliesConcat(d.replies, d'.replies[|d.replies|..], j);
          assert d'.replies == d.replies + d'.replies[|d.replies|..];
        } else {
          PendingConcat(d.pending, [Waiting(slot.value, id)], j);
        }
      }
      if literal.None? && slot.Some? {
        forall q | q in d'.queries ensures exists w :: w in d'.pending && w.query == q {
          if q == slot.value {
            assert d'.pending[|d.pending|].query == q;
          } else {
            var w :| w in d.pending && w.query == q;
            assert w in d'.pending;
          }
        }
      }
    case Advance(_, _) =>
      forall j ensures Once(d', j) {
        assert Once(d, j);
      }
    case Service =>
      ServiceMatched(d.queries, d.pending);
      forall j ensures Once(d', j) {
        assert Once(d, j);
        ServiceCounts(d.queries, d.pending, j);
        RepliesConcat(d.replies, Due(d.queries, d.pending), j);
      }
  }

  lemma {:induction false} RunKeeps(d: Dns, es: seq<Event>)
    requires Inv(d) && Run(d, es).Some?
    ensures Inv(Run(d, es).value)
    decreases |es|
  {
    if es != [] {
      RunKeeps(d, es[..|es| - 1]);
      StepKeeps(Run(d, es[..|es| - 1]).value, es[|es| - 1]);
    }
  }

  ghost predicate Reachable(d: Dns) {
    exists es :: Run(START, es) == Some(d)
  }

  lemma ReachableStep(d: Dns, e: Event)
    requires Reachable(d) && Apply(d, e).Some?
    ensures Reachable(Apply(d, e).value)
  {
    var es :| Run(START, es) == Some(d);
    assert (es + [e])[..|es + [e]| - 1] == es;
    assert Run(START, es + [e]) == Apply(d, e);
  }

  lemma ReachableInv(d: Dns)
    requires Reachable(d)
    ensures Inv(d)
  {
    var es :| Run(START, es) == Some(d);
    RunKeeps(START, es);
  }

  /** Over every run: slots and requests match, each request is answered at most once, and a
      service leaves exactly the unfinished requests waiting. */
  lemma ResolverRuns(es: seq<Event>, id: nat)
    requires Run(START, es).Some?
    ensures var d := Run(START, es).value;
            && Matched(d.queries, d.pending)
            && InPending(d.pending, id) + InReplies(d.replies, id) <= 1
            && (forall w :: w in Serviced(d).pending <==> w in d.pending && d.queries[w.query].InFlight?)
            && (forall w :: w in Serviced(d).pending ==> w.query in Serviced(d).queries)
  {
    RunKeeps(START, es);
    var d := Run(START, es).value;
    assert Once(d, id);
    StillPendingIn(d.queries, d.pending);
    ServiceMatched(d.queries, d.pending);
  }

  lemma StepRemembers(d: Dns, e: Event, id: nat)
    requires Inv(d) && Apply(d, e).Some?
    requires InPending(d.pending, id) + InReplies(d.replies, id) == 1
    ensures var d' := Apply(d, e).value;
            InPending(d'.pending, id) + InReplies(d'.replies, id) == 1
  {
    var d' := Apply(d, e).value;
    StepKeeps(d, e);
    assert Once(d', id);
    match e
    case Resolve(other, literal, slot) =>
      if literal.Some? || slot.None? {
        RepliesConcat(d.replies, d'.replies[|d.replies|..], id);
        assert d'.replies == d.replies + d'.replies[|d.replies|..];
      } else {
        PendingConcat(d.pending, [Waiting(slot.value, other)], id);
      }
    case Advance(_, _) =>
    case Service =>
      ServiceCounts(d.queries, d.pending, id);
      RepliesConcat(d.replies, Due(d.queries, d.pending), id);
  }

  lemma ResolveCounts(d: Dns, e: Event)
    requires Inv(d) && e.Resolve? && Apply(d, e).Some?
    ensures var d' := Apply(d, e).value; InPending(d'.pending, e.id) + InReplies(d'.replies, e.id) == 1
  {
    var d' := Apply(d, e).value;
    CountZero(d, e.id);
    if e.literal.Some? || e.slot.None? {
      RepliesConcat(d.replies, d'.replies[|d.replies|..], e.id);
      assert d'.replies == d.replies + d'.replies[|d.replies|..];
    } else {
      PendingConcat(d.pending, [Waiting(e.slot.value, e.id)], e.id);
    }
  }

  /** A request once made is never forgotten: after any further events it is waiting, or it has been
      answered, once. */
  lemma {:induction false} NeverForgotten(es: seq<Event>, i: nat)
    requires Run(START, es).Some? && i < |es| && es[i].Resolve?
    ensures var d := Run(START, es).value; InPending(d.pending, es[i].id) + InReplies(d.replies, es[i].id) == 1
    decreases |es|
  {
    var before, last := es[..|es| - 1], es[|es| - 1];
    RunKeeps(START, before);
    if i == |before| {
      ResolveCounts(Run(START, before).value, last);
    } else {
      NeverForgotten(before, i);
      StepRemembers(Run(START, before).value, last, es[i].id);
    }
  }

  /** An answer once given stays as it was. */
  lemma {:induction false} AnswersStay(es: seq<Event>, i: nat)
    requires Run(START, es).Some? && i <= |es|
    ensures Run(START, es[..i]).Some? && Run(START, es[..i]).value.replies <= Run(START, es).value.replies
    decreases |es|
  {
    if i == |es| {
      assert es[..i] == es;
    } else {
      AnswersStay(es[..|es| - 1], i);
      assert es[..|es| - 1][..i] == es[..i];
    }
  }

  // ---- which answer a request gets ----------------------------------------

  lemma {:induction false} DueHas(queries: map<nat, Status>, pending: seq<Waiting>, w: Waiting)
    requires w in pending && Finished(queries, w)
    ensures Reply(w.id, ResultOf(queries[w.query])) in Due(queries, pending)
  {
    if pending[0] != w {
      DueHas(queries, pending[1..], w);
    }
  }

  predicate Finishes(e: Event, query: nat) {
    e.Advance? && e.query == query && !e.status.InFlight?
  }

  /** The answer that a lookup's outcome calls for. */
  function AnswerFor(id: nat, status: Status): Reply
    requires !status.InFlight?
  {
    match status
    case Failed => Reply(id, ResolutionFailed)
    case Done(addrs) => Reply(id, if |addrs| == 0 then NoAddress else Address(addrs[0]))
  }

  predicate Looking(d: Dns, query: nat, id: nat) {
    Waiting(query, id) in d.pending && query in d.queries && d.queries[query].InFlight?
  }

  /** The outcome stands in the slot, or has been passed on. */
  predicate Settled(d: Dns, query: nat, id: nat, status: Status)
    requires !status.InFlight?
  {
    (Waiting(query, id) in d.pending && query in d.queries && d.queries[query] == status) || AnswerFor(id, status) in d.replies
  }

  lemma LookingStep(d: Dns, e: Event, query: nat, id: nat)
    requires Inv(d) && Looking(d, query, id) && !Finishes(e, query) && Apply(d, e).Some?
    ensures Looking(Apply(d, e).value, query, id)
  {
    if e.Service? {
      StillPendingIn(d.queries, d.pending);
      SameQuerySameRequest(d.pending, Waiting(query, id));
    }
  }

  lemma SettledStep(d: Dns, e: Event, query: nat, id: nat, status: Status)
    requires Inv(d) && !status.InFlight? && Settled(d, query, id, status) && Apply(d, e).Some?
    ensures Settled(Apply(d, e).value, query, id, status)
    ensures e.Service? ==> AnswerFor(id, status) in Apply(d, e).value.replies
  {
    if e.Service? && AnswerFor(id, status) !in d.replies {
      DueHas(d.queries, d.pending, Waiting(query, id));
    }
  }

  lemma {:induction false} LooksUntil(es: seq<Event>, i: nat, query: nat)
    requires Run(START, es).Some? && i < |es| && es[i].Resolve? && es[i].literal.None? && es[i].slot == Some(query)
    requires forall l :: i < l < |es| ==> !Finishes(es[l], query)
    ensures Looking(Run(START, es).value, query, es[i].id)
    decreases |es|
  {
    var before, last := es[..|es| - 1], es[|es| - 1];
    if i == |before| {
      var d := Run(START, before).value;
      assert (d.pending + [Waiting(query, last.id)])[|d.pending|] == Waiting(query, last.id);
    } else {
      LooksUntil(before, i, query);
      RunKeeps(START, before);
      LookingStep(Run(START, before).value, last, query, es[i].id);
    }
  }

  lemma {:induction false} SettledAfter(es: seq<Event>, i: nat, j: nat, query: nat)
    requires Run(START, es).Some? && i < j < |es| && es[i].Resolve? && es[i].literal.None? && es[i].slot == Some(query)
    requires Finishes(es[j], query) && forall l :: i < l < j ==> !Finishes(es[l], query)
    ensures Settled(Run(START, es).value, query, es[i].id, es[j].status)
    decreases |es|
  {
    var before, last := es[..|es| - 1], es[|es| - 1];
    if j == |before| {
      LooksUntil(before, i, query);
    } else {
      SettledAfter(before, i, j, query);
      RunKeeps(START, before);
      SettledStep(Run(START, before).value, last, query, es[i].id, es[j].status);
    }
  }

  /** A looked-up name: the outcome that its query came to first is what the request is answered with, at
      the next service: the first address found, or that there is none, or that the lookup failed. */
  lemma {:induction false} LookupAnswer(es: seq<Event>, i: nat, j: nat, k: nat, query: nat)
    requires Run(START, es).Some? && i < j < k < |es|
    requires es[i].Resolve? && es[i].literal.None? && es[i].slot == Some(query) && es[k].Service?
    requires Finishes(es[j], query) && forall l :: i < l < j ==> !Finishes(es[l], query)
    ensures var status, replies := es[j].status, Run(START, es).value.replies;
            && (status.Done? && |status.addrs| > 0 ==> Reply(es[i].id, Address(status.addrs[0])) in replies)
            && (status.Done? && |status.addrs| == 0 ==> Reply(es[i].id, NoAddress) in replies)
            && (status.Failed? ==> Reply(es[i].id, ResolutionFailed) in replies)
    decreases |es|
  {
    var before, last := es[..|es| - 1], es[|es| - 1];
    RunKeeps(START, before);
    if k == |before| {
      SettledAfter(before, i, j, query);
      SettledStep(Run(START, before).value, last, query, es[i].id, es[j].status);
    } else {
      LookupAnswer(before, i, j, k, query);
    }
  }

  lemma ImmediateStep(d: Dns, e: Event)
    requires e.Resolve? && Apply(d, e).Some?
    ensures e.literal.Some? ==> Reply(e.id, Address(e.literal.value)) in Apply(d, e).value.replies
    ensures e.literal.None? && e.slot.None? ==> Reply(e.id, BadQuery) in Apply(d, e).value.replies
  {
    var d' := Apply(d, e).value;
    if e.literal.Some? {
      assert d'.replies[|d.replies|] == Reply(e.id, Address(e.literal.value));
    } else if e.slot.None? {
      assert d'.replies[|d.replies|] == Reply(e.id, BadQuery);
    }
  }

  /** A literal address is answered with itself, a name no query can be started for with an error, at once
      and for good. */
  lemma {:induction false} ImmediateAnswer(es: seq<Event>, i: nat)
    requires Run(START, es).Some? && i < |es| && es[i].Resolve?
    ensures Run(START, es[..i + 1]).Some?
    ensures var replies := Run(START, es[..i + 1]).value.replies;
            && replies <= Run(START, es).value.replies
            && (es[i].literal.Some? ==> Reply(es[i].id, Address(es[i].literal.value)) in replies)
            && (es[i].literal.None? && es[i].slot.None? ==> Reply(es[i].id, BadQuery) in replies)
  {
    AnswersStay(es, i + 1);
    var upTo := es[..i + 1];
    assert upTo[..i] == es[..i] && upTo[i] == es[i];
    ImmediateStep(Run(START, upTo[..i]).value, upTo[i]);
  }

  // ---- the loop of service_dns --------------------------------------------

  /** What is left to be done from index i on. */
  function ServedFrom(d: Dns, i: nat): Dns
    requires i <= |d.pending|
  {
    Dns(d.queries - Freed(d.queries, d.pending[i..]), d.pending[..i] + StillPending(d.queries, d.pending[i..]),
        d.replies + Due(d.queries, d.pending[i..]))
  }

  /** Freeing a slot nobody in the list waits for changes nothing for the list. */
  lemma {:induction false} OtherSlot(queries: map<nat, Status>, pending: seq<Waiting>, q: nat)
    requires forall w :: w in pending ==> w.query != q
    ensures Due(queries - {q}, pending) == Due(queries, pending)
    ensures StillPending(queries - {q}, pending) == StillPending(queries, pending)
    ensures Freed(queries - {q}, pending) == Freed(queries, pending)
  {
    if pending != [] {
      OtherSlot(queries, pending[1..], q);
    }
    assert forall w :: w in pending ==> (Finished(queries - {q}, w) <==> Finished(queries, w));
  }

  /** Passing over an unfinished request leaves the same work to be done. */
  lemma SkipOne(d: Dns, i: nat)
    requires i < |d.pending| && d.pending[i].query in d.queries && d.queries[d.pending[i].query].InFlight?
    ensures ServedFrom(d, i + 1) == ServedFrom(d, i)
  {
    var w, tail := d.pending[i], d.pending[i + 1..];
    assert d.pending[i..][1..] == tail && d.pending[i..] == [w] + tail;
    assert d.pending[..i + 1] == d.pending[..i] + [w];
    assert Freed(d.queries, d.pending[i..]) == Freed(d.queries, tail);
  }

  lemma DropMatched(queries: map<nat, Status>, pending: seq<Waiting>, i: nat)
    requires i < |pending| && Matched(queries, pending)
    ensures Matched(queries - {pending[i].query}, pending[..i] + pending[i + 1..])
    ensures forall v :: v in pending[i + 1..] ==> v.query != pending[i].query
  {
    var w, rest := pending[i], pending[..i] + pending[i + 1..];
    forall q | q in queries - {w.query} ensures exists v :: v in rest && v.query == q {
      var v :| v in pending && v.query == q;
      assert v in rest;
    }
  }

  /** So does taking a finished one out, freeing its slot and answering it. */
  lemma DropOne(d: Dns, i: nat)
    requires i < |d.pending| && Finished(d.queries, d.pending[i])
    requires forall v :: v in d.pending[i + 1..] ==> v.query != d.pending[i].query
    ensures var w := d.pending[i];
            ServedFrom(Dns(d.queries - {w.query}, d.pending[..i] + d.pending[i + 1..],
                           d.replies + [Reply(w.id, ResultOf(d.queries[w.query]))]), i) == ServedFrom(d, i)
  {
    var w, tail := d.pending[i], d.pending[i + 1..];
    var head, reply := d.pending[..i], Reply(w.id, ResultOf(d.queries[w.query]));
    assert d.pending[i..][1..] == tail && d.pending[i..] == [w] + tail;
    OtherSlot(d.queries, tail, w.query);
    CutAt(head, tail);
    FreeBoth(d.queries, w.query, Freed(d.queries, tail));
    FreedStep(d.queries, w, tail);
    OneMore(d.replies, reply, Due(d.queries, tail));
  }

  lemma FreedStep(queries: map<nat, Status>, w: Waiting, tail: seq<Waiting>)
    requires Finished(queries, w)
    ensures Freed(queries, [w] + tail) == {w.query} + Freed(queries, tail)
  {
  }

  lemma CutAt(head: seq<Waiting>, tail: seq<Waiting>)
    ensures (head + tail)[..|head|] == head && (head + tail)[|head|..] == tail
  {
  }

  lemma FreeBoth(queries: map<nat, Status>, q: nat, freed: set<nat>)
    ensures queries - {q} - freed == queries - ({q} + freed)
  {
  }

  lemma OneMore(replies: seq<Reply>, reply: Reply, more: seq<Reply>)
    ensures replies + [reply] + more == replies + ([reply] + more)
  {
  }

  lemma ServedEnds(d: Dns)
    ensures ServedFrom(d, 0) == Serviced(d) && ServedFrom(d, |d.pending|) == d
  {
    assert d.pending[0..] == d.pending && d.pending[|d.pending|..] == [];
    assert Freed(d.queries, []) == {};
    assert d.queries - {} == d.queries;
  }
}
