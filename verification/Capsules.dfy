/** The HTTP/2 path: IP packets as DATAGRAM capsules (sections 3.2 and 3.5 of RFC 9297, with
    the bare packet as value) on a byte stream cut into DATA frames anywhere. */
module Capsules {
  import opened Options
  import opened Varint
  import opened Sequences
  import opened Framing

  const CAPSULE_DATAGRAM: nat := 0

  /** Type, length, value. */
  function EncodeCapsule(pkt: Packet): seq<byte> {
    Encode(CAPSULE_DATAGRAM) + Encode(|pkt| % U64) + pkt
  }

  /** A capsule at the front of a buffer; None when it has not fully arrived. */
  function Capsule(buf: seq<byte>): (c: Option<Frame>)
    ensures c.Some? ==> 2 <= c.value.offset <= c.value.total <= |buf|
  {
    match Decode(buf)
    case None => None
    case Some(t) =>
      match Decode(buf[t.used..])
      case None => None
      case Some(l) =>
        var header := t.used + l.used;
        if |buf| - header < l.value then None else Some(Frame(t.value, header, header + l.value))
  }

  /** One greedy parse of a whole stream into DATAGRAM values. */
  function Parse(s: seq<byte>): Parsed {
    Greedy(Capsule, CAPSULE_DATAGRAM, s)
  }

  function EncodeAll(pkts: seq<Packet>): seq<byte> {
    WriteAll(EncodeCapsule, pkts)
  }

  // ---- the capsule format as a framing ------------------------------------

  /** A parsed capsule is unchanged by appending bytes. */
  lemma CapsuleExtends(s: seq<byte>, t: seq<byte>)
    requires Capsule(s).Some?
    ensures Capsule(s + t) == Capsule(s)
  {
    var d := Decode(s).value;
    DecodeExtends(s, t);
    DecodeExtends(s[d.used..], t);
    assert (s + t)[d.used..] == s[d.used..] + t;
  }

  lemma CapsulesAreStable()
    ensures Stable(Capsule)
  {
    forall s, t | Capsule(s).Some? ensures Capsule(s + t) == Capsule(s) {
      CapsuleExtends(s, t);
    }
  }

  /** The length field says `len`, in `used` bytes, and that many bytes are there. */
  lemma CapsuleOf(pkt: Packet, suffix: seq<byte>, len: nat, used: nat)
    requires Decode(Encode(|pkt| % U64) + (pkt + suffix)) == Some(Decoded(len, used))
    requires used == |Encode(|pkt| % U64)| && len <= |pkt| + |suffix|
    ensures Capsule(EncodeCapsule(pkt) + suffix) == Some(Frame(CAPSULE_DATAGRAM, 1 + used, 1 + used + len))
  {
    var s, head, length := EncodeCapsule(pkt) + suffix, Encode(CAPSULE_DATAGRAM), Encode(|pkt| % U64);
    var body := length + (pkt + suffix);
    ZeroType(body);
    Regroup(head, length, pkt, suffix);
    CapsuleFrom(s, Decoded(CAPSULE_DATAGRAM, 1), Decoded(len, used));
  }

  lemma Regroup(head: seq<byte>, length: seq<byte>, pkt: seq<byte>, suffix: seq<byte>)
    ensures var s := head + length + pkt + suffix;
            s == head + (length + (pkt + suffix)) && s[|head|..] == length + (pkt + suffix)
  {
  }

  lemma Unpadded(s: seq<byte>)
    ensures s + [] == s
  {
  }

  lemma CapsuleFrom(s: seq<byte>, t: Decoded, l: Decoded)
    requires Decode(s) == Some(t) && t.used <= |s| && Decode(s[t.used..]) == Some(l) && t.used + l.used + l.value <= |s|
    ensures Capsule(s) == Some(Frame(t.value, t.used + l.used, t.used + l.used + l.value))
  {
  }

  lemma ZeroType(body: seq<byte>)
    ensures |Encode(CAPSULE_DATAGRAM)| == 1
    ensures Decode(Encode(CAPSULE_DATAGRAM) + body) == Some(Decoded(CAPSULE_DATAGRAM, 1))
  {
    RoundTrip(CAPSULE_DATAGRAM, body);
  }

  /** A capsule of a packet below 2^62 bytes parses back, whatever follows. */
  lemma CapsuleRoundTrip(pkt: Packet, suffix: seq<byte>)
    requires |pkt| < VARINT_LIMIT
    ensures var s := EncodeCapsule(pkt) + suffix;
            Capsule(s) == Some(Frame(CAPSULE_DATAGRAM, |EncodeCapsule(pkt)| - |pkt|, |EncodeCapsule(pkt)|)) &&
            s[|EncodeCapsule(pkt)| - |pkt|..|EncodeCapsule(pkt)|] == pkt
  {
    LengthReads(pkt, suffix);
    CapsuleOf(pkt, suffix, |pkt|, VarintLen(|pkt|));
    Middle(Encode(CAPSULE_DATAGRAM) + Encode(|pkt| % U64), pkt, suffix);
  }

  /** A DATAGRAM capsule byte by byte: type 0, the length in its shortest form, the bare packet. */
  lemma CapsuleBytes(pkt: Packet)
    requires |pkt| < VARINT_LIMIT
    ensures EncodeCapsule(pkt) == [0] + EncodeAs(|pkt|, VarintLen(|pkt|)) + pkt
    ensures |pkt| < 0x40 ==> EncodeCapsule(pkt) == [0, |pkt|] + pkt
    ensures 0x40 <= |pkt| < 0x4000 ==> EncodeCapsule(pkt) == [0, 0x40 + |pkt| / 256, |pkt| % 256] + pkt
  {
    var n := VarintLen(|pkt|);
    WireForm(0, 1, 0);
    WireForm(|pkt|, n, 0);
    assert |pkt| % U64 == |pkt|;
    assert Encode(CAPSULE_DATAGRAM) == [0] && Encode(|pkt| % U64) == EncodeAs(|pkt|, n);
  }

  /** What parses is a whole capsule: a type and a length in some valid forms, and as many bytes as the
      length says. (AnyCapsuleParses is the converse.) */
  lemma ParsedIsWhole(s: seq<byte>) returns (n: nat, m: nat)
    requires Capsule(s).Some?
    ensures var c := Capsule(s).value;
            && IsLength(n) && IsLength(m) && c.ctype < Limit(n) && c.total - c.offset < Limit(m) && c.offset == n + m
            && c.total <= |s| && s[..c.offset] == EncodeAs(c.ctype, n) + EncodeAs(c.total - c.offset, m)
  {
    TwoInFront(s);
    n := Decode(s).value.used;
    m := Decode(s[n..]).value.used;
  }

  lemma LengthReads(pkt: Packet, suffix: seq<byte>)
    requires |pkt| < VARINT_LIMIT
    ensures Decode(Encode(|pkt| % U64) + (pkt + suffix)) == Some(Decoded(|pkt|, VarintLen(|pkt|)))
    ensures |Encode(|pkt| % U64)| == VarintLen(|pkt|)
  {
    assert |pkt| % U64 == |pkt|;
    RoundTrip(|pkt|, pkt + suffix);
  }

  lemma CapsulesReadBack(pkt: Packet)
    requires |pkt| < VARINT_LIMIT
    ensures ReadsBack(Capsule, EncodeCapsule, CAPSULE_DATAGRAM, pkt)
  {
    forall suffix ensures var s := EncodeCapsule(pkt) + suffix;
      Capsule(s).Some? && Capsule(s).value.total == |EncodeCapsule(pkt)| && Fits(s, Capsule(s).value) &&
      ValueOf(CAPSULE_DATAGRAM, s, Capsule(s).value) == [pkt]
    {
      CapsuleRoundTrip(pkt, suffix);
    }
  }

  lemma LongLengthReads(pkt: Packet)
    requires VARINT_LIMIT <= |pkt| < U64
    ensures Decode(Encode(|pkt| % U64) + (pkt + [])) == Some(Decoded(|pkt| % VARINT_LIMIT, 8))
    ensures |Encode(|pkt| % U64)| == 8 && |pkt| % VARINT_LIMIT < |pkt|
  {
    assert |pkt| % U64 == |pkt|;
    RoundTrip(|pkt|, pkt + []);
  }

  /** From 2^62 bytes on the length field cannot say how long the packet is. */
  lemma OversizedCapsule(pkt: Packet)
    requires VARINT_LIMIT <= |pkt| < U64
    ensures Capsule(EncodeCapsule(pkt)).Some? && Capsule(EncodeCapsule(pkt)).value.total < |EncodeCapsule(pkt)|
  {
    LongLengthReads(pkt);
    CapsuleOf(pkt, [], |pkt| % VARINT_LIMIT, 8);
    Unpadded(EncodeCapsule(pkt));
  }

  // ---- the code's loops ---------------------------------------------------

  /** parse_capsule with its moving cursor. */
  method ParseCapsule(buf: seq<byte>) returns (c: Option<Frame>)
    ensures c == Capsule(buf)
  {
    var before := |buf|;
    var ctype, p := DecodeVarint(buf);
    if ctype.None? {
      return None;
    }
    var clen, q := DecodeVarint(p);
    if clen.None? {
      return None;
    }
    var header := before - |q|;
    if |q| < clen.value {
      return None;
    }
    return Some(Frame(ctype.value, header, header + clen.value));
  }

  method EncodeDatagramCapsule(pkt: Packet) returns (cap: seq<byte>)
    ensures cap == EncodeCapsule(pkt)
  {
    cap := EncodeVarint([], CAPSULE_DATAGRAM);
    cap := EncodeVarint(cap, |pkt| % U64);
    cap := cap + pkt;
  }

  /** What the receive stream yields: data, or a stream error. */
  datatype Arrival = Data(bytes: seq<byte>) | Failed

  /** The bytes that arrive before the stream ends or fails. */
  function Stream(arrivals: seq<Arrival>): seq<byte> {
    if arrivals == [] || arrivals[0].Failed? then [] else arrivals[0].bytes + Stream(arrivals[1..])
  }

  lemma {:induction false} StreamSnoc(arrivals: seq<Arrival>, k: nat)
    requires k < |arrivals| && AllData(arrivals, k)
    ensures Stream(arrivals[..k + 1]) == Stream(arrivals[..k]) + if arrivals[k].Data? then arrivals[k].bytes else []
    ensures arrivals[k].Failed? ==> Stream(arrivals) == Stream(arrivals[..k])
    decreases k
  {
    if k > 0 {
      assert arrivals[..k + 1][1..] == arrivals[1..][..k] && arrivals[..k][1..] == arrivals[1..][..k - 1];
      StreamSnoc(arrivals[1..], k - 1);
    }
  }

  /** The inner loop of reader_loop: hand on every whole capsule in the buffer.
      `hangup` is how many packets the receiving side takes before it is dropped. */
  method Drain(arrived: seq<byte>, before: seq<Packet>, hangup: Option<nat>)
    returns (delivered: seq<Packet>, buf: seq<byte>, open: bool)
    requires hangup.Some? ==> |before| <= hangup.value
    ensures open ==> delivered == before + Parse(arrived).packets && buf == Parse(arrived).rest
    ensures open && hangup.Some? ==> |delivered| <= hangup.value
    ensures !open ==> hangup == Some(|delivered|) && delivered < before + Parse(arrived).packets
  {
    delivered, buf := before, arrived;
    var c := ParseCapsule(buf);
    while c.Some?
      invariant c == Capsule(buf)
      invariant before + Parse(arrived).packets == delivered + Parse(buf).packets && Parse(arrived).rest == Parse(buf).rest
      invariant hangup.Some? ==> |delivered| <= hangup.value
      decreases |buf|
    {
      GreedyStep(Capsule, CAPSULE_DATAGRAM, buf, c.value);
      ghost var later := Parse(buf[c.value.total..]).packets;
      if c.value.ctype == CAPSULE_DATAGRAM {
        var value := buf[c.value.offset..c.value.total];
        Assoc(delivered, [value], later);
        if hangup == Some(|delivered|) {
          open := false;
          return;
        }
        delivered := delivered + [value];
      } else {
        assert [] + later == later;
      }
      buf := buf[c.value.total..];
      c := ParseCapsule(buf);
    }
    open := true;
  }

  /** reader_loop: whatever the cuts, the packets of one greedy parse of the whole stream, and
      what is kept in the end holds no whole capsule. */
  method ReaderLoop(arrivals: seq<Arrival>, hangup: Option<nat>) returns (delivered: seq<Packet>, buf: seq<byte>)
    ensures var whole := Parse(Stream(arrivals));
            if hangup.Some? && hangup.value < |whole.packets| then delivered == whole.packets[..hangup.value]
            else delivered == whole.packets && buf == whole.rest && Capsule(buf).None?
  {
    NoCapsuleLeft(Stream(arrivals));
    delivered, buf := [], [];
    NothingYet(arrivals);
    for i := 0 to |arrivals|
      invariant AllData(arrivals, i)
      invariant Parse(Stream(arrivals[..i])) == Parsed(delivered, buf)
      invariant hangup.Some? ==> |delivered| <= hangup.value
    {
      if arrivals[i].Failed? {
        StreamSnoc(arrivals, i);
        return;
      }
      NextChunk(arrivals, i, delivered, buf);
      var open;
      delivered, buf, open := Drain(buf + arrivals[i].bytes, delivered, hangup);
      if !open {
        StreamPrefix(arrivals, i + 1, delivered);
        return;
      }
    }
    assert arrivals[..|arrivals|] == arrivals;
  }

  lemma NoCapsuleLeft(s: seq<byte>)
    ensures Capsule(Parse(s).rest).None?
  {
    CapsulesAreStable();
    RestIsStuck(Capsule, CAPSULE_DATAGRAM, s);
  }

  predicate AllData(arrivals: seq<Arrival>, k: nat)
    requires k <= |arrivals|
  {
    forall i :: 0 <= i < k ==> arrivals[i].Data?
  }

  lemma NothingYet(arrivals: seq<Arrival>)
    ensures Parse(Stream(arrivals[..0])) == Parsed([], [])
  {
  }

  /** One more chunk on top of an exactly parsed stream. */
  lemma NextChunk(arrivals: seq<Arrival>, k: nat, delivered: seq<Packet>, buf: seq<byte>)
    requires k < |arrivals| && AllData(arrivals, k) && arrivals[k].Data?
    requires Parse(Stream(arrivals[..k])) == Parsed(delivered, buf)
    ensures AllData(arrivals, k + 1)
    ensures Parse(Stream(arrivals[..k + 1]))
         == Parsed(delivered + Parse(buf + arrivals[k].bytes).packets, Parse(buf + arrivals[k].bytes).rest)
  {
    StreamSnoc(arrivals, k);
    CapsulesAreStable();
    GreedyConcat(Capsule, CAPSULE_DATAGRAM, Stream(arrivals[..k]), arrivals[k].bytes);
  }

  /** More arrivals only append packets, so what was delivered early is how the whole begins. */
  lemma StreamPrefix(arrivals: seq<Arrival>, k: nat, delivered: seq<Packet>)
    requires k <= |arrivals| && AllData(arrivals, k)
    requires delivered < Parse(Stream(arrivals[..k])).packets
    ensures |delivered| < |Parse(Stream(arrivals)).packets|
    ensures delivered == Parse(Stream(arrivals)).packets[..|delivered|]
  {
    StreamSplit(arrivals, k);
    CapsulesAreStable();
    GreedyConcat(Capsule, CAPSULE_DATAGRAM, Stream(arrivals[..k]), Stream(arrivals[k..]));
  }

  lemma {:induction false} StreamSplit(arrivals: seq<Arrival>, k: nat)
    requires k <= |arrivals| && AllData(arrivals, k)
    ensures Stream(arrivals) == Stream(arrivals[..k]) + Stream(arrivals[k..])
  {
    if k > 0 {
      StreamSplit(arrivals[1..], k - 1);
      assert arrivals[..k][1..] == arrivals[1..][..k - 1] && arrivals[1..][k - 1..] == arrivals[k..];
      Assoc(arrivals[0].bytes, Stream(arrivals[1..][..k - 1]), Stream(arrivals[k..]));
    }
  }

  /** The sending half of the HTTP/2 stream: what was written, how much the peer's window still takes,
      and (foretold) how many more send_data calls succeed. */
  class SendStream {
    var wire: seq<byte>
    var capacity: nat
    var accepts: nat

    constructor (accepts: nat)
      ensures wire == [] && capacity == 0 && this.accepts == accepts
    {
      wire, capacity := [], 0;
      this.accepts := accepts;
    }

    /** The transport may refuse; it never takes part of the data. Flow control is the caller's duty. */
    method SendData(data: seq<byte>) returns (ok: bool)
      requires |data| <= capacity
      modifies this
      ensures ok <==> old(accepts) > 0
      ensures wire == if ok then old(wire) + data else old(wire)
      ensures capacity == if ok then old(capacity) - |data| else old(capacity)
      ensures accepts == if ok then old(accepts) - 1 else 0
    {
      ok := accepts > 0;
      if ok {
        wire := wire + data;
        capacity := capacity - |data|;
        accepts := accepts - 1;
      }
    }
  }

  function Sizes(queue: seq<Packet>): (sizes: seq<nat>)
    ensures |sizes| == |queue| && forall i :: 0 <= i < |queue| ==> sizes[i] == |EncodeCapsule(queue[i])|
  {
    seq(|queue|, i requires 0 <= i < |queue| => |EncodeCapsule(queue[i])|)
  }

  /** How many capsules of the given sizes are out in the end, k being out already: the next one goes
      as soon as all of it fits the window; a closed or forever stalled window or a refusal ends the
      writing. */
  function SentCount(sizes: seq<nat>, k: nat, capacity: nat, grants: seq<Option<nat>>, accepts: nat): (sent: nat)
    requires k <= |sizes|
    ensures k <= sent <= |sizes| && sent <= k + accepts
    decreases |sizes| - k + |grants|
  {
    if k == |sizes| then k
    else if capacity < sizes[k] then
      if grants == [] || grants[0].None? then k else SentCount(sizes, k, grants[0].value, grants[1..], accepts)
    else if accepts == 0 then k
    else SentCount(sizes, k + 1, capacity - sizes[k], grants, accepts - 1)
  }

  /** The waiting loop of writer_loop: take grants until `size` bytes fit or the stream is closed. */
  method AwaitCapacity(send: SendStream, size: nat, grants: seq<Option<nat>>, ghost sizes: seq<nat>, ghost k: nat)
    returns (later: seq<Option<nat>>, open: bool)
    requires k < |sizes| && sizes[k] == size
    modifies send`capacity
    ensures |later| <= |grants| && later == grants[|grants| - |later|..]
    ensures if open then size <= send.capacity
            else send.capacity < size && (later == [] || later[0].None?)
    ensures SentCount(sizes, k, old(send.capacity), grants, send.accepts)
         == if open then SentCount(sizes, k, send.capacity, later, send.accepts) else k
  {
    later := grants;
    while send.capacity < size
      invariant |later| <= |grants| && later == grants[|grants| - |later|..]
      invariant SentCount(sizes, k, old(send.capacity), grants, send.accepts)
             == SentCount(sizes, k, send.capacity, later, send.accepts)
      decreases |later|
    {
      if later == [] || later[0].None? {
        return later, false;
      }
      send.capacity, later := later[0].value, later[1..];
    }
    open := true;
  }

  /** writer_loop over a queue. `grants` are the outcomes of successive poll_capacity calls: the
      capacity then available, or None for a closed stream; past its end the task never runs again.
      The wire always holds whole capsules of a prefix of the queue, and no byte beyond the window.
      `used` grants were taken. As long as send_data accepts, the loop stops short of the queue's end
      only where the stream is closed or gives no more grants, with too little capacity for the next
      capsule, however many grants before were too small. */
  method WriterLoop(send: SendStream, queue: seq<Packet>, grants: seq<Option<nat>>)
    returns (sent: nat, closed: bool, used: nat)
    modifies send
    ensures used <= |grants|
    ensures sent < |queue| && sent < old(send.accepts) ==>
              (used == |grants| || grants[used].None?) && send.capacity < |EncodeCapsule(queue[sent])|
    ensures sent <= |queue| && send.wire == old(send.wire) + EncodeAll(queue[..sent])
    ensures sent == SentCount(Sizes(queue), 0, old(send.capacity), grants, old(send.accepts))
    ensures closed <==> sent < |queue|
  {
    sent, used := 0, 0;
    var later := grants;
    ghost var sizes := Sizes(queue);
    ghost var want := SentCount(sizes, 0, send.capacity, grants, send.accepts);
    assert EncodeAll(queue[..0]) == [];
    while sent < |queue|
      invariant sent <= |queue| && send.wire == old(send.wire) + EncodeAll(queue[..sent])
      invariant want == SentCount(sizes, sent, send.capacity, later, send.accepts)
      invariant used <= |grants| && later == grants[used..] && send.accepts + sent == old(send.accepts)
    {
      var cap := EncodeDatagramCapsule(queue[sent]);
      var open;
      later, open := AwaitCapacity(send, |cap|, later, sizes, sent);
      used := |grants| - |later|;
      if !open {
        return sent, true, used;
      }
      SentOne(sizes, sent, send.capacity, later, send.accepts);
      var ok := send.SendData(cap);
      if !ok {
        return sent, true, used;
      }
      OneMore(queue, sent, old(send.wire));
      sent := sent + 1;
    }
    closed := false;
  }

  lemma SentOne(sizes: seq<nat>, k: nat, capacity: nat, grants: seq<Option<nat>>, accepts: nat)
    requires k < |sizes| && sizes[k] <= capacity
    ensures SentCount(sizes, k, capacity, grants, accepts)
         == if accepts == 0 then k else SentCount(sizes, k + 1, capacity - sizes[k], grants, accepts - 1)
  {
  }

  lemma SentWaits(sizes: seq<nat>, k: nat, capacity: nat, grants: seq<Option<nat>>, accepts: nat)
    requires k < |sizes| && sizes[k] > capacity
    ensures SentCount(sizes, k, capacity, grants, accepts)
         == if grants == [] || grants[0].None? then k else SentCount(sizes, k, grants[0].value, grants[1..], accepts)
  {
  }

  /** Windows that never close and, one per packet, are large enough get everything out. */
  lemma {:induction false} EverythingGoes(sizes: seq<nat>, k: nat, capacity: nat, grants: seq<Option<nat>>, accepts: nat)
    requires k <= |sizes| && accepts >= |sizes| - k && |grants| >= |sizes| - k
    requires forall i, j :: 0 <= i < |grants| && 0 <= j < |sizes| ==> grants[i].Some? && grants[i].value >= sizes[j]
    ensures SentCount(sizes, k, capacity, grants, accepts) == |sizes|
    decreases |sizes| - k
  {
    if k < |sizes| {
      if capacity < sizes[k] {
        EverythingGoes(sizes, k + 1, grants[0].value - sizes[k], grants[1..], accepts - 1);
      } else {
        EverythingGoes(sizes, k + 1, capacity - sizes[k], grants, accepts - 1);
      }
    }
  }

  lemma OneMore(queue: seq<Packet>, sent: nat, before: seq<byte>)
    requires sent < |queue|
    ensures before + EncodeAll(queue[..sent + 1]) == before + EncodeAll(queue[..sent]) + EncodeCapsule(queue[sent])
  {
    WriteAllSnoc(EncodeCapsule, queue, sent);
    Assoc(before, EncodeAll(queue[..sent]), EncodeCapsule(queue[sent]));
  }

  /** End-to-end identity: whatever part of the writer's stream has arrived, in whatever pieces, the
      packets read are the first k queued ones, unchanged and in order, where k counts the complete
      capsules; if all of it has arrived they are exactly the packets sent and nothing is left over. */
  lemma EndToEnd(queue: seq<Packet>, sent: nat, arrivals: seq<Arrival>) returns (k: nat)
    requires sent <= |queue| && forall p :: p in queue ==> |p| < VARINT_LIMIT
    requires Stream(arrivals) <= EncodeAll(queue[..sent])
    ensures k <= sent && Parse(Stream(arrivals)).packets == queue[..k]
    ensures Stream(arrivals) == EncodeAll(queue[..k]) + Parse(Stream(arrivals)).rest
    ensures k < sent ==> Parse(Stream(arrivals)).rest < EncodeCapsule(queue[k])
    ensures Stream(arrivals) == EncodeAll(queue[..sent]) ==>
              k == sent && Parse(Stream(arrivals)) == Parsed(queue[..sent], [])
  {
    var pkts := queue[..sent];
    CapsulesAreStable();
    forall p | p in pkts ensures ReadsBack(Capsule, EncodeCapsule, CAPSULE_DATAGRAM, p) {
      CapsulesReadBack(p);
    }
    k := PrefixDelivers(Capsule, EncodeCapsule, CAPSULE_DATAGRAM, pkts, Stream(arrivals));
    assert pkts[..k] == queue[..k];
    if Stream(arrivals) == EncodeAll(pkts) && k < sent {
      WriteAllLonger(EncodeCapsule, pkts, k);
    }
  }

  /** How a stream is cut into DATA frames of the given sizes; what is beyond them never arrives. */
  function Cut(wire: seq<byte>, sizes: seq<nat>): (arrivals: seq<Arrival>)
    ensures Stream(arrivals) <= wire
    ensures Total(sizes) >= |wire| ==> Stream(arrivals) == wire
    ensures Total(sizes) < |wire| ==> |Stream(arrivals)| == Total(sizes)
  {
    if sizes == [] then []
    else
      var n := if sizes[0] < |wire| then sizes[0] else |wire|;
      assert wire == wire[..n] + wire[n..];
      [Data(wire[..n])] + Cut(wire[n..], sizes[1..])
  }

  function Total(sizes: seq<nat>): nat {
    if sizes == [] then 0 else sizes[0] + Total(sizes[1..])
  }

  /** The two loops joined: writer_loop fills a fresh stream, some part of it arrives in DATA frames of
      any sizes, reader_loop takes them in. Out come the first packets queued, unchanged and in order,
      together with `buf` every byte that arrived; and once all bytes have arrived, all packets sent. */
  method Transfer(queue: seq<Packet>, grants: seq<Option<nat>>, accepts: nat, sizes: seq<nat>)
    returns (delivered: seq<Packet>, buf: seq<byte>, sent: nat)
    requires forall p :: p in queue ==> |p| < VARINT_LIMIT
    ensures sent == SentCount(Sizes(queue), 0, 0, grants, accepts)
    ensures |delivered| <= sent <= |queue| && delivered == queue[..|delivered|]
    ensures |delivered| < sent ==> buf < EncodeCapsule(queue[|delivered|])
    ensures var wire := EncodeAll(queue[..sent]);
            if Total(sizes) >= |wire| then |delivered| == sent && buf == []
            else EncodeAll(delivered) + buf <= wire && |EncodeAll(delivered) + buf| == Total(sizes)
  {
    var send := new SendStream(accepts);
    var closed, used;
    sent, closed, used := WriterLoop(send, queue, grants);
    assert send.wire == EncodeAll(queue[..sent]);
    var arrivals := Cut(send.wire, sizes);
    delivered, buf := ReaderLoop(arrivals, None);
    ghost var k := EndToEnd(queue, sent, arrivals);
    assert |delivered| == k;
  }

  lemma AnyCapsuleParses(ctype: nat, n: nat, value: seq<byte>, m: nat, suffix: seq<byte>)
    requires IsLength(n) && ctype < Limit(n) && IsLength(m) && |value| < Limit(m)
    ensures Capsule(EncodeAs(ctype, n) + EncodeAs(|value|, m) + value + suffix)
         == Some(Frame(ctype, n + m, n + m + |value|))
  {
    var head, length := EncodeAs(ctype, n), EncodeAs(|value|, m);
    Regroup(head, length, value, suffix);
    RoundTripAs(ctype, n, length + (value + suffix));
    RoundTripAs(|value|, m, value + suffix);
    CapsuleFrom(head + length + value + suffix, Decoded(ctype, n), Decoded(|value|, m));
  }

  lemma Middle(head: seq<byte>, value: seq<byte>, suffix: seq<byte>)
    ensures var s := head + value + suffix;
            s[|head|..|head| + |value|] == value && s[|head| + |value|..] == suffix
  {
  }

  /** A peer's capsule of any type, in any valid integer forms: DATAGRAM values are delivered,
      every other type is skipped whole, and parsing goes on right behind it. */
  lemma AnyCapsule(ctype: nat, n: nat, value: seq<byte>, m: nat, suffix: seq<byte>)
    requires IsLength(n) && ctype < Limit(n) && IsLength(m) && |value| < Limit(m)
    ensures var s := EncodeAs(ctype, n) + EncodeAs(|value|, m) + value + suffix;
            Parse(s).packets == (if ctype == 0 then [value] else []) + Parse(suffix).packets &&
            Parse(s).rest == Parse(suffix).rest
  {
    var head := EncodeAs(ctype, n) + EncodeAs(|value|, m);
    AnyCapsuleParses(ctype, n, value, m, suffix);
    Middle(head, value, suffix);
    GreedyStep(Capsule, CAPSULE_DATAGRAM, head + value + suffix, Frame(ctype, n + m, n + m + |value|));
  }
}
