/** The HTTP/3 path: one IP packet per QUIC datagram, keyed by quarter stream id (section 2.1 of
    RFC 9297) and context id, and the packet size the netstack may rely on. */
module Datagrams {
  import opened Options
  import opened Varint
  import opened Sequences
  import opened Framing

  const CONTEXT_ID_FULL_PACKET: nat := 0

  /** Quarter stream id, context id, packet. */
  function Tagged(qsid: nat, context: nat, pkt: Packet): seq<byte>
    requires qsid < U64 && context < U64
  {
    Encode(qsid) + Encode(context) + pkt
  }

  /** The packet a datagram carries for this stream, if it is one. */
  function Payload(qsid: nat, dg: seq<byte>): Option<Packet> {
    match Decode(dg)
    case None => None
    case Some(q) =>
      match Decode(dg[q.used..])
      case None => None
      case Some(c) =>
        if q.value != qsid || c.value != CONTEXT_ID_FULL_PACKET then None else Some(dg[q.used + c.used..])
  }

  /** The packets for this stream in a sequence of datagrams. */
  function Demux(qsid: nat, dgs: seq<seq<byte>>): seq<Packet> {
    if dgs == [] then []
    else (match Payload(qsid, dgs[0]) case Some(p) => [p] case None => []) + Demux(qsid, dgs[1..])
  }

  /** Datagrams are looked at one by one: a stray one hides nothing behind it. */
  lemma {:induction false} DemuxConcat(qsid: nat, a: seq<seq<byte>>, b: seq<seq<byte>>)
    ensures Demux(qsid, a + b) == Demux(qsid, a) + Demux(qsid, b)
    ensures |a| == 1 ==> Demux(qsid, a) == if Payload(qsid, a[0]).Some? then [Payload(qsid, a[0]).value] else []
  {
    if a == [] {
      assert a + b == b;
    } else {
      assert (a + b)[1..] == a[1..] + b;
      DemuxConcat(qsid, a[1..], b);
    }
  }

  method SendIp(qsid: nat, pkt: Packet) returns (dg: seq<byte>)
    requires qsid < U64
    ensures dg == Tagged(qsid, CONTEXT_ID_FULL_PACKET, pkt)
  {
    dg := EncodeVarint([], qsid);
    dg := EncodeVarint(dg, CONTEXT_ID_FULL_PACKET);
    dg := dg + pkt;
  }

  /** recv_ip over the datagrams that arrive before the connection ends: the next packet of this
      stream, everything not addressed to it being dropped; None is the closed connection. */
  method RecvIp(qsid: nat, dgs: seq<seq<byte>>) returns (pkt: Option<Packet>, rest: seq<seq<byte>>)
    ensures |rest| <= |dgs| && rest == dgs[|dgs| - |rest|..]
    ensures pkt.Some? ==> |rest| < |dgs| && Demux(qsid, dgs) == [pkt.value] + Demux(qsid, rest)
    ensures pkt.None? ==> Demux(qsid, dgs) == [] && rest == []
  {
    rest := dgs;
    while |rest| > 0
      invariant |rest| <= |dgs| && rest == dgs[|dgs| - |rest|..]
      invariant Demux(qsid, dgs) == Demux(qsid, rest)
    {
      var dg := rest[0];
      rest := rest[1..];
      var q, afterId := DecodeVarint(dg);
      if q.None? {
        continue;
      }
      var c, afterContext := DecodeVarint(afterId);
      if c.None? {
        continue;
      }
      if q.value != qsid || c.value != CONTEXT_ID_FULL_PACKET {
        continue;
      }
      return Some(afterContext), rest;
    }
    pkt := None;
  }

  /** The feeder task: pump packets until the connection closes. */
  method Feed(qsid: nat, dgs: seq<seq<byte>>) returns (pkts: seq<Packet>)
    ensures pkts == Demux(qsid, dgs)
  {
    pkts := [];
    var rest := dgs;
    while true
      invariant Demux(qsid, dgs) == pkts + Demux(qsid, rest)
      decreases |rest|
    {
      var pkt, later := RecvIp(qsid, rest);
      if pkt.None? {
        return;
      }
      Assoc(pkts, [pkt.value], Demux(qsid, later));
      pkts, rest := pkts + [pkt.value], later;
    }
  }

  /** What send_ip frames for one stream is payload of that stream and of no other. */
  lemma TaggedPayload(sender: nat, context: nat, pkt: Packet, qsid: nat)
    requires sender < VARINT_LIMIT && context < VARINT_LIMIT
    ensures Payload(qsid, Tagged(sender, context, pkt))
         == if sender == qsid && context == 0 then Some(pkt) else None
  {
    var dg, tail := Tagged(sender, context, pkt), Encode(context) + pkt;
    assert dg == Encode(sender) + tail;
    RoundTrip(sender, tail);
    RoundTrip(context, pkt);
    assert dg[|Encode(sender)|..] == tail;
    assert dg[|Encode(sender)| + |Encode(context)|..] == pkt;
  }

  /** The two ids in front of a packet, in forms of n and m bytes. */
  predicate IdsInFront(qsid: nat, n: nat, m: nat, dg: seq<byte>, pkt: Packet) {
    IsLength(n) && IsLength(m) && qsid < Limit(n) && dg == EncodeAs(qsid, n) + EncodeAs(0, m) + pkt
  }

  /** A datagram carries a packet for the stream iff it is the stream's id and context 0, each in some
      valid form, in front of that packet; everything else is skipped. */
  lemma PayloadIff(qsid: nat, dg: seq<byte>, pkt: Packet)
    requires qsid < VARINT_LIMIT
    ensures Payload(qsid, dg) == Some(pkt) <==> exists n: nat, m: nat :: IdsInFront(qsid, n, m, dg, pkt)
  {
    if Payload(qsid, dg) == Some(pkt) {
      var n, m := IdForms(qsid, dg, pkt);
    }
    if n: nat, m: nat :| IdsInFront(qsid, n, m, dg, pkt) {
      FormsCarry(qsid, n, m, pkt);
    }
  }

  lemma IdForms(qsid: nat, dg: seq<byte>, pkt: Packet) returns (n: nat, m: nat)
    requires Payload(qsid, dg) == Some(pkt)
    ensures IdsInFront(qsid, n, m, dg, pkt)
  {
    TwoInFront(dg);
    n := Decode(dg).value.used;
    m := Decode(dg[n..]).value.used;
    assert dg == dg[..n + m] + dg[n + m..];
  }

  lemma FormsCarry(qsid: nat, n: nat, m: nat, pkt: Packet)
    requires IsLength(n) && IsLength(m) && qsid < Limit(n)
    ensures Payload(qsid, EncodeAs(qsid, n) + EncodeAs(0, m) + pkt) == Some(pkt)
  {
    var dg, tail := EncodeAs(qsid, n) + EncodeAs(0, m) + pkt, EncodeAs(0, m) + pkt;
    assert dg == EncodeAs(qsid, n) + tail && dg[n..] == tail && dg[n + m..] == pkt;
    RoundTripAs(qsid, n, tail);
    RoundTripAs(0, m, pkt);
  }

  /** What send_ip sends: the stream's id in its shortest form, a zero byte, the packet. */
  lemma TaggedBytes(qsid: nat, pkt: Packet)
    requires qsid < VARINT_LIMIT
    ensures Tagged(qsid, CONTEXT_ID_FULL_PACKET, pkt) == EncodeAs(qsid, VarintLen(qsid)) + [0] + pkt
  {
    WireForm(0, 1, 0);
    assert Encode(0) == [0];
  }

  /** A datagram on the connection, as its sender meant it. */
  datatype Sent = Sent(qsid: nat, context: nat, pkt: Packet)

  predicate Wellformed(sents: seq<Sent>) {
    forall s :: s in sents ==> s.qsid < VARINT_LIMIT && s.context < VARINT_LIMIT
  }

  function Wire(sents: seq<Sent>): (dgs: seq<seq<byte>>)
    requires Wellformed(sents)
    ensures |dgs| == |sents|
  {
    if sents == [] then []
    else [Tagged(sents[0].qsid, sents[0].context, sents[0].pkt)] + Wire(sents[1..])
  }

  /** The packets sent for one stream, in order. */
  function SentTo(qsid: nat, sents: seq<Sent>): seq<Packet> {
    if sents == [] then []
    else (if sents[0].qsid == qsid && sents[0].context == CONTEXT_ID_FULL_PACKET then [sents[0].pkt] else [])
         + SentTo(qsid, sents[1..])
  }

  /** Demultiplexing inverts the framing: of everything sent on the connection, a stream's
      reader gets exactly its own full packets, unchanged and in order. */
  lemma {:induction false} DemuxInverts(qsid: nat, sents: seq<Sent>)
    requires Wellformed(sents)
    ensures Demux(qsid, Wire(sents)) == SentTo(qsid, sents)
  {
    if sents != [] {
      TaggedPayload(sents[0].qsid, sents[0].context, sents[0].pkt, qsid);
      DemuxInverts(qsid, sents[1..]);
      assert Wire(sents)[1..] == Wire(sents[1..]);
    }
  }

  // ---- packet size --------------------------------------------------------

  const MIN_MTU: nat := 576
  const MAX_MTU: nat := 1280

  /** max_ip_packet: what is left of the datagram limit after the two ids; 0 without datagrams. */
  function MaxIpPacket(qsid: nat, maxDatagram: Option<nat>): nat {
    var overhead := VarintLen(qsid) + VarintLen(CONTEXT_ID_FULL_PACKET);
    if maxDatagram.Some? && maxDatagram.value >= overhead then maxDatagram.value - overhead else 0
  }

  /** The MTU the netstack is configured with. */
  function NetMtu(maxIp: nat): nat {
    if maxIp < MIN_MTU then MIN_MTU else if maxIp > MAX_MTU then MAX_MTU else maxIp
  }

  /** max_ip_packet is the size of the largest packet that fits the limit with its two ids. */
  lemma MaxIpIsLargest(qsid: nat, limit: nat, pkt: Packet)
    requires qsid < VARINT_LIMIT && pkt != []
    ensures |Tagged(qsid, 0, pkt)| <= limit <==> |pkt| <= MaxIpPacket(qsid, Some(limit))
    ensures MaxIpPacket(qsid, None) == 0
  {
    assert |Tagged(qsid, 0, pkt)| == VarintLen(qsid) + 1 + |pkt|;
  }

  /** clamp(576, 1280). */
  lemma MtuIsClamped(maxIp: nat)
    ensures 576 <= NetMtu(maxIp) <= 1280
    ensures 576 <= maxIp <= 1280 ==> NetMtu(maxIp) == maxIp
    ensures maxIp < 576 ==> NetMtu(maxIp) == 576
    ensures maxIp > 1280 ==> NetMtu(maxIp) == 1280
  {
  }

  /** Every packet the netstack may emit fits one datagram. The MTU was chosen from the limit found at
      spawn; the connection checks each packet against the limit of the moment it is sent. */
  ghost predicate EveryPacketFits(qsid: nat, atSpawn: Option<nat>, atSend: Option<nat>)
    requires qsid < VARINT_LIMIT
  {
    forall pkt: Packet :: |pkt| <= NetMtu(MaxIpPacket(qsid, atSpawn)) ==>
      atSend.Some? && |Tagged(qsid, CONTEXT_ID_FULL_PACKET, pkt)| <= atSend.value
  }

  /** Every packet fits at a send iff the path then carries a whole netstack MTU. */
  lemma FitsIff(qsid: nat, atSpawn: Option<nat>, atSend: Option<nat>)
    requires qsid < VARINT_LIMIT
    ensures EveryPacketFits(qsid, atSpawn, atSend) <==> MaxIpPacket(qsid, atSend) >= NetMtu(MaxIpPacket(qsid, atSpawn))
  {
    var mtu := NetMtu(MaxIpPacket(qsid, atSpawn));
    if MaxIpPacket(qsid, atSend) < mtu {
      var pkt: Packet := seq(mtu, i => 0);
      assert |Tagged(qsid, CONTEXT_ID_FULL_PACKET, pkt)| == VarintLen(qsid) + 1 + mtu;
    }
  }

  /** On a path whose limit never changes that is so iff it carries 576 bytes of packet; below that the
      clamp promises more than the path can do. */
  lemma SteadyPathFitsIff(qsid: nat, limit: Option<nat>)
    requires qsid < VARINT_LIMIT
    ensures EveryPacketFits(qsid, limit, limit) <==> MaxIpPacket(qsid, limit) >= 576
  {
    FitsIff(qsid, limit, limit);
  }

  /** The limit found at spawn keeps holding for every larger one, and for no smaller one that carries
      less than the MTU: a path that shrinks from 1414 to 1162 bytes, both carrying far more than 576,
      no longer takes a full packet. */
  lemma ShrunkenPath(qsid: nat)
    requires qsid < 0x40
    ensures MaxIpPacket(qsid, Some(1414)) >= 576 && MaxIpPacket(qsid, Some(1162)) >= 576
    ensures !EveryPacketFits(qsid, Some(1414), Some(1162))
  {
    FitsIff(qsid, Some(1414), Some(1162));
  }
}
