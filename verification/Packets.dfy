/** The IPv4/UDP packets of the egress probe (RFC 791, RFC 768): building and taking apart. */
module Packets {
  import opened Options
  import opened Arithmetic
  import opened Varint
  import opened Checksum

  type Addr = a: seq<byte> | |a| == 4 witness [0, 0, 0, 0]

  /** to_be_bytes of a u16; larger numbers are truncated as by `as u16`. */
  function U16(v: nat): (s: seq<byte>)
    ensures |s| == 2
  {
    [v / 256 % 256, v % 256]
  }

  /** u16::from_be_bytes at position `at`. */
  function WordAt(data: seq<byte>, at: nat): (v: nat)
    requires at + 2 <= |data|
    ensures v < WORD16
  {
    var high: nat, low: nat := data[at], data[at + 1];
    high * 256 + low
  }

  lemma WordOfU16(data: seq<byte>, at: nat, v: nat)
    requires at + 2 <= |data| && data[at..at + 2] == U16(v) && v < WORD16
    ensures WordAt(data, at) == v
  {
    assert data[at] == data[at..at + 2][0] && data[at + 1] == data[at..at + 2][1];
  }

  /** Overwrites the two bytes at `at`. */
  function Patch(data: seq<byte>, at: nat, v: nat): (d: seq<byte>)
    requires at + 2 <= |data|
    ensures |d| == |data|
  {
    data[..at] + U16(v) + data[at + 2..]
  }

  function IpHeader(src: Addr, dst: Addr, totalLen: nat): (h: seq<byte>)
    ensures |h| == 20
  {
    [0x45, 0x00] + U16(totalLen) + U16(0) + U16(0x4000) + [64, 17] + U16(0) + src + dst
  }

  function UdpDatagram(sport: nat, dport: nat, payload: seq<byte>): (u: seq<byte>)
    ensures |u| == 8 + |payload|
  {
    U16(sport) + U16(dport) + U16(8 + |payload|) + U16(0) + payload
  }

  /** The pseudo-header plus datagram that the UDP checksum covers. */
  function Pseudo(src: Addr, dst: Addr, udp: seq<byte>): (p: seq<byte>)
    ensures |p| == 12 + |udp|
  {
    src + dst + [0, 17] + U16(|udp|) + udp
  }

  /** A UDP checksum of 0 would mean "none", so it goes out as all ones. */
  function UdpChecksum(src: Addr, dst: Addr, udp: seq<byte>): (c: nat)
    ensures 0 < c < WORD16
  {
    var c := Checksum.Checksum(Pseudo(src, dst, udp));
    if c == 0 then 0xffff else c
  }

  function SealedHeader(src: Addr, dst: Addr, totalLen: nat): (h: seq<byte>)
    ensures |h| == 20
  {
    var h := IpHeader(src, dst, totalLen);
    Patch(h, 10, Checksum.Checksum(h))
  }

  function SealedUdp(src: Addr, dst: Addr, sport: nat, dport: nat, payload: seq<byte>): (u: seq<byte>)
    ensures |u| == 8 + |payload|
  {
    var u := UdpDatagram(sport, dport, payload);
    Patch(u, 6, UdpChecksum(src, dst, u))
  }

  function Packet(src: Addr, dst: Addr, sport: nat, dport: nat, payload: seq<byte>): seq<byte> {
    SealedHeader(src, dst, 28 + |payload|) + SealedUdp(src, dst, sport, dport, payload)
  }

  /** The packet as a release build makes it: the UDP checksum from a sum that wraps. */
  function WirePacket(src: Addr, dst: Addr, sport: nat, dport: nat, payload: seq<byte>): seq<byte> {
    var u := UdpDatagram(sport, dport, payload);
    SealedHeader(src, dst, 28 + |payload|) + Patch(u, 6, WireUdpChecksum(src, dst, u))
  }

  function WireUdpChecksum(src: Addr, dst: Addr, udp: seq<byte>): (c: nat)
    ensures 0 < c < WORD16
  {
    var c := WireChecksum(Pseudo(src, dst, udp));
    if c == 0 then 0xffff else c
  }

  /** That is the packet with the checksum of RFC 768 wherever the sum does not overflow, so always up to
      131074 checksummed bytes. */
  lemma WireIsPacket(src: Addr, dst: Addr, sport: nat, dport: nat, payload: seq<byte>)
    ensures 20 + |payload| <= SAFE_LENGTH || WordSum(Pseudo(src, dst, UdpDatagram(sport, dport, payload))) < U32 ==>
              WirePacket(src, dst, sport, dport, payload) == Packet(src, dst, sport, dport, payload)
  {
    WireIsChecksum(Pseudo(src, dst, UdpDatagram(sport, dport, payload)));
  }

  /** build_ipv4_udp, for payloads of any length. */
  method BuildIpv4Udp(src: Addr, dst: Addr, sport: nat, dport: nat, payload: seq<byte>) returns (ip: seq<byte>)
    requires sport < WORD16 && dport < WORD16
    ensures ip == WirePacket(src, dst, sport, dport, payload)
    ensures |ip| == 28 + |payload| && ip[..2] == [0x45, 0] && ip[4..10] == [0, 0, 0x40, 0, 64, 17]
    ensures ip[12..16] == src && ip[16..20] == dst && ip[28..] == payload
    ensures ip[2..4] == [|ip| / 256 % 256, |ip| % 256] && ip[24..26] == [(|ip| - 20) / 256 % 256, (|ip| - 20) % 256]
    ensures ip[20..22] == [sport / 256, sport % 256] && ip[22..24] == [dport / 256, dport % 256]
    ensures 20 + |payload| <= SAFE_LENGTH || WordSum(Pseudo(src, dst, UdpDatagram(sport, dport, payload))) < U32 ==>
              ip == Packet(src, dst, sport, dport, payload)
  {
    var udpLen := 8 + |payload|;
    var totalLen := 20 + udpLen;
    ip := [0x45];
    ip := ip + [0x00];
    ip := ip + U16(totalLen);
    ip := ip + U16(0);
    ip := ip + U16(0x4000);
    ip := ip + [64];
    ip := ip + [17];
    ip := ip + U16(0);
    ip := ip + src;
    ip := ip + dst;
    assert ip == IpHeader(src, dst, totalLen);
    var ipCsum := ComputeChecksum(ip);
    ip := Patch(ip, 10, ipCsum);

    var udp := U16(sport);
    udp := udp + U16(dport);
    udp := udp + U16(udpLen);
    udp := udp + U16(0);
    udp := udp + payload;
    assert udp == UdpDatagram(sport, dport, payload);
    var c := ComputeUdpChecksum(src, dst, udp);
    udp := Patch(udp, 6, c);
    ip := ip + udp;
    WireIsPacket(src, dst, sport, dport, payload);
    WireBytes(src, dst, sport, dport, payload);
  }

  method ComputeUdpChecksum(src: Addr, dst: Addr, udp: seq<byte>) returns (c: nat)
    ensures c == WireUdpChecksum(src, dst, udp)
  {
    var pseudo := src;
    pseudo := pseudo + dst;
    pseudo := pseudo + [0];
    pseudo := pseudo + [17];
    pseudo := pseudo + U16(|udp|);
    pseudo := pseudo + udp;
    assert pseudo == Pseudo(src, dst, udp);
    c := ComputeChecksum(pseudo);
    if c == 0 {
      c := 0xffff;
    }
  }

  // ---- a sealed packet verifies -------------------------------------------

  /** Writing v over a zero word adds v to the sum. */
  lemma {:induction false} PatchSum(data: seq<byte>, at: nat, v: nat)
    requires at % 2 == 0 && at + 2 <= |data| && data[at] == 0 && data[at + 1] == 0 && v < WORD16
    ensures WordSum(Patch(data, at, v)) == WordSum(data) + v
    decreases at
  {
    var patched := Patch(data, at, v);
    if at == 0 {
      assert patched[2..] == data[2..];
    } else {
      assert patched[2..] == Patch(data[2..], at - 2, v);
      PatchSum(data[2..], at - 2, v);
    }
  }

  lemma AllOnes(sum: nat)
    requires sum > 0 && sum % 0xffff == 0
    ensures Fold(sum) == 0xffff
  {
  }

  /** RFC 1071: a block whose checksum field holds its checksum sums to all ones. */
  lemma ChecksumSeals(data: seq<byte>, at: nat, c: nat)
    requires at % 2 == 0 && at + 2 <= |data| && data[at] == 0 && data[at + 1] == 0
    requires c == Checksum.Checksum(data) || (Checksum.Checksum(data) == 0 && c == 0xffff)
    requires WordSum(data) > 0
    ensures Checksum.Checksum(Patch(data, at, c)) == 0
  {
    var sum := WordSum(data);
    PatchSum(data, at, c);
    var f := Fold(sum);
    assert f % 0xffff == sum % 0xffff;
    CongruentSum(sum, f, c);
    AllOnes(sum + c);
  }

  lemma CongruentSum(sum: nat, f: nat, c: nat)
    requires f % 0xffff == sum % 0xffff && f < WORD16 && (f + c == 0xffff || (f == 0xffff && c == 0xffff))
    ensures (sum + c) % 0xffff == 0
  {
    if f % 0xffff == f {
      ModAdd(f + c, 0xffff, sum / 0xffff);
      assert sum + c == (f + c) + (sum / 0xffff) * 0xffff;
    } else {
      ModAdd(c, 0xffff, sum / 0xffff);
      assert sum + c == c + (sum / 0xffff) * 0xffff;
    }
  }

  /** The header of every packet built verifies. */
  lemma HeaderVerifies(src: Addr, dst: Addr, totalLen: nat)
    ensures Checksum.Checksum(SealedHeader(src, dst, totalLen)) == 0
  {
    var h := IpHeader(src, dst, totalLen);
    assert h[10] == 0 && h[11] == 0 && h[0] == 0x45;
    assert WordSum(h) >= 0x4500;
    ChecksumSeals(h, 10, Checksum.Checksum(h));
  }

  /** The UDP datagram of every packet built verifies against its pseudo-header, whatever the payload
      length's parity and even where the computed checksum was 0; and the field is never 0. */
  lemma UdpVerifies(src: Addr, dst: Addr, sport: nat, dport: nat, payload: seq<byte>)
    ensures var u := SealedUdp(src, dst, sport, dport, payload);
            Checksum.Checksum(Pseudo(src, dst, u)) == 0 && u[6..8] != [0, 0]
  {
    var u := UdpDatagram(sport, dport, payload);
    var c := UdpChecksum(src, dst, u);
    var p := Pseudo(src, dst, u);
    assert p[18] == u[6] == 0 && p[19] == u[7] == 0;
    assert Pseudo(src, dst, Patch(u, 6, c)) == Patch(p, 18, c);
    PseudoPositive(src, dst, u);
    ChecksumSeals(p, 18, c);
    assert Patch(u, 6, c)[6..8] == U16(c);
  }

  lemma PseudoPositive(src: Addr, dst: Addr, udp: seq<byte>)
    ensures WordSum(Pseudo(src, dst, udp)) > 0
  {
    var p := Pseudo(src, dst, udp);
    assert p[2..][2..] == p[4..] && p[4..][2..] == p[6..] && p[6..][2..] == p[8..] && p[8..][2..] == p[10..];
    assert p[8..][1] == 17;
    assert WordSum(p[8..]) >= 17;
    assert WordSum(p) >= WordSum(p[2..]) >= WordSum(p[4..]) >= WordSum(p[6..]) >= WordSum(p[8..]);
  }

  // ---- taking packets apart -----------------------------------------------

  /** extract_udp: the payload, if this is an IPv4/UDP packet from src:port. */
  function ExtractUdp(pkt: seq<byte>, src: Addr, port: nat): Option<seq<byte>> {
    if |pkt| < 20 || pkt[0] / 16 != 4 || pkt[9] != 17 then None
    else
      var ihl: nat := pkt[0] % 16 * 4;
      if pkt[12..16] != src || |pkt| < ihl + 8 then None
      else if WordAt(pkt, ihl) != port then None
      else Some(pkt[ihl + 8..])
  }

  lemma SmallWord(v: nat)
    requires v < WORD16
    ensures U16(v) == [v / 256, v % 256]
  {
  }

  lemma PatchElsewhere(data: seq<byte>, at: nat, v: nat)
    requires at + 2 <= |data|
    ensures Patch(data, at, v)[..at] == data[..at] && Patch(data, at, v)[at + 2..] == data[at + 2..]
    ensures Patch(data, at, v)[at..at + 2] == U16(v)
  {
  }

  /** The header built, byte by byte. */
  lemma HeaderFields(src: Addr, dst: Addr, totalLen: nat)
    ensures var h := SealedHeader(src, dst, totalLen);
            && h[..2] == [0x45, 0] && h[2..4] == U16(totalLen) && h[4..10] == [0, 0, 0x40, 0, 64, 17]
            && h[12..16] == src && h[16..20] == dst
  {
    var plain, h := IpHeader(src, dst, totalLen), SealedHeader(src, dst, totalLen);
    PatchElsewhere(plain, 10, Checksum.Checksum(plain));
    PlainHeader(src, dst, totalLen);
    assert h[..2] == plain[..10][..2] && h[2..4] == plain[..10][2..4] && h[4..10] == plain[..10][4..10];
    assert h[12..16] == plain[12..][..4] && h[16..20] == plain[12..][4..8];
  }

  lemma PlainHeader(src: Addr, dst: Addr, totalLen: nat)
    ensures var h := IpHeader(src, dst, totalLen);
            && h[..10][..2] == [0x45, 0] && h[..10][2..4] == U16(totalLen) && h[..10][4..10] == [0, 0, 0x40, 0, 64, 17]
            && h[12..][..4] == src && h[12..][4..8] == dst
  {
    var h := IpHeader(src, dst, totalLen);
    assert h[12..] == src + dst;
    assert h[..10] == [0x45, 0] + U16(totalLen) + [0, 0, 0x40, 0, 64, 17];
  }

  /** The datagram built around a checksum c, byte by byte. */
  lemma DatagramFields(sport: nat, dport: nat, payload: seq<byte>, c: nat)
    ensures var u := Patch(UdpDatagram(sport, dport, payload), 6, c);
            && u[..2] == U16(sport) && u[2..4] == U16(dport) && u[4..6] == U16(8 + |payload|)
            && u[6..8] == U16(c) && u[8..] == payload
  {
    var d := UdpDatagram(sport, dport, payload);
    var u := Patch(d, 6, c);
    PatchElsewhere(d, 6, c);
    assert d[..6] == U16(sport) + U16(dport) + U16(8 + |payload|);
    assert u[..2] == d[..6][..2] && u[2..4] == d[..6][2..4] && u[4..6] == d[..6][4..6];
    assert d[8..] == payload;
  }

  lemma UdpFields(src: Addr, dst: Addr, sport: nat, dport: nat, payload: seq<byte>)
    ensures var u := SealedUdp(src, dst, sport, dport, payload); u[..2] == U16(sport) && u[8..] == payload
    ensures SealedUdp(src, dst, sport, dport, payload)[4..6] == U16(8 + |payload|)
  {
    DatagramFields(sport, dport, payload, UdpChecksum(src, dst, UdpDatagram(sport, dport, payload)));
  }

  /** Every packet built, byte by byte but for its two checksums. */
  lemma WireBytes(src: Addr, dst: Addr, sport: nat, dport: nat, payload: seq<byte>)
    requires sport < WORD16 && dport < WORD16
    ensures var ip := WirePacket(src, dst, sport, dport, payload);
            && |ip| == 28 + |payload| && ip[..2] == [0x45, 0] && ip[4..10] == [0, 0, 0x40, 0, 64, 17]
            && ip[12..16] == src && ip[16..20] == dst && ip[28..] == payload
            && ip[2..4] == [|ip| / 256 % 256, |ip| % 256] && ip[24..26] == [(|ip| - 20) / 256 % 256, (|ip| - 20) % 256]
            && ip[20..22] == [sport / 256, sport % 256] && ip[22..24] == [dport / 256, dport % 256]
  {
    var d := UdpDatagram(sport, dport, payload);
    var c := WireUdpChecksum(src, dst, d);
    HeaderFields(src, dst, 28 + |payload|);
    DatagramFields(sport, dport, payload, c);
    SmallWord(sport);
    SmallWord(dport);
    JoinedBytes(SealedHeader(src, dst, 28 + |payload|), Patch(d, 6, c));
  }

  lemma JoinedBytes(h: seq<byte>, u: seq<byte>)
    requires |h| == 20 && |u| >= 8
    ensures var ip := h + u;
            && ip[..20] == h && ip[20..] == u && ip[..2] == h[..2] && ip[4..10] == h[4..10]
            && ip[12..16] == h[12..16] && ip[16..20] == h[16..20] && ip[12..20] == h[12..16] + h[16..20]
            && ip[2..4] == h[2..4] && ip[20..22] == u[..2] && ip[22..24] == u[2..4] && ip[24..26] == u[4..6]
            && ip[28..] == u[8..]
  {
  }

  /** Both checksums of a packet built, from its own bytes: the header sums to all ones, and so does the
      pseudo-header (addresses, a zero byte, the protocol, the UDP length field) with the datagram. */
  lemma PacketVerifies(src: Addr, dst: Addr, sport: nat, dport: nat, payload: seq<byte>)
    ensures var ip := Packet(src, dst, sport, dport, payload);
            && |ip| == 28 + |payload|
            && Checksum.Checksum(ip[..20]) == 0
            && Checksum.Checksum(ip[12..20] + [0, 17] + ip[24..26] + ip[20..]) == 0
            && ip[26..28] != [0, 0]
  {
    var h, u := SealedHeader(src, dst, 28 + |payload|), SealedUdp(src, dst, sport, dport, payload);
    HeaderVerifies(src, dst, 28 + |payload|);
    UdpVerifies(src, dst, sport, dport, payload);
    HeaderFields(src, dst, 28 + |payload|);
    UdpFields(src, dst, sport, dport, payload);
    JoinedBytes(h, u);
    assert (h + u)[26..28] == u[6..8];
  }

  /** What was built for one source and port is extracted for exactly that source and port, whole. */
  lemma ExtractInvertsBuild(src: Addr, dst: Addr, sport: nat, dport: nat, payload: seq<byte>, from: Addr, port: nat)
    requires sport < WORD16
    ensures ExtractUdp(Packet(src, dst, sport, dport, payload), from, port)
         == if from == src && port == sport then Some(payload) else None
  {
    HeaderFields(src, dst, 28 + |payload|);
    UdpFields(src, dst, sport, dport, payload);
    var h := SealedHeader(src, dst, 28 + |payload|);
    assert h[0] == h[..2][0] && h[9] == h[4..10][5];
    ExtractJoined(h, SealedUdp(src, dst, sport, dport, payload), src, sport, from, port);
  }

  lemma ExtractJoined(h: seq<byte>, u: seq<byte>, src: Addr, sport: nat, from: Addr, port: nat)
    requires |h| == 20 && h[0] == 0x45 && h[9] == 17 && h[12..16] == src
    requires |u| >= 8 && u[..2] == U16(sport) && sport < WORD16
    ensures ExtractUdp(h + u, from, port) == if from == src && port == sport then Some(u[8..]) else None
  {
    assert (h + u)[12..16] == h[12..16];
    assert (h + u)[20..22] == u[..2];
    WordOfU16(h + u, 20, sport);
    assert (h + u)[28..] == u[8..];
  }

  /** extract_udp on every byte string: exactly the IPv4 packets of protocol 17 from that address, whose
      header, options included, is followed by at least 8 bytes starting with that port. */
  lemma ExtractIff(pkt: seq<byte>, src: Addr, port: nat, payload: seq<byte>)
    ensures ExtractUdp(pkt, src, port) == Some(payload) <==>
              && |pkt| >= 20 && 0x40 <= pkt[0] < 0x50 && pkt[9] == 17
              && pkt[12] == src[0] && pkt[13] == src[1] && pkt[14] == src[2] && pkt[15] == src[3]
              && var ihl := 4 * ((pkt[0] as int) - 0x40);
                 |pkt| >= ihl + 8 && 256 * (pkt[ihl] as int) + (pkt[ihl + 1] as int) == port && payload == pkt[ihl + 8..]
  {
    if |pkt| >= 20 {
      assert pkt[12..16] == [pkt[12], pkt[13], pkt[14], pkt[15]];
      assert src == [src[0], src[1], src[2], src[3]];
    }
  }

  /** For packets up to 65535 bytes the length fields say the true lengths. */
  lemma LengthFields(src: Addr, dst: Addr, sport: nat, dport: nat, payload: seq<byte>)
    requires 28 + |payload| < WORD16
    ensures var pkt := Packet(src, dst, sport, dport, payload);
            |pkt| == 28 + |payload| && WordAt(pkt, 2) == |pkt| && WordAt(pkt, 24) == |pkt| - 20
  {
    var h, u := SealedHeader(src, dst, 28 + |payload|), SealedUdp(src, dst, sport, dport, payload);
    var pkt := Packet(src, dst, sport, dport, payload);
    HeaderFields(src, dst, 28 + |payload|);
    UdpFields(src, dst, sport, dport, payload);
    assert pkt == h + u;
    assert pkt[2..4] == h[2..4] && pkt[24..26] == u[4..6];
    WordOfU16(pkt, 2, 28 + |payload|);
    WordOfU16(pkt, 24, 8 + |payload|);
  }
}
