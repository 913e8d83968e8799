/** Incremental reassembly of any self-delimiting framing: what a reader that keeps the
    unparsed rest of its buffer delivers does not depend on how the stream was cut. */
module Framing {
  import opened Options
  import opened Varint
  import opened Sequences

  type Packet = seq<byte>

  /** A frame at the front of a buffer: its type, where its value starts, where it ends. */
  datatype Frame = Frame(ctype: nat, offset: nat, total: nat)

  /** Looks for a whole frame at the front of a buffer. */
  type Framer = seq<byte> -> Option<Frame>

  /** The packets in a stream and the bytes at its end that are no whole frame yet. */
  datatype Parsed = Parsed(packets: seq<Packet>, rest: seq<byte>)

  predicate Fits(buf: seq<byte>, c: Frame) {
    c.offset <= c.total <= |buf| && 0 < c.total
  }

  /** The packet carried by a frame of the wanted type; other types carry none. */
  function ValueOf(wanted: nat, buf: seq<byte>, c: Frame): seq<Packet>
    requires Fits(buf, c)
  {
    if c.ctype == wanted then [buf[c.offset..c.total]] else []
  }

  /** One greedy parse of a whole stream. */
  function Greedy(f: Framer, wanted: nat, s: seq<byte>): Parsed
    decreases |s|
  {
    if f(s).None? || !Fits(s, f(s).value) then Parsed([], s)
    else
      var tail := Greedy(f, wanted, s[f(s).value.total..]);
      Parsed(ValueOf(wanted, s, f(s).value) + tail.packets, tail.rest)
  }

  /** A frame once found stays found when more bytes arrive. */
  ghost predicate Stable(f: Framer) {
    (forall s :: f(s).Some? ==> Fits(s, f(s).value)) &&
    (forall s, t :: f(s).Some? ==> f(s + t) == f(s))
  }

  lemma GreedyStep(f: Framer, wanted: nat, s: seq<byte>, c: Frame)
    requires f(s) == Some(c) && Fits(s, c)
    ensures Greedy(f, wanted, s).packets == ValueOf(wanted, s, c) + Greedy(f, wanted, s[c.total..]).packets
    ensures Greedy(f, wanted, s).rest == Greedy(f, wanted, s[c.total..]).rest
  {
  }

  /** The frame found at the front of s is at the front of s + t too, with the same value. */
  lemma StepExtends(f: Framer, wanted: nat, s: seq<byte>, t: seq<byte>)
    requires Stable(f) && f(s).Some?
    ensures Fits(s, f(s).value) && f(s + t) == f(s) && Fits(s + t, f(s).value)
    ensures ValueOf(wanted, s + t, f(s).value) == ValueOf(wanted, s, f(s).value)
    ensures (s + t)[f(s).value.total..] == s[f(s).value.total..] + t
  {
    var c := f(s).value;
    assert (s + t)[c.offset..c.total] == s[c.offset..c.total];
  }

  /** Chunk independence at one cut: parsing what has arrived and then going on with the
      unparsed rest gives the same as parsing everything at once. */
  lemma {:induction false} GreedyConcat(f: Framer, wanted: nat, s: seq<byte>, t: seq<byte>)
    requires Stable(f)
    ensures Greedy(f, wanted, s + t).packets
         == Greedy(f, wanted, s).packets + Greedy(f, wanted, Greedy(f, wanted, s).rest + t).packets
    ensures Greedy(f, wanted, s + t).rest == Greedy(f, wanted, Greedy(f, wanted, s).rest + t).rest
    decreases |s|
  {
    if f(s).Some? {
      var c := f(s).value;
      StepExtends(f, wanted, s, t);
      var v, tail := ValueOf(wanted, s, c), s[c.total..];
      GreedyStep(f, wanted, s, c);
      GreedyStep(f, wanted, s + t, c);
      GreedyConcat(f, wanted, tail, t);
      var p, q := Greedy(f, wanted, tail).packets, Greedy(f, wanted, Greedy(f, wanted, tail).rest + t).packets;
      Assoc(v, p, q);
    }
  }

  /** The rest holds no whole frame. */
  lemma {:induction false} RestIsStuck(f: Framer, wanted: nat, s: seq<byte>)
    requires Stable(f)
    ensures f(Greedy(f, wanted, s).rest).None?
    decreases |s|
  {
    if f(s).Some? {
      RestIsStuck(f, wanted, s[f(s).value.total..]);
    }
  }

  // ---- writing and reading back -------------------------------------------

  /** Frames a packet. */
  type Writer = Packet -> seq<byte>

  /** The packet's own frame is what the framer finds in front of anything. */
  ghost predicate ReadsBack(f: Framer, enc: Writer, wanted: nat, p: Packet) {
    forall suffix :: var s := enc(p) + suffix;
      f(s).Some? && f(s).value.total == |enc(p)| && Fits(s, f(s).value) && ValueOf(wanted, s, f(s).value) == [p]
  }

  function WriteAll(enc: Writer, pkts: seq<Packet>): seq<byte> {
    if pkts == [] then [] else enc(pkts[0]) + WriteAll(enc, pkts[1..])
  }

  lemma ReadOne(f: Framer, enc: Writer, wanted: nat, p: Packet, suffix: seq<byte>)
    requires ReadsBack(f, enc, wanted, p)
    ensures Greedy(f, wanted, enc(p) + suffix)
         == Parsed([p] + Greedy(f, wanted, suffix).packets, Greedy(f, wanted, suffix).rest)
  {
    var s := enc(p) + suffix;
    assert f(s).Some? && f(s).value.total == |enc(p)| && ValueOf(wanted, s, f(s).value) == [p];
    assert s[|enc(p)|..] == suffix;
  }

  /** A proper prefix of a packet's frame is no frame. */
  lemma PartialFrame(f: Framer, enc: Writer, wanted: nat, p: Packet, s: seq<byte>)
    requires Stable(f) && ReadsBack(f, enc, wanted, p) && s < enc(p)
    ensures f(s).None?
  {
    var missing := enc(p)[|s|..];
    assert s + missing == enc(p) && enc(p) + [] == enc(p);
    assert f(s + missing).Some? && f(s + missing).value.total == |enc(p)|;
  }

  lemma WriteAllStep(enc: Writer, pkts: seq<Packet>, k: nat)
    requires 1 <= k <= |pkts|
    ensures WriteAll(enc, pkts[..k]) == enc(pkts[0]) + WriteAll(enc, pkts[1..][..k - 1])
  {
    assert pkts[..k][1..] == pkts[1..][..k - 1];
  }

  lemma SplitPrefix(a: seq<byte>, b: seq<byte>, s: seq<byte>)
    requires s <= a + b
    ensures |s| < |a| ==> s < a
    ensures |s| >= |a| ==> s == a + s[|a|..] && s[|a|..] <= b
  {
    assert s == (a + b)[..|s|];
    if |s| >= |a| {
      assert s[|a|..] == b[..|s| - |a|];
    }
  }

  /** However much of the written stream has arrived, exactly the packets whose frames are complete
      are delivered, in order, and the unfinished frame's bytes are the rest. */
  lemma {:induction false} PrefixDelivers(f: Framer, enc: Writer, wanted: nat, pkts: seq<Packet>, s: seq<byte>)
    returns (k: nat)
    requires Stable(f) && (forall p :: p in pkts ==> ReadsBack(f, enc, wanted, p)) && s <= WriteAll(enc, pkts)
    ensures k <= |pkts| && Greedy(f, wanted, s).packets == pkts[..k]
    ensures s == WriteAll(enc, pkts[..k]) + Greedy(f, wanted, s).rest
    ensures k < |pkts| ==> Greedy(f, wanted, s).rest < enc(pkts[k])
    ensures k == |pkts| ==> Greedy(f, wanted, s).rest == []
  {
    if pkts != [] {
      SplitPrefix(enc(pkts[0]), WriteAll(enc, pkts[1..]), s);
    }
    if pkts == [] {
      k := 0;
      assert s == [] && (f(s).Some? ==> Fits(s, f(s).value));
    } else if |s| < |enc(pkts[0])| {
      PartialFrame(f, enc, wanted, pkts[0], s);
      k := 0;
    } else {
      var first := enc(pkts[0]);
      var tail := s[|first|..];
      ReadOne(f, enc, wanted, pkts[0], tail);
      var m := PrefixDelivers(f, enc, wanted, pkts[1..], tail);
      k := m + 1;
      WriteAllStep(enc, pkts, k);
      assert pkts[..k] == [pkts[0]] + pkts[1..][..m];
    }
  }

  lemma {:induction false} WriteAllSnoc(enc: Writer, pkts: seq<Packet>, k: nat)
    requires k < |pkts|
    ensures WriteAll(enc, pkts[..k + 1]) == WriteAll(enc, pkts[..k]) + enc(pkts[k])
  {
    if k == 0 {
      assert pkts[..1][1..] == [];
    } else {
      WriteAllStep(enc, pkts, k);
      WriteAllStep(enc, pkts, k + 1);
      WriteAllSnoc(enc, pkts[1..], k - 1);
      Assoc(enc(pkts[0]), WriteAll(enc, pkts[1..][..k - 1]), enc(pkts[k]));
    }
  }

  /** The stream goes on at least by the next frame after the first k. */
  lemma {:induction false} WriteAllLonger(enc: Writer, pkts: seq<Packet>, k: nat)
    requires k < |pkts|
    ensures |WriteAll(enc, pkts)| >= |WriteAll(enc, pkts[..k])| + |enc(pkts[k])|
  {
    if k > 0 {
      WriteAllStep(enc, pkts, k);
      WriteAllLonger(enc, pkts[1..], k - 1);
    }
  }
}
