/** QUIC variable-length integers (section 16 of RFC 9000). */
module Varint {
  import opened Options
  import opened Arithmetic
  import opened Bits

  type byte = b: int | 0 <= b < 256

  /** Values a variable-length integer can carry lie below this. */
  const VARINT_LIMIT: nat := 0x4000_0000_0000_0000
  const U64: nat := 0x1_0000_0000_0000_0000

  function Pow256(n: nat): (p: nat)
    ensures p >= 1
  {
    if n == 0 then 1 else 256 * Pow256(n - 1)
  }

  /** The value of a big-endian byte string. */
  function BigEndian(s: seq<byte>): nat {
    if s == [] then 0 else BigEndian(s[..|s| - 1]) * 256 + s[|s| - 1]
  }

  /** to_be_bytes: the n low-order bytes of v, most significant first. */
  function ToBytes(v: nat, n: nat): (s: seq<byte>)
    ensures |s| == n
  {
    if n == 0 then [] else ToBytes(v / 256, n - 1) + [v % 256]
  }

  /** The length class in the two high bits of a first byte: 1 << (first >> 6). */
  function Length(first: byte): (n: nat)
    ensures n == 1 || n == 2 || n == 4 || n == 8
  {
    if first < 64 then 1 else if first < 128 then 2 else if first < 192 then 4 else 8
  }

  function VarintLen(v: nat): nat {
    if v < 0x40 then 1 else if v < 0x4000 then 2 else if v < 0x4000_0000 then 4 else 8
  }

  predicate IsLength(n: nat) {
    n == 1 || n == 2 || n == 4 || n == 8
  }

  /** What fits the n-byte form: 6, 14, 30 or 62 bits. */
  function Limit(n: nat): nat
    requires IsLength(n)
  {
    if n == 1 then 0x40 else if n == 2 then 0x4000 else if n == 4 then 0x4000_0000 else VARINT_LIMIT
  }

  /** The n-byte form of the RFC: a two-bit length class, then the value in the remaining bits. */
  function EncodeAs(v: nat, n: nat): (s: seq<byte>)
    requires IsLength(n) && v < Limit(n)
    ensures |s| == n
  {
    var class_ := if n == 1 then 0 else if n == 2 then 1 else if n == 4 then 2 else 3;
    LeadingBits(v, n);
    [64 * class_ + v / Pow256(n - 1)] + ToBytes(v % Pow256(n - 1), n - 1)
  }

  lemma LeadingBits(v: nat, n: nat)
    requires IsLength(n) && v < Limit(n)
    ensures Pow256(n - 1) * 64 == Limit(n) && v / Pow256(n - 1) < 64
  {
    assert Pow256(1) == 0x100 && Pow256(2) == 0x1_0000 && Pow256(3) == 0x100_0000;
    assert Pow256(4) == 0x1_0000_0000 && Pow256(5) == 0x100_0000_0000;
    assert Pow256(6) == 0x1_0000_0000_0000 && Pow256(7) == 0x100_0000_0000_0000;
  }

  /** The bytes encode_varint emits for a u64; beyond 62 bits the two top bits are overwritten. */
  function Encode(v: nat): seq<byte>
    requires v < U64
  {
    if v < VARINT_LIMIT then EncodeAs(v, VarintLen(v)) else EncodeAs(v % VARINT_LIMIT, 8)
  }

  datatype Decoded = Decoded(value: nat, used: nat)

  /** What a byte string starts with; None when it ends too early. */
  function Decode(s: seq<byte>): Option<Decoded> {
    if s == [] || |s| < Length(s[0]) then None
    else
      var n := Length(s[0]);
      Some(Decoded((s[0] % 64) * Pow256(n - 1) + BigEndian(s[1..n]), n))
  }

  // ---- big-endian bytes ---------------------------------------------------

  lemma {:induction false} BytesRoundTrip(v: nat, n: nat)
    requires v < Pow256(n)
    ensures BigEndian(ToBytes(v, n)) == v
  {
    if n > 0 {
      BytesRoundTrip(v / 256, n - 1);
      assert ToBytes(v, n)[..n - 1] == ToBytes(v / 256, n - 1);
    }
  }

  lemma {:induction false} ValueBytes(s: seq<byte>)
    ensures BigEndian(s) < Pow256(|s|) && ToBytes(BigEndian(s), |s|) == s
  {
    if s != [] {
      ValueBytes(s[..|s| - 1]);
      assert s == s[..|s| - 1] + [s[|s| - 1]];
    }
  }

  lemma LastDigit(high: nat, p: nat, low: nat)
    ensures (high * (256 * p) + low) / 256 == high * p + low / 256 && (high * (256 * p) + low) % 256 == low % 256
  {
    assert high * (256 * p) == 256 * (high * p);
  }

  /** A high digit in front of n bytes. */
  lemma {:induction false} ToBytesSplit(high: byte, low: nat, n: nat)
    requires low < Pow256(n)
    ensures ToBytes(high * Pow256(n) + low, n + 1) == [high] + ToBytes(low, n)
  {
    if n == 0 {
      assert ToBytes(high, 1) == ToBytes(high / 256, 0) + [high % 256];
    } else {
      var p, v := Pow256(n - 1), high * Pow256(n) + low;
      LastDigit(high, p, low);
      assert v / 256 == high * p + low / 256 && v % 256 == low % 256;
      ToBytesSplit(high, low / 256, n - 1);
    }
  }

  // ---- the code's loops ---------------------------------------------------

  method EncodeVarint(out: seq<byte>, v: nat) returns (grown: seq<byte>)
    requires v < U64
    ensures grown == out + Encode(v)
  {
    if v < 0x40 {
      grown := out + [v];
      assert ToBytes(v % Pow256(0), 0) == [];
    } else if v < 0x4000 {
      grown := out + ToBytes(Or(v, 0x4000), 2);
      OrTag(v);
      TaggedBytes(v, 2, 0x4000);
    } else if v < 0x4000_0000 {
      grown := out + ToBytes(Or(v, 0x8000_0000), 4);
      OrTag(v);
      TaggedBytes(v, 4, 0x8000_0000);
    } else {
      grown := out + ToBytes(Or(v, 0xC000_0000_0000_0000), 8);
      OrTag(v);
      TaggedBytes(v % VARINT_LIMIT, 8, 0xC000_0000_0000_0000);
    }
  }

  /** What or-ing the tag does in each class; in the last one it overwrites the two top bits. */
  lemma OrTag(v: nat)
    requires v < U64
    ensures v < 0x4000 ==> Or(v, 0x4000) == v + 0x4000
    ensures v < 0x4000_0000 ==> Or(v, 0x8000_0000) == v + 0x8000_0000
    ensures Or(v, 0xC000_0000_0000_0000) == v % VARINT_LIMIT + 0xC000_0000_0000_0000
  {
    Powers();
    if v < 0x4000 {
      OrLow(v, 1, 14);
    }
    if v < 0x4000_0000 {
      OrLow(v, 2, 30);
    }
    OrHigh(v / VARINT_LIMIT, v % VARINT_LIMIT, 3, 62);
    OrThree(v / VARINT_LIMIT);
  }

  /** Or-ing the length class into the top of the word gives the RFC's form. */
  lemma TaggedBytes(v: nat, n: nat, tag: nat)
    requires (n == 2 && tag == 0x4000) || (n == 4 && tag == 0x8000_0000) || (n == 8 && tag == 0xC000_0000_0000_0000)
    requires v < Limit(n)
    ensures ToBytes(v + tag, n) == EncodeAs(v, n)
  {
    LeadingBits(v, n);
    var p := Pow256(n - 1);
    var class_ := if n == 2 then 1 else if n == 4 then 2 else 3;
    TagIs(n, tag);
    TopDigit(64 * class_, v, p);
    ToBytesSplit(64 * class_ + v / p, v % p, n - 1);
  }

  lemma TagIs(n: nat, tag: nat)
    requires (n == 2 && tag == 0x4000) || (n == 4 && tag == 0x8000_0000) || (n == 8 && tag == 0xC000_0000_0000_0000)
    ensures tag == 64 * (if n == 2 then 1 else if n == 4 then 2 else 3) * Pow256(n - 1)
  {
    LeadingBits(0, n);
  }

  lemma TopDigit(top: nat, v: nat, p: nat)
    requires p > 0
    ensures v + top * p == (top + v / p) * p + v % p
  {
    assert v == v / p * p + v % p;
  }

  lemma NextByte(buf: seq<byte>, i: nat, high: nat)
    requires 1 <= i < |buf|
    ensures high * Pow256(i) + BigEndian(buf[1..i + 1]) == (high * Pow256(i - 1) + BigEndian(buf[1..i])) * 256 + buf[i]
  {
    assert buf[1..i + 1][..i - 1] == buf[1..i];
    assert high * (256 * Pow256(i - 1)) == high * Pow256(i - 1) * 256;
  }

  lemma OrByte(acc: nat, b: byte)
    ensures Or(b, acc * 256) == acc * 256 + b
  {
    Powers();
    OrLow(b, acc, 8);
  }

  /** decode_varint on a slice cursor: `rest` is where the cursor ends up. */
  method DecodeVarint(buf: seq<byte>) returns (v: Option<nat>, rest: seq<byte>)
    ensures v == match Decode(buf) case Some(d) => Some(d.value) case None => None
    ensures rest == match Decode(buf) case Some(d) => buf[d.used..] case None => buf
  {
    if |buf| == 0 {
      return None, buf;
    }
    var len := Length(buf[0]);
    if |buf| < len {
      return None, buf;
    }
    var acc: nat := buf[0] % 64;
    for i := 1 to len
      invariant acc == (buf[0] % 64) * Pow256(i - 1) + BigEndian(buf[1..i])
    {
      NextByte(buf, i, buf[0] % 64);
      OrByte(acc, buf[i]);
      acc := Or(buf[i], acc * 256);
    }
    return Some(acc), buf[len..];
  }

  // ---- the laws -----------------------------------------------------------

  lemma RoundTripParts(high: nat, low: nat, n: nat, first: byte, suffix: seq<byte>)
    requires IsLength(n) && Length(first) == n && first % 64 == high && low < Pow256(n - 1)
    ensures Decode([first] + ToBytes(low, n - 1) + suffix) == Some(Decoded(high * Pow256(n - 1) + low, n))
  {
    var s := [first] + ToBytes(low, n - 1) + suffix;
    assert s[1..n] == ToBytes(low, n - 1);
    BytesRoundTrip(low, n - 1);
  }

  /** Every form of a value decodes to it, whatever follows, and uses exactly its own bytes. */
  lemma RoundTripAs(v: nat, n: nat, suffix: seq<byte>)
    requires IsLength(n) && v < Limit(n)
    ensures Decode(EncodeAs(v, n) + suffix) == Some(Decoded(v, n))
  {
    LeadingBits(v, n);
    var p := Pow256(n - 1);
    var high, low := v / p, v % p;
    assert v == high * p + low;
    RoundTripParts(high, low, n, EncodeAs(v, n)[0], suffix);
  }

  /** Decoding what encode_varint emits gives the value back iff it is below 2^62. */
  lemma RoundTrip(v: nat, suffix: seq<byte>)
    requires v < U64
    ensures v < VARINT_LIMIT ==> Decode(Encode(v) + suffix) == Some(Decoded(v, VarintLen(v)))
    ensures v >= VARINT_LIMIT ==> Decode(Encode(v) + suffix) == Some(Decoded(v % VARINT_LIMIT, 8))
    ensures Decode(Encode(v) + suffix).Some? && (Decode(Encode(v) + suffix).value.value == v <==> v < VARINT_LIMIT)
  {
    if v < VARINT_LIMIT {
      RoundTripAs(v, VarintLen(v), suffix);
    } else {
      RoundTripAs(v % VARINT_LIMIT, 8, suffix);
    }
  }

  /** Whatever decodes is one of the forms of its value, so no encoding is shorter than varint_len. */
  lemma Minimal(s: seq<byte>)
    requires Decode(s).Some?
    ensures var d := Decode(s).value;
            && d.value < VARINT_LIMIT && VarintLen(d.value) <= d.used <= |s|
            && IsLength(d.used) && d.value < Limit(d.used) && s[..d.used] == EncodeAs(d.value, d.used)
            && (d.used == VarintLen(d.value) <==> s[..d.used] == Encode(d.value))
  {
    var d := Decode(s).value;
    var n, p := d.used, Pow256(d.used - 1);
    ValueBytes(s[1..n]);
    LeadingBits(0, n);
    var low := BigEndian(s[1..n]);
    assert d.value == (s[0] % 64) * p + low && low < p;
    assert d.value < 64 * p;
    DivModUnique(d.value, s[0] % 64, p, low);
    assert s[..n] == [s[0]] + s[1..n];
  }

  /** Two integers in a row, in whatever forms, are what stands in front. */
  lemma TwoInFront(s: seq<byte>)
    requires Decode(s).Some? && Decode(s[Decode(s).value.used..]).Some?
    ensures var a := Decode(s).value;
            var b := Decode(s[a.used..]).value;
            && IsLength(a.used) && a.value < Limit(a.used) && IsLength(b.used) && b.value < Limit(b.used)
            && a.used + b.used <= |s|
            && s[..a.used + b.used] == EncodeAs(a.value, a.used) + EncodeAs(b.value, b.used)
  {
    var n := Decode(s).value.used;
    var m := Decode(s[n..]).value.used;
    Minimal(s);
    Minimal(s[n..]);
    SplitInTwo(s, n, m);
  }

  lemma SplitInTwo(s: seq<byte>, n: nat, m: nat)
    requires n + m <= |s|
    ensures s[..n + m] == s[..n] + s[n..][..m]
  {
  }

  /** A successful decode does not depend on what follows. */
  lemma DecodeExtends(s: seq<byte>, t: seq<byte>)
    requires Decode(s).Some?
    ensures Decode(s + t) == Decode(s)
  {
    var n := Length(s[0]);
    assert (s + t)[1..n] == s[1..n];
  }

  /** s ends inside the n-byte form of v. */
  predicate CutOff(s: seq<byte>, v: nat, n: nat) {
    IsLength(n) && v < Limit(n) && |s| < n && s == EncodeAs(v, n)[..|s|]
  }

  ghost predicate Truncated(s: seq<byte>) {
    exists v: nat, n: nat :: CutOff(s, v, n)
  }

  lemma CutOffIsNone(s: seq<byte>, v: nat, n: nat)
    requires CutOff(s, v, n)
    ensures Decode(s).None?
  {
    RoundTripAs(v, n, []);
    assert EncodeAs(v, n) + [] == EncodeAs(v, n);
    assert s != [] ==> s[0] == EncodeAs(v, n)[0];
  }

  lemma NoneIsCutOff(s: seq<byte>) returns (v: nat, n: nat)
    requires Decode(s).None?
    ensures CutOff(s, v, n)
  {
    n := if s == [] then 1 else Length(s[0]);
    var whole := s + seq(n - |s|, i => 0 as byte);
    Minimal(whole);
    v := Decode(whole).value.value;
    assert whole[..n] == whole && whole[..|s|] == s;
  }

  /** None means truncation and nothing else. */
  lemma NoneIsTruncation(s: seq<byte>)
    ensures Decode(s).None? <==> Truncated(s)
  {
    if Decode(s).None? {
      var v, n := NoneIsCutOff(s);
    } else if Truncated(s) {
      var v: nat, n: nat :| CutOff(s, v, n);
      CutOffIsNone(s, v, n);
    }
  }

  // ---- byte by byte -------------------------------------------------------

  lemma {:induction false} ToBytesAt(v: nat, n: nat, k: nat)
    requires k < n
    ensures ToBytes(v, n)[k] == v / Pow256(n - 1 - k) % 256
  {
    if k < n - 1 {
      ToBytesAt(v / 256, n - 1, k);
      DivTwice(v, Pow256(n - 2 - k));
    }
  }

  lemma DivTwice(v: nat, p: nat)
    requires p > 0
    ensures v / 256 / p == v / (256 * p)
  {
    var q, r := v / 256 / p, v / 256 % p;
    assert v / 256 == q * p + r;
    assert v == q * (256 * p) + (256 * r + v % 256);
    DivModUnique(v, q, 256 * p, 256 * r + v % 256);
  }

  /** Section 16 of RFC 9000 byte by byte: each form is the value in a word of 1, 2, 4 or 8 bytes, most
      significant byte first, with the two top bits 00, 01, 10 or 11. */
  lemma WireForm(v: nat, n: nat, k: nat)
    requires IsLength(n) && v < Limit(n) && k < n
    ensures var word := v + if n == 1 then 0 else if n == 2 then 0x4000 else if n == 4 then 0x8000_0000
                            else 0xC000_0000_0000_0000;
            EncodeAs(v, n)[k] == word / Pow256(n - 1 - k) % 256
    ensures n == 1 ==> v < 0x40 && EncodeAs(v, n) == [v]
    ensures n == 2 ==> v < 0x4000 && EncodeAs(v, n) == [0x40 + v / 256, v % 256]
    ensures Pow256(0) == 1 && Pow256(1) == 0x100 && Pow256(2) == 0x1_0000 && Pow256(3) == 0x100_0000
    ensures EncodeAs(v, n)[0] / 64 == if n == 1 then 0 else if n == 2 then 1 else if n == 4 then 2 else 3
  {
    LeadingBits(v, n);
    if n == 1 {
      assert ToBytes(v % Pow256(0), 0) == [];
    } else {
      var tag := if n == 2 then 0x4000 else if n == 4 then 0x8000_0000 else 0xC000_0000_0000_0000;
      TaggedBytes(v, n, tag);
      ToBytesAt(v + tag, n, k);
      if n == 2 {
        assert ToBytes(v % 0x100, 1) == ToBytes(v % 0x100 / 256, 0) + [v % 0x100 % 256];
      }
    }
  }
}
