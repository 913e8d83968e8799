/** The Internet checksum (RFC 1071) and the IPv4/UDP packets the egress probe builds with it. */
module Checksum {
  import opened Arithmetic
  import opened Varint

  const U32: nat := 0x1_0000_0000

  /** The sum of the big-endian 16-bit words, an odd last byte being padded with zero. */
  function WordSum(data: seq<byte>): nat {
    if |data| == 0 then 0
    else if |data| == 1 then data[0] * 256
    else data[0] * 256 + data[1] + WordSum(data[2..])
  }

  /** Add the carries back in until none is left. */
  function Fold(sum: nat): (f: nat)
    ensures f < WORD16
    ensures f % 0xffff == sum % 0xffff
    ensures f == 0 <==> sum == 0
  {
    if sum < WORD16 then sum
    else
      FoldStep(sum);
      Fold(sum % WORD16 + sum / WORD16)
  }

  lemma FoldStep(sum: nat)
    requires sum >= WORD16
    ensures 0 < sum % WORD16 + sum / WORD16 < sum
    ensures (sum % WORD16 + sum / WORD16) % 0xffff == sum % 0xffff
  {
    var q, r := sum / WORD16, sum % WORD16;
    assert sum == (r + q) + q * 0xffff;
    ModAdd(r + q, 0xffff, q);
  }

  /** The ones' complement of the folded sum. */
  function Checksum(data: seq<byte>): (c: nat)
    ensures c < WORD16
  {
    0xffff - Fold(WordSum(data))
  }

  /** The sum goes word by word, most significant byte first, and an odd last byte is a word's high byte;
      with WordSumConcat this says what it is on every block. */
  lemma WordSumWord(x: byte, y: byte)
    ensures WordSum([]) == 0 && WordSum([x, y]) == 256 * x + y && WordSum([x]) == 256 * x
  {
  }

  lemma {:induction false} WordSumConcat(a: seq<byte>, b: seq<byte>)
    requires |a| % 2 == 0
    ensures WordSum(a + b) == WordSum(a) + WordSum(b)
  {
    if a == [] {
      assert a + b == b;
    } else {
      assert (a + b)[2..] == a[2..] + b;
      WordSumConcat(a[2..], b);
    }
  }

  /** RFC 1071: the checksum is the ones' complement of the ones' complement sum, so adding it to the sum
      gives a multiple of 65535, and it is 0 for exactly the non-empty sums that are such a multiple. */
  lemma ChecksumComplements(data: seq<byte>)
    ensures (WordSum(data) + Checksum(data)) % 65535 == 0 && Checksum(data) < 65536
    ensures Checksum(data) == 0 <==> WordSum(data) > 0 && WordSum(data) % 65535 == 0
  {
    var sum, f := WordSum(data), Fold(WordSum(data));
    SameResidue(sum, f);
  }

  lemma SameResidue(sum: nat, f: nat)
    requires f % 65535 == sum % 65535 && f <= 65535
    ensures (sum + (65535 - f)) % 65535 == 0
  {
    var q := sum / 65535 - f / 65535;
    assert sum + (65535 - f) == 0 + (q + 1) * 65535;
    ModAdd(0, 65535, q + 1);
  }

  lemma {:induction false} WordSumBound(data: seq<byte>)
    ensures WordSum(data) <= 0xffff * ((|data| + 1) / 2)
  {
    if |data| >= 2 {
      WordSumBound(data[2..]);
    }
  }

  /** The longest data whose word sum always fits 32 bits: 65537 words. */
  const SAFE_LENGTH: nat := 131074

  lemma NoWrap(data: seq<byte>)
    ensures |data| <= SAFE_LENGTH ==> WordSum(data) < U32
  {
    WordSumBound(data);
  }

  function Ones(n: nat): (data: seq<byte>)
    ensures |data| == n
  {
    seq(n, i => 0xff)
  }

  lemma {:induction false} OnesSum(n: nat)
    ensures WordSum(Ones(n)) == 0xffff * (n / 2) + 0xff00 * (n % 2)
  {
    if n >= 2 {
      assert Ones(n)[2..] == Ones(n - 2);
      OnesSum(n - 2);
    }
  }

  /** The 32-bit sum cannot overflow on n bytes iff n is at most 131074; beyond, all-ones data overflow it. */
  lemma SumFitsIff(n: nat)
    ensures (forall data: seq<byte> :: |data| == n ==> WordSum(data) < U32) <==> n <= SAFE_LENGTH
  {
    if n <= SAFE_LENGTH {
      forall data: seq<byte> | |data| == n ensures WordSum(data) < U32 {
        NoWrap(data);
      }
    } else {
      OnesSum(n);
      assert |Ones(n)| == n && WordSum(Ones(n)) >= U32;
    }
  }

  /** What 32-bit words that wrap make of the checksum. */
  function WireChecksum(data: seq<byte>): (c: nat)
    ensures c < WORD16
  {
    0xffff - Fold(WordSum(data) % U32)
  }

  /** The wrapping sum gives the checksum of RFC 1071 wherever it does not overflow, so always up to 131074 bytes. */
  lemma WireIsChecksum(data: seq<byte>)
    ensures WordSum(data) < U32 || |data| <= SAFE_LENGTH ==> WireChecksum(data) == Checksum(data)
  {
    NoWrap(data);
    SmallWord(WordSum(data));
  }

  lemma SmallWord(sum: nat)
    ensures sum < U32 ==> sum % U32 == sum
  {
  }

  /** checksum() as a release build runs it, its 32-bit sum wrapping. */
  method ComputeChecksum(data: seq<byte>) returns (c: nat)
    ensures c == WireChecksum(data)
    ensures WordSum(data) < U32 || |data| <= SAFE_LENGTH ==> c == Checksum(data)
  {
    var sum := SumWords(data);
    var folded := FoldCarries(sum);
    c := 0xffff - folded;
    WireIsChecksum(data);
  }

  /** The first loop and the odd byte of checksum(). */
  method SumWords(data: seq<byte>) returns (sum: nat)
    ensures sum == WordSum(data) % U32
  {
    ghost var total := WordSum(data);
    assert data[0..] == data;
    sum := 0;
    var i := 0;
    while i + 1 < |data|
      invariant i <= |data| && sum < U32
      invariant (sum + WordSum(data[i..])) % U32 == total % U32
    {
      assert data[i..][2..] == data[i + 2..];
      var high: nat, low: nat := data[i], data[i + 1];
      var word := high * 256 + low;
      WrapAdd(sum + word, WordSum(data[i + 2..]));
      sum := (sum + word) % U32;
      i := i + 2;
    }
    if i < |data| {
      assert data[i..] == [data[i]];
      var last: nat := data[i];
      sum := (sum + last * 256) % U32;
    }
  }

  /** The second loop of checksum(): it stops, with no carry left. */
  method FoldCarries(total: nat) returns (sum: nat)
    ensures sum == Fold(total)
  {
    sum := total;
    while sum / WORD16 != 0
      invariant Fold(sum) == Fold(total)
      decreases sum
    {
      FoldStep(sum);
      sum := sum % WORD16 + sum / WORD16;
    }
  }

  lemma WrapAdd(a: nat, b: nat)
    ensures (a % U32 + b) % U32 == (a + b) % U32
  {
    assert a + b == (a % U32 + b) + (a / U32) * U32;
    ModAdd(a % U32 + b, U32, a / U32);
  }
}
