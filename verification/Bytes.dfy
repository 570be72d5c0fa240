/** Bytes, machine-integer ranges, the endian codecs and the option type that the other modules share. */
module Bytes {

  datatype Option<+T> = None | Some(value: T)

  type Byte = x: int | 0 <= x < 256
  type Sample = x: int | -32768 <= x <= 32767

  const U16_SPAN: int := 0x1_0000
  const U32_SPAN: int := 0x1_0000_0000
  const U64_SPAN: int := 0x1_0000_0000_0000_0000
  const U32_MAX: int := U32_SPAN - 1
  const U64_MAX: int := U64_SPAN - 1

  type UInt16 = x: int | 0 <= x < U16_SPAN
  type UInt32 = x: int | 0 <= x < U32_SPAN
  type UInt64 = x: int | 0 <= x < U64_SPAN

  function Min(a: int, b: int): int { if a < b then a else b }

  function Max(a: int, b: int): int { if a < b then b else a }

  function Clamp(x: int, lo: int, hi: int): int
    requires lo <= hi
  {
    Max(lo, Min(x, hi))
  }

  /** `a.saturating_sub(b)` on unsigned operands. */
  function MinusSat(a: nat, b: nat): nat { if a < b then 0 else a - b }

  /** `a.saturating_add(b)` on `u64`. */
  function PlusSat(a: nat, b: nat): nat { Min(U64_MAX, a + b) }

  /** 256 to the power n. */
  function Span(n: nat): nat { if n == 0 then 1 else 256 * Span(n - 1) }

  /** The n low bytes of v, most significant first. */
  function ToBigEndian(v: nat, n: nat): (s: seq<Byte>)
    ensures |s| == n
  {
    if n == 0 then [] else ToBigEndian(v / 256, n - 1) + [v % 256]
  }

  function FromBigEndian(s: seq<Byte>): nat
  {
    if s == [] then 0 else 256 * FromBigEndian(s[..|s| - 1]) + s[|s| - 1]
  }

  lemma {:induction false} ToThenFromBigEndian(v: nat, n: nat)
    requires v < Span(n)
    ensures FromBigEndian(ToBigEndian(v, n)) == v
  {
    if n > 0 {
      ToThenFromBigEndian(v / 256, n - 1);
      assert ToBigEndian(v, n)[..n - 1] == ToBigEndian(v / 256, n - 1);
    }
  }

  /** The most significant byte comes first. */
  lemma BigEndianStartsHigh(v: nat, n: nat)
    requires n > 0
    ensures ToBigEndian(v, n)[n - 1] == v % 256 && ToBigEndian(v, n)[..n - 1] == ToBigEndian(v / 256, n - 1)
  {
  }

  lemma {:induction false} FromThenToBigEndian(s: seq<Byte>)
    ensures FromBigEndian(s) < Span(|s|)
    ensures ToBigEndian(FromBigEndian(s), |s|) == s
  {
    if s != [] {
      FromThenToBigEndian(s[..|s| - 1]);
      assert s[..|s| - 1] + [s[|s| - 1]] == s;
    }
  }

  /** A signed 16-bit sample read from two little-endian bytes. */
  function SampleOf(lo: Byte, hi: Byte): Sample
  {
    var u := lo + 256 * hi;
    if u < 32768 then u else u - U16_SPAN
  }

  function SampleLow(x: Sample): Byte { (x + U16_SPAN) % 256 }

  function SampleHigh(x: Sample): Byte { (x + U16_SPAN) / 256 % 256 }

  lemma SampleRoundTrip(x: Sample)
    ensures SampleOf(SampleLow(x), SampleHigh(x)) == x
  {
    var u := x + U16_SPAN;
    assert u == 256 * (u / 256) + u % 256;
    if x < 0 {
      assert u / 256 % 256 == u / 256;
    } else {
      assert u / 256 == 256 + x / 256;
      assert u / 256 % 256 == x / 256;
    }
  }

  /** The largest element, 0 for the empty sequence. */
  function MaxOf(s: seq<nat>): (m: nat)
    ensures forall x | x in s :: x <= m
    ensures s == [] ==> m == 0
    ensures s != [] ==> m in s
  {
    if s == [] then 0 else
      assert s == s[..|s| - 1] + [s[|s| - 1]];
      Max(MaxOf(s[..|s| - 1]), s[|s| - 1])
  }

  /** `dst[at..at + |src|] := src`. */
  method CopyInto(dst: array<Byte>, at: nat, src: seq<Byte>)
    requires at + |src| <= dst.Length
    modifies dst
    ensures dst[..] == old(dst[..at]) + src + old(dst[at + |src|..])
  {
    forall i | 0 <= i < |src| {
      dst[at + i] := src[i];
    }
  }
}
