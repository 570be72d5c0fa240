/** Names as Unicode scalar values, and their UTF-8 form (section 3 of RFC 3629). */
module Utf8 {
  import opened Bytes

  type Scalar = c: nat | c < 0x11_0000 && !(0xD800 <= c < 0xE000)

  function Width(c: Scalar): (n: nat)
    ensures 1 <= n <= 4
  {
    if c < 0x80 then 1 else if c < 0x800 then 2 else if c < 0x1_0000 then 3 else 4
  }

  /** A continuation byte with six bits of payload. */
  function Tail(x: nat): Byte { 0x80 + x % 64 }

  function EncodeOne(c: Scalar): (s: seq<Byte>)
    ensures |s| == Width(c)
  {
    if c < 0x80 then [c]
    else if c < 0x800 then [0xC0 + c / 64, Tail(c)]
    else if c < 0x1_0000 then [0xE0 + c / 4096, Tail(c / 64), Tail(c)]
    else [0xF0 + c / 262144, Tail(c / 4096), Tail(c / 64), Tail(c)]
  }

  function Encode(name: seq<Scalar>): seq<Byte>
  {
    if name == [] then [] else EncodeOne(name[0]) + Encode(name[1..])
  }

  /** One character of each length: a Latin letter, an accented one, the euro sign and a face. */
  lemma OneOfEachLength()
    ensures EncodeOne(0x41) == [0x41] && EncodeOne(0xE9) == [0xC3, 0xA9] && EncodeOne(0x20AC) == [0xE2, 0x82, 0xAC]
    ensures EncodeOne(0x1F600) == [0xF0, 0x9F, 0x98, 0x80]
  {
  }

  /** The six payload bits of a continuation byte. */
  function Bits(b: Byte): nat { b % 64 }

  function LeadBits(b: Byte, span: nat): nat
    requires span > 0
  {
    b % span
  }

  /** The number that the lead byte and its continuation bytes spell, whether or not in shortest form. */
  function Spelled(s: seq<Byte>): nat
    requires s != []
  {
    if s[0] < 0xC0 || |s| < 2 then s[0]
    else if s[0] < 0xE0 || |s| < 3 then LeadBits(s[0], 32) * 64 + Bits(s[1])
    else if s[0] < 0xF0 || |s| < 4 then LeadBits(s[0], 16) * 4096 + Bits(s[1]) * 64 + Bits(s[2])
    else LeadBits(s[0], 8) * 262144 + Bits(s[1]) * 4096 + Bits(s[2]) * 64 + Bits(s[3])
  }

  /** The first character of a well-formed string: the scalar whose encoding it starts with. */
  function DecodeOne(s: seq<Byte>): (r: Option<Scalar>)
    requires s != []
    ensures r.Some? ==> EncodeOne(r.value) <= s
  {
    var c := Spelled(s);
    if c < 0x11_0000 && !(0xD800 <= c < 0xE000) && EncodeOne(c) <= s then Some(c) else None
  }

  function Decode(s: seq<Byte>): (r: Option<seq<Scalar>>)
    decreases |s|
  {
    if s == [] then Some([]) else
      match DecodeOne(s)
      case None => None
      case Some(c) =>
        match Decode(s[Width(c)..])
        case None => None
        case Some(rest) => Some([c] + rest)
  }

  lemma TailBits(x: nat)
    ensures Bits(Tail(x)) == x % 64
  {
  }

  lemma LeadOf(lead: nat, x: nat, span: nat)
    requires (span == 32 && lead == 0xC0) || (span == 16 && lead == 0xE0) || (span == 8 && lead == 0xF0)
    requires x < span && lead + x < 256
    ensures LeadBits(lead + x, span) == x
  {
  }

  lemma Base64Digits(c: nat)
    ensures c == c / 64 * 64 + c % 64
    ensures c == c / 4096 * 4096 + c / 64 % 64 * 64 + c % 64
    ensures c == c / 262144 * 262144 + c / 4096 % 64 * 4096 + c / 64 % 64 * 64 + c % 64
  {
    assert c / 4096 == c / 64 / 64;
    assert c / 262144 == c / 4096 / 64;
  }

  lemma SpelledIsEncoded(c: Scalar, rest: seq<Byte>)
    ensures Spelled(EncodeOne(c) + rest) == c
  {
    Base64Digits(c);
    TailBits(c);
    TailBits(c / 64);
    TailBits(c / 4096);
    if c < 0x80 {
    } else if c < 0x800 {
      LeadOf(0xC0, c / 64, 32);
    } else if c < 0x1_0000 {
      LeadOf(0xE0, c / 4096, 16);
    } else {
      LeadOf(0xF0, c / 262144, 8);
    }
  }

  lemma {:induction false} DecodeEncoded(name: seq<Scalar>)
    ensures Decode(Encode(name)) == Some(name)
  {
    if name != [] {
      var s := Encode(name);
      var c := name[0];
      SpelledIsEncoded(c, Encode(name[1..]));
      assert EncodeOne(c) <= s;
      assert DecodeOne(s) == Some(c);
      assert s[Width(c)..] == Encode(name[1..]);
      DecodeEncoded(name[1..]);
      assert [c] + name[1..] == name;
    }
  }

  lemma {:induction false} EncodeSnoc(name: seq<Scalar>, c: Scalar)
    ensures Encode(name + [c]) == Encode(name) + EncodeOne(c)
  {
    if name != [] {
      assert (name + [c])[1..] == name[1..] + [c];
      EncodeSnoc(name[1..], c);
    }
  }
}
