/** The anti-replay bitmap, and the plain set of accepted numbers that it represents. */
module Replay {
  import opened Bytes

  ghost predicate IsLargest(s: set<nat>, m: nat)
  {
    if s == {} then m == 0 else m in s && forall x | x in s :: x <= m
  }

  lemma {:induction false} LargestExists(s: set<nat>) returns (m: nat)
    ensures IsLargest(s, m)
  {
    if s == {} {
      m := 0;
    } else {
      var x :| x in s;
      var rest := LargestExists(s - {x});
      m := if rest < x then x else rest;
      assert s == s - {x} + {x};
    }
  }

  /** The largest accepted number, 0 if there is none. */
  ghost function Largest(accepted: set<nat>): (m: nat)
    ensures IsLargest(accepted, m)
  {
    assert exists m: nat :: IsLargest(accepted, m) by {
      var m := LargestExists(accepted);
    }
    var m: nat :| IsLargest(accepted, m);
    m
  }

  lemma LargestIs(s: set<nat>, m: nat)
    requires m in s && forall x | x in s :: x <= m
    ensures Largest(s) == m
  {
  }

  /** A number is fresh if it is positive, unused, and within the window below the largest. */
  ghost predicate Fresh(accepted: set<nat>, window: nat, seqNo: nat)
  {
    && seqNo >= 1
    && seqNo !in accepted
    && seqNo + window > Largest(accepted)
  }

  ghost function Accept(accepted: set<nat>, window: nat, seqNo: nat): set<nat>
  {
    if Fresh(accepted, window, seqNo) then accepted + {seqNo} else accepted
  }

  /** The accepted numbers after offering a whole sequence, first one first. */
  ghost function Offer(window: nat, offered: seq<nat>): (accepted: set<nat>)
    ensures 0 !in accepted
  {
    if offered == [] then {} else
      Accept(Offer(window, offered[..|offered| - 1]), window, offered[|offered| - 1])
  }

  /** Over any run the verdict depends on the history alone: the window accepts the first offer of each
      number, unless the largest number offered before is a whole window above it. */
  lemma {:induction false} VerdictFromHistory(window: nat, offered: seq<nat>, seqNo: nat)
    requires window >= 1
    ensures Largest(Offer(window, offered)) == MaxOf(offered)
    ensures Fresh(Offer(window, offered), window, seqNo)
       <==> seqNo >= 1 && seqNo !in offered && seqNo + window > MaxOf(offered)
    ensures forall x | x in Offer(window, offered) :: x in offered
  {
    if offered != [] {
      var n := |offered| - 1;
      var before, x := Offer(window, offered[..n]), offered[n];
      VerdictFromHistory(window, offered[..n], seqNo);
      VerdictFromHistory(window, offered[..n], x);
      assert offered == offered[..n] + [x];
      if Fresh(before, window, x) {
        LargestIs(before + {x}, Max(x, Largest(before)));
      }
    }
  }

  /** Bit i of a word, counting from the least significant. */
  predicate Bit(word: nat, i: nat)
  {
    if i == 0 then word % 2 == 1 else Bit(word / 2, i - 1)
  }

  /** `1 << i`. */
  function Mask(i: nat): (m: nat)
    ensures m > 0
  {
    if i == 0 then 1 else 2 * Mask(i - 1)
  }

  /** The bitwise `&` of two words. */
  function And(a: nat, b: nat): nat
  {
    if a == 0 || b == 0 then 0 else 2 * And(a / 2, b / 2) + (if a % 2 == 1 && b % 2 == 1 then 1 else 0)
  }

  /** The bitwise `|` of two words. */
  function Or(a: nat, b: nat): nat
    decreases a + b
  {
    if a == 0 then b else if b == 0 then a
    else 2 * Or(a / 2, b / 2) + (if a % 2 == 1 || b % 2 == 1 then 1 else 0)
  }

  lemma {:induction false} ClearWord(i: nat)
    ensures !Bit(0, i)
  {
    if i > 0 {
      ClearWord(i - 1);
    }
  }

  /** The masked test of `Mark` reads bit i. */
  lemma {:induction false} TestBit(word: nat, i: nat)
    ensures And(word, Mask(i)) != 0 <==> Bit(word, i)
  {
    if i > 0 {
      assert Mask(i) / 2 == Mask(i - 1) && Mask(i) % 2 == 0;
      TestBit(word / 2, i - 1);
    }
    if word == 0 {
      ClearWord(i);
    }
  }

  lemma {:induction false} MaskBits(i: nat, j: nat)
    ensures Bit(Mask(i), j) <==> i == j
  {
    if i > 0 && j > 0 {
      MaskBits(i - 1, j - 1);
    } else if j > 0 {
      ClearWord(j - 1);
    }
  }

  /** Setting bit i changes bit i and no other. */
  lemma {:induction false} SetBit(word: nat, i: nat, j: nat)
    ensures Bit(Or(word, Mask(i)), j) <==> i == j || Bit(word, j)
  {
    if word == 0 {
      ClearWord(j);
      MaskBits(i, j);
    } else if i == 0 {
      assert Or(word, 1) == 2 * Or(word / 2, 0) + 1;
    } else {
      assert Mask(i) / 2 == Mask(i - 1) && Mask(i) % 2 == 0;
      if j > 0 {
        SetBit(word / 2, i - 1, j - 1);
      }
    }
  }

  /** Masks and unions of words below 2^n stay below it. */
  lemma {:induction false} OrFits(a: nat, b: nat, n: nat)
    requires a < Mask(n) && b < Mask(n)
    ensures Or(a, b) < Mask(n)
  {
    if a > 0 && b > 0 {
      OrFits(a / 2, b / 2, n - 1);
    }
  }

  lemma {:induction false} MaskFits(i: nat, n: nat)
    requires i < n
    ensures Mask(i) < Mask(n)
  {
    if i < n - 1 {
      MaskFits(i, n - 1);
    }
  }

  lemma MaskOfByte(i: nat)
    ensures Mask(i + 8) == 256 * Mask(i)
  {
    assert Mask(i + 4) == 16 * Mask(i) by {
      assert Mask(i + 2) == 4 * Mask(i);
    }
    assert Mask(i + 8) == 16 * Mask(i + 4) by {
      assert Mask(i + 6) == 4 * Mask(i + 4);
    }
  }

  lemma MaskIsAWord(i: nat)
    requires i < 64
    ensures Mask(i) < U64_SPAN == Mask(64)
  {
    MaskOfByte(0);
    MaskOfByte(8);
    MaskOfByte(16);
    MaskOfByte(24);
    MaskOfByte(32);
    MaskOfByte(40);
    MaskOfByte(48);
    MaskOfByte(56);
    MaskFits(i, 64);
  }

  function OrBit(word: UInt64, i: nat): (r: UInt64)
    requires i < 64
  {
    MaskIsAWord(i);
    OrFits(word, Mask(i), 64);
    Or(word, Mask(i))
  }

  /** Flag idx of a bitmap of 64-bit words. */
  predicate Flag(words: seq<UInt64>, idx: nat)
    requires idx < 64 * |words|
  {
    Bit(words[idx / 64], idx % 64)
  }

  lemma SetFlag(words: seq<UInt64>, idx: nat, k: nat)
    requires idx < 64 * |words| && k < 64 * |words|
    ensures var after := words[idx / 64 := OrBit(words[idx / 64], idx % 64)];
            Flag(after, k) <==> k == idx || Flag(words, k)
  {
    SetBit(words[idx / 64], idx % 64, k % 64);
  }

  /** The bitmap is the window's part of the accepted set. */
  ghost predicate Represents(words: seq<UInt64>, window: nat, base: nat, accepted: set<nat>)
  {
    window <= 64 * |words| && forall k: nat | k < window :: Flag(words, k) <==> base + k in accepted
  }

  lemma SlidRepresents(before: seq<UInt64>, after: seq<UInt64>, window: nat, base: nat, newBase: nat, accepted: set<nat>)
    requires Represents(before, window, base, accepted) && window <= 64 * |after| && base <= newBase
    requires forall x | x in accepted :: x < base + window
    requires forall k: nat | k < window ::
               Flag(after, k) <==> k + (newBase - base) < window && Flag(before, k + (newBase - base))
    ensures Represents(after, window, newBase, accepted)
  {
    forall k: nat | k < window
      ensures Flag(after, k) <==> newBase + k in accepted
    {
      var from := k + (newBase - base);
      if from < window {
        assert Flag(before, from) <==> base + from in accepted;
      }
    }
  }

  lemma MarkedRepresents(before: seq<UInt64>, after: seq<UInt64>, window: nat, base: nat, seqNo: nat, accepted: set<nat>)
    requires Represents(before, window, base, accepted) && window <= 64 * |after|
    requires forall k: nat | k < window :: Flag(after, k) <==> Flag(before, k) || base + k == seqNo
    ensures Represents(after, window, base, accepted + {seqNo})
  {
    forall k: nat | k < window
      ensures Flag(after, k) <==> base + k in accepted + {seqNo}
    {
      assert Flag(before, k) <==> base + k in accepted;
    }
  }

  class ReplayWindow {
    const window: nat
    var base: UInt64
    var bits: array<UInt64>
    ghost var accepted: set<nat>

    /** The bitmap is the window's part of the accepted set, and the base follows the largest number. */
    ghost predicate Valid()
      reads this, bits
    {
      && 64 <= window <= 4096 && bits.Length == (window + 63) / 64
      && 0 !in accepted
      && base == (if accepted == {} then 0 else Max(1, Largest(accepted) - window + 1))
      && Represents(bits[..], window, base, accepted)
    }

    constructor (size: nat)
      ensures Valid() && fresh(bits) && accepted == {} && window == Clamp(size, 64, 4096)
    {
      var w := Clamp(size, 64, 4096);
      window := w;
      base := 0;
      bits := new UInt64[(w + 63) / 64](_ => 0);
      accepted := {};
      new;
      forall idx: nat | idx < window
        ensures !Flag(bits[..], idx)
      {
        ClearWord(idx % 64);
      }
    }

    method Commit(seqNo: UInt64) returns (ok: bool)
      requires Valid()
      modifies this, bits
      ensures Valid() && (bits == old(bits) || fresh(bits))
      ensures ok <==> Fresh(old(accepted), window, seqNo)
      ensures accepted == Accept(old(accepted), window, seqNo)
    {
      if seqNo == 0 {
        return false;
      }
      if base == 0 {
        base := Max(MinusSat(seqNo, window - 1), 1);
        Clear();
        assert accepted == {};
      } else if seqNo < base {
        return false;
      } else if seqNo - base >= window {
        Slide(seqNo - window + 1);
      }
      ok := Mark(seqNo);
      if ok {
        LargestIs(accepted, Max(seqNo, Largest(old(accepted))));
      }
    }

    /** What the private methods keep: the bitmap shows the accepted numbers from the base on. */
    ghost predicate Shown()
      reads this, bits
    {
      && 64 <= window <= 4096 && bits.Length == (window + 63) / 64
      && Represents(bits[..], window, base, accepted)
    }

    /** Tests and sets the flag of a number at or above the base. */
    method Mark(seqNo: UInt64) returns (ok: bool)
      requires Shown() && base <= seqNo
      modifies this`accepted, bits
      ensures Shown()
      ensures ok <==> seqNo < base + window && seqNo !in old(accepted)
      ensures accepted == if ok then old(accepted) + {seqNo} else old(accepted)
    {
      var idx := seqNo - base;
      if idx >= window {
        return false;
      }
      ghost var before := bits[..];
      assert Flag(before, idx) <==> base + idx in accepted;
      var word := idx / 64;
      TestBit(bits[word], idx % 64);
      if And(bits[word], Mask(idx % 64)) != 0 {
        return false;
      }
      bits[word] := OrBit(bits[word], idx % 64);
      assert bits[..] == before[word := OrBit(before[word], idx % 64)];
      forall k: nat | k < window
        ensures Flag(bits[..], k) <==> Flag(before, k) || k == idx
      {
        SetFlag(before, idx, k);
      }
      MarkedRepresents(before, bits[..], window, base, seqNo, accepted);
      accepted := accepted + {seqNo};
      ok := true;
    }

    method Clear()
      requires 64 <= window <= 4096 && bits.Length == (window + 63) / 64
      modifies bits
      ensures forall b: nat, s | (forall x | x in s :: !(b <= x < b + window)) :: Represents(bits[..], window, b, s)
    {
      for i := 0 to bits.Length
        invariant forall j | 0 <= j < i :: bits[j] == 0
      {
        bits[i] := 0;
      }
      forall k: nat | k < window
        ensures !Flag(bits[..], k)
      {
        ClearWord(k % 64);
      }
    }

    /** The shifting loop of `Slide`: flag k of the copy is flag k + shift of the bitmap. */
    method ShiftedDown(shift: nat) returns (next: array<UInt64>)
      requires bits.Length == (window + 63) / 64 && shift < window
      ensures fresh(next) && next.Length == bits.Length
      ensures forall k: nat | k < window ::
                Flag(next[..], k) <==> k + shift < window && Flag(bits[..], k + shift)
    {
      next := new UInt64[bits.Length](_ => 0);
      ghost var words := bits[..];
      forall k: nat | k < window
        ensures !Flag(next[..], k)
      {
        ClearWord(k % 64);
      }
      for from := shift to window
        invariant bits[..] == words
        invariant forall k: nat | k < window ::
                    Flag(next[..], k) <==> k + shift < from && Flag(words, k + shift)
      {
        TestBit(bits[from / 64], from % 64);
        if And(bits[from / 64], Mask(from % 64)) != 0 {
          var idx := from - shift;
          ghost var before := next[..];
          next[idx / 64] := OrBit(next[idx / 64], idx % 64);
          assert next[..] == before[idx / 64 := OrBit(before[idx / 64], idx % 64)];
          forall k: nat | k < window
            ensures Flag(next[..], k) <==> Flag(before, k) || k == idx
          {
            SetFlag(before, idx, k);
          }
        }
      }
    }

    /** Moves the base forward, shifting the flags that stay inside the window. */
    method Slide(newBase: UInt64)
      requires Shown() && base < newBase
      requires forall x | x in accepted :: x < base + window
      modifies this`base, this`bits, bits
      ensures Shown() && base == newBase && (bits == old(bits) || fresh(bits))
    {
      var shift := newBase - base;
      if shift >= window {
        Clear();
        base := newBase;
        return;
      }
      ghost var words := bits[..];
      var next := ShiftedDown(shift);
      SlidRepresents(words, next[..], window, base, newBase, accepted);
      bits := next;
      base := newBase;
    }
  }
}
