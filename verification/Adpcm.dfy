/** One channel of IMA ADPCM: the quantiser, its reconstruction and the prediction loop. */
module Adpcm {
  import opened Bytes

  const INDEX_TABLE: seq<int> := [-1, -1, -1, -1, 2, 4, 6, 8, -1, -1, -1, -1, 2, 4, 6, 8]

  type Index = i: int | 0 <= i <= 88
  type Nibble = n: int | 0 <= n < 16

  /** A table of steps, eight to a row. */
  datatype Steps = End | Row(a: int, b: int, c: int, d: int, e: int, f: int, g: int, h: int, rest: Steps)

  const STEP_TABLE: Steps :=
    Row(7, 8, 9, 10, 11, 12, 13, 14, Row(16, 17, 19, 21, 23, 25, 28, 31, Row(34, 37, 41, 45, 50, 55, 60, 66,
    Row(73, 80, 88, 97, 107, 118, 130, 143, Row(157, 173, 190, 209, 230, 253, 279, 307,
    Row(337, 371, 408, 449, 494, 544, 598, 658, Row(724, 796, 876, 963, 1060, 1166, 1282, 1411,
    Row(1552, 1707, 1878, 2066, 2272, 2499, 2749, 3024, Row(3327, 3660, 4026, 4428, 4871, 5358, 5894, 6484,
    Row(7132, 7845, 8630, 9493, 10442, 11487, 12635, 13899, Row(15289, 16818, 18500, 20350, 22385, 24623, 27086, 29794,
    End)))))))))))

  const TOP_STEP := 32767

  function Next(t: Steps): int { if t.Row? then t.a else TOP_STEP }

  /** Each step is at least the one before it and at most twice as large; the last is followed by the top. */
  predicate Smooth(t: Steps)
  {
    t.Row? ==>
      && 7 <= t.a <= t.b <= t.c <= t.d <= t.e <= t.f <= t.g <= t.h <= Next(t.rest) <= TOP_STEP
      && t.b <= 2 * t.a && t.c <= 2 * t.b && t.d <= 2 * t.c && t.e <= 2 * t.d && t.f <= 2 * t.e && t.g <= 2 * t.f
      && t.h <= 2 * t.g && Next(t.rest) <= 2 * t.h && Smooth(t.rest)
  }

  function Entry(t: Steps, i: nat): int
  {
    if t.End? then TOP_STEP
    else match i
      case 0 => t.a case 1 => t.b case 2 => t.c case 3 => t.d case 4 => t.e case 5 => t.f case 6 => t.g case 7 => t.h
      case _ => Entry(t.rest, i - 8)
  }

  lemma {:induction false} EntriesAreClose(t: Steps, i: nat)
    requires Smooth(t)
    ensures 7 <= Entry(t, i) <= Entry(t, i + 1) <= 2 * Entry(t, i)
    ensures Entry(t, i) <= TOP_STEP
  {
    if t.Row? && i >= 8 {
      EntriesAreClose(t.rest, i - 8);
    }
  }

  lemma TableIsSmooth()
    ensures Smooth(STEP_TABLE) && Entry(STEP_TABLE, 0) == 7 && Entry(STEP_TABLE, 88) == TOP_STEP
  {
  }

  /** The next step is eleven tenths of this one, but for rounding. */
  predicate TenthMore(step: int, next: int) { -8 <= 10 * next - 11 * step <= 8 }

  /** Row by row, up to the last of them. */
  predicate Geometric(t: Steps)
  {
    t.Row? ==>
      && TenthMore(t.a, t.b) && TenthMore(t.b, t.c) && TenthMore(t.c, t.d) && TenthMore(t.d, t.e) && TenthMore(t.e, t.f)
      && TenthMore(t.f, t.g) && TenthMore(t.g, t.h) && (t.rest.Row? ==> TenthMore(t.h, t.rest.a)) && Geometric(t.rest)
  }

  lemma {:induction false} EntriesAreTenthsApart(t: Steps, i: nat)
    requires Geometric(t) && Entry(t, i + 1) != TOP_STEP
    ensures TenthMore(Entry(t, i), Entry(t, i + 1))
  {
    if t.Row? && i >= 8 {
      EntriesAreTenthsApart(t.rest, i - 8);
    }
  }

  lemma TableIsGeometric()
    ensures Geometric(STEP_TABLE)
  {
  }

  lemma TableEnds()
    ensures Entry(STEP_TABLE, 87) == 29794 && Entry(STEP_TABLE, 88) == 32767
  {
  }

  lemma {:induction false} EntriesGrow(t: Steps, i: nat, n: nat)
    requires Smooth(t)
    ensures Entry(t, i) <= Entry(t, i + n)
  {
    if n > 0 {
      EntriesGrow(t, i, n - 1);
      EntriesAreClose(t, i + n - 1);
    }
  }

  function StepAt(i: Index): (step: int)
    ensures 7 <= step <= 32767
    ensures i == 0 ==> step == 7
    ensures i == 88 ==> step == 32767
  {
    TableIsSmooth();
    EntriesAreClose(STEP_TABLE, i);
    Entry(STEP_TABLE, i)
  }

  /** The steps grow by a tenth from each to the next, the last one as far as 16 bits allow. */
  lemma StepsGrowByATenth(i: Index)
    requires i < 88
    ensures i < 87 ==> TenthMore(StepAt(i), StepAt(i + 1))
    ensures i == 87 ==> StepAt(i) == 29794 && StepAt(i + 1) == 32767
  {
    TableIsGeometric();
    TableEnds();
    TableIsSmooth();
    if i < 87 {
      EntriesGrow(STEP_TABLE, i + 1, 87 - (i + 1));
      EntriesAreTenthsApart(STEP_TABLE, i);
    }
  }

  /** The predictor that encoder and decoder each keep for a channel. */
  datatype Channel = Channel(pred: Sample, index: Index) {
    function Step(): (step: int)
      ensures 7 <= step <= 32767
    {
      StepAt(index)
    }
  }

  /** The lower end of the cell of magnitude code m: the parts of the step selected by its bits. */
  function Threshold(step: nat, m: Nibble): nat
    requires m < 8
  {
    match m
    case 0 => 0
    case 1 => step / 4
    case 2 => step / 2
    case 3 => step / 2 + step / 4
    case 4 => step
    case 5 => step + step / 4
    case 6 => step + step / 2
    case 7 => step + step / 2 + step / 4
  }

  /** The code m covers the distance d: m is the last code whose cell starts at or below d. */
  predicate InCell(step: nat, d: nat, m: Nibble)
  {
    m < 8 && Threshold(step, m) <= d && (m < 7 ==> d < Threshold(step, m + 1))
  }

  lemma EveryDistanceHasACell(step: nat, d: nat, top: Nibble) returns (m: Nibble)
    requires step >= 7 && top < 8
    requires top < 7 ==> d < Threshold(step, top + 1)
    ensures InCell(step, d, m)
  {
    if Threshold(step, top) <= d {
      m := top;
    } else {
      m := EveryDistanceHasACell(step, d, top - 1);
    }
  }

  lemma CellIsUnique(step: nat, d: nat, m: Nibble, k: Nibble)
    requires step >= 7 && InCell(step, d, m) && InCell(step, d, k)
    ensures m == k
  {
  }

  ghost function Magnitude(step: nat, d: nat): (m: Nibble)
    requires step >= 7
    ensures InCell(step, d, m)
  {
    assert exists m: Nibble :: InCell(step, d, m) by {
      var m := EveryDistanceHasACell(step, d, 7);
    }
    var m: Nibble :| InCell(step, d, m);
    m
  }

  function Abs(x: int): nat { if x < 0 then -x else x }

  /** The nibble for sample x: sign bit 8 below the prediction, and the magnitude code of the gap. */
  ghost function Quantise(c: Channel, x: Sample): Nibble
  {
    (if x < c.pred then 8 else 0) + Magnitude(c.Step(), Abs(x - c.pred))
  }

  /** A nibble without its sign bit. */
  function Code(n: Nibble): (m: Nibble)
    ensures m < 8
  {
    if n >= 8 then n - 8 else n
  }

  /** The distance the prediction moves for a nibble, before clamping. */
  function Move(c: Channel, n: Nibble): nat
  {
    Threshold(c.Step(), Code(n)) + c.Step() / 8
  }

  /** The predictor after a nibble. The decoder's sample is the new `pred`. */
  function Advance(c: Channel, n: Nibble): Channel
  {
    Channel(
      Clamp(if n >= 8 then c.pred - Move(c, n) else c.pred + Move(c, n), -32768, 32767),
      Clamp(c.index + INDEX_TABLE[n], 0, 88))
  }

  /** Greedy subtraction of the step, its half and its quarter finds the cell. */
  lemma GreedyFindsTheCell(step: nat, d: nat, b4: bool, b2: bool, b1: bool)
    requires step >= 7
    requires b4 == (d >= step)
    requires var d2 := if b4 then d - step else d;
             && b2 == (d2 >= step / 2)
             && b1 == ((if b2 then d2 - step / 2 else d2) >= step / 4)
    ensures Magnitude(step, d) == (if b4 then 4 else 0) + (if b2 then 2 else 0) + (if b1 then 1 else 0)
    ensures Threshold(step, Magnitude(step, d))
         == (if b4 then step else 0) + (if b2 then step / 2 else 0) + (if b1 then step / 4 else 0)
  {
    var m: Nibble := (if b4 then 4 else 0) + (if b2 then 2 else 0) + (if b1 then 1 else 0);
    assert InCell(step, d, m);
    CellIsUnique(step, d, m, Magnitude(step, d));
  }

  /** The magnitude bits of `EncodeNibble` and the move they stand for. */
  method GreedyCode(step: nat, distance: nat) returns (code: Nibble, vpdiff: nat)
    requires step >= 7
    ensures code == Magnitude(step, distance)
    ensures vpdiff == Threshold(step, code) + step / 8
  {
    var delta := distance;
    code := 0;
    vpdiff := step / 8;
    ghost var b4, b2, b1 := false, false, false;
    if delta >= step {
      b4 := true;
      code := code + 4;
      delta := delta - step;
      vpdiff := vpdiff + step;
    }
    if delta >= step / 2 {
      b2 := true;
      code := code + 2;
      delta := delta - step / 2;
      vpdiff := vpdiff + step / 2;
    }
    if delta >= step / 4 {
      b1 := true;
      code := code + 1;
      vpdiff := vpdiff + step / 4;
    }
    GreedyFindsTheCell(step, distance, b4, b2, b1);
  }

  method EncodeNibble(sample: Sample, pred0: Sample, index0: Index)
    returns (nibble: Nibble, pred: Sample, index: Index)
    ensures nibble == Quantise(Channel(pred0, index0), sample)
    ensures Channel(pred, index) == Advance(Channel(pred0, index0), nibble)
  {
    var step := StepAt(index0);
    var delta := sample - pred0;
    var sign := 0;
    if delta < 0 {
      sign := 8;
      delta := -delta;
    }
    var code, vpdiff := GreedyCode(step, delta);
    nibble := sign + code;
    var moved := if sign != 0 then pred0 - vpdiff else pred0 + vpdiff;
    pred := Clamp(moved, -32768, 32767);
    index := Clamp(index0 + INDEX_TABLE[nibble], 0, 88);
  }

  /** The decoder's bit tests add up to the lower end of the nibble's cell. */
  lemma BitsSelectTheCell(step: nat, n: Nibble)
    ensures Threshold(step, Code(n))
         == (if n % 2 != 0 then step / 4 else 0)
            + (if n / 2 % 2 != 0 then step / 2 else 0)
            + (if n / 4 % 2 != 0 then step else 0)
    ensures n / 8 % 2 != 0 <==> n >= 8
  {
    var m := Code(n);
    assert n % 2 == m % 2 && n / 2 % 2 == m / 2 % 2 && n / 4 % 2 == m / 4 % 2;
  }

  method DecodeNibble(nibble: Byte, pred0: Sample, index0: Index)
    returns (sample: Sample, pred: Sample, index: Index)
    ensures Channel(pred, index) == Advance(Channel(pred0, index0), nibble % 16)
    ensures sample == pred
  {
    var step := StepAt(index0);
    var n: Nibble := nibble % 16;
    BitsSelectTheCell(step, n);
    var diff := step / 8;
    if n % 2 != 0 {
      diff := diff + step / 4;
    }
    if n / 2 % 2 != 0 {
      diff := diff + step / 2;
    }
    if n / 4 % 2 != 0 {
      diff := diff + step;
    }
    assert diff == Move(Channel(pred0, index0), n);
    var moved := if n / 8 % 2 != 0 then pred0 - diff else pred0 + diff;
    pred := Clamp(moved, -32768, 32767);
    index := Clamp(index0 + INDEX_TABLE[n], 0, 88);
    sample := pred;
  }

  /** Every cell is wider than an eighth of the step, so the reconstruction point is inside it. */
  lemma CellHoldsItsReconstruction(step: nat, m: Nibble, d: nat)
    requires step >= 7 && m < 8
    requires Threshold(step, m) <= d <= Threshold(step, m) + step / 8
    ensures InCell(step, d, m) && Magnitude(step, d) == m
  {
    assert InCell(step, d, m);
    CellIsUnique(step, d, m, Magnitude(step, d));
  }

  lemma NibbleParts(c: Channel, x: Sample)
    ensures Code(Quantise(c, x)) == Magnitude(c.Step(), Abs(x - c.pred))
    ensures Quantise(c, x) >= 8 <==> x < c.pred
    ensures Move(c, Quantise(c, x)) == Threshold(c.Step(), Magnitude(c.Step(), Abs(x - c.pred))) + c.Step() / 8
  {
  }

  /** Clamping never carries the reconstruction past the sample: it stays in the sample's cell, on its side. */
  lemma ReconstructionStaysInCell(c: Channel, x: Sample, low: nat, y: Sample)
    requires low <= Abs(x - c.pred) && (x < c.pred ==> low + c.Step() / 8 > 0)
    requires y == Clamp(if x < c.pred then c.pred - (low + c.Step() / 8) else c.pred + (low + c.Step() / 8), -32768, 32767)
    ensures low <= Abs(y - c.pred) <= low + c.Step() / 8
    ensures y < c.pred <==> x < c.pred
  {
  }

  /** Quantising the reconstructed sample gives the nibble it was reconstructed from. */
  lemma ReconstructionKeepsItsNibble(c: Channel, x: Sample)
    ensures Quantise(c, Advance(c, Quantise(c, x)).pred) == Quantise(c, x)
  {
    var step := c.Step();
    var m := Magnitude(step, Abs(x - c.pred));
    var low := Threshold(step, m);
    NibbleParts(c, x);
    var y := Advance(c, Quantise(c, x)).pred;
    ReconstructionStaysInCell(c, x, low, y);
    CellHoldsItsReconstruction(step, m, Abs(y - c.pred));
  }

  lemma CellErrorIsBounded(step: nat, d: nat, m: Nibble)
    requires step >= 7 && InCell(step, d, m) && d < 2 * step
    ensures -(step / 8 + 2) <= d - (Threshold(step, m) + step / 8) <= step / 8 + 2
  {
  }

  /** Outside overload the decoded sample is within an eighth of a step, plus 2, of the original. */
  lemma ErrorIsBounded(c: Channel, x: Sample)
    requires Abs(x - c.pred) < 2 * c.Step()
    ensures Abs(x - Advance(c, Quantise(c, x)).pred) <= c.Step() / 8 + 2
  {
    var m := Magnitude(c.Step(), Abs(x - c.pred));
    assert Code(Quantise(c, x)) == m;
    CellErrorIsBounded(c.Step(), Abs(x - c.pred), m);
  }

  /** In overload the gap closes by the largest move, unclamped, and keeps its sign. */
  lemma OverloadClosesTheGap(c: Channel, x: Sample)
    requires Abs(x - c.pred) >= 2 * c.Step()
    ensures var step := c.Step();
            var next := Advance(c, Quantise(c, x));
            && Abs(x - next.pred) == Abs(x - c.pred) - (step + step / 2 + step / 4 + step / 8)
            && next.index == Min(88, c.index + 8)
  {
    assert InCell(c.Step(), Abs(x - c.pred), 7);
    CellIsUnique(c.Step(), Abs(x - c.pred), 7, Magnitude(c.Step(), Abs(x - c.pred)));
  }

  /** How far the index rises for a gap of at least one step: by 2, and by 2 more for each quarter step beyond. */
  function Rise(step: nat, d: nat): nat
  {
    2 + (if d >= step + step / 4 then 2 else 0) + (if d >= step + step / 2 then 2 else 0)
    + (if d >= step + step / 2 + step / 4 then 2 else 0)
  }

  /** The step adapts to the gap: it grows exactly if the gap is at least one step, the more the wider it is, and otherwise
      falls by one place. */
  lemma StepFollowsTheGap(c: Channel, x: Sample)
    ensures var d := Abs(x - c.pred);
            Advance(c, Quantise(c, x)).index
            == if d >= c.Step() then Min(88, c.index + Rise(c.Step(), d)) else Max(0, c.index - 1)
  {
    var d := Abs(x - c.pred);
    NibbleParts(c, x);
    assert InCell(c.Step(), d, Magnitude(c.Step(), d));
  }

  /** The predictor after k samples equal to x. */
  ghost function Hold(c: Channel, x: Sample, k: nat): Channel
  {
    if k == 0 then c else var p := Hold(c, x, k - 1); Advance(p, Quantise(p, x))
  }

  predicate Overloaded(c: Channel, x: Sample) { Abs(x - c.pred) >= 2 * c.Step() }

  /** One index down at most halves the step, and up never shrinks it. */
  lemma StepsAreClose(i: Index, j: Index)
    ensures i <= j ==> StepAt(i) <= StepAt(j)
    ensures j == i - 1 ==> StepAt(i) <= 2 * StepAt(j)
  {
    TableIsSmooth();
    if i <= j {
      EntriesGrow(STEP_TABLE, i, j - i);
    } else {
      EntriesAreClose(STEP_TABLE, j);
    }
  }

  /** How far one sample out of overload leaves the prediction, in numbers. */
  lemma SmallErrorIsNoOverload(gap: nat, step: nat, next: nat)
    requires gap <= step / 8 + 2 && step >= 7 && step <= 2 * next
    ensures gap < 2 * next
  {
  }

  lemma IndexFallsByOne(c: Channel, n: Nibble)
    ensures Advance(c, n).index >= c.index - 1
  {
  }

  /** Once out of overload, a held input never comes back into it. */
  lemma OverloadNeverReturns(c: Channel, x: Sample)
    requires !Overloaded(c, x)
    ensures !Overloaded(Advance(c, Quantise(c, x)), x)
  {
    var next := Advance(c, Quantise(c, x));
    ErrorIsBounded(c, x);
    IndexFallsByOne(c, Quantise(c, x));
    StepsAreClose(c.index, next.index);
    SmallErrorIsNoOverload(Abs(x - next.pred), c.Step(), next.Step());
  }

  lemma OverloadStep(c: Channel, x: Sample)
    requires Overloaded(c, x)
    ensures Advance(c, Quantise(c, x)).index == Min(88, c.index + 8)
    ensures Abs(x - Advance(c, Quantise(c, x)).pred) <= Abs(x - c.pred) - 11
  {
    OverloadClosesTheGap(c, x);
  }

  /** After k samples a held input has left overload, or it has raised the index by 8k and closed the gap by 11k. */
  ghost predicate Settles(c: Channel, x: Sample, k: nat)
  {
    !Overloaded(c, x) || (c.index >= Min(88, 8 * k) && Abs(x - c.pred) <= 65535 - 11 * k)
  }

  lemma SettlesOn(c: Channel, x: Sample, k: nat)
    requires Settles(c, x, k)
    ensures Settles(Advance(c, Quantise(c, x)), x, k + 1)
  {
    if Overloaded(c, x) {
      OverloadStep(c, x);
    } else {
      OverloadNeverReturns(c, x);
    }
  }

  lemma {:induction false} HeldInputSettles(c: Channel, x: Sample, k: nat)
    ensures Settles(Hold(c, x, k), x, k)
  {
    if k > 0 {
      HeldInputSettles(c, x, k - 1);
      SettlesOn(Hold(c, x, k - 1), x, k - 1);
    }
  }

  /** By then the index is at its end, where the step is so large that no remaining gap is overload. */
  lemma SettledByEleven(c: Channel, x: Sample, k: nat)
    requires Settles(c, x, k) && k >= 11
    ensures !Overloaded(c, x)
  {
  }

  /** A held input is tracked: from 11 samples on the channel is out of overload for good. */
  lemma HeldInputLeavesOverload(c: Channel, x: Sample, k: nat)
    requires k >= 11
    ensures !Overloaded(Hold(c, x, k), x)
  {
    HeldInputSettles(c, x, k);
    SettledByEleven(Hold(c, x, k), x, k);
  }

  /** The predictor after a sequence of nibbles. */
  function After(c: Channel, ns: seq<Nibble>): Channel
  {
    if ns == [] then c else Advance(After(c, ns[..|ns| - 1]), ns[|ns| - 1])
  }

  ghost function EncodeAll(c: Channel, xs: seq<Sample>): (ns: seq<Nibble>)
    ensures |ns| == |xs|
  {
    if xs == [] then [] else
      var ns := EncodeAll(c, xs[..|xs| - 1]);
      ns + [Quantise(After(c, ns), xs[|xs| - 1])]
  }

  function DecodeAll(c: Channel, ns: seq<Nibble>): (xs: seq<Sample>)
    ensures |xs| == |ns|
  {
    if ns == [] then [] else DecodeAll(c, ns[..|ns| - 1]) + [After(c, ns).pred]
  }

  /** Decoding and encoding again gives the same nibbles: the encoder's image is fixed. */
  lemma {:induction false} EncodeDecodeEncode(c: Channel, xs: seq<Sample>)
    ensures EncodeAll(c, DecodeAll(c, EncodeAll(c, xs))) == EncodeAll(c, xs)
  {
    if xs != [] {
      var last := |xs| - 1;
      EncodeDecodeEncode(c, xs[..last]);
      var ns := EncodeAll(c, xs);
      assert ns[..last] == EncodeAll(c, xs[..last]);
      var ys := DecodeAll(c, ns);
      assert ys[..last] == DecodeAll(c, ns[..last]);
      ReconstructionKeepsItsNibble(After(c, ns[..last]), xs[last]);
    }
  }

  /** At index 0 a sample on its own prediction has nibble 0, which leaves the predictor alone. */
  lemma SilentNibble(x: Sample)
    ensures Quantise(Channel(x, 0), x) == 0 && Advance(Channel(x, 0), 0) == Channel(x, 0)
  {
    assert InCell(7, 0, 0);
    CellIsUnique(7, 0, 0, Magnitude(7, 0));
  }

  lemma {:induction false} ConstantNibbles(x: Sample, xs: seq<Sample>)
    requires forall k | 0 <= k < |xs| :: xs[k] == x
    ensures After(Channel(x, 0), EncodeAll(Channel(x, 0), xs)) == Channel(x, 0)
    ensures forall k | 0 <= k < |xs| :: EncodeAll(Channel(x, 0), xs)[k] == 0
  {
    if xs != [] {
      var c, last := Channel(x, 0), |xs| - 1;
      ConstantNibbles(x, xs[..last]);
      SilentNibble(x);
      assert EncodeAll(c, xs)[..last] == EncodeAll(c, xs[..last]);
    }
  }

  lemma {:induction false} SilenceStays(x: Sample, ns: seq<Nibble>)
    requires forall k | 0 <= k < |ns| :: ns[k] == 0
    ensures After(Channel(x, 0), ns) == Channel(x, 0)
    ensures forall k | 0 <= k < |ns| :: DecodeAll(Channel(x, 0), ns)[k] == x
  {
    if ns != [] {
      SilenceStays(x, ns[..|ns| - 1]);
      SilentNibble(x);
    }
  }

  /** A constant signal starting at its own prediction with index 0 is coded without error. */
  lemma ConstantIsExact(x: Sample, xs: seq<Sample>)
    requires forall k | 0 <= k < |xs| :: xs[k] == x
    ensures var c := Channel(x, 0);
            DecodeAll(c, EncodeAll(c, xs)) == xs && After(c, EncodeAll(c, xs)) == c
  {
    ConstantNibbles(x, xs);
    SilenceStays(x, EncodeAll(Channel(x, 0), xs));
  }
}
