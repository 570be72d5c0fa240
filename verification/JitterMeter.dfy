/** The jitter of one peer's audio: a smoothed difference between the transit times of successive packets. */
module JitterMeter {
  import opened Bytes

  const I64_SPAN: int := U64_SPAN
  const I64_MAX: int := 0x7fff_ffff_ffff_ffff

  type Int64 = x: int | -I64_MAX - 1 <= x <= I64_MAX

  /** The signed word with the same low 64 bits. */
  function ToInt64(x: int): (y: Int64)
    ensures (x - y) % I64_SPAN == 0
    ensures -I64_MAX - 1 <= x <= I64_MAX ==> y == x
  {
    var low := x % I64_SPAN;
    if low <= I64_MAX then low else low - I64_SPAN
  }

  /** When a packet says it was sent, by the sender's clock, and when it arrived, by the receiver's, in microseconds. */
  datatype Arrival = Arrival(sentUs: UInt64, atUs: nat)

  /** Arrival minus sending time, saturating; the clocks need not agree. */
  function Transit(a: Arrival): Int64
  {
    Clamp(ToInt64(a.atUs) - ToInt64(a.sentUs), -I64_MAX - 1, I64_MAX)
  }

  /** How far two transit times are apart, in wrapping arithmetic. */
  function Apart(before: Int64, now: Int64): nat
  {
    var d: int := ToInt64(now - before);
    if d < 0 then -d else d
  }

  type Micros = x: real | x >= 0.0

  /** One sixteenth of the way from the estimate to a new value. */
  function Smooth(us: Micros, delta: nat): Micros
  {
    us + (delta as real - us) / 16.0
  }

  datatype Estimate = Estimate(us: Micros, last: Option<Int64>)
  {
    function Observed(a: Arrival): Estimate
    {
      Estimate(if last.None? then us else Smooth(us, Apart(last.value, Transit(a))), Some(Transit(a)))
    }

    /** Whole microseconds, as a report carries them. */
    function Whole(): UInt32 { Min(U32_MAX, us.Floor) }
  }

  const NO_JITTER := Estimate(0.0, None)

  /** The estimate after a run of arrivals. */
  function After(arrivals: seq<Arrival>): Estimate
  {
    if arrivals == [] then NO_JITTER else After(arrivals[..|arrivals| - 1]).Observed(arrivals[|arrivals| - 1])
  }

  /** The differences between successive transit times. */
  function Differences(arrivals: seq<Arrival>): (ds: seq<nat>)
    ensures |ds| == MinusSat(|arrivals|, 1)
    ensures forall i | 0 <= i < |ds| :: ds[i] == Apart(Transit(arrivals[i]), Transit(arrivals[i + 1]))
  {
    seq(MinusSat(|arrivals|, 1), i requires 0 <= i < MinusSat(|arrivals|, 1) =>
      Apart(Transit(arrivals[i]), Transit(arrivals[i + 1])))
  }

  function Smoothed(us: Micros, deltas: seq<nat>): Micros
  {
    if deltas == [] then us else Smooth(Smoothed(us, deltas[..|deltas| - 1]), deltas[|deltas| - 1])
  }

  lemma {:induction false} EstimateIsSmoothed(arrivals: seq<Arrival>)
    ensures After(arrivals).us == Smoothed(0.0, Differences(arrivals))
    ensures After(arrivals).last == if arrivals == [] then None else Some(Transit(arrivals[|arrivals| - 1]))
  {
    if arrivals != [] {
      var n := |arrivals| - 1;
      EstimateIsSmoothed(arrivals[..n]);
      if n > 0 {
        assert Differences(arrivals)[..n - 1] == Differences(arrivals[..n]);
      }
    }
  }

  /** Smoothing never leaves the range of what it has seen. */
  lemma {:induction false} SmoothedStaysBetween(us: Micros, deltas: seq<nat>, lo: nat, hi: nat)
    requires lo as real <= us <= hi as real
    requires forall i | 0 <= i < |deltas| :: lo <= deltas[i] <= hi
    ensures lo as real <= Smoothed(us, deltas) <= hi as real
  {
    if deltas != [] {
      SmoothedStaysBetween(us, deltas[..|deltas| - 1], lo, hi);
    }
  }

  /** What is left of a difference after n steps: fifteen sixteenths of it at each. */
  function Faded(d: real, n: nat): real
  {
    if n == 0 then d else Faded(d, n - 1) * 15.0 / 16.0
  }

  /** Where the estimate started fades by a sixteenth with each packet, whatever arrives. */
  lemma {:induction false} StartFades(a: Micros, b: Micros, deltas: seq<nat>)
    ensures Smoothed(a, deltas) - Smoothed(b, deltas) == Faded(a - b, |deltas|)
  {
    if deltas != [] {
      StartFades(a, b, deltas[..|deltas| - 1]);
    }
  }

  /** The jitter reported is no more than the largest difference between the transit times of successive packets; with
      equal transit times it is zero. */
  lemma JitterIsBounded(arrivals: seq<Arrival>, most: nat)
    requires forall i | 0 <= i < |arrivals| - 1 :: Apart(Transit(arrivals[i]), Transit(arrivals[i + 1])) <= most
    ensures After(arrivals).Whole() <= most
  {
    EstimateIsSmoothed(arrivals);
    SmoothedStaysBetween(0.0, Differences(arrivals), 0, most);
  }

  /** The same packet by a sender's clock that differs by a fixed amount. */
  predicate Shifted(a: Arrival, b: Arrival, offset: int)
  {
    b.atUs == a.atUs && b.sentUs == a.sentUs + offset
  }

  /** Neither clock is past the end of 63 bits. */
  predicate InRange(a: Arrival)
  {
    a.sentUs <= I64_MAX && a.atUs <= I64_MAX
  }

  lemma TransitShifts(a: Arrival, b: Arrival, offset: int)
    requires Shifted(a, b, offset) && InRange(a) && InRange(b)
    ensures Transit(b) == Transit(a) - offset
  {
  }

  lemma DifferenceStands(a: Arrival, a': Arrival, b: Arrival, b': Arrival, offset: int)
    requires Shifted(a, b, offset) && InRange(a) && InRange(b) && Shifted(a', b', offset) && InRange(a') && InRange(b')
    ensures Apart(Transit(b), Transit(b')) == Apart(Transit(a), Transit(a'))
  {
    TransitShifts(a, b, offset);
    TransitShifts(a', b', offset);
    assert Transit(b') - Transit(b) == Transit(a') - Transit(a);
  }

  /** The clocks need not agree: the estimate does not depend on the offset between them. */
  lemma {:induction false} OffsetDoesNotMatter(arrivals: seq<Arrival>, others: seq<Arrival>, offset: int)
    requires |others| == |arrivals|
    requires forall i | 0 <= i < |arrivals| ::
               Shifted(arrivals[i], others[i], offset) && InRange(arrivals[i]) && InRange(others[i])
    ensures After(others).us == After(arrivals).us
  {
    EstimateIsSmoothed(arrivals);
    EstimateIsSmoothed(others);
    forall i | 0 <= i < |Differences(arrivals)|
      ensures Differences(others)[i] == Differences(arrivals)[i]
    {
      DifferenceStands(arrivals[i], arrivals[i + 1], others[i], others[i + 1], offset);
    }
    assert Differences(others) == Differences(arrivals);
  }
}
