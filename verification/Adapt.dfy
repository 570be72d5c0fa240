/** Link adaptation: the probe train, the floor it proves, the profile chosen from it, and packet pacing. */
module Adapt {
  import opened Bytes
  import opened Division

  const MAX_PROBE_BYTES := 128 * 1024
  const PROBE_STEPS_BPS: seq<UInt64> := [500_000, 1_000_000, 2_000_000, 4_000_000, 8_000_000]
  const PROBE_PAYLOAD_BYTES := 800
  const PROBE_WIRE_BYTES := 46 + 16 + 13 + PROBE_PAYLOAD_BYTES
  const PACKETS_PER_STEP := 20
  const MIN_BUFFER_MS := 20
  const MAX_BUFFER_MS := 150

  datatype Spec = Spec(step: nat, rateBps: nat, datagramLen: nat, delayUs: nat)

  /** Packet i of the full train: 20 packets a step, spaced so that each step runs at its rate. */
  function PlannedPacket(i: nat): Spec
    requires i < 5 * PACKETS_PER_STEP
  {
    var rate := PROBE_STEPS_BPS[i / PACKETS_PER_STEP];
    Spec(i / PACKETS_PER_STEP, rate, PROBE_WIRE_BYTES, Max(PROBE_WIRE_BYTES * 8 * 1_000_000 / Max(rate, 1), 1))
  }

  /** The train is the longest prefix of the full one that fits the byte budget. */
  method PlanProbe(maxBytes: nat) returns (plan: seq<Spec>)
    ensures |plan| == Min(5 * PACKETS_PER_STEP, Min(maxBytes, MAX_PROBE_BYTES) / PROBE_WIRE_BYTES)
    ensures forall i | 0 <= i < |plan| :: plan[i] == PlannedPacket(i)
  {
    var budget := Min(maxBytes, MAX_PROBE_BYTES);
    plan := [];
    var used := 0;
    for step := 0 to 5
      invariant |plan| == step * PACKETS_PER_STEP && used == |plan| * PROBE_WIRE_BYTES <= budget
      invariant forall i | 0 <= i < |plan| :: plan[i] == PlannedPacket(i)
    {
      var rate := PROBE_STEPS_BPS[step];
      var packets := 0;
      while packets < PACKETS_PER_STEP
        invariant packets <= PACKETS_PER_STEP && |plan| == step * PACKETS_PER_STEP + packets
        invariant used == |plan| * PROBE_WIRE_BYTES <= budget
        invariant forall i | 0 <= i < |plan| :: plan[i] == PlannedPacket(i)
      {
        if used + PROBE_WIRE_BYTES > budget {
          return;
        }
        var micros := Max(PROBE_WIRE_BYTES * 8 * 1_000_000 / Max(rate, 1), 1);
        plan := plan + [Spec(step, rate, PROBE_WIRE_BYTES, micros)];
        used := used + PROBE_WIRE_BYTES;
        packets := packets + 1;
      }
    }
  }

  /** Every packet of the train is spaced so that its bits go out at exactly the rate of its step. */
  lemma TrainRunsAtItsRates(i: nat)
    requires i < 5 * PACKETS_PER_STEP
    ensures PlannedPacket(i).delayUs * PlannedPacket(i).rateBps == PROBE_WIRE_BYTES * 8 * 1_000_000
    ensures i >= PACKETS_PER_STEP ==> PlannedPacket(i).rateBps == 2 * PlannedPacket(i - PACKETS_PER_STEP).rateBps
  {
    var k := i / PACKETS_PER_STEP;
    assert k == 0 || k == 1 || k == 2 || k == 3 || k == 4;
    assert i >= PACKETS_PER_STEP ==> (i - PACKETS_PER_STEP) / PACKETS_PER_STEP == k - 1;
  }

  /** The steps come in order, 20 packets each. */
  lemma TrainStepsInOrder(i: nat)
    requires i < 5 * PACKETS_PER_STEP
    ensures var p := PlannedPacket(i);
            20 * p.step <= i < 20 * p.step + 20 && p.step < 5 && p.rateBps == PROBE_STEPS_BPS[p.step] && p.datagramLen == 875
  {
  }

  /** What one probe step measured: rate, payload bytes sent and received, and the two spans in microseconds. */
  datatype Step = Step(rate: UInt64, sent: UInt32, recv: UInt32, sendUs: UInt32, recvUs: UInt32)

  /** Bytes on the wire for a payload sent in 800-byte pieces. */
  function ProbeWireBytes(payload: nat): nat
  {
    if payload == 0 then 0 else (payload + PROBE_PAYLOAD_BYTES - 1) / PROBE_PAYLOAD_BYTES * PROBE_WIRE_BYTES
  }

  function GoodputBps(wireBytes: nat, us: nat): nat
  {
    if us == 0 || wireBytes == 0 then 0 else wireBytes * 8 * 1_000_000 / us
  }

  /** Full pieces have their overhead each, and a part of a piece counts as a whole one. */
  lemma WireBytesAreWholePieces(payload: nat, pieces: nat)
    requires PROBE_PAYLOAD_BYTES * pieces < payload + PROBE_PAYLOAD_BYTES && payload <= PROBE_PAYLOAD_BYTES * pieces
    ensures ProbeWireBytes(payload) == 875 * pieces
  {
    if payload > 0 {
      assert (payload + PROBE_PAYLOAD_BYTES - 1) / PROBE_PAYLOAD_BYTES == pieces;
    }
  }

  /** The goodput is the largest whole rate at which the bits fit into the time. */
  lemma GoodputFitsTheTime(wireBytes: nat, us: nat)
    requires us > 0
    ensures GoodputBps(wireBytes, us) * us <= wireBytes * 8_000_000 < (GoodputBps(wireBytes, us) + 1) * us
  {
    if wireBytes > 0 {
      Recompose(wireBytes * 8_000_000, us);
      MulMonotone(GoodputBps(wireBytes, us), GoodputBps(wireBytes, us), us);
    }
  }

  /** The computation stays below 2 to the 64 for all 32-bit measurements. */
  lemma NothingOverflows(s: Step)
    ensures ProbeWireBytes(s.sent) * 8 * 1_000_000 < U64_SPAN && ProbeWireBytes(s.recv) * 8 * 1_000_000 < U64_SPAN
    ensures s.recv * 100 < U64_SPAN && s.sent * 90 < U64_SPAN && s.sent + PROBE_PAYLOAD_BYTES - 1 < U64_SPAN
  {
    assert (s.sent + PROBE_PAYLOAD_BYTES - 1) / PROBE_PAYLOAD_BYTES <= 5_368_711;
    assert (s.recv + PROBE_PAYLOAD_BYTES - 1) / PROBE_PAYLOAD_BYTES <= 5_368_711;
  }

  function Min3(a: int, b: int, c: int): int { Min(Min(a, b), c) }

  /** The rate one step proves, 0 if it proves none. */
  function Proven(s: Step): (r: nat)
    ensures r <= 8_000_000
  {
    if s.sent == 0 || s.recv * 100 < s.sent * 90 then 0
    else if s.sendUs > 0 && s.recvUs > 0 then
      Min(Min3(s.rate, GoodputBps(ProbeWireBytes(s.sent), s.sendUs), GoodputBps(ProbeWireBytes(s.recv), s.recvUs)),
          8_000_000)
    else Min(s.rate, 8_000_000)
  }

  /** A step proves nothing unless at least nine tenths arrived; it never proves more than its rate, 8 Mbps, or, if both spans
      were measured, than what went out and came in over them. */
  lemma ProvenIsEarned(s: Step)
    requires Proven(s) > 0
    ensures 10 * s.recv >= 9 * s.sent > 0 && Proven(s) <= s.rate && Proven(s) <= 8_000_000
    ensures s.sendUs > 0 && s.recvUs > 0 ==>
              Proven(s) <= GoodputBps(ProbeWireBytes(s.sent), s.sendUs) && Proven(s) <= GoodputBps(ProbeWireBytes(s.recv), s.recvUs)
  {
  }

  lemma SmallerDivisor(x: nat, m: nat, n: nat)
    requires 0 < m <= n
    ensures x / n <= x / m
  {
    var q, p := x / n, x / m;
    Recompose(x, n);
    Recompose(x, m);
    if p < q {
      MulMonotone(p + 1, q, m);
      MulMonotone(m, n, q);
    }
  }

  lemma GoodputGrows(w1: nat, w2: nat, us1: nat, us2: nat)
    requires w1 <= w2 && 0 < us2 <= us1
    ensures GoodputBps(w1, us1) <= GoodputBps(w2, us2)
  {
    if w1 > 0 {
      DivMonotone(w1 * 8_000_000, w2 * 8_000_000, us1);
      SmallerDivisor(w2 * 8_000_000, us2, us1);
    }
  }

  /** A rate is proved exactly if at least nine tenths arrived, it is neither beyond the step's own nor beyond 8 Mbps, and, if
      both spans were measured, it fits what went out and what came in. */
  lemma ProvenIff(s: Step, rate: nat)
    requires rate > 0
    ensures rate <= Proven(s)
            <==> s.sent > 0 && 10 * s.recv >= 9 * s.sent && rate <= s.rate && rate <= 8_000_000
                 && (s.sendUs > 0 && s.recvUs > 0 ==>
                       rate <= GoodputBps(ProbeWireBytes(s.sent), s.sendUs) && rate <= GoodputBps(ProbeWireBytes(s.recv), s.recvUs))
  {
  }

  /** The time between the first and the last packet of a step's part of the train, which are 19 gaps. */
  function TrainUs(i: nat): nat
    requires i < 5
  {
    19 * PlannedPacket(PACKETS_PER_STEP * i).delayUs
  }

  lemma TrainTimes()
    ensures TrainUs(0) == 266_000 && TrainUs(1) == 133_000 && TrainUs(2) == 66_500 && TrainUs(3) == 33_250
    ensures TrainUs(4) == 16_625
  {
  }

  lemma TrainGoodput(i: nat, us: nat)
    requires i < 5 && 0 < us <= TrainUs(i)
    ensures GoodputBps(17_500, us) >= PROBE_STEPS_BPS[i]
  {
    TrainTimes();
    GoodputGrows(17_500, 17_500, TrainUs(i), us);
  }

  /** A train that arrives in full, over no more than the 19 gaps it was sent with, proves its rate. */
  lemma FullTrainProvesItsRate(i: nat, s: Step)
    requires i < 5 && s.rate == PROBE_STEPS_BPS[i] && s.sent == s.recv == PACKETS_PER_STEP * PROBE_PAYLOAD_BYTES
    requires 0 < s.sendUs <= TrainUs(i) && 0 < s.recvUs <= TrainUs(i)
    ensures Proven(s) == PROBE_STEPS_BPS[i]
  {
    WireBytesAreWholePieces(s.sent, PACKETS_PER_STEP);
    TrainGoodput(i, s.sendUs);
    TrainGoodput(i, s.recvUs);
  }

  /** The floor is the best rate that a step proves, and there is none exactly if no step proves any. */
  ghost predicate IsFloor(steps: seq<Step>, best: Option<nat>)
  {
    match best
    case None => forall s | s in steps :: Proven(s) == 0
    case Some(b) => b > 0 && (exists s :: s in steps && Proven(s) == b) && forall s | s in steps :: Proven(s) <= b
  }

  method HighestSustainableStep(steps: seq<Step>) returns (best: Option<nat>)
    ensures IsFloor(steps, best)
  {
    best := None;
    for i := 0 to |steps|
      invariant IsFloor(steps[..i], best)
    {
      var s := steps[i];
      assert steps[..i + 1] == steps[..i] + [s];
      assert s in steps[..i + 1];
      if s.sent == 0 || s.recv * 100 < s.sent * 90 {
        continue;
      }
      var sustainable: nat := s.rate;
      if s.sendUs > 0 && s.recvUs > 0 {
        var sendBps := GoodputBps(ProbeWireBytes(s.sent), s.sendUs);
        var recvBps := GoodputBps(ProbeWireBytes(s.recv), s.recvUs);
        sustainable := Min3(s.rate, sendBps, recvBps);
      }
      if sustainable == 0 {
        continue;
      }
      sustainable := Min(sustainable, PROBE_STEPS_BPS[4]);
      assert sustainable == Proven(s);
      best := if best.Some? then Some(Max(best.value, sustainable)) else Some(sustainable);
    }
    assert steps[..|steps|] == steps;
  }

  /** b measured at least as much as a: more received, over no longer spans. An unmeasured span stays unmeasured. */
  predicate NoWorse(a: Step, b: Step)
  {
    && b.rate == a.rate && b.sent == a.sent && b.recv >= a.recv
    && b.sendUs <= a.sendUs && (b.sendUs == 0 <==> a.sendUs == 0)
    && b.recvUs <= a.recvUs && (b.recvUs == 0 <==> a.recvUs == 0)
  }

  lemma WireBytesGrow(a: nat, b: nat)
    requires a <= b
    ensures ProbeWireBytes(a) <= ProbeWireBytes(b)
  {
  }

  lemma ProvenGrows(a: Step, b: Step)
    requires NoWorse(a, b)
    ensures Proven(a) <= Proven(b)
  {
    if a.sendUs > 0 && a.recvUs > 0 {
      WireBytesGrow(a.recv, b.recv);
      GoodputGrows(ProbeWireBytes(a.sent), ProbeWireBytes(b.sent), a.sendUs, b.sendUs);
      GoodputGrows(ProbeWireBytes(a.recv), ProbeWireBytes(b.recv), a.recvUs, b.recvUs);
    }
  }

  datatype Profile = Pcm | Adpcm48 | Adpcm24 {
    function Rank(): (r: nat)
      ensures r <= 2
    {
      match this case Pcm => 0 case Adpcm48 => 1 case Adpcm24 => 2
    }

    function DefaultBufferMs(): nat
    {
      match this case Pcm => 20 case Adpcm48 => 40 case Adpcm24 => 80
    }

    function StepDown(): Profile { if Pcm? then Adpcm48 else Adpcm24 }

    function StepUp(): Profile { if Adpcm24? then Adpcm48 else Pcm }
  }

  lemma StepsByOne(p: Profile)
    ensures p.StepDown().Rank() == Min(2, p.Rank() + 1) && p.StepUp().Rank() == Max(0, p.Rank() - 1)
  {
  }

  function ProfileForFloor(floor: Option<nat>): Profile
  {
    match floor
    case None => Adpcm24
    case Some(rate) => if rate >= 2_000_000 then Pcm else if rate >= 1_000_000 then Adpcm48 else Adpcm24
  }

  /** Bits a second that a profile takes on the wire: 200 packets of payload, audio prefix, header and tag. */
  function WireBps(p: Profile): nat
  {
    200 * 8 * ((match p case Pcm => 960 case Adpcm48 => 246 case Adpcm24 => 64) + 19 + 46 + 16)
  }

  /** The profile chosen at the rate of a probe step is the best one whose packets fit it; the lowest step still carries the
      worst. */
  lemma ProfileFitsTheStep(i: nat, p: Profile)
    requires i < 5
    ensures var chosen := ProfileForFloor(Some(PROBE_STEPS_BPS[i]));
            && WireBps(chosen) <= PROBE_STEPS_BPS[i]
            && (WireBps(p) <= PROBE_STEPS_BPS[i] ==> chosen.Rank() <= p.Rank())
  {
  }

  /** Between the steps the lower one decides, and below the lowest, or without any floor, the worst profile is chosen. */
  lemma ProfileFollowsTheSteps(rate: nat, i: nat)
    requires i < 5 && PROBE_STEPS_BPS[i] <= rate && (i < 4 ==> rate < PROBE_STEPS_BPS[i + 1])
    ensures ProfileForFloor(Some(rate)) == ProfileForFloor(Some(PROBE_STEPS_BPS[i]))
  {
  }

  lemma NoFloorNoQuality(rate: nat)
    requires rate < PROBE_STEPS_BPS[0]
    ensures ProfileForFloor(Some(rate)) == ProfileForFloor(None) == Adpcm24
  {
  }

  /** A better measurement never lowers the floor, and never worsens the profile. */
  lemma FloorIsMonotone(a: seq<Step>, b: seq<Step>, fa: Option<nat>, fb: Option<nat>)
    requires |a| == |b| && forall i | 0 <= i < |a| :: NoWorse(a[i], b[i])
    requires IsFloor(a, fa) && IsFloor(b, fb)
    ensures fa.Some? ==> fb.Some? && fa.value <= fb.value <= 8_000_000
    ensures ProfileForFloor(fb).Rank() <= ProfileForFloor(fa).Rank()
  {
    if fa.Some? {
      var s :| s in a && Proven(s) == fa.value;
      var i :| 0 <= i < |a| && a[i] == s;
      ProvenGrows(a[i], b[i]);
      assert b[i] in b;
    }
  }

  /** t moved towards want by at most 10. */
  function Towards(t: nat, want: nat): nat
  {
    if want > t then Min(t + 10, want) else Max(t - 10, want)
  }

  /** Profile and streak after a report: heavy loss costs one quality step, and so does moderate loss twice in a row. */
  function Degraded(profile: Profile, bad: nat, loss: Option<real>, underruns: nat): (Profile, nat)
  {
    var heavy := loss.None? || loss.value >= 0.10 || underruns >= 3;
    var moderate := !heavy && loss.value >= 0.04;
    (if heavy || (moderate && bad == 1) then profile.StepDown() else profile, if moderate && bad == 0 then 1 else 0)
  }

  function WantedFor(p: Profile, rttUs: nat, jitterUs: nat, underruns: nat): nat
  {
    Clamp(p.DefaultBufferMs() + jitterUs / 1000 + rttUs / 2000 + (if underruns > 0 then 20 else 0), MIN_BUFFER_MS, MAX_BUFFER_MS)
  }

  /** The buffer wanted covers, on top of the profile's own, the jitter and the way there, and 20 ms if there were underruns:
      to the millisecond that each is cut to, and within 20 and 150 ms. */
  lemma WantedCovers(p: Profile, rttUs: nat, jitterUs: nat, underruns: nat)
    ensures var w := WantedFor(p, rttUs, jitterUs, underruns);
            var over := w - p.DefaultBufferMs() - (if underruns > 0 then 20 else 0);
            && 20 <= w <= 150
            && 1000 * over <= jitterUs + rttUs / 2 && (w < 150 ==> jitterUs + rttUs / 2 < 1000 * over + 2000)
    ensures p.DefaultBufferMs() == (match p.Rank() case 0 => 20 case 1 => 2 * 20 case _ => 4 * 20)
  {
  }

  /** One report moves the target 10 ms closer, or onto it. */
  lemma TowardsIsCloser(t: nat, want: nat)
    requires t >= 10
    ensures var gap := if t < want then want - t else t - want;
            var gap' := if Towards(t, want) < want then want - Towards(t, want) else Towards(t, want) - want;
            gap' == MinusSat(gap, 10) && (t <= want ==> Towards(t, want) <= want) && (t >= want ==> Towards(t, want) >= want)
  {
  }

  /** At least one packet in ten, three underruns, or no measure at all. */
  predicate Heavy(loss: Option<real>, underruns: nat)
  {
    loss.None? || loss.value * 10.0 >= 1.0 || underruns >= 3
  }

  /** At least one packet in 25. */
  predicate Moderate(loss: Option<real>, underruns: nat)
  {
    Heavy(loss, underruns) || loss.value * 25.0 >= 1.0
  }

  /** Quality falls by one step for heavy loss at once and for moderate loss the second time in a row, and stays otherwise;
      the streak counts moderate reports that have not cost anything yet. */
  lemma DegradesIff(p: Profile, bad: nat, loss: Option<real>, underruns: nat)
    requires bad <= 1
    ensures var (p', bad') := Degraded(p, bad, loss, underruns);
            && p'.Rank() == Min(2, p.Rank() + if Heavy(loss, underruns) || (Moderate(loss, underruns) && bad == 1) then 1 else 0)
            && bad' == (if Moderate(loss, underruns) && !Heavy(loss, underruns) && bad == 0 then 1 else 0)
  {
  }

  /** The profile and the streak after a run of reports, each with its loss and its underruns. */
  function DegradedBy(p: Profile, reports: seq<(Option<real>, nat)>): (Profile, nat)
  {
    if reports == [] then (p, 0) else
      var n := |reports| - 1;
      var before := DegradedBy(p, reports[..n]);
      Degraded(before.0, before.1, reports[n].0, reports[n].1)
  }

  /** A good link keeps its profile: without a report of moderate loss nothing is given up, and with single ones, each between
      two good reports, neither. */
  lemma {:induction false} IsolatedLossCostsNothing(p: Profile, reports: seq<(Option<real>, nat)>)
    requires forall i | 0 <= i < |reports| :: !Heavy(reports[i].0, reports[i].1)
    requires forall i | 0 <= i < |reports| - 1 ::
               !Moderate(reports[i].0, reports[i].1) || !Moderate(reports[i + 1].0, reports[i + 1].1)
    ensures var (p', bad) := DegradedBy(p, reports);
            p' == p && bad == if reports != [] && Moderate(reports[|reports| - 1].0, reports[|reports| - 1].1) then 1 else 0
  {
    if reports != [] {
      var n := |reports| - 1;
      IsolatedLossCostsNothing(p, reports[..n]);
      assert n > 0 ==> reports[..n][n - 1] == reports[n - 1] && reports[n - 1 + 1] == reports[n];
      DegradesIff(p, DegradedBy(p, reports[..n]).1, reports[n].0, reports[n].1);
    }
  }

  /** Persistent loss, moderate or worse, ends at the worst profile after four reports at most. */
  lemma {:induction false} PersistentLossDegrades(p: Profile, reports: seq<(Option<real>, nat)>)
    requires forall i | 0 <= i < |reports| :: Moderate(reports[i].0, reports[i].1)
    ensures var (p', bad) := DegradedBy(p, reports); bad <= 1 && 2 * p'.Rank() + bad >= Min(4, |reports|)
  {
    if reports != [] {
      var n := |reports| - 1;
      PersistentLossDegrades(p, reports[..n]);
      DegradesIff(DegradedBy(p, reports[..n]).0, DegradedBy(p, reports[..n]).1, reports[n].0, reports[n].1);
    }
  }

  class AdaptState {
    var profile: Profile
    var targetBufferMs: nat
    var bad: nat

    predicate Valid()
      reads this
    {
      MIN_BUFFER_MS <= targetBufferMs <= MAX_BUFFER_MS && bad <= 1
    }

    constructor ()
      ensures Valid() && profile == Pcm && targetBufferMs == 20
    {
      profile, targetBufferMs, bad := Pcm, 20, 0;
    }

    /** A worse floor applies at once; a better one is approached one quality step at a time if gradual.
        Either way the profile is never better than the floor supports. */
    method ApplyFloor(floor: Option<nat>, gradual: bool)
      requires Valid()
      modifies this
      ensures Valid() && bad == 0
      ensures profile.Rank() == if gradual then Max(ProfileForFloor(floor).Rank(), old(profile).Rank() - 1)
                                else ProfileForFloor(floor).Rank()
      ensures targetBufferMs == if profile.Rank() > old(profile).Rank() then Max(old(targetBufferMs), profile.DefaultBufferMs())
                                else if gradual then old(targetBufferMs) else profile.DefaultBufferMs()
    {
      var target := ProfileForFloor(floor);
      if target.Rank() > profile.Rank() {
        profile := target;
        targetBufferMs := Max(targetBufferMs, profile.DefaultBufferMs());
      } else if !gradual {
        profile := target;
        targetBufferMs := profile.DefaultBufferMs();
      } else if target.Rank() < profile.Rank() {
        profile := profile.StepUp();
      }
      targetBufferMs := Clamp(targetBufferMs, MIN_BUFFER_MS, MAX_BUFFER_MS);
      bad := 0;
    }

    /** The buffer target that a sample asks for. */
    function Wanted(rttUs: nat, jitterUs: nat, underruns: nat): nat
      reads this
    {
      WantedFor(profile, rttUs, jitterUs, underruns)
    }

    /** Heavy loss, or moderate loss twice in a row, costs one quality step; the buffer target moves towards what is
        wanted by at most 10 ms. A loss ratio that is not finite counts as total loss. */
    method Observe(loss: Option<real>, rttUs: UInt32, jitterUs: UInt32, underruns: UInt32)
      requires Valid()
      modifies this
      ensures Valid()
      ensures targetBufferMs == Towards(old(targetBufferMs), old(Wanted(rttUs, jitterUs, underruns)))
      ensures (profile, bad) == Degraded(old(profile), old(bad), loss, underruns)
    {
      var want := Wanted(rttUs, jitterUs, underruns);
      if want > targetBufferMs {
        targetBufferMs := Min(targetBufferMs + 10, want);
      } else if want < targetBufferMs {
        targetBufferMs := Max(MinusSat(targetBufferMs, 10), want);
      }
      var ratio := if loss.None? then 1.0 else if loss.value < 0.0 then 0.0 else if loss.value > 1.0 then 1.0 else loss.value;
      if ratio >= 0.10 || underruns >= 3 {
        profile := profile.StepDown();
        bad := 0;
      } else if ratio >= 0.04 {
        bad := bad + 1;
        if bad >= 2 {
          profile := profile.StepDown();
          bad := 0;
        }
      } else {
        bad := 0;
      }
    }
  }

  /** The receiver's own buffer target for one peer, and for how many calm reports it has stood. */
  datatype LocalTarget = LocalTarget(targetMs: nat, stable: nat)
  {
    ghost predicate Valid() { MIN_BUFFER_MS <= targetMs <= MAX_BUFFER_MS && stable <= 255 }

    /** An underrun costs 15 ms and high jitter 5; three calm reports in a row win back 5. */
    function Observed(jitterUs: nat, underruns: nat): LocalTarget
    {
      if underruns > 0 then LocalTarget(Min(targetMs + 15, MAX_BUFFER_MS), 0)
      else if jitterUs / 1000 + MIN_BUFFER_MS > targetMs then LocalTarget(Min(targetMs + 5, MAX_BUFFER_MS), 0)
      else
        var calm := Min(stable + 1, 255);
        if calm >= 3 && targetMs > MIN_BUFFER_MS then LocalTarget(Max(MinusSat(targetMs, 5), MIN_BUFFER_MS), 0)
        else LocalTarget(targetMs, calm)
    }
  }

  const FIRST_TARGET := LocalTarget(MIN_BUFFER_MS, 0)

  /** The target after a run of reports, each with its jitter and its underruns. */
  function TargetFrom(t: LocalTarget, reports: seq<(nat, nat)>): LocalTarget
  {
    if reports == [] then t else
      var n := |reports| - 1;
      TargetFrom(t, reports[..n]).Observed(reports[n].0, reports[n].1)
  }

  /** Over any run the target stays between 20 and 150 ms, and the last `stable` reports had no underruns. */
  lemma {:induction false} TargetStaysInRange(reports: seq<(nat, nat)>)
    ensures TargetFrom(FIRST_TARGET, reports).Valid() && TargetFrom(FIRST_TARGET, reports).stable <= |reports|
    ensures forall i | |reports| - TargetFrom(FIRST_TARGET, reports).stable <= i < |reports| :: reports[i].1 == 0
  {
    if reports != [] {
      TargetStaysInRange(reports[..|reports| - 1]);
    }
  }

  /** The target rises by 15 ms for underruns and by 5 for jitter that it does not cover with 20 ms to spare, never beyond
      150, and the calm streak starts again. */
  lemma TargetRises(t: LocalTarget, jitterUs: nat, underruns: nat)
    requires t.Valid()
    ensures var t' := t.Observed(jitterUs, underruns);
            && (underruns > 0 ==> t'.targetMs == Min(150, t.targetMs + 15) && t'.stable == 0)
            && (underruns == 0 && t.targetMs < jitterUs / 1000 + 20 ==> t'.targetMs == Min(150, t.targetMs + 5) && t'.stable == 0)
            && (underruns == 0 && t.targetMs >= jitterUs / 1000 + 20 ==> t'.targetMs <= t.targetMs)
  {
  }

  /** One report moves the target by at most 15 ms up, and then only for an underrun, or 5 ms down. */
  lemma TargetMovesSlowly(t: LocalTarget, jitterUs: nat, underruns: nat)
    requires t.Valid()
    ensures var t' := t.Observed(jitterUs, underruns);
            && t'.Valid() && t.targetMs - 5 <= t'.targetMs <= t.targetMs + (if underruns > 0 then 15 else 5)
            && (t'.targetMs < t.targetMs ==> underruns == 0 && jitterUs / 1000 + MIN_BUFFER_MS <= t.targetMs && t.stable >= 2)
  {
  }

  /** Persistent jitter is covered: with each report the target rises by 5 ms at least, until it covers the jitter with 15 ms
      to spare or is at its limit. */
  lemma {:induction false} JitterIsCovered(t: LocalTarget, jitterUs: nat, reports: seq<(nat, nat)>)
    requires t.Valid() && forall i | 0 <= i < |reports| :: reports[i].0 >= jitterUs
    ensures var t' := TargetFrom(t, reports);
            t'.Valid() && t'.targetMs >= Min(Min(150, t.targetMs + 5 * |reports|), Max(20, jitterUs / 1000 + 15))
  {
    if reports != [] {
      var n := |reports| - 1;
      JitterIsCovered(t, jitterUs, reports[..n]);
      TargetMovesSlowly(TargetFrom(t, reports[..n]), reports[n].0, reports[n].1);
      TargetRises(TargetFrom(t, reports[..n]), reports[n].0, reports[n].1);
    }
  }

  /** No underruns, and jitter below a millisecond. */
  predicate Calm(report: (nat, nat)) { report.0 < 1000 && report.1 == 0 }

  /** How many calm reports are left until the target is back at 20 ms: three for each 5 ms or part of them, less those that
      have been calm already. */
  function CalmLeft(t: LocalTarget): nat
    requires t.Valid()
  {
    if t.targetMs == MIN_BUFFER_MS then 0 else 3 * ((t.targetMs - MIN_BUFFER_MS + 4) / 5) - Min(t.stable, 2)
  }

  lemma CalmReportCounts(t: LocalTarget, report: (nat, nat))
    requires t.Valid() && Calm(report)
    ensures var t' := t.Observed(report.0, report.1); t'.Valid() && CalmLeft(t') == MinusSat(CalmLeft(t), 1)
  {
  }

  lemma {:induction false} CalmReportsCount(t: LocalTarget, reports: seq<(nat, nat)>)
    requires t.Valid() && forall i | 0 <= i < |reports| :: Calm(reports[i])
    ensures TargetFrom(t, reports).Valid() && CalmLeft(TargetFrom(t, reports)) == MinusSat(CalmLeft(t), |reports|)
  {
    if reports != [] {
      var n := |reports| - 1;
      CalmReportsCount(t, reports[..n]);
      CalmReportCounts(TargetFrom(t, reports[..n]), reports[n]);
    }
  }

  /** The target recovers: calm reports bring it back to 20 ms exactly when as many have come as were left, never more than
      78. */
  lemma CalmRecoversIff(t: LocalTarget, reports: seq<(nat, nat)>)
    requires t.Valid() && forall i | 0 <= i < |reports| :: Calm(reports[i])
    ensures TargetFrom(t, reports).targetMs == MIN_BUFFER_MS <==> |reports| >= CalmLeft(t)
    ensures CalmLeft(t) <= 78
  {
    CalmReportsCount(t, reports);
  }

  type Stamps = s: seq<UInt64> | |s| == 5 witness [0, 0, 0, 0, 0]

  const NO_STAMPS: Stamps := [0, 0, 0, 0, 0]

  /** The time between two stamps of a probe step, 0 if there is none and never 0 otherwise. */
  function SpanUs(first: UInt64, last: UInt64): UInt32
  {
    if first == 0 then 0
    else if last <= first then U32_MAX
    else Min(last - first, U32_MAX)
  }

  function NextPace(scheduled: nat, now: nat): nat
  {
    if MinusSat(now, scheduled) > 15_000 then PlusSat(now, 5_000) else PlusSat(scheduled, 5_000)
  }

  /** A wake-up no more than 15 ms late keeps the schedule; after a later one the next is 5 ms from then. */
  lemma PaceRule(scheduled: nat, now: nat)
    requires scheduled < U64_MAX - 5_000 && now < U64_MAX - 5_000
    ensures NextPace(scheduled, now) == (if now <= scheduled + 15_000 then scheduled else now) + 5_000
  {
  }

  /** A step that was never stamped has no span. */
  lemma UnstampedHasNoSpan(last: UInt64)
    ensures SpanUs(0, last) == 0
  {
  }

  /** A pacing run: wake-up i happens at now[i], not before it is scheduled, and schedules the next one. */
  ghost predicate Paced(scheduled: seq<nat>, now: seq<nat>)
  {
    && |scheduled| == |now|
    && (forall i | 0 <= i < |now| :: scheduled[i] <= now[i] < U64_MAX - 5_000)
    && (forall i | 0 <= i < |now| - 1 :: scheduled[i + 1] == NextPace(scheduled[i], now[i]))
  }

  lemma {:induction false} ScheduleAfter(scheduled: seq<nat>, now: seq<nat>, i: nat, j: nat)
    requires Paced(scheduled, now) && i < j < |now|
    ensures scheduled[j] >= now[i] + 5_000 * (j - i) - 15_000
    decreases j
  {
    if i + 1 < j {
      ScheduleAfter(scheduled, now, i, j - 1);
    }
    assert scheduled[j - 1 + 1] == NextPace(scheduled[j - 1], now[j - 1]);
  }

  /** Bursts are bounded: any n consecutive wake-ups span at least n - 4 pacing intervals. */
  lemma BurstIsBounded(scheduled: seq<nat>, now: seq<nat>, i: nat, n: nat)
    requires Paced(scheduled, now) && 1 <= n && i + n <= |now|
    ensures now[i + n - 1] - now[i] >= 5_000 * (n - 4)
  {
    if n > 1 {
      ScheduleAfter(scheduled, now, i, i + n - 1);
    }
  }

  /** The schedule keeps its 5 ms grid exactly if no wake-up is more than 15 ms late. */
  lemma {:induction false} GridIffPunctual(scheduled: seq<nat>, now: seq<nat>, k: nat)
    requires Paced(scheduled, now) && k < |now|
    ensures scheduled[k] >= scheduled[0] + 5_000 * k
    ensures scheduled[k] == scheduled[0] + 5_000 * k <==> forall i | 0 <= i < k :: now[i] - scheduled[i] <= 15_000
  {
    if k > 0 {
      GridIffPunctual(scheduled, now, k - 1);
      assert scheduled[k - 1 + 1] == NextPace(scheduled[k - 1], now[k - 1]);
    }
  }
}
