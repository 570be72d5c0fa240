/** What the receiver keeps about one peer's stream, and the feedback made of it. */
module PeerStats {
  import opened Bytes
  import opened JitterMeter
  import opened LossMeter
  import opened Wire
  import Adapt

  const NO_BYTES: Five := [0, 0, 0, 0, 0]

  datatype Stats = Stats(
    tally: Tally, jitter: Estimate, latestSendTs: UInt64, latestArrival: nat, suggestedMs: UInt16, bufferMs: nat,
    probeGen: UInt32, probeBytes: Five, probeFirst: Adapt.Stamps, probeLast: Adapt.Stamps,
    starvationsMark: nat, local: Adapt.LocalTarget)
  {
    /** Times are microseconds of the receiver's clock. */
    function AfterAudio(b: AudioBody, now: nat): Stats
    {
      this.(tally := tally.Observed(b.seqNo), jitter := jitter.Observed(Arrival(b.sendTsUs, now)),
            latestSendTs := b.sendTsUs, latestArrival := now, suggestedMs := b.bufferMs)
    }

    /** A new generation of probes forgets the one before. */
    function ForGeneration(gen: UInt32): Stats
    {
      if gen == probeGen then this
      else this.(probeGen := gen, probeBytes := NO_BYTES, probeFirst := Adapt.NO_STAMPS, probeLast := Adapt.NO_STAMPS)
    }

    /** Arrival times are cut to 64 bits. */
    function AfterProbe(p: ProbeBody, now: nat): Stats
    {
      var arrivalUs: UInt64 := now % U64_SPAN;
      var t := ForGeneration(p.gen).(latestSendTs := p.sendTsUs, latestArrival := now);
      if p.step >= 5 then t else
        t.(probeBytes := t.probeBytes[p.step := Min(U32_MAX, t.probeBytes[p.step] + |p.payload|)],
           probeFirst := if t.probeFirst[p.step] == 0 then t.probeFirst[p.step := arrivalUs] else t.probeFirst,
           probeLast := t.probeLast[p.step := arrivalUs])
    }

    /** The receiver's own target follows jitter and starvations; the buffer target is no less than what the sender
        suggests, within 15 and 150 ms. */
    function AfterReport(starvations: nat): Stats
    {
      var next := local.Observed(jitter.Whole(), Min(U32_MAX, MinusSat(starvations, starvationsMark)));
      this.(starvationsMark := starvations, local := next, bufferMs := Clamp(Max(next.targetMs, suggestedMs), 15, 150))
    }

    function Spans(): Five
    {
      seq(5, i requires 0 <= i < 5 => if probeBytes[i] == 0 then 0 else Adapt.SpanUs(probeFirst[i], probeLast[i]))
    }

    /** The feedback body, once the report has been taken into account. */
    function Report(starvations: nat, now: nat): FeedbackBody
    {
      FeedbackBody(latestSendTs, Min(U32_MAX, MinusSat(now, latestArrival)), tally.maxAudioSeq, tally.received, tally.lost,
                   jitter.Whole(),
                   Min(U32_MAX, starvations), Min(U16_SPAN - 1, bufferMs), probeGen, probeBytes, Spans())
    }
  }

  /** A peer that has just joined. */
  function Unheard(now: nat): Stats
  {
    Stats(NOTHING_YET, NO_JITTER, 0, now, 20, 20, 0, NO_BYTES, Adapt.NO_STAMPS, Adapt.NO_STAMPS, 0, Adapt.FIRST_TARGET)
  }

  /** The buffer target is the larger of the receiver's own and the one the sender suggests, and 150 ms at most. */
  lemma TargetIsTheLarger(t: Stats, starvations: nat)
    requires t.local.Valid()
    ensures var t' := t.AfterReport(starvations);
            && t'.local.Valid() && t'.bufferMs >= t'.local.targetMs && t'.bufferMs >= Min(150, t.suggestedMs)
            && (t'.bufferMs == t'.local.targetMs || t'.bufferMs == Min(150, t.suggestedMs))
  {
    Adapt.TargetMovesSlowly(t.local, t.jitter.Whole(), Min(U32_MAX, MinusSat(starvations, t.starvationsMark)));
  }

  /** Each starvation counts in one report: of the n in all, the next report sees those after the ones seen before. */
  lemma StarvationsCountOnce(t: Stats, before: nat, n: nat)
    requires before <= n
    ensures var t' := t.AfterReport(before);
            t'.AfterReport(n).local == t'.local.Observed(t.jitter.Whole(), Min(U32_MAX, n - before))
  {
  }

  /** A report changes the target, the mark and what is reported of them, and nothing that has been measured. */
  lemma ReportKeepsMeasurements(t: Stats, starvations: nat)
    ensures var t' := t.AfterReport(starvations);
            t' == t.(starvationsMark := starvations, local := t'.local, bufferMs := t'.bufferMs)
  {
  }

  // Audio.

  function AfterAudios(t: Stats, audios: seq<(AudioBody, nat)>): Stats
  {
    if audios == [] then t else
      var n := |audios| - 1;
      AfterAudios(t, audios[..n]).AfterAudio(audios[n].0, audios[n].1)
  }

  /** When each packet says it was sent, and when it came. */
  function ArrivalsOf(audios: seq<(AudioBody, nat)>): (arrivals: seq<Arrival>)
    ensures |arrivals| == |audios|
  {
    seq(|audios|, i requires 0 <= i < |audios| => Arrival(audios[i].0.sendTsUs, audios[i].1))
  }

  /** Over any audio that a new peer sends, the jitter is that of its packets, and what is remembered of one packet is what the
      last one says. */
  lemma {:induction false} AudioIsFollowed(joined: nat, audios: seq<(AudioBody, nat)>)
    ensures var t := AfterAudios(Unheard(joined), audios);
            && t.jitter == JitterMeter.After(ArrivalsOf(audios))
            && (audios != [] ==>
                  var (last, now) := audios[|audios| - 1];
                  t.suggestedMs == last.bufferMs && t.latestSendTs == last.sendTsUs && t.latestArrival == now)
  {
    if audios != [] {
      var n := |audios| - 1;
      AudioIsFollowed(joined, audios[..n]);
      assert ArrivalsOf(audios)[..n] == ArrivalsOf(audios[..n]);
    }
  }

  /** The first report of a peer that has sent nothing yet is blank, but for the way its stream has been doing. */
  lemma BlankReport(joined: nat, starvations: nat, now: nat)
    ensures var t := Unheard(joined);
            var f := t.AfterReport(starvations).Report(starvations, now);
            && f.echoSendTsUs == 0 && f.echoSeq == 0 && f.received == 0 && f.lost == 0 && f.jitterUs == 0 && f.probeGen == 0
            && f.probeBytes == [0, 0, 0, 0, 0] && f.probeRecvSpanUs == [0, 0, 0, 0, 0]
            && f.delayUs == Min(U32_MAX, MinusSat(now, joined)) && f.underruns == Min(U32_MAX, starvations)
            && f.bufferMs == (if starvations > 0 then 35 else 20)
            && t.bufferMs == 20 && t.suggestedMs == 20
  {
  }

  // Probes of one generation.

  function AfterProbes(t: Stats, probes: seq<(ProbeBody, nat)>): Stats
  {
    if probes == [] then t else
      var n := |probes| - 1;
      AfterProbes(t, probes[..n]).AfterProbe(probes[n].0, probes[n].1)
  }

  /** The probes of one step. */
  function OfStep(probes: seq<(ProbeBody, nat)>, step: nat): seq<(ProbeBody, nat)>
  {
    if probes == [] then [] else
      var n := |probes| - 1;
      OfStep(probes[..n], step) + (if probes[n].0.step == step then [probes[n]] else [])
  }

  function PayloadBytes(probes: seq<(ProbeBody, nat)>): nat
  {
    if probes == [] then 0 else
      PayloadBytes(probes[..|probes| - 1]) + |probes[|probes| - 1].0.payload|
  }

  /** The bytes of a step's probes, and when the first and the last of them arrived. */
  ghost predicate AddedUp(t: Stats, step: nat, probes: seq<(ProbeBody, nat)>)
    requires step < 5
  {
    && t.probeBytes[step] == Min(U32_MAX, PayloadBytes(probes))
    && t.probeFirst[step] == (if probes == [] then 0 else probes[0].1)
    && t.probeLast[step] == (if probes == [] then 0 else probes[|probes| - 1].1)
  }

  lemma OneMoreProbe(t: Stats, step: nat, before: seq<(ProbeBody, nat)>, p: ProbeBody, now: nat)
    requires step < 5 && AddedUp(t, step, before) && t.probeGen == p.gen && 0 < now <= U64_MAX
    requires forall i | 0 <= i < |before| :: before[i].1 > 0
    ensures AddedUp(t.AfterProbe(p, now), step, before + (if p.step == step then [(p, now)] else []))
  {
    if p.step == step {
      assert (before + [(p, now)])[..|before|] == before;
    } else {
      assert before + [] == before;
    }
  }

  lemma FirstOfGeneration(t: Stats, step: nat, p: ProbeBody, now: nat)
    requires step < 5 && t.probeGen != p.gen && 0 < now <= U64_MAX
    ensures AddedUp(t.AfterProbe(p, now), step, if p.step == step then [(p, now)] else [])
  {
    OneMoreProbe(t.ForGeneration(p.gen), step, [], p, now);
    assert t.AfterProbe(p, now) == t.ForGeneration(p.gen).AfterProbe(p, now);
  }

  lemma {:induction false} StepsOfPositive(probes: seq<(ProbeBody, nat)>, step: nat)
    requires forall i | 0 <= i < |probes| :: probes[i].1 > 0
    ensures forall i | 0 <= i < |OfStep(probes, step)| :: OfStep(probes, step)[i].1 > 0
  {
    if probes != [] {
      StepsOfPositive(probes[..|probes| - 1], step);
    }
  }

  /** A new generation of probes starts from nothing, and adds up: for each step the payload bytes that arrived, and the first
      and the last arrival. */
  lemma {:induction false} ProbesAddUp(t: Stats, gen: UInt32, probes: seq<(ProbeBody, nat)>, step: nat)
    requires t.probeGen != gen && probes != [] && step < 5
    requires forall i | 0 <= i < |probes| :: probes[i].0.gen == gen && 0 < probes[i].1 <= U64_MAX
    ensures var t' := AfterProbes(t, probes); t'.probeGen == gen && AddedUp(t', step, OfStep(probes, step))
  {
    var n := |probes| - 1;
    if n == 0 {
      FirstOfGeneration(t, step, probes[0].0, probes[0].1);
      assert OfStep(probes[..0], step) == [] && AfterProbes(t, probes[..0]) == t;
    } else {
      ProbesAddUp(t, gen, probes[..n], step);
      StepsOfPositive(probes[..n], step);
      OneMoreProbe(AfterProbes(t, probes[..n]), step, OfStep(probes[..n], step), probes[n].0, probes[n].1);
    }
  }

  /** A probe says when it was sent, when it came, and nothing of the audio. */
  lemma ProbeKeepsAudio(t: Stats, p: ProbeBody, now: nat)
    ensures var t' := t.AfterProbe(p, now);
            && t'.latestSendTs == p.sendTsUs && t'.latestArrival == now
            && t'.tally == t.tally && t'.jitter == t.jitter && t'.suggestedMs == t.suggestedMs && t'.bufferMs == t.bufferMs
            && t'.starvationsMark == t.starvationsMark && t'.local == t.local
  {
  }

  /** What is reported of a step: nothing if no bytes came; the time between its first and last arrival, or the longest there
      is if they were not apart. */
  lemma SpanIsReported(t: Stats, step: nat, probes: seq<(ProbeBody, nat)>)
    requires step < 5 && AddedUp(t, step, probes) && forall i | 0 <= i < |probes| :: 0 < probes[i].1 <= U64_MAX
    ensures t.probeBytes[step] == 0 ==> t.Spans()[step] == 0
    ensures t.probeBytes[step] > 0 ==>
              var first, last := probes[0].1, probes[|probes| - 1].1;
              t.Spans()[step] == if last > first then Min(U32_MAX, last - first) else U32_MAX
  {
  }
}
