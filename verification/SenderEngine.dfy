/** The sending side of a session: its counters, its replay window and the statistics that feedback updates. */
module SenderEngine {
  import opened Bytes
  import opened Utf8
  import opened Wire
  import opened Secure
  import opened SenderModel
  import Codec
  import Adapt
  import R = Replay

  /** What the last feedback said, and what it changed by. */
  datatype Path = Path(lastReceived: UInt32, lastLost: UInt32, lastUnderruns: UInt32, rttUs: UInt32, jitterUs: UInt32,
                       probeBytes: Five, probeRecvSpanUs: Five)

  const NO_PROBE: Five := [0, 0, 0, 0, 0]

  /** A new epoch forgets all measurements but the round trip and the jitter. */
  function Forgotten(p: Path): (Path, Adapt.Stamps, Adapt.Stamps)
  {
    (Path(0, 0, 0, p.rttUs, p.jitterUs, NO_PROBE, NO_PROBE), Adapt.NO_STAMPS, Adapt.NO_STAMPS)
  }

  /** The path as one feedback leaves it: the round trip without the receiver's delay, never negative. */
  function PathAfter(p: Path, f: FeedbackBody, nowUs: UInt64, probeGen: UInt32): Path
  {
    Path(f.received, f.lost, f.underruns, Min(U32_MAX, MinusSat(MinusSat(nowUs, f.echoSendTsUs), f.delayUs)), f.jitterUs,
         if f.probeGen == probeGen then f.probeBytes else p.probeBytes,
         if f.probeGen == probeGen then f.probeRecvSpanUs else p.probeRecvSpanUs)
  }

  /** The share of packets lost since the feedback before, 0 if there were none. */
  function LossSince(p: Path, f: FeedbackBody): real
  {
    var got, lost := MinusSat(f.received, p.lastReceived), MinusSat(f.lost, p.lastLost);
    var total := Min(U32_MAX, got + lost);
    if total == 0 then 0.0 else lost as real / total as real
  }

  /** What the probe train showed, step by step: paced rate, bytes sent and received, both spans. */
  function Measured(sent: Five, path: Path, first: Adapt.Stamps, last: Adapt.Stamps): (steps: seq<Adapt.Step>)
    ensures |steps| == 5
  {
    seq(5, i requires 0 <= i < 5 =>
      Adapt.Step(Adapt.PROBE_STEPS_BPS[i], sent[i], path.probeBytes[i], Adapt.SpanUs(first[i], last[i]), path.probeRecvSpanUs[i]))
  }

  /** The round trip is measured: a packet that took some time there, was held by the receiver for as long as the report says,
      and whose report took some time back. */
  lemma RoundTripIsMeasured(p: Path, f: FeedbackBody, there: nat, back: nat, nowUs: UInt64, probeGen: UInt32)
    requires nowUs == f.echoSendTsUs + there + f.delayUs + back
    ensures PathAfter(p, f, nowUs, probeGen).rttUs == Min(U32_MAX, there + back)
  {
  }

  /** What a report of an older generation of probes says of them is not taken over; all else is. */
  lemma OldProbesAreIgnored(p: Path, f: FeedbackBody, nowUs: UInt64, probeGen: UInt32)
    ensures var q := PathAfter(p, f, nowUs, probeGen);
            && q.lastReceived == f.received && q.lastLost == f.lost && q.lastUnderruns == f.underruns && q.jitterUs == f.jitterUs
            && (q.probeBytes, q.probeRecvSpanUs)
               == if f.probeGen == probeGen then (f.probeBytes, f.probeRecvSpanUs) else (p.probeBytes, p.probeRecvSpanUs)
  {
  }

  /** The loss is the share of the packets newly lost among those newly counted, and 0 if none were. */
  lemma LossIsTheShare(p: Path, f: FeedbackBody)
    requires f.received >= p.lastReceived && f.lost >= p.lastLost
    ensures var got, lost := f.received - p.lastReceived, f.lost - p.lastLost;
            && (got + lost <= U32_MAX ==> LossSince(p, f) * (got + lost) as real == lost as real)
            && (lost == 0 <==> LossSince(p, f) == 0.0) && LossSince(p, f) >= 0.0
  {
  }

  /** After a new epoch the receiver's counters are taken to start from nothing. */
  lemma ForgottenCountsAfresh(p: Path, f: FeedbackBody)
    requires f.received + f.lost <= U32_MAX
    ensures var q := Forgotten(p).0;
            && LossSince(q, f) * (f.received + f.lost) as real == f.lost as real && q.lastUnderruns == 0
            && q.rttUs == p.rttUs && q.jitterUs == p.jitterUs
            && q.probeBytes == [0, 0, 0, 0, 0] && q.probeRecvSpanUs == [0, 0, 0, 0, 0]
  {
    LossIsTheShare(Forgotten(p).0, f);
  }

  class SenderEngine {
    const session: Id
    const name: seq<Scalar>
    const adapt: Adapt.AdaptState
    var epoch: Option<Id>
    var counter: UInt64
    var replay: R.ReplayWindow
    var audioSeq: UInt64
    var path: Path
    var probeGen: UInt32
    var probeSendFirst: Adapt.Stamps
    var probeSendLast: Adapt.Stamps
    var goodputBps: nat
    var addr: Option<nat>
    var peerName: seq<Scalar>
    var instance: Option<Id>

    ghost predicate Valid()
      reads this, adapt, replay, replay.bits
    {
      replay.Valid() && replay.window == WINDOW && adapt.Valid()
    }

    ghost function Now(): Sender
      reads this, replay
    {
      Sender(session, epoch, counter, audioSeq, replay.accepted)
    }

    constructor (id: Id, display: seq<Scalar>)
      ensures Valid() && session == id && name == display && fresh(replay) && fresh(replay.bits) && fresh(adapt)
      ensures Now() == Sender(id, None, 0, 0, {}) && probeGen == 1
    {
      session, name, epoch, counter, audioSeq, probeGen := id, display, None, 0, 0, 1;
      path := Path(0, 0, 0, 0, 0, NO_PROBE, NO_PROBE);
      probeSendFirst, probeSendLast, goodputBps := Adapt.NO_STAMPS, Adapt.NO_STAMPS, 0;
      addr, peerName, instance := None, [], None;
      adapt := new Adapt.AdaptState();
      replay := new R.ReplayWindow(WINDOW);
    }

    /** Takes over where the receiver is and what it calls itself. True exactly if the epoch is a new one; then counters,
        window and measurements start afresh, but not the goodput and what was adapted. */
    method BindPeer(e: Id, at: nat, called: seq<Scalar>, inst: Id) returns (rekeyed: bool)
      requires Valid()
      modifies this
      ensures Valid() && Now() == old(Now()).Bind(e)
      ensures addr == Some(at) && peerName == called && instance == Some(inst)
      ensures goodputBps == old(goodputBps) && probeGen == old(probeGen)
      ensures rekeyed <==> old(epoch) != Some(e)
      ensures Measurements() == if rekeyed then Forgotten(old(path)) else old(Measurements())
      ensures if rekeyed then fresh(replay) && fresh(replay.bits) else replay == old(replay)
    {
      rekeyed := epoch != Some(e);
      addr, peerName, instance := Some(at), called, Some(inst);
      if rekeyed {
        Rekey(e);
      }
    }

    method Rekey(e: Id)
      requires Valid()
      modifies this`epoch, this`counter, this`replay, this`audioSeq, this`path, this`probeSendFirst, this`probeSendLast
      ensures Valid() && Now() == Sender(session, Some(e), 0, 0, {}) && fresh(replay) && fresh(replay.bits)
      ensures Measurements() == Forgotten(old(path))
    {
      epoch, counter, audioSeq := Some(e), 0, 0;
      replay := new R.ReplayWindow(WINDOW);
      path := path.(lastReceived := 0, lastLost := 0, lastUnderruns := 0, probeBytes := NO_PROBE, probeRecvSpanUs := NO_PROBE);
      probeSendFirst, probeSendLast := Adapt.NO_STAMPS, Adapt.NO_STAMPS;
    }

    /** What feedback and probing have measured. */
    function Measurements(): (Path, Adapt.Stamps, Adapt.Stamps)
      reads this
    {
      (path, probeSendFirst, probeSendLast)
    }

    method BeginProbe()
      modifies this`probeGen, this`path, this`probeSendFirst, this`probeSendLast
      ensures probeGen == if old(probeGen) == U32_MAX then 1 else old(probeGen) + 1
      ensures path == old(path).(probeBytes := NO_PROBE, probeRecvSpanUs := NO_PROBE)
      ensures probeSendFirst == Adapt.NO_STAMPS && probeSendLast == Adapt.NO_STAMPS
    {
      probeSendFirst, probeSendLast := Adapt.NO_STAMPS, Adapt.NO_STAMPS;
      probeGen := Max((probeGen + 1) % U32_SPAN, 1);
      path := path.(probeBytes := NO_PROBE, probeRecvSpanUs := NO_PROBE);
    }

    method Hello() returns (p: Option<Packet>)
      requires Valid()
      modifies this`counter
      ensures Valid() && (Now(), p) == old(Now()).Hello(name)
    {
      p := Seal(KIND_HELLO, EncodeHello(name));
    }

    method Audio(pcm960: seq<Byte>, nowUs: UInt64) returns (p: Option<Packet>)
      requires Valid()
      modifies this`counter, this`audioSeq
      ensures Valid() && (Now(), p) == old(Now()).Audio(adapt.profile.Rank(), Min(adapt.targetBufferMs, 0xffff), pcm960, nowUs)
    {
      var payload := Codec.EncodeCanonical(adapt.profile.Rank(), pcm960);
      if payload.None? {
        return None;
      }
      audioSeq := PlusSat(audioSeq, 1);
      var bufferMs: UInt16 := Min(adapt.targetBufferMs, 0xffff);
      var body := EncodeAudio(AudioBody(audioSeq, nowUs, adapt.profile.Rank(), bufferMs, payload.value));
      if body.None? {
        return None;
      }
      p := Seal(KIND_AUDIO, body.value);
    }

    /** Notes when the step's first and last probe went out, and seals one more. */
    method Probe(step: Byte, size: nat, nowUs: UInt64) returns (p: Option<Packet>)
      requires Valid()
      modifies this`counter, this`probeSendFirst, this`probeSendLast
      ensures Valid() && (Now(), p) == old(Now()).Probe(probeGen, step, size, nowUs)
      ensures forall i | 0 <= i < 5 ::
                && probeSendLast[i] == (if i == step then nowUs else old(probeSendLast)[i])
                && probeSendFirst[i] == (if i == step && old(probeSendFirst)[i] == 0 then nowUs else old(probeSendFirst)[i])
    {
      if step < 5 {
        if probeSendFirst[step] == 0 {
          probeSendFirst := probeSendFirst[step := nowUs];
        }
        probeSendLast := probeSendLast[step := nowUs];
      }
      var body := EncodeProbe(ProbeBody(probeGen, step, nowUs, seq(size, _ => 0)));
      if body.None? {
        return None;
      }
      p := Seal(KIND_PROBE, body.value);
    }

    /** The measured floor becomes the goodput, and the profile is never better than it supports. */
    method NoteProbe(sent: Five, gradual: bool) returns (ghost floor: Option<nat>)
      requires Valid()
      modifies this`goodputBps, adapt
      ensures Valid() && Adapt.IsFloor(Measured(sent, path, probeSendFirst, probeSendLast), floor)
      ensures goodputBps == (if floor.Some? then floor.value else 0)
      ensures adapt.bad == 0
      ensures adapt.profile.Rank() == if gradual then Max(Adapt.ProfileForFloor(floor).Rank(), old(adapt.profile).Rank() - 1)
                                      else Adapt.ProfileForFloor(floor).Rank()
      ensures adapt.targetBufferMs
              == if adapt.profile.Rank() > old(adapt.profile).Rank()
                 then Max(old(adapt.targetBufferMs), adapt.profile.DefaultBufferMs())
                 else if gradual then old(adapt.targetBufferMs) else adapt.profile.DefaultBufferMs()
    {
      var best := Adapt.HighestSustainableStep(Measured(sent, path, probeSendFirst, probeSendLast));
      floor := best;
      goodputBps := if best.Some? then best.value else 0;
      adapt.ApplyFloor(best, gradual);
    }

    method Seal(kind: Byte, body: seq<Byte>) returns (p: Option<Packet>)
      requires Valid()
      modifies this`counter
      ensures Valid() && (Now(), p) == old(Now()).Seal(kind, body)
    {
      if epoch.None? {
        return None;
      }
      counter := PlusSat(counter, 1);
      p := SealBox(ToReceiver, epoch.value, session, counter, kind, body);
    }

    /** Feedback counts once, whatever it says; what decodes updates the path and the adaptation. */
    method HandleFeedback(d: Datagram, nowUs: UInt64) returns (ok: bool)
      requires Valid()
      modifies this`path, adapt, replay, replay.bits
      ensures Valid() && Now() == old(Now()).Feedback(d).0
      ensures ok <==> old(Now()).Feedback(d).1.Some?
      ensures path == if ok then PathAfter(old(path), old(Now()).Feedback(d).1.value, nowUs, probeGen) else old(path)
      ensures ok ==> var f := old(Now()).Feedback(d).1.value;
                     var rtt, underruns := path.rttUs, MinusSat(f.underruns, old(path).lastUnderruns);
                     && adapt.targetBufferMs
                        == Adapt.Towards(old(adapt.targetBufferMs), old(adapt.Wanted(rtt, f.jitterUs, underruns)))
                     && (adapt.profile, adapt.bad)
                        == Adapt.Degraded(old(adapt.profile), old(adapt.bad), Some(LossSince(old(path), f)), underruns)
      ensures !ok ==> adapt.profile == old(adapt.profile) && adapt.targetBufferMs == old(adapt.targetBufferMs)
                      && adapt.bad == old(adapt.bad)
    {
      if epoch.None? {
        return false;
      }
      var contents := OpenBox(ToSender, epoch.value, session, d);
      if contents.None? || d.kind != KIND_FEEDBACK {
        return false;
      }
      var isNew := replay.Commit(d.counter);
      if !isNew {
        return false;
      }
      var feedback := DecodeFeedback(contents.value);
      if feedback.None? {
        return false;
      }
      var f := feedback.value;
      var loss := LossSince(path, f);
      var underruns := MinusSat(f.underruns, path.lastUnderruns);
      path := PathAfter(path, f, nowUs, probeGen);
      adapt.Observe(Some(loss), path.rttUs, path.jitterUs, underruns);
      ok := true;
    }
  }
}
