/** The sender's session state as a value. */
module SenderModel {
  import opened Bytes
  import opened Utf8
  import opened Wire
  import opened Secure
  import Codec
  import Replay

  const WINDOW := 2048

  datatype Sender = Sender(session: Id, epoch: Option<Id>, counter: UInt64, audioSeq: UInt64, accepted: set<nat>)
  {
    /** A new epoch starts counters and window afresh; the same epoch leaves them alone. */
    function Bind(e: Id): Sender
    {
      if epoch == Some(e) then this else Sender(session, Some(e), 0, 0, {})
    }

    function Seal(kind: Byte, body: seq<Byte>): (Sender, Option<Packet>)
    {
      if epoch.None? then (this, None) else
        var next := PlusSat(counter, 1);
        (this.(counter := next), SealBox(ToReceiver, epoch.value, session, next, kind, body))
    }

    function Hello(name: seq<Scalar>): (Sender, Option<Packet>)
    {
      Seal(KIND_HELLO, EncodeHello(name))
    }

    ghost function Audio(codec: Byte, bufferMs: UInt16, pcm: seq<Byte>, nowUs: UInt64): (Sender, Option<Packet>)
    {
      match Codec.Payload(codec, pcm)
      case None => (this, None)
      case Some(payload) =>
        var next := this.(audioSeq := PlusSat(audioSeq, 1));
        next.SealAudio(AudioBody(next.audioSeq, nowUs, codec, bufferMs, payload))
    }

    function SealAudio(b: AudioBody): (Sender, Option<Packet>)
    {
      match EncodeAudio(b)
      case None => (this, None)
      case Some(body) => Seal(KIND_AUDIO, body)
    }

    function Probe(gen: UInt32, step: Byte, payload: nat, nowUs: UInt64): (Sender, Option<Packet>)
    {
      match EncodeProbe(ProbeBody(gen, step, nowUs, seq(payload, _ => 0)))
      case None => (this, None)
      case Some(body) => Seal(KIND_PROBE, body)
    }

    /** The feedback that a datagram brings, if it opens under the bound epoch and its counter is new. */
    ghost function Feedback(d: Datagram): (Sender, Option<FeedbackBody>)
    {
      if epoch.None? then (this, None) else
      match OpenBox(ToSender, epoch.value, session, d)
      case None => (this, None)
      case Some(body) =>
        if d.kind != KIND_FEEDBACK || !Replay.Fresh(accepted, WINDOW, d.counter) then (this, None)
        else (this.(accepted := accepted + {d.counter}), DecodeFeedback(body))
    }
  }

  /** Feedback is obeyed exactly if it opens under the bound epoch, is feedback, and comes under a fresh counter, which is used
      up even if it does not decode. */
  lemma FeedbackIsObeyedIff(s: Sender, d: Datagram)
    ensures var (s', f) := s.Feedback(d);
            var body := if s.epoch.Some? then OpenBox(ToSender, s.epoch.value, s.session, d) else None;
            var obeyed := body.Some? && d.kind == KIND_FEEDBACK && Replay.Fresh(s.accepted, WINDOW, d.counter);
            && s' == (if obeyed then s.(accepted := s.accepted + {d.counter}) else s)
            && f == (if obeyed then DecodeFeedback(body.value) else None)
  {
  }

  /** A new epoch begins with no counter used, no audio sent and an empty window; the same epoch again changes nothing. */
  lemma BindingStartsAfresh(s: Sender, e: Id)
    ensures var s' := s.Bind(e);
            && s'.epoch == Some(e) && s'.session == s.session
            && (s.epoch == Some(e) ==> s' == s)
            && (s.epoch != Some(e) ==> s'.counter == 0 && s'.audioSeq == 0 && s'.accepted == {})
  {
  }

  lemma ChunkFits(b: AudioBody)
    requires |b.payload| <= Codec.MAX_PCM_CHUNK
    ensures EncodeAudio(b).Some? && |EncodeAudio(b).value| == AUDIO_PREFIX + |b.payload|
    ensures DecodeAudio(EncodeAudio(b).value) == Some(b)
  {
    AudioRoundTrip(b);
  }

  lemma SealAudioCarries(s: Sender, b: AudioBody)
    requires s.epoch.Some? && s.counter < U64_MAX && |b.payload| <= Codec.MAX_PCM_CHUNK
    ensures EncodeAudio(b).Some? && DecodeAudio(EncodeAudio(b).value) == Some(b)
    ensures s.SealAudio(b)
            == (s.(counter := s.counter + 1),
                Some(Packet(ToReceiver, s.epoch.value, s.session, s.counter + 1, KIND_AUDIO, EncodeAudio(b).value)))
  {
    ChunkFits(b);
  }

  lemma PayloadFits(codec: Byte, pcm: seq<Byte>)
    requires Codec.Payload(codec, pcm).Some?
    ensures |Codec.Payload(codec, pcm).value| <= Codec.MAX_PCM_CHUNK
  {
  }

  lemma AudioIsSealed(s: Sender, codec: Byte, bufferMs: UInt16, pcm: seq<Byte>, nowUs: UInt64)
    requires s.audioSeq < U64_MAX && Codec.Payload(codec, pcm).Some?
    ensures var b := AudioBody(s.audioSeq + 1, nowUs, codec, bufferMs, Codec.Payload(codec, pcm).value);
            s.Audio(codec, bufferMs, pcm, nowUs) == s.(audioSeq := s.audioSeq + 1).SealAudio(b)
  {
  }

  /** An audio packet carries the next sequence number and the encoded chunk. */
  lemma AudioCarries(s: Sender, codec: Byte, bufferMs: UInt16, pcm: seq<Byte>, nowUs: UInt64)
    requires s.epoch.Some? && s.counter < U64_MAX && s.audioSeq < U64_MAX
    requires Codec.Payload(codec, pcm).Some?
    ensures var b := AudioBody(s.audioSeq + 1, nowUs, codec, bufferMs, Codec.Payload(codec, pcm).value);
            && EncodeAudio(b).Some? && DecodeAudio(EncodeAudio(b).value) == Some(b)
            && s.Audio(codec, bufferMs, pcm, nowUs)
               == (s.(counter := s.counter + 1, audioSeq := s.audioSeq + 1),
                   Some(Packet(ToReceiver, s.epoch.value, s.session, s.counter + 1, KIND_AUDIO, EncodeAudio(b).value)))
  {
    PayloadFits(codec, pcm);
    AudioIsSealed(s, codec, bufferMs, pcm, nowUs);
    SealAudioCarries(s.(audioSeq := s.audioSeq + 1),
                     AudioBody(s.audioSeq + 1, nowUs, codec, bufferMs, Codec.Payload(codec, pcm).value));
  }

  /** Hellos and probes always fit a datagram. */
  lemma HelloCarries(s: Sender, name: seq<Scalar>)
    requires s.epoch.Some? && s.counter < U64_MAX
    ensures s.Hello(name) == (s.(counter := s.counter + 1),
                              Some(Packet(ToReceiver, s.epoch.value, s.session, s.counter + 1, KIND_HELLO, EncodeHello(name))))
    ensures DecodeHello(EncodeHello(name)) == Some(ClipName(name))
  {
    HelloRoundTrip(name);
  }

  lemma ProbeCarries(s: Sender, gen: UInt32, step: Byte, payload: nat, nowUs: UInt64)
    requires s.epoch.Some? && s.counter < U64_MAX
    ensures var (s', p) := s.Probe(gen, step, payload, nowUs);
            && (p.Some? <==> payload <= MAX_PROBE_PAYLOAD && step <= 4)
            && (p.None? ==> s' == s)
            && (p.Some? ==> s' == s.(counter := s.counter + 1)
                            && p.value == Packet(ToReceiver, s.epoch.value, s.session, s.counter + 1, KIND_PROBE, p.value.body)
                            && DecodeProbe(p.value.body) == Some(ProbeBody(gen, step, nowUs, seq(payload, _ => 0))))
  {
    if payload <= MAX_PROBE_PAYLOAD && step <= 4 {
      ProbeRoundTrip(ProbeBody(gen, step, nowUs, seq(payload, _ => 0)));
    }
  }
}
