/** What the jitter buffers hold: the decoded form of what the sessions captured, packet by packet. */
module WorldIntegrity {
  import opened Bytes
  import opened Wire
  import opened Secure
  import opened ReceiverModel
  import SenderModel
  import Codec
  import Playout
  import PlayoutRuns
  import opened World
  import opened WorldInvariant
  import opened WorldReceiver
  import opened WorldSafety
  import WorldSenders
  import WorldTheorems

  /** Some box of the key carries this number and decodes to this PCM. */
  ghost predicate Holds(boxes: seq<Packet>, k: Key, n: nat, pcm: seq<Byte>)
  {
    exists p :: p in boxes && Carries(p, k, n) && Chunk(p.body) == Some((n, pcm))
  }

  ghost predicate Genuine(boxes: seq<Packet>, k: Key, slots: Playout.Slots)
  {
    forall n | n in slots :: Holds(boxes, k, n, slots[n])
  }

  ghost predicate AllGenuine(boxes: seq<Packet>, epoch: Id, streams: Streams)
  {
    forall s | s in streams :: Genuine(boxes, (epoch, s), streams[s].buffer.slots)
  }

  /** What a chunk sounds like after encoding and decoding. */
  ghost function ThroughCodec(c: (Byte, seq<Byte>)): Option<seq<Byte>>
  {
    var payload := Codec.Payload(c.0, c.1);
    if payload.Some? then Codec.Pcm(c.0, payload.value) else None
  }

  /** The packet decodes to what the codec makes of the chunk captured under its number. */
  ghost predicate FromCapture(p: Packet, taken: Captured)
  {
    var k := (p.epoch, p.session, SeqOf(p.body));
    && k in taken && ThroughCodec(taken[k]).Some?
    && Chunk(p.body) == Some((SeqOf(p.body), ThroughCodec(taken[k]).value))
  }

  ghost predicate AllCaptured(boxes: seq<Packet>, taken: Captured)
  {
    forall p | p in boxes && IsAudio(p) :: FromCapture(p, taken)
  }

  // One buffer.

  /** A step of a buffer keeps packets as they are, drops some, and adds at most the one pushed. */
  lemma PushSlots(s: Playout.State, x: nat, pcm: seq<Byte>, n: nat)
    requires s.Valid() && x <= U64_MAX && n in s.Push(x, pcm).0.slots
    ensures var t := s.Push(x, pcm).0; (n in s.slots && t.slots[n] == s.slots[n]) || (n == x && t.slots[n] == pcm)
  {
    if Playout.Takes(s, x, pcm) {
      Playout.PushMeaning(s, x, pcm);
    } else {
      Playout.PushRefuses(s, x, pcm);
    }
  }

  lemma StepSlots(s: Playout.State, op: PlayoutRuns.Op, n: nat)
    requires s.Valid() && n in PlayoutRuns.Step(s, op).slots
    ensures var t := PlayoutRuns.Step(s, op);
            || (n in s.slots && t.slots[n] == s.slots[n])
            || (op.Push? && n == op.seqNo && t.slots[n] == op.pcm)
  {
    match op
    case Push(seqNo, pcm) => PushSlots(s, seqNo, pcm, n);
    case Pull(frames) =>
    case Retarget(packets) =>
  }

  lemma BufferStaysGenuine(boxes: seq<Packet>, k: Key, s: Playout.State, op: PlayoutRuns.Op)
    requires s.Valid() && Genuine(boxes, k, s.slots)
    requires op.Push? ==> Holds(boxes, k, op.seqNo, op.pcm)
    ensures Genuine(boxes, k, PlayoutRuns.Step(s, op).slots)
  {
    var t := PlayoutRuns.Step(s, op);
    forall n | n in t.slots
      ensures Holds(boxes, k, n, t.slots[n])
    {
      StepSlots(s, op, n);
    }
  }

  // All streams.

  lemma GenuineUnderMoreBoxes(boxes: seq<Packet>, p: Packet, epoch: Id, streams: Streams)
    requires AllGenuine(boxes, epoch, streams)
    ensures AllGenuine(boxes + [p], epoch, streams)
  {
    forall s, n | s in streams && n in streams[s].buffer.slots
      ensures Holds(boxes + [p], (epoch, s), n, streams[s].buffer.slots[n])
    {
      assert Genuine(boxes, (epoch, s), streams[s].buffer.slots);
      var q :| q in boxes && Carries(q, (epoch, s), n) && Chunk(q.body) == Some((n, streams[s].buffer.slots[n]));
      assert q in boxes + [p];
    }
  }

  lemma KeptStayGenuine(boxes: seq<Packet>, epoch: Id, m: Mixer, m': Mixer)
    requires AllGenuine(boxes, epoch, m.streams) && BuffersKept(m, m')
    ensures AllGenuine(boxes, epoch, m'.streams)
  {
    NewBufferIsEmpty(m);
    forall s | s in m'.streams
      ensures Genuine(boxes, (epoch, s), m'.streams[s].buffer.slots)
    {
      if s in m.streams {
        assert Genuine(boxes, (epoch, s), m.streams[s].buffer.slots);
      }
    }
  }

  lemma SteppedStayGenuine(boxes: seq<Packet>, epoch: Id, m: Mixer, m': Mixer, s: Id, op: PlayoutRuns.Op)
    requires AllGenuine(boxes, epoch, m.streams) && BufferSteps(m, m', s, op) && m.streams[s].buffer.Valid()
    requires op.Push? ==> Holds(boxes, (epoch, s), op.seqNo, op.pcm)
    ensures AllGenuine(boxes, epoch, m'.streams)
  {
    BufferStaysGenuine(boxes, (epoch, s), m.streams[s].buffer, op);
    forall t | t in m'.streams
      ensures Genuine(boxes, (epoch, t), m'.streams[t].buffer.slots)
    {
      if t != s {
        assert Genuine(boxes, (epoch, t), m.streams[t].buffer.slots);
      }
    }
  }

  lemma BufferIsValid(w: World, s: Id)
    requires Inv(w) && s in w.receiver.mixer.streams
    ensures w.receiver.mixer.streams[s].buffer.Valid()
  {
    var k := (w.receiver.epoch, s);
    assert StreamOk(w.receiver.mixer.streams[s].buffer, At(w.played, k), At(w.pushed, k), PacketFrames(w.receiver.mixer));
  }

  lemma RetargetedStayGenuine(w: World, s: Id, packets: nat)
    requires Inv(w) && AllGenuine(w.boxes, w.receiver.epoch, w.receiver.mixer.streams)
    ensures AllGenuine(w.boxes, w.receiver.epoch, w.receiver.mixer.Retargeted(s, packets).streams)
  {
    var m := w.receiver.mixer;
    if s in m.streams {
      BufferIsValid(w, s);
      RetargetedSteps(m, s, packets);
      SteppedStayGenuine(w.boxes, w.receiver.epoch, m, m.Retargeted(s, packets), s, PlayoutRuns.Op.Retarget(packets));
    }
  }

  lemma PulledStayGenuine(w: World, s: Id, frames: nat)
    requires Inv(w) && AllGenuine(w.boxes, w.receiver.epoch, w.receiver.mixer.streams)
    requires s in w.receiver.mixer.streams && w.receiver.mixer.streams[s].buffer.packetFrames > 0
    ensures AllGenuine(w.boxes, w.receiver.epoch, PulledFrom(w, s, frames).receiver.mixer.streams)
  {
    var op := PlayoutRuns.Op.Pull(frames);
    BufferIsValid(w, s);
    SteppedIsAStep(w.receiver, s, op);
    SteppedStayGenuine(w.boxes, w.receiver.epoch, w.receiver.mixer, Stepped(w.receiver, s, op).mixer, s, op);
  }

  lemma ReachingStaysGenuine(w: World, r': Receiver, d: Datagram, x: nat)
    requires Inv(w) && AllGenuine(w.boxes, w.receiver.epoch, w.receiver.mixer.streams)
    requires Possible(w.boxes, d) && Reaches(w.receiver, r', d, x)
    ensures AllGenuine(w.boxes, r'.epoch, r'.mixer.streams)
  {
    var r, body := w.receiver, OpenBox(ToReceiver, w.receiver.epoch, d.session, d).value;
    WorldSenders.OpenedWasSealed(w.boxes, ToReceiver, r.epoch, d.session, d);
    var p := Packet(ToReceiver, r.epoch, d.session, d.counter, d.kind, body);
    assert Carries(p, (r.epoch, d.session), x) && Chunk(p.body) == Some((x, Chunk(body).value.1));
    assert Holds(w.boxes, (r.epoch, d.session), x, Chunk(body).value.1);
    BufferIsValid(w, d.session);
    SteppedStayGenuine(w.boxes, r.epoch, r.mixer, r'.mixer, d.session, PlayoutRuns.Op.Push(x, Chunk(body).value.1));
  }

  lemma ArrivedStayGenuine(w: World, d: Datagram, src: nat, now: nat, nextEpoch: Id)
    requires Inv(w) && AllGenuine(w.boxes, w.receiver.epoch, w.receiver.mixer.streams)
    requires Possible(w.boxes, d)
    ensures var r' := w.receiver.Handle(d, src, now, nextEpoch).receiver;
            AllGenuine(w.boxes, r'.epoch, r'.mixer.streams)
  {
    var r, h := w.receiver, w.receiver.Handle(d, src, now, nextEpoch);
    InvBuffersRun(w);
    HandleEffect(r, d, src, now, nextEpoch);
    if h.pushed.Some? {
      ReachingStaysGenuine(w, h.receiver, d, h.pushed.value);
    } else if Quiet(r, h.receiver) {
      KeptStayGenuine(w.boxes, r.epoch, r.mixer, h.receiver.mixer);
    }
  }

  lemma ExpiredStayGenuine(w: World, maxIdle: nat, now: nat)
    requires AllGenuine(w.boxes, w.receiver.epoch, w.receiver.mixer.streams)
    ensures var r' := w.receiver.Expire(maxIdle, now);
            AllGenuine(w.boxes, r'.epoch, r'.mixer.streams)
  {
    ExpireIsQuiet(w.receiver, maxIdle, now);
    KeptStayGenuine(w.boxes, w.receiver.epoch, w.receiver.mixer, w.receiver.Expire(maxIdle, now).mixer);
  }

  // Every step.

  ghost predicate Sincere(w: World)
  {
    AllGenuine(w.boxes, w.receiver.epoch, w.receiver.mixer.streams) && AllCaptured(w.boxes, w.taken)
  }

  lemma SentStaysSincere(w: World, s: Id, out: (SenderModel.Sender, Option<Packet>))
    requires Sincere(w) && (out.1.Some? ==> !IsAudio(out.1.value))
    ensures Sincere(Sent(w, s, out))
  {
    if out.1.Some? {
      GenuineUnderMoreBoxes(w.boxes, out.1.value, w.receiver.epoch, w.receiver.mixer.streams);
    }
  }

  /** A packet that was sealed has another key than the next number of a session has. */
  lemma NextKeyIsOther(w: World, s: Id, q: Packet, k: (Id, Id, nat))
    requires Inv(w) && q in w.boxes && IsAudio(q) && s in w.senders
    requires w.senders[s].epoch == Some(k.0) && k.1 == s && k.2 == w.senders[s].audioSeq + 1
    ensures (q.epoch, q.session, SeqOf(q.body)) != k
  {
    assert SentOk(q, w.senders, w.bound);
  }

  lemma CaptureStands(q: Packet, taken: Captured, k: (Id, Id, nat), c: (Byte, seq<Byte>))
    requires FromCapture(q, taken) && (q.epoch, q.session, SeqOf(q.body)) != k
    ensures FromCapture(q, taken[k := c])
  {
  }

  lemma CapturedGrows(w: World, s: Id, p: Packet, c: (Byte, seq<Byte>))
    requires Inv(w) && AllCaptured(w.boxes, w.taken) && s in w.senders
    requires w.senders[s].epoch == Some(p.epoch) && p.session == s && SeqOf(p.body) == w.senders[s].audioSeq + 1
    requires ThroughCodec(c).Some? && Chunk(p.body) == Some((SeqOf(p.body), ThroughCodec(c).value))
    ensures AllCaptured(w.boxes + [p], w.taken[(p.epoch, s, SeqOf(p.body)) := c])
  {
    var k := (p.epoch, s, SeqOf(p.body));
    forall q | q in w.boxes + [p] && IsAudio(q)
      ensures FromCapture(q, w.taken[k := c])
    {
      if q in w.boxes {
        NextKeyIsOther(w, s, q, k);
        CaptureStands(q, w.taken, k, c);
      } else {
        assert q == p;
      }
    }
  }

  /** The number of a new audio packet has not been taken, so noting its chunk forgets no other. */
  lemma CaptureStaysSincere(w: World, s: Id, p: Packet, c: (Byte, seq<Byte>))
    requires Inv(w) && Sincere(w) && s in w.senders
    requires w.senders[s].epoch == Some(p.epoch) && p.session == s && SeqOf(p.body) == w.senders[s].audioSeq + 1
    requires ThroughCodec(c).Some? && Chunk(p.body) == Some((SeqOf(p.body), ThroughCodec(c).value))
    ensures AllGenuine(w.boxes + [p], w.receiver.epoch, w.receiver.mixer.streams)
    ensures AllCaptured(w.boxes + [p], w.taken[(p.epoch, s, SeqOf(p.body)) := c])
  {
    GenuineUnderMoreBoxes(w.boxes, p, w.receiver.epoch, w.receiver.mixer.streams);
    CapturedGrows(w, s, p, c);
  }

  /** The packet that audio is sealed into, with what was captured. */
  ghost predicate Captures(sender: SenderModel.Sender, out: (SenderModel.Sender, Option<Packet>), c: (Byte, seq<Byte>))
  {
    && out.1.Some? && sender.epoch == Some(out.1.value.epoch) && out.1.value.session == sender.session
    && SeqOf(out.1.value.body) == sender.audioSeq + 1 == out.0.audioSeq
    && ThroughCodec(c).Some? && Chunk(out.1.value.body) == Some((SeqOf(out.1.value.body), ThroughCodec(c).value))
  }

  lemma AudioCaptures(sender: SenderModel.Sender, codec: Byte, bufferMs: UInt16, pcm: seq<Byte>, nowUs: UInt64)
    requires sender.epoch.Some? && sender.counter < U64_MAX && sender.audioSeq <= sender.counter
    ensures var out := sender.Audio(codec, bufferMs, pcm, nowUs);
            if Codec.Payload(codec, pcm).Some? then Captures(sender, out, (codec, pcm)) else out.1.None?
  {
    if Codec.Payload(codec, pcm).Some? {
      SenderModel.AudioCarries(sender, codec, bufferMs, pcm, nowUs);
      WorldTheorems.CapturedIsHeard(sender, codec, bufferMs, pcm, nowUs);
    }
  }

  lemma CapturedStaysSincere(w: World, s: Id, codec: Byte, pcm: seq<Byte>, out: (SenderModel.Sender, Option<Packet>))
    requires Inv(w) && Sincere(w) && s in w.senders && w.senders[s].session == s
    requires out.1.None? || Captures(w.senders[s], out, (codec, pcm))
    ensures Sincere(SentAudio(w, s, codec, pcm, out))
  {
    if out.1.Some? {
      CaptureStaysSincere(w, s, out.1.value, (codec, pcm));
    }
  }

  lemma SentAudioStaysSincere(w: World, s: Id, codec: Byte, bufferMs: UInt16, pcm: seq<Byte>, nowUs: UInt64)
    requires Inv(w) && Sincere(w) && s in w.senders && w.senders[s].epoch.Some? && w.senders[s].counter < U64_MAX
    ensures Sincere(SentAudio(w, s, codec, pcm, w.senders[s].Audio(codec, bufferMs, pcm, nowUs)))
  {
    WorldSenders.SenderCounters(w, s);
    assert SenderOk(s, w.senders[s], w.bound);
    AudioCaptures(w.senders[s], codec, bufferMs, pcm, nowUs);
    CapturedStaysSincere(w, s, codec, pcm, w.senders[s].Audio(codec, bufferMs, pcm, nowUs));
  }

  lemma ProbeIsNoAudio(s: SenderModel.Sender, gen: UInt32, step: Byte, size: nat, nowUs: UInt64)
    requires s.epoch.Some? && s.counter < U64_MAX
    ensures var p := s.Probe(gen, step, size, nowUs).1;
            p.Some? ==> !IsAudio(p.value)
  {
    SenderModel.ProbeCarries(s, gen, step, size, nowUs);
  }

  lemma SendStaysSincere(w: World, event: Event)
    requires Inv(w) && Enabled(w, event) && Sincere(w)
    requires Sends(event)
    ensures Sincere(Next(w, event))
  {
    match event
    case SendHello(s, name) =>
      SenderModel.HelloCarries(w.senders[s], name);
      SentStaysSincere(w, s, w.senders[s].Hello(name));
    case SendAudio(s, codec, bufferMs, pcm, nowUs) =>
      SentAudioStaysSincere(w, s, codec, bufferMs, pcm, nowUs);
    case SendProbe(s, gen, step, size, nowUs) =>
      ProbeIsNoAudio(w.senders[s], gen, step, size, nowUs);
      SentStaysSincere(w, s, w.senders[s].Probe(gen, step, size, nowUs));
  }

  lemma ReportStaysSincere(w: World, s: Id, now: nat)
    requires Inv(w) && Sincere(w) && s in w.receiver.peers && w.receiver.peers[s].sendCounter < U64_MAX
    ensures var out := w.receiver.Feedback(s, now);
            Sincere(w.(receiver := out.0, boxes := Boxed(w.boxes, out.1)))
  {
    var out := w.receiver.Feedback(s, now);
    FeedbackEffect(w.receiver, s, now);
    if out.1.Some? {
      RetargetedStayGenuine(w, s, w.receiver.ReportTarget(s));
      GenuineUnderMoreBoxes(w.boxes, out.1.value, w.receiver.epoch, out.0.mixer.streams);
    }
  }

  lemma GenuineIsSincere(w: World, r': Receiver)
    requires Sincere(w) && AllGenuine(w.boxes, r'.epoch, r'.mixer.streams)
    ensures Sincere(w.(receiver := r'))
  {
  }

  lemma PullStaysSincere(w: World, s: Id, frames: nat)
    requires Inv(w) && Sincere(w)
    requires s in w.receiver.mixer.streams && w.receiver.mixer.streams[s].buffer.packetFrames > 0
    ensures Sincere(PulledFrom(w, s, frames))
  {
    PulledStayGenuine(w, s, frames);
  }

  lemma ArrivalStaysSincere(w: World, d: Datagram, src: nat, now: nat, nextEpoch: Id)
    requires Inv(w) && Sincere(w) && Possible(w.boxes, d)
    ensures var h := w.receiver.Handle(d, src, now, nextEpoch);
            && Sincere(w.(receiver := h.receiver))
            && (d.Datagram? ==> Sincere(Arrived(w, d.session, h)))
  {
    ArrivedStayGenuine(w, d, src, now, nextEpoch);
  }

  lemma ReceivingStaysSincere(w: World, event: Event)
    requires Inv(w) && Enabled(w, event) && Sincere(w) && Receives(event)
    ensures Sincere(Next(w, event))
  {
    match event
    case Arrive(d, src, now, nextEpoch) => ArrivalStaysSincere(w, d, src, now, nextEpoch);
    case Expire(maxIdle, now) =>
      ExpiredStayGenuine(w, maxIdle, now);
      GenuineIsSincere(w, w.receiver.Expire(maxIdle, now));
    case Pull(s, frames) =>
      if s in w.receiver.mixer.streams && w.receiver.mixer.streams[s].buffer.packetFrames > 0 {
        PullStaysSincere(w, s, frames);
      }
    case Retarget(s, packets) =>
      RetargetedStayGenuine(w, s, packets);
      GenuineIsSincere(w, w.receiver.(mixer := w.receiver.mixer.Retargeted(s, packets)));
    case SetDefault(packets) =>
      GenuineIsSincere(w, w.receiver.(mixer := w.receiver.mixer.(defaultTarget := Clamp(packets, 1, Playout.MAX_SLOTS))));
  }

  lemma StepStaysSincere(w: World, event: Event)
    requires Inv(w) && Enabled(w, event) && Sincere(w)
    ensures Sincere(Next(w, event))
  {
    if Sends(event) {
      SendStaysSincere(w, event);
    } else if Receives(event) {
      ReceivingStaysSincere(w, event);
    } else {
      match event
      case Bind(_, _) =>
      case ArriveReport(_, _) =>
      case Report(s, now) => ReportStaysSincere(w, s, now);
    }
  }

  lemma {:induction false} RunStaysSincere(w: World, events: seq<Event>)
    requires Initial(w) && Runs(w, events)
    ensures Sincere(After(w, events))
    decreases |events|
  {
    if events != [] {
      RunStaysSincere(w, events[..|events| - 1]);
      WorldTheorems.RunKeepsInv(w, events[..|events| - 1]);
      StepStaysSincere(After(w, events[..|events| - 1]), events[|events| - 1]);
    }
  }

  /** After any run, whatever the network did, every packet waiting to be played is what the codec makes of the chunk
      that its session captured under its number and the present epoch. */
  lemma BufferedWasCaptured(w: World, events: seq<Event>, s: Id, n: nat)
    requires Initial(w) && Runs(w, events)
    requires s in After(w, events).receiver.mixer.streams
    requires n in After(w, events).receiver.mixer.streams[s].buffer.slots
    ensures var w' := After(w, events);
            var k := (w'.receiver.epoch, s, n);
            k in w'.taken && ThroughCodec(w'.taken[k]) == Some(w'.receiver.mixer.streams[s].buffer.slots[n])
  {
    RunStaysSincere(w, events);
    var w' := After(w, events);
    var k, slots := (w'.receiver.epoch, s), w'.receiver.mixer.streams[s].buffer.slots;
    assert Genuine(w'.boxes, k, slots);
    var p :| p in w'.boxes && Carries(p, k, n) && Chunk(p.body) == Some((n, slots[n]));
    assert FromCapture(p, w'.taken);
  }
}
