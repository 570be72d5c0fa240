/** What is heard: every frame played is, byte for byte, the codec's version of the captured one. */
module WorldSound {
  import opened Bytes
  import opened ReceiverModel
  import opened Secure
  import opened Wire
  import opened World
  import opened WorldIntegrity
  import opened WorldInvariant
  import opened WorldSafety
  import Codec
  import Division
  import Playout
  import PlayoutRuns
  import SenderModel
  import WorldFrames
  import WorldSenders
  import WorldTheorems

  /** The bytes are those of frame q of what was captured under a key, once through the codec. */
  ghost predicate SoundsLike(taken: Captured, k: Key, pf: nat, q: nat, bytes: seq<Byte>)
    requires pf > 0
  {
    var n, at := (k.0, k.1, q / pf), q % pf * |bytes|;
    && n in taken && ThroughCodec(taken[n]).Some?
    && at + |bytes| <= |ThroughCodec(taken[n]).value| && ThroughCodec(taken[n]).value[at..at + |bytes|] == bytes
  }

  ghost predicate AllSoundLike(sounded: Sounds, taken: Captured, pf: nat)
    requires pf > 0
  {
    forall k, i | k in sounded && 0 <= i < |sounded[k]| :: SoundsLike(taken, k, pf, sounded[k][i].0, sounded[k][i].1)
  }

  /** Chunks are noted only for numbers that were sealed. */
  ghost predicate TakenOk(taken: Captured, boxes: seq<Packet>)
  {
    forall n | n in taken :: Authentic(boxes, (n.0, n.1), n.2)
  }

  ghost predicate Faithful(w: World)
  {
    AllSoundLike(w.sounded, w.taken, PacketFrames(w.receiver.mixer)) && TakenOk(w.taken, w.boxes)
  }

  lemma AuthenticUnderMoreBoxes(boxes: seq<Packet>, p: Packet, k: Key, x: nat)
    requires Authentic(boxes, k, x)
    ensures Authentic(boxes + [p], k, x)
  {
    var q :| q in boxes && Carries(q, k, x);
    assert q in boxes + [p];
  }

  lemma TakenUnderMoreBoxes(taken: Captured, boxes: seq<Packet>, p: Packet)
    requires TakenOk(taken, boxes)
    ensures TakenOk(taken, boxes + [p])
  {
    forall n | n in taken
      ensures Authentic(boxes + [p], (n.0, n.1), n.2)
    {
      AuthenticUnderMoreBoxes(boxes, p, (n.0, n.1), n.2);
    }
  }

  /** Chunks are noted for numbers up to the sender's last one, so the next number has no chunk yet. */
  lemma TakenIsPast(w: World, n: (Id, Id, nat))
    requires Inv(w) && TakenOk(w.taken, w.boxes) && n in w.taken && n.1 in w.senders && w.senders[n.1].epoch == Some(n.0)
    ensures n.2 <= w.senders[n.1].audioSeq
  {
    assert Authentic(w.boxes, (n.0, n.1), n.2);
    var p :| p in w.boxes && Carries(p, (n.0, n.1), n.2);
    assert SentOk(p, w.senders, w.bound);
  }

  lemma NextIsNotTaken(w: World, s: Id, e: Id)
    requires Inv(w) && TakenOk(w.taken, w.boxes) && s in w.senders && w.senders[s].epoch == Some(e)
    ensures (e, s, w.senders[s].audioSeq + 1) !in w.taken
  {
    if (e, s, w.senders[s].audioSeq + 1) in w.taken {
      TakenIsPast(w, (e, s, w.senders[s].audioSeq + 1));
    }
  }

  lemma SoundUnderMoreTaken(sounded: Sounds, taken: Captured, pf: nat, n: (Id, Id, nat), c: (Byte, seq<Byte>))
    requires pf > 0 && AllSoundLike(sounded, taken, pf) && n !in taken
    ensures AllSoundLike(sounded, taken[n := c], pf)
  {
    forall k, i | k in sounded && 0 <= i < |sounded[k]|
      ensures SoundsLike(taken[n := c], k, pf, sounded[k][i].0, sounded[k][i].1)
    {
      assert SoundsLike(taken, k, pf, sounded[k][i].0, sounded[k][i].1);
    }
  }

  lemma FrameIsInside(s: Playout.State, q: nat)
    requires s.Valid() && q / s.packetFrames in s.slots
    ensures var pcm, at := s.slots[q / s.packetFrames], q % s.packetFrames * s.bytesPerFrame;
            && |s.Frame(q)| == s.bytesPerFrame && at + s.bytesPerFrame <= |pcm|
            && s.Frame(q) == pcm[at..at + s.bytesPerFrame]
  {
    Division.Recompose(q, s.packetFrames);
    Division.RowFits(q % s.packetFrames, s.packetFrames, s.bytesPerFrame);
  }

  /** A buffered packet is what the codec makes of the chunk noted under its number. */
  lemma SlotWasCaptured(w: World, s: Id, n: nat)
    requires Sincere(w) && s in w.receiver.mixer.streams && n in w.receiver.mixer.streams[s].buffer.slots
    ensures var k := (w.receiver.epoch, s, n);
            k in w.taken && ThroughCodec(w.taken[k]) == Some(w.receiver.mixer.streams[s].buffer.slots[n])
  {
    var k, slots := (w.receiver.epoch, s), w.receiver.mixer.streams[s].buffer.slots;
    assert Genuine(w.boxes, k, slots);
    var p :| p in w.boxes && Carries(p, k, n) && Chunk(p.body) == Some((n, slots[n]));
    assert FromCapture(p, w.taken);
  }

  lemma SlotSoundsLike(taken: Captured, k: Key, buffer: Playout.State, q: nat)
    requires buffer.Valid() && q / buffer.packetFrames in buffer.slots
    requires var n := q / buffer.packetFrames;
             (k.0, k.1, n) in taken && ThroughCodec(taken[(k.0, k.1, n)]) == Some(buffer.slots[n])
    ensures SoundsLike(taken, k, buffer.packetFrames, q, buffer.Frame(q))
  {
    FrameIsInside(buffer, q);
  }

  /** An audible frame of a stream sounds like the captured one. */
  lemma AudibleSoundsLike(w: World, s: Id, q: nat)
    requires Inv(w) && Sincere(w) && s in w.receiver.mixer.streams
    requires w.receiver.mixer.streams[s].buffer.packetFrames > 0
    requires q / w.receiver.mixer.streams[s].buffer.packetFrames in w.receiver.mixer.streams[s].buffer.slots
    ensures var buffer := w.receiver.mixer.streams[s].buffer;
            SoundsLike(w.taken, (w.receiver.epoch, s), buffer.packetFrames, q, buffer.Frame(q))
  {
    var buffer := w.receiver.mixer.streams[s].buffer;
    BufferIsValid(w, s);
    SlotWasCaptured(w, s, q / buffer.packetFrames);
    SlotSoundsLike(w.taken, (w.receiver.epoch, s), buffer, q);
  }

  lemma SoundGrows(sounded: Sounds, taken: Captured, pf: nat, k: Key, more: seq<(nat, seq<Byte>)>)
    requires pf > 0 && AllSoundLike(sounded, taken, pf)
    requires forall i | 0 <= i < |more| :: SoundsLike(taken, k, pf, more[i].0, more[i].1)
    ensures AllSoundLike(sounded[k := SoundsAt(sounded, k) + more], taken, pf)
  {
    var sounded': Sounds := sounded[k := SoundsAt(sounded, k) + more];
    forall l: Key, i | l in sounded' && 0 <= i < |sounded'[l]|
      ensures SoundsLike(taken, l, pf, sounded'[l][i].0, sounded'[l][i].1)
    {
      if l != k || i < |SoundsAt(sounded, k)| {
        assert SoundsLike(taken, l, pf, sounded[l][i].0, sounded[l][i].1);
      } else {
        assert sounded'[l][i] == more[i - |SoundsAt(sounded, k)|];
      }
    }
  }

  lemma PullStaysFaithful(w: World, s: Id, frames: nat)
    requires Inv(w) && Sincere(w) && Faithful(w)
    requires s in w.receiver.mixer.streams && w.receiver.mixer.streams[s].buffer.packetFrames > 0
    ensures Faithful(PulledFrom(w, s, frames))
  {
    var k, op, buffer := (w.receiver.epoch, s), PlayoutRuns.Op.Pull(frames), w.receiver.mixer.streams[s].buffer;
    var pf, qs := PacketFrames(w.receiver.mixer), PlayoutRuns.Played(buffer, op);
    assert StreamOk(buffer, At(w.played, k), At(w.pushed, k), pf);
    var more := WithBytes(buffer, qs);
    forall i | 0 <= i < |qs|
      ensures SoundsLike(w.taken, k, pf, more[i].0, more[i].1)
    {
      assert qs[i] in qs;
      AudibleSoundsLike(w, s, qs[i]);
    }
    SoundGrows(w.sounded, w.taken, pf, k, more);
  }

  // Every step.

  lemma ArrivalKeepsFrames(w: World, d: Datagram, src: nat, now: nat, nextEpoch: Id)
    requires Inv(w)
    ensures w.receiver.Handle(d, src, now, nextEpoch).receiver.mixer.packetFrames == w.receiver.mixer.packetFrames
  {
    InvBuffersRun(w);
    HandleEffect(w.receiver, d, src, now, nextEpoch);
  }

  lemma ArrivalStaysFaithful(w: World, d: Datagram, src: nat, now: nat, nextEpoch: Id)
    requires Inv(w) && Faithful(w)
    ensures var h := w.receiver.Handle(d, src, now, nextEpoch);
            && Faithful(w.(receiver := h.receiver))
            && (d.Datagram? ==> Faithful(Arrived(w, d.session, h)))
  {
    ArrivalKeepsFrames(w, d, src, now, nextEpoch);
  }

  lemma SameFramesStayFaithful(w: World, r': Receiver)
    requires Faithful(w) && r'.mixer.packetFrames == w.receiver.mixer.packetFrames
    ensures Faithful(w.(receiver := r'))
  {
  }

  lemma SentStaysFaithful(w: World, s: Id, out: (SenderModel.Sender, Option<Packet>))
    requires Faithful(w)
    ensures Faithful(Sent(w, s, out))
  {
    if out.1.Some? {
      TakenUnderMoreBoxes(w.taken, w.boxes, out.1.value);
    }
  }

  lemma AudioTaken(w: World, s: Id, p: Packet, c: (Byte, seq<Byte>))
    requires Inv(w) && Faithful(w) && s in w.senders && w.senders[s].epoch == Some(p.epoch) && p.session == s && IsAudio(p)
    requires SeqOf(p.body) == w.senders[s].audioSeq + 1
    ensures var taken' := w.taken[(p.epoch, s, SeqOf(p.body)) := c];
            && AllSoundLike(w.sounded, taken', PacketFrames(w.receiver.mixer)) && TakenOk(taken', w.boxes + [p])
  {
    NextIsNotTaken(w, s, p.epoch);
    SoundUnderMoreTaken(w.sounded, w.taken, PacketFrames(w.receiver.mixer), (p.epoch, s, SeqOf(p.body)), c);
    TakenUnderMoreBoxes(w.taken, w.boxes, p);
    assert p in w.boxes + [p] && Carries(p, (p.epoch, s), SeqOf(p.body));
  }

  lemma SentAudioStaysFaithful(w: World, s: Id, codec: Byte, pcm: seq<Byte>, out: (SenderModel.Sender, Option<Packet>))
    requires Inv(w) && Faithful(w) && s in w.senders
    requires out.1.Some? ==> WorldSenders.Sealed(w.senders[s], out.0, out.1.value) && IsAudio(out.1.value)
    ensures Faithful(SentAudio(w, s, codec, pcm, out))
  {
    if out.1.Some? {
      assert SenderOk(s, w.senders[s], w.bound);
      AudioTaken(w, s, out.1.value, (codec, pcm));
    }
  }

  lemma AudioIsAudio(sender: SenderModel.Sender, codec: Byte, bufferMs: UInt16, pcm: seq<Byte>, nowUs: UInt64)
    requires sender.epoch.Some? && sender.counter < U64_MAX && sender.audioSeq <= sender.counter
    ensures var p := sender.Audio(codec, bufferMs, pcm, nowUs).1; p.Some? ==> IsAudio(p.value)
  {
    if Codec.Payload(codec, pcm).Some? {
      SenderModel.AudioCarries(sender, codec, bufferMs, pcm, nowUs);
    }
  }

  lemma AudioStaysFaithful(w: World, s: Id, codec: Byte, bufferMs: UInt16, pcm: seq<Byte>, nowUs: UInt64)
    requires Inv(w) && Faithful(w) && s in w.senders && w.senders[s].epoch.Some? && w.senders[s].counter < U64_MAX
    ensures Faithful(SentAudio(w, s, codec, pcm, w.senders[s].Audio(codec, bufferMs, pcm, nowUs)))
  {
    WorldSenders.SenderCounters(w, s);
    WorldSenders.AudioIsSealed(w.senders[s], codec, bufferMs, pcm, nowUs);
    AudioIsAudio(w.senders[s], codec, bufferMs, pcm, nowUs);
    SentAudioStaysFaithful(w, s, codec, pcm, w.senders[s].Audio(codec, bufferMs, pcm, nowUs));
  }

  lemma SendingStaysFaithful(w: World, event: Event)
    requires Inv(w) && Enabled(w, event) && Faithful(w)
    requires Sends(event)
    ensures Faithful(Next(w, event))
  {
    match event
    case SendHello(s, name) => SentStaysFaithful(w, s, w.senders[s].Hello(name));
    case SendAudio(s, codec, bufferMs, pcm, nowUs) => AudioStaysFaithful(w, s, codec, bufferMs, pcm, nowUs);
    case SendProbe(s, gen, step, size, nowUs) => SentStaysFaithful(w, s, w.senders[s].Probe(gen, step, size, nowUs));
  }

  lemma ReportStaysFaithful(w: World, s: Id, now: nat)
    requires Faithful(w)
    ensures var out := w.receiver.Feedback(s, now);
            Faithful(w.(receiver := out.0, boxes := Boxed(w.boxes, out.1)))
  {
    var p := w.receiver.Feedback(s, now).1;
    if p.Some? {
      TakenUnderMoreBoxes(w.taken, w.boxes, p.value);
    }
  }

  lemma ReceivingStaysFaithful(w: World, event: Event)
    requires Inv(w) && Enabled(w, event) && Sincere(w) && Faithful(w)
    requires Receives(event)
    ensures Faithful(Next(w, event))
  {
    match event
    case Arrive(d, src, now, nextEpoch) => ArrivalStaysFaithful(w, d, src, now, nextEpoch);
    case Pull(s, frames) =>
      if s in w.receiver.mixer.streams && w.receiver.mixer.streams[s].buffer.packetFrames > 0 {
        PullStaysFaithful(w, s, frames);
      }
    case Expire(maxIdle, now) => SameFramesStayFaithful(w, w.receiver.Expire(maxIdle, now));
    case Retarget(s, packets) =>
      SameFramesStayFaithful(w, w.receiver.(mixer := w.receiver.mixer.Retargeted(s, packets)));
    case SetDefault(packets) =>
      SameFramesStayFaithful(w, w.receiver.(mixer := w.receiver.mixer.(defaultTarget := Clamp(packets, 1, Playout.MAX_SLOTS))));
  }

  lemma StepStaysFaithful(w: World, event: Event)
    requires Inv(w) && Enabled(w, event) && Sincere(w) && Faithful(w)
    ensures Faithful(Next(w, event))
  {
    if Sends(event) {
      SendingStaysFaithful(w, event);
    } else if Receives(event) {
      ReceivingStaysFaithful(w, event);
    } else {
      match event
      case Bind(_, _) =>
      case ArriveReport(_, _) =>
      case Report(s, now) => ReportStaysFaithful(w, s, now);
    }
  }

  lemma {:induction false} RunStaysFaithful(w: World, events: seq<Event>)
    requires Initial(w) && Runs(w, events)
    ensures Faithful(After(w, events))
    decreases |events|
  {
    if events != [] {
      var before := events[..|events| - 1];
      RunStaysFaithful(w, before);
      WorldTheorems.RunKeepsInv(w, before);
      RunStaysSincere(w, before);
      StepStaysFaithful(After(w, before), events[|events| - 1]);
    }
  }

  /** After any run, whatever the network did, every frame that was ever played is whole and is, byte for byte, that frame
      of what the codec makes of the chunk that its session captured under its number and epoch. */
  lemma WhatIsHeardWasCaptured(w: World, events: seq<Event>, k: Key, i: nat)
    requires Initial(w) && Runs(w, events) && i < |At(After(w, events).played, k)|
    ensures var w' := After(w, events);
            && |SoundsAt(w'.sounded, k)| == |At(w'.played, k)|
            && var (q, bytes) := SoundsAt(w'.sounded, k)[i];
               && q == At(w'.played, k)[i] && |bytes| == WorldFrames.FrameBytes(w'.receiver.mixer)
               && SoundsLike(w'.taken, k, PacketFrames(w'.receiver.mixer), q, bytes)
  {
    RunStaysFaithful(w, events);
    WorldFrames.SoundedWasPlayed(w, events);
    var w' := After(w, events);
    assert WorldFrames.Recorded(SoundsAt(w'.sounded, k), At(w'.played, k), WorldFrames.FrameBytes(w'.receiver.mixer));
  }
}
