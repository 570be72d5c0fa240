/** The frames played and their bytes: one log entry of each for the other, and every frame whole. */
module WorldFrames {
  import opened Bytes
  import opened ReceiverModel
  import opened Secure
  import opened Wire
  import opened World
  import opened WorldInvariant
  import opened WorldReceiver
  import opened WorldSafety
  import Playout
  import PlayoutRuns
  import WorldTheorems

  function FrameBytes(m: Mixer): nat { Max(m.bytesPerFrame, 1) }

  /** Entry by entry, the same frame, with as many bytes as a frame has. */
  ghost predicate Recorded(sounds: seq<(nat, seq<Byte>)>, played: seq<nat>, width: nat)
  {
    |sounds| == |played| && forall i | 0 <= i < |played| :: sounds[i].0 == played[i] && |sounds[i].1| == width
  }

  ghost predicate AllRecorded(w: World)
  {
    forall k: Key :: Recorded(SoundsAt(w.sounded, k), At(w.played, k), FrameBytes(w.receiver.mixer))
  }

  ghost predicate SameWidth(m: Mixer)
  {
    forall s | s in m.streams :: m.streams[s].buffer.bytesPerFrame == FrameBytes(m)
  }

  ghost predicate InStep(w: World)
  {
    AllRecorded(w) && SameWidth(w.receiver.mixer)
  }

  lemma WidthUnderKeptBuffers(m: Mixer, m': Mixer)
    requires SameWidth(m) && BuffersKept(m, m')
    ensures SameWidth(m') && FrameBytes(m') == FrameBytes(m)
  {
  }

  lemma WidthUnderBufferStep(m: Mixer, m': Mixer, s: Id, op: PlayoutRuns.Op)
    requires SameWidth(m) && BufferSteps(m, m', s, op) && m.streams[s].buffer.Valid()
    ensures SameWidth(m') && FrameBytes(m') == FrameBytes(m)
  {
    PlayoutRuns.StepKeepsValid(m.streams[s].buffer, op);
  }

  lemma ValidBuffer(w: World, s: Id)
    requires Inv(w) && s in w.receiver.mixer.streams
    ensures w.receiver.mixer.streams[s].buffer.Valid()
  {
    var k := (w.receiver.epoch, s);
    assert StreamOk(w.receiver.mixer.streams[s].buffer, At(w.played, k), At(w.pushed, k), PacketFrames(w.receiver.mixer));
  }

  /** Any step of the receiver that plays nothing. */
  lemma OthersStayInStep(w: World, w': World)
    requires InStep(w) && w'.played == w.played && w'.sounded == w.sounded
    requires SameWidth(w'.receiver.mixer) && FrameBytes(w'.receiver.mixer) == FrameBytes(w.receiver.mixer)
    ensures InStep(w')
  {
  }

  lemma ArrivalKeepsWidth(w: World, d: Datagram, src: nat, now: nat, nextEpoch: Id)
    requires Inv(w) && SameWidth(w.receiver.mixer)
    ensures var m' := w.receiver.Handle(d, src, now, nextEpoch).receiver.mixer;
            SameWidth(m') && FrameBytes(m') == FrameBytes(w.receiver.mixer)
  {
    var m, h := w.receiver.mixer, w.receiver.Handle(d, src, now, nextEpoch);
    InvBuffersRun(w);
    HandleEffect(w.receiver, d, src, now, nextEpoch);
    if h.pushed.Some? {
      ValidBuffer(w, d.session);
      var pcm := Chunk(OpenBox(ToReceiver, w.receiver.epoch, d.session, d).value).value.1;
      WidthUnderBufferStep(m, h.receiver.mixer, d.session, PlayoutRuns.Op.Push(h.pushed.value, pcm));
    } else if Quiet(w.receiver, h.receiver) {
      WidthUnderKeptBuffers(m, h.receiver.mixer);
    }
  }

  lemma ArrivalStaysInStep(w: World, d: Datagram, src: nat, now: nat, nextEpoch: Id)
    requires Inv(w) && InStep(w)
    ensures var h := w.receiver.Handle(d, src, now, nextEpoch);
            InStep(w.(receiver := h.receiver)) && (d.Datagram? ==> InStep(Arrived(w, d.session, h)))
  {
    var h := w.receiver.Handle(d, src, now, nextEpoch);
    ArrivalKeepsWidth(w, d, src, now, nextEpoch);
    OthersStayInStep(w, w.(receiver := h.receiver));
    if d.Datagram? {
      OthersStayInStep(w, Arrived(w, d.session, h));
    }
  }

  lemma RetargetKeepsWidth(m: Mixer, s: Id, packets: nat)
    requires SameWidth(m) && (s in m.streams ==> m.streams[s].buffer.Valid())
    ensures SameWidth(m.Retargeted(s, packets)) && FrameBytes(m.Retargeted(s, packets)) == FrameBytes(m)
  {
    if s in m.streams {
      PlayoutRuns.StepKeepsValid(m.streams[s].buffer, PlayoutRuns.Op.Retarget(packets));
    }
  }

  lemma RetargetedWidth(w: World, s: Id, packets: nat)
    requires Inv(w) && SameWidth(w.receiver.mixer)
    ensures var m' := w.receiver.mixer.Retargeted(s, packets);
            SameWidth(m') && FrameBytes(m') == FrameBytes(w.receiver.mixer)
  {
    if s in w.receiver.mixer.streams {
      ValidBuffer(w, s);
    }
    RetargetKeepsWidth(w.receiver.mixer, s, packets);
  }

  lemma ReportStaysInStep(w: World, s: Id, now: nat)
    requires Inv(w) && InStep(w) && s in w.receiver.peers && w.receiver.peers[s].sendCounter < U64_MAX
    ensures var out := w.receiver.Feedback(s, now);
            InStep(w.(receiver := out.0, boxes := Boxed(w.boxes, out.1)))
  {
    FeedbackEffect(w.receiver, s, now);
    RetargetedWidth(w, s, w.receiver.ReportTarget(s));
  }

  lemma RecordsJoin(sounds: seq<(nat, seq<Byte>)>, played: seq<nat>, buffer: Playout.State, qs: seq<nat>)
    requires buffer.packetFrames > 0 && Recorded(sounds, played, buffer.bytesPerFrame)
    ensures Recorded(sounds + WithBytes(buffer, qs), played + qs, buffer.bytesPerFrame)
  {
  }

  /** A pull writes the same entries to both logs. */
  lemma PullRecords(w: World, s: Id, frames: nat)
    requires AllRecorded(w) && s in w.receiver.mixer.streams && w.receiver.mixer.streams[s].buffer.packetFrames > 0
    requires w.receiver.mixer.streams[s].buffer.bytesPerFrame == FrameBytes(w.receiver.mixer)
    ensures AllRecorded(PulledFrom(w, s, frames))
  {
    var w', l, buffer := PulledFrom(w, s, frames), (w.receiver.epoch, s), w.receiver.mixer.streams[s].buffer;
    var qs := PlayoutRuns.Played(buffer, PlayoutRuns.Op.Pull(frames));
    forall k: Key
      ensures Recorded(SoundsAt(w'.sounded, k), At(w'.played, k), FrameBytes(w'.receiver.mixer))
    {
      assert Recorded(SoundsAt(w.sounded, k), At(w.played, k), FrameBytes(w.receiver.mixer));
      if k == l {
        RecordsJoin(SoundsAt(w.sounded, k), At(w.played, k), buffer, qs);
      }
    }
  }

  lemma PullKeepsWidth(r: Receiver, s: Id, frames: nat)
    requires SameWidth(r.mixer) && s in r.mixer.streams && r.mixer.streams[s].buffer.Valid()
    ensures var m' := Stepped(r, s, PlayoutRuns.Op.Pull(frames)).mixer;
            SameWidth(m') && FrameBytes(m') == FrameBytes(r.mixer)
  {
    var op := PlayoutRuns.Op.Pull(frames);
    WidthUnderBufferStep(r.mixer, Stepped(r, s, op).mixer, s, op);
  }

  lemma PullStaysInStep(w: World, s: Id, frames: nat)
    requires Inv(w) && InStep(w) && s in w.receiver.mixer.streams && w.receiver.mixer.streams[s].buffer.packetFrames > 0
    ensures InStep(PulledFrom(w, s, frames))
  {
    ValidBuffer(w, s);
    PullRecords(w, s, frames);
    PullKeepsWidth(w.receiver, s, frames);
  }

  lemma SendingStaysInStep(w: World, event: Event)
    requires Enabled(w, event) && InStep(w) && Sends(event)
    ensures InStep(Next(w, event))
  {
    OthersStayInStep(w, Next(w, event));
  }

  lemma ExpiryKeepsWidth(m: Mixer, maxIdle: nat, now: nat)
    requires SameWidth(m)
    ensures SameWidth(m.Expired(maxIdle, now)) && FrameBytes(m.Expired(maxIdle, now)) == FrameBytes(m)
  {
  }

  /** Expiry, settings and listeners. */
  lemma LocalStaysInStep(w: World, event: Event)
    requires Inv(w) && Enabled(w, event) && InStep(w) && Receives(event) && !event.Arrive?
    ensures InStep(Next(w, event))
  {
    match event
    case Expire(maxIdle, now) =>
      ExpiryKeepsWidth(w.receiver.mixer, maxIdle, now);
      OthersStayInStep(w, Next(w, event));
    case Retarget(s, packets) =>
      RetargetedWidth(w, s, packets);
      OthersStayInStep(w, Next(w, event));
    case SetDefault(_) => OthersStayInStep(w, Next(w, event));
    case Pull(s, frames) =>
      if s in w.receiver.mixer.streams && w.receiver.mixer.streams[s].buffer.packetFrames > 0 {
        PullStaysInStep(w, s, frames);
      }
  }

  lemma StepStaysInStep(w: World, event: Event)
    requires Inv(w) && Enabled(w, event) && InStep(w)
    ensures InStep(Next(w, event))
  {
    if Sends(event) {
      SendingStaysInStep(w, event);
    } else if event.Arrive? {
      ArrivalStaysInStep(w, event.d, event.src, event.now, event.nextEpoch);
    } else if Receives(event) {
      LocalStaysInStep(w, event);
    } else {
      match event
      case Bind(_, _) =>
      case ArriveReport(_, _) =>
      case Report(s, now) => ReportStaysInStep(w, s, now);
    }
  }

  /** After any run, what was sounded is what was played, frame by frame, and each frame is whole. */
  lemma {:induction false} SoundedWasPlayed(w: World, events: seq<Event>)
    requires Initial(w) && Runs(w, events)
    ensures InStep(After(w, events))
    decreases |events|
  {
    if events != [] {
      var before := events[..|events| - 1];
      SoundedWasPlayed(w, before);
      WorldTheorems.RunKeepsInv(w, before);
      StepStaysInStep(After(w, before), events[|events| - 1]);
    }
  }
}
