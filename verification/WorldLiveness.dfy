/** What gets through: the receiver does not refuse what it should play. */
module WorldLiveness {
  import opened Bytes
  import opened ReceiverModel
  import opened Secure
  import opened Wire
  import opened World
  import opened WorldInvariant
  import opened WorldSafety
  import Codec
  import Replay
  import SenderModel
  import WorldSenders
  import WorldTheorems

  /** An untouched audio packet of an active session that has a stream reaches its buffer exactly if its counter is
      fresh. */
  lemma PushedIffFresh(r: Receiver, p: Packet, src: nat, now: nat, nextEpoch: Id)
    requires IsAudio(p) && p.epoch == r.epoch && p.counter > 0 && Chunk(p.body).Some?
    requires p.session in r.peers && r.peers[p.session].active && p.session in r.mixer.streams
    ensures r.Handle(Carrying(p), src, now, nextEpoch).pushed
            == if Replay.Fresh(r.peers[p.session].accepted, WINDOW, p.counter) then Some(SeqOf(p.body)) else None
  {
  }

  /** Every counter that a session has used up was sealed under its key. */
  ghost predicate AcceptedOk(boxes: seq<Packet>, peers: Peers, epoch: Id)
  {
    forall s, c | s in peers && c in peers[s].accepted :: WorldTheorems.Used(boxes, epoch, s, c)
  }

  ghost predicate Honoured(w: World)
  {
    AcceptedOk(w.boxes, w.receiver.peers, w.receiver.epoch)
  }

  /** What a datagram does to the counters used up: at most its own joins, for its own session. */
  ghost predicate AcceptedStep(peers: Peers, peers': Peers, session: Id, counter: nat)
  {
    forall s, c | s in peers' && c in peers'[s].accepted ::
      (s in peers && c in peers[s].accepted) || (s == session && c == counter)
  }

  lemma AdmitAccepts(r: Receiver, d: Datagram, src: nat, now: nat, nextEpoch: Id)
    requires d.Datagram? && d.session !in r.peers
    ensures var r' := r.Admit(d, src, now, nextEpoch);
            && AcceptedStep(r.peers, r'.peers, d.session, d.counter)
            && (OpenBox(ToReceiver, r.epoch, d.session, d).None? ==> r'.peers == r.peers)
  {
  }

  lemma DispatchAccepts(r: Receiver, session: Id, kind: Byte, body: seq<Byte>, now: nat, counter: nat)
    requires session in r.peers
    ensures AcceptedStep(r.peers, r.Dispatch(session, kind, body, now).receiver.peers, session, counter)
  {
  }

  lemma HandleAccepts(r: Receiver, d: Datagram, src: nat, now: nat, nextEpoch: Id)
    requires d.Datagram?
    ensures var r' := r.Handle(d, src, now, nextEpoch).receiver;
            && AcceptedStep(r.peers, r'.peers, d.session, d.counter)
            && (OpenBox(ToReceiver, r.epoch, d.session, d).None? ==> r'.peers == r.peers)
  {
    if d.epoch == r.epoch && d.counter > 0 {
      if d.session in r.peers {
        var contents := OpenBox(ToReceiver, r.epoch, d.session, d);
        if contents.Some? {
          DispatchAccepts(r.Noted(d.session, d.counter, src), d.session, d.kind, contents.value, now, d.counter);
        }
      } else {
        AdmitAccepts(r, d, src, now, nextEpoch);
      }
    }
  }

  lemma ArrivalStaysHonoured(w: World, d: Datagram, src: nat, now: nat, nextEpoch: Id)
    requires Honoured(w) && Inv(w) && Possible(w.boxes, d) && d.Datagram?
    ensures var r' := w.receiver.Handle(d, src, now, nextEpoch).receiver;
            AcceptedOk(w.boxes, r'.peers, r'.epoch)
  {
    var r, r' := w.receiver, w.receiver.Handle(d, src, now, nextEpoch).receiver;
    InvBuffersRun(w);
    HandleEffect(r, d, src, now, nextEpoch);
    HandleAccepts(r, d, src, now, nextEpoch);
    if OpenBox(ToReceiver, r.epoch, d.session, d).Some? {
      WorldSenders.OpenedWasSealed(w.boxes, ToReceiver, r.epoch, d.session, d);
      assert WorldTheorems.Used(w.boxes, r.epoch, d.session, d.counter);
    }
  }

  lemma HonouredUnderMoreBoxes(boxes: seq<Packet>, p: Packet, peers: Peers, epoch: Id)
    requires AcceptedOk(boxes, peers, epoch)
    ensures AcceptedOk(boxes + [p], peers, epoch)
  {
    forall s, c | s in peers && c in peers[s].accepted
      ensures WorldTheorems.Used(boxes + [p], epoch, s, c)
    {
      WorldTheorems.UsedStays(boxes, [p], epoch, s, c);
    }
  }

  lemma BoxedStaysHonoured(boxes: seq<Packet>, p: Option<Packet>, peers: Peers, epoch: Id)
    requires AcceptedOk(boxes, peers, epoch)
    ensures AcceptedOk(Boxed(boxes, p), peers, epoch)
  {
    if p.Some? {
      HonouredUnderMoreBoxes(boxes, p.value, peers, epoch);
    }
  }

  lemma SendStaysHonoured(w: World, event: Event)
    requires Inv(w) && Enabled(w, event) && Honoured(w) && Sends(event)
    ensures Honoured(Next(w, event))
  {
    var s, out := WorldSenders.SendingSeals(w, event);
    BoxedStaysHonoured(w.boxes, out.1, w.receiver.peers, w.receiver.epoch);
  }

  lemma ExpiryStaysHonoured(boxes: seq<Packet>, r: Receiver, maxIdle: nat, now: nat)
    requires AcceptedOk(boxes, r.peers, r.epoch)
    ensures AcceptedOk(boxes, r.Expire(maxIdle, now).peers, r.epoch)
  {
  }

  /** Expiry, settings and listeners. */
  lemma LocalStaysHonoured(w: World, event: Event)
    requires Honoured(w) && Receives(event) && !event.Arrive?
    ensures Honoured(Next(w, event))
  {
    match event
    case Expire(maxIdle, now) => ExpiryStaysHonoured(w.boxes, w.receiver, maxIdle, now);
    case Retarget(_, _) =>
    case SetDefault(_) =>
    case Pull(_, _) =>
  }

  lemma ReceivingStaysHonoured(w: World, event: Event)
    requires Inv(w) && Enabled(w, event) && Honoured(w) && Receives(event)
    ensures Honoured(Next(w, event))
  {
    if !event.Arrive? {
      LocalStaysHonoured(w, event);
    } else if event.d.Datagram? {
      ArrivalStaysHonoured(w, event.d, event.src, event.now, event.nextEpoch);
    }
  }

  lemma ReportStaysHonoured(w: World, s: Id, now: nat)
    requires Honoured(w)
    ensures var out := w.receiver.Feedback(s, now);
            AcceptedOk(Boxed(w.boxes, out.1), out.0.peers, w.receiver.epoch)
  {
    var out := w.receiver.Feedback(s, now);
    BoxedStaysHonoured(w.boxes, out.1, out.0.peers, w.receiver.epoch);
  }

  lemma StepStaysHonoured(w: World, event: Event)
    requires Inv(w) && Enabled(w, event) && Honoured(w)
    ensures Honoured(Next(w, event))
  {
    if Sends(event) {
      SendStaysHonoured(w, event);
    } else if Receives(event) {
      ReceivingStaysHonoured(w, event);
    } else {
      match event
      case Bind(_, _) =>
      case ArriveReport(_, _) =>
      case Report(s, now) => ReportStaysHonoured(w, s, now);
    }
  }

  lemma {:induction false} RunStaysHonoured(w: World, events: seq<Event>)
    requires Initial(w) && Runs(w, events)
    ensures Honoured(After(w, events))
    decreases |events|
  {
    if events != [] {
      RunStaysHonoured(w, events[..|events| - 1]);
      WorldTheorems.RunKeepsInv(w, events[..|events| - 1]);
      StepStaysHonoured(After(w, events[..|events| - 1]), events[|events| - 1]);
    }
  }

  /** The counter after all that a session has sealed is fresh. */
  lemma NextCounterIsFresh(w: World, s: Id)
    requires Inv(w) && Honoured(w) && s in w.senders && w.senders[s].epoch == Some(w.receiver.epoch) && s in w.receiver.peers
    ensures Replay.Fresh(w.receiver.peers[s].accepted, WINDOW, w.senders[s].counter + 1)
  {
    var accepted := w.receiver.peers[s].accepted;
    forall c | c in accepted
      ensures c <= w.senders[s].counter
    {
      assert WorldTheorems.Used(w.boxes, w.receiver.epoch, s, c);
      var p :| p in w.boxes && p.direction == ToReceiver && p.epoch == w.receiver.epoch && p.session == s && p.counter == c;
      assert SentOk(p, w.senders, w.bound);
    }
    assert Replay.IsLargest(accepted, Replay.Largest(accepted));
  }

  /** The session is bound to the receiver's epoch, active, and has a stream. */
  ghost predicate Connected(w: World, s: Id)
  {
    && s in w.senders && w.senders[s].epoch == Some(w.receiver.epoch) && w.senders[s].counter < U64_MAX
    && s in w.receiver.peers && w.receiver.peers[s].active && s in w.receiver.mixer.streams
  }

  /** The next audio packet of a sender, if the codec takes the chunk. */
  ghost predicate IsNextAudio(sender: SenderModel.Sender, p: Packet)
  {
    && IsAudio(p) && sender.epoch == Some(p.epoch) && p.session == sender.session && p.counter == sender.counter + 1
    && Chunk(p.body).Some? && SeqOf(p.body) == sender.audioSeq + 1
  }

  lemma AudioIsNext(sender: SenderModel.Sender, codec: Byte, bufferMs: UInt16, pcm: seq<Byte>, nowUs: UInt64)
    requires sender.epoch.Some? && sender.counter < U64_MAX && sender.audioSeq <= sender.counter
    requires Codec.Payload(codec, pcm).Some?
    ensures var p := sender.Audio(codec, bufferMs, pcm, nowUs).1;
            p.Some? && IsNextAudio(sender, p.value)
  {
    WorldTheorems.CapturedIsHeard(sender, codec, bufferMs, pcm, nowUs);
    SenderModel.AudioCarries(sender, codec, bufferMs, pcm, nowUs);
  }

  lemma NextIsPushed(w: World, s: Id, p: Packet, src: nat, now: nat, nextEpoch: Id)
    requires Inv(w) && Honoured(w) && Connected(w, s) && IsNextAudio(w.senders[s], p)
    ensures w.receiver.Handle(Carrying(p), src, now, nextEpoch).pushed == Some(SeqOf(p.body))
  {
    WorldSenders.SenderCounters(w, s);
    NextCounterIsFresh(w, s);
    PushedIffFresh(w.receiver, p, src, now, nextEpoch);
  }

  /** The packet is there, and delivered untouched it reaches the session's buffer under its number. */
  ghost predicate GetsThrough(w: World, p: Option<Packet>, x: nat, src: nat, now: nat, nextEpoch: Id)
  {
    p.Some? && w.receiver.Handle(Carrying(p.value), src, now, nextEpoch).pushed == Some(x)
  }

  lemma NextPacketGetsThrough(w: World, s: Id, p: Option<Packet>, src: nat, now: nat, nextEpoch: Id)
    requires Inv(w) && Honoured(w) && Connected(w, s) && p.Some? && IsNextAudio(w.senders[s], p.value)
    ensures GetsThrough(w, p, w.senders[s].audioSeq + 1, src, now, nextEpoch)
  {
    NextIsPushed(w, s, p.value, src, now, nextEpoch);
  }

  lemma NextAudioIsPushed(w: World, s: Id, codec: Byte, bufferMs: UInt16, pcm: seq<Byte>, nowUs: UInt64,
                          src: nat, now: nat, nextEpoch: Id)
    requires Inv(w) && Honoured(w) && Connected(w, s) && Codec.Payload(codec, pcm).Some?
    ensures GetsThrough(w, w.senders[s].Audio(codec, bufferMs, pcm, nowUs).1, w.senders[s].audioSeq + 1, src, now, nextEpoch)
  {
    var sender := w.senders[s];
    WorldSenders.SenderCounters(w, s);
    AudioIsNext(sender, codec, bufferMs, pcm, nowUs);
    NextPacketGetsThrough(w, s, sender.Audio(codec, bufferMs, pcm, nowUs).1, src, now, nextEpoch);
  }

  lemma RunIsHonoured(w: World, events: seq<Event>, w': World)
    requires Initial(w) && Runs(w, events) && w' == After(w, events)
    ensures Inv(w') && Honoured(w')
  {
    WorldTheorems.RunKeepsInv(w, events);
    RunStaysHonoured(w, events);
  }

  /** After any run, the next audio packet of a session that is bound to the receiver's epoch, active and has a stream
      reaches its buffer if it is delivered untouched, whatever the network did before. */
  lemma NextAudioGetsThrough(w: World, events: seq<Event>, w': World, s: Id, codec: Byte, bufferMs: UInt16, pcm: seq<Byte>,
                             nowUs: UInt64, src: nat, now: nat, nextEpoch: Id)
    requires Initial(w) && Runs(w, events) && w' == After(w, events)
    requires Connected(w', s) && Codec.Payload(codec, pcm).Some?
    ensures GetsThrough(w', w'.senders[s].Audio(codec, bufferMs, pcm, nowUs).1, w'.senders[s].audioSeq + 1, src, now, nextEpoch)
  {
    RunIsHonoured(w, events, w');
    NextAudioIsPushed(w', s, codec, bufferMs, pcm, nowUs, src, now, nextEpoch);
  }
}
