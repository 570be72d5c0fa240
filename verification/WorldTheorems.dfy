/** What holds after every run of the world, whatever the network does. */
module WorldTheorems {
  import opened Bytes
  import opened Wire
  import opened Secure
  import opened ReceiverModel
  import SenderModel
  import Utf8
  import Codec
  import PlayoutRuns
  import opened World
  import opened WorldInvariant
  import WorldSenders
  import opened WorldSafety

  lemma {:induction false} RunKeepsInv(w: World, events: seq<Event>)
    requires Initial(w) && Runs(w, events)
    ensures Inv(After(w, events))
    decreases |events|
  {
    if events == [] {
      InitialInv(w);
    } else {
      RunKeepsInv(w, events[..|events| - 1]);
      StepKeepsInv(After(w, events[..|events| - 1]), events[|events| - 1]);
    }
  }

  /** Each audio sequence number of an epoch and a session is handed to a jitter buffer at most once, and only if it was
      sealed by that session while bound to that epoch: across drops, repeats, reordering, forgery, expiry, resumption
      and epoch changes. */
  lemma EachNumberArrivesOnce(w: World, events: seq<Event>, k: Key)
    requires Initial(w) && Runs(w, events)
    ensures var w' := After(w, events);
            && PlayoutRuns.Distinct(At(w'.pushed, k))
            && forall x | x in At(w'.pushed, k) :: Authentic(w'.boxes, k, x) && k in w'.bound && k.1 in w'.senders
  {
    RunKeepsInv(w, events);
    var w' := After(w, events);
    if k in w'.pushed {
      assert PushedAt(w'.boxes, k, w'.pushed[k], w'.receiver.peers, w'.receiver.epoch, w'.used);
      forall x | x in w'.pushed[k]
        ensures k in w'.bound && k.1 in w'.senders
      {
        var p :| p in w'.boxes && Carries(p, k, x);
        assert SentOk(p, w'.senders, w'.bound);
      }
    }
  }

  /** No frame of an epoch and a session is played twice, and every frame played belongs to a packet that arrived: across
      starvations, streams closed and opened again, and epoch changes. */
  lemma NoFrameIsEmittedTwice(w: World, events: seq<Event>, k: Key)
    requires Initial(w) && Runs(w, events)
    ensures var w' := After(w, events);
            && PlayoutRuns.Distinct(At(w'.played, k))
            && forall q | q in At(w'.played, k) :: q / PacketFrames(w'.receiver.mixer) in At(w'.pushed, k)
  {
    RunKeepsInv(w, events);
    var w' := After(w, events);
    if k in w'.played {
      assert PlayedAt(w'.played[k], At(w'.pushed, k), PacketFrames(w'.receiver.mixer));
    }
  }

  /** Under one key no counter is sealed twice, in either direction; counters and audio sequence numbers only go up. */
  lemma NoCounterIsSealedTwice(w: World, events: seq<Event>, i: nat, j: nat)
    requires Initial(w) && Runs(w, events) && i < j < |After(w, events).boxes|
    ensures var boxes := After(w, events).boxes;
            SameSecret(boxes[i], boxes[j]) ==>
              && boxes[i].counter < boxes[j].counter
              && (IsAudio(boxes[i]) && IsAudio(boxes[j]) ==> SeqOf(boxes[i].body) < SeqOf(boxes[j].body))
  {
    RunKeepsInv(w, events);
    assert Ordered(After(w, events).boxes[i], After(w, events).boxes[j]);
  }

  /** The history stays within its cap, the mixer within eight streams, and every stream belongs to an active peer. */
  lemma TableStaysBounded(w: World, events: seq<Event>)
    requires Initial(w) && Runs(w, events)
    ensures var r := After(w, events).receiver;
            && |r.peers| <= r.historyCap && |r.mixer.streams| <= MAX_STREAMS
            && forall s | s in r.mixer.streams :: s in r.peers && r.peers[s].active
  {
    RunKeepsInv(w, events);
  }

  /** A sender obeys each feedback counter of an epoch at most once, and only feedback that the receiver sealed for it. */
  lemma FeedbackIsObeyedOnce(w: World, events: seq<Event>, k: Key)
    requires Initial(w) && Runs(w, events)
    ensures var w' := After(w, events);
            && PlayoutRuns.Distinct(At(w'.obeyed, k))
            && forall c | c in At(w'.obeyed, k) ::
                 exists p :: p in w'.boxes && p == Packet(ToSender, k.0, k.1, c, KIND_FEEDBACK, p.body)
  {
    RunKeepsInv(w, events);
    var w' := After(w, events);
    if k in w'.obeyed {
      assert ObeyedAt(w'.boxes, k, w'.obeyed[k], w'.senders, w'.bound);
    }
  }

  /** What the receiver makes of an audio packet is what the codec makes of the captured chunk; with PCM, the chunk. */
  lemma CapturedIsHeard(s: SenderModel.Sender, codec: Byte, bufferMs: UInt16, pcm: seq<Byte>, nowUs: UInt64)
    requires s.epoch.Some? && s.counter < U64_MAX && s.audioSeq < U64_MAX && Codec.Payload(codec, pcm).Some?
    ensures var p := s.Audio(codec, bufferMs, pcm, nowUs).1;
            && p.Some? && OpenBox(ToReceiver, s.epoch.value, s.session, Carrying(p.value)) == Some(p.value.body)
            && Codec.Pcm(codec, Codec.Payload(codec, pcm).value).Some?
            && Chunk(p.value.body) == Some((s.audioSeq + 1, Codec.Pcm(codec, Codec.Payload(codec, pcm).value).value))
            && (codec == Codec.CODEC_PCM ==> Chunk(p.value.body) == Some((s.audioSeq + 1, pcm)))
  {
    SenderModel.AudioCarries(s, codec, bufferMs, pcm, nowUs);
    Codec.EveryCodecIsAProjection(codec, pcm);
  }

  // When a counter repeats: the condition that the runs above rule out.

  ghost predicate Used(boxes: seq<Packet>, e: Id, s: Id, counter: nat)
  {
    exists p :: p in boxes && p.direction == ToReceiver && p.epoch == e && p.session == s && p.counter == counter
  }

  ghost predicate EverUsed(boxes: seq<Packet>, e: Id, s: Id)
  {
    exists p :: p in boxes && p.direction == ToReceiver && p.epoch == e && p.session == s
  }

  /** Senders use their counters without gaps, from 1 on. */
  ghost predicate Gapless(boxes: seq<Packet>, senders: Senders)
  {
    && (forall s | s in senders && senders[s].epoch.Some? ::
          forall n | 1 <= n <= senders[s].counter :: Used(boxes, senders[s].epoch.value, s, n))
    && (forall p | p in boxes && p.direction == ToReceiver :: Used(boxes, p.epoch, p.session, 1))
  }

  lemma UsedStays(boxes: seq<Packet>, more: seq<Packet>, e: Id, s: Id, n: nat)
    requires Used(boxes, e, s, n)
    ensures Used(boxes + more, e, s, n)
  {
    var p :| p in boxes && p.direction == ToReceiver && p.epoch == e && p.session == s && p.counter == n;
    assert p in boxes + more;
  }

  lemma GaplessSealed(boxes: seq<Packet>, senders: Senders, s: Id, sender': SenderModel.Sender, p: Packet)
    requires Gapless(boxes, senders) && s in senders && senders[s].session == s
    requires WorldSenders.Sealed(senders[s], sender', p)
    ensures Gapless(boxes + [p], senders[s := sender'])
  {
    var boxes', senders', e := boxes + [p], senders[s := sender'], sender'.epoch.value;
    assert p in boxes' && p.epoch == e && p.session == s;
    forall t, n | t in senders' && senders'[t].epoch.Some? && 1 <= n <= senders'[t].counter
      ensures Used(boxes', senders'[t].epoch.value, t, n)
    {
      if t != s || n <= senders[s].counter {
        UsedStays(boxes, [p], senders'[t].epoch.value, t, n);
      }
    }
    forall q | q in boxes' && q.direction == ToReceiver
      ensures Used(boxes', q.epoch, q.session, 1)
    {
      if q in boxes {
        UsedStays(boxes, [p], q.epoch, q.session, 1);
      } else {
        assert Used(boxes', senders'[s].epoch.value, s, 1);
      }
    }
  }

  lemma GaplessReported(boxes: seq<Packet>, senders: Senders, p: Packet)
    requires Gapless(boxes, senders) && p.direction == ToSender
    ensures Gapless(boxes + [p], senders)
  {
    forall t, n | t in senders && senders[t].epoch.Some? && 1 <= n <= senders[t].counter
      ensures Used(boxes + [p], senders[t].epoch.value, t, n)
    {
      UsedStays(boxes, [p], senders[t].epoch.value, t, n);
    }
    forall q | q in boxes + [p] && q.direction == ToReceiver
      ensures Used(boxes + [p], q.epoch, q.session, 1)
    {
      UsedStays(boxes, [p], q.epoch, q.session, 1);
    }
  }

  lemma GaplessSent(w: World, s: Id, out: (SenderModel.Sender, Option<Packet>))
    requires Gapless(w.boxes, w.senders) && s in w.senders && w.senders[s].session == s
    requires out.1.Some? ==> WorldSenders.Sealed(w.senders[s], out.0, out.1.value)
    requires out.1.None? ==> out.0 == w.senders[s]
    ensures Gapless(Sent(w, s, out).boxes, Sent(w, s, out).senders)
  {
    if out.1.Some? {
      GaplessSealed(w.boxes, w.senders, s, out.0, out.1.value);
    } else {
      WorldSenders.NothingSent(w, s);
    }
  }

  lemma GaplessBound(boxes: seq<Packet>, senders: Senders, s: Id, e: Id)
    requires Gapless(boxes, senders) && s in senders
    ensures Gapless(boxes, senders[s := senders[s].Bind(e)])
  {
  }

  lemma GaplessObeying(boxes: seq<Packet>, senders: Senders, s: Id, d: Datagram)
    requires Gapless(boxes, senders) && s in senders
    ensures Gapless(boxes, senders[s := senders[s].Feedback(d).0])
  {
    assert senders[s].Feedback(d).0.epoch == senders[s].epoch && senders[s].Feedback(d).0.counter == senders[s].counter;
  }

  lemma SendKeepsGapless(w: World, event: Event)
    requires Inv(w) && Enabled(w, event) && Gapless(w.boxes, w.senders) && Sends(event)
    ensures Gapless(Next(w, event).boxes, Next(w, event).senders)
  {
    var s, out := WorldSenders.SendingSeals(w, event);
    GaplessSent(w, s, out);
  }

  lemma ReportKeepsGapless(w: World, s: Id, now: nat)
    requires Gapless(w.boxes, w.senders) && s in w.receiver.peers && w.receiver.peers[s].sendCounter < U64_MAX
    ensures Gapless(Boxed(w.boxes, w.receiver.Feedback(s, now).1), w.senders)
  {
    FeedbackEffect(w.receiver, s, now);
    var p := w.receiver.Feedback(s, now).1;
    if p.Some? {
      GaplessReported(w.boxes, w.senders, p.value);
    }
  }

  lemma ReceivingSealsNothing(w: World, event: Event)
    requires Enabled(w, event) && Receives(event)
    ensures (Next(w, event).boxes, Next(w, event).senders) == (w.boxes, w.senders)
  {
    match event
    case Arrive(d, src, now, nextEpoch) =>
      assert d.Unparsable? || Next(w, event) == Arrived(w, d.session, w.receiver.Handle(d, src, now, nextEpoch));
    case _ =>
  }

  lemma StepKeepsGapless(w: World, event: Event)
    requires Inv(w) && Enabled(w, event) && Gapless(w.boxes, w.senders)
    ensures Gapless(Next(w, event).boxes, Next(w, event).senders)
  {
    if Sends(event) {
      SendKeepsGapless(w, event);
    } else if Receives(event) {
      ReceivingSealsNothing(w, event);
    } else {
      match event
      case Bind(s, e) => GaplessBound(w.boxes, w.senders, s, e);
      case ArriveReport(s, d) => GaplessObeying(w.boxes, w.senders, s, d);
      case Report(s, now) => ReportKeepsGapless(w, s, now);
    }
  }

  lemma {:induction false} RunKeepsGapless(w: World, events: seq<Event>)
    requires Initial(w) && Runs(w, events)
    ensures Gapless(After(w, events).boxes, After(w, events).senders)
    decreases |events|
  {
    if events != [] {
      RunKeepsGapless(w, events[..|events| - 1]);
      RunKeepsInv(w, events[..|events| - 1]);
      StepKeepsGapless(After(w, events[..|events| - 1]), events[|events| - 1]);
    }
  }

  lemma Utf8Fits(name: seq<Utf8.Scalar>)
    ensures |EncodeHello(name)| <= 1 + MAX_NAME_BYTES
  {
    HelloRoundTrip(name);
  }

  /** Binding to an epoch and sealing repeats a counter under its key exactly if the epoch is not the bound one and the
      session has sealed under it before, or it is the bound one and the counter has reached the end of 64 bits. */
  lemma RebindingRepeatsIff(w: World, events: seq<Event>, s: Id, e: Id, name: seq<Utf8.Scalar>)
    requires Initial(w) && Runs(w, events) && s in w.senders
    requires s in After(w, events).senders
    ensures var w' := After(w, events);
            var sender := w'.senders[s];
            var p := sender.Bind(e).Hello(name).1;
            && p.Some? && p.value.epoch == e && p.value.session == s
            && (Used(w'.boxes, e, s, p.value.counter)
                <==> if sender.epoch == Some(e) then sender.counter == U64_MAX else EverUsed(w'.boxes, e, s))
  {
    RunKeepsInv(w, events);
    RunKeepsGapless(w, events);
    var w' := After(w, events);
    var sender := w'.senders[s];
    assert SenderOk(s, sender, w'.bound);
    Utf8Fits(name);
    forall p | p in w'.boxes
      ensures SentOk(p, w'.senders, w'.bound)
    {
    }
  }

  /** The shortest run that repeats one: away from an epoch and back. */
  lemma ThereAndBackRepeats(s: SenderModel.Sender, e: Id, f: Id, name: seq<Utf8.Scalar>, other: seq<Utf8.Scalar>)
    requires s.epoch.None? && e != f
    ensures var (s', p) := s.Bind(e).Hello(name);
            var q := s'.Bind(f).Bind(e).Hello(other).1;
            p.Some? && q.Some? && SameSecret(p.value, q.value) && p.value.counter == q.value.counter
  {
    Utf8Fits(name);
    Utf8Fits(other);
  }
}
