/** The buffer that a report asks for: never less than what the sender suggested last. */
module WorldSuggested {
  import opened Bytes
  import opened Wire
  import opened Secure
  import opened PeerStats
  import opened ReceiverModel
  import opened World
  import opened WorldInvariant
  import opened WorldLoss
  import Playout
  import WorldSafety
  import WorldSenders
  import WorldTargets
  import WorldTheorems

  /** The buffer value inside an audio body. */
  function BufferOf(body: seq<Byte>): nat
  {
    match DecodeAudio(body)
    case None => 0
    case Some(audio) => audio.bufferMs
  }

  /** The value is that of the packet counted last; before there was any, it is 20 ms. */
  ghost predicate Suggests(boxes: seq<Packet>, k: Key, log: seq<nat>, ms: nat)
  {
    if log == [] then ms == 20
    else exists p :: p in boxes && Carries(p, k, log[|log| - 1]) && BufferOf(p.body) == ms
  }

  ghost predicate SuggestedOk(boxes: seq<Packet>, counted: Log, peers: Peers, epoch: Id)
  {
    forall s | s in peers :: Suggests(boxes, (epoch, s), At(counted, (epoch, s)), peers[s].stats.suggestedMs)
  }

  ghost predicate Suggested(w: World)
  {
    SuggestedOk(w.boxes, w.counted, w.receiver.peers, w.receiver.epoch)
  }

  ghost predicate SuggestionKept(peers: Peers, peers': Peers, s: Id)
    requires s in peers'
  {
    peers'[s].stats.suggestedMs == if s in peers then peers[s].stats.suggestedMs else 20
  }

  /** A counted packet sets its session's value; nothing else changes any. */
  ghost predicate SuggestionStep(peers: Peers, peers': Peers, session: Id, counted: Option<nat>, body: seq<Byte>)
  {
    && (forall s | s in peers' && (s != session || counted.None?) :: SuggestionKept(peers, peers', s))
    && (counted.Some? && session in peers' ==> peers'[session].stats.suggestedMs == BufferOf(body))
  }

  lemma DispatchSuggests(r: Receiver, session: Id, kind: Byte, body: seq<Byte>, now: nat)
    requires session in r.peers
    ensures var h := r.Dispatch(session, kind, body, now); SuggestionStep(r.peers, h.receiver.peers, session, h.counted, body)
  {
  }

  lemma OpenedSuggests(r: Receiver, session: Id, counter: nat, kind: Byte, body: seq<Byte>, src: nat, now: nat)
    requires session in r.peers
    ensures var h := r.Opened(session, counter, kind, body, src, now);
            SuggestionStep(r.peers, h.receiver.peers, session, h.counted, body)
  {
    DispatchSuggests(r.Noted(session, counter, src), session, kind, body, now);
  }

  lemma AdmitSuggests(r: Receiver, d: Datagram, src: nat, now: nat, nextEpoch: Id)
    requires d.Datagram? && d.session !in r.peers
    ensures var peers' := r.Admit(d, src, now, nextEpoch).peers; forall s | s in peers' :: SuggestionKept(r.peers, peers', s)
  {
  }

  /** What a datagram does: a packet that is counted opened, and it sets the value. */
  ghost predicate SuggestionEffect(r: Receiver, h: Handled, d: Datagram)
  {
    && d.Datagram?
    && var contents := OpenBox(ToReceiver, r.epoch, d.session, d);
       SuggestionStep(r.peers, h.receiver.peers, d.session, h.counted, if contents.Some? then contents.value else [])
  }

  lemma HandleSuggests(r: Receiver, d: Datagram, src: nat, now: nat, nextEpoch: Id)
    requires d.Datagram?
    ensures SuggestionEffect(r, r.Handle(d, src, now, nextEpoch), d)
  {
    if d.epoch == r.epoch && d.counter > 0 {
      if d.session in r.peers {
        var contents := OpenBox(ToReceiver, r.epoch, d.session, d);
        if contents.Some? {
          OpenedSuggests(r, d.session, d.counter, d.kind, contents.value, src, now);
        }
      } else {
        AdmitSuggests(r, d, src, now, nextEpoch);
      }
    }
  }

  lemma SuggestsUnderMoreBoxes(boxes: seq<Packet>, p: Packet, k: Key, log: seq<nat>, ms: nat)
    requires Suggests(boxes, k, log, ms)
    ensures Suggests(boxes + [p], k, log, ms)
  {
    if log != [] {
      var q :| q in boxes && Carries(q, k, log[|log| - 1]) && BufferOf(q.body) == ms;
      assert q in boxes + [p];
    }
  }

  lemma BoxedStaysSuggested(boxes: seq<Packet>, p: Option<Packet>, counted: Log, peers: Peers, epoch: Id)
    requires SuggestedOk(boxes, counted, peers, epoch)
    ensures SuggestedOk(Boxed(boxes, p), counted, peers, epoch)
  {
    if p.Some? {
      forall s | s in peers
        ensures Suggests(boxes + [p.value], (epoch, s), At(counted, (epoch, s)), peers[s].stats.suggestedMs)
      {
        SuggestsUnderMoreBoxes(boxes, p.value, (epoch, s), At(counted, (epoch, s)), peers[s].stats.suggestedMs);
      }
    }
  }

  lemma KeptStaySuggested(w: World, peers': Peers)
    requires Suggested(w) && Tallied(w) && forall s | s in peers' :: SuggestionKept(w.receiver.peers, peers', s)
    ensures SuggestedOk(w.boxes, w.counted, peers', w.receiver.epoch)
  {
    forall s | s in peers'
      ensures Suggests(w.boxes, (w.receiver.epoch, s), At(w.counted, (w.receiver.epoch, s)), peers'[s].stats.suggestedMs)
    {
      if s !in w.receiver.peers {
        NothingCountedFor(w, s);
      }
    }
  }

  lemma CountedIsSuggested(w: World, d: Datagram, h: Handled)
    requires Suggested(w) && Tallied(w) && Possible(w.boxes, d)
    requires SuggestionEffect(w.receiver, h, d) && TallyEffect(w.receiver, h, d) && h.counted.Some?
    ensures SuggestedOk(w.boxes, Logged(w.counted, (w.receiver.epoch, d.session), [h.counted.value]), h.receiver.peers, w.receiver.epoch)
  {
    var k, x := (w.receiver.epoch, d.session), h.counted.value;
    var counted' := Logged(w.counted, k, [x]);
    WorldSenders.OpenedWasSealed(w.boxes, ToReceiver, w.receiver.epoch, d.session, d);
    var body := OpenBox(ToReceiver, w.receiver.epoch, d.session, d).value;
    var p := Packet(ToReceiver, w.receiver.epoch, d.session, d.counter, d.kind, body);
    assert p in w.boxes && Carries(p, k, x);
    forall s | s in h.receiver.peers
      ensures Suggests(w.boxes, (w.receiver.epoch, s), At(counted', (w.receiver.epoch, s)), h.receiver.peers[s].stats.suggestedMs)
    {
      if s == d.session {
        assert At(counted', k)[|At(counted', k)| - 1] == x;
      } else {
        assert (w.receiver.epoch, s) != k;
        if s !in w.receiver.peers {
          NothingCountedFor(w, s);
        }
      }
    }
  }

  lemma EffectStaysSuggested(w: World, d: Datagram, h: Handled)
    requires Inv(w) && Suggested(w) && Tallied(w) && Possible(w.boxes, d)
    requires SuggestionEffect(w.receiver, h, d) && TallyEffect(w.receiver, h, d)
    requires h.receiver.epoch == w.receiver.epoch || h.receiver.peers == map[]
    ensures Suggested(Arrived(w, d.session, h))
  {
    if h.receiver.epoch == w.receiver.epoch {
      ArrivedParts(w, d.session, h);
      if h.counted.Some? {
        CountedIsSuggested(w, d, h);
      } else {
        KeptStaySuggested(w, h.receiver.peers);
      }
    }
  }

  lemma ArrivalStaysSuggested(w: World, d: Datagram, src: nat, now: nat, nextEpoch: Id)
    requires Inv(w) && Suggested(w) && Tallied(w) && Possible(w.boxes, d) && d.Datagram?
    ensures Suggested(Arrived(w, d.session, w.receiver.Handle(d, src, now, nextEpoch)))
  {
    WorldSafety.InvBuffersRun(w);
    WorldSafety.HandleEffect(w.receiver, d, src, now, nextEpoch);
    HandleSuggests(w.receiver, d, src, now, nextEpoch);
    HandleTallies(w.receiver, d, src, now, nextEpoch);
    EffectStaysSuggested(w, d, w.receiver.Handle(d, src, now, nextEpoch));
  }

  lemma ReportStaysSuggested(w: World, s: Id, now: nat)
    requires Suggested(w)
    ensures var out := w.receiver.Feedback(s, now);
            SuggestedOk(Boxed(w.boxes, out.1), w.counted, out.0.peers, w.receiver.epoch)
  {
    BoxedStaysSuggested(w.boxes, w.receiver.Feedback(s, now).1, w.counted, w.receiver.Feedback(s, now).0.peers, w.receiver.epoch);
  }

  lemma SendStaysSuggested(w: World, event: Event)
    requires Inv(w) && Enabled(w, event) && Suggested(w) && Sends(event)
    ensures Suggested(Next(w, event))
  {
    var s, out := WorldSenders.SendingSeals(w, event);
    BoxedStaysSuggested(w.boxes, out.1, w.counted, w.receiver.peers, w.receiver.epoch);
  }

  /** Expiry, settings and listeners, and what senders do without sealing. */
  lemma OtherStaysSuggested(w: World, event: Event)
    requires Enabled(w, event) && Suggested(w) && !Sends(event) && !event.Arrive? && !event.Report?
    ensures Suggested(Next(w, event))
  {
  }

  lemma UnparsableStaysSuggested(w: World)
    requires Suggested(w)
    ensures Suggested(w.(receiver := w.receiver.Rejected()))
  {
  }

  lemma StepStaysSuggested(w: World, event: Event)
    requires Inv(w) && Enabled(w, event) && Suggested(w) && Tallied(w)
    ensures Suggested(Next(w, event))
  {
    if Sends(event) {
      SendStaysSuggested(w, event);
    } else if event.Report? {
      ReportStaysSuggested(w, event.session, event.now);
    } else if !event.Arrive? {
      OtherStaysSuggested(w, event);
    } else if event.d.Datagram? {
      ArrivalStaysSuggested(w, event.d, event.src, event.now, event.nextEpoch);
    } else {
      UnparsableStaysSuggested(w);
    }
  }

  lemma {:induction false} RunStaysSuggested(w: World, events: seq<Event>)
    requires Initial(w) && Runs(w, events)
    ensures Suggested(After(w, events))
    decreases |events|
  {
    if events != [] {
      var before := events[..|events| - 1];
      RunStaysSuggested(w, before);
      RunStaysTallied(w, before);
      WorldTheorems.RunKeepsInv(w, before);
      StepStaysSuggested(After(w, before), events[|events| - 1]);
    }
  }

  /** The report asks for the larger of the receiver's own target and the sender's value, 150 ms at most, and the stream is set
      to it: enough packets for both. */
  lemma ReportAsksForTheLarger(r: Receiver, s: Id, now: nat)
    requires WorldTargets.TargetsOk(r.peers) && r.Feedback(s, now).1.Some?
    ensures var (r', out), suggested := r.Feedback(s, now), Min(150, r.peers[s].stats.suggestedMs);
            var f := DecodeFeedback(out.value.body);
            && f.Some? && s in r'.peers
            && f.value.bufferMs == Max(suggested, r'.peers[s].stats.local.targetMs)
            && (s in r.mixer.streams ==>
                  s in r'.mixer.streams && r'.mixer.streams[s].buffer.target == Playout.PacketsFor(f.value.bufferMs))
  {
    var starvations := r.mixer.Starvations(s);
    TargetIsTheLarger(r.peers[s].stats, starvations);
    FeedbackRoundTrip(r.peers[s].stats.AfterReport(starvations).Report(starvations, now));
  }

  /** After any run, whatever the network did: a report asks for no less than what the audio packet that the receiver counted
      last suggests, or the 20 ms it begins with, and for no more unless its own target is larger. */
  lemma ReportsHeedTheSender(w: World, events: seq<Event>, w': World, s: Id, now: nat)
    requires Initial(w) && Runs(w, events) && w' == After(w, events) && w'.receiver.Feedback(s, now).1.Some?
    ensures s in w'.receiver.peers
    ensures var (r', out), ms, k := w'.receiver.Feedback(s, now), w'.receiver.peers[s].stats.suggestedMs, (w'.receiver.epoch, s);
            var f := DecodeFeedback(out.value.body);
            && Suggests(w'.boxes, k, At(w'.counted, k), ms)
            && f.Some? && s in r'.peers && f.value.bufferMs == Max(Min(150, ms), r'.peers[s].stats.local.targetMs)
            && (s in w'.receiver.mixer.streams ==>
                  s in r'.mixer.streams && r'.mixer.streams[s].buffer.target == Playout.PacketsFor(f.value.bufferMs))
  {
    RunStaysSuggested(w, events);
    WorldTargets.RunKeepsTargets(w, events);
    ReportAsksForTheLarger(w'.receiver, s, now);
  }
}
