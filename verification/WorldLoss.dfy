/** The statistics that feedback reports, against what arrived. */
module WorldLoss {
  import opened Bytes
  import opened LossMeter
  import opened ReceiverModel
  import opened Secure
  import opened Wire
  import opened World
  import opened WorldInvariant
  import opened WorldReceiver
  import opened WorldSafety
  import PlayoutRuns
  import SenderModel
  import WorldSenders
  import WorldTheorems

  /** The tally counts each number of a history once. */
  ghost predicate Counts(t: Tally, history: seq<nat>)
  {
    t.Sums(history) && t.received == Min(U32_MAX, |history|)
  }

  lemma CountsOn(t: Tally, history: seq<nat>, x: UInt64)
    requires Counts(t, history) && x >= 1 && x !in history
    ensures Counts(t.Observed(x), history + [x])
  {
    TallySumsHistory(t, history, x);
    var u := t.Entered(x);
    OneByOneAdvances(u, Horizon(u.maxAudioSeq));
    if u.lossCursor <= Horizon(u.maxAudioSeq) {
      InBulkAdvances(u, Horizon(u.maxAudioSeq));
    }
  }

  /** What a datagram does to the tallies: one number joins at most one of them, and newcomers start from nothing. */
  ghost predicate TalliesStep(peers: Peers, peers': Peers, session: Id, counted: Option<nat>)
  {
    && (counted.Some? ==> session in peers && counted.value <= U64_MAX)
    && forall s | s in peers' ::
         if s !in peers then peers'[s].stats.tally == NOTHING_YET
         else peers'[s].stats.tally
              == if counted.Some? && s == session then peers[s].stats.tally.Observed(counted.value) else peers[s].stats.tally
  }

  ghost predicate TalliesKept(peers: Peers, peers': Peers)
  {
    forall s | s in peers' ::
      peers'[s].stats.tally == if s in peers then peers[s].stats.tally else NOTHING_YET
  }

  lemma AdmitTallies(r: Receiver, d: Datagram, src: nat, now: nat, nextEpoch: Id)
    requires d.Datagram? && d.session !in r.peers
    ensures TalliesKept(r.peers, r.Admit(d, src, now, nextEpoch).peers)
  {
  }

  lemma PlayTallies(r: Receiver, session: Id, body: seq<Byte>, now: nat)
    requires session in r.peers
    ensures var h := r.Play(session, body, now);
            && TalliesStep(r.peers, h.receiver.peers, session, h.counted)
            && (h.counted.Some? ==> SeqOf(body) == h.counted.value)
            && h.receiver.peers.Keys == r.peers.Keys
  {
  }

  lemma DispatchTallies(r: Receiver, session: Id, kind: Byte, body: seq<Byte>, now: nat)
    requires session in r.peers
    ensures var h := r.Dispatch(session, kind, body, now);
            && TalliesStep(r.peers, h.receiver.peers, session, h.counted)
            && (h.counted.Some? ==> kind == KIND_AUDIO && SeqOf(body) == h.counted.value)
            && h.receiver.peers.Keys == r.peers.Keys
  {
    if kind == KIND_AUDIO {
      PlayTallies(r, session, body, now);
    }
  }

  /** The counter was new to the session, and is used up now. */
  ghost predicate UsesUp(r: Receiver, r': Receiver, session: Id, counter: nat)
  {
    && session in r.peers && session in r'.peers
    && counter !in r.peers[session].accepted && counter in r'.peers[session].accepted
  }

  lemma DispatchKeepsAccepted(r: Receiver, session: Id, kind: Byte, body: seq<Byte>, now: nat)
    requires session in r.peers
    ensures var r' := r.Dispatch(session, kind, body, now).receiver;
            session in r'.peers && r'.peers[session].accepted == r.peers[session].accepted
  {
  }

  lemma OpenedTallies(r: Receiver, session: Id, counter: nat, kind: Byte, body: seq<Byte>, src: nat, now: nat)
    requires session in r.peers
    ensures var h := r.Opened(session, counter, kind, body, src, now);
            && TalliesStep(r.peers, h.receiver.peers, session, h.counted)
            && (h.counted.Some? ==> kind == KIND_AUDIO && SeqOf(body) == h.counted.value
                                    && UsesUp(r, h.receiver, session, counter))
            && h.receiver.peers.Keys == r.peers.Keys
  {
    DispatchTallies(r.Noted(session, counter, src), session, kind, body, now);
    DispatchKeepsAccepted(r.Noted(session, counter, src), session, kind, body, now);
  }

  /** What a datagram did, as far as the tallies are concerned. */
  ghost predicate TallyEffect(r: Receiver, h: Handled, d: Datagram)
  {
    && d.Datagram? && TalliesStep(r.peers, h.receiver.peers, d.session, h.counted)
    && (h.counted.Some? ==>
          && d.kind == KIND_AUDIO && UsesUp(r, h.receiver, d.session, d.counter)
          && OpenBox(ToReceiver, r.epoch, d.session, d).Some?
          && SeqOf(OpenBox(ToReceiver, r.epoch, d.session, d).value) == h.counted.value)
  }

  lemma HandleTallies(r: Receiver, d: Datagram, src: nat, now: nat, nextEpoch: Id)
    requires d.Datagram?
    ensures var h := r.Handle(d, src, now, nextEpoch);
            && TallyEffect(r, h, d)
            && (h.counted.Some? ==> forall s | s in h.receiver.peers :: s in r.peers)
  {
    if d.epoch == r.epoch && d.counter > 0 {
      if d.session in r.peers {
        var contents := OpenBox(ToReceiver, r.epoch, d.session, d);
        if contents.Some? {
          OpenedTallies(r, d.session, d.counter, d.kind, contents.value, src, now);
        }
      } else {
        AdmitTallies(r, d, src, now, nextEpoch);
      }
    }
  }

  /** The numbers counted are authentic and distinct, and each peer's tally counts exactly those of its session. */
  ghost predicate TalliesOk(boxes: seq<Packet>, counted: Log, peers: Peers, epoch: Id, used: set<Id>)
  {
    && PushedOk(boxes, counted, peers, epoch, used)
    && (forall s | s in peers :: Counts(peers[s].stats.tally, At(counted, (epoch, s))))
    && (forall p | p in boxes && IsAudio(p) :: SeqOf(p.body) >= 1)
  }

  ghost predicate Tallied(w: World)
  {
    TalliesOk(w.boxes, w.counted, w.receiver.peers, w.receiver.epoch, w.used)
  }

  lemma TalliedUnderMoreBoxes(w: World, p: Packet)
    requires Tallied(w) && (IsAudio(p) ==> SeqOf(p.body) >= 1)
    ensures TalliesOk(w.boxes + [p], w.counted, w.receiver.peers, w.receiver.epoch, w.used)
  {
    PushedUnderMoreBoxes(w.boxes, p, w.counted, w.receiver.peers, w.receiver.epoch, w.used);
  }

  /** Steps that leave every tally alone. */
  lemma TalliedUnderSameTallies(w: World, peers': Peers)
    requires Tallied(w) && PeersGrow(w.receiver.peers, peers')
    requires forall s | s in peers' :: s in w.receiver.peers && peers'[s].stats.tally == w.receiver.peers[s].stats.tally
    ensures TalliesOk(w.boxes, w.counted, peers', w.receiver.epoch, w.used)
  {
    PushedUnderGrownPeers(w.boxes, w.counted, w.receiver.peers, peers', w.receiver.epoch, w.used);
  }

  lemma CountedIsNew(w: World, r': Receiver, d: Datagram, x: nat)
    requires Inv(w) && Tallied(w) && Possible(w.boxes, d) && d.Datagram? && UsesUp(w.receiver, r', d.session, d.counter)
    requires d.kind == KIND_AUDIO && OpenBox(ToReceiver, w.receiver.epoch, d.session, d).Some?
    requires SeqOf(OpenBox(ToReceiver, w.receiver.epoch, d.session, d).value) == x
    ensures x >= 1 && x !in At(w.counted, (w.receiver.epoch, d.session))
    ensures Consumed(w.boxes, (w.receiver.epoch, d.session), x, r'.peers[d.session].accepted)
  {
    OpenedIsNew(w, d, w.counted, r'.peers[d.session].accepted, x);
  }

  /** A number that joins a tally. */
  lemma CountedStaysTallied(w: World, r': Receiver, session: Id, x: UInt64)
    requires Tallied(w) && w.receiver.epoch in w.used && r'.epoch == w.receiver.epoch && PeersGrow(w.receiver.peers, r'.peers)
    requires TalliesStep(w.receiver.peers, r'.peers, session, Some(x)) && x >= 1
    requires forall s | s in r'.peers :: s in w.receiver.peers
    requires session in w.receiver.peers && x !in At(w.counted, (r'.epoch, session))
    requires Consumed(w.boxes, (r'.epoch, session), x, r'.peers[session].accepted)
    ensures TalliesOk(w.boxes, Logged(w.counted, (r'.epoch, session), [x]), r'.peers, r'.epoch, w.used)
  {
    var k := (r'.epoch, session);
    PushedUnderGrownPeers(w.boxes, w.counted, w.receiver.peers, r'.peers, r'.epoch, w.used);
    PushedGrows(w.boxes, w.counted, r'.peers, r'.epoch, w.used, k, x);
    forall s | s in r'.peers
      ensures Counts(r'.peers[s].stats.tally, At(Logged(w.counted, k, [x]), (r'.epoch, s)))
    {
      if s == session {
        CountsOn(w.receiver.peers[s].stats.tally, At(w.counted, k), x);
      } else {
        assert (r'.epoch, s) != k;
      }
    }
  }

  lemma EmptyOrFirst(xs: seq<nat>)
    ensures xs == [] || xs[0] in xs
  {
  }

  lemma NothingCountedFor(w: World, s: Id)
    requires Tallied(w) && s !in w.receiver.peers
    ensures At(w.counted, (w.receiver.epoch, s)) == []
  {
    var k := (w.receiver.epoch, s);
    EmptyOrFirst(At(w.counted, k));
    if k in w.counted {
      assert PushedAt(w.boxes, k, w.counted[k], w.receiver.peers, w.receiver.epoch, w.used);
    }
  }

  /** Nothing is counted, and newcomers start from nothing. */
  lemma QuietStaysTallied(w: World, r': Receiver)
    requires Tallied(w) && r'.epoch == w.receiver.epoch && PeersGrow(w.receiver.peers, r'.peers)
    requires TalliesKept(w.receiver.peers, r'.peers)
    ensures TalliesOk(w.boxes, w.counted, r'.peers, r'.epoch, w.used)
  {
    PushedUnderGrownPeers(w.boxes, w.counted, w.receiver.peers, r'.peers, r'.epoch, w.used);
    NothingSums();
    forall s | s in r'.peers
      ensures Counts(r'.peers[s].stats.tally, At(w.counted, (r'.epoch, s)))
    {
      if s !in w.receiver.peers {
        NothingCountedFor(w, s);
      }
    }
  }

  lemma NewNumberStaysTallied(w: World, d: Datagram, h: Handled)
    requires Inv(w) && Tallied(w) && Possible(w.boxes, d) && TallyEffect(w.receiver, h, d) && h.counted.Some?
    requires h.receiver.epoch == w.receiver.epoch && PeersGrow(w.receiver.peers, h.receiver.peers)
    requires forall s | s in h.receiver.peers :: s in w.receiver.peers
    ensures TalliesOk(w.boxes, Logged(w.counted, (w.receiver.epoch, d.session), [h.counted.value]),
                      h.receiver.peers, w.receiver.epoch, w.used)
  {
    CountedIsNew(w, h.receiver, d, h.counted.value);
    CountedStaysTallied(w, h.receiver, d.session, h.counted.value);
  }

  lemma ArrivedParts(w: World, session: Id, h: Handled)
    requires w.receiver.epoch in w.used && h.receiver.epoch == w.receiver.epoch
    ensures var w' := Arrived(w, session, h);
            && w'.boxes == w.boxes && w'.receiver == h.receiver && w'.used == w.used
            && w'.counted == if h.counted.Some? then Logged(w.counted, (w.receiver.epoch, session), [h.counted.value])
                             else w.counted
  {
    assert w.used + {h.receiver.epoch} == w.used;
  }

  lemma CountedArrivalStaysTallied(w: World, d: Datagram, h: Handled)
    requires Inv(w) && Tallied(w) && Possible(w.boxes, d) && TallyEffect(w.receiver, h, d) && h.counted.Some?
    requires h.receiver.epoch == w.receiver.epoch && PeersGrow(w.receiver.peers, h.receiver.peers)
    requires forall s | s in h.receiver.peers :: s in w.receiver.peers
    ensures Tallied(Arrived(w, d.session, h))
  {
    ArrivedParts(w, d.session, h);
    NewNumberStaysTallied(w, d, h);
  }

  lemma QuietArrivalStaysTallied(w: World, session: Id, h: Handled)
    requires Inv(w) && Tallied(w) && h.counted.None? && TalliesStep(w.receiver.peers, h.receiver.peers, session, None)
    requires h.receiver.epoch == w.receiver.epoch && PeersGrow(w.receiver.peers, h.receiver.peers)
    ensures Tallied(Arrived(w, session, h))
  {
    ArrivedParts(w, session, h);
    QuietStaysTallied(w, h.receiver);
  }

  /** A new epoch has no peers, and the numbers counted before it stay authentic and distinct. */
  lemma NewEpochStaysTallied(w: World, r': Receiver)
    requires Tallied(w) && r'.epoch !in w.used && r'.peers == map[]
    ensures TalliesOk(w.boxes, w.counted, r'.peers, r'.epoch, w.used + {r'.epoch})
  {
    forall k | k in w.counted
      ensures PushedAt(w.boxes, k, w.counted[k], r'.peers, r'.epoch, w.used + {r'.epoch})
    {
      assert PushedAt(w.boxes, k, w.counted[k], w.receiver.peers, w.receiver.epoch, w.used);
    }
  }

  lemma HandleStaysTallied(w: World, d: Datagram, h: Handled, nextEpoch: Id)
    requires Inv(w) && Tallied(w) && Possible(w.boxes, d) && nextEpoch !in w.used && TallyEffect(w.receiver, h, d)
    requires (h.receiver.epoch == w.receiver.epoch && PeersGrow(w.receiver.peers, h.receiver.peers))
             || Turned(w.receiver, h.receiver, nextEpoch)
    requires h.counted.Some? ==> forall s | s in h.receiver.peers :: s in w.receiver.peers
    ensures Tallied(Arrived(w, d.session, h))
  {
    if h.receiver.epoch != w.receiver.epoch {
      NewEpochStaysTallied(w, h.receiver);
    } else if h.counted.Some? {
      CountedArrivalStaysTallied(w, d, h);
    } else {
      QuietArrivalStaysTallied(w, d.session, h);
    }
  }

  lemma ArrivalStaysTallied(w: World, d: Datagram, src: nat, now: nat, nextEpoch: Id)
    requires Inv(w) && Tallied(w) && Possible(w.boxes, d) && nextEpoch !in w.used && d.Datagram?
    ensures Tallied(Arrived(w, d.session, w.receiver.Handle(d, src, now, nextEpoch)))
  {
    InvBuffersRun(w);
    HandleEffect(w.receiver, d, src, now, nextEpoch);
    HandleTallies(w.receiver, d, src, now, nextEpoch);
    HandleStaysTallied(w, d, w.receiver.Handle(d, src, now, nextEpoch), nextEpoch);
  }

  /** The receiver has moved on to r', its tallies untouched, and sealed a packet. */
  lemma SealedStaysTallied(w: World, r': Receiver, p: Packet)
    requires Tallied(w) && PeersGrow(w.receiver.peers, r'.peers) && r'.epoch == w.receiver.epoch && !IsAudio(p)
    requires forall s | s in r'.peers :: s in w.receiver.peers && r'.peers[s].stats.tally == w.receiver.peers[s].stats.tally
    ensures Tallied(w.(receiver := r', boxes := w.boxes + [p]))
  {
    TalliedUnderSameTallies(w, r'.peers);
    TalliedUnderMoreBoxes(w.(receiver := r'), p);
  }

  lemma FeedbackKeepsTallies(r: Receiver, s: Id, now: nat)
    ensures var r' := r.Feedback(s, now).0;
            forall x | x in r'.peers :: x in r.peers && r'.peers[x].stats.tally == r.peers[x].stats.tally
  {
  }

  lemma ReportStaysTallied(w: World, s: Id, now: nat)
    requires Inv(w) && Tallied(w) && s in w.receiver.peers && w.receiver.peers[s].sendCounter < U64_MAX
    ensures var out := w.receiver.Feedback(s, now);
            Tallied(w.(receiver := out.0, boxes := Boxed(w.boxes, out.1)))
  {
    var out := w.receiver.Feedback(s, now);
    FeedbackEffect(w.receiver, s, now);
    FeedbackKeepsTallies(w.receiver, s, now);
    if out.1.Some? {
      SealedStaysTallied(w, out.0, out.1.value);
    }
  }

  lemma SentStaysTallied(w: World, s: Id, out: (SenderModel.Sender, Option<Packet>))
    requires Inv(w) && Tallied(w) && s in w.senders
    requires out.1.Some? ==> WorldSenders.Sealed(w.senders[s], out.0, out.1.value)
    ensures Tallied(Sent(w, s, out))
  {
    if out.1.Some? {
      TalliedUnderMoreBoxes(w, out.1.value);
    }
  }

  lemma SendStaysTallied(w: World, event: Event)
    requires Inv(w) && Enabled(w, event) && Tallied(w) && Sends(event)
    ensures Tallied(Next(w, event))
  {
    var s, out := WorldSenders.SendingSeals(w, event);
    SentStaysTallied(w, s, out);
  }

  lemma ExpiryStaysTallied(w: World, maxIdle: nat, now: nat)
    requires Tallied(w)
    ensures TalliesOk(w.boxes, w.counted, w.receiver.Expire(maxIdle, now).peers, w.receiver.epoch, w.used)
  {
    TalliedUnderSameTallies(w, w.receiver.Expire(maxIdle, now).peers);
  }

  /** Expiry, settings and listeners. */
  lemma LocalStaysTallied(w: World, event: Event)
    requires Tallied(w) && Receives(event) && !event.Arrive?
    ensures Tallied(Next(w, event))
  {
    match event
    case Expire(maxIdle, now) => ExpiryStaysTallied(w, maxIdle, now);
    case Retarget(_, _) =>
    case SetDefault(_) =>
    case Pull(_, _) =>
  }

  lemma ReceivingStaysTallied(w: World, event: Event)
    requires Inv(w) && Enabled(w, event) && Tallied(w) && Receives(event)
    ensures Tallied(Next(w, event))
  {
    if !event.Arrive? {
      LocalStaysTallied(w, event);
    } else if event.d.Datagram? {
      ArrivalStaysTallied(w, event.d, event.src, event.now, event.nextEpoch);
    }
  }

  lemma StepStaysTallied(w: World, event: Event)
    requires Inv(w) && Enabled(w, event) && Tallied(w)
    ensures Tallied(Next(w, event))
  {
    if Sends(event) {
      SendStaysTallied(w, event);
    } else if Receives(event) {
      ReceivingStaysTallied(w, event);
    } else {
      match event
      case Bind(_, _) =>
      case ArriveReport(_, _) =>
      case Report(s, now) => ReportStaysTallied(w, s, now);
    }
  }

  lemma {:induction false} RunStaysTallied(w: World, events: seq<Event>)
    requires Initial(w) && Runs(w, events)
    ensures Tallied(After(w, events))
    decreases |events|
  {
    if events != [] {
      RunStaysTallied(w, events[..|events| - 1]);
      WorldTheorems.RunKeepsInv(w, events[..|events| - 1]);
      StepStaysTallied(After(w, events[..|events| - 1]), events[|events| - 1]);
    }
  }

  lemma LargestIsCounted(w: World, k: Key)
    requires Tallied(w)
    ensures At(w.counted, k) != [] ==> MaxOf(At(w.counted, k)) >= 1
  {
    var history := At(w.counted, k);
    if history != [] {
      assert PushedAt(w.boxes, k, history, w.receiver.peers, w.receiver.epoch, w.used);
      assert Authentic(w.boxes, k, MaxOf(history));
      var p :| p in w.boxes && Carries(p, k, MaxOf(history));
    }
  }

  /** After any run, whatever the network did, each peer's statistics are exact: what was counted for its session are
      distinct audio numbers that it sealed; `received` is how many they are, `lost` how many below the horizon did not
      arrive in time, and the newest number the largest of them. */
  lemma StatisticsAreExact(w: World, events: seq<Event>, s: Id)
    requires Initial(w) && Runs(w, events) && s in After(w, events).receiver.peers
    ensures var w' := After(w, events);
            var k, t := (w'.receiver.epoch, s), w'.receiver.peers[s].stats.tally;
            var history := At(w'.counted, k);
            && PlayoutRuns.Distinct(history)
            && (forall x | x in history :: Authentic(w'.boxes, k, x))
            && t.received == Min(U32_MAX, |history|) && t.maxAudioSeq == MaxOf(history)
            && t.lost == Min(U32_MAX, |Missed(history, t.lossCursor)|)
            && (history != [] ==> t.lossCursor == Max(1, Horizon(MaxOf(history))))
  {
    RunStaysTallied(w, events);
    var w' := After(w, events);
    var k := (w'.receiver.epoch, s);
    var history := At(w'.counted, k);
    if k in w'.counted {
      assert PushedAt(w'.boxes, k, w'.counted[k], w'.receiver.peers, w'.receiver.epoch, w'.used);
    }
    assert Counts(w'.receiver.peers[s].stats.tally, history);
    LargestIsCounted(w', k);
  }

  /** A report that the receiver seals says just that. */
  lemma ReportSaysSo(r: Receiver, s: Id, now: nat)
    requires r.Feedback(s, now).1.Some?
    ensures var p := r.Feedback(s, now).1.value;
            var f := DecodeFeedback(p.body);
            && s in r.peers && f.Some?
            && f.value.received == r.peers[s].stats.tally.received && f.value.lost == r.peers[s].stats.tally.lost
            && f.value.echoSeq == r.peers[s].stats.tally.maxAudioSeq && f.value.echoSendTsUs == r.peers[s].stats.latestSendTs
            && f.value.underruns == Min(U32_MAX, r.mixer.Starvations(s))
            && f.value.jitterUs == r.peers[s].stats.jitter.Whole()
            && f.value.delayUs == Min(U32_MAX, MinusSat(now, r.peers[s].stats.latestArrival))
            && 15 <= f.value.bufferMs <= 150
  {
    var starvations := r.mixer.Starvations(s);
    var report := r.peers[s].stats.AfterReport(starvations).Report(starvations, now);
    FeedbackRoundTrip(report);
  }
}
