/** The buffer target that a receiver reports: over every run between 20 and 150 ms. */
module WorldTargets {
  import opened Bytes
  import opened Wire
  import opened Secure
  import opened PeerStats
  import opened ReceiverModel
  import opened World
  import Adapt

  /** Every peer's own target is within its range. */
  ghost predicate TargetsOk(peers: Peers)
  {
    forall s | s in peers :: peers[s].stats.local.Valid()
  }

  lemma ReportedTarget(t: Stats, starvations: nat)
    requires t.local.Valid()
    ensures var t' := t.AfterReport(starvations); t'.local.Valid() && 20 <= t'.bufferMs <= 150
  {
    Adapt.TargetMovesSlowly(t.local, t.jitter.Whole(), Min(U32_MAX, MinusSat(starvations, t.starvationsMark)));
  }

  lemma AdmitKeepsTargets(r: Receiver, d: Datagram, src: nat, now: nat, nextEpoch: Id)
    requires d.Datagram? && TargetsOk(r.peers)
    ensures TargetsOk(r.Admit(d, src, now, nextEpoch).peers)
  {
  }

  lemma DispatchKeepsTargets(r: Receiver, session: Id, kind: Byte, body: seq<Byte>, now: nat)
    requires session in r.peers && TargetsOk(r.peers)
    ensures TargetsOk(r.Dispatch(session, kind, body, now).receiver.peers)
  {
  }

  lemma OpenedKeepsTargets(r: Receiver, session: Id, counter: nat, kind: Byte, body: seq<Byte>, src: nat, now: nat)
    requires session in r.peers && TargetsOk(r.peers)
    ensures TargetsOk(r.Opened(session, counter, kind, body, src, now).receiver.peers)
  {
    DispatchKeepsTargets(r.Noted(session, counter, src), session, kind, body, now);
  }

  lemma HandleKeepsTargets(r: Receiver, d: Datagram, src: nat, now: nat, nextEpoch: Id)
    requires TargetsOk(r.peers)
    ensures TargetsOk(r.Handle(d, src, now, nextEpoch).receiver.peers)
  {
    if d.Datagram? && d.epoch == r.epoch && d.counter > 0 {
      if d.session in r.peers {
        var contents := OpenBox(ToReceiver, r.epoch, d.session, d);
        if contents.Some? {
          OpenedKeepsTargets(r, d.session, d.counter, d.kind, contents.value, src, now);
        }
      } else {
        AdmitKeepsTargets(r, d, src, now, nextEpoch);
      }
    }
  }

  lemma FeedbackKeepsTargets(r: Receiver, s: Id, now: nat)
    requires TargetsOk(r.peers)
    ensures TargetsOk(r.Feedback(s, now).0.peers)
  {
    if r.Due(s, now) {
      ReportedTarget(r.peers[s].stats, r.mixer.Starvations(s));
    }
  }

  /** Everything but datagrams and reports leaves the targets alone. */
  lemma OtherKeepsTargets(w: World, event: Event)
    requires Enabled(w, event) && !event.Arrive? && !event.Report? && TargetsOk(w.receiver.peers)
    ensures TargetsOk(Next(w, event).receiver.peers)
  {
  }

  lemma StepKeepsTargets(w: World, event: Event)
    requires Enabled(w, event) && TargetsOk(w.receiver.peers)
    ensures TargetsOk(Next(w, event).receiver.peers)
  {
    if event.Arrive? {
      HandleKeepsTargets(w.receiver, event.d, event.src, event.now, event.nextEpoch);
    } else if event.Report? {
      FeedbackKeepsTargets(w.receiver, event.session, event.now);
    } else {
      OtherKeepsTargets(w, event);
    }
  }

  lemma {:induction false} RunKeepsTargets(w: World, events: seq<Event>)
    requires Initial(w) && Runs(w, events)
    ensures TargetsOk(After(w, events).receiver.peers)
    decreases |events|
  {
    if events != [] {
      RunKeepsTargets(w, events[..|events| - 1]);
      StepKeepsTargets(After(w, events[..|events| - 1]), events[|events| - 1]);
    }
  }

  lemma ReportCarriesTarget(r: Receiver, s: Id, now: nat)
    requires TargetsOk(r.peers) && r.Feedback(s, now).1.Some?
    ensures var f := DecodeFeedback(r.Feedback(s, now).1.value.body); f.Some? && 20 <= f.value.bufferMs <= 150
  {
    var starvations := r.mixer.Starvations(s);
    ReportedTarget(r.peers[s].stats, starvations);
    FeedbackRoundTrip(r.peers[s].stats.AfterReport(starvations).Report(starvations, now));
  }

  /** After any run, a report asks for a buffer between 20 and 150 ms: the 15 ms that the receiver would allow never come. */
  lemma ReportsStayInRange(w: World, events: seq<Event>, w': World, s: Id, now: nat)
    requires Initial(w) && Runs(w, events) && w' == After(w, events) && w'.receiver.Feedback(s, now).1.Some?
    ensures var f := DecodeFeedback(w'.receiver.Feedback(s, now).1.value.body); f.Some? && 20 <= f.value.bufferMs <= 150
  {
    RunKeepsTargets(w, events);
    ReportCarriesTarget(w'.receiver, s, now);
  }
}
