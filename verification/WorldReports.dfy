/** How often the receiver reports: at least 400 ms lie between two reports under one key, over every run. */
module WorldReports {
  import opened Bytes
  import opened Wire
  import opened Secure
  import opened ReceiverModel
  import opened World
  import WorldTheorems

  /** If the epoch is still e, the session's last report is known and was no earlier than t. */
  ghost predicate Remembers(r: Receiver, e: Id, s: Id, t: nat)
  {
    r.epoch == e ==> s in r.peers && r.peers[s].lastFeedback.Some? && r.peers[s].lastFeedback.value >= t
  }

  /** Peers stay and remember their last report. */
  ghost predicate ReportsKept(peers: Peers, peers': Peers)
  {
    forall s | s in peers :: s in peers' && peers'[s].lastFeedback == peers[s].lastFeedback
  }

  lemma AdmitKeepsReports(r: Receiver, d: Datagram, src: nat, now: nat, nextEpoch: Id)
    requires d.Datagram? && d.session !in r.peers
    ensures var r' := r.Admit(d, src, now, nextEpoch);
            (r'.epoch == r.epoch && ReportsKept(r.peers, r'.peers)) || r'.epoch == nextEpoch
  {
  }

  lemma DispatchKeepsReports(r: Receiver, session: Id, kind: Byte, body: seq<Byte>, now: nat)
    requires session in r.peers
    ensures var r' := r.Dispatch(session, kind, body, now).receiver;
            r'.epoch == r.epoch && ReportsKept(r.peers, r'.peers)
  {
  }

  lemma OpenedKeepsReports(r: Receiver, session: Id, counter: nat, kind: Byte, body: seq<Byte>, src: nat, now: nat)
    requires session in r.peers
    ensures var r' := r.Opened(session, counter, kind, body, src, now).receiver;
            r'.epoch == r.epoch && ReportsKept(r.peers, r'.peers)
  {
    DispatchKeepsReports(r.Noted(session, counter, src), session, kind, body, now);
  }

  /** Neither a resumption nor anything else that arrives forgets a report, short of a new epoch. */
  lemma HandleKeepsReports(r: Receiver, d: Datagram, src: nat, now: nat, nextEpoch: Id)
    ensures var r' := r.Handle(d, src, now, nextEpoch).receiver;
            (r'.epoch == r.epoch && ReportsKept(r.peers, r'.peers)) || r'.epoch == nextEpoch
  {
    if d.Datagram? && d.epoch == r.epoch && d.counter > 0 {
      if d.session in r.peers {
        var contents := OpenBox(ToReceiver, r.epoch, d.session, d);
        if contents.Some? {
          OpenedKeepsReports(r, d.session, d.counter, d.kind, contents.value, src, now);
        }
      } else {
        AdmitKeepsReports(r, d, src, now, nextEpoch);
      }
    }
  }

  /** A report that goes out is at least 400 ms after the one that the peer remembers, and is remembered instead. */
  lemma ReportRemembers(r: Receiver, e: Id, s: Id, t: nat, other: Id, now: nat)
    requires Remembers(r, e, s, t)
    ensures Remembers(r.Feedback(other, now).0, e, s, t)
    ensures r.epoch == e && r.Feedback(s, now).1.Some? ==> now >= t + FEEDBACK_PERIOD_US
  {
  }

  lemma ReportIsRemembered(r: Receiver, s: Id, now: nat)
    requires r.Feedback(s, now).1.Some?
    ensures Remembers(r.Feedback(s, now).0, r.epoch, s, now)
  {
  }

  lemma ArrivalRemembers(w: World, e: Id, s: Id, t: nat, d: Datagram, src: nat, now: nat, nextEpoch: Id)
    requires Remembers(w.receiver, e, s, t) && e in w.used && nextEpoch !in w.used
    ensures Remembers(w.receiver.Handle(d, src, now, nextEpoch).receiver, e, s, t)
  {
    HandleKeepsReports(w.receiver, d, src, now, nextEpoch);
  }

  /** Everything but datagrams and reports leaves the sessions' last reports alone. */
  lemma OtherRemembers(w: World, event: Event, e: Id, s: Id, t: nat)
    requires Enabled(w, event) && !event.Arrive? && !event.Report? && Remembers(w.receiver, e, s, t)
    ensures Remembers(Next(w, event).receiver, e, s, t) && Next(w, event).used == w.used
  {
  }

  lemma StepRemembers(w: World, event: Event, e: Id, s: Id, t: nat)
    requires Enabled(w, event) && Remembers(w.receiver, e, s, t) && e in w.used
    ensures Remembers(Next(w, event).receiver, e, s, t) && e in Next(w, event).used
  {
    if event.Arrive? {
      ArrivalRemembers(w, e, s, t, event.d, event.src, event.now, event.nextEpoch);
    } else if event.Report? {
      ReportRemembers(w.receiver, e, s, t, event.session, event.now);
    } else {
      OtherRemembers(w, event, e, s, t);
    }
  }

  lemma {:induction false} RunRemembers(w: World, events: seq<Event>, e: Id, s: Id, t: nat)
    requires Runs(w, events) && Remembers(w.receiver, e, s, t) && e in w.used
    ensures Remembers(After(w, events).receiver, e, s, t) && e in After(w, events).used
    decreases |events|
  {
    if events != [] {
      RunRemembers(w, events[..|events| - 1], e, s, t);
      StepRemembers(After(w, events[..|events| - 1]), events[|events| - 1], e, s, t);
    }
  }

  /** A report goes out to a session after some run; after any further run, through expiry, resumption and whatever the
      network does, the next one under the same key is at least 400 ms later. */
  lemma ReportsAreSpaced(w: World, before: seq<Event>, w1: World, s: Id, t: nat, between: seq<Event>, w2: World, t': nat)
    requires Initial(w) && Runs(w, before) && w1 == After(w, before)
    requires Enabled(w1, Report(s, t)) && w1.receiver.Feedback(s, t).1.Some?
    requires Runs(Next(w1, Report(s, t)), between) && w2 == After(Next(w1, Report(s, t)), between)
    requires w2.receiver.epoch == w1.receiver.epoch && w2.receiver.Feedback(s, t').1.Some?
    ensures t' >= t + FEEDBACK_PERIOD_US
  {
    WorldTheorems.RunKeepsInv(w, before);
    ReportIsRemembered(w1.receiver, s, t);
    RunRemembers(Next(w1, Report(s, t)), between, w1.receiver.epoch, s, t);
    ReportRemembers(w2.receiver, w1.receiver.epoch, s, t, s, t');
  }
}
