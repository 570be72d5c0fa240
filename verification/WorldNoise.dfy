/** What the network adds of its own: forged and repeated datagrams change nothing but the count of those refused. */
module WorldNoise {
  import opened Bytes
  import opened Wire
  import opened Secure
  import opened ReceiverModel
  import opened World
  import Replay
  import WorldTheorems

  ghost predicate Opens(r: Receiver, d: Datagram)
  {
    d.Datagram? && OpenBox(ToReceiver, r.epoch, d.session, d).Some?
  }

  /** All that a refusal leaves. */
  function Refused(r: Receiver): Handled { Handled(r.Rejected(), None, None) }

  lemma UnopenedIsRefused(r: Receiver, d: Datagram, src: nat, now: nat, nextEpoch: Id)
    requires !Opens(r, d)
    ensures r.Handle(d, src, now, nextEpoch) == Refused(r)
  {
  }

  lemma UsedIsRefused(r: Receiver, d: Datagram, src: nat, now: nat, nextEpoch: Id)
    requires d.Datagram? && d.session in r.peers && d.counter in r.peers[d.session].accepted
    ensures r.Handle(d, src, now, nextEpoch) == Refused(r)
  {
  }

  lemma DispatchKeepsUsed(r: Receiver, session: Id, kind: Byte, body: seq<Byte>, now: nat)
    requires session in r.peers
    ensures var r' := r.Dispatch(session, kind, body, now).receiver;
            session in r'.peers && r'.peers[session].accepted == r.peers[session].accepted
  {
  }

  lemma FirstIsUsed(counter: nat)
    requires counter > 0
    ensures Replay.Accept({}, WINDOW, counter) == {counter}
  {
  }

  /** A datagram is refused, turns the epoch, or has its counter used up. */
  lemma HandledIsUsed(r: Receiver, d: Datagram, src: nat, now: nat, nextEpoch: Id)
    ensures var h := r.Handle(d, src, now, nextEpoch);
            || h == Refused(r)
            || (d.Datagram? && d.epoch == r.epoch && h.receiver.epoch == nextEpoch)
            || (d.Datagram? && d.session in h.receiver.peers && d.counter in h.receiver.peers[d.session].accepted)
  {
    if d.Datagram? && d.epoch == r.epoch && d.counter > 0 && Opens(r, d) {
      if d.session in r.peers {
        if Replay.Fresh(r.peers[d.session].accepted, WINDOW, d.counter) {
          var body := OpenBox(ToReceiver, r.epoch, d.session, d).value;
          DispatchKeepsUsed(r.Noted(d.session, d.counter, src), d.session, d.kind, body, now);
        }
      } else {
        FirstIsUsed(d.counter);
      }
    }
  }

  /** A refusal does not depend on how many there were, nor on where and when the datagram came. */
  lemma RefusedAgain(r: Receiver, d: Datagram, src: nat, now: nat, nextEpoch: Id, src': nat, now': nat, nextEpoch': Id)
    requires r.Handle(d, src, now, nextEpoch) == Refused(r) && nextEpoch != r.epoch
    ensures r.Rejected().Handle(d, src', now', nextEpoch') == Refused(r.Rejected())
  {
  }

  /** A datagram that comes once more is refused, wherever it comes from, unless it goes by an epoch chosen again. */
  lemma RepeatIsRefused(r: Receiver, d: Datagram, src: nat, now: nat, nextEpoch: Id, src': nat, now': nat, nextEpoch': Id)
    requires nextEpoch != r.epoch
    ensures var r' := r.Handle(d, src, now, nextEpoch).receiver;
            r'.Handle(d, src', now', nextEpoch') == Refused(r')
  {
    var h := r.Handle(d, src, now, nextEpoch);
    HandledIsUsed(r, d, src, now, nextEpoch);
    if h == Refused(r) {
      RefusedAgain(r, d, src, now, nextEpoch, src', now', nextEpoch');
    } else if d.Datagram? && d.session in h.receiver.peers && d.counter in h.receiver.peers[d.session].accepted {
      UsedIsRefused(h.receiver, d, src', now', nextEpoch');
    } else {
      assert !Opens(h.receiver, d);
    }
  }

  // Runs.

  function Bumped(r: Receiver, k: nat): Receiver { r.(rejected := r.rejected + k) }

  function BumpedWorld(w: World, k: nat): World { w.(receiver := Bumped(w.receiver, k)) }

  function BumpedHandled(h: Handled, k: nat): Handled { h.(receiver := Bumped(h.receiver, k)) }

  lemma AdmitIgnoresRefusals(r: Receiver, d: Datagram, src: nat, now: nat, nextEpoch: Id, k: nat)
    requires d.Datagram?
    ensures Bumped(r, k).Admit(d, src, now, nextEpoch) == Bumped(r.Admit(d, src, now, nextEpoch), k)
  {
  }

  lemma DispatchIgnoresRefusals(r: Receiver, session: Id, kind: Byte, body: seq<Byte>, now: nat, k: nat)
    requires session in r.peers
    ensures Bumped(r, k).Dispatch(session, kind, body, now) == BumpedHandled(r.Dispatch(session, kind, body, now), k)
  {
  }

  lemma OpenedIgnoresRefusals(r: Receiver, session: Id, counter: nat, kind: Byte, body: seq<Byte>, src: nat, now: nat, k: nat)
    requires session in r.peers
    ensures Bumped(r, k).Opened(session, counter, kind, body, src, now)
            == BumpedHandled(r.Opened(session, counter, kind, body, src, now), k)
  {
    DispatchIgnoresRefusals(r.Noted(session, counter, src), session, kind, body, now, k);
    assert Bumped(r, k).Noted(session, counter, src) == Bumped(r.Noted(session, counter, src), k);
  }

  lemma HandleIgnoresRefusals(r: Receiver, d: Datagram, src: nat, now: nat, nextEpoch: Id, k: nat)
    ensures Bumped(r, k).Handle(d, src, now, nextEpoch) == BumpedHandled(r.Handle(d, src, now, nextEpoch), k)
  {
    if d.Datagram? && d.epoch == r.epoch && d.counter > 0 {
      if d.session in r.peers {
        var contents := OpenBox(ToReceiver, r.epoch, d.session, d);
        if contents.Some? {
          OpenedIgnoresRefusals(r, d.session, d.counter, d.kind, contents.value, src, now, k);
        }
      } else {
        AdmitIgnoresRefusals(r, d, src, now, nextEpoch, k);
      }
    }
  }

  /** The event does to w and to w with k more refusals the same. */
  ghost predicate SameStep(w: World, event: Event, k: nat)
    requires Enabled(w, event)
  {
    Enabled(BumpedWorld(w, k), event) && Next(BumpedWorld(w, k), event) == BumpedWorld(Next(w, event), k)
  }

  lemma ArrivedIgnoresRefusals(w: World, session: Id, h: Handled, k: nat)
    ensures Arrived(BumpedWorld(w, k), session, BumpedHandled(h, k)) == BumpedWorld(Arrived(w, session, h), k)
  {
  }

  lemma ArrivalIgnoresRefusals(w: World, d: Datagram, src: nat, now: nat, nextEpoch: Id, k: nat)
    requires Enabled(w, Arrive(d, src, now, nextEpoch))
    ensures SameStep(w, Arrive(d, src, now, nextEpoch), k)
  {
    HandleIgnoresRefusals(w.receiver, d, src, now, nextEpoch, k);
    if d.Datagram? {
      ArrivedIgnoresRefusals(w, d.session, w.receiver.Handle(d, src, now, nextEpoch), k);
    }
  }

  lemma FeedbackIgnoresRefusals(r: Receiver, s: Id, now: nat, k: nat)
    ensures var (r', p) := r.Feedback(s, now); Bumped(r, k).Feedback(s, now) == (Bumped(r', k), p)
  {
  }

  lemma ReportIgnoresRefusals(w: World, s: Id, now: nat, k: nat)
    requires Enabled(w, Report(s, now))
    ensures SameStep(w, Report(s, now), k)
  {
    FeedbackIgnoresRefusals(w.receiver, s, now, k);
  }

  lemma SendIgnoresRefusals(w: World, event: Event, k: nat)
    requires Enabled(w, event) && Sends(event)
    ensures SameStep(w, event, k)
  {
  }

  /** Expiry, settings and listeners. */
  lemma LocalIgnoresRefusals(w: World, event: Event, k: nat)
    requires Enabled(w, event) && Receives(event) && !event.Arrive?
    ensures SameStep(w, event, k)
  {
  }

  lemma SenderIgnoresRefusals(w: World, event: Event, k: nat)
    requires Enabled(w, event) && (event.Bind? || event.ArriveReport?)
    ensures SameStep(w, event, k)
  {
  }

  lemma StepIgnoresRefusals(w: World, event: Event, k: nat)
    requires Enabled(w, event)
    ensures SameStep(w, event, k)
  {
    if Sends(event) {
      SendIgnoresRefusals(w, event, k);
    } else if event.Arrive? {
      ArrivalIgnoresRefusals(w, event.d, event.src, event.now, event.nextEpoch, k);
    } else if Receives(event) {
      LocalIgnoresRefusals(w, event, k);
    } else if event.Report? {
      ReportIgnoresRefusals(w, event.session, event.now, k);
    } else {
      SenderIgnoresRefusals(w, event, k);
    }
  }

  /** A datagram that is refused arrives: whatever does not open or has a used counter, and every repetition at once. */
  ghost predicate Noise(w: World, event: Event)
  {
    event.Arrive? && w.receiver.Handle(event.d, event.src, event.now, event.nextEpoch) == Refused(w.receiver)
  }

  lemma NoiseOnlyCounts(w: World, event: Event)
    requires Enabled(w, event) && Noise(w, event) && w.receiver.epoch in w.used
    ensures Next(w, event) == BumpedWorld(w, 1)
  {
    assert w.used + {w.receiver.epoch} == w.used;
  }

  /** The run without the noise in it. */
  ghost function Quiet(w: World, events: seq<Event>): (quiet: seq<Event>)
    requires Runs(w, events)
    ensures |quiet| <= |events|
    decreases |events|
  {
    if events == [] then [] else
      var n := |events| - 1;
      var before := Quiet(w, events[..n]);
      if Noise(After(w, events[..n]), events[n]) then before else before + [events[n]]
  }

  lemma OneMoreQuiet(w: World, quiet: seq<Event>, w': World, event: Event, k: nat)
    requires Runs(w, quiet) && w' == BumpedWorld(After(w, quiet), k) && Enabled(w', event)
    ensures Runs(w, quiet + [event]) && Next(w', event) == BumpedWorld(After(w, quiet + [event]), k)
  {
    assert (quiet + [event])[..|quiet|] == quiet;
    assert Enabled(After(w, quiet), event);
    StepIgnoresRefusals(After(w, quiet), event, k);
  }

  lemma NoiseIsOneMore(w: World, quiet: seq<Event>, w': World, event: Event, k: nat)
    requires Runs(w, quiet) && w' == BumpedWorld(After(w, quiet), k) && Enabled(w', event)
    requires Noise(w', event) && w'.receiver.epoch in w'.used
    ensures Next(w', event) == BumpedWorld(After(w, quiet), k + 1)
  {
    NoiseOnlyCounts(w', event);
  }

  /** The run and the quiet one, side by side: they end alike but for the refusals. */
  ghost predicate Alike(w: World, events: seq<Event>)
    requires Runs(w, events)
  {
    var quiet := Quiet(w, events);
    Runs(w, quiet) && After(w, events) == BumpedWorld(After(w, quiet), |events| - |quiet|)
  }

  lemma OneMoreAlike(w: World, events: seq<Event>, before: seq<Event>, w': World)
    requires Runs(w, events) && events != [] && before == events[..|events| - 1] && w' == After(w, before) && Alike(w, before)
    requires w'.receiver.epoch in w'.used
    ensures Alike(w, events)
  {
    var quiet, event := Quiet(w, before), events[|events| - 1];
    var k := |before| - |quiet|;
    if Noise(w', event) {
      NoiseIsOneMore(w, quiet, w', event, k);
    } else {
      OneMoreQuiet(w, quiet, w', event, k);
    }
  }

  lemma NothingIsAlike(w: World)
    ensures Alike(w, [])
  {
    assert BumpedWorld(w, 0) == w;
  }

  /** Over any run, the same happens without the forged and repeated datagrams: senders, peers, buffers, logs and what is
      played are the same, and the receiver counts exactly as many refusals fewer. */
  lemma {:induction false} NoiseIsInvisible(w: World, events: seq<Event>)
    requires Initial(w) && Runs(w, events)
    ensures Alike(w, events)
    decreases |events|
  {
    if events == [] {
      NothingIsAlike(w);
    } else {
      var before := events[..|events| - 1];
      NoiseIsInvisible(w, before);
      WorldTheorems.RunKeepsInv(w, before);
      OneMoreAlike(w, events, before, After(w, before));
    }
  }
}
