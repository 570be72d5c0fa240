/** The steps of senders keep the world's invariant. */
module WorldSenders {
  import opened Bytes
  import opened Wire
  import opened Secure
  import SenderModel
  import Codec
  import Utf8
  import opened World
  import opened WorldInvariant

  /** What sealing amounts to: the next counter, and for audio the next sequence number. */
  ghost predicate Sealed(sender: SenderModel.Sender, sender': SenderModel.Sender, p: Packet)
  {
    && sender.epoch.Some? && sender.counter < U64_MAX
    && sender'.session == sender.session && sender'.epoch == sender.epoch && sender'.accepted == sender.accepted
    && sender'.counter == sender.counter + 1
    && p == Packet(ToReceiver, sender.epoch.value, sender.session, sender.counter + 1, p.kind, p.body)
    && sender'.audioSeq == (if IsAudio(p) then sender.audioSeq + 1 else sender.audioSeq)
    && (IsAudio(p) ==> SeqOf(p.body) == sender.audioSeq + 1)
  }

  lemma SealedCounters(w: World, s: Id, sender': SenderModel.Sender, p: Packet)
    requires s in w.senders && Sealed(w.senders[s], sender', p)
    requires CountersOk(w.boxes, w.senders, w.bound, w.receiver.peers, w.receiver.epoch, w.used)
    ensures CountersOk(w.boxes + [p], w.senders[s := sender'], w.bound, w.receiver.peers, w.receiver.epoch, w.used)
  {
    var senders' := w.senders[s := sender'];
    assert SenderOk(s, w.senders[s], w.bound);
    forall t | t in senders'
      ensures SenderOk(t, senders'[t], w.bound)
    {
      assert t in w.senders && SenderOk(t, w.senders[t], w.bound);
    }
    forall q | q in w.boxes + [p]
      ensures SentOk(q, senders', w.bound) && ReportedOk(q, w.receiver.peers, w.receiver.epoch, w.used)
    {
      if q in w.boxes {
        assert SentOk(q, w.senders, w.bound);
      }
    }
  }

  lemma SealedBoxes(w: World, s: Id, sender': SenderModel.Sender, p: Packet)
    requires s in w.senders && Sealed(w.senders[s], sender', p) && BoxesOk(w.boxes)
    requires CountersOk(w.boxes, w.senders, w.bound, w.receiver.peers, w.receiver.epoch, w.used)
    ensures BoxesOk(w.boxes + [p])
  {
    assert SenderOk(s, w.senders[s], w.bound);
    forall q | q in w.boxes && SameSecret(q, p)
      ensures q.counter < p.counter && (IsAudio(q) && IsAudio(p) ==> SeqOf(q.body) < SeqOf(p.body))
    {
      assert SentOk(q, w.senders, w.bound);
    }
    BoxesGrow(w.boxes, p);
  }

  lemma ObeyedUnderSender(boxes: seq<Packet>, obeyed: Log, senders: Senders, bound: set<Key>, s: Id,
                          sender': SenderModel.Sender)
    requires ObeyedOk(boxes, obeyed, senders, bound) && s in senders
    requires sender'.epoch == senders[s].epoch && senders[s].accepted <= sender'.accepted
    ensures ObeyedOk(boxes, obeyed, senders[s := sender'], bound)
  {
    forall k | k in obeyed
      ensures ObeyedAt(boxes, k, obeyed[k], senders[s := sender'], bound)
    {
      assert ObeyedAt(boxes, k, obeyed[k], senders, bound);
    }
  }

  lemma SealedKeepsInv(w: World, s: Id, sender': SenderModel.Sender, p: Packet)
    requires Inv(w) && s in w.senders && Sealed(w.senders[s], sender', p)
    ensures Inv(Sent(w, s, (sender', Some(p))))
  {
    SealedCounters(w, s, sender', p);
    SealedBoxes(w, s, sender', p);
    PushedUnderMoreBoxes(w.boxes, p, w.pushed, w.receiver.peers, w.receiver.epoch, w.used);
    ObeyedUnderSender(w.boxes, w.obeyed, w.senders, w.bound, s, sender');
    ObeyedUnderMoreBoxes(w.boxes, p, w.obeyed, w.senders[s := sender'], w.bound);
  }

  lemma NothingSent(w: World, s: Id)
    requires s in w.senders
    ensures Sent(w, s, (w.senders[s], None)) == w
  {
    assert w.senders[s := w.senders[s]] == w.senders;
  }

  lemma SenderCounters(w: World, s: Id)
    requires CountersOk(w.boxes, w.senders, w.bound, w.receiver.peers, w.receiver.epoch, w.used)
    requires s in w.senders && w.senders[s].epoch.Some?
    ensures w.senders[s].session == s && w.senders[s].audioSeq <= w.senders[s].counter
  {
    assert SenderOk(s, w.senders[s], w.bound);
  }

  lemma HelloIsSealed(sender: SenderModel.Sender, name: seq<Utf8.Scalar>)
    requires sender.epoch.Some? && sender.counter < U64_MAX
    ensures var out := sender.Hello(name); out.1.Some? && Sealed(sender, out.0, out.1.value)
  {
    SenderModel.HelloCarries(sender, name);
  }

  lemma AudioIsSealed(sender: SenderModel.Sender, codec: Byte, bufferMs: UInt16, pcm: seq<Byte>, nowUs: UInt64)
    requires sender.epoch.Some? && sender.counter < U64_MAX && sender.audioSeq <= sender.counter
    ensures var out := sender.Audio(codec, bufferMs, pcm, nowUs);
            && (out.1.Some? ==> Sealed(sender, out.0, out.1.value))
            && (out.1.None? ==> out.0 == sender)
  {
    if Codec.Payload(codec, pcm).Some? {
      SenderModel.AudioCarries(sender, codec, bufferMs, pcm, nowUs);
    }
  }

  lemma ProbeIsSealed(sender: SenderModel.Sender, gen: UInt32, step: Byte, size: nat, nowUs: UInt64)
    requires sender.epoch.Some? && sender.counter < U64_MAX
    ensures var out := sender.Probe(gen, step, size, nowUs);
            && (out.1.Some? ==> Sealed(sender, out.0, out.1.value))
            && (out.1.None? ==> out.0 == sender)
  {
    SenderModel.ProbeCarries(sender, gen, step, size, nowUs);
  }

  /** Sending, whatever is sent, seals one packet or changes nothing. */
  lemma SendingSeals(w: World, event: Event) returns (s: Id, out: (SenderModel.Sender, Option<Packet>))
    requires CountersOk(w.boxes, w.senders, w.bound, w.receiver.peers, w.receiver.epoch, w.used)
    requires Enabled(w, event) && Sends(event)
    ensures s == event.session && s in w.senders && w.senders[s].session == s
    ensures Next(w, event) == Sent(w, s, out).(taken := Next(w, event).taken)
    ensures out.1.Some? ==> Sealed(w.senders[s], out.0, out.1.value)
    ensures out.1.None? ==> out.0 == w.senders[s]
  {
    s := event.session;
    SenderCounters(w, s);
    match event
    case SendHello(_, name) =>
      HelloIsSealed(w.senders[s], name);
      out := w.senders[s].Hello(name);
    case SendAudio(_, codec, bufferMs, pcm, nowUs) =>
      AudioIsSealed(w.senders[s], codec, bufferMs, pcm, nowUs);
      out := w.senders[s].Audio(codec, bufferMs, pcm, nowUs);
    case SendProbe(_, gen, step, size, nowUs) =>
      ProbeIsSealed(w.senders[s], gen, step, size, nowUs);
      out := w.senders[s].Probe(gen, step, size, nowUs);
  }

  lemma SendingKeepsInv(w: World, s: Id, out: (SenderModel.Sender, Option<Packet>))
    requires Inv(w) && s in w.senders
    requires out.1.Some? ==> Sealed(w.senders[s], out.0, out.1.value)
    requires out.1.None? ==> out.0 == w.senders[s]
    ensures Inv(Sent(w, s, out))
  {
    if out.1.Some? {
      SealedKeepsInv(w, s, out.0, out.1.value);
    } else {
      NothingSent(w, s);
    }
  }

  lemma InvIgnoresTaken(w: World, taken: Captured)
    requires Inv(w)
    ensures Inv(w.(taken := taken))
  {
  }

  lemma SendKeepsInv(w: World, event: Event)
    requires Inv(w) && Enabled(w, event) && Sends(event)
    ensures Inv(Next(w, event))
  {
    var s, out := SendingSeals(w, event);
    SendingKeepsInv(w, s, out);
    InvIgnoresTaken(Sent(w, s, out), Next(w, event).taken);
  }

  lemma BindCounters(w: World, s: Id, e: Id)
    requires s in w.senders && (w.senders[s].epoch == Some(e) || (e, s) !in w.bound)
    requires CountersOk(w.boxes, w.senders, w.bound, w.receiver.peers, w.receiver.epoch, w.used)
    ensures CountersOk(w.boxes, w.senders[s := w.senders[s].Bind(e)], w.bound + {(e, s)}, w.receiver.peers,
                       w.receiver.epoch, w.used)
  {
    var senders', bound' := w.senders[s := w.senders[s].Bind(e)], w.bound + {(e, s)};
    forall t | t in senders'
      ensures SenderOk(t, senders'[t], bound')
    {
      assert t in w.senders && SenderOk(t, w.senders[t], w.bound);
    }
    forall q | q in w.boxes
      ensures SentOk(q, senders', bound')
    {
      assert SentOk(q, w.senders, w.bound);
    }
  }

  lemma BindKeepsInv(w: World, s: Id, e: Id)
    requires Inv(w) && s in w.senders && (w.senders[s].epoch == Some(e) || (e, s) !in w.bound)
    ensures Inv(w.(senders := w.senders[s := w.senders[s].Bind(e)], bound := w.bound + {(e, s)}))
  {
    BindCounters(w, s, e);
    var senders', bound' := w.senders[s := w.senders[s].Bind(e)], w.bound + {(e, s)};
    forall k | k in w.obeyed
      ensures ObeyedAt(w.boxes, k, w.obeyed[k], senders', bound')
    {
      assert ObeyedAt(w.boxes, k, w.obeyed[k], w.senders, w.bound);
    }
  }

  /** A datagram opened by a key came out of a box that was sealed under it. */
  lemma OpenedWasSealed(boxes: seq<Packet>, direction: Direction, e: Id, s: Id, d: Datagram)
    requires Possible(boxes, d) && OpenBox(direction, e, s, d).Some?
    ensures d.Datagram? && d.epoch == e && d.session == s
    ensures Packet(direction, e, s, d.counter, d.kind, OpenBox(direction, e, s, d).value) in boxes
  {
    assert d.ct.packet == Packet(direction, e, s, d.counter, d.kind, OpenBox(direction, e, s, d).value);
  }

  lemma ReportArrivesFresh(w: World, s: Id, d: Datagram)
    requires Inv(w) && s in w.senders && Possible(w.boxes, d) && d.Datagram? && w.senders[s].Feedback(d).0 != w.senders[s]
    ensures var sender := w.senders[s];
            && sender.epoch == Some(d.epoch) && d.counter !in sender.accepted
            && sender.Feedback(d).0 == sender.(accepted := sender.accepted + {d.counter})
            && (d.epoch, s) in w.bound
            && exists p :: p in w.boxes && p == Packet(ToSender, d.epoch, s, d.counter, KIND_FEEDBACK, p.body)
  {
    var sender := w.senders[s];
    assert SenderOk(s, sender, w.bound);
    OpenedWasSealed(w.boxes, ToSender, sender.epoch.value, s, d);
  }

  lemma AcceptingCounters(w: World, s: Id, sender': SenderModel.Sender)
    requires s in w.senders && sender' == w.senders[s].(accepted := sender'.accepted)
    requires CountersOk(w.boxes, w.senders, w.bound, w.receiver.peers, w.receiver.epoch, w.used)
    ensures CountersOk(w.boxes, w.senders[s := sender'], w.bound, w.receiver.peers, w.receiver.epoch, w.used)
  {
    var senders' := w.senders[s := sender'];
    forall t | t in senders'
      ensures SenderOk(t, senders'[t], w.bound)
    {
      assert t in w.senders && SenderOk(t, w.senders[t], w.bound);
    }
    forall q | q in w.boxes
      ensures SentOk(q, senders', w.bound)
    {
      assert SentOk(q, w.senders, w.bound);
    }
  }

  lemma ObeyedGrows(w: World, s: Id, d: Datagram, sender': SenderModel.Sender)
    requires s in w.senders && d.Datagram?
    requires w.senders[s].epoch == Some(d.epoch) && d.counter !in w.senders[s].accepted
    requires sender' == w.senders[s].(accepted := w.senders[s].accepted + {d.counter})
    requires ObeyedOk(w.boxes, w.obeyed, w.senders, w.bound) && (d.epoch, s) in w.bound
    requires ObeyedOk(w.boxes, w.obeyed, w.senders[s := sender'], w.bound)
    requires exists p :: p in w.boxes && p == Packet(ToSender, d.epoch, s, d.counter, KIND_FEEDBACK, p.body)
    ensures ObeyedOk(w.boxes, Logged(w.obeyed, (d.epoch, s), [d.counter]), w.senders[s := sender'], w.bound)
  {
    var key, senders' := (d.epoch, s), w.senders[s := sender'];
    var cs := At(w.obeyed, key);
    if key in w.obeyed {
      assert ObeyedAt(w.boxes, key, cs, w.senders, w.bound);
      assert ObeyedAt(w.boxes, key, cs, senders', w.bound);
    }
    assert ObeyedAt(w.boxes, key, cs + [d.counter], senders', w.bound);
  }

  lemma ReportArrivesKeepsInv(w: World, s: Id, d: Datagram)
    requires Inv(w) && s in w.senders && Possible(w.boxes, d)
    ensures Inv(Obeyed(w, s, d))
  {
    var sender, sender' := w.senders[s], w.senders[s].Feedback(d).0;
    if d.Datagram? && sender' != sender {
      ReportArrivesFresh(w, s, d);
      ObeyedUnderSender(w.boxes, w.obeyed, w.senders, w.bound, s, sender');
      AcceptingCounters(w, s, sender');
      ObeyedGrows(w, s, d, sender');
    } else {
      assert w.senders[s := sender'] == w.senders;
    }
  }
}
