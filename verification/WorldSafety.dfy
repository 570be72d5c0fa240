/** Every step keeps the world's invariant, and what follows for whole runs. */
module WorldSafety {
  import opened Bytes
  import opened Wire
  import opened Secure
  import opened ReceiverModel
  import Utf8
  import ReceiverTable
  import Playout
  import Replay
  import opened PlayoutRuns
  import opened World
  import opened WorldInvariant
  import opened WorldSenders
  import opened WorldReceiver

  /** The receiver kept its epoch and peers and opened no buffer but new ones. */
  ghost predicate Quiet(r: Receiver, r': Receiver)
  {
    r'.epoch == r.epoch && PeersGrow(r.peers, r'.peers) && BuffersKept(r.mixer, r'.mixer)
  }

  ghost predicate Turned(r: Receiver, r': Receiver, nextEpoch: Id)
  {
    && r'.epoch == nextEpoch && r'.peers == map[] && r'.mixer.streams == map[]
    && r'.mixer.bytesPerFrame == r.mixer.bytesPerFrame && r'.mixer.packetFrames == r.mixer.packetFrames
  }

  /** One stream's buffer was pushed the chunk of an audio body. */
  ghost predicate TakesIn(m: Mixer, m': Mixer, session: Id, body: seq<Byte>, seqNo: nat)
  {
    && Chunk(body).Some? && Chunk(body).value.0 == seqNo && SeqOf(body) == seqNo <= U64_MAX
    && BufferSteps(m, m', session, Op.Push(seqNo, Chunk(body).value.1))
  }

  /** A packet of a known session reached its stream's buffer: it opened, its counter was new, and it is used up now. */
  ghost predicate Reaches(r: Receiver, r': Receiver, d: Datagram, seqNo: nat)
  {
    && d.Datagram? && r'.epoch == r.epoch && PeersGrow(r.peers, r'.peers)
    && d.session in r.peers && d.session in r'.peers
    && d.counter !in r.peers[d.session].accepted && d.counter in r'.peers[d.session].accepted
    && d.kind == KIND_AUDIO && OpenBox(ToReceiver, r.epoch, d.session, d).Some?
    && TakesIn(r.mixer, r'.mixer, d.session, OpenBox(ToReceiver, r.epoch, d.session, d).value, seqNo)
  }

  lemma EnsuredKeepsBuffers(m: Mixer, id: Id, name: seq<Utf8.Scalar>, now: nat)
    ensures m.Ensured(id, name, now).Some? ==> BuffersKept(m, m.Ensured(id, name, now).value)
  {
  }

  lemma EnterIsQuiet(r: Receiver, session: Id, counter: nat, src: nat, now: nat, name: seq<Utf8.Scalar>)
    requires session !in r.peers
    ensures Quiet(r, r.Enter(session, counter, src, now, name))
  {
    EnsuredKeepsBuffers(r.mixer, session, name, now);
  }

  lemma AdmitIsQuiet(r: Receiver, d: Datagram, src: nat, now: nat, nextEpoch: Id)
    requires d.Datagram? && d.session !in r.peers
    ensures var r' := r.Admit(d, src, now, nextEpoch);
            Quiet(r, r') || Turned(r, r', nextEpoch)
  {
    var contents := OpenBox(ToReceiver, r.epoch, d.session, d);
    if contents.Some? && DecodeHello(contents.value).Some? {
      EnterIsQuiet(r, d.session, d.counter, src, now, DecodeHello(contents.value).value);
    }
  }

  lemma ResumeIsQuiet(r: Receiver, session: Id, body: seq<Byte>, now: nat)
    requires session in r.peers
    ensures Quiet(r, r.Resume(session, body, now))
  {
    var name := DecodeHello(body);
    if name.Some? {
      EnsuredKeepsBuffers(r.mixer, session, name.value, now);
    }
  }

  lemma NotedGrows(r: Receiver, session: Id, counter: nat, src: nat)
    requires session in r.peers
    ensures PeersGrow(r.peers, r.Noted(session, counter, src).peers)
  {
  }

  lemma PeersGrowOn(a: Peers, b: Peers, c: Peers)
    requires PeersGrow(a, b) && PeersGrow(b, c)
    ensures PeersGrow(a, c)
  {
  }

  lemma PushedSteps(m: Mixer, id: Id, seqNo: UInt64, pcm: seq<Byte>, now: nat)
    requires id in m.streams && m.streams[id].buffer.packetFrames > 0
    ensures BufferSteps(m, m.Touched(id, now).Pushed(id, seqNo, pcm, now), id, Op.Push(seqNo, pcm))
  {
    assert Step(m.streams[id].buffer, Op.Push(seqNo, pcm)) == m.streams[id].buffer.Push(seqNo, pcm).0;
  }

  /** The buffer of a known stream takes the packet; without a stream nothing happens to any buffer. */
  lemma PlayFeeds(r: Receiver, session: Id, body: seq<Byte>, now: nat)
    requires session in r.peers && (session in r.mixer.streams ==> r.mixer.streams[session].buffer.packetFrames > 0)
    ensures var h := r.Play(session, body, now);
            && h.receiver.epoch == r.epoch && PeersGrow(r.peers, h.receiver.peers)
            && (h.pushed.None? ==> BuffersKept(r.mixer, h.receiver.mixer))
            && (h.pushed.Some? ==>
                  && TakesIn(r.mixer, h.receiver.mixer, session, body, h.pushed.value))
  {
    var chunk := Chunk(body);
    if chunk.Some? && session in r.mixer.streams {
      PushedSteps(r.mixer, session, chunk.value.0, chunk.value.1, now);
    }
  }

  ghost predicate BuffersRun(m: Mixer)
  {
    forall s | s in m.streams :: m.streams[s].buffer.packetFrames > 0
  }

  lemma TouchIsQuiet(r: Receiver, session: Id, body: seq<Byte>, now: nat)
    requires session in r.peers
    ensures Quiet(r, r) && Quiet(r, r.Rejected()) && Quiet(r, r.Probed(session, body, now))
  {
  }

  lemma DispatchEffect(r: Receiver, session: Id, kind: Byte, body: seq<Byte>, now: nat)
    requires session in r.peers && BuffersRun(r.mixer)
    ensures var h := r.Dispatch(session, kind, body, now);
            && (h.pushed.None? ==> Quiet(r, h.receiver))
            && (h.pushed.Some? ==>
                  && kind == KIND_AUDIO && h.receiver.epoch == r.epoch && PeersGrow(r.peers, h.receiver.peers)
                  && TakesIn(r.mixer, h.receiver.mixer, session, body, h.pushed.value))
  {
    if kind == KIND_HELLO {
      ResumeIsQuiet(r, session, body, now);
    } else if kind == KIND_AUDIO && r.peers[session].active {
      PlayFeeds(r, session, body, now);
    } else {
      TouchIsQuiet(r, session, body, now);
    }
  }

  lemma FromKnownEffect(r: Receiver, d: Datagram, src: nat, now: nat)
    requires d.Datagram? && d.session in r.peers && BuffersRun(r.mixer)
    ensures var h := r.FromKnown(d, src, now);
            && (h.pushed.None? ==> Quiet(r, h.receiver))
            && (h.pushed.Some? ==> Reaches(r, h.receiver, d, h.pushed.value))
  {
    var contents := OpenBox(ToReceiver, r.epoch, d.session, d);
    if contents.Some? && Replay.Fresh(r.peers[d.session].accepted, WINDOW, d.counter) {
      var n := r.Noted(d.session, d.counter, src);
      NotedGrows(r, d.session, d.counter, src);
      DispatchEffect(n, d.session, d.kind, contents.value, now);
      var h := n.Dispatch(d.session, d.kind, contents.value, now);
      PeersGrowOn(r.peers, n.peers, h.receiver.peers);
    }
  }

  lemma HandleEffect(r: Receiver, d: Datagram, src: nat, now: nat, nextEpoch: Id)
    requires BuffersRun(r.mixer)
    ensures var h := r.Handle(d, src, now, nextEpoch);
            && (h.pushed.None? ==> Quiet(r, h.receiver) || Turned(r, h.receiver, nextEpoch))
            && (h.pushed.Some? ==> Reaches(r, h.receiver, d, h.pushed.value))
  {
    if d.Datagram? && d.session in r.peers {
      FromKnownEffect(r, d, src, now);
    } else if d.Datagram? {
      AdmitIsQuiet(r, d, src, now, nextEpoch);
    }
  }

  /** Each audio sequence number of an epoch and a session was sealed once. */
  lemma OneBoxPerNumber(boxes: seq<Packet>, p: Packet, q: Packet, k: Key, x: nat)
    requires BoxesOk(boxes) && p in boxes && q in boxes && Carries(p, k, x) && Carries(q, k, x)
    ensures p == q
  {
    var i :| 0 <= i < |boxes| && boxes[i] == p;
    var j :| 0 <= j < |boxes| && boxes[j] == q;
    var lo, hi := Min(i, j), Max(i, j);
    assert lo == hi || Ordered(boxes[lo], boxes[hi]);
  }

  /** A box opened under a new counter carries a number that no log of consumed numbers has. */
  lemma OpenedIsNew(w: World, d: Datagram, log: Log, accepted: set<nat>, x: nat)
    requires Inv(w) && Possible(w.boxes, d) && d.Datagram? && d.kind == KIND_AUDIO && d.session in w.receiver.peers
    requires d.counter !in w.receiver.peers[d.session].accepted && d.counter in accepted
    requires var contents := OpenBox(ToReceiver, w.receiver.epoch, d.session, d);
             contents.Some? && SeqOf(contents.value) == x
    requires PushedOk(w.boxes, log, w.receiver.peers, w.receiver.epoch, w.used)
    ensures x !in At(log, (w.receiver.epoch, d.session))
    ensures Consumed(w.boxes, (w.receiver.epoch, d.session), x, accepted)
    ensures exists p :: p in w.boxes && Carries(p, (w.receiver.epoch, d.session), x)
  {
    var k, r := (w.receiver.epoch, d.session), w.receiver;
    OpenedWasSealed(w.boxes, ToReceiver, r.epoch, d.session, d);
    var body := OpenBox(ToReceiver, r.epoch, d.session, d).value;
    var p := Packet(ToReceiver, r.epoch, d.session, d.counter, d.kind, body);
    assert Carries(p, k, x);
    forall q | q in w.boxes && Carries(q, k, x)
      ensures q == p
    {
      OneBoxPerNumber(w.boxes, p, q, k, x);
    }
    if k in log {
      assert PushedAt(w.boxes, k, log[k], r.peers, r.epoch, w.used);
    }
  }

  lemma ReachingIsNew(w: World, r': Receiver, d: Datagram, x: nat)
    requires Inv(w) && Possible(w.boxes, d) && Reaches(w.receiver, r', d, x)
    ensures x !in At(w.pushed, (w.receiver.epoch, d.session))
    ensures Consumed(w.boxes, (w.receiver.epoch, d.session), x, r'.peers[d.session].accepted)
  {
    OpenedIsNew(w, d, w.pushed, r'.peers[d.session].accepted, x);
  }

  lemma PushedGrows(boxes: seq<Packet>, pushed: Log, peers: Peers, epoch: Id, used: set<Id>, k: Key, x: nat)
    requires PushedOk(boxes, pushed, peers, epoch, used)
    requires k.0 == epoch && epoch in used && k.1 in peers && x !in At(pushed, k)
    requires Consumed(boxes, k, x, peers[k.1].accepted)
    ensures PushedOk(boxes, Logged(pushed, k, [x]), peers, epoch, used)
  {
    var xs := At(pushed, k);
    if k in pushed {
      assert PushedAt(boxes, k, xs, peers, epoch, used);
    }
    var p :| p in boxes && Carries(p, k, x) && p.counter in peers[k.1].accepted;
    assert Authentic(boxes, k, x);
    assert PushedAt(boxes, k, xs + [x], peers, epoch, used);
  }

  lemma ReachingKeepsInv(w: World, r': Receiver, d: Datagram, x: UInt64)
    requires Inv(w) && Possible(w.boxes, d) && ReceiverTable.TableOk(r') && Reaches(w.receiver, r', d, x)
    ensures Inv(w.(receiver := r', pushed := Logged(w.pushed, (w.receiver.epoch, d.session), [x])))
  {
    var k, r := (w.receiver.epoch, d.session), w.receiver;
    ReachingIsNew(w, r', d, x);
    PushedUnderGrownPeers(w.boxes, w.pushed, r.peers, r'.peers, r.epoch, w.used);
    PushedGrows(w.boxes, w.pushed, r'.peers, r.epoch, w.used, k, x);
    var pcm := Chunk(OpenBox(ToReceiver, r.epoch, d.session, d).value).value.1;
    LoggedIsGrown(w.pushed, k, [x]);
    LoggedIsGrown(w.played, k, []);
    BufferStepKeepsInv(w, r', d.session, Op.Push(x, pcm), Logged(w.pushed, k, [x]), w.played);
  }

  lemma InvBuffersRun(w: World)
    requires Inv(w)
    ensures BuffersRun(w.receiver.mixer)
  {
    forall s | s in w.receiver.mixer.streams
      ensures w.receiver.mixer.streams[s].buffer.packetFrames > 0
    {
      var k := (w.receiver.epoch, s);
      assert StreamOk(w.receiver.mixer.streams[s].buffer, At(w.played, k), At(w.pushed, k), PacketFrames(w.receiver.mixer));
    }
  }

  lemma SameEpochArrival(w: World, session: Id, h: Handled)
    requires w.receiver.epoch in w.used && h.receiver.epoch == w.receiver.epoch
    ensures Arrived(w, session, h)
            == (if h.pushed.Some?
                then w.(receiver := h.receiver, pushed := Logged(w.pushed, (w.receiver.epoch, session), [h.pushed.value]))
                else w.(receiver := h.receiver)).(counted := Arrived(w, session, h).counted)
  {
    assert w.used + {h.receiver.epoch} == w.used;
  }

  lemma EffectKeepsInv(w: World, d: Datagram, h: Handled, nextEpoch: Id)
    requires Inv(w) && Possible(w.boxes, d) && nextEpoch !in w.used && d.Datagram?
    requires ReceiverTable.TableOk(h.receiver)
    requires h.pushed.None? ==> Quiet(w.receiver, h.receiver) || Turned(w.receiver, h.receiver, nextEpoch)
    requires h.pushed.Some? ==> Reaches(w.receiver, h.receiver, d, h.pushed.value)
    ensures Inv(Arrived(w, d.session, h))
  {
    if h.receiver.epoch == w.receiver.epoch {
      SameEpochArrival(w, d.session, h);
      if h.pushed.Some? {
        ReachingKeepsInv(w, h.receiver, d, h.pushed.value);
      } else {
        QuietStepKeepsInv(w, h.receiver);
      }
    } else {
      RotationKeepsInv(w, h.receiver);
    }
  }

  lemma ArriveKeepsInv(w: World, d: Datagram, src: nat, now: nat, nextEpoch: Id)
    requires Inv(w) && Possible(w.boxes, d) && nextEpoch !in w.used && d.Datagram?
    ensures Inv(Arrived(w, d.session, w.receiver.Handle(d, src, now, nextEpoch)))
  {
    var r := w.receiver;
    var h := r.Handle(d, src, now, nextEpoch);
    InvBuffersRun(w);
    HandleEffect(r, d, src, now, nextEpoch);
    ReceiverTable.HandleKeepsTable(r, d, src, now, nextEpoch);
    EffectKeepsInv(w, d, h, nextEpoch);
  }

  lemma UnparsableKeepsInv(w: World)
    requires Inv(w)
    ensures Inv(w.(receiver := w.receiver.Rejected()))
  {
    QuietStepKeepsInv(w, w.receiver.Rejected());
  }

  /** Sealing a report: the peer's counter is past all others under its key. */
  lemma ReportSealed(w: World, s: Id, p: Packet, r': Receiver)
    requires Inv(w) && s in w.receiver.peers && w.receiver.peers[s].sendCounter < U64_MAX
    requires p == Packet(ToSender, w.receiver.epoch, s, w.receiver.peers[s].sendCounter + 1, KIND_FEEDBACK, p.body)
    requires r'.epoch == w.receiver.epoch && PeersGrow(w.receiver.peers, r'.peers)
    requires r'.peers[s].sendCounter == w.receiver.peers[s].sendCounter + 1
    requires Inv(w.(receiver := r'))
    ensures Inv(w.(receiver := r', boxes := w.boxes + [p]))
  {
    forall q | q in w.boxes && SameSecret(q, p)
      ensures q.counter < p.counter
    {
      assert ReportedOk(q, w.receiver.peers, w.receiver.epoch, w.used);
    }
    BoxesGrow(w.boxes, p);
    PushedUnderMoreBoxes(w.boxes, p, w.pushed, r'.peers, r'.epoch, w.used);
    ObeyedUnderMoreBoxes(w.boxes, p, w.obeyed, w.senders, w.bound);
  }

  lemma FeedbackEffect(r: Receiver, s: Id, now: nat)
    requires s in r.peers && r.peers[s].sendCounter < U64_MAX
    ensures var out := r.Feedback(s, now);
            && (out.1.None? ==> out.0 == r)
            && (out.1.Some? ==>
                  && out.1.value == Packet(ToSender, r.epoch, s, r.peers[s].sendCounter + 1, KIND_FEEDBACK, out.1.value.body)
                  && out.0.epoch == r.epoch && PeersGrow(r.peers, out.0.peers)
                  && out.0.peers[s].sendCounter == r.peers[s].sendCounter + 1
                  && out.0.mixer == r.mixer.Retargeted(s, r.ReportTarget(s)))
  {
  }

  lemma ReportKeepsInv(w: World, s: Id, now: nat)
    requires Inv(w) && s in w.receiver.peers && w.receiver.peers[s].sendCounter < U64_MAX
    ensures var out := w.receiver.Feedback(s, now);
            Inv(w.(receiver := out.0, boxes := Boxed(w.boxes, out.1)))
  {
    var out := w.receiver.Feedback(s, now);
    FeedbackEffect(w.receiver, s, now);
    if out.1.Some? {
      ReceiverTable.FeedbackKeepsTable(w.receiver, s, now);
      RetargetKeepsInv(w, out.0, s, w.receiver.ReportTarget(s));
      ReportSealed(w, s, out.1.value, out.0);
    }
  }

  lemma RetargetStreamKeepsInv(w: World, s: Id, packets: nat)
    requires Inv(w)
    ensures Inv(w.(receiver := w.receiver.(mixer := w.receiver.mixer.Retargeted(s, packets))))
  {
    var r' := w.receiver.(mixer := w.receiver.mixer.Retargeted(s, packets));
    ReceiverTable.SameStreams(w.receiver.mixer, s, 0, 0, [], packets);
    ReceiverTable.SameKeys(w.receiver.mixer.streams, r'.mixer.streams);
    RetargetKeepsInv(w, r', s, packets);
  }

  lemma ReceivingKeepsInv(w: World, event: Event)
    requires Inv(w) && Enabled(w, event) && Receives(event)
    ensures Inv(Next(w, event))
  {
    match event
    case Arrive(d, src, now, nextEpoch) =>
      if d.Datagram? {
        ArriveKeepsInv(w, d, src, now, nextEpoch);
      } else {
        UnparsableKeepsInv(w);
      }
    case Expire(maxIdle, now) => ExpireKeepsInv(w, maxIdle, now);
    case Pull(s, frames) =>
      if s in w.receiver.mixer.streams && w.receiver.mixer.streams[s].buffer.packetFrames > 0 {
        PullKeepsInv(w, s, frames);
      }
    case Retarget(s, packets) => RetargetStreamKeepsInv(w, s, packets);
    case SetDefault(packets) => SetDefaultKeepsInv(w, Clamp(packets, 1, Playout.MAX_SLOTS));
  }

  lemma StepKeepsInv(w: World, event: Event)
    requires Inv(w) && Enabled(w, event)
    ensures Inv(Next(w, event))
  {
    if Sends(event) {
      SendKeepsInv(w, event);
    } else if Receives(event) {
      ReceivingKeepsInv(w, event);
    } else {
      match event
      case Bind(s, e) => BindKeepsInv(w, s, e);
      case Report(s, now) => ReportKeepsInv(w, s, now);
      case ArriveReport(s, d) => ReportArrivesKeepsInv(w, s, d);
    }
  }
}
