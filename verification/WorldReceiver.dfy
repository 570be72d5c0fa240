/** The steps of the receiver, its mixer and its listeners keep the world's invariant. */
module WorldReceiver {
  import opened Wire
  import opened Secure
  import opened ReceiverModel
  import ReceiverTable
  import Playout
  import opened PlayoutRuns
  import opened World
  import opened WorldInvariant

  /** Peers stay, use up more counters, and never go back with their own. */
  ghost predicate PeersGrow(peers: Peers, peers': Peers)
  {
    forall s | s in peers :: s in peers' && peers[s].accepted <= peers'[s].accepted
                             && peers[s].sendCounter <= peers'[s].sendCounter
  }

  /** The buffer of a stream that has just been opened. */
  function NewBuffer(m: Mixer): Playout.State
  {
    Playout.Fresh(m.bytesPerFrame, m.packetFrames).Retarget(m.defaultTarget)
  }

  /** Streams that go on keep their buffers; others start afresh. */
  ghost predicate BuffersKept(m: Mixer, m': Mixer)
  {
    && m'.bytesPerFrame == m.bytesPerFrame && m'.packetFrames == m.packetFrames
    && forall s | s in m'.streams ::
         m'.streams[s].buffer == if s in m.streams then m.streams[s].buffer else NewBuffer(m)
  }

  /** One stream's buffer takes a step, the others are left alone. */
  ghost predicate BufferSteps(m: Mixer, m': Mixer, s: Id, op: Op)
  {
    && m'.bytesPerFrame == m.bytesPerFrame && m'.packetFrames == m.packetFrames && s in m.streams && s in m'.streams
    && m.streams[s].buffer.packetFrames > 0 && m'.streams[s].buffer == Step(m.streams[s].buffer, op)
    && forall t | t in m'.streams && t != s :: t in m.streams && m'.streams[t].buffer == m.streams[t].buffer
  }

  lemma NewBufferIsEmpty(m: Mixer)
    ensures NewBuffer(m).Valid() && NewBuffer(m).slots == map[] && NewBuffer(m).packetFrames == PacketFrames(m)
  {
    Playout.RetargetKeepsValid(Playout.Fresh(m.bytesPerFrame, m.packetFrames), m.defaultTarget);
  }

  lemma CountersUnderGrownPeers(boxes: seq<Packet>, senders: Senders, bound: set<Key>, peers: Peers, peers': Peers,
                                epoch: Id, used: set<Id>)
    requires CountersOk(boxes, senders, bound, peers, epoch, used) && PeersGrow(peers, peers')
    ensures CountersOk(boxes, senders, bound, peers', epoch, used)
  {
    forall p | p in boxes
      ensures ReportedOk(p, peers', epoch, used)
    {
      assert ReportedOk(p, peers, epoch, used);
    }
  }

  lemma PushedUnderGrownPeers(boxes: seq<Packet>, pushed: Log, peers: Peers, peers': Peers, epoch: Id, used: set<Id>)
    requires PushedOk(boxes, pushed, peers, epoch, used) && PeersGrow(peers, peers')
    ensures PushedOk(boxes, pushed, peers', epoch, used)
  {
    forall k | k in pushed
      ensures PushedAt(boxes, k, pushed[k], peers', epoch, used)
    {
      assert PushedAt(boxes, k, pushed[k], peers, epoch, used);
      if k.0 == epoch {
        forall x | x in pushed[k]
          ensures k.1 in peers' && Consumed(boxes, k, x, peers'[k.1].accepted)
        {
          var p :| p in boxes && Carries(p, k, x) && p.counter in peers[k.1].accepted;
          assert p.counter in peers'[k.1].accepted;
        }
      }
    }
  }

  lemma StreamsUnderKeptBuffers(m: Mixer, m': Mixer, played: Log, pushed: Log, epoch: Id, used: set<Id>)
    requires StreamsOk(m.streams, played, pushed, epoch, PacketFrames(m)) && BuffersKept(m, m')
    requires PlayedOk(played, pushed, PacketFrames(m), used)
    ensures StreamsOk(m'.streams, played, pushed, epoch, PacketFrames(m'))
  {
    NewBufferIsEmpty(m);
    forall s | s in m'.streams
      ensures StreamOk(m'.streams[s].buffer, At(played, (epoch, s)), At(pushed, (epoch, s)), PacketFrames(m))
    {
      if s in m.streams {
        assert StreamOk(m.streams[s].buffer, At(played, (epoch, s)), At(pushed, (epoch, s)), PacketFrames(m));
      } else if (epoch, s) in played {
        assert PlayedAt(played[(epoch, s)], At(pushed, (epoch, s)), PacketFrames(m));
      }
    }
  }

  /** A step of the receiver that hands no packet to a buffer. */
  lemma QuietStepKeepsInv(w: World, r': Receiver)
    requires Inv(w) && ReceiverTable.TableOk(r')
    requires r'.epoch == w.receiver.epoch && PeersGrow(w.receiver.peers, r'.peers)
    requires BuffersKept(w.receiver.mixer, r'.mixer)
    ensures Inv(w.(receiver := r'))
  {
    var r := w.receiver;
    CountersUnderGrownPeers(w.boxes, w.senders, w.bound, r.peers, r'.peers, r.epoch, w.used);
    PushedUnderGrownPeers(w.boxes, w.pushed, r.peers, r'.peers, r.epoch, w.used);
    StreamsUnderKeptBuffers(r.mixer, r'.mixer, w.played, w.pushed, r.epoch, w.used);
  }

  /** A fresh epoch forgets every peer and stream, and nothing was ever sealed, pushed or played under it. */
  lemma RotationKeepsInv(w: World, r': Receiver)
    requires Inv(w) && r'.epoch !in w.used && r'.peers == map[] && r'.mixer.streams == map[]
    requires r'.mixer.packetFrames == w.receiver.mixer.packetFrames
    ensures Inv(w.(receiver := r', used := w.used + {r'.epoch}))
  {
    var used' := w.used + {r'.epoch};
    forall p | p in w.boxes
      ensures ReportedOk(p, r'.peers, r'.epoch, used')
    {
      assert ReportedOk(p, w.receiver.peers, w.receiver.epoch, w.used);
    }
    forall k | k in w.pushed
      ensures PushedAt(w.boxes, k, w.pushed[k], r'.peers, r'.epoch, used')
    {
      assert PushedAt(w.boxes, k, w.pushed[k], w.receiver.peers, w.receiver.epoch, w.used);
    }
  }

  lemma BehindIsPlayed(buffer: Playout.State, qs: seq<nat>, xs: seq<nat>, pf: nat)
    requires Behind(buffer, qs, SetOf(xs)) && Distinct(qs) && buffer.packetFrames == pf
    ensures StreamOk(buffer, qs, xs, pf) && PlayedAt(qs, xs, pf)
  {
    forall q | q in qs
      ensures q / pf in xs
    {
      assert q / pf in SetOf(xs);
    }
  }

  lemma StreamSteps(buffer: Playout.State, qs: seq<nat>, xs: seq<nat>, pf: nat, op: Op)
    requires StreamOk(buffer, qs, xs, pf) && PlayedAt(qs, xs, pf) && (op.Push? ==> op.seqNo !in xs)
    ensures var xs' := xs + (if op.Push? then [op.seqNo] else []);
            && StreamOk(Step(buffer, op), qs + Played(buffer, op), xs', pf)
            && PlayedAt(qs + Played(buffer, op), xs', pf)
  {
    var xs' := xs + (if op.Push? then [op.seqNo] else []);
    assert SetOf(xs') == SetOf(xs) + (if op.Push? then {op.seqNo} else {});
    StepKeepsBehind(buffer, qs, SetOf(xs), op);
    StepKeepsValid(buffer, op);
    BehindIsPlayed(Step(buffer, op), qs + Played(buffer, op), xs', pf);
  }

  /** One entry of a log has grown. */
  ghost predicate Grown(log: Log, log': Log, k: Key, more: seq<nat>)
  {
    && At(log', k) == At(log, k) + more
    && (forall l | l != k :: l in log' <==> l in log)
    && (forall l | l in log && l != k :: log'[l] == log[l])
  }

  lemma PlayedStays(played: Log, played': Log, pushed: Log, pushed': Log, pf: nat, used: set<Id>, k: Key,
                    qs: seq<nat>, xs: seq<nat>)
    requires PlayedOk(played, pushed, pf, used) && k.0 in used
    requires Grown(played, played', k, qs) && Grown(pushed, pushed', k, xs)
    requires PlayedAt(At(played', k), At(pushed', k), pf)
    ensures PlayedOk(played', pushed', pf, used)
  {
    forall l | l in played'
      ensures l.0 in used && PlayedAt(played'[l], At(pushed', l), pf)
    {
      if l != k {
        assert l in played && PlayedAt(played[l], At(pushed, l), pf);
      }
    }
  }

  lemma StreamsStay(m: Mixer, m': Mixer, played: Log, played': Log, pushed: Log, pushed': Log, epoch: Id, s: Id, op: Op,
                    qs: seq<nat>, xs: seq<nat>)
    requires StreamsOk(m.streams, played, pushed, epoch, PacketFrames(m)) && BufferSteps(m, m', s, op)
    requires Grown(played, played', (epoch, s), qs) && Grown(pushed, pushed', (epoch, s), xs)
    requires StreamOk(m'.streams[s].buffer, At(played', (epoch, s)), At(pushed', (epoch, s)), PacketFrames(m))
    ensures StreamsOk(m'.streams, played', pushed', epoch, PacketFrames(m'))
  {
    forall t | t in m'.streams
      ensures StreamOk(m'.streams[t].buffer, At(played', (epoch, t)), At(pushed', (epoch, t)), PacketFrames(m))
    {
      if t != s {
        assert StreamOk(m.streams[t].buffer, At(played, (epoch, t)), At(pushed, (epoch, t)), PacketFrames(m));
        assert (epoch, t) != (epoch, s);
      }
    }
  }

  lemma PlayedHere(w: World, k: Key)
    requires PlayedOk(w.played, w.pushed, PacketFrames(w.receiver.mixer), w.used)
    ensures PlayedAt(At(w.played, k), At(w.pushed, k), PacketFrames(w.receiver.mixer))
  {
    if k in w.played {
      assert PlayedAt(w.played[k], At(w.pushed, k), PacketFrames(w.receiver.mixer));
    }
  }

  /** A stream's buffer takes a step that the logs record. */
  lemma BufferStepKeepsInv(w: World, r': Receiver, s: Id, op: Op, pushed': Log, played': Log)
    requires Inv(w) && ReceiverTable.TableOk(r')
    requires r'.epoch == w.receiver.epoch && PeersGrow(w.receiver.peers, r'.peers)
    requires BufferSteps(w.receiver.mixer, r'.mixer, s, op)
    requires op.Push? ==> op.seqNo !in At(w.pushed, (r'.epoch, s))
    requires Grown(w.played, played', (r'.epoch, s), Played(w.receiver.mixer.streams[s].buffer, op))
    requires Grown(w.pushed, pushed', (r'.epoch, s), if op.Push? then [op.seqNo] else [])
    requires PushedOk(w.boxes, pushed', r'.peers, r'.epoch, w.used)
    ensures Inv(w.(receiver := r', pushed := pushed', played := played'))
  {
    var r, k, pf := w.receiver, (r'.epoch, s), PacketFrames(w.receiver.mixer);
    CountersUnderGrownPeers(w.boxes, w.senders, w.bound, r.peers, r'.peers, r.epoch, w.used);
    PlayedHere(w, k);
    var buffer := r.mixer.streams[s].buffer;
    assert StreamOk(buffer, At(w.played, k), At(w.pushed, k), pf);
    StreamSteps(buffer, At(w.played, k), At(w.pushed, k), pf, op);
    var qs, xs := Played(buffer, op), if op.Push? then [op.seqNo] else [];
    PlayedStays(w.played, played', w.pushed, pushed', pf, w.used, k, qs, xs);
    StreamsStay(r.mixer, r'.mixer, w.played, played', w.pushed, pushed', r.epoch, s, op, qs, xs);
  }

  lemma SteppedIsAStep(r: Receiver, s: Id, op: Op)
    requires s in r.mixer.streams && r.mixer.streams[s].buffer.packetFrames > 0
    ensures BufferSteps(r.mixer, Stepped(r, s, op).mixer, s, op)
    ensures PeersGrow(r.peers, Stepped(r, s, op).peers) && Stepped(r, s, op).epoch == r.epoch
    ensures ReceiverTable.TableOk(r) ==> ReceiverTable.TableOk(Stepped(r, s, op))
  {
    var next := Step(r.mixer.streams[s].buffer, op);
    assert Stepped(r, s, op).mixer.streams.Keys == r.mixer.streams.Keys;
    ReceiverTable.SameKeys(r.mixer.streams, Stepped(r, s, op).mixer.streams);
  }

  lemma LoggedIsGrown(log: Log, k: Key, more: seq<nat>)
    ensures Grown(log, Logged(log, k, more), k, more) && Grown(log, log, k, [])
  {
  }

  lemma PullKeepsInv(w: World, s: Id, frames: nat)
    requires Inv(w) && s in w.receiver.mixer.streams && w.receiver.mixer.streams[s].buffer.packetFrames > 0
    ensures Inv(PulledFrom(w, s, frames))
  {
    var op := Op.Pull(frames);
    var k, qs := (w.receiver.epoch, s), Played(w.receiver.mixer.streams[s].buffer, op);
    SteppedIsAStep(w.receiver, s, op);
    LoggedIsGrown(w.played, k, qs);
    LoggedIsGrown(w.pushed, k, []);
    BufferStepKeepsInv(w, Stepped(w.receiver, s, op), s, op, w.pushed, Logged(w.played, k, qs));
    assert w.(receiver := Stepped(w.receiver, s, op), pushed := w.pushed, played := Logged(w.played, k, qs))
        == PulledFrom(w, s, frames).(sounded := w.sounded);
  }

  lemma RetargetedSteps(m: Mixer, s: Id, packets: nat)
    requires s in m.streams && m.streams[s].buffer.packetFrames > 0
    ensures BufferSteps(m, m.Retargeted(s, packets), s, Op.Retarget(packets))
    ensures Played(m.streams[s].buffer, Op.Retarget(packets)) == []
  {
    assert Step(m.streams[s].buffer, Op.Retarget(packets)) == m.streams[s].buffer.Retarget(packets);
  }

  lemma RetargetKeepsInv(w: World, r': Receiver, s: Id, packets: nat)
    requires Inv(w) && ReceiverTable.TableOk(r') && r'.epoch == w.receiver.epoch && PeersGrow(w.receiver.peers, r'.peers)
    requires r'.mixer == w.receiver.mixer.Retargeted(s, packets)
    ensures Inv(w.(receiver := r'))
  {
    var m, k := w.receiver.mixer, (r'.epoch, s);
    if s in m.streams {
      assert StreamOk(m.streams[s].buffer, At(w.played, k), At(w.pushed, k), PacketFrames(m));
      RetargetedSteps(m, s, packets);
      LoggedIsGrown(w.played, k, []);
      LoggedIsGrown(w.pushed, k, []);
      PushedUnderGrownPeers(w.boxes, w.pushed, w.receiver.peers, r'.peers, r'.epoch, w.used);
      BufferStepKeepsInv(w, r', s, Op.Retarget(packets), w.pushed, w.played);
    } else {
      QuietStepKeepsInv(w, r');
    }
  }

  lemma ExpireIsQuiet(r: Receiver, maxIdle: nat, now: nat)
    ensures var r' := r.Expire(maxIdle, now);
            r'.epoch == r.epoch && PeersGrow(r.peers, r'.peers) && BuffersKept(r.mixer, r'.mixer)
  {
  }

  lemma ExpireKeepsInv(w: World, maxIdle: nat, now: nat)
    requires Inv(w)
    ensures Inv(w.(receiver := w.receiver.Expire(maxIdle, now)))
  {
    ReceiverTable.ExpireKeepsTable(w.receiver, maxIdle, now);
    ExpireIsQuiet(w.receiver, maxIdle, now);
    QuietStepKeepsInv(w, w.receiver.Expire(maxIdle, now));
  }

  lemma SetDefaultKeepsInv(w: World, packets: nat)
    requires Inv(w)
    ensures Inv(w.(receiver := w.receiver.(mixer := w.receiver.mixer.(defaultTarget := packets))))
  {
    var r' := w.receiver.(mixer := w.receiver.mixer.(defaultTarget := packets));
    QuietStepKeepsInv(w, r');
  }
}
