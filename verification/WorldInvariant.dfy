/** What every run of the world keeps, component by component. */
module WorldInvariant {
  import opened Bytes
  import opened Wire
  import opened Secure
  import SenderModel
  import opened ReceiverModel
  import ReceiverTable
  import Playout
  import opened PlayoutRuns
  import opened World

  ghost predicate SameSecret(p: Packet, q: Packet)
  {
    p.direction == q.direction && p.epoch == q.epoch && p.session == q.session
  }

  ghost predicate IsAudio(p: Packet) { p.direction == ToReceiver && p.kind == KIND_AUDIO }

  /** Under one key, counters only ever go up, and so do the audio sequence numbers. */
  ghost predicate Ordered(p: Packet, q: Packet)
  {
    SameSecret(p, q) ==> p.counter < q.counter && (IsAudio(p) && IsAudio(q) ==> SeqOf(p.body) < SeqOf(q.body))
  }

  ghost predicate BoxesOk(boxes: seq<Packet>)
  {
    forall i, j | 0 <= i < j < |boxes| :: Ordered(boxes[i], boxes[j])
  }

  ghost predicate SenderOk(s: Id, sender: SenderModel.Sender, bound: set<Key>)
  {
    && sender.session == s
    && (sender.epoch.Some? ==> (sender.epoch.value, s) in bound && sender.audioSeq <= sender.counter)
  }

  /** A sender's counters are past everything sealed under its present epoch. */
  ghost predicate SentOk(p: Packet, senders: Senders, bound: set<Key>)
  {
    p.direction == ToReceiver ==>
      && p.session in senders && (p.epoch, p.session) in bound
      && (senders[p.session].epoch == Some(p.epoch) ==>
            p.counter <= senders[p.session].counter && (IsAudio(p) ==> SeqOf(p.body) <= senders[p.session].audioSeq))
  }

  /** So are the receiver's, for the peers of its present epoch. */
  ghost predicate ReportedOk(p: Packet, peers: Peers, epoch: Id, used: set<Id>)
  {
    p.direction == ToSender ==>
      && p.epoch in used
      && (p.epoch == epoch ==> p.session in peers && p.counter <= peers[p.session].sendCounter)
  }

  ghost predicate CountersOk(boxes: seq<Packet>, senders: Senders, bound: set<Key>, peers: Peers, epoch: Id, used: set<Id>)
  {
    && epoch in used
    && (forall s | s in senders :: SenderOk(s, senders[s], bound))
    && (forall p | p in boxes :: SentOk(p, senders, bound) && ReportedOk(p, peers, epoch, used))
  }

  /** The packet that carried a sequence number of an epoch and a session. */
  ghost predicate Carries(p: Packet, k: Key, x: nat)
  {
    IsAudio(p) && p.epoch == k.0 && p.session == k.1 && SeqOf(p.body) == x
  }

  ghost predicate Authentic(boxes: seq<Packet>, k: Key, x: nat)
  {
    exists p :: p in boxes && Carries(p, k, x)
  }

  /** Authentic, by a packet whose counter is used up. */
  ghost predicate Consumed(boxes: seq<Packet>, k: Key, x: nat, accepted: set<nat>)
  {
    exists p :: p in boxes && Carries(p, k, x) && p.counter in accepted
  }

  ghost predicate PushedAt(boxes: seq<Packet>, k: Key, xs: seq<nat>, peers: Peers, epoch: Id, used: set<Id>)
  {
    && k.0 in used && Distinct(xs)
    && (forall x | x in xs :: Authentic(boxes, k, x))
    && (k.0 == epoch ==> forall x | x in xs :: k.1 in peers && Consumed(boxes, k, x, peers[k.1].accepted))
  }

  ghost predicate PushedOk(boxes: seq<Packet>, pushed: Log, peers: Peers, epoch: Id, used: set<Id>)
  {
    forall k | k in pushed :: PushedAt(boxes, k, pushed[k], peers, epoch, used)
  }

  ghost function SetOf(xs: seq<nat>): set<nat> { set x | x in xs }

  /** Frames played belong to packets pushed, and none is played twice. */
  ghost predicate PlayedAt(qs: seq<nat>, xs: seq<nat>, pf: nat)
  {
    pf > 0 && Distinct(qs) && forall q | q in qs :: q / pf in xs
  }

  ghost predicate PlayedOk(played: Log, pushed: Log, pf: nat, used: set<Id>)
  {
    forall k | k in played :: k.0 in used && PlayedAt(played[k], At(pushed, k), pf)
  }

  /** Each stream's buffer is behind what its session has had pushed and played. */
  ghost predicate StreamOk(buffer: Playout.State, qs: seq<nat>, xs: seq<nat>, pf: nat)
  {
    buffer.packetFrames == pf && Behind(buffer, qs, SetOf(xs))
  }

  ghost predicate StreamsOk(streams: Streams, played: Log, pushed: Log, epoch: Id, pf: nat)
  {
    forall s | s in streams :: StreamOk(streams[s].buffer, At(played, (epoch, s)), At(pushed, (epoch, s)), pf)
  }

  ghost predicate ObeyedAt(boxes: seq<Packet>, k: Key, cs: seq<nat>, senders: Senders, bound: set<Key>)
  {
    && k in bound && Distinct(cs)
    && (forall c | c in cs :: exists p :: p in boxes && p == Packet(ToSender, k.0, k.1, c, KIND_FEEDBACK, p.body))
    && (k.1 in senders && senders[k.1].epoch == Some(k.0) ==> forall c | c in cs :: c in senders[k.1].accepted)
  }

  ghost predicate ObeyedOk(boxes: seq<Packet>, obeyed: Log, senders: Senders, bound: set<Key>)
  {
    forall k | k in obeyed :: ObeyedAt(boxes, k, obeyed[k], senders, bound)
  }

  function PacketFrames(m: Mixer): nat { Max(m.packetFrames, 1) }

  ghost predicate Inv(w: World)
  {
    && ReceiverTable.TableOk(w.receiver)
    && BoxesOk(w.boxes)
    && CountersOk(w.boxes, w.senders, w.bound, w.receiver.peers, w.receiver.epoch, w.used)
    && PushedOk(w.boxes, w.pushed, w.receiver.peers, w.receiver.epoch, w.used)
    && PlayedOk(w.played, w.pushed, PacketFrames(w.receiver.mixer), w.used)
    && StreamsOk(w.receiver.mixer.streams, w.played, w.pushed, w.receiver.epoch, PacketFrames(w.receiver.mixer))
    && ObeyedOk(w.boxes, w.obeyed, w.senders, w.bound)
  }

  lemma InitialInv(w: World)
    requires Initial(w)
    ensures Inv(w)
  {
  }

  // One more box.

  lemma BoxesGrow(boxes: seq<Packet>, p: Packet)
    requires BoxesOk(boxes)
    requires forall q | q in boxes && SameSecret(q, p) :: q.counter < p.counter && (IsAudio(q) && IsAudio(p) ==> SeqOf(q.body) < SeqOf(p.body))
    ensures BoxesOk(boxes + [p])
  {
    forall i, j | 0 <= i < j < |boxes + [p]|
      ensures Ordered((boxes + [p])[i], (boxes + [p])[j])
    {
      assert boxes[i] in boxes;
    }
  }

  lemma PushedUnderMoreBoxes(boxes: seq<Packet>, p: Packet, pushed: Log, peers: Peers, epoch: Id, used: set<Id>)
    requires PushedOk(boxes, pushed, peers, epoch, used)
    ensures PushedOk(boxes + [p], pushed, peers, epoch, used)
  {
    forall k | k in pushed
      ensures PushedAt(boxes + [p], k, pushed[k], peers, epoch, used)
    {
      forall x | x in pushed[k]
        ensures Authentic(boxes + [p], k, x)
        ensures k.0 == epoch ==> Consumed(boxes + [p], k, x, peers[k.1].accepted)
      {
        assert PushedAt(boxes, k, pushed[k], peers, epoch, used);
        var q :| q in boxes && Carries(q, k, x);
        assert q in boxes + [p];
        if k.0 == epoch {
          var c :| c in boxes && Carries(c, k, x) && c.counter in peers[k.1].accepted;
          assert c in boxes + [p];
        }
      }
    }
  }

  lemma ObeyedUnderMoreBoxes(boxes: seq<Packet>, p: Packet, obeyed: Log, senders: Senders, bound: set<Key>)
    requires ObeyedOk(boxes, obeyed, senders, bound)
    ensures ObeyedOk(boxes + [p], obeyed, senders, bound)
  {
    forall k | k in obeyed
      ensures ObeyedAt(boxes + [p], k, obeyed[k], senders, bound)
    {
      assert ObeyedAt(boxes, k, obeyed[k], senders, bound);
      forall c | c in obeyed[k]
        ensures exists q :: q in boxes + [p] && q == Packet(ToSender, k.0, k.1, c, KIND_FEEDBACK, q.body)
      {
        var q :| q in boxes && q == Packet(ToSender, k.0, k.1, c, KIND_FEEDBACK, q.body);
        assert q in boxes + [p];
      }
    }
  }
}
