/** What every step keeps about the session table and the mixer. */
module ReceiverTable {
  import opened Bytes
  import opened Wire
  import opened PeerStats
  import opened Secure
  import opened ReceiverModel
  import Playout
  import Utf8
  import Replay

  /** The history is bounded, so are the streams, and every stream belongs to a known active peer. */
  ghost predicate Sound(peers: Peers, streams: Streams, historyCap: nat)
  {
    && |peers| <= historyCap && |streams| <= MAX_STREAMS
    && (forall s | s in streams :: s in peers && peers[s].active)
  }

  ghost predicate TableOk(r: Receiver)
  {
    Sound(r.peers, r.mixer.streams, r.historyCap)
  }

  lemma UpdatedSize<V>(m: map<Id, V>, k: Id, v: V)
    ensures |m[k := v]| == if k in m then |m| else |m| + 1
  {
    if k in m {
      assert m[k := v].Keys == m.Keys;
    } else {
      assert m[k := v].Keys == m.Keys + {k};
    }
  }

  lemma EnsuredStreams(m: Mixer, id: Id, name: seq<Utf8.Scalar>, now: nat)
    requires |m.streams| <= MAX_STREAMS
    ensures m.Ensured(id, name, now).None? <==> id !in m.streams && |m.streams| == MAX_STREAMS
    ensures m.Ensured(id, name, now).Some? ==>
              && var m' := m.Ensured(id, name, now).value;
              && |m'.streams| <= MAX_STREAMS && m'.streams.Keys == m.streams.Keys + {id}
  {
    if m.Ensured(id, name, now).Some? {
      UpdatedSize(m.streams, id, m.Ensured(id, name, now).value.streams[id]);
    }
  }

  lemma SameStreams(m: Mixer, id: Id, now: nat, seqNo: nat, pcm: seq<Byte>, packets: nat)
    ensures m.Touched(id, now).streams.Keys == m.streams.Keys
    ensures m.Pushed(id, seqNo, pcm, now).streams.Keys == m.streams.Keys
    ensures m.Retargeted(id, packets).streams.Keys == m.streams.Keys
  {
  }

  lemma SameKeys<V, W>(a: map<Id, V>, b: map<Id, W>)
    requires a.Keys == b.Keys
    ensures |a| == |b|
  {
  }

  lemma EnterKeepsTable(r: Receiver, session: Id, counter: nat, src: nat, now: nat, name: seq<Utf8.Scalar>)
    requires TableOk(r) && session !in r.peers && |r.peers| < r.historyCap
    ensures TableOk(r.Enter(session, counter, src, now, name))
  {
    EnsuredStreams(r.mixer, session, name, now);
    if r.mixer.Ensured(session, name, now).Some? {
      UpdatedSize(r.peers, session, r.Enter(session, counter, src, now, name).peers[session]);
    }
  }

  lemma AdmitNamedKeepsTable(r: Receiver, session: Id, counter: nat, src: nat, now: nat, nextEpoch: Id, name: seq<Utf8.Scalar>)
    requires TableOk(r) && session !in r.peers
    ensures TableOk(r.AdmitNamed(session, counter, src, now, nextEpoch, name))
  {
    if |r.peers| < r.historyCap {
      EnterKeepsTable(r, session, counter, src, now, name);
    }
  }

  lemma AdmitKeepsTable(r: Receiver, d: Datagram, src: nat, now: nat, nextEpoch: Id)
    requires TableOk(r) && d.Datagram? && d.session !in r.peers
    ensures TableOk(r.Admit(d, src, now, nextEpoch))
  {
    var contents := OpenBox(ToReceiver, r.epoch, d.session, d);
    if contents.Some? && DecodeHello(contents.value).Some? {
      AdmitNamedKeepsTable(r, d.session, d.counter, src, now, nextEpoch, DecodeHello(contents.value).value);
    }
  }

  lemma ResumeKeepsTable(r: Receiver, session: Id, body: seq<Byte>, now: nat)
    requires TableOk(r) && session in r.peers
    ensures TableOk(r.Resume(session, body, now))
  {
    var name := DecodeHello(body);
    if name.Some? {
      EnsuredStreams(r.mixer, session, name.value, now);
      UpdatedSize(r.peers, session, r.Resume(session, body, now).peers[session]);
    }
  }

  lemma PlayKeepsTable(r: Receiver, session: Id, body: seq<Byte>, now: nat)
    requires TableOk(r) && session in r.peers
    ensures TableOk(r.Play(session, body, now).receiver)
  {
    var chunk := Chunk(body);
    if chunk.Some? {
      SameStreams(r.mixer, session, now, 0, [], 0);
      SameStreams(r.mixer.Touched(session, now), session, now, chunk.value.0, chunk.value.1, 0);
      SameKeys(r.mixer.streams, r.Play(session, body, now).receiver.mixer.streams);
      UpdatedSize(r.peers, session, r.Play(session, body, now).receiver.peers[session]);
    }
  }

  lemma ProbedKeepsTable(r: Receiver, session: Id, body: seq<Byte>, now: nat)
    requires TableOk(r) && session in r.peers
    ensures TableOk(r.Probed(session, body, now))
  {
    UpdatedSize(r.peers, session, r.Probed(session, body, now).peers[session]);
    SameStreams(r.mixer, session, now, 0, [], 0);
    SameKeys(r.mixer.streams, r.mixer.Touched(session, now).streams);
  }

  lemma NotedKeepsTable(r: Receiver, session: Id, counter: nat, src: nat)
    requires TableOk(r) && session in r.peers
    ensures TableOk(r.Noted(session, counter, src))
  {
    UpdatedSize(r.peers, session, r.Noted(session, counter, src).peers[session]);
  }

  lemma DispatchKeepsTable(r: Receiver, session: Id, kind: Byte, body: seq<Byte>, now: nat)
    requires TableOk(r) && session in r.peers
    ensures TableOk(r.Dispatch(session, kind, body, now).receiver)
  {
    ResumeKeepsTable(r, session, body, now);
    PlayKeepsTable(r, session, body, now);
    ProbedKeepsTable(r, session, body, now);
  }

  /** No datagram, well-formed or not, breaks the table. */
  lemma HandleKeepsTable(r: Receiver, d: Datagram, src: nat, now: nat, nextEpoch: Id)
    requires TableOk(r)
    ensures TableOk(r.Handle(d, src, now, nextEpoch).receiver)
  {
    if d.Datagram? && d.session in r.peers {
      NotedKeepsTable(r, d.session, d.counter, src);
      var contents := OpenBox(ToReceiver, r.epoch, d.session, d);
      if contents.Some? {
        DispatchKeepsTable(r.Noted(d.session, d.counter, src), d.session, d.kind, contents.value, now);
      }
    } else if d.Datagram? {
      AdmitKeepsTable(r, d, src, now, nextEpoch);
    }
  }

  lemma ReportedKeepsTable(r: Receiver, session: Id, next: UInt64, lastFeedback: Option<nat>, stats: Stats)
    requires TableOk(r) && session in r.peers
    ensures TableOk(r.Reported(session, next, lastFeedback, stats))
  {
    var packets := Playout.PacketsFor(stats.bufferMs);
    SameStreams(r.mixer, session, 0, 0, [], packets);
    SameKeys(r.mixer.streams, r.mixer.Retargeted(session, packets).streams);
    UpdatedSize(r.peers, session, r.Reported(session, next, lastFeedback, stats).peers[session]);
  }

  lemma FeedbackKeepsTable(r: Receiver, session: Id, now: nat)
    requires TableOk(r)
    ensures TableOk(r.Feedback(session, now).0)
  {
    if r.Due(session, now) {
      var peer := r.Feedback(session, now).0.peers[session];
      ReportedKeepsTable(r, session, peer.sendCounter, peer.lastFeedback, peer.stats);
    }
  }

  lemma FewerKeys(a: set<Id>, b: set<Id>)
    requires a <= b
    ensures |a| <= |b|
  {
    assert b == a + (b - a);
  }

  lemma ExpireKeepsTable(r: Receiver, maxIdle: nat, now: nat)
    requires TableOk(r)
    ensures TableOk(r.Expire(maxIdle, now))
    ensures r.Expire(maxIdle, now).peers.Keys == r.peers.Keys
  {
    var r' := r.Expire(maxIdle, now);
    assert r'.peers.Keys == r.peers.Keys;
    SameKeys(r.peers, r'.peers);
    FewerKeys(r'.mixer.streams.Keys, r.mixer.streams.Keys);
  }

  /** Eight bounds the streams, not the active peers: with eight streams taken, a fresh hello from a known but inactive
      session activates it without a stream. */
  lemma ActivePeersOutgrowStreams(r: Receiver, d: Datagram, src: nat, now: nat, nextEpoch: Id)
    requires TableOk(r) && |r.mixer.streams| == MAX_STREAMS
    requires d.Datagram? && d.epoch == r.epoch && d.kind == KIND_HELLO && d.counter > 0
    requires d.session in r.peers && !r.peers[d.session].active
    requires Replay.Fresh(r.peers[d.session].accepted, WINDOW, d.counter)
    requires var contents := OpenBox(ToReceiver, r.epoch, d.session, d); contents.Some? && DecodeHello(contents.value).Some?
    ensures var r' := r.Handle(d, src, now, nextEpoch).receiver;
            && r'.mixer == r.mixer && d.session !in r'.mixer.streams
            && |Active(r'.peers)| == |Active(r.peers)| + 1 > MAX_STREAMS
  {
    var r' := r.Handle(d, src, now, nextEpoch).receiver;
    assert d.session !in r.mixer.streams;
    assert Active(r'.peers) == Active(r.peers) + {d.session};
    FewerKeys(r.mixer.streams.Keys, Active(r.peers));
  }
}
