/** What each kind of datagram does to the receiver, in full. */
module Reception {
  import opened Bytes
  import opened Utf8
  import opened Wire
  import opened Secure
  import opened PeerStats
  import opened ReceiverModel
  import Playout
  import Replay

  /** A stream's first buffer: empty, at rest, with the mixer's default target. */
  ghost predicate NewlyOpened(m: Mixer, buffer: Playout.State)
  {
    && buffer.slots == map[] && buffer.play.None? && !buffer.primed && !buffer.started && !buffer.starved
    && buffer.target == Clamp(m.defaultTarget, 1, 32)
    && buffer.bytesPerFrame == Max(1, m.bytesPerFrame) && buffer.packetFrames == Max(1, m.packetFrames)
    && buffer.underruns == 0 && buffer.starvations == 0 && buffer.losses == 0 && buffer.discarded == 0 && buffer.arrived == 0
  }

  /** All streams but one are as they were. */
  ghost predicate OthersStand(m: Mixer, m': Mixer, s: Id)
  {
    && m'.bytesPerFrame == m.bytesPerFrame && m'.packetFrames == m.packetFrames && m'.defaultTarget == m.defaultTarget
    && forall t | t != s :: (t in m'.streams <==> t in m.streams) && (t in m.streams ==> m'.streams[t] == m.streams[t])
  }

  /** Session s has its stream: the one it had, or a new one; only if it has none and eight are open does nothing happen. */
  ghost predicate StreamOpened(m: Mixer, m': Mixer, s: Id, name: seq<Scalar>, now: nat)
  {
    if s !in m.streams && |m.streams| >= MAX_STREAMS then m' == m
    else
      && OthersStand(m, m', s) && s in m'.streams
      && m'.streams[s].name == name && m'.streams[s].lastSeen == now
      && if s in m.streams then m'.streams[s].buffer == m.streams[s].buffer else NewlyOpened(m, m'.streams[s].buffer)
  }

  lemma EnsuredOpens(m: Mixer, s: Id, name: seq<Scalar>, now: nat)
    ensures var e := m.Ensured(s, name, now);
            && (e.None? <==> s !in m.streams && |m.streams| >= MAX_STREAMS)
            && StreamOpened(m, if e.Some? then e.value else m, s, name, now)
  {
  }

  /** The datagram is of the receiver's epoch and opens. */
  ghost predicate Authentic(r: Receiver, d: Datagram)
  {
    d.Datagram? && d.epoch == r.epoch && d.counter > 0 && OpenBox(ToReceiver, r.epoch, d.session, d).Some?
  }

  ghost function BodyOf(r: Receiver, d: Datagram): seq<Byte>
    requires Authentic(r, d)
  {
    OpenBox(ToReceiver, r.epoch, d.session, d).value
  }

  /** It opens, and comes from a known session, under a counter that is still fresh. */
  ghost predicate Accepted(r: Receiver, d: Datagram)
  {
    Authentic(r, d) && d.session in r.peers && Replay.Fresh(r.peers[d.session].accepted, WINDOW, d.counter)
  }

  /** What every accepted datagram leaves of its peer: the counter is used up and the address noted. */
  ghost predicate PeerNoted(p: Peer, p': Peer, counter: nat, src: nat)
  {
    && p'.accepted == p.accepted + {counter} && p'.addr == src
    && p'.sendCounter == p.sendCounter && p'.lastFeedback == p.lastFeedback
  }

  /** The receiver has done with a datagram of a known session. */
  ghost predicate OnlyPeerChanged(r: Receiver, r': Receiver, s: Id)
  {
    && r'.epoch == r.epoch && r'.historyCap == r.historyCap && s in r.peers && s in r'.peers
    && r'.peers == r.peers[s := r'.peers[s]]
  }

  /** A hello from a known session: it is active, under its new name, and has a stream if there is room for it. */
  lemma HelloResumes(r: Receiver, d: Datagram, src: nat, now: nat, nextEpoch: Id)
    requires Accepted(r, d) && d.kind == KIND_HELLO && DecodeHello(BodyOf(r, d)).Some?
    ensures var h, name := r.Handle(d, src, now, nextEpoch), DecodeHello(BodyOf(r, d)).value;
            var r', p' := h.receiver, h.receiver.peers[d.session];
            && OnlyPeerChanged(r, r', d.session) && PeerNoted(r.peers[d.session], p', d.counter, src)
            && p'.active && p'.name == name && p'.stats == r.peers[d.session].stats
            && StreamOpened(r.mixer, r'.mixer, d.session, name, now)
            && r'.received == r.received + 1 && r'.rejected == r.rejected && h.pushed.None? && h.counted.None?
  {
    EnsuredOpens(r.mixer, d.session, DecodeHello(BodyOf(r, d)).value, now);
  }

  /** A hello that does not decode counts as received and changes nothing else. */
  lemma NamelessHello(r: Receiver, d: Datagram, src: nat, now: nat, nextEpoch: Id)
    requires Accepted(r, d) && d.kind == KIND_HELLO && DecodeHello(BodyOf(r, d)).None?
    ensures var h := r.Handle(d, src, now, nextEpoch);
            && OnlyPeerChanged(r, h.receiver, d.session)
            && h.receiver.peers[d.session] == Using(r.peers[d.session], d.counter).(addr := src)
            && h.receiver.mixer == r.mixer && h.pushed.None? && h.counted.None?
            && h.receiver.received == r.received + 1 && h.receiver.rejected == r.rejected
  {
  }

  /** The stream has heard its session, and has been pushed a packet if one came. */
  ghost predicate StreamHeard(m: Mixer, m': Mixer, s: Id, now: nat, chunk: Option<(nat, seq<Byte>)>)
  {
    if s !in m.streams then m' == m
    else
      && OthersStand(m, m', s) && s in m'.streams
      && m'.streams[s].name == m.streams[s].name && m'.streams[s].lastSeen == now
      && m'.streams[s].buffer
         == if chunk.Some? then m.streams[s].buffer.Push(chunk.value.0, chunk.value.1).0 else m.streams[s].buffer
  }

  lemma PushedIsHeard(m: Mixer, s: Id, seqNo: nat, pcm: seq<Byte>, now: nat)
    ensures StreamHeard(m, m.Pushed(s, seqNo, pcm, now), s, now, Some((seqNo, pcm)))
    ensures StreamHeard(m, m.Touched(s, now), s, now, None)
  {
  }

  lemma StarvationsOf(m: Mixer, s: Id)
    ensures m.Starvations(s) == if s in m.streams then m.streams[s].buffer.starvations else 0
  {
  }

  /** Audio from an active session that decodes: it is counted, and the stream, if there is one, gets the packet. */
  lemma AudioIsTaken(r: Receiver, d: Datagram, src: nat, now: nat, nextEpoch: Id)
    requires Accepted(r, d) && d.kind == KIND_AUDIO && r.peers[d.session].active && Chunk(BodyOf(r, d)).Some?
    ensures var h, audio := r.Handle(d, src, now, nextEpoch), DecodeAudio(BodyOf(r, d));
            var r', p, p' := h.receiver, r.peers[d.session], h.receiver.peers[d.session];
            && audio.Some? && OnlyPeerChanged(r, r', d.session) && PeerNoted(p, p', d.counter, src)
            && p'.active && p'.name == p.name && p'.stats == p.stats.AfterAudio(audio.value, now)
            && StreamHeard(r.mixer, r'.mixer, d.session, now, Chunk(BodyOf(r, d)))
            && h.counted == Some(audio.value.seqNo)
            && h.pushed == (if d.session in r.mixer.streams then Some(audio.value.seqNo) else None)
            && r'.received == r.received + 1 && r'.rejected == r.rejected
  {
  }

  /** What an audio packet leaves of its peer's statistics: its number in the tally, its times in the jitter, and its own
      sending time and buffer value. The probes and the receiver's own target are untouched. */
  lemma AudioIsNoted(t: Stats, b: AudioBody, now: nat)
    ensures var t' := t.AfterAudio(b, now);
            && t'.suggestedMs == b.bufferMs && t'.latestSendTs == b.sendTsUs && t'.latestArrival == now
            && t' == t.(tally := t'.tally, jitter := t'.jitter, latestSendTs := b.sendTsUs, latestArrival := now,
                        suggestedMs := b.bufferMs)
  {
  }

  /** A probe from an active session that decodes: it is counted, and the stream has heard its session. */
  lemma ProbeIsTaken(r: Receiver, d: Datagram, src: nat, now: nat, nextEpoch: Id)
    requires Accepted(r, d) && d.kind == KIND_PROBE && r.peers[d.session].active && DecodeProbe(BodyOf(r, d)).Some?
    ensures var h, probe := r.Handle(d, src, now, nextEpoch), DecodeProbe(BodyOf(r, d)).value;
            var r', p, p' := h.receiver, r.peers[d.session], h.receiver.peers[d.session];
            && OnlyPeerChanged(r, r', d.session) && PeerNoted(p, p', d.counter, src)
            && p'.active && p'.name == p.name && p'.stats == p.stats.AfterProbe(probe, now)
            && StreamHeard(r.mixer, r'.mixer, d.session, now, None)
            && h.counted.None? && h.pushed.None? && r'.received == r.received + 1 && r'.rejected == r.rejected
  {
  }

  /** Audio or a probe that does not decode, or a packet of a kind the receiver has no use for. */
  ghost predicate Useless(r: Receiver, d: Datagram)
    requires Authentic(r, d) && d.session in r.peers
  {
    && d.kind != KIND_HELLO
    && (d.kind == KIND_AUDIO ==> r.peers[d.session].active && Chunk(BodyOf(r, d)).None?)
    && (d.kind == KIND_PROBE ==> r.peers[d.session].active && DecodeProbe(BodyOf(r, d)).None?)
  }

  /** It uses up its counter and is counted as rejected. */
  lemma UselessIsRejected(r: Receiver, d: Datagram, src: nat, now: nat, nextEpoch: Id)
    requires Accepted(r, d) && Useless(r, d)
    ensures r.Handle(d, src, now, nextEpoch)
            == Handled(r.(peers := r.peers[d.session := Using(r.peers[d.session], d.counter).(addr := src)], rejected := r.rejected + 1),
                       None, None)
  {
  }

  /** Audio and probes of a session that is not active use up their counters, and are counted neither way. */
  lemma InactiveIsIgnored(r: Receiver, d: Datagram, src: nat, now: nat, nextEpoch: Id)
    requires Accepted(r, d) && (d.kind == KIND_AUDIO || d.kind == KIND_PROBE) && !r.peers[d.session].active
    ensures r.Handle(d, src, now, nextEpoch)
            == Handled(r.(peers := r.peers[d.session := Using(r.peers[d.session], d.counter).(addr := src)]), None, None)
  {
  }

  /** A hello from a session that is not in the table, with fewer than eight active ones. */
  ghost predicate Knocks(r: Receiver, d: Datagram)
  {
    && Authentic(r, d) && d.session !in r.peers && d.kind == KIND_HELLO && DecodeHello(BodyOf(r, d)).Some?
    && |Active(r.peers)| < MAX_STREAMS
  }

  lemma FirstCounter(counter: nat)
    requires counter > 0
    ensures Replay.Accept({}, WINDOW, counter) == {counter}
  {
  }

  /** It gets in, as an active peer with nothing measured yet, exactly if the history and the mixer have room. */
  lemma NewcomerEnters(r: Receiver, d: Datagram, src: nat, now: nat, nextEpoch: Id)
    requires Knocks(r, d) && |r.peers| < r.historyCap && (d.session in r.mixer.streams || |r.mixer.streams| < MAX_STREAMS)
    ensures var h, name := r.Handle(d, src, now, nextEpoch), DecodeHello(BodyOf(r, d)).value;
            && h.receiver.peers == r.peers[d.session := Peer({d.counter}, 0, true, src, name, None, Unheard(now))]
            && StreamOpened(r.mixer, h.receiver.mixer, d.session, name, now) && d.session in h.receiver.mixer.streams
            && h.receiver == r.(peers := h.receiver.peers, mixer := h.receiver.mixer, received := r.received + 1)
            && h.pushed.None? && h.counted.None?
  {
    FirstCounter(d.counter);
    EnsuredOpens(r.mixer, d.session, DecodeHello(BodyOf(r, d)).value, now);
  }

  lemma FullMixerRefuses(r: Receiver, d: Datagram, src: nat, now: nat, nextEpoch: Id)
    requires Knocks(r, d) && |r.peers| < r.historyCap && d.session !in r.mixer.streams && |r.mixer.streams| >= MAX_STREAMS
    ensures r.Handle(d, src, now, nextEpoch) == Handled(r.(rejected := r.rejected + 1), None, None)
  {
  }

  /** A full history is given up for a newcomer: the receiver starts afresh under a new epoch, and the newcomer has to come
      again. */
  lemma FullHistoryTurns(r: Receiver, d: Datagram, src: nat, now: nat, nextEpoch: Id)
    requires Knocks(r, d) && |r.peers| >= r.historyCap
    ensures r.Handle(d, src, now, nextEpoch)
            == Handled(r.(epoch := nextEpoch, peers := map[], mixer := r.mixer.(streams := map[]), rejected := r.rejected + 1),
                       None, None)
  {
  }

  /** Whatever else comes from an unknown session is refused. */
  lemma OtherStrangersAreRefused(r: Receiver, d: Datagram, src: nat, now: nat, nextEpoch: Id)
    requires !Knocks(r, d) && (d.Datagram? ==> d.session !in r.peers)
    ensures r.Handle(d, src, now, nextEpoch) == Handled(r.(rejected := r.rejected + 1), None, None)
  {
  }

  /** Every datagram is counted once, as received or as rejected, but for audio and probes of inactive sessions. */
  lemma EveryDatagramIsCounted(r: Receiver, d: Datagram, src: nat, now: nat, nextEpoch: Id)
    ensures var r' := r.Handle(d, src, now, nextEpoch).receiver;
            && r'.received >= r.received && r'.rejected >= r.rejected
            && (r'.received + r'.rejected == r.received + r.rejected + 1
                <==> !(Accepted(r, d) && (d.kind == KIND_AUDIO || d.kind == KIND_PROBE) && !r.peers[d.session].active))
  {
  }

  // Reports and expiry.

  /** A report goes out exactly to an active peer that has had none, or none for 400 ms. */
  lemma ReportGoesOutIff(r: Receiver, s: Id, now: nat)
    ensures r.Feedback(s, now).1.Some?
            <==> s in r.peers && r.peers[s].active
                 && (r.peers[s].lastFeedback.None? || now >= r.peers[s].lastFeedback.value + 400_000)
    ensures r.Feedback(s, now).1.None? ==> r.Feedback(s, now).0 == r
  {
  }

  /** It is sealed under the peer's next counter, remembered with its time, and the stream takes the target it reports. */
  lemma ReportIsSealed(r: Receiver, s: Id, now: nat)
    requires r.Feedback(s, now).1.Some? && r.peers[s].sendCounter < U64_MAX
    ensures var (r', out) := r.Feedback(s, now);
            var t' := r.peers[s].stats.AfterReport(r.mixer.Starvations(s));
            && out.value.direction == ToSender && out.value.epoch == r.epoch && out.value.session == s
            && out.value.counter == r.peers[s].sendCounter + 1 && out.value.kind == KIND_FEEDBACK
            && r' == r.(peers := r'.peers, mixer := r'.mixer)
            && r'.peers == r.peers[s := r.peers[s].(sendCounter := r.peers[s].sendCounter + 1, lastFeedback := Some(now), stats := t')]
            && OthersStand(r.mixer, r'.mixer, s)
            && (s in r.mixer.streams ==>
                  && s in r'.mixer.streams
                  && r'.mixer.streams[s] == r.mixer.streams[s].(buffer := r.mixer.streams[s].buffer.Retarget(Playout.PacketsFor(t'.bufferMs))))
            && (s !in r.mixer.streams ==> s !in r'.mixer.streams)
  {
  }

  /** Enough packets of 5 ms for the target, and no more than it takes; never fewer than 4 or more than 30. */
  lemma PacketsCoverTheTarget(ms: nat)
    ensures var n := Playout.PacketsFor(ms);
            4 <= n <= 30 && 5 * n >= Min(ms, 150) && (20 <= ms <= 150 ==> 5 * (n - 1) < ms)
  {
  }

  /** Exactly the streams not heard for the limit go; exactly their peers turn inactive; all peers stay. */
  lemma ExpiryTakesTheIdle(r: Receiver, maxIdle: nat, now: nat)
    ensures var r' := r.Expire(maxIdle, now);
            && r' == r.(peers := r'.peers, mixer := r.mixer.(streams := r'.mixer.streams)) && r'.peers.Keys == r.peers.Keys
            && (forall s :: s in r'.mixer.streams <==> s in r.mixer.streams && MinusSat(now, r.mixer.streams[s].lastSeen) < maxIdle)
            && (forall s | s in r'.mixer.streams :: r'.mixer.streams[s] == r.mixer.streams[s])
            && (forall s | s in r.peers ::
                  r'.peers[s] == r.peers[s].(active := r.peers[s].active && !(s in r.mixer.streams && s !in r'.mixer.streams)))
  {
  }
}
