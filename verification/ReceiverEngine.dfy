/** The receiving side: a table of sessions, each with its own replay window, in front of the mixer. */
module ReceiverEngine {
  import opened Bytes
  import opened Utf8
  import opened Wire
  import opened PeerStats
  import opened Secure
  import opened ReceiverModel
  import Codec
  import MixerEngine
  import Playout
  import R = Replay

  datatype Entry = Entry(replay: R.ReplayWindow, sendCounter: UInt64, active: bool, addr: nat, name: seq<Scalar>,
                         lastFeedback: Option<nat>, stats: Stats)

  /** Feedback to each session of a list in turn. */
  function FeedAll(r: Receiver, order: seq<Id>, now: nat): (Receiver, seq<(nat, Packet)>)
  {
    if order == [] then (r, []) else
      var n := |order| - 1;
      var before := FeedAll(r, order[..n], now);
      var out := before.0.Feedback(order[n], now);
      (out.0, if out.1.Some? && order[n] in before.0.peers
              then before.1 + [(before.0.peers[order[n]].addr, out.1.value)] else before.1)
  }

  /** Which session an object of a replay window belongs to. */
  type Owners = map<object, Id>

  /** An entry of a session: its window and bitmap are its own, and p is what it holds by value. */
  ghost predicate Agree(s: Id, e: Entry, p: Peer, owner: Owners)
    reads e.replay, e.replay.bits
  {
    && e.replay in owner && owner[e.replay] == s && e.replay.bits in owner && owner[e.replay.bits] == s
    && e.replay.Valid() && e.replay.window == WINDOW
    && p == Peer(e.replay.accepted, e.sendCounter, e.active, e.addr, e.name, e.lastFeedback, e.stats)
  }

  /** `Agree`, but for a bitmap that may be new and is nobody else's. */
  ghost predicate WillAgree(s: Id, e: Entry, p: Peer, owner: Owners)
    reads e.replay, e.replay.bits
  {
    && e.replay in owner && owner[e.replay] == s && (e.replay.bits !in owner || owner[e.replay.bits] == s)
    && e.replay.Valid() && e.replay.window == WINDOW
    && p == Peer(e.replay.accepted, e.sendCounter, e.active, e.addr, e.name, e.lastFeedback, e.stats)
  }

  lemma FeedOneMore(r: Receiver, order: seq<Id>, i: nat, now: nat)
    requires i < |order|
    ensures order[..i + 1] != [] && order[..i + 1][..i] == order[..i]
  {
  }

  /** A table in which some sessions have turned inactive. */
  ghost function Deactivated(peers: Peers, gone: set<Id>): Peers
  {
    map s | s in peers :: if s in gone then peers[s].(active := false) else peers[s]
  }

  /** The peers of the streams that an expiry removes are the ones that turn inactive. */
  lemma ExpiredTable(r: Receiver, maxIdle: nat, now: nat, removed: seq<Id>)
    requires forall s :: s in removed <==> s in r.mixer.streams && s !in r.mixer.Expired(maxIdle, now).streams
    ensures r.Expire(maxIdle, now)
            == r.(mixer := r.mixer.Expired(maxIdle, now), peers := Deactivated(r.peers, set s | s in removed))
  {
  }

  lemma NoneGone(peers: Peers)
    ensures Deactivated(peers, {}) == peers
  {
  }

  lemma OneMoreGone(peers: Peers, gone: set<Id>, s: Id)
    ensures Deactivated(peers, gone + {s})
            == if s in peers then Deactivated(peers, gone)[s := Deactivated(peers, gone)[s].(active := false)]
               else Deactivated(peers, gone)
  {
  }

  /** An entry stands when another session takes over an object that is not its own. */
  lemma StandsUnder(s: Id, e: Entry, p: Peer, owner: Owners, o: object, session: Id)
    requires Agree(s, e, p, owner) && s != session && (o !in owner || owner[o] == session)
    ensures Agree(s, e, p, owner[o := session])
  {
  }

  class ReceiverEngine {
    const historyCap: nat
    const mixer: MixerEngine.Mixer
    var epoch: Id
    var peers: map<Id, Entry>
    var received: nat
    var rejected: nat
    /** The session table by value. */
    ghost var table: Peers

    ghost var owner: Owners

    /** The table shows the entries; no two sessions share a window or a bitmap. */
    ghost predicate Shown()
      reads this`peers, this`table, this`owner, owner.Keys
    {
      && table.Keys == peers.Keys
      && (this as object) !in owner && (mixer as object) !in owner
      && (forall s | s in peers :: peers[s].replay in owner && peers[s].replay.bits in owner
                                   && Agree(s, peers[s], table[s], owner))
    }

    /** `Shown`, for all sessions but one. */
    ghost predicate ShownBut(session: Id)
      reads this`peers, this`table, this`owner, owner.Keys
    {
      && table.Keys == peers.Keys
      && (this as object) !in owner && (mixer as object) !in owner
      && (forall s | s in peers && s != session ::
            peers[s].replay in owner && peers[s].replay.bits in owner && Agree(s, peers[s], table[s], owner))
    }

    ghost predicate Valid()
      reads this`peers, this`table, this`owner, mixer, owner.Keys
    {
      mixer.Valid() && Shown()
    }

    ghost function Now(): Receiver
      reads this, mixer
    {
      Receiver(epoch, table, mixer.Now(), historyCap, received, rejected)
    }

    constructor (m: MixerEngine.Mixer, start: Id, cap: nat)
      requires m.Valid()
      ensures Valid() && mixer == m && Now() == Receiver(start, map[], m.Now(), cap, 0, 0)
    {
      mixer, epoch, historyCap, peers, table, owner := m, start, cap, map[], map[], map[];
      received, rejected := 0, 0;
    }

    method Reject()
      requires Valid()
      modifies this`rejected
      ensures Valid() && Now() == old(Now()).Rejected()
    {
      rejected := rejected + 1;
    }

    method Receive()
      requires Valid()
      modifies this`received
      ensures Valid() && Now() == old(Now()).Received()
    {
      received := received + 1;
    }

    method HandleDatagram(d: Datagram, src: nat, now: nat, nextEpoch: Id)
      requires Valid()
      modifies this, mixer, owner.Keys
      ensures Valid() && Now() == old(Now()).Handle(d, src, now, nextEpoch).receiver
    {
      if d.Unparsable? || d.epoch != epoch || d.counter == 0 {
        Reject();
      } else if d.session in peers {
        FromKnown(d, src, now);
      } else {
        Admit(d, src, now, nextEpoch);
      }
    }

    method Admit(d: Datagram, src: nat, now: nat, nextEpoch: Id)
      requires Valid() && d.Datagram? && d.session !in peers && d.counter > 0
      modifies this, mixer`entries
      ensures Valid() && Now() == old(Now()).Admit(d, src, now, nextEpoch)
    {
      assert Active(table) == set s | s in peers && peers[s].active;
      var contents := OpenBox(ToReceiver, epoch, d.session, d);
      if d.kind != KIND_HELLO || |set s | s in peers && peers[s].active| >= MAX_STREAMS || contents.None? {
        Reject();
      } else {
        var name := DecodeHello(contents.value);
        if name.None? {
          Reject();
        } else {
          AdmitNamed(d.session, d.counter, src, now, nextEpoch, name.value);
        }
      }
    }

    /** A full history turns the epoch; a full mixer turns the newcomer away. */
    method AdmitNamed(session: Id, counter: UInt64, src: nat, now: nat, nextEpoch: Id, name: seq<Scalar>)
      requires Valid() && session !in peers && counter > 0
      modifies this, mixer`entries
      ensures Valid() && Now() == old(Now()).AdmitNamed(session, counter, src, now, nextEpoch, name)
    {
      assert |table| == |table.Keys| == |peers|;
      if |peers| >= historyCap {
        RotateEpoch(nextEpoch);
        Reject();
      } else {
        Enter(session, counter, src, now, name);
      }
    }

    method Enter(session: Id, counter: UInt64, src: nat, now: nat, name: seq<Scalar>)
      requires Valid() && session !in peers && counter > 0
      modifies this`peers, this`table, this`owner, this`received, this`rejected, mixer`entries
      ensures Valid() && Now() == old(Now()).Enter(session, counter, src, now, name)
    {
      var ok := mixer.EnsureStream(session, name, now);
      if ok {
        Insert(session, counter, src, name, Unheard(now));
      } else {
        Reject();
      }
    }

    /** A new session starts with a window that has seen its first counter. */
    method Insert(session: Id, counter: UInt64, src: nat, name: seq<Scalar>, stats: Stats)
      requires Shown() && session !in peers && counter > 0
      modifies this`peers, this`table, this`owner, this`received
      ensures Shown() && received == old(received) + 1
      ensures table == old(table)[session := Peer(R.Accept({}, WINDOW, counter), 0, true, src, name, None, stats)]
    {
      var replay := new R.ReplayWindow(WINDOW);
      var ok := replay.Commit(counter);
      assert ok;
      AddPeer(session, Entry(replay, 0, true, src, name, None, stats), Peer(replay.accepted, 0, true, src, name, None, stats));
      received := received + 1;
    }

    method AddPeer(session: Id, e: Entry, ghost p: Peer)
      requires Shown() && session !in peers && e.replay !in owner && e.replay.bits !in owner
      requires e.replay.Valid() && e.replay.window == WINDOW
      requires p == Peer(e.replay.accepted, e.sendCounter, e.active, e.addr, e.name, e.lastFeedback, e.stats)
      requires (this as object) != e.replay && (mixer as object) != e.replay && (this as object) != e.replay.bits
               && (mixer as object) != e.replay.bits
      modifies this`peers, this`table, this`owner
      ensures Shown() && table == old(table)[session := p]
    {
      peers := peers[session := e];
      table := table[session := p];
      owner := owner[e.replay := session][e.replay.bits := session];
      forall s | s in peers
        ensures peers[s].replay in owner && peers[s].replay.bits in owner && Agree(s, peers[s], table[s], owner)
      {
        assert s != session ==> old(Agree(s, peers[s], table[s], owner));
      }
    }

    method RotateEpoch(nextEpoch: Id)
      requires Valid()
      modifies this`epoch, this`peers, this`table, mixer`entries
      ensures Valid() && Now() == old(Now()).Rotated(nextEpoch)
    {
      epoch := nextEpoch;
      mixer.Clear();
      peers, table := map[], map[];
    }

    method FromKnown(d: Datagram, src: nat, now: nat)
      requires Valid() && d.Datagram? && d.session in peers
      modifies this, mixer`entries, peers[d.session].replay, peers[d.session].replay.bits
      ensures Valid() && Now() == old(Now()).FromKnown(d, src, now).receiver
    {
      var contents := OpenBox(ToReceiver, epoch, d.session, d);
      if contents.None? {
        Reject();
      } else {
        Opened(d.session, d.counter, d.kind, contents.value, src, now);
      }
    }

    method Opened(session: Id, counter: UInt64, kind: Byte, body: seq<Byte>, src: nat, now: nat)
      requires Valid() && session in peers
      modifies this`peers, this`table, this`owner, this`received, this`rejected, mixer`entries
      modifies peers[session].replay, peers[session].replay.bits
      ensures Valid() && Now() == old(Now()).Opened(session, counter, kind, body, src, now).receiver
    {
      var ok := UseUp(session, counter, src);
      if ok {
        Dispatch(session, kind, body, now);
      } else {
        Reject();
      }
    }

    /** Uses up a counter of a known session, unless it has been used or is too old. */
    method UseUp(session: Id, counter: UInt64, src: nat) returns (ok: bool)
      requires Valid() && session in peers
      modifies this`peers, this`table, this`owner, peers[session].replay, peers[session].replay.bits
      ensures Valid() && session in peers
      ensures ok <==> R.Fresh(old(Now()).peers[session].accepted, WINDOW, counter)
      ensures Now() == if ok then old(Now()).Noted(session, counter, src) else old(Now())
    {
      ok := NotePeer(session, counter, src);
    }

    method NotePeer(session: Id, counter: UInt64, src: nat) returns (ok: bool)
      requires Valid() && session in peers
      modifies this`peers, this`table, this`owner, peers[session].replay, peers[session].replay.bits
      ensures Valid() && session in peers && Now() == old(Now()).(peers := table)
      ensures ok <==> R.Fresh(old(table)[session].accepted, WINDOW, counter)
      ensures table == if ok then old(table)[session := Using(old(table)[session], counter).(addr := src)] else old(table)
    {
      ghost var m := mixer.Now();
      ok := Note(session, counter, src);
      assert mixer.Now() == m && mixer.Valid();
    }

    method Note(session: Id, counter: UInt64, src: nat) returns (ok: bool)
      requires Shown() && session in peers
      modifies this`peers, this`table, this`owner, peers[session].replay, peers[session].replay.bits
      ensures Shown() && session in peers && unchanged(mixer)
      ensures ok <==> R.Fresh(old(table)[session].accepted, WINDOW, counter)
      ensures table == if ok then old(table)[session := Using(old(table)[session], counter).(addr := src)] else old(table)
    {
      ok := CommitWindow(session, counter);
      if ok {
        SetPeer(session, peers[session].(addr := src), Using(table[session], counter).(addr := src));
      }
    }

    /** Commits to one session's window; the others stand. A bitmap that has moved is the session's too. */
    method CommitWindow(session: Id, counter: UInt64) returns (ok: bool)
      requires Shown() && session in peers
      modifies this`owner, peers[session].replay, peers[session].replay.bits
      ensures ok <==> R.Fresh(old(table)[session].accepted, WINDOW, counter)
      ensures ShownBut(session) && Agree(session, peers[session], if ok then Using(table[session], counter) else table[session], owner)
      ensures unchanged(mixer)
    {
      ok := CommitOnly(session, counter);
      TakeOver(session, if ok then Using(table[session], counter) else table[session]);
    }

    /** A session's bitmap becomes its own. */
    ghost method TakeOver(session: Id, p: Peer)
      requires ShownBut(session) && session in peers && WillAgree(session, peers[session], p, owner)
      requires (this as object) != peers[session].replay.bits && (mixer as object) != peers[session].replay.bits
      modifies this`owner
      ensures ShownBut(session) && Agree(session, peers[session], p, owner)
    {
      OthersStand(session, peers[session].replay.bits);
      owner := owner[peers[session].replay.bits := session];
    }

    lemma OthersStand(session: Id, o: object)
      requires ShownBut(session) && (o !in owner || owner[o] == session)
      ensures forall s | s in peers && s != session :: Agree(s, peers[s], table[s], owner[o := session])
    {
      forall s | s in peers && s != session
        ensures Agree(s, peers[s], table[s], owner[o := session])
      {
        StandsUnder(s, peers[s], table[s], owner, o, session);
      }
    }

    method CommitOnly(session: Id, counter: UInt64) returns (ok: bool)
      requires Shown() && session in peers
      modifies peers[session].replay, peers[session].replay.bits
      ensures ok <==> R.Fresh(old(table)[session].accepted, WINDOW, counter)
      ensures ShownBut(session) && unchanged(mixer)
      ensures WillAgree(session, peers[session], if ok then Using(table[session], counter) else table[session], owner)
      ensures (this as object) != peers[session].replay.bits && (mixer as object) != peers[session].replay.bits
    {
      var e := peers[session];
      assert Agree(session, e, table[session], owner);
      ok := e.replay.Commit(counter);
      forall s | s in peers && s != session
        ensures peers[s].replay in owner && peers[s].replay.bits in owner && Agree(s, peers[s], table[s], owner)
      {
        assert old(Agree(s, peers[s], table[s], owner));
      }
    }

    /** Changes one entry. */
    method SetPeer(session: Id, e: Entry, ghost p: Peer)
      requires ShownBut(session) && session in peers && Agree(session, e, p, owner)
      modifies this`peers, this`table
      ensures Shown() && peers == old(peers)[session := e] && table == old(table)[session := p]
    {
      peers := peers[session := e];
      table := table[session := p];
      forall s | s in peers
        ensures peers[s].replay in owner && peers[s].replay.bits in owner && Agree(s, peers[s], table[s], owner)
      {
        assert s != session ==> old(Agree(s, peers[s], table[s], owner));
      }
    }

    /** The same, with the rest of the receiver as it was. */
    method UpdatePeer(session: Id, e: Entry, ghost p: Peer)
      requires Valid() && session in peers && Agree(session, e, p, owner)
      modifies this`peers, this`table
      ensures Valid() && peers.Keys == old(peers).Keys
      ensures Now() == old(Now()).(peers := old(table)[session := p])
    {
      SetPeer(session, e, p);
    }

    method Dispatch(session: Id, kind: Byte, body: seq<Byte>, now: nat)
      requires Valid() && session in peers
      modifies this`peers, this`table, this`received, this`rejected, mixer`entries
      ensures Valid() && Now() == old(Now()).Dispatch(session, kind, body, now).receiver
    {
      if kind == KIND_HELLO {
        Resume(session, body, now);
      } else if kind == KIND_AUDIO || kind == KIND_PROBE {
        if peers[session].active {
          Apply(session, kind, body, now);
        }
      } else {
        Reject();
      }
    }

    method Apply(session: Id, kind: Byte, body: seq<Byte>, now: nat)
      requires Valid() && session in peers && (kind == KIND_AUDIO || kind == KIND_PROBE)
      modifies this`peers, this`table, this`received, this`rejected, mixer`entries
      ensures Valid()
      ensures Now() == if kind == KIND_AUDIO then old(Now()).Play(session, body, now).receiver
                       else old(Now()).Probed(session, body, now)
    {
      if kind == KIND_AUDIO {
        ApplyAudio(session, body, now);
      } else {
        ApplyProbe(session, body, now);
      }
    }

    method Resume(session: Id, body: seq<Byte>, now: nat)
      requires Valid() && session in peers
      modifies this`peers, this`table, this`received, mixer`entries
      ensures Valid() && Now() == old(Now()).Resume(session, body, now)
    {
      var name := DecodeHello(body);
      if name.Some? {
        Welcome(session, name.value, now);
      }
      Receive();
    }

    method Welcome(session: Id, name: seq<Scalar>, now: nat)
      requires Valid() && session in peers
      modifies this`peers, this`table, mixer`entries
      ensures Valid() && Now() == old(Now()).Welcome(session, name, now)
    {
      assert Agree(session, peers[session], table[session], owner);
      UpdatePeer(session, peers[session].(name := name, active := true), table[session].(name := name, active := true));
      OpenStream(session, name, now);
    }

    method OpenStream(session: Id, name: seq<Scalar>, now: nat)
      requires Valid()
      modifies mixer`entries
      ensures Valid()
      ensures var m := old(Now()).mixer.Ensured(session, name, now);
              Now() == if m.Some? then old(Now()).(mixer := m.value) else old(Now())
    {
      var _ := mixer.EnsureStream(session, name, now);
    }

    method ApplyAudio(session: Id, body: seq<Byte>, now: nat)
      requires Valid() && session in peers
      modifies this`peers, this`table, this`received, this`rejected, mixer`entries
      ensures Valid() && Now() == old(Now()).Play(session, body, now).receiver
    {
      assert Agree(session, peers[session], table[session], owner);
      var audio, pcm := DecodeChunk(body);
      if pcm.None? {
        Reject();
      } else {
        Take(session, peers[session].stats.AfterAudio(audio, now), audio.seqNo, pcm.value, now);
        Receive();
      }
    }

    method DecodeChunk(body: seq<Byte>) returns (audio: AudioBody, pcm: Option<seq<Byte>>)
      ensures pcm.Some? ==> DecodeAudio(body) == Some(audio) && Chunk(body) == Some((audio.seqNo, pcm.value))
      ensures pcm.None? ==> Chunk(body).None?
    {
      var decoded := DecodeAudio(body);
      if decoded.None? {
        return AudioBody(0, 0, 0, 0, []), None;
      }
      audio := decoded.value;
      pcm := Codec.DecodeCanonical(audio.codec, audio.payload);
    }

    /** The statistics are set, and the stream gets its samples. */
    method Take(session: Id, stats: Stats, seqNo: UInt64, pcm: seq<Byte>, now: nat)
      requires Valid() && session in peers
      modifies this`peers, this`table, mixer`entries
      ensures Valid() && Now() == old(Now()).Take(session, stats, seqNo, pcm, now)
    {
      assert Agree(session, peers[session], table[session], owner);
      UpdatePeer(session, peers[session].(stats := stats), table[session].(stats := stats));
      MixIn(session, seqNo, pcm, now);
    }

    method MixIn(session: Id, seqNo: UInt64, pcm: seq<Byte>, now: nat)
      requires Valid()
      modifies mixer`entries
      ensures Valid()
      ensures Now() == old(Now()).(mixer := old(Now()).mixer.Touched(session, now).Pushed(session, seqNo, pcm, now))
    {
      mixer.Touch(session, now);
      var _ := mixer.PushPacket(session, seqNo, pcm, now);
    }

    method ApplyProbe(session: Id, body: seq<Byte>, now: nat)
      requires Valid() && session in peers
      modifies this`peers, this`table, this`received, this`rejected, mixer`entries
      ensures Valid() && Now() == old(Now()).Probed(session, body, now)
    {
      assert Agree(session, peers[session], table[session], owner);
      var probe := DecodeProbe(body);
      if probe.None? {
        Reject();
      } else {
        TakeProbe(session, peers[session].stats.AfterProbe(probe.value, now), now);
        Receive();
      }
    }

    method TakeProbe(session: Id, stats: Stats, now: nat)
      requires Valid() && session in peers
      modifies this`peers, this`table, mixer`entries
      ensures Valid() && Now() == old(Now()).TakeProbe(session, stats, now)
    {
      assert Agree(session, peers[session], table[session], owner);
      UpdatePeer(session, peers[session].(stats := stats), table[session].(stats := stats));
      TouchStream(session, now);
    }

    method TouchStream(session: Id, now: nat)
      requires Valid()
      modifies mixer`entries
      ensures Valid() && Now() == old(Now()).(mixer := old(Now()).mixer.Touched(session, now))
    {
      mixer.Touch(session, now);
    }

    /** Idle streams go, and their peers turn inactive. */
    method Expire(maxIdle: nat, now: nat)
      requires Valid()
      modifies this`peers, this`table, mixer`entries
      ensures Valid() && Now() == old(Now()).Expire(maxIdle, now)
    {
      ghost var before := Now();
      var removed := mixer.ExpireIdle(maxIdle, now);
      ExpiredTable(before, maxIdle, now, removed);
      Deactivate(removed);
    }

    method Deactivate(removed: seq<Id>)
      requires Shown()
      modifies this`peers, this`table
      ensures Shown() && table == Deactivated(old(table), set s | s in removed)
    {
      ghost var before := table;
      NoneGone(table);
      ghost var gone: set<Id> := {};
      for i := 0 to |removed|
        invariant Shown() && table == Deactivated(before, gone)
        invariant gone == set s | s in removed[..i]
      {
        var s := removed[i];
        OneMoreGone(before, gone, s);
        if s in peers {
          assert Agree(s, peers[s], table[s], owner);
          SetPeer(s, peers[s].(active := false), table[s].(active := false));
        }
        assert removed[..i + 1] == removed[..i] + [s];
        gone := gone + {s};
      }
      assert removed[..|removed|] == removed;
    }

    /** The sessions in the table, each once. */
    method Sessions() returns (order: seq<Id>)
      ensures forall s :: s in order <==> s in peers
      ensures forall i, j | 0 <= i < j < |order| :: order[i] != order[j]
    {
      order := [];
      var todo := peers.Keys;
      while todo != {}
        invariant todo <= peers.Keys
        invariant forall s :: s in order <==> s in peers && s !in todo
        invariant forall i, j | 0 <= i < j < |order| :: order[i] != order[j]
        decreases |todo|
      {
        var s: Id :| s in todo;
        todo := todo - {s};
        order := order + [s];
      }
    }

    /** Feedback to every peer that is due, in some order of the table's sessions. */
    method FeedbackDue(now: nat) returns (out: seq<(nat, Packet)>, ghost order: seq<Id>)
      requires Valid()
      modifies this`peers, this`table, mixer`entries
      ensures Valid()
      ensures forall s :: s in order <==> s in old(peers)
      ensures forall i, j | 0 <= i < j < |order| :: order[i] != order[j]
      ensures (Now(), out) == FeedAll(old(Now()), order, now)
    {
      var sessions := Sessions();
      order := sessions;
      out := [];
      assert sessions[..0] == [];
      for i := 0 to |sessions|
        invariant Valid() && (Now(), out) == FeedAll(old(Now()), sessions[..i], now)
        invariant peers.Keys == old(peers).Keys
      {
        var s := sessions[i];
        FeedOneMore(old(Now()), sessions, i, now);
        var to := peers[s].addr;
        assert Agree(s, peers[s], table[s], owner);
        var p := Feedback(s, now);
        if p.Some? {
          out := out + [(to, p.value)];
        }
      }
      assert sessions[..|sessions|] == sessions;
    }

    /** One peer's feedback, if it is due. */
    method Feedback(session: Id, now: nat) returns (p: Option<Packet>)
      requires Valid() && session in peers
      modifies this`peers, this`table, mixer`entries
      ensures Valid() && (Now(), p) == old(Now()).Feedback(session, now)
      ensures peers.Keys == old(peers).Keys
    {
      assert Agree(session, peers[session], table[session], owner);
      var e := peers[session];
      if !e.active || (e.lastFeedback.Some? && MinusSat(now, e.lastFeedback.value) < FEEDBACK_PERIOD_US) {
        return None;
      }
      var starvations := mixer.Starvations(session);
      var stats := e.stats.AfterReport(starvations);
      var next := PlusSat(e.sendCounter, 1);
      p := SealBox(ToSender, epoch, session, next, KIND_FEEDBACK, EncodeFeedback(stats.Report(starvations, now)));
      SetReported(session, next, if p.Some? then Some(now) else e.lastFeedback, stats);
    }

    method SetReported(session: Id, next: UInt64, lastFeedback: Option<nat>, stats: Stats)
      requires Valid() && session in peers
      modifies this`peers, this`table, mixer`entries
      ensures Valid() && peers.Keys == old(peers).Keys
      ensures Now() == old(Now()).Reported(session, next, lastFeedback, stats)
    {
      assert Agree(session, peers[session], table[session], owner);
      UpdatePeer(session, peers[session].(sendCounter := next, lastFeedback := lastFeedback, stats := stats),
                 table[session].(sendCounter := next, lastFeedback := lastFeedback, stats := stats));
      Retarget(session, stats.bufferMs);
    }

    method Retarget(session: Id, ms: nat)
      requires Valid()
      modifies mixer`entries
      ensures Valid() && Now() == old(Now()).(mixer := old(Now()).mixer.Retargeted(session, Playout.PacketsFor(ms)))
    {
      var _ := mixer.SetStreamTargetMs(session, ms);
    }
  }
}
