/** The receiver's session table and the mixer's streams as a value. */
module ReceiverModel {
  import opened Bytes
  import opened Utf8
  import opened Wire
  import opened PeerStats
  import opened Secure
  import Codec
  import Playout
  import Replay

  const WINDOW := 2048
  const MAX_STREAMS := 8
  const FEEDBACK_PERIOD_US := 400_000

  datatype Peer = Peer(accepted: set<nat>, sendCounter: UInt64, active: bool, addr: nat, name: seq<Scalar>,
                       lastFeedback: Option<nat>, stats: Stats)

  datatype Stream = Stream(name: seq<Scalar>, lastSeen: nat, buffer: Playout.State)

  /** A peer that has used up one more counter. */
  function Using(p: Peer, counter: nat): Peer { p.(accepted := p.accepted + {counter}) }

  type Peers = map<Id, Peer>
  type Streams = map<Id, Stream>

  function Active(peers: Peers): set<Id>
  {
    set s | s in peers && peers[s].active
  }

  /** The mixer: at most eight streams, one jitter buffer each. */
  datatype Mixer = Mixer(bytesPerFrame: nat, packetFrames: nat, defaultTarget: nat, streams: Streams)
  {
    /** Refuses only a new stream when there are eight. */
    function Ensured(id: Id, name: seq<Scalar>, now: nat): Option<Mixer>
    {
      if id in streams then Some(this.(streams := streams[id := streams[id].(name := name, lastSeen := now)]))
      else if |streams| >= MAX_STREAMS then None
      else
        var buffer := Playout.Fresh(bytesPerFrame, packetFrames).Retarget(defaultTarget);
        Some(this.(streams := streams[id := Stream(name, now, buffer)]))
    }

    function Touched(id: Id, now: nat): Mixer
    {
      if id in streams then this.(streams := streams[id := streams[id].(lastSeen := now)]) else this
    }

    function Pushed(id: Id, seqNo: nat, pcm: seq<Byte>, now: nat): Mixer
    {
      if id in streams
      then this.(streams := streams[id := streams[id].(lastSeen := now, buffer := streams[id].buffer.Push(seqNo, pcm).0)])
      else this
    }

    function Retargeted(id: Id, packets: nat): Mixer
    {
      if id in streams
      then this.(streams := streams[id := streams[id].(buffer := streams[id].buffer.Retarget(packets))])
      else this
    }

    /** How often a stream has run dry, 0 if there is none. */
    function Starvations(id: Id): nat
    {
      if id in streams then streams[id].buffer.starvations else 0
    }

    function Expired(maxIdle: nat, now: nat): Mixer
    {
      this.(streams := map s | s in streams && MinusSat(now, streams[s].lastSeen) < maxIdle :: streams[s])
    }
  }

  /** The PCM and the sequence number of an audio body, if it decodes. */
  function Chunk(body: seq<Byte>): (c: Option<(nat, seq<Byte>)>)
    ensures c.Some? ==> c.value.0 == SeqOf(body) <= U64_MAX
  {
    match DecodeAudio(body)
    case None => None
    case Some(audio) =>
      match Codec.Pcm(audio.codec, audio.payload)
      case None => None
      case Some(pcm) => Some((audio.seqNo, pcm))
  }

  /** The receiver with its mixer, the sequence number handed to a jitter buffer, if any, and the one counted. */
  datatype Handled = Handled(receiver: Receiver, pushed: Option<nat>, counted: Option<nat>)

  datatype Receiver = Receiver(epoch: Id, peers: Peers, mixer: Mixer, historyCap: nat, received: nat, rejected: nat)
  {
    function Rejected(): Receiver { this.(rejected := rejected + 1) }

    function Received(): Receiver { this.(received := received + 1) }

    function Rotated(nextEpoch: Id): Receiver
    {
      this.(epoch := nextEpoch, peers := map[], mixer := mixer.(streams := map[]))
    }

    /** A session that is not in the table: only a hello that opens gets in, while there is room for it. */
    ghost function Admit(d: Datagram, src: nat, now: nat, nextEpoch: Id): Receiver
      requires d.Datagram?
    {
      if d.kind != KIND_HELLO || |Active(peers)| >= MAX_STREAMS then Rejected() else
      match OpenBox(ToReceiver, epoch, d.session, d)
      case None => Rejected()
      case Some(body) =>
        match DecodeHello(body)
        case None => Rejected()
        case Some(name) => AdmitNamed(d.session, d.counter, src, now, nextEpoch, name)
    }

    /** A full history turns the epoch; a full mixer turns the newcomer away. */
    ghost function AdmitNamed(session: Id, counter: nat, src: nat, now: nat, nextEpoch: Id, name: seq<Scalar>): Receiver
    {
      if |peers| >= historyCap then Rotated(nextEpoch).Rejected() else Enter(session, counter, src, now, name)
    }

    ghost function Enter(session: Id, counter: nat, src: nat, now: nat, name: seq<Scalar>): Receiver
    {
      match mixer.Ensured(session, name, now)
      case None => Rejected()
      case Some(mixer') =>
        var peer := Peer(Replay.Accept({}, WINDOW, counter), 0, true, src, name, None, Unheard(now));
        this.(peers := peers[session := peer], mixer := mixer').Received()
    }

    /** A hello from a known session makes it active again, whether or not the mixer has room for its stream. */
    function Resume(session: Id, body: seq<Byte>, now: nat): Receiver
      requires session in peers
    {
      match DecodeHello(body)
      case None => Received()
      case Some(name) => Welcome(session, name, now).Received()
    }

    function Welcome(session: Id, name: seq<Scalar>, now: nat): Receiver
      requires session in peers
    {
      var ensured := mixer.Ensured(session, name, now);
      this.(peers := peers[session := peers[session].(name := name, active := true)],
            mixer := if ensured.Some? then ensured.value else mixer)
    }

    /** What decodes is counted and goes to the session's stream, if it has one. */
    function Play(session: Id, body: seq<Byte>, now: nat): Handled
      requires session in peers
    {
      match Chunk(body)
      case None => Handled(Rejected(), None, None)
      case Some(chunk) =>
        var stats := peers[session].stats.AfterAudio(DecodeAudio(body).value, now);
        Handled(Take(session, stats, chunk.0, chunk.1, now).Received(),
                if session in mixer.streams then Some(chunk.0) else None, Some(chunk.0))
    }

    /** The statistics are set, and the stream gets its samples. */
    function Take(session: Id, stats: Stats, seqNo: nat, pcm: seq<Byte>, now: nat): Receiver
      requires session in peers
    {
      this.(peers := peers[session := peers[session].(stats := stats)],
            mixer := mixer.Touched(session, now).Pushed(session, seqNo, pcm, now))
    }

    function TakeProbe(session: Id, stats: Stats, now: nat): Receiver
      requires session in peers
    {
      this.(peers := peers[session := peers[session].(stats := stats)], mixer := mixer.Touched(session, now))
    }

    function Probed(session: Id, body: seq<Byte>, now: nat): Receiver
      requires session in peers
    {
      match DecodeProbe(body)
      case None => Rejected()
      case Some(probe) =>
        TakeProbe(session, peers[session].stats.AfterProbe(probe, now), now).Received()
    }

    /** A known session's counter is used up and its address noted, whatever the packet turns out to be. */
    function Noted(session: Id, counter: nat, src: nat): Receiver
      requires session in peers
    {
      this.(peers := peers[session := Using(peers[session], counter).(addr := src)])
    }

    function Dispatch(session: Id, kind: Byte, body: seq<Byte>, now: nat): Handled
      requires session in peers
    {
      if kind == KIND_HELLO then Handled(Resume(session, body, now), None, None)
      else if kind == KIND_AUDIO && peers[session].active then Play(session, body, now)
      else if kind == KIND_PROBE && peers[session].active then Handled(Probed(session, body, now), None, None)
      else if kind == KIND_AUDIO || kind == KIND_PROBE then Handled(this, None, None)
      else Handled(Rejected(), None, None)
    }

    ghost function FromKnown(d: Datagram, src: nat, now: nat): Handled
      requires d.Datagram? && d.session in peers
    {
      match OpenBox(ToReceiver, epoch, d.session, d)
      case None => Handled(Rejected(), None, None)
      case Some(body) => Opened(d.session, d.counter, d.kind, body, src, now)
    }

    /** A counter that has been used, or is too old, is refused. */
    ghost function Opened(session: Id, counter: nat, kind: Byte, body: seq<Byte>, src: nat, now: nat): Handled
      requires session in peers
    {
      if !Replay.Fresh(peers[session].accepted, WINDOW, counter) then Handled(Rejected(), None, None)
      else Noted(session, counter, src).Dispatch(session, kind, body, now)
    }

    ghost function Handle(d: Datagram, src: nat, now: nat, nextEpoch: Id): Handled
    {
      if d.Unparsable? || d.epoch != epoch || d.counter == 0 then Handled(Rejected(), None, None)
      else if d.session in peers then FromKnown(d, src, now)
      else Handled(Admit(d, src, now, nextEpoch), None, None)
    }

    predicate Due(session: Id, now: nat)
    {
      session in peers && peers[session].active
      && (peers[session].lastFeedback.None? || MinusSat(now, peers[session].lastFeedback.value) >= FEEDBACK_PERIOD_US)
    }

    /** Feedback to one peer, if due: the report is made, the stream takes the buffer target, and the report is sealed under
        the next counter. */
    function Feedback(session: Id, now: nat): (Receiver, Option<Packet>)
    {
      if !Due(session, now) then (this, None) else
        var stats := peers[session].stats.AfterReport(mixer.Starvations(session));
        var next := PlusSat(peers[session].sendCounter, 1);
        var p := SealBox(ToSender, epoch, session, next, KIND_FEEDBACK,
                         EncodeFeedback(stats.Report(mixer.Starvations(session), now)));
        (Reported(session, next, if p.Some? then Some(now) else peers[session].lastFeedback, stats), p)
    }

    /** The buffer target, in packets, that a report sets. */
    function ReportTarget(session: Id): nat
      requires session in peers
    {
      Playout.PacketsFor(peers[session].stats.AfterReport(mixer.Starvations(session)).bufferMs)
    }

    function Reported(session: Id, next: UInt64, lastFeedback: Option<nat>, stats: Stats): Receiver
      requires session in peers
    {
      this.(peers := peers[session := peers[session].(sendCounter := next, lastFeedback := lastFeedback, stats := stats)],
            mixer := mixer.Retargeted(session, Playout.PacketsFor(stats.bufferMs)))
    }

    /** Idle streams go, and their peers turn inactive; the peers stay in the table. */
    function Expire(maxIdle: nat, now: nat): Receiver
    {
      var mixer' := mixer.Expired(maxIdle, now);
      this.(mixer := mixer',
            peers := map s | s in peers ::
              if s in mixer.streams && s !in mixer'.streams then peers[s].(active := false) else peers[s])
    }
  }
}
