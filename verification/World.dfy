/** Senders, the receiver and a network that may drop, repeat, reorder, alter and invent datagrams. */
module World {
  import opened Bytes
  import opened Utf8
  import opened Wire
  import opened Secure
  import SenderModel
  import opened ReceiverModel
  import Playout
  import PlayoutRuns

  type Key = (Id, Id)
  type Senders = map<Id, SenderModel.Sender>
  type Log = map<Key, seq<nat>>
  type Sounds = map<Key, seq<(nat, seq<Byte>)>>
  type Captured = map<(Id, Id, nat), (Byte, seq<Byte>)>

  /** What has been logged under an epoch and a session. */
  function At(log: Log, k: Key): seq<nat>
  {
    if k in log then log[k] else []
  }

  function Logged(log: Log, k: Key, more: seq<nat>): Log
  {
    log[k := At(log, k) + more]
  }

  function SoundsAt(sounds: Sounds, k: Key): seq<(nat, seq<Byte>)>
  {
    if k in sounds then sounds[k] else []
  }

  /** The frames of a list, as a buffer has them. */
  function WithBytes(buffer: Playout.State, qs: seq<nat>): (fs: seq<(nat, seq<Byte>)>)
    requires buffer.packetFrames > 0
    ensures |fs| == |qs|
    ensures forall i | 0 <= i < |qs| :: fs[i] == (qs[i], buffer.Frame(qs[i]))
  {
    seq(|qs|, i requires 0 <= i < |qs| => (qs[i], buffer.Frame(qs[i])))
  }

  /** The log with what a pull played. */
  function Heard(sounds: Sounds, k: Key, buffer: Playout.State, op: PlayoutRuns.Op): Sounds
    requires buffer.packetFrames > 0
  {
    sounds[k := SoundsAt(sounds, k) + WithBytes(buffer, PlayoutRuns.Played(buffer, op))]
  }

  datatype World = World(
    senders: Senders, receiver: Receiver,
    /** Every packet sealed, oldest first. */
    boxes: seq<Packet>,
    /** The epochs each session has been bound to, and the epochs the receiver has had. */
    bound: set<Key>, used: set<Id>,
    /** By epoch and session: sequence numbers handed to jitter buffers, frames played, feedback counters obeyed. */
    pushed: Log, played: Log, obeyed: Log,
    /** By epoch and session: audio numbers that the peer's statistics have counted, in order of arrival. */
    counted: Log,
    /** The frames played, each with its bytes. */
    sounded: Sounds,
    /** By epoch, session and audio number: the codec and the chunk that was captured. */
    taken: Captured)

  datatype Event =
    | Bind(session: Id, epoch: Id)
    | SendHello(session: Id, name: seq<Scalar>)
    | SendAudio(session: Id, codec: Byte, bufferMs: UInt16, pcm: seq<Byte>, nowUs: UInt64)
    | SendProbe(session: Id, gen: UInt32, step: Byte, size: nat, nowUs: UInt64)
    | Arrive(d: Datagram, src: nat, now: nat, nextEpoch: Id)
    | Report(session: Id, now: nat)
    | ArriveReport(session: Id, d: Datagram)
    | Expire(maxIdle: nat, now: nat)
    | Pull(session: Id, frames: nat)
    | Retarget(session: Id, packets: nat)
    | SetDefault(packets: nat)

  /** The network cannot make boxes of its own; it can put any box it has seen under any header. */
  ghost predicate Possible(boxes: seq<Packet>, d: Datagram)
  {
    d.Datagram? && d.ct.Box? ==> d.ct.packet in boxes
  }

  /** The hypotheses of a run: epochs are fresh, no counter reaches the end of 64 bits, the cipher is ideal. */
  ghost predicate Enabled(w: World, event: Event)
  {
    match event
    case Bind(s, e) => s in w.senders && (w.senders[s].epoch == Some(e) || (e, s) !in w.bound)
    case SendHello(s, _) => s in w.senders && w.senders[s].epoch.Some? && w.senders[s].counter < U64_MAX
    case SendAudio(s, _, _, _, _) => s in w.senders && w.senders[s].epoch.Some? && w.senders[s].counter < U64_MAX
    case SendProbe(s, _, _, _, _) => s in w.senders && w.senders[s].epoch.Some? && w.senders[s].counter < U64_MAX
    case Arrive(d, _, _, nextEpoch) => Possible(w.boxes, d) && nextEpoch !in w.used
    case Report(s, _) => s in w.receiver.peers && w.receiver.peers[s].sendCounter < U64_MAX
    case ArriveReport(s, d) => s in w.senders && Possible(w.boxes, d)
    case Expire(_, _) => true
    case Pull(_, _) => true
    case Retarget(_, _) => true
    case SetDefault(_) => true
  }

  function Boxed(boxes: seq<Packet>, p: Option<Packet>): seq<Packet>
  {
    if p.Some? then boxes + [p.value] else boxes
  }

  /** A sender has moved on and may have sealed a packet. */
  function Sent(w: World, s: Id, out: (SenderModel.Sender, Option<Packet>)): World
  {
    w.(senders := w.senders[s := out.0], boxes := Boxed(w.boxes, out.1))
  }

  /** The same for audio, noting what was captured under which number. */
  function SentAudio(w: World, s: Id, codec: Byte, pcm: seq<Byte>, out: (SenderModel.Sender, Option<Packet>)): World
  {
    Sent(w, s, out).(taken := if out.1.Some? then w.taken[(out.1.value.epoch, s, out.0.audioSeq) := (codec, pcm)] else w.taken)
  }

  /** The receiver has dealt with a datagram of a session; it may have a new epoch. */
  function Arrived(w: World, session: Id, h: Handled): World
  {
    w.(receiver := h.receiver, used := w.used + {h.receiver.epoch},
       pushed := if h.pushed.Some? then Logged(w.pushed, (w.receiver.epoch, session), [h.pushed.value]) else w.pushed,
       counted := if h.counted.Some? then Logged(w.counted, (w.receiver.epoch, session), [h.counted.value]) else w.counted)
  }

  /** A sender has dealt with a datagram, and obeyed it if its counter was new. */
  ghost function Obeyed(w: World, s: Id, d: Datagram): World
    requires s in w.senders
  {
    var sender := w.senders[s].Feedback(d).0;
    w.(senders := w.senders[s := sender],
       obeyed := if d.Datagram? && sender != w.senders[s] then Logged(w.obeyed, (d.epoch, s), [d.counter]) else w.obeyed)
  }

  /** One stream's buffer is replaced by its next state. */
  function Stepped(r: Receiver, s: Id, op: PlayoutRuns.Op): Receiver
    requires s in r.mixer.streams && r.mixer.streams[s].buffer.packetFrames > 0
  {
    var stream := r.mixer.streams[s];
    r.(mixer := r.mixer.(streams := r.mixer.streams[s := stream.(buffer := PlayoutRuns.Step(stream.buffer, op))]))
  }

  /** An output callback has pulled from a stream. */
  function PulledFrom(w: World, s: Id, frames: nat): World
    requires s in w.receiver.mixer.streams && w.receiver.mixer.streams[s].buffer.packetFrames > 0
  {
    var op := PlayoutRuns.Op.Pull(frames);
    w.(receiver := Stepped(w.receiver, s, op),
       played := Logged(w.played, (w.receiver.epoch, s), PlayoutRuns.Played(w.receiver.mixer.streams[s].buffer, op)),
       sounded := Heard(w.sounded, (w.receiver.epoch, s), w.receiver.mixer.streams[s].buffer, op))
  }

  ghost function Next(w: World, event: Event): World
    requires Enabled(w, event)
  {
    match event
    case Bind(s, e) => w.(senders := w.senders[s := w.senders[s].Bind(e)], bound := w.bound + {(e, s)})
    case SendHello(s, name) => Sent(w, s, w.senders[s].Hello(name))
    case SendAudio(s, codec, bufferMs, pcm, nowUs) => SentAudio(w, s, codec, pcm, w.senders[s].Audio(codec, bufferMs, pcm, nowUs))
    case SendProbe(s, gen, probeStep, size, nowUs) => Sent(w, s, w.senders[s].Probe(gen, probeStep, size, nowUs))
    case Arrive(d, src, now, nextEpoch) =>
      var h := w.receiver.Handle(d, src, now, nextEpoch);
      if d.Datagram? then Arrived(w, d.session, h) else w.(receiver := h.receiver)
    case Report(s, now) =>
      var out := w.receiver.Feedback(s, now);
      w.(receiver := out.0, boxes := Boxed(w.boxes, out.1))
    case ArriveReport(s, d) => Obeyed(w, s, d)
    case Expire(maxIdle, now) => w.(receiver := w.receiver.Expire(maxIdle, now))
    case Pull(s, frames) =>
      if s in w.receiver.mixer.streams && w.receiver.mixer.streams[s].buffer.packetFrames > 0
      then PulledFrom(w, s, frames) else w
    case Retarget(s, packets) => w.(receiver := w.receiver.(mixer := w.receiver.mixer.Retargeted(s, packets)))
    case SetDefault(packets) =>
      w.(receiver := w.receiver.(mixer := w.receiver.mixer.(defaultTarget := Clamp(packets, 1, Playout.MAX_SLOTS))))
  }

  predicate Sends(event: Event) { event.SendHello? || event.SendAudio? || event.SendProbe? }

  /** Events that concern the receiver, its mixer and its listeners, and seal nothing. */
  predicate Receives(event: Event)
  {
    event.Arrive? || event.Expire? || event.Pull? || event.Retarget? || event.SetDefault?
  }

  /** Any number of senders with distinct sessions, none bound; a receiver under its first epoch. */
  ghost predicate Initial(w: World)
  {
    && (forall s | s in w.senders :: w.senders[s] == SenderModel.Sender(s, None, 0, w.senders[s].audioSeq, {}))
    && w.receiver.peers == map[] && w.receiver.mixer.streams == map[]
    && w.boxes == [] && w.bound == {} && w.used == {w.receiver.epoch}
    && w.pushed == map[] && w.played == map[] && w.obeyed == map[]
    && w.counted == map[] && w.sounded == map[] && w.taken == map[]
  }

  /** The run makes only enabled steps. */
  ghost predicate Runs(w: World, events: seq<Event>)
    decreases |events|, 0
  {
    events == [] || (Runs(w, events[..|events| - 1])
                    && Enabled(After(w, events[..|events| - 1]), events[|events| - 1]))
  }

  ghost function After(w: World, events: seq<Event>): World
    requires Runs(w, events)
    decreases |events|, 1
  {
    if events == [] then w else Next(After(w, events[..|events| - 1]), events[|events| - 1])
  }
}
