/** Coming back: a hello connects its session, after expiry too, and then its audio gets through. */
module WorldResume {
  import opened Bytes
  import opened Utf8
  import opened Wire
  import opened Secure
  import opened ReceiverModel
  import opened World
  import opened WorldInvariant
  import opened WorldLiveness
  import opened Reception
  import ActivePeers
  import Codec
  import ReceiverTable
  import Replay
  import SenderModel

  /** The receiver will take a hello from the session: it knows the session or has room for a newcomer, and has a stream of it
      or room for one. */
  ghost predicate Welcomes(r: Receiver, s: Id)
  {
    && (s in r.peers || (|Active(r.peers)| < MAX_STREAMS && |r.peers| < r.historyCap))
    && (s in r.mixer.streams || |r.mixer.streams| < MAX_STREAMS)
  }

  /** A hello of a session under the receiver's epoch, with a name that decodes. */
  ghost predicate IsHello(r: Receiver, s: Id, p: Packet)
  {
    && p == Packet(ToReceiver, r.epoch, s, p.counter, KIND_HELLO, p.body) && p.counter > 0 && DecodeHello(p.body).Some?
  }

  /** The session is active and has a stream, heard just now; its buffer is the one it had, or a new one. */
  ghost predicate Welcomed(r: Receiver, r': Receiver, s: Id, name: seq<Scalar>, now: nat)
  {
    && r'.epoch == r.epoch && s in r'.peers && r'.peers[s].active && r'.peers[s].name == name && s in r'.mixer.streams
    && StreamOpened(r.mixer, r'.mixer, s, name, now)
  }

  lemma HelloIsWelcomed(r: Receiver, s: Id, p: Packet, src: nat, now: nat, nextEpoch: Id)
    requires Welcomes(r, s) && IsHello(r, s, p)
    requires s in r.peers ==> Replay.Fresh(r.peers[s].accepted, WINDOW, p.counter)
    ensures Welcomed(r, r.Handle(Carrying(p), src, now, nextEpoch).receiver, s, DecodeHello(p.body).value, now)
  {
    if s in r.peers {
      HelloResumes(r, Carrying(p), src, now, nextEpoch);
    } else {
      NewcomerEnters(r, Carrying(p), src, now, nextEpoch);
    }
  }

  /** The session is bound to the receiver's epoch and has counters left. */
  ghost predicate Bound(w: World, s: Id)
  {
    s in w.senders && w.senders[s].epoch == Some(w.receiver.epoch) && w.senders[s].counter + 1 < U64_MAX
  }

  lemma HelloIsSent(w: World, s: Id, name: seq<Scalar>)
    requires Inv(w) && Bound(w, s)
    ensures Enabled(w, SendHello(s, name))
    ensures var w', out := Next(w, SendHello(s, name)), w.senders[s].Hello(name);
            && out.1.Some? && IsHello(w.receiver, s, out.1.value) && out.1.value.counter == w.senders[s].counter + 1
            && DecodeHello(out.1.value.body) == Some(ClipName(name))
            && w' == w.(senders := w.senders[s := out.0], boxes := w.boxes + [out.1.value])
            && out.0 == w.senders[s].(counter := w.senders[s].counter + 1)
  {
    assert SenderOk(s, w.senders[s], w.bound);
    SenderModel.HelloCarries(w.senders[s], name);
  }

  /** The session says hello, and its hello arrives. */
  function Greeting(w: World, s: Id, name: seq<Scalar>, src: nat, now: nat, nextEpoch: Id): seq<Event>
    requires s in w.senders && w.senders[s].Hello(name).1.Some?
  {
    [SendHello(s, name), Arrive(Carrying(w.senders[s].Hello(name).1.value), src, now, nextEpoch)]
  }

  lemma TwoEvents(w: World, first: Event, second: Event)
    requires Enabled(w, first) && Enabled(Next(w, first), second)
    ensures Runs(w, [first, second]) && After(w, [first, second]) == Next(Next(w, first), second)
  {
    ActivePeers.OneEvent(w, first);
    ActivePeers.OneMoreEvent(w, [first], second);
    assert [first] + [second] == [first, second];
  }

  lemma HelloCanArrive(w: World, s: Id, name: seq<Scalar>, src: nat, now: nat, nextEpoch: Id)
    requires Inv(w) && Bound(w, s) && nextEpoch !in w.used
    ensures w.senders[s].Hello(name).1.Some? && Enabled(w, SendHello(s, name))
    ensures Enabled(Next(w, SendHello(s, name)), Arrive(Carrying(w.senders[s].Hello(name).1.value), src, now, nextEpoch))
  {
    HelloIsSent(w, s, name);
    var w1 := Next(w, SendHello(s, name));
    assert w1.boxes[|w1.boxes| - 1] == w.senders[s].Hello(name).1.value;
  }

  lemma GreetingRuns(w: World, s: Id, name: seq<Scalar>, src: nat, now: nat, nextEpoch: Id)
    requires Inv(w) && Bound(w, s) && nextEpoch !in w.used
    ensures w.senders[s].Hello(name).1.Some?
    ensures var events := Greeting(w, s, name, src, now, nextEpoch);
            && Runs(w, events)
            && After(w, events) == Next(Next(w, events[0]), events[1])
  {
    HelloCanArrive(w, s, name, src, now, nextEpoch);
    TwoEvents(w, SendHello(s, name), Arrive(Carrying(w.senders[s].Hello(name).1.value), src, now, nextEpoch));
  }

  /** After a hello that the receiver takes, the session is connected. */
  lemma GreetingConnects(w: World, s: Id, name: seq<Scalar>, src: nat, now: nat, nextEpoch: Id)
    requires Inv(w) && Honoured(w) && Bound(w, s) && Welcomes(w.receiver, s) && nextEpoch !in w.used
    ensures w.senders[s].Hello(name).1.Some? && Runs(w, Greeting(w, s, name, src, now, nextEpoch))
    ensures var w' := After(w, Greeting(w, s, name, src, now, nextEpoch));
            Connected(w', s) && Welcomed(w.receiver, w'.receiver, s, ClipName(name), now)
  {
    GreetingRuns(w, s, name, src, now, nextEpoch);
    HelloIsSent(w, s, name);
    if s in w.receiver.peers {
      NextCounterIsFresh(w, s);
    }
    HelloIsWelcomed(w.receiver, s, w.senders[s].Hello(name).1.value, src, now, nextEpoch);
  }

  /** What the session captures next, and how it will be sent and delivered. */
  datatype Capture = Capture(codec: Byte, bufferMs: UInt16, pcm: seq<Byte>, sentUs: UInt64, src: nat, now: nat, nextEpoch: Id)

  /** It is sealed, and, delivered untouched, reaches the session's buffer. */
  ghost predicate ChunkGetsThrough(w: World, s: Id, c: Capture)
  {
    && s in w.senders
    && GetsThrough(w, w.senders[s].Audio(c.codec, c.bufferMs, c.pcm, c.sentUs).1, w.senders[s].audioSeq + 1, c.src, c.now, c.nextEpoch)
  }

  /** After any run, whatever the network did and whether or not the session was expired: if the receiver has room for it and
      its hello arrives, its next audio packet gets through. */
  lemma HelloThenAudioGetsThrough(w: World, events: seq<Event>, w1: World, s: Id, name: seq<Scalar>, src: nat, now: nat,
                                  nextEpoch: Id, w2: World, c: Capture)
    requires Initial(w) && Runs(w, events) && w1 == After(w, events)
    requires Bound(w1, s) && Welcomes(w1.receiver, s) && nextEpoch !in w1.used && w1.senders[s].Hello(name).1.Some?
    requires var greeting := Greeting(w1, s, name, src, now, nextEpoch); Runs(w1, greeting) && w2 == After(w1, greeting)
    requires Codec.Payload(c.codec, c.pcm).Some?
    ensures ChunkGetsThrough(w2, s, c)
  {
    RunIsHonoured(w, events, w1);
    GreetingConnects(w1, s, name, src, now, nextEpoch);
    var greeting := Greeting(w1, s, name, src, now, nextEpoch);
    ActivePeers.RunsOn(w, events, greeting);
    NextAudioGetsThrough(w, events + greeting, w2, s, c.codec, c.bufferMs, c.pcm, c.sentUs, c.src, c.now, c.nextEpoch);
  }

  /** A session that was expired is welcome as long as there is room for its stream. */
  lemma ExpiredIsWelcome(r: Receiver, maxIdle: nat, now: nat, s: Id)
    requires s in r.peers && |r.mixer.streams| <= MAX_STREAMS && s in r.mixer.streams
    ensures Welcomes(r.Expire(maxIdle, now), s)
  {
    var m, m' := r.mixer, r.mixer.Expired(maxIdle, now);
    if s !in m'.streams {
      assert m'.streams.Keys <= m.streams.Keys - {s};
      ReceiverTable.FewerKeys(m'.streams.Keys, m.streams.Keys - {s});
      assert m.streams.Keys == (m.streams.Keys - {s}) + {s};
    }
  }
}
