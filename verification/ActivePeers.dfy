/** How many peers are active: when the bound of eight holds, and a run that breaks it. */
module ActivePeers {
  import opened Bytes
  import opened Wire
  import opened PeerStats
  import opened Secure
  import opened ReceiverModel
  import opened ReceiverTable
  import Replay
  import SenderModel
  import opened World

  /** The datagram is a hello that makes a known but inactive session active again. */
  ghost predicate Reactivates(r: Receiver, d: Datagram)
  {
    && d.Datagram? && d.epoch == r.epoch && d.kind == KIND_HELLO && d.counter > 0
    && d.session in r.peers && !r.peers[d.session].active
    && Replay.Fresh(r.peers[d.session].accepted, WINDOW, d.counter)
    && var contents := OpenBox(ToReceiver, r.epoch, d.session, d);
       contents.Some? && DecodeHello(contents.value).Some?
  }

  lemma ActiveUpdated(peers: Peers, s: Id, p: Peer)
    ensures Active(peers[s := p]) == if p.active then Active(peers) + {s} else Active(peers) - {s}
  {
  }

  lemma OneMore(a: set<Id>, s: Id)
    ensures |a + {s}| == if s in a then |a| else |a| + 1
  {
    if s in a {
      assert a + {s} == a;
    }
  }

  lemma AdmitActive(r: Receiver, d: Datagram, src: nat, now: nat, nextEpoch: Id)
    requires d.Datagram? && d.session !in r.peers
    ensures var r' := r.Admit(d, src, now, nextEpoch);
            || Active(r'.peers) <= Active(r.peers)
            || (|Active(r.peers)| < MAX_STREAMS && Active(r'.peers) == Active(r.peers) + {d.session})
  {
  }

  lemma ResumeActive(r: Receiver, session: Id, body: seq<Byte>, now: nat)
    requires session in r.peers
    ensures Active(r.Resume(session, body, now).peers)
            == if DecodeHello(body).Some? then Active(r.peers) + {session} else Active(r.peers)
  {
    if DecodeHello(body).Some? {
      ActiveUpdated(r.peers, session, r.peers[session].(name := DecodeHello(body).value, active := true));
    }
  }

  lemma DispatchActive(r: Receiver, session: Id, kind: Byte, body: seq<Byte>, now: nat)
    requires session in r.peers
    ensures Active(r.Dispatch(session, kind, body, now).receiver.peers)
            == if kind == KIND_HELLO && DecodeHello(body).Some? then Active(r.peers) + {session} else Active(r.peers)
  {
    ResumeActive(r, session, body, now);
  }

  lemma OpenedActive(r: Receiver, session: Id, counter: nat, kind: Byte, body: seq<Byte>, src: nat, now: nat)
    requires session in r.peers
    ensures Active(r.Opened(session, counter, kind, body, src, now).receiver.peers)
            == if Replay.Fresh(r.peers[session].accepted, WINDOW, counter) && kind == KIND_HELLO && DecodeHello(body).Some?
               then Active(r.peers) + {session} else Active(r.peers)
  {
    ActiveUpdated(r.peers, session, Using(r.peers[session], counter).(addr := src));
    DispatchActive(r.Noted(session, counter, src), session, kind, body, now);
    assert session in Active(r.peers) ==> Active(r.peers) + {session} == Active(r.peers);
    assert session !in Active(r.peers) ==> Active(r.peers) - {session} == Active(r.peers);
  }

  /** One datagram activates at most one peer: a newcomer while there are fewer than eight, or a session that resumes. */
  lemma HandleActive(r: Receiver, d: Datagram, src: nat, now: nat, nextEpoch: Id)
    ensures var after := Active(r.Handle(d, src, now, nextEpoch).receiver.peers);
            if Reactivates(r, d) then after == Active(r.peers) + {d.session} && d.session !in Active(r.peers)
            else after <= Active(r.peers)
                 || (|Active(r.peers)| < MAX_STREAMS && after == Active(r.peers) + {d.session})
  {
    if d.Datagram? && d.epoch == r.epoch && d.counter > 0 {
      if d.session in r.peers {
        var contents := OpenBox(ToReceiver, r.epoch, d.session, d);
        if contents.Some? {
          OpenedActive(r, d.session, d.counter, d.kind, contents.value, src, now);
          assert r.peers[d.session].active ==> Active(r.peers) + {d.session} == Active(r.peers);
        }
      } else {
        AdmitActive(r, d, src, now, nextEpoch);
      }
    }
  }

  /** Eight active peers stay eight exactly unless a session resumes: the mixer's limit is not asked then. */
  lemma ActiveStayBoundedIff(r: Receiver, d: Datagram, src: nat, now: nat, nextEpoch: Id)
    requires |Active(r.peers)| <= MAX_STREAMS
    ensures |Active(r.Handle(d, src, now, nextEpoch).receiver.peers)| <= MAX_STREAMS
            <==> !(|Active(r.peers)| == MAX_STREAMS && Reactivates(r, d))
  {
    HandleActive(r, d, src, now, nextEpoch);
    var after := Active(r.Handle(d, src, now, nextEpoch).receiver.peers);
    if after <= Active(r.peers) {
      FewerKeys(after, Active(r.peers));
    } else {
      OneMore(Active(r.peers), d.session);
    }
  }

  // Runs.

  /** The event is a resumption when eight peers are active already. */
  ghost predicate Overflows(w: World, event: Event)
  {
    event.Arrive? && |Active(w.receiver.peers)| == MAX_STREAMS && Reactivates(w.receiver, event.d)
  }

  ghost predicate Bounded(w: World) { |Active(w.receiver.peers)| <= MAX_STREAMS }

  /** Nothing but a datagram activates a peer. */
  lemma OtherEventsActivateNone(w: World, event: Event)
    requires Enabled(w, event) && !event.Arrive?
    ensures Active(Next(w, event).receiver.peers) <= Active(w.receiver.peers)
  {
  }

  lemma StepStaysBoundedIff(w: World, event: Event)
    requires Enabled(w, event) && Bounded(w)
    ensures Bounded(Next(w, event)) <==> !Overflows(w, event)
  {
    if event.Arrive? {
      ActiveStayBoundedIff(w.receiver, event.d, event.src, event.now, event.nextEpoch);
    } else {
      OtherEventsActivateNone(w, event);
      FewerKeys(Active(Next(w, event).receiver.peers), Active(w.receiver.peers));
    }
  }

  /** The bound holds before and after every event of the run. */
  ghost predicate AlwaysBounded(w: World, events: seq<Event>)
    requires Runs(w, events)
    decreases |events|
  {
    Bounded(After(w, events)) && (events == [] || AlwaysBounded(w, events[..|events| - 1]))
  }

  /** Some event of the run is a resumption when eight peers are active already. */
  ghost predicate SomeOverflows(w: World, events: seq<Event>)
    requires Runs(w, events)
    decreases |events|
  {
    events != []
    && (SomeOverflows(w, events[..|events| - 1])
        || Overflows(After(w, events[..|events| - 1]), events[|events| - 1]))
  }

  /** Over any run there are never more than eight active peers exactly if no session ever resumes while eight are. */
  lemma {:induction false} RunStaysBoundedIff(w: World, events: seq<Event>)
    requires Initial(w) && Runs(w, events)
    ensures AlwaysBounded(w, events) <==> !SomeOverflows(w, events)
    decreases |events|
  {
    if events == [] {
      assert Active(w.receiver.peers) == {};
    } else {
      var before := events[..|events| - 1];
      RunStaysBoundedIff(w, before);
      if AlwaysBounded(w, before) {
        StepStaysBoundedIff(After(w, before), events[|events| - 1]);
      }
    }
  }

  // A run that breaks the bound.

  lemma OneMoreEvent(w: World, events: seq<Event>, event: Event)
    requires Runs(w, events) && Enabled(After(w, events), event)
    ensures Runs(w, events + [event]) && After(w, events + [event]) == Next(After(w, events), event)
  {
    assert (events + [event])[..|events|] == events;
  }

  lemma OneEvent(w: World, event: Event)
    requires Enabled(w, event)
    ensures Runs(w, [event]) && After(w, [event]) == Next(w, event)
  {
    OneMoreEvent(w, [], event);
    assert [] + [event] == [event];
  }

  lemma {:induction false} RunsOn(w: World, events: seq<Event>, more: seq<Event>)
    requires Runs(w, events) && Runs(After(w, events), more)
    ensures Runs(w, events + more) && After(w, events + more) == After(After(w, events), more)
    decreases |more|
  {
    if more == [] {
      assert events + more == events;
    } else {
      var first, last := more[..|more| - 1], more[|more| - 1];
      RunsOn(w, events, first);
      OneMoreEvent(w, events + first, last);
      assert events + first + [last] == events + more;
    }
  }

  const HERE: Id := [0, 0, 0, 0, 0, 0, 0, 0, 0, 0, 0, 0, 0, 0, 0, 0]
  const ELSEWHERE: Id := [1, 0, 0, 0, 0, 0, 0, 0, 0, 0, 0, 0, 0, 0, 0, 0]

  /** Session number i of the example. */
  function Session(i: nat): Id
    requires i < 256
  {
    [i, 0, 0, 0, 0, 0, 0, 0, 0, 0, 0, 0, 0, 0, 0, 0]
  }

  /** A hello without a name, under its counter. */
  function HelloBox(s: Id, counter: UInt64): Packet
  {
    Packet(ToReceiver, HERE, s, counter, KIND_HELLO, EncodeHello([]))
  }

  lemma HelloDecodes()
    ensures DecodeHello(EncodeHello([])) == Some([])
  {
    HelloRoundTrip([]);
    assert ClipName([]) == [];
  }

  /** The sender is unused, and the receiver, in its first epoch, has room for one more session. */
  ghost predicate CanJoin(w: World, s: Id)
  {
    && s in w.senders && w.senders[s].session == s && w.senders[s].epoch.None? && w.senders[s].counter == 0
    && (HERE, s) !in w.bound && w.used == {HERE} && w.receiver.epoch == HERE
    && s !in w.receiver.peers && s !in w.receiver.mixer.streams
    && |w.receiver.peers| < w.receiver.historyCap
    && |Active(w.receiver.peers)| < MAX_STREAMS && |w.receiver.mixer.streams| < MAX_STREAMS
  }

  function Joining(s: Id, now: nat): seq<Event>
  {
    [Event.Bind(s, HERE), SendHello(s, []), Arrive(Carrying(HelloBox(s, 1)), 0, now, ELSEWHERE)]
  }

  /** The receiver has let a session in: a new active peer that has used counter 1, and its stream. */
  ghost predicate LetIn(r: Receiver, r': Receiver, s: Id, now: nat)
  {
    && r'.peers == r.peers[s := Peer({1}, 0, true, 0, [], None, Unheard(now))]
    && s in r'.mixer.streams && r'.mixer.streams[s].lastSeen == now
    && r'.mixer.streams.Keys == r.mixer.streams.Keys + {s}
    && (forall t | t in r.mixer.streams && t != s :: r'.mixer.streams[t] == r.mixer.streams[t])
    && r'.historyCap == r.historyCap && r'.epoch == r.epoch
  }

  lemma EnsuredAdds(m: Mixer, s: Id, now: nat)
    requires s !in m.streams && |m.streams| < MAX_STREAMS
    ensures m.Ensured(s, [], now).Some?
    ensures var streams := m.Ensured(s, [], now).value.streams;
            && s in streams && streams[s].lastSeen == now && streams.Keys == m.streams.Keys + {s}
            && forall t | t in m.streams && t != s :: streams[t] == m.streams[t]
  {
  }

  lemma FirstIsFresh()
    ensures Replay.Accept({}, WINDOW, 1) == {1}
  {
  }

  lemma EnterLetsIn(r: Receiver, s: Id, now: nat)
    requires s !in r.peers && s !in r.mixer.streams && |r.mixer.streams| < MAX_STREAMS
    ensures LetIn(r, r.Enter(s, 1, 0, now, []), s, now)
  {
    FirstIsFresh();
    EnsuredAdds(r.mixer, s, now);
    assert r.Enter(s, 1, 0, now, []).peers == r.peers[s := Peer({1}, 0, true, 0, [], None, Unheard(now))];
  }

  lemma FirstHelloLetsIn(r: Receiver, p: Packet, now: nat, nextEpoch: Id)
    requires p == Packet(ToReceiver, r.epoch, p.session, 1, KIND_HELLO, p.body) && DecodeHello(p.body) == Some([])
    requires p.session !in r.peers && p.session !in r.mixer.streams && |r.peers| < r.historyCap
    requires |Active(r.peers)| < MAX_STREAMS && |r.mixer.streams| < MAX_STREAMS
    ensures LetIn(r, r.Handle(Carrying(p), 0, now, nextEpoch).receiver, p.session, now)
  {
    EnterLetsIn(r, p.session, now);
    assert r.Handle(Carrying(p), 0, now, nextEpoch).receiver == r.Enter(p.session, 1, 0, now, []);
  }

  /** What a join leaves. */
  ghost predicate Joined(w: World, w': World, s: Id, now: nat)
  {
    && LetIn(w.receiver, w'.receiver, s, now) && w'.used == {HERE} && w'.bound == w.bound + {(HERE, s)}
    && s in w'.senders && w'.senders == w.senders[s := SenderModel.Sender(s, Some(HERE), 1, 0, {})]
    && w'.boxes == w.boxes + [HelloBox(s, 1)]
  }

  /** A sender that binds and says hello. */
  ghost predicate Greeted(w: World, w': World, s: Id, counter: UInt64)
  {
    && w' == w.(senders := w'.senders, boxes := w.boxes + [HelloBox(s, counter)])
    && s in w.senders && w'.senders == w.senders[s := w.senders[s].(counter := counter)]
  }

  lemma HelloGreets(w: World, s: Id, counter: UInt64)
    requires s in w.senders && w.senders[s].session == s && w.senders[s].epoch == Some(HERE)
    requires counter == w.senders[s].counter + 1
    ensures Enabled(w, SendHello(s, [])) && Greeted(w, Next(w, SendHello(s, [])), s, counter)
  {
    SenderModel.HelloCarries(w.senders[s], []);
  }

  /** The sender has bound and said hello; the hello is on its way. */
  function Announced(w: World, s: Id): World
    requires s in w.senders
  {
    w.(senders := w.senders[s := SenderModel.Sender(s, Some(HERE), 1, 0, {})], bound := w.bound + {(HERE, s)},
       boxes := w.boxes + [HelloBox(s, 1)])
  }

  lemma SetTwice(m: Senders, s: Id, a: SenderModel.Sender, b: SenderModel.Sender)
    ensures m[s := a][s := b] == m[s := b]
  {
  }

  lemma AnnounceRuns(w: World, s: Id)
    requires CanJoin(w, s)
    ensures Runs(w, [Event.Bind(s, HERE), SendHello(s, [])])
    ensures After(w, [Event.Bind(s, HERE), SendHello(s, [])]) == Announced(w, s)
  {
    var bind, hello := Event.Bind(s, HERE), SendHello(s, []);
    OneEvent(w, bind);
    var w1 := Next(w, bind);
    assert w1.senders[s] == SenderModel.Sender(s, Some(HERE), 0, 0, {});
    HelloGreets(w1, s, 1);
    OneMoreEvent(w, [bind], hello);
    assert [bind] + [hello] == [bind, hello];
    SetTwice(w.senders, s, w1.senders[s], w1.senders[s].(counter := 1));
  }

  lemma HelloCanArrive(w: World, w': World, s: Id, now: nat)
    requires CanJoin(w, s) && w' == Announced(w, s)
    ensures Enabled(w', Arrive(Carrying(HelloBox(s, 1)), 0, now, ELSEWHERE))
  {
    assert HelloBox(s, 1) == w'.boxes[|w'.boxes| - 1];
    assert HERE[0] != ELSEWHERE[0];
  }

  lemma HelloIsHandled(w: World, s: Id, now: nat)
    requires CanJoin(w, s)
    ensures var h := w.receiver.Handle(Carrying(HelloBox(s, 1)), 0, now, ELSEWHERE);
            LetIn(w.receiver, h.receiver, s, now) && h.pushed.None? && h.counted.None?
  {
    HelloDecodes();
    FirstHelloLetsIn(w.receiver, HelloBox(s, 1), now, ELSEWHERE);
  }

  lemma ArrivalJoins(w: World, w': World, s: Id, now: nat)
    requires CanJoin(w, s) && w' == Announced(w, s)
    ensures var arrive := Arrive(Carrying(HelloBox(s, 1)), 0, now, ELSEWHERE);
            Enabled(w', arrive) && Joined(w, Next(w', arrive), s, now)
  {
    HelloCanArrive(w, w', s, now);
    HelloIsHandled(w, s, now);
  }

  lemma JoinRuns(w: World, s: Id, now: nat)
    requires CanJoin(w, s)
    ensures Runs(w, Joining(s, now)) && Joined(w, After(w, Joining(s, now)), s, now)
  {
    var greeting, arrive := [Event.Bind(s, HERE), SendHello(s, [])], Arrive(Carrying(HelloBox(s, 1)), 0, now, ELSEWHERE);
    AnnounceRuns(w, s);
    ArrivalJoins(w, After(w, greeting), s, now);
    OneMoreEvent(w, greeting, arrive);
    assert greeting + [arrive] == Joining(s, now);
  }

  /** The first n sessions of the example. */
  function Sessions(n: nat): (ss: set<Id>)
    requires n < 256
    ensures |ss| == n
    ensures forall s | s in ss :: s[0] < n
  {
    if n == 0 then {} else
      assert Session(n - 1)[0] == n - 1;
      Sessions(n - 1) + {Session(n - 1)}
  }

  lemma {:induction false} SessionIsIn(i: nat, n: nat)
    requires i < n < 256
    ensures Session(i) in Sessions(n)
  {
    if i < n - 1 {
      SessionIsIn(i, n - 1);
    }
  }

  /** Nine unused senders, and a receiver whose history has room for them. */
  ghost predicate Start(w: World)
  {
    Initial(w) && w.receiver.epoch == HERE && w.receiver.historyCap >= 9 && forall i: nat | i < 9 :: Session(i) in w.senders
  }

  ghost predicate Occupied(r: Receiver, ss: set<Id>, idle: set<Id>)
  {
    r.epoch == HERE && r.peers.Keys == ss && Active(r.peers) == ss - idle && r.mixer.streams.Keys == ss - idle
  }

  ghost predicate Untouched(w: World, w': World, ss: set<Id>)
  {
    && (forall k | k in w'.bound :: k.1 in ss)
    && (forall s | s in w.senders && s !in ss :: s in w'.senders && w'.senders[s] == w.senders[s])
  }

  /** The sessions in ss have joined, and are active but for those in idle; the others have done nothing yet. */
  ghost predicate Crowded(w: World, w': World, ss: set<Id>, idle: set<Id>)
  {
    && w'.used == {HERE} && w'.receiver.historyCap == w.receiver.historyCap
    && Occupied(w'.receiver, ss, idle) && Untouched(w, w', ss)
  }

  /** The first session has said hello once, and its counter is used up. */
  ghost predicate First(w: World)
  {
    var s := Session(0);
    && s in w.senders && w.senders[s] == SenderModel.Sender(s, Some(HERE), 1, 0, {})
    && s in w.receiver.peers && w.receiver.peers[s].accepted == {1}
  }

  /** The first session was last seen at time 0, the others at time 1. */
  ghost predicate Seen(streams: Streams)
  {
    forall s | s in streams :: streams[s].lastSeen == if s == Session(0) then 0 else 1
  }

  lemma NextCanJoin(w: World, w': World, idle: set<Id>, n: nat)
    requires Start(w) && n < 9 && Crowded(w, w', Sessions(n), idle) && |Sessions(n) - idle| < MAX_STREAMS
    ensures CanJoin(w', Session(n))
  {
    assert Session(n)[0] == n;
    assert |w'.receiver.peers| == |w'.receiver.peers.Keys|;
    assert |w'.receiver.mixer.streams| == |w'.receiver.mixer.streams.Keys|;
  }

  lemma OneMoreOccupies(r: Receiver, r': Receiver, ss: set<Id>, idle: set<Id>, s: Id, now: nat)
    requires Occupied(r, ss, idle) && idle <= ss && s !in ss && LetIn(r, r', s, now)
    ensures Occupied(r', ss + {s}, idle)
  {
    ActiveUpdated(r.peers, s, Peer({1}, 0, true, 0, [], None, Unheard(now)));
    assert ss + {s} - idle == (ss - idle) + {s};
    assert r'.peers.Keys == r.peers.Keys + {s};
  }

  lemma CrowdGrows(w: World, w': World, w'': World, ss: set<Id>, idle: set<Id>, s: Id, now: nat)
    requires Crowded(w, w', ss, idle) && idle <= ss && s !in ss && Joined(w', w'', s, now)
    ensures Crowded(w, w'', ss + {s}, idle)
  {
    OneMoreOccupies(w'.receiver, w''.receiver, ss, idle, s, now);
  }

  lemma FirstStays(w': World, w'': World, n: nat, now: nat)
    requires n < 9 && Joined(w', w'', Session(n), now) && (n > 0 ==> First(w') && Seen(w'.receiver.mixer.streams))
    requires now == (if n == 0 then 0 else 1) && (n == 0 ==> w'.receiver.mixer.streams == map[])
    ensures First(w'') && Seen(w''.receiver.mixer.streams)
  {
    assert Session(n)[0] == n && Session(0)[0] == 0;
  }

  /** What n joins leave behind. */
  ghost predicate CrowdOf(w: World, w': World, n: nat)
    requires n < 256
  {
    && Crowded(w, w', Sessions(n), {})
    && (n == 0 ==> w'.receiver.mixer.streams == map[])
    && (n > 0 ==> First(w') && Seen(w'.receiver.mixer.streams))
  }

  /** The first session joins at time 0, the others at time 1. */
  function JoinTime(n: nat): nat { if n == 0 then 0 else 1 }

  lemma CrowdStep(w: World, w': World, n: nat)
    requires Start(w) && n < 8 && CrowdOf(w, w', n)
    ensures Runs(w', Joining(Session(n), JoinTime(n)))
    ensures CrowdOf(w, After(w', Joining(Session(n), JoinTime(n))), n + 1)
  {
    assert Sessions(n) - {} == Sessions(n) && Session(n)[0] == n;
    NextCanJoin(w, w', {}, n);
    JoinRuns(w', Session(n), JoinTime(n));
    var w'' := After(w', Joining(Session(n), JoinTime(n)));
    CrowdGrows(w, w', w'', Sessions(n), {}, Session(n), JoinTime(n));
    FirstStays(w', w'', n, JoinTime(n));
  }

  lemma {:induction false} Crowd(w: World, n: nat) returns (events: seq<Event>)
    requires Start(w) && n <= 8
    ensures Runs(w, events) && CrowdOf(w, After(w, events), n)
  {
    if n == 0 {
      events := [];
    } else {
      var before := Crowd(w, n - 1);
      CrowdStep(w, After(w, before), n - 1);
      RunsOn(w, before, Joining(Session(n - 1), JoinTime(n - 1)));
      events := before + Joining(Session(n - 1), JoinTime(n - 1));
    }
  }

  lemma ExpiryEmpties(r: Receiver, ss: set<Id>)
    requires Occupied(r, ss, {}) && Seen(r.mixer.streams)
    ensures Occupied(r.Expire(1, 1), ss, {Session(0)})
    ensures forall s | s in ss :: r.Expire(1, 1).peers[s].accepted == r.peers[s].accepted
  {
    var r', s := r.Expire(1, 1), Session(0);
    assert ss - {} == ss;
    forall t | t in ss
      ensures t in r'.mixer.streams <==> t != s
    {
      assert t in r.mixer.streams;
    }
    forall t | t in ss
      ensures t in r'.peers && (r'.peers[t].active <==> t != s)
    {
      assert t in Active(r.peers);
    }
    assert r'.mixer.streams.Keys == ss - {s};
    assert Active(r'.peers) == ss - {s};
  }

  /** Expiring after one time unit takes exactly the first session's stream, and makes that session inactive. */
  lemma FirstExpires(w: World, w': World, w'': World, ss: set<Id>)
    requires Crowded(w, w', ss, {}) && First(w') && Seen(w'.receiver.mixer.streams) && Session(0) in ss
    requires w'' == w'.(receiver := w'.receiver.Expire(1, 1))
    ensures Crowded(w, w'', ss, {Session(0)}) && First(w'')
  {
    ExpiryEmpties(w'.receiver, ss);
  }

  /** The next session takes the place that the first has left. */
  lemma NextJoins(w: World, w': World, n: nat)
    requires Start(w) && 0 < n <= 8 && Crowded(w, w', Sessions(n), {Session(0)}) && First(w')
    ensures Runs(w', Joining(Session(n), 1))
    ensures var w'' := After(w', Joining(Session(n), 1));
            Crowded(w, w'', Sessions(n + 1), {Session(0)}) && First(w'')
  {
    var s := Session(n);
    SessionIsIn(0, n);
    assert Sessions(n) == (Sessions(n) - {Session(0)}) + {Session(0)};
    NextCanJoin(w, w', {Session(0)}, n);
    JoinRuns(w', s, 1);
    assert s[0] == n && Session(0)[0] == 0;
    CrowdGrows(w, w', After(w', Joining(s, 1)), Sessions(n), {Session(0)}, s, 1);
  }

  lemma SecondHelloResumes(r: Receiver, s: Id)
    requires r.epoch == HERE && s in r.peers && s !in Active(r.peers) && r.peers[s].accepted == {1}
    ensures Reactivates(r, Carrying(HelloBox(s, 2)))
  {
    HelloDecodes();
    Replay.LargestIs({1}, 1);
  }

  function Returning(s: Id): seq<Event>
  {
    [SendHello(s, []), Arrive(Carrying(HelloBox(s, 2)), 0, 1, ELSEWHERE)]
  }

  lemma SecondArrives(w: World, w': World, s: Id)
    requires Greeted(w, w', s, 2) && w.receiver.epoch == HERE && w.used == {HERE}
    requires s in w.receiver.peers && s !in Active(w.receiver.peers) && w.receiver.peers[s].accepted == {1}
    ensures var arrive := Arrive(Carrying(HelloBox(s, 2)), 0, 1, ELSEWHERE);
            && Enabled(w', arrive)
            && |Active(Next(w', arrive).receiver.peers)| == |Active(w.receiver.peers)| + 1
  {
    assert HelloBox(s, 2) == w'.boxes[|w'.boxes| - 1];
    assert HERE[0] != ELSEWHERE[0];
    SecondHelloResumes(w'.receiver, s);
    HandleActive(w'.receiver, Carrying(HelloBox(s, 2)), 0, 1, ELSEWHERE);
    OneMore(Active(w'.receiver.peers), s);
  }

  /** Then the first session says hello again and resumes. */
  lemma FirstResumes(w: World, s: Id)
    requires s in w.senders && w.senders[s] == SenderModel.Sender(s, Some(HERE), 1, 0, {})
    requires w.receiver.epoch == HERE && w.used == {HERE} && s in w.receiver.peers && s !in Active(w.receiver.peers)
    requires w.receiver.peers[s].accepted == {1}
    ensures Runs(w, Returning(s))
    ensures |Active(After(w, Returning(s)).receiver.peers)| == |Active(w.receiver.peers)| + 1
  {
    var hello, arrive := SendHello(s, []), Arrive(Carrying(HelloBox(s, 2)), 0, 1, ELSEWHERE);
    HelloGreets(w, s, 2);
    OneEvent(w, hello);
    SecondArrives(w, Next(w, hello), s);
    OneMoreEvent(w, [hello], arrive);
    assert [hello] + [arrive] == Returning(s);
  }

  lemma AllButOneActive(r: Receiver, ss: set<Id>, s: Id)
    requires Occupied(r, ss, {s}) && s in ss
    ensures |Active(r.peers)| == |ss| - 1 && s !in Active(r.peers)
  {
    assert ss == (ss - {s}) + {s};
  }

  /** n sessions join, the first expires, another one joins, and the expired one resumes: n + 1 are active. */
  lemma AllBecomeActive(w: World, n: nat) returns (events: seq<Event>)
    requires Start(w) && 0 < n <= 8
    ensures Runs(w, events) && |Active(After(w, events).receiver.peers)| == n + 1
  {
    events := Crowd(w, n);
    var w1 := After(w, events);
    OneMoreEvent(w, events, Event.Expire(1, 1));
    events := events + [Event.Expire(1, 1)];
    var w2 := After(w, events);
    SessionIsIn(0, n);
    FirstExpires(w, w1, w2, Sessions(n));
    NextJoins(w, w2, n);
    RunsOn(w, events, Joining(Session(n), 1));
    events := events + Joining(Session(n), 1);
    SessionIsIn(0, n + 1);
    var w3 := After(w, events);
    AllButOneActive(w3.receiver, Sessions(n + 1), Session(0));
    FirstResumes(w3, Session(0));
    RunsOn(w, events, Returning(Session(0)));
    events := events + Returning(Session(0));
  }

  /** Such a run can start in any world with nine unused senders: eight sessions join, one expires, a ninth joins, and
      the expired one resumes. It ends with nine active peers. */
  lemma NineBecomeActive(w: World) returns (events: seq<Event>)
    requires Start(w)
    ensures Runs(w, events) && |Active(After(w, events).receiver.peers)| == MAX_STREAMS + 1
  {
    events := AllBecomeActive(w, 8);
  }

  function EmptyWorld(ss: set<Id>): World
  {
    World(map s | s in ss :: SenderModel.Sender(s, None, 0, 0, {}), Receiver(HERE, map[], Mixer(4, 240, 4, map[]), 9, 0, 0),
          [], {}, {HERE}, map[], map[], map[], map[], map[], map[])
  }

  lemma EmptyWorldIsInitial(ss: set<Id>)
    ensures var w := EmptyWorld(ss);
            Initial(w) && w.senders.Keys == ss && w.receiver.epoch == HERE && w.receiver.historyCap == 9
  {
  }

  lemma EmptyWorldStarts(n: nat)
    requires 9 <= n < 256
    ensures Start(EmptyWorld(Sessions(n)))
  {
    EmptyWorldIsInitial(Sessions(n));
    forall i: nat | i < 9
      ensures Session(i) in Sessions(n)
    {
      SessionIsIn(i, n);
    }
  }

  /** There is such a world. */
  lemma SomeStart() returns (w: World)
    ensures Start(w)
  {
    var n: nat :| n == 9;
    EmptyWorldStarts(n);
    w := EmptyWorld(Sessions(n));
  }
}
