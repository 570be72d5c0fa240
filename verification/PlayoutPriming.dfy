/** Re-priming: an unprimed buffer that is fed consecutive packets always starts to play. */
module PlayoutPriming {
  import opened Bytes
  import opened Division
  import opened Playout
  import opened PlayoutRuns

  lemma {:induction false} IntervalSize(s: set<nat>, lo: nat, hi: nat)
    requires forall k | k in s :: lo <= k < hi
    ensures |s| <= MinusSat(hi, lo)
    decreases hi
  {
    if lo < hi {
      var rest := s - {hi - 1};
      IntervalSize(rest, lo, hi - 1);
      if hi - 1 in s {
        assert s == rest + {hi - 1};
      } else {
        assert s == rest;
      }
    } else {
      assert s == {};
    }
  }

  /** The most packets that ever lie between the cursor and a new packet that does not clear the buffer. */
  const REACH := 2 * MAX_SLOTS + 2

  /** No overflow: the reach, in frames, fits the machine word. */
  predicate Fits(s: State) { s.packetFrames * REACH < U64_SPAN }

  lemma SmallMod(x: nat)
    requires x < U64_SPAN
    ensures x % U64_SPAN == x
  {
  }

  lemma QueueOf(s: State, x: nat)
    requires s.play.Some? && s.slots != map[] && Fits(s) && x <= REACH && s.packetFrames > 0
    requires s.play.value <= LastKey(s.slots.Keys) && x == LastKey(s.slots.Keys) - s.play.value + 1
    ensures s.QueuedFrames() == MinusSat(x * s.packetFrames, s.off)
  {
    MulMonotone(x, REACH, s.packetFrames);
    SmallMod(x * s.packetFrames);
  }

  lemma TargetOf(s: State)
    requires Fits(s) && s.target <= MAX_SLOTS && s.packetFrames > 0
    ensures WrapMul(s.target, s.packetFrames) == s.target * s.packetFrames
  {
    MulMonotone(s.target, REACH, s.packetFrames);
    SmallMod(s.target * s.packetFrames);
  }

  /** More than target packets from the cursor on always prime the buffer; so do target packets, at a packet's start. */
  lemma EnoughPrimes(s: State, x: nat)
    requires s.play.Some? && s.slots != map[] && Fits(s) && x <= REACH && s.off < s.packetFrames
    requires s.play.value <= LastKey(s.slots.Keys) && x == LastKey(s.slots.Keys) - s.play.value + 1
    requires 1 <= s.target <= MAX_SLOTS && (x > s.target || (x == s.target && s.off == 0))
    ensures s.QueuedFrames() >= WrapMul(s.target, s.packetFrames)
  {
    QueueOf(s, x);
    TargetOf(s);
    if x > s.target {
      MulMonotone(s.target + 1, x, s.packetFrames);
      MulMonotone(s.target, s.target, s.packetFrames);
    }
  }

  /** The latency is bounded: after every operation at most target + 3 packets are queued. */
  lemma QueueIsBounded(s: State)
    requires s.Valid() && Fits(s)
    ensures s.QueuedFrames() <= (s.target + 3) * s.packetFrames
  {
    if s.slots != map[] {
      var x := LastKey(s.slots.Keys) - s.play.value + 1;
      QueueOf(s, x);
      MulMonotone(x, s.target + 3, s.packetFrames);
    }
  }

  /** The buffer holds consecutive packets n0 .. last, maybe with older ones, and is still short of its target. */
  ghost predicate Filling(s: State, n0: nat, last: nat)
  {
    && s.Valid() && !s.primed && !s.starved
    && n0 in s.slots && LastKey(s.slots.Keys) == last
    && s.play.Some? && s.play.value <= n0 <= last
    && s.QueuedFrames() < WrapMul(s.target, s.packetFrames)
  }

  lemma FillingIsShort(s: State, n0: nat, last: nat)
    requires Filling(s, n0, last) && Fits(s)
    ensures last - n0 < s.target
  {
    if last - n0 >= s.target {
      EnoughPrimes(s, last - s.play.value + 1);
    }
  }

  /** The state just after packet `last` was put in, on top of what lies within reach. */
  ghost predicate Fed(c: State, n0: nat, last: nat)
  {
    && Overfull(c) && !c.primed && Fits(c)
    && n0 in c.slots && LastKey(c.slots.Keys) == last
    && (c.play.None? ==> c.slots.Keys == {n0})
    && (c.play.Some? ==> c.play.value <= n0 && last - c.play.value < REACH)
    && (c.play.Some? ==> forall k | k in c.slots :: c.play.value <= k)
  }

  lemma EvictsTheFirst(c: State, rest: Slots)
    requires |c.slots| == MAX_SLOTS + 1 && c.play.Some? && forall k | k in c.slots :: c.play.value <= k
    requires rest == c.slots - {FirstKey(c.slots.Keys)}
    ensures |rest| == MAX_SLOTS
    ensures c.Evicted() == c.(slots := rest, discarded := c.discarded + 1, play := Some(FirstKey(rest.Keys)), off := 0)
  {
    assert c.slots.Keys == rest.Keys + {FirstKey(c.slots.Keys)};
  }

  lemma FullQueuePrimes(d: State, last: nat)
    requires d.slots != map[] && d.play.Some? && LastKey(d.slots.Keys) == last && d.play.value <= last
    requires |d.slots| == MAX_SLOTS && last - d.play.value < REACH && d.off == 0 && Fits(d) && d.packetFrames > 0
    requires 1 <= d.target <= MAX_SLOTS && forall k | k in d.slots :: d.play.value <= k
    ensures d.QueuedFrames() >= WrapMul(d.target, d.packetFrames)
  {
    assert |d.slots.Keys| == MAX_SLOTS;
    IntervalSize(d.slots.Keys, d.play.value, last + 1);
    EnoughPrimes(d, last - d.play.value + 1);
  }

  lemma LastKeyIs(s: set<nat>, m: nat)
    requires m in s && forall k | k in s :: k <= m
    ensures LastKey(s) == m
  {
  }

  lemma EvictionPrimes(c: State, n0: nat, last: nat)
    requires Fed(c, n0, last) && |c.slots| > MAX_SLOTS
    ensures c.Evicted().Placed().Primed().primed
  {
    var first := FirstKey(c.slots.Keys);
    var rest := c.slots - {first};
    assert |c.slots.Keys| == |c.slots| == MAX_SLOTS + 1;
    assert c.play.None? ==> |c.slots.Keys| == 1;
    EvictsTheFirst(c, rest);
    IntervalSize(c.slots.Keys, first, last + 1);
    assert last in rest.Keys;
    LastKeyIs(rest.Keys, last);
    var d := c.Evicted().Placed();
    assert d == c.Evicted();
    FullQueuePrimes(d, last);
  }

  lemma FedFills(c: State, n0: nat, last: nat)
    requires Fed(c, n0, last) && |c.slots| <= MAX_SLOTS
    ensures var t := c.Evicted().Placed().Primed().Trimmed();
            t.primed || Filling(t, n0, last)
  {
    var d := c.Evicted().Placed();
    EvictAndPlace(c);
    assert d.slots == c.slots && d.play.value <= n0;
    if last - d.play.value > d.target + 2 {
      EnoughPrimes(d, last - d.play.value + 1);
    }
    TrimKeepsValid(d.Primed());
  }

  lemma FeedOne(c: State, n0: nat, last: nat)
    requires Fed(c, n0, last)
    ensures var t := c.Evicted().Placed().Primed().Trimmed();
            t.primed || Filling(t, n0, last)
  {
    if |c.slots| > MAX_SLOTS {
      EvictionPrimes(c, n0, last);
    } else {
      FedFills(c, n0, last);
    }
  }

  lemma FirstIsFed(b: State, n0: UInt64, pcm: seq<Byte>)
    requires b.Valid() && !b.primed && !b.starved && Fits(b) && n0 >= 1
    requires |pcm| == b.bytesPerFrame * b.packetFrames
    requires forall k | k in b.slots :: k < n0
    requires b.play.Some? ==> b.play.value <= n0 <= b.play.value + 2 * MAX_SLOTS
    ensures Fed(b.Inserted(n0, pcm), n0, n0)
  {
    InsertedIsOverfull(b, n0, pcm);
    var c := b.Inserted(n0, pcm);
    assert c.slots.Keys == b.slots.Keys + {n0};
    LastKeyIs(c.slots.Keys, n0);
  }

  /** The first of the consecutive packets. */
  lemma FirstFeed(s: State, n0: UInt64, pcm: seq<Byte>)
    requires s.Valid() && !s.primed && Fits(s) && n0 >= 1 && |pcm| == s.bytesPerFrame * s.packetFrames
    requires (forall k | k in s.slots :: k < n0) && (s.play.Some? ==> s.play.value <= n0)
    ensures var t := s.Push(n0, pcm).0;
            t.primed || Filling(t, n0, n0)
  {
    BaseState(s, n0);
    PushIs(s, n0, pcm);
    FirstIsFed(s.Restarted().Jumped(n0), n0, pcm);
    FeedOne(s.Restarted().Jumped(n0).Inserted(n0, pcm), n0, n0);
  }

  lemma NextIsFed(s: State, n0: nat, seqNo: UInt64, pcm: seq<Byte>)
    requires seqNo >= 1 && Filling(s, n0, seqNo - 1) && Fits(s) && |pcm| == s.bytesPerFrame * s.packetFrames
    ensures Fed(s.Inserted(seqNo, pcm), n0, seqNo)
  {
    InsertedIsOverfull(s, seqNo, pcm);
    var c := s.Inserted(seqNo, pcm);
    assert c.slots.Keys == s.slots.Keys + {seqNo};
    LastKeyIs(c.slots.Keys, seqNo);
  }

  lemma NextIsTaken(s: State, n0: nat, seqNo: UInt64, pcm: seq<Byte>)
    requires seqNo >= 1 && Filling(s, n0, seqNo - 1) && |pcm| == s.bytesPerFrame * s.packetFrames
    ensures s.Restarted().Jumped(seqNo) == s && Takes(s, seqNo, pcm)
  {
  }

  /** Each later one. */
  lemma NextFeed(s: State, n0: nat, seqNo: UInt64, pcm: seq<Byte>)
    requires seqNo >= 1 && Filling(s, n0, seqNo - 1) && Fits(s) && |pcm| == s.bytesPerFrame * s.packetFrames
    ensures var t := s.Push(seqNo, pcm).0;
            t.primed || Filling(t, n0, seqNo)
  {
    NextIsTaken(s, n0, seqNo, pcm);
    PushIs(s, seqNo, pcm);
    NextIsFed(s, n0, seqNo, pcm);
    FeedOne(s.Inserted(seqNo, pcm), n0, seqNo);
  }

  function PushCount(ops: seq<Op>): nat
  {
    if ops == [] then 0 else PushCount(ops[..|ops| - 1]) + (if ops[|ops| - 1].Push? then 1 else 0)
  }

  /** Pushes of n0, n0 + 1, ... in order, with any pulls in between. */
  predicate Feeding(packetBytes: nat, n0: nat, ops: seq<Op>)
  {
    ops == [] ||
    (var n := |ops| - 1;
     && Feeding(packetBytes, n0, ops[..n])
     && match ops[n] {
          case Push(seqNo, pcm) => seqNo == n0 + PushCount(ops[..n]) && |pcm| == packetBytes
          case Pull(_) => true
          case Retarget(_) => false
        })
  }

  /** At some moment of the run the buffer was primed. */
  ghost predicate EverPrimed(s: State, ops: seq<Op>)
    requires s.Valid()
  {
    After(s, ops).primed || (ops != [] && EverPrimed(s, ops[..|ops| - 1]))
  }

  predicate Keeps(s: State, t: State)
  {
    t.bytesPerFrame == s.bytesPerFrame && t.packetFrames == s.packetFrames && t.target == s.target
  }

  lemma PushKeepsFormat(s: State, seqNo: UInt64, pcm: seq<Byte>)
    requires s.Valid()
    ensures Keeps(s, s.Push(seqNo, pcm).0)
  {
    if Takes(s, seqNo, pcm) {
      BaseState(s, seqNo);
      var b := s.Restarted().Jumped(seqNo);
      InsertedIsOverfull(b, seqNo, pcm);
      InsertedMeaning(b.Inserted(seqNo, pcm));
      PushIs(s, seqNo, pcm);
    } else {
      PushRefuses(s, seqNo, pcm);
    }
  }

  /** After `count` packets and still unprimed, the buffer is filling up. */
  ghost predicate Progress(s: State, t: State, n0: nat, count: nat)
  {
    Keeps(s, t) && if count == 0 then t == s else Filling(t, n0, n0 + count - 1)
  }

  lemma FeedingPush(s: State, t: State, n0: nat, count: nat, seqNo: UInt64, pcm: seq<Byte>)
    requires s.Valid() && !s.primed && Fits(s) && 1 <= n0
    requires (forall k | k in s.slots :: k < n0) && (s.play.Some? ==> s.play.value <= n0)
    requires Progress(s, t, n0, count) && seqNo == n0 + count && |pcm| == s.bytesPerFrame * s.packetFrames
    ensures t.Push(seqNo, pcm).0.primed || Progress(s, t.Push(seqNo, pcm).0, n0, count + 1)
  {
    PushKeepsFormat(t, seqNo, pcm);
    if count == 0 {
      FirstFeed(t, seqNo, pcm);
    } else {
      NextFeed(t, n0, seqNo, pcm);
    }
  }

  lemma FeedingStep(s: State, t: State, n0: nat, count: nat, op: Op, u: State)
    requires s.Valid() && !s.primed && Fits(s) && 1 <= n0
    requires (forall k | k in s.slots :: k < n0) && (s.play.Some? ==> s.play.value <= n0)
    requires Progress(s, t, n0, count) && t.packetFrames > 0 && u == Step(t, op)
    requires op.Push? || op.Pull?
    requires op.Push? ==> op.seqNo == n0 + count && |op.pcm| == s.bytesPerFrame * s.packetFrames
    ensures u.primed || Progress(s, u, n0, if op.Push? then count + 1 else count)
  {
    if op.Push? {
      FeedingPush(s, t, n0, count, op.seqNo, op.pcm);
    } else {
      assert t.primed || u == t;
    }
  }

  lemma {:induction false} FeedingFills(s: State, n0: nat, ops: seq<Op>)
    requires s.Valid() && !s.primed && Fits(s) && 1 <= n0
    requires (forall k | k in s.slots :: k < n0) && (s.play.Some? ==> s.play.value <= n0)
    requires Feeding(s.bytesPerFrame * s.packetFrames, n0, ops)
    ensures EverPrimed(s, ops) || Progress(s, After(s, ops), n0, PushCount(ops))
  {
    if ops != [] {
      var n := |ops| - 1;
      FeedingFills(s, n0, ops[..n]);
      if !EverPrimed(s, ops[..n]) {
        FeedingStep(s, After(s, ops[..n]), n0, PushCount(ops[..n]), ops[n], After(s, ops));
      }
    }
  }

  /** Re-priming never gets stuck: target + 1 consecutive new packets prime any unprimed buffer, whatever is pulled. */
  lemma FeedingPrimes(s: State, n0: nat, ops: seq<Op>)
    requires s.Valid() && !s.primed && Fits(s) && 1 <= n0
    requires (forall k | k in s.slots :: k < n0) && (s.play.Some? ==> s.play.value <= n0)
    requires Feeding(s.bytesPerFrame * s.packetFrames, n0, ops) && PushCount(ops) > s.target
    ensures EverPrimed(s, ops)
  {
    FeedingFills(s, n0, ops);
    if !EverPrimed(s, ops) {
      FillingIsShort(After(s, ops), n0, n0 + PushCount(ops) - 1);
    }
  }
}
