/** Playout starts afresh after it has run dry: nothing is late, and the queue fills up from the first packet that comes. */
module PlayoutRestart {
  import opened Bytes
  import opened Division
  import JitterBuffer
  import opened Playout
  import opened PlayoutLedger
  import opened PlayoutPriming
  import opened PlayoutPush
  import opened PlayoutRuns

  /** Playout has run dry, or has not begun. */
  predicate Resting(s: State)
  {
    s.starved || !s.started
  }

  lemma StarvationRests(s: State, n: nat)
    requires s.Valid() && s.Starves(n)
    ensures var t := s.Pull(n);
            && Resting(t) && t.starved && t.slots == map[] && t.play.None? && !t.primed && t.Valid()
            && t.bytesPerFrame == s.bytesPerFrame && t.packetFrames == s.packetFrames && t.target == s.target
  {
  }

  /** Nothing is late while playout rests: a well-formed packet is taken unless its number is there already. */
  lemma RestingTakesIff(s: State, seqNo: UInt64, pcm: seq<Byte>)
    requires s.Valid() && Resting(s)
    ensures Takes(s, seqNo, pcm) <==> WellFormed(s, seqNo, pcm) && (seqNo in s.slots ==> Jumps(s, seqNo))
  {
    BaseIs(s, seqNo);
  }

  /** It rests until a pull finds the buffer primed. */
  lemma StepRests(s: State, op: Op)
    requires s.Valid() && Resting(s) && (op.Pull? ==> !s.primed)
    ensures Resting(Step(s, op))
  {
    match op
    case Push(seqNo, pcm) =>
      if Takes(s, seqNo, pcm) {
        PushMeaning(s, seqNo, pcm);
      } else {
        PushRefuses(s, seqNo, pcm);
      }
    case Pull(_) =>
    case Retarget(packets) => RetargetMeaning(s, packets);
  }

  /** No pull of the run finds the buffer primed. */
  ghost predicate NothingPlays(s: State, ops: seq<Op>)
    requires s.Valid()
  {
    ops == [] ||
    (var n := |ops| - 1; NothingPlays(s, ops[..n]) && (ops[n].Pull? ==> !After(s, ops[..n]).primed))
  }

  lemma {:induction false} RunRests(s: State, ops: seq<Op>)
    requires s.Valid() && Resting(s) && NothingPlays(s, ops)
    ensures Resting(After(s, ops))
  {
    if ops != [] {
      var n := |ops| - 1;
      RunRests(s, ops[..n]);
      StepRests(After(s, ops[..n]), ops[n]);
    }
  }

  /** From a starvation until playout goes on, a well-formed packet whose number is not there is taken, whatever numbers came
      before it and in whatever order. */
  lemma NothingIsLateAfterStarvation(s: State, n: nat, ops: seq<Op>, seqNo: UInt64, pcm: seq<Byte>)
    requires s.Valid() && s.Starves(n) && s.Pull(n).Valid() && NothingPlays(s.Pull(n), ops)
    requires var t := After(s.Pull(n), ops); WellFormed(t, seqNo, pcm) && seqNo !in t.slots
    ensures Takes(After(s.Pull(n), ops), seqNo, pcm)
  {
    StarvationRests(s, n);
    RunRests(s.Pull(n), ops);
    RestingTakesIff(After(s.Pull(n), ops), seqNo, pcm);
  }

  /** In particular the second packet, though its number be smaller than the first one's. */
  lemma SecondIsTaken(s: State, n: nat, a: UInt64, x: seq<Byte>, b: UInt64, y: seq<Byte>)
    requires s.Valid() && s.Starves(n) && WellFormed(s, a, x) && WellFormed(s, b, y) && a != b
    ensures Takes(s.Pull(n).Push(a, x).0, b, y)
  {
    StarvationRests(s, n);
    var t := s.Pull(n);
    RestingTakesIff(t, a, x);
    PushMeaning(t, a, x);
    BaseIs(t, a);
    StepRests(t, Op.Push(a, x));
    RestingTakesIff(t.Push(a, x).0, b, y);
  }

  // Filling up.

  /** Just these packets, under consecutive numbers from a on. */
  ghost predicate Holds(slots: Slots, a: nat, packets: seq<seq<Byte>>)
  {
    && (forall k: nat :: k in slots <==> a <= k < a + |packets|)
    && (forall k | k in slots :: slots[k] == packets[k - a])
  }

  /** The buffer holds just these packets, with the cursor at the first; playout has not begun. */
  ghost predicate Refilled(s: State, a: nat, packets: seq<seq<Byte>>)
  {
    && s.Valid() && Resting(s) && s.off == 0 && Holds(s.slots, a, packets)
    && (packets == [] ==> s.play.None? && !s.primed)
    && (packets != [] ==> !s.starved && s.play == Some(a) && (s.primed <==> |packets| >= s.target))
  }

  lemma HoldsOneMore(slots: Slots, a: nat, packets: seq<seq<Byte>>, x: nat, pcm: seq<Byte>)
    requires Holds(slots, a, packets) && x == a + |packets|
    ensures x !in slots && Holds(slots[x := pcm], a, packets + [pcm]) && |slots[x := pcm]| <= |packets| + 1
  {
    IntervalSize(slots[x := pcm].Keys, a, x + 1);
  }

  lemma EndsOfHeld(slots: Slots, a: nat, packets: seq<seq<Byte>>)
    requires Holds(slots, a, packets) && packets != []
    ensures slots != map[] && FirstKey(slots.Keys) == a && LastKey(slots.Keys) == a + |packets| - 1 && KeepFrom(slots, a) == slots
  {
    assert a in slots && a + |packets| - 1 in slots;
  }

  lemma OneMoreEnds(slots: Slots, a: nat, packets: seq<seq<Byte>>, x: nat, pcm: seq<Byte>)
    requires Holds(slots, a, packets) && x == a + |packets|
    ensures var all := slots[x := pcm];
            x in all && FirstKey(all.Keys) == a && LastKey(all.Keys) == x && KeepFrom(all, a) == all
  {
    HoldsOneMore(slots, a, packets, x, pcm);
    EndsOfHeld(slots[x := pcm], a, packets + [pcm]);
  }

  lemma NextIsWithNew(s: State, a: nat, packets: seq<seq<Byte>>, x: UInt64, pcm: seq<Byte>)
    requires Refilled(s, a, packets) && |packets| < s.target && a >= 1 && x == a + |packets| && WellFormed(s, x, pcm)
    ensures Takes(s, x, pcm) && Base(s, x) == s.slots
    ensures WithNew(s, x, pcm) == s.slots[x := pcm] == Kept(WithNew(s, x, pcm)) && CursorFor(s, x, pcm) == (a, 0)
  {
    HoldsOneMore(s.slots, a, packets, x, pcm);
    OneMoreEnds(s.slots, a, packets, x, pcm);
    RestingTakesIff(s, x, pcm);
    BaseIs(s, x);
  }

  lemma RefillPlaces(s: State, a: nat, packets: seq<seq<Byte>>, x: UInt64, pcm: seq<Byte>)
    requires Refilled(s, a, packets) && |packets| < s.target && a >= 1 && x == a + |packets| && WellFormed(s, x, pcm)
    ensures var t := s.Push(x, pcm).0;
            && t.Valid() && t.play == Some(a) && t.off == 0 && t.slots == s.slots[x := pcm] && t.target == s.target && !t.starved
            && t.packetFrames == s.packetFrames && t.bytesPerFrame == s.bytesPerFrame
  {
    NextIsWithNew(s, a, packets, x, pcm);
    OneMoreEnds(s.slots, a, packets, x, pcm);
    PushMeaning(s, x, pcm);
    PushCursor(s, x, pcm);
  }

  lemma ManyPackets(s: State, n: nat)
    requires s.packetFrames >= 1
    ensures n * s.packetFrames >= s.target * s.packetFrames <==> n >= s.target
  {
    if n >= s.target {
      MulMonotone(s.target, n, s.packetFrames);
    } else {
      MulMonotone(n + 1, s.target, s.packetFrames);
      MulMonotone(n, n, s.packetFrames);
    }
  }

  lemma WholeQueue(s: State, n: nat)
    requires n <= REACH && Fits(s)
    ensures WrapMul(n, s.packetFrames) == n * s.packetFrames
  {
    MulMonotone(n, REACH, s.packetFrames);
    SmallMod(n * s.packetFrames);
  }

  lemma RefillPrimesIff(s: State, a: nat, packets: seq<seq<Byte>>, x: UInt64, pcm: seq<Byte>)
    requires Refilled(s, a, packets) && |packets| < s.target && a >= 1 && x == a + |packets| && WellFormed(s, x, pcm)
    requires Fits(s)
    ensures s.Push(x, pcm).0.primed <==> |packets| + 1 >= s.target
  {
    NextIsWithNew(s, a, packets, x, pcm);
    OneMoreEnds(s.slots, a, packets, x, pcm);
    TargetOf(s);
    ManyPackets(s, |packets| + 1);
    PushPrimesIff(s, x, pcm);
    WholeQueue(s, |packets| + 1);
  }

  /** From s, the buffer has been given just these packets. */
  ghost predicate RefilledFrom(s: State, t: State, a: nat, packets: seq<seq<Byte>>)
  {
    && Refilled(t, a, packets)
    && t.target == s.target && t.packetFrames == s.packetFrames && t.bytesPerFrame == s.bytesPerFrame
  }

  /** One more consecutive packet. */
  lemma RefillOne(s: State, a: nat, packets: seq<seq<Byte>>, x: UInt64, pcm: seq<Byte>)
    requires Refilled(s, a, packets) && |packets| < s.target && a >= 1 && x == a + |packets| && WellFormed(s, x, pcm)
    requires Fits(s)
    ensures RefilledFrom(s, s.Push(x, pcm).0, a, packets + [pcm])
  {
    RefillPlaces(s, a, packets, x, pcm);
    RefillPrimesIff(s, a, packets, x, pcm);
    HoldsOneMore(s.slots, a, packets, x, pcm);
    StepRests(s, Op.Push(x, pcm));
  }

  lemma RefillStarts(s: State, a: nat)
    requires s.Valid() && Resting(s) && s.slots == map[] && s.play.None?
    ensures RefilledFrom(s, s, a, [])
  {
  }

  lemma RefilledOn(s: State, t: State, u: State, a: nat, before: seq<seq<Byte>>, packets: seq<seq<Byte>>)
    requires RefilledFrom(s, t, a, before) && RefilledFrom(t, u, a, packets)
    ensures RefilledFrom(s, u, a, packets)
  {
  }

  lemma RefillNext(s: State, t: State, u: State, a: nat, before: seq<seq<Byte>>, packets: seq<seq<Byte>>, op: Op)
    requires Fits(s) && a >= 1 && |before| < s.target && RefilledFrom(s, t, a, before)
    requires op.Push? && op.seqNo == a + |before| && |op.pcm| == s.bytesPerFrame * s.packetFrames
    requires u == Step(t, op) && packets == before + [op.pcm]
    ensures RefilledFrom(s, u, a, packets)
  {
    RefillOne(t, a, before, op.seqNo, op.pcm);
    RefilledOn(s, t, u, a, before, packets);
  }

  /** The operations push the packets, under consecutive numbers from a on. */
  ghost predicate PushesAll(ops: seq<Op>, a: nat, packets: seq<seq<Byte>>, size: nat)
  {
    && |ops| == |packets|
    && forall i | 0 <= i < |ops| ::
         ops[i].Push? && ops[i].seqNo == a + i && ops[i].pcm == packets[i] && |packets[i]| == size
  }

  lemma FewerPushes(ops: seq<Op>, a: nat, packets: seq<seq<Byte>>, size: nat)
    requires PushesAll(ops, a, packets, size) && ops != []
    ensures var n := |ops| - 1;
            && PushesAll(ops[..n], a, packets[..n], size) && packets == packets[..n] + [packets[n]]
            && ops[n].Push? && ops[n].seqNo == a + n && ops[n].pcm == packets[n] && |packets[n]| == size
  {
  }

  /** An empty buffer at rest that is given up to `target` consecutive packets holds just these, plays from the first one, and
      is primed exactly once it has been given all. */
  lemma {:induction false} EmptyBufferRefills(s: State, a: nat, packets: seq<seq<Byte>>, ops: seq<Op>)
    requires s.Valid() && Resting(s) && s.slots == map[] && s.play.None? && Fits(s)
    requires a >= 1 && |packets| <= s.target && PushesAll(ops, a, packets, s.bytesPerFrame * s.packetFrames)
    ensures RefilledFrom(s, After(s, ops), a, packets)
  {
    if ops == [] {
      RefillStarts(s, a);
    } else {
      var n := |ops| - 1;
      FewerPushes(ops, a, packets, s.bytesPerFrame * s.packetFrames);
      EmptyBufferRefills(s, a, packets[..n], ops[..n]);
      RefillNext(s, After(s, ops[..n]), After(s, ops), a, packets[..n], packets, ops[n]);
    }
  }

  lemma SlotSize(s: State, k: nat)
    requires s.Valid() && k in s.slots
    ensures s.packetFrames > 0 && |s.slots[k]| == s.packetFrames * s.bytesPerFrame
    ensures |s.slots[k]| == s.bytesPerFrame * s.packetFrames
  {
    assert s.bytesPerFrame * s.packetFrames == s.packetFrames * s.bytesPerFrame;
  }

  lemma WholePacketIsHeard(s: State, k: nat, n: nat, bytes: nat, q: nat)
    requires s.packetFrames > 0 && k in s.slots && |s.slots[k]| == s.bytesPerFrame * s.packetFrames == bytes
    requires n == s.packetFrames && bytes == n * s.bytesPerFrame && q == k * n
    ensures s.Timeline(q, n) == s.slots[k]
  {
    JitterBuffer.StretchSource(s, k, 0, n, bytes, 0, bytes);
    assert s.slots[k][0..bytes] == s.slots[k];
  }

  /** A buffered packet is heard as it came. */
  lemma PacketIsHeard(s: State, k: nat, q: nat)
    requires s.Valid() && k in s.slots && q == k * s.packetFrames
    ensures s.Timeline(q, s.packetFrames) == s.slots[k]
  {
    SlotSize(s, k);
    WholePacketIsHeard(s, k, s.packetFrames, |s.slots[k]|, q);
  }

  lemma PacketStarts(s: State, k: nat)
    requires s.play.Some? && s.play.value == k && s.off == 0
    ensures s.Position() == k * s.packetFrames
  {
  }

  lemma OnePacketIsThere(s: State, a: nat)
    requires s.play.Some? && s.Position() == a * s.packetFrames && a < s.EndPacket() && s.slots != map[]
    ensures !s.Starves(s.packetFrames)
  {
    MulMonotone(a + 1, s.EndPacket(), s.packetFrames);
    MulMonotone(a, a, s.packetFrames);
  }

  /** Audio resumes: once the target is met, the first pull of a packet's length gives the first packet that came. */
  lemma FirstPacketSounds(s: State, a: nat, packets: seq<seq<Byte>>)
    requires Refilled(s, a, packets) && |packets| >= s.target
    ensures s.Sound(s.packetFrames) == packets[0] && !s.Starves(s.packetFrames)
  {
    EndsOfHeld(s.slots, a, packets);
    PacketIsHeard(s, a, a * s.packetFrames);
    PacketStarts(s, a);
    OnePacketIsThere(s, a);
  }
}
