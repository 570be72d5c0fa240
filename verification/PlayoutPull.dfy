/** Pulling: how the timeline is cut up does not matter. */
module PlayoutPull {
  import opened Bytes
  import opened Division
  import opened Playout

  lemma {:induction false} AbsentSplit(slots: Slots, a: nat, b: nat, c: nat)
    requires a <= b <= c
    ensures AbsentPackets(slots, a, c) == AbsentPackets(slots, a, b) + AbsentPackets(slots, b, c)
    decreases c
  {
    if b < c {
      AbsentSplit(slots, a, b, c - 1);
    }
  }

  lemma {:induction false} AbsentOfKept(slots: Slots, lo: nat, a: nat, b: nat)
    requires lo <= a
    ensures AbsentPackets(KeepFrom(slots, lo), a, b) == AbsentPackets(slots, a, b)
    decreases b
  {
    if a < b {
      AbsentOfKept(slots, lo, a, b - 1);
    }
  }

  lemma {:induction false} ConcealedSplit(slots: Slots, pf: nat, from: nat, a: nat, b: nat)
    requires pf > 0
    ensures ConcealedFrames(slots, pf, from, a + b)
         == ConcealedFrames(slots, pf, from, a) + ConcealedFrames(slots, pf, from + a, b)
  {
    if b > 0 {
      ConcealedSplit(slots, pf, from, a, b - 1);
      assert from + (a + b) - 1 == (from + a) + b - 1;
    }
  }

  lemma KeptKey(slots: Slots, lo: nat, k: nat)
    requires lo <= k
    ensures k in KeepFrom(slots, lo) <==> k in slots
  {
  }

  lemma {:induction false} ConcealedOfKept(slots: Slots, pf: nat, lo: nat, from: nat, n: nat)
    requires pf > 0 && lo <= from / pf
    ensures ConcealedFrames(KeepFrom(slots, lo), pf, from, n) == ConcealedFrames(slots, pf, from, n)
  {
    if n > 0 {
      ConcealedOfKept(slots, pf, lo, from, n - 1);
      DivMonotone(from, from + n - 1, pf);
      KeptKey(slots, lo, (from + n - 1) / pf);
    }
  }

  lemma {:induction false} ConcealedOfNothing(pf: nat, from: nat, n: nat)
    requires pf > 0
    ensures ConcealedFrames(map[], pf, from, n) == n
  {
    if n > 0 {
      ConcealedOfNothing(pf, from, n - 1);
    }
  }

  lemma {:induction false} TimelineSplit(s: State, q: nat, a: nat, b: nat)
    requires s.packetFrames > 0
    ensures s.Timeline(q, a + b) == s.Timeline(q, a) + s.Timeline(q + a, b)
  {
    if b > 0 {
      TimelineSplit(s, q, a, b - 1);
      assert q + (a + b) - 1 == (q + a) + b - 1;
    }
  }

  lemma FrameOfKept(s: State, t: State, lo: nat, q: nat)
    requires s.packetFrames > 0 && lo <= q / s.packetFrames
    requires t.packetFrames == s.packetFrames && t.bytesPerFrame == s.bytesPerFrame
    requires t.slots == KeepFrom(s.slots, lo)
    ensures t.Frame(q) == s.Frame(q)
  {
  }

  /** Frames at or past a cut do not notice what was cut. */
  lemma LaterFrameOfKept(s: State, t: State, lo: nat, q: nat, i: nat)
    requires s.packetFrames > 0 && lo <= q / s.packetFrames
    requires t.packetFrames == s.packetFrames && t.bytesPerFrame == s.bytesPerFrame
    requires t.slots == KeepFrom(s.slots, lo)
    ensures t.Frame(q + i) == s.Frame(q + i)
  {
    DivMonotone(q, q + i, s.packetFrames);
    FrameOfKept(s, t, lo, q + i);
  }

  lemma {:induction false} TimelineOfKept(s: State, t: State, lo: nat, q: nat, n: nat)
    requires s.packetFrames > 0 && lo <= q / s.packetFrames
    requires t.packetFrames == s.packetFrames && t.bytesPerFrame == s.bytesPerFrame
    requires t.slots == KeepFrom(s.slots, lo)
    ensures t.Timeline(q, n) == s.Timeline(q, n)
  {
    if n > 0 {
      TimelineOfKept(s, t, lo, q, n - 1);
      LaterFrameOfKept(s, t, lo, q, n - 1);
    }
  }

  lemma {:induction false} EmptyTimelineIsSilent(s: State, q: nat, n: nat)
    requires s.packetFrames > 0 && forall k | k in s.slots :: k < q / s.packetFrames
    ensures s.Timeline(q, n) == Silence(n * s.bytesPerFrame)
  {
    if n > 0 {
      EmptyTimelineIsSilent(s, q, n - 1);
      DivMonotone(q, q + n - 1, s.packetFrames);
      assert (n - 1) * s.bytesPerFrame + s.bytesPerFrame == n * s.bytesPerFrame;
    }
  }

  /** After a pull that did not run dry, the cursor stands n frames on, or, past the last number, at an empty buffer. */
  lemma PlayedPosition(s: State, n: nat, q: nat)
    requires s.Valid() && s.primed && !s.Starves(n) && q == s.Position() + n
    ensures s.Pull(n).play == Some(Min(U64_MAX, q / s.packetFrames))
    ensures s.Pull(n).off == q % s.packetFrames
    ensures s.Pull(n).slots == KeepFrom(s.slots, q / s.packetFrames)
    ensures q / s.packetFrames <= U64_MAX ==> s.Pull(n).Position() == q
    ensures q / s.packetFrames > U64_MAX ==> s.Pull(n).slots == map[]
  {
    var t := s.Pull(n);
    Recompose(q, s.packetFrames);
    if q / s.packetFrames <= U64_MAX {
      assert t.play.value == q / s.packetFrames;
      assert t.Position() == q / s.packetFrames * s.packetFrames + q % s.packetFrames;
    }
  }

  lemma PullOfNothing(t: State)
    requires t.Valid()
    ensures t.Pull(0) == t.(started := t.started || t.primed)
  {
    if t.primed {
      CursorOfPosition(t);
      PlayedPosition(t, 0, t.Position());
      assert KeepFrom(t.slots, t.play.value) == t.slots;
    }
  }

  /** Past the last packet every frame is concealed. */
  lemma {:induction false} ConcealedPastTheEnd(slots: Slots, pf: nat, from: nat, n: nat)
    requires pf > 0 && forall k | k in slots :: k < from / pf
    ensures ConcealedFrames(slots, pf, from, n) == n
  {
    if n > 0 {
      ConcealedPastTheEnd(slots, pf, from, n - 1);
      DivMonotone(from, from + n - 1, pf);
    }
  }

  lemma EndIsPastAllPackets(s: State, q: nat)
    requires s.Valid() && s.play.Some? && q >= s.EndPacket() * s.packetFrames
    ensures q / s.packetFrames >= s.EndPacket()
    ensures forall k | k in s.slots :: k < q / s.packetFrames
  {
    DivMod(s.EndPacket(), 0, s.packetFrames);
    DivMonotone(s.EndPacket() * s.packetFrames, q, s.packetFrames);
  }

  lemma BeforeTheEnd(s: State, q: nat)
    requires s.Valid() && s.play.Some? && q <= s.EndPacket() * s.packetFrames
    ensures q / s.packetFrames <= s.EndPacket()
  {
    DivMod(s.EndPacket(), 0, s.packetFrames);
    DivMonotone(q, s.EndPacket() * s.packetFrames, s.packetFrames);
  }

  /** The end of the queue lies past the cursor. */
  lemma EndIsAhead(s: State)
    requires s.Valid() && s.play.Some?
    ensures s.slots != map[] ==> s.Position() < s.EndPacket() * s.packetFrames
    ensures s.slots == map[] ==> s.EndPacket() * s.packetFrames <= s.Position()
  {
    if s.slots != map[] {
      MulMonotone(s.play.value + 1, s.EndPacket(), s.packetFrames);
      MulMonotone(s.play.value, s.play.value, s.packetFrames);
    }
  }

  lemma SilentFrom(s: State, p: nat, a: nat, b: nat)
    requires s.packetFrames > 0 && forall k | k in s.slots :: k < (p + a) / s.packetFrames
    ensures s.Timeline(p, a + b) == s.Timeline(p, a) + Silence(b * s.bytesPerFrame)
  {
    TimelineSplit(s, p, a, b);
    EmptyTimelineIsSilent(s, p + a, b);
  }

  lemma ConcealedFrom(slots: Slots, pf: nat, p: nat, a: nat, b: nat)
    requires pf > 0 && forall k | k in slots :: k < (p + a) / pf
    ensures ConcealedFrames(slots, pf, p, a + b) == ConcealedFrames(slots, pf, p, a) + b
  {
    ConcealedSplit(slots, pf, p, a, b);
    ConcealedPastTheEnd(slots, pf, p + a, b);
  }

  /** Everything after the end of the queue is concealed silence. */
  lemma AfterTheEnd(s: State, a: nat, b: nat)
    requires s.Valid() && s.primed && s.Position() + a >= s.EndPacket() * s.packetFrames
    ensures ConcealedFrames(s.slots, s.packetFrames, s.Position(), a + b)
         == ConcealedFrames(s.slots, s.packetFrames, s.Position(), a) + b
    ensures s.Timeline(s.Position(), a + b) == s.Timeline(s.Position(), a) + Silence(b * s.bytesPerFrame)
  {
    EndIsPastAllPackets(s, s.Position() + a);
    SilentFrom(s, s.Position(), a, b);
    ConcealedFrom(s.slots, s.packetFrames, s.Position(), a, b);
  }

  /** If the first part runs dry, the second only adds the underruns that it did not see. */
  lemma ChunkAfterStarvation(s: State, a: nat, b: nat)
    requires s.Valid() && s.Starves(a)
    ensures s.Pull(a).Pull(b).(underruns := s.Pull(a + b).underruns) == s.Pull(a + b)
    ensures s.Pull(a + b).underruns == s.Pull(a).Pull(b).underruns + b
    ensures s.Sound(a) + s.Pull(a).Sound(b) == s.Sound(a + b)
  {
    EndIsAhead(s);
    AfterTheEnd(s, a, b);
  }

  /** The first part stops with packets left: the second continues on the same timeline. */
  lemma ChunkInTheMiddle(s: State, a: nat, b: nat, q: nat)
    requires s.Valid() && s.primed && !s.Starves(a) && q == s.Position() + a
    requires s.Pull(a).slots != map[]
    ensures s.Pull(a).Position() == q && s.Pull(a).EndPacket() == s.EndPacket()
    ensures s.Pull(a).Starves(b) == (b > 0 && q + b > s.EndPacket() * s.packetFrames)
    ensures s.Pull(a).Sound(b) == s.Timeline(q, b)
    ensures ConcealedFrames(s.Pull(a).slots, s.packetFrames, q, b) == ConcealedFrames(s.slots, s.packetFrames, q, b)
  {
    var t := s.Pull(a);
    PlayedPosition(s, a, q);
    assert LastKey(t.slots.Keys) == LastKey(s.slots.Keys) by {
      assert LastKey(s.slots.Keys) in t.slots;
    }
    TimelineOfKept(s, t, q / s.packetFrames, q, b);
    ConcealedOfKept(s.slots, s.packetFrames, q / s.packetFrames, q, b);
  }

  lemma MovedTwice(s: State, n1: nat, o1: nat, c1: nat, l1: nat, n2: nat, o2: nat, c2: nat, l2: nat)
    requires n1 <= n2
    ensures s.Moved(n1, o1, c1, l1).Moved(n2, o2, c2, l2) == s.Moved(n2, o2, c1 + c2, l1 + l2)
  {
    assert KeepFrom(KeepFrom(s.slots, n1), n2) == KeepFrom(s.slots, n2);
  }

  lemma MovedThenDry(s: State, n1: nat, o1: nat, c1: nat, l1: nat, c2: nat, l2: nat)
    ensures s.Moved(n1, o1, c1, l1).RanDry(c2, l2) == s.RanDry(c1 + c2, l1 + l2)
  {
  }

  lemma ChunkCounts(s: State, a: nat, b: nat, q: nat, next: nat, last: nat)
    requires s.Valid() && s.primed && !s.Starves(a) && s.Pull(a).slots != map[]
    requires q == s.Position() + a && next == q / s.packetFrames <= last
    ensures s.play.value <= next
    ensures s.Concealed(a) + s.Pull(a).Concealed(b) == s.Concealed(a + b)
    ensures AbsentPackets(s.slots, s.play.value, next) + AbsentPackets(s.Pull(a).slots, next, last)
         == AbsentPackets(s.slots, s.play.value, last)
  {
    ChunkInTheMiddle(s, a, b, q);
    PlayedPosition(s, a, q);
    ConcealedSplit(s.slots, s.packetFrames, s.Position(), a, b);
    CursorOfPosition(s);
    DivMonotone(s.Position(), q, s.packetFrames);
    AbsentSplit(s.slots, s.play.value, next, last);
    AbsentOfKept(s.slots, next, next, last);
  }

  lemma PlayedIsMoved(s: State, a: nat, q: nat, next: nat)
    requires s.packetFrames > 0 && s.primed && s.play.Some? && !s.Starves(a)
    requires q == s.Position() + a && next == q / s.packetFrames
    ensures s.Pull(a) == s.Moved(next, q % s.packetFrames, s.Concealed(a), AbsentPackets(s.slots, s.play.value, next))
  {
  }

  lemma ChunkPlaysThrough(s: State, a: nat, b: nat, q: nat, next: nat, last: nat)
    requires s.Valid() && s.primed && !s.Starves(a) && b > 0 && s.Pull(a).slots != map[]
    requires q == s.Position() + a && next == q / s.packetFrames && last == (q + b) / s.packetFrames
    requires !s.Pull(a).Starves(b) && s.Pull(a).Position() == q && !s.Starves(a + b)
    requires s.Pull(a).play == Some(next) && next <= last
    ensures s.Pull(a).Pull(b) == s.Pull(a + b)
  {
    ChunkCounts(s, a, b, q, next, last);
    var t := s.Pull(a);
    PlayedIsMoved(s, a, q, next);
    PlayedIsMoved(t, b, q + b, last);
    PlayedIsMoved(s, a + b, q + b, last);
    MovedTwice(s, next, q % s.packetFrames, s.Concealed(a), AbsentPackets(s.slots, s.play.value, next),
               last, (q + b) % s.packetFrames, t.Concealed(b), AbsentPackets(t.slots, next, last));
  }

  lemma ChunkRunsDry(s: State, a: nat, b: nat, q: nat, next: nat)
    requires s.Valid() && s.primed && !s.Starves(a) && b > 0 && s.Pull(a).slots != map[]
    requires q == s.Position() + a && next == q / s.packetFrames <= s.EndPacket()
    requires s.Pull(a).Starves(b) && s.Starves(a + b)
    requires s.Pull(a).play == Some(next) && s.Pull(a).EndPacket() == s.EndPacket()
    ensures s.Pull(a).Pull(b) == s.Pull(a + b)
  {
    var end := s.EndPacket();
    ChunkCounts(s, a, b, q, next, end);
    PlayedIsMoved(s, a, q, next);
    MovedThenDry(s, next, q % s.packetFrames, s.Concealed(a), AbsentPackets(s.slots, s.play.value, next),
                 s.Pull(a).Concealed(b), AbsentPackets(s.Pull(a).slots, next, end));
  }

  lemma ChunkPlayedOn(s: State, a: nat, b: nat)
    requires s.Valid() && s.primed && !s.Starves(a) && b > 0 && s.Pull(a).slots != map[]
    ensures s.Pull(a).Pull(b) == s.Pull(a + b)
  {
    var q := s.Position() + a;
    var next := q / s.packetFrames;
    PlayedPosition(s, a, q);
    ChunkInTheMiddle(s, a, b, q);
    PullKeepsValid(s, a);
    if s.Pull(a).Starves(b) {
      ChunkRunsDry(s, a, b, q, next);
    } else {
      DivMonotone(q, q + b, s.packetFrames);
      ChunkPlaysThrough(s, a, b, q, next, (q + b) / s.packetFrames);
    }
  }

  lemma ExactEndOfEmpty(s: State, q: nat)
    requires s.Valid() && s.play.Some? && s.slots == map[] && q == s.Position()
    ensures q / s.packetFrames == s.EndPacket() && q >= s.EndPacket() * s.packetFrames
  {
    CursorOfPosition(s);
    EndIsAhead(s);
  }

  lemma ExactEndOfQueue(s: State, q: nat)
    requires s.Valid() && s.play.Some? && s.slots != map[] && q <= s.EndPacket() * s.packetFrames
    requires LastKey(s.slots.Keys) < q / s.packetFrames
    ensures q / s.packetFrames == s.EndPacket() && q >= s.EndPacket() * s.packetFrames
  {
    BeforeTheEnd(s, q);
    Recompose(q, s.packetFrames);
  }

  /** The first part plays the queue out exactly. */
  lemma ExactEnd(s: State, a: nat, q: nat)
    requires s.Valid() && s.primed && !s.Starves(a) && s.Pull(a).slots == map[]
    requires q == s.Position() + a
    ensures q / s.packetFrames == s.EndPacket() && q >= s.EndPacket() * s.packetFrames
  {
    PlayedPosition(s, a, q);
    EndIsAhead(s);
    if s.slots == map[] {
      ExactEndOfEmpty(s, q);
    } else {
      if LastKey(s.slots.Keys) >= q / s.packetFrames {
        KeptKey(s.slots, q / s.packetFrames, LastKey(s.slots.Keys));
      }
      ExactEndOfQueue(s, q);
    }
  }

  lemma EmptyRunsDry(t: State, b: nat)
    requires t.packetFrames > 0 && t.primed && t.play.Some? && t.slots == map[] && b > 0
    ensures t.Pull(b) == t.RanDry(b, 0)
    ensures t.Sound(b) == Silence(b * t.bytesPerFrame)
  {
    ConcealedOfNothing(t.packetFrames, t.Position(), b);
    EmptyTimelineIsSilent(t, t.Position(), b);
  }

  lemma PastTheEndRunsDry(s: State, a: nat, b: nat)
    requires s.Valid() && s.primed && b > 0 && s.Position() + a >= s.EndPacket() * s.packetFrames
    ensures s.Pull(a + b) == s.RanDry(s.Concealed(a) + b, AbsentPackets(s.slots, s.play.value, s.EndPacket()))
    ensures s.Sound(a + b) == s.Sound(a) + Silence(b * s.bytesPerFrame)
  {
    AfterTheEnd(s, a, b);
  }

  /** The second part then runs dry at once, as the whole would there. */
  lemma ChunkAtTheEnd(s: State, a: nat, b: nat)
    requires s.Valid() && s.primed && !s.Starves(a) && b > 0 && s.Pull(a).slots == map[]
    ensures s.Pull(a).Pull(b) == s.Pull(a + b)
    ensures s.Sound(a) + s.Pull(a).Sound(b) == s.Sound(a + b)
  {
    var q := s.Position() + a;
    var next := q / s.packetFrames;
    PlayedIsMoved(s, a, q, next);
    ExactEnd(s, a, q);
    PastTheEndRunsDry(s, a, b);
    EmptyRunsDry(s.Pull(a), b);
    MovedThenDry(s, next, q % s.packetFrames, s.Concealed(a), AbsentPackets(s.slots, s.play.value, next), b, 0);
  }

  lemma ChunkSoundsOn(s: State, a: nat, b: nat)
    requires s.Valid() && s.primed && !s.Starves(a) && s.Pull(a).slots != map[]
    ensures s.Sound(a) + s.Pull(a).Sound(b) == s.Sound(a + b)
  {
    ChunkInTheMiddle(s, a, b, s.Position() + a);
    TimelineSplit(s, s.Position(), a, b);
  }

  lemma ChunkOfNothing(s: State, a: nat)
    requires s.Valid()
    ensures s.Pull(a).Pull(0) == s.Pull(a)
    ensures s.Sound(a) + s.Pull(a).Sound(0) == s.Sound(a)
  {
    PullKeepsValid(s, a);
    PullOfNothing(s.Pull(a));
  }

  lemma ChunkUnprimed(s: State, a: nat, b: nat)
    requires s.packetFrames > 0 && !s.primed
    ensures s.Sound(a) + s.Pull(a).Sound(b) == s.Sound(a + b)
  {
    MulMonotone(a, a + b, s.bytesPerFrame);
    assert a * s.bytesPerFrame + b * s.bytesPerFrame == (a + b) * s.bytesPerFrame;
  }

  /** Chunking is inaudible: two pulls emit the bytes of one, and, unless the first ran dry, leave the same state.
      If it did, only the underrun counter differs, by the frames of the second pull. */
  lemma ChunkingIsInvisible(s: State, a: nat, b: nat)
    requires s.Valid()
    ensures s.Sound(a) + s.Pull(a).Sound(b) == s.Sound(a + b)
    ensures var two, one := s.Pull(a).Pull(b), s.Pull(a + b);
            && two.(underruns := one.underruns) == one
            && one.underruns == two.underruns + (if s.Starves(a) then b else 0)
  {
    if !s.primed {
      ChunkUnprimed(s, a, b);
    } else if s.Starves(a) {
      ChunkAfterStarvation(s, a, b);
    } else if b == 0 {
      ChunkOfNothing(s, a);
    } else if s.Pull(a).slots == map[] {
      ChunkAtTheEnd(s, a, b);
    } else {
      ChunkPlayedOn(s, a, b);
      ChunkSoundsOn(s, a, b);
    }
  }
}
