/** The jitter buffer as the mixer holds it: fields updated in place, against the value-level operations. */
module JitterBuffer {
  import opened Bytes
  import opened Division
  import opened Playout
  import opened PlayoutPull

  lemma BufferedFrame(s: State, k: nat, at: nat, q: nat, lo: nat)
    requires at < s.packetFrames && k in s.slots && |s.slots[k]| == s.packetFrames * s.bytesPerFrame
    requires q == k * s.packetFrames + at && lo == at * s.bytesPerFrame
    ensures lo + s.bytesPerFrame <= |s.slots[k]| && s.Frame(q) == s.slots[k][lo..lo + s.bytesPerFrame]
  {
    DivMod(k, at, s.packetFrames);
    RowFits(at, s.packetFrames, s.bytesPerFrame);
  }

  /** Bytes lo up to hi are n rows from row at on; without the last one they are n - 1. */
  lemma LastRow(at: nat, n: nat, rows: nat, w: nat, lo: nat, hi: nat)
    requires 0 < n && at + n <= rows && lo == at * w && hi == (at + n) * w
    ensures lo <= hi - w == (at + n - 1) * w && hi <= rows * w
  {
    RowFits(at + n - 1, rows, w);
    MulMonotone(at, at + n - 1, w);
  }

  lemma {:induction false} StretchOfBuffered(s: State, k: nat, at: nat, n: nat, lo: nat, hi: nat)
    requires at + n <= s.packetFrames && k in s.slots && |s.slots[k]| == s.packetFrames * s.bytesPerFrame
    requires s.packetFrames > 0
    requires lo == at * s.bytesPerFrame && hi == (at + n) * s.bytesPerFrame
    ensures lo <= hi <= |s.slots[k]| && s.Timeline(k * s.packetFrames + at, n) == s.slots[k][lo..hi]
  {
    if n == 0 {
      MulMonotone(at, s.packetFrames, s.bytesPerFrame);
    } else {
      LastRow(at, n, s.packetFrames, s.bytesPerFrame, lo, hi);
      var mid := hi - s.bytesPerFrame;
      StretchOfBuffered(s, k, at, n - 1, lo, mid);
      BufferedFrame(s, k, at + n - 1, k * s.packetFrames + at + n - 1, mid);
      assert s.slots[k][lo..mid] + s.slots[k][mid..hi] == s.slots[k][lo..hi];
    }
  }

  lemma StretchBytes(at: nat, n: nat, bpf: nat)
    ensures (at + n) * bpf - at * bpf == n * bpf
  {
  }

  /** The bytes that n frames of a buffered packet take, and what they are. */
  lemma StretchSource(s: State, k: nat, at: nat, n: nat, bytes: nat, lo: nat, hi: nat)
    requires s.packetFrames > 0 && at + n <= s.packetFrames && bytes == n * s.bytesPerFrame
    requires k in s.slots && |s.slots[k]| == s.bytesPerFrame * s.packetFrames
    requires lo == at * s.bytesPerFrame && hi == (at + n) * s.bytesPerFrame
    ensures lo <= hi <= |s.slots[k]| && hi - lo == bytes
    ensures s.Timeline(k * s.packetFrames + at, n) == s.slots[k][lo..hi]
  {
    StretchOfBuffered(s, k, at, n, lo, hi);
    StretchBytes(at, n, s.bytesPerFrame);
  }

  lemma SilenceSum(a: nat, b: nat)
    ensures Silence(a) + Silence(b) == Silence(a + b)
  {
  }

  lemma MissingFrame(s: State, k: nat, at: nat, q: nat)
    requires at < s.packetFrames && k !in s.slots && q == k * s.packetFrames + at
    ensures s.Frame(q) == Silence(s.bytesPerFrame)
  {
    DivMod(k, at, s.packetFrames);
  }

  lemma {:induction false} SilentStretch(s: State, q: nat, n: nat)
    requires s.packetFrames > 0 && forall p | q <= p < q + n :: s.Frame(p) == Silence(s.bytesPerFrame)
    ensures s.Timeline(q, n) == Silence(n * s.bytesPerFrame)
  {
    if n > 0 {
      SilentStretch(s, q, n - 1);
      MulMonotone(n - 1, n - 1, s.bytesPerFrame);
      SilenceSum((n - 1) * s.bytesPerFrame, s.bytesPerFrame);
    }
  }

  lemma {:induction false} StretchOfMissing(s: State, k: nat, at: nat, n: nat, bytes: nat)
    requires s.packetFrames > 0 && at + n <= s.packetFrames && k !in s.slots && bytes == n * s.bytesPerFrame
    ensures s.Timeline(k * s.packetFrames + at, n) == Silence(bytes)
  {
    var q := k * s.packetFrames + at;
    forall p | q <= p < q + n
      ensures s.Frame(p) == Silence(s.bytesPerFrame)
    {
      MissingFrame(s, k, p - k * s.packetFrames, p);
    }
    SilentStretch(s, q, n);
  }

  lemma {:induction false} StretchConcealed(slots: Slots, pf: nat, k: nat, at: nat, n: nat)
    requires pf > 0 && at + n <= pf
    ensures ConcealedFrames(slots, pf, k * pf + at, n) == if k in slots then 0 else n
  {
    if n > 0 {
      StretchConcealed(slots, pf, k, at, n - 1);
      DivMod(k, at + n - 1, pf);
    }
  }

  /** What a pull has done so far: `done` frames out, playout at offset `at` of packet `next`. */
  ghost predicate Underway(s: State, now: State, next: nat, at: nat, done: nat)
  {
    && s.packetFrames > 0 && s.primed && s.play.Some?
    && s.Position() + done == next * s.packetFrames + at && at < s.packetFrames
    && s.play.value <= next
    && now == s.Moved(next, at, s.Concealed(done), AbsentPackets(s.slots, s.play.value, next))
    && (done > 0 ==> s.slots != map[] && s.Position() + done <= s.EndPacket() * s.packetFrames)
  }

  lemma PullBegins(s: State)
    requires s.Valid() && s.primed
    ensures Underway(s, s.(started := true), s.play.value, s.off, 0)
  {
    assert KeepFrom(s.slots, s.play.value) == s.slots;
  }

  lemma PullEnds(s: State, now: State, next: nat, at: nat, n: nat)
    requires s.Valid() && Underway(s, now, next, at, n)
    ensures now == s.Pull(n)
  {
    DivMod(next, at, s.packetFrames);
  }

  /** With no packet from the cursor on, the position is the end of the queue. */
  lemma CursorIsUnderway(s: State, next: nat, at: nat)
    requires s.Valid() && s.play.Some? && s.Position() == next * s.packetFrames + at && at < s.packetFrames
    ensures next == s.play.value && at == s.off
  {
    DivMod(next, at, s.packetFrames);
    CursorOfPosition(s);
  }

  lemma UsedUp(s: State, now: State, next: nat, at: nat, done: nat)
    requires s.Valid() && Underway(s, now, next, at, done)
    requires forall k | k in s.slots :: k < next
    ensures next == s.EndPacket() && s.Position() + done >= s.EndPacket() * s.packetFrames
  {
    if done == 0 {
      CursorIsUnderway(s, next, at);
    } else {
      DivMod(next, at, s.packetFrames);
      BeforeTheEnd(s, s.Position() + done);
    }
  }

  /** The buffer is used up: the rest of the pull, m frames, is concealed silence. */
  lemma PullRunsDry(s: State, now: State, next: nat, at: nat, done: nat, m: nat)
    requires s.Valid() && Underway(s, now, next, at, done) && m > 0
    requires forall k | k in s.slots :: k < next
    ensures s.Pull(done + m) == now.RanDry(m, 0)
    ensures s.Sound(done + m) == s.Timeline(s.Position(), done) + Silence(m * s.bytesPerFrame)
  {
    UsedUp(s, now, next, at, done);
    PastTheEndRunsDry(s, done, m);
    MovedThenDry(s, next, at, s.Concealed(done), AbsentPackets(s.slots, s.play.value, next), m, 0);
  }

  lemma InsidePacket(next: nat, at: nat, end: nat, pf: nat)
    requires at <= pf && next < end
    ensures next * pf + at <= end * pf
  {
    MulMonotone(next + 1, end, pf);
    MulMonotone(next, next, pf);
  }

  /** A stretch of n frames inside packet `next`, played or concealed. */
  lemma StretchCounts(s: State, next: nat, at: nat, done: nat, n: nat)
    requires s.packetFrames > 0 && s.Position() + done == next * s.packetFrames + at && at + n <= s.packetFrames
    ensures s.Concealed(done + n) == s.Concealed(done) + (if next in s.slots then 0 else n)
    ensures s.Timeline(s.Position(), done + n) == s.Timeline(s.Position(), done) + s.Timeline(next * s.packetFrames + at, n)
  {
    ConcealedSplit(s.slots, s.packetFrames, s.Position(), done, n);
    StretchConcealed(s.slots, s.packetFrames, next, at, n);
    TimelineSplit(s, s.Position(), done, n);
  }

  lemma StretchWithin(s: State, now: State, next: nat, at: nat, done: nat, n: nat)
    requires Underway(s, now, next, at, done) && n > 0 && at + n < s.packetFrames
    requires s.slots != map[] && next <= LastKey(s.slots.Keys)
    ensures Underway(s, now.(off := at + n, underruns := now.underruns + if next in s.slots then 0 else n),
                     next, at + n, done + n)
  {
    StretchCounts(s, next, at, done, n);
    InsidePacket(next, at + n, s.EndPacket(), s.packetFrames);
  }

  lemma KeepNext(slots: Slots, next: nat)
    ensures KeepFrom(slots, next) - {next} == KeepFrom(slots, next + 1)
  {
  }

  lemma FinishPacket(s: State, now: State, next: nat, at: nat, c: nat, l: nat, dc: nat, dl: nat)
    requires now == s.Moved(next, at, c, l)
    ensures now.(slots := now.slots - {next}, play := Some(PlusSat(next, 1)), off := 0,
                 underruns := now.underruns + dc, losses := now.losses + dl)
         == s.Moved(next + 1, 0, c + dc, l + dl)
  {
    KeepNext(s.slots, next);
  }

  lemma StretchToTheEnd(s: State, now: State, next: nat, at: nat, done: nat, n: nat, dc: nat, dl: nat)
    requires Underway(s, now, next, at, done) && n > 0 && at + n == s.packetFrames
    requires s.slots != map[] && next <= LastKey(s.slots.Keys)
    requires dc == (if next in s.slots then 0 else n) && dl == (if next in s.slots then 0 else 1)
    ensures Underway(s, now.(slots := now.slots - {next}, play := Some(PlusSat(next, 1)), off := 0,
                             underruns := now.underruns + dc, losses := now.losses + dl),
                     next + 1, 0, done + n)
  {
    StretchCounts(s, next, at, done, n);
    InsidePacket(next, at + n, s.EndPacket(), s.packetFrames);
    MulMonotone(next, next, s.packetFrames);
    var absent := AbsentPackets(s.slots, s.play.value, next);
    FinishPacket(s, now, next, at, s.Concealed(done), absent, dc, dl);
    assert AbsentPackets(s.slots, s.play.value, next + 1) == absent + dl;
  }

  lemma EvictedKeepsTarget(s: State)
    ensures s.Evicted().target == s.target
    decreases |s.slots|
  {
    if |s.slots| > MAX_SLOTS {
      EvictedKeepsTarget(s.WithoutFirst());
    }
  }

  lemma PushKeepsValid(s: State, seqNo: UInt64, pcm: seq<Byte>)
    requires s.Valid()
    ensures s.Push(seqNo, pcm).0.Valid()
  {
    if Takes(s, seqNo, pcm) {
      PushMeaning(s, seqNo, pcm);
    } else {
      PushRefuses(s, seqNo, pcm);
    }
  }

  /** While packets remain, the saturating cursor is the packet playout is in. */
  lemma CursorIsNext(s: State, now: State, next: nat, at: nat, done: nat)
    requires s.Valid() && Underway(s, now, next, at, done) && s.slots != map[] && next <= LastKey(s.slots.Keys)
    ensures now.play == Some(next)
    ensures next in now.slots <==> next in s.slots
    ensures next in s.slots ==> now.slots[next] == s.slots[next]
  {
  }

  lemma FrameLength(s: State, q: nat)
    requires s.packetFrames > 0
    ensures |s.Frame(q)| == s.bytesPerFrame
  {
  }

  lemma {:induction false} TimelineLength(s: State, q: nat, n: nat)
    requires s.packetFrames > 0
    ensures |s.Timeline(q, n)| == n * s.bytesPerFrame
  {
    if n > 0 {
      TimelineLength(s, q, n - 1);
      FrameLength(s, q + n - 1);
      MulMonotone(n - 1, n, s.bytesPerFrame);
    }
  }

  lemma SoundLength(s: State, n: nat)
    requires s.packetFrames > 0
    ensures |s.Sound(n)| == n * s.bytesPerFrame
  {
    TimelineLength(s, s.Position(), n);
  }

  /** The destination of a pull after `done` frames: what was played, silence still to be filled, and what follows. */
  ghost predicate Rendered(s: State, dst: seq<Byte>, done: nat, at: nat, bytes: nat, tail: seq<Byte>)
  {
    && s.packetFrames > 0 && at <= bytes && at == done * s.bytesPerFrame
    && |s.Timeline(s.Position(), done)| == at
    && dst == s.Timeline(s.Position(), done) + Silence(bytes - at) + tail
  }

  lemma RoomForStretch(s: State, dst: seq<Byte>, done: nat, at: nat, n: nat, frames: nat, bytes: nat, stretch: nat,
                       tail: seq<Byte>)
    requires Rendered(s, dst, done, at, bytes, tail) && done + n <= frames
    requires bytes == frames * s.bytesPerFrame && stretch == n * s.bytesPerFrame
    ensures at + stretch <= bytes <= |dst| && dst[at..at + stretch] == Silence(stretch)
  {
    MulMonotone(done + n, frames, s.bytesPerFrame);
    StretchBytes(done, n, s.bytesPerFrame);
  }

  lemma PlayedStretch(s: State, before: seq<Byte>, dst: seq<Byte>, next: nat, off: nat, done: nat, at: nat, n: nat,
                      bytes: nat, stretch: nat, q: nat, tail: seq<Byte>)
    requires Rendered(s, before, done, at, bytes, tail) && at + stretch <= bytes && stretch == n * s.bytesPerFrame
    requires s.Position() + done == next * s.packetFrames + off && off + n <= s.packetFrames
    requires q == next * s.packetFrames + off && dst == before[..at] + s.Timeline(q, n) + before[at + stretch..]
    ensures Rendered(s, dst, done + n, at + stretch, bytes, tail)
  {
    StretchCounts(s, next, off, done, n);
    TimelineLength(s, q, n);
    StretchBytes(done, n, s.bytesPerFrame);
    assert before[..at] == s.Timeline(s.Position(), done);
    assert before[at + stretch..] == Silence(bytes - at - stretch) + tail;
  }

  lemma PlayedDry(s: State, dst: seq<Byte>, done: nat, at: nat, bytes: nat, m: nat, tail: seq<Byte>)
    requires Rendered(s, dst, done, at, bytes, tail) && bytes == (done + m) * s.bytesPerFrame
    ensures dst == s.Timeline(s.Position(), done) + Silence(m * s.bytesPerFrame) + tail
  {
    StretchBytes(done, m, s.bytesPerFrame);
  }

  lemma PlayedNothing(s: State, dst: seq<Byte>, bytes: nat, tail: seq<Byte>)
    requires s.packetFrames > 0 && dst == Silence(bytes) + tail
    ensures Rendered(s, dst, 0, 0, bytes, tail)
  {
  }

  lemma PullIsDry(s: State, now: State, next: nat, off: nat, dst: seq<Byte>, done: nat, at: nat, n: nat, m: nat,
                  bytes: nat, tail: seq<Byte>)
    requires s.Valid() && Underway(s, now, next, off, done) && m > 0 && forall k | k in s.slots :: k < next
    requires Rendered(s, dst, done, at, bytes, tail) && bytes == n * s.bytesPerFrame && n == done + m
    ensures s.Pull(n) == now.RanDry(m, 0) && dst == s.Sound(n) + tail
  {
    PullRunsDry(s, now, next, off, done, m);
    PlayedDry(s, dst, done, at, bytes, m, tail);
  }

  lemma PullIsDone(s: State, now: State, next: nat, off: nat, dst: seq<Byte>, n: nat, at: nat, bytes: nat, tail: seq<Byte>)
    requires s.Valid() && Underway(s, now, next, off, n)
    requires Rendered(s, dst, n, at, bytes, tail) && bytes == n * s.bytesPerFrame
    ensures now == s.Pull(n) && dst == s.Sound(n) + tail
  {
    PullEnds(s, now, next, off, n);
  }

  lemma NothingAhead(s: State, now: State, next: nat, at: nat, done: nat)
    requires s.Valid() && Underway(s, now, next, at, done)
    ensures now.play.Some? && now.packetFrames == s.packetFrames && now.started
    ensures (forall k | k in now.slots :: k < now.play.value)
        ==> now.slots == map[] && forall k | k in s.slots :: k < next
    ensures !(forall k | k in now.slots :: k < now.play.value) ==> s.slots != map[] && next <= LastKey(s.slots.Keys)
  {
    forall k | k in s.slots && k >= next
      ensures k in now.slots
    {
      KeptKey(s.slots, next, k);
    }
  }

  lemma WholeFramesFit(frames: nat, bpf: nat, length: nat)
    requires bpf > 0 && frames <= length / bpf
    ensures 0 <= frames * bpf <= length
  {
    MulMonotone(frames, length / bpf, bpf);
  }

  class JitterBuffer {
    const bytesPerFrame: nat
    const packetFrames: nat
    const packetBytes: nat
    var targetPackets: nat
    var slots: Slots
    var primed: bool
    var starved: bool
    var started: bool
    var playSeq: Option<nat>
    var playOff: nat
    var underruns: nat
    var starvations: nat
    var losses: nat
    var discarded: nat
    var arrived: nat

    /** The buffer's value. */
    function Now(): State
      reads this
    {
      State(bytesPerFrame, packetFrames, targetPackets, slots, primed, starved, started, playSeq, playOff,
            underruns, starvations, losses, discarded, arrived)
    }

    ghost predicate Valid()
      reads this
    {
      packetBytes == bytesPerFrame * packetFrames && Now().Valid()
    }

    constructor (bytes: nat, frames: nat)
      ensures Valid() && Now() == Fresh(bytes, frames)
    {
      bytesPerFrame := Max(bytes, 1);
      packetFrames := Max(frames, 1);
      packetBytes := Max(bytes, 1) * Max(frames, 1);
      targetPackets := START_TARGET;
      slots := map[];
      primed, starved, started := false, false, false;
      playSeq, playOff := None, 0;
      underruns, starvations, losses, discarded, arrived := 0, 0, 0, 0, 0;
    }

    method QueuedFrames() returns (frames: nat)
      ensures frames == Now().QueuedFrames()
    {
      if slots == map[] {
        return 0;
      }
      var last := LastKey(slots.Keys);
      var first := if playSeq.Some? then playSeq.value else FirstKey(slots.Keys);
      frames := MinusSat(WrapMul(PlusSat(MinusSat(last, first), 1), packetFrames), playOff);
    }

    method TrimLatency()
      requires targetPackets >= 1
      modifies this
      ensures Now() == old(Now()).Trimmed()
    {
      if slots == map[] || playSeq.None? {
        return;
      }
      var last := LastKey(slots.Keys);
      if MinusSat(last, playSeq.value) > targetPackets + 2 {
        var newPlay := MinusSat(last, targetPackets - 1);
        var before := |slots|;
        slots := KeepFrom(slots, newPlay);
        discarded := discarded + (before - |slots|);
        playSeq := Some(newPlay);
        playOff := 0;
      }
    }

    method SetTargetPackets(packets: nat)
      requires Valid()
      modifies this
      ensures Valid() && Now() == old(Now()).Retarget(packets)
    {
      RetargetKeepsValid(Now(), packets);
      var target := Clamp(packets, 1, MAX_SLOTS);
      if target == targetPackets {
        return;
      }
      var queued := QueuedFrames();
      if target > targetPackets && primed && queued < WrapMul(target, packetFrames) {
        primed := false;
      }
      targetPackets := target;
      TrimLatency();
    }

    /** A target in milliseconds is rounded up to whole 5 ms packets, between 4 and 30 of them. */
    method SetTargetMs(ms: nat)
      requires Valid()
      modifies this
      ensures Valid() && 4 <= targetPackets <= 30
      ensures targetPackets * 5 - 5 < Clamp(ms, 20, 150) <= targetPackets * 5
      ensures targetPackets == PacketsFor(ms) && Now() == old(Now()).Retarget(targetPackets)
    {
      SetTargetPackets(PacketsFor(ms));
    }

    method Push(seqNo: UInt64, pcm: seq<Byte>) returns (ok: bool)
      requires Valid()
      modifies this
      ensures Valid() && Now() == old(Now()).Push(seqNo, pcm).0
      ensures ok == old(Now()).Push(seqNo, pcm).1
    {
      PushKeepsValid(Now(), seqNo, pcm);
      if seqNo == 0 || |pcm| != packetBytes {
        return false;
      }
      RestartIfStarved();
      ok := Receive(seqNo, pcm);
    }

    /** `Push` after the restart check. */
    method Receive(seqNo: UInt64, pcm: seq<Byte>) returns (ok: bool)
      requires targetPackets >= 1
      modifies this
      ensures Now() == old(Now()).Receive(seqNo, pcm).0
      ensures ok == old(Now()).Receive(seqNo, pcm).1
    {
      if playSeq.Some? && seqNo < playSeq.value && started {
        discarded := discarded + 1;
        return false;
      }
      ClearIfJumped(seqNo);
      ok := Store(seqNo, pcm);
    }

    /** `Push` after the late and jump checks. */
    method Store(seqNo: UInt64, pcm: seq<Byte>) returns (ok: bool)
      requires targetPackets >= 1
      modifies this
      ensures Now() == old(Now()).Store(seqNo, pcm).0
      ensures ok == old(Now()).Store(seqNo, pcm).1
    {
      if seqNo in slots {
        return false;
      }
      ghost var b := Now();
      slots := slots[seqNo := pcm];
      arrived := arrived + 1;
      assert Now() == b.Inserted(seqNo, pcm);
      FitPacket();
      ok := true;
    }

    /** What `Push` does once the packet is in. */
    method FitPacket()
      requires targetPackets >= 1
      modifies this
      ensures Now() == old(Now()).Evicted().Placed().Primed().Trimmed()
    {
      ghost var s := Now();
      EvictDownToSize();
      PlaceAndPrime();
      assert Now() == s.Evicted().Placed().Primed();
      assert targetPackets == s.target by {
        EvictedKeepsTarget(s);
      }
      TrimLatency();
    }

    method RestartIfStarved()
      modifies this
      ensures Now() == old(Now()).Restarted()
    {
      if starved {
        slots := map[];
        playSeq := None;
        playOff := 0;
        primed := false;
        starved := false;
        started := false;
      }
    }

    method ClearIfJumped(seqNo: nat)
      modifies this
      ensures Now() == old(Now()).Jumped(seqNo)
    {
      if playSeq.Some? && seqNo > PlusSat(playSeq.value, 2 * MAX_SLOTS) {
        slots := map[];
        playSeq := None;
        playOff := 0;
        primed := false;
      }
    }

    /** The eviction loop of `Push`. */
    method EvictDownToSize()
      modifies this
      ensures Now() == old(Now()).Evicted()
    {
      ghost var s := Now();
      while |slots| > MAX_SLOTS
        invariant Now().Evicted() == s.Evicted()
        decreases |slots|
      {
        EvictFirst();
      }
    }

    method EvictFirst()
      requires |slots| > 1
      modifies this
      ensures Now() == old(Now()).WithoutFirst()
    {
      var first := FirstKey(slots.Keys);
      assert slots.Keys == (slots - {first}).Keys + {first};
      slots := slots - {first};
      discarded := discarded + 1;
      if playSeq.Some? && playSeq.value <= first {
        playSeq := Some(FirstKey(slots.Keys));
        playOff := 0;
      }
    }

    method PlaceAndPrime()
      modifies this
      ensures Now() == old(Now()).Placed().Primed()
    {
      if playSeq.None? || !started {
        playSeq := if slots == map[] then None else Some(FirstKey(slots.Keys));
      }
      var queued := QueuedFrames();
      if !primed && queued >= WrapMul(targetPackets, packetFrames) {
        primed := true;
      }
    }

    /** The output of one round of the pull loop: n frames of the packet at the cursor, played or concealed. */
    method Emit(dst: array<Byte>, at: nat, n: nat, bytes: nat, ghost s: State, ghost next: nat, ghost q: nat)
      requires s.packetFrames > 0 && s.packetFrames == packetFrames && s.bytesPerFrame == bytesPerFrame
      requires n > 0 && playOff + n <= packetFrames && bytes == n * s.bytesPerFrame
      requires q == next * s.packetFrames + playOff
      requires playSeq == Some(next) && (next in slots <==> next in s.slots)
      requires next in s.slots ==> slots[next] == s.slots[next] && |s.slots[next]| == s.bytesPerFrame * s.packetFrames
      requires at + bytes <= dst.Length && dst[at..at + bytes] == Silence(bytes)
      modifies this`underruns, dst
      ensures underruns == old(underruns) + if next in s.slots then 0 else n
      ensures dst[..] == old(dst[..at]) + s.Timeline(q, n) + old(dst[at + bytes..])
    {
      var seqNo := playSeq.value;
      if seqNo in slots {
        var from, to := playOff * bytesPerFrame, (playOff + n) * bytesPerFrame;
        StretchSource(s, next, playOff, n, bytes, from, to);
        CopyInto(dst, at, slots[seqNo][from..to]);
      } else {
        StretchOfMissing(s, next, playOff, n, bytes);
        underruns := underruns + n;
        assert dst[..] == dst[..at] + dst[at..at + bytes] + dst[at + bytes..];
      }
    }

    /** Moves the cursor over n frames inside its packet. */
    method StayInPacket(n: nat, ghost s: State, ghost before: State, ghost next: nat, ghost done: nat)
      requires Underway(s, before, next, playOff, done) && n > 0 && playOff + n < packetFrames
      requires s.slots != map[] && next <= LastKey(s.slots.Keys)
      requires Now() == before.(underruns := before.underruns + if next in s.slots then 0 else n)
      modifies this
      ensures Underway(s, Now(), next, playOff, done + n)
    {
      StretchWithin(s, before, next, playOff, done, n);
      playOff := playOff + n;
    }

    /** Moves the cursor over the last n frames of its packet, and takes the packet out. */
    method FinishPacket(n: nat, ghost s: State, ghost before: State, ghost next: nat, ghost done: nat)
      requires Underway(s, before, next, playOff, done) && n > 0 && playOff + n == packetFrames
      requires s.slots != map[] && next <= LastKey(s.slots.Keys)
      requires playSeq == Some(next) && (next in slots <==> next in s.slots)
      requires Now() == before.(underruns := before.underruns + if next in s.slots then 0 else n)
      modifies this
      ensures Underway(s, Now(), next + 1, playOff, done + n)
    {
      ghost var dc, dl := if next in s.slots then 0 else n, if next in s.slots then 0 else 1;
      StretchToTheEnd(s, before, next, playOff, done, n, dc, dl);
      DropFirst();
    }

    /** The cursor moves on to the next packet; the one it leaves goes, or was lost. */
    method DropFirst()
      requires playSeq.Some?
      modifies this`slots, this`losses, this`playSeq, this`playOff
      ensures var s, k := old(Now()), old(playSeq.value);
              Now() == s.(slots := s.slots - {k}, play := Some(PlusSat(k, 1)), off := 0,
                          losses := s.losses + if k in s.slots then 0 else 1)
    {
      var seqNo := playSeq.value;
      if seqNo !in slots {
        losses := losses + 1;
      }
      slots := slots - {seqNo};
      playSeq := Some(PlusSat(seqNo, 1));
      playOff := 0;
    }

    /** The loop of `Pull`, over a destination already silenced. */
    method PullFrames(dst: array<Byte>, frames: nat, bytes: nat, ghost tail: seq<Byte>)
      requires Valid() && primed && bytes == frames * bytesPerFrame
      requires dst[..] == Silence(bytes) + tail
      modifies this, dst
      ensures Now() == old(Now()).Pull(frames)
      ensures dst[..] == old(Now()).Sound(frames) + tail
    {
      ghost var s := Now();
      assert bytes == frames * s.bytesPerFrame;
      PullBegins(s);
      started := true;
      var done: nat, at: nat := 0, 0;
      ghost var next := s.play.value;
      PlayedNothing(s, dst[..], bytes, tail);
      while done < frames
        invariant done <= frames && Rendered(s, dst[..], done, at, bytes, tail)
        invariant Underway(s, Now(), next, playOff, done)
      {
        NothingAhead(s, Now(), next, playOff, done);
        if forall k | k in slots :: k < playSeq.value {
          PullIsDry(s, Now(), next, playOff, dst[..], done, at, frames, frames - done, bytes, tail);
          Starve(frames - done);
          return;
        }
        var n := Min(packetFrames - playOff, frames - done);
        at, done, next := PullRound(dst, n, frames, bytes, s, next, done, at, tail);
      }
      PullIsDone(s, Now(), next, playOff, dst[..], frames, at, bytes, tail);
    }

    /** The output of one round of the pull loop. */
    method PlayStretch(dst: array<Byte>, n: nat, frames: nat, bytes: nat, ghost s: State, ghost next: nat,
                       done: nat, at: nat, ghost tail: seq<Byte>)
      returns (at': nat)
      requires s.Valid() && Underway(s, Now(), next, playOff, done) && Rendered(s, dst[..], done, at, bytes, tail)
      requires Now().play == Some(next) && (next in slots <==> next in s.slots)
      requires next in s.slots ==> slots[next] == s.slots[next]
      requires n > 0 && playOff + n <= packetFrames && done + n <= frames && bytes == frames * s.bytesPerFrame
      modifies this`underruns, dst
      ensures Rendered(s, dst[..], done + n, at', bytes, tail)
      ensures underruns == old(underruns) + if next in s.slots then 0 else n
    {
      ghost var before := dst[..];
      ghost var q := next * s.packetFrames + playOff;
      var stretch := n * bytesPerFrame;
      assert stretch == n * s.bytesPerFrame;
      RoomForStretch(s, before, done, at, n, frames, bytes, stretch, tail);
      Emit(dst, at, n, stretch, s, next, q);
      PlayedStretch(s, before, dst[..], next, playOff, done, at, n, bytes, stretch, q, tail);
      at' := at + stretch;
    }

    /** One round of the pull loop. */
    method PullRound(dst: array<Byte>, n: nat, frames: nat, bytes: nat, ghost s: State, ghost next: nat,
                     done: nat, at: nat, ghost tail: seq<Byte>)
      returns (at': nat, done': nat, ghost next': nat)
      requires s.Valid() && Underway(s, Now(), next, playOff, done) && Rendered(s, dst[..], done, at, bytes, tail)
      requires s.slots != map[] && next <= LastKey(s.slots.Keys)
      requires n > 0 && playOff + n <= packetFrames && done + n <= frames && bytes == frames * s.bytesPerFrame
      modifies this, dst
      ensures done' == done + n && Rendered(s, dst[..], done', at', bytes, tail)
      ensures Underway(s, Now(), next', playOff, done')
    {
      done' := done + n;
      ghost var now := Now();
      CursorIsNext(s, now, next, playOff, done);
      at' := PlayStretch(dst, n, frames, bytes, s, next, done, at, tail);
      ghost var played := dst[..];
      if playOff + n < packetFrames {
        StayInPacket(n, s, now, next, done);
        next' := next;
      } else {
        FinishPacket(n, s, now, next, done);
        next' := next + 1;
      }
      assert dst[..] == played;
    }

    method Starve(missing: nat)
      requires slots == map[] && started
      modifies this
      ensures Now() == old(Now()).RanDry(missing, 0)
    {
      underruns := underruns + missing;
      starvations := starvations + 1;
      primed := false;
      starved := true;
      playSeq := None;
      playOff := 0;
    }

    /** `Pull`, once the destination is silenced. */
    method PullInto(dst: array<Byte>, frames: nat, bytes: nat, ghost tail: seq<Byte>)
      requires Valid() && bytes == frames * bytesPerFrame && dst[..] == Silence(bytes) + tail
      modifies this, dst
      ensures Now() == old(Now()).Pull(frames) && dst[..] == old(Now()).Sound(frames) + tail
    {
      if primed {
        PullFrames(dst, frames, bytes, tail);
      }
    }

    method Pull(dst: array<Byte>, wanted: nat) returns (frames: nat)
      requires Valid()
      modifies this, dst
      ensures Valid() && frames == Min(wanted, dst.Length / bytesPerFrame)
      ensures Now() == old(Now()).Pull(frames)
      ensures |old(Now()).Sound(frames)| <= dst.Length
      ensures dst[..] == old(Now()).Sound(frames) + old(dst[..])[|old(Now()).Sound(frames)|..]
    {
      ghost var s, tail := Now(), dst[..];
      frames := Min(wanted, dst.Length / bytesPerFrame);
      var bytes := frames * bytesPerFrame;
      WholeFramesFit(frames, bytesPerFrame, dst.Length);
      tail := tail[bytes..];
      PullKeepsValid(s, frames);
      SoundLength(s, frames);
      CopyInto(dst, 0, Silence(bytes));
      PullInto(dst, frames, bytes, tail);
    }
  }
}
