/** What becomes of packets: the counters against what entered the buffer and what left it. */
module PlayoutLedger {
  import opened Bytes
  import opened Playout
  import opened PlayoutPull
  import opened PlayoutRuns
  import opened Division

  predicate WellFormed(s: State, seqNo: nat, pcm: seq<Byte>)
  {
    seqNo >= 1 && |pcm| == s.bytesPerFrame * s.packetFrames
  }

  /** The number is so far ahead of the cursor that the buffer is emptied for it. */
  predicate Jumps(s: State, seqNo: nat)
  {
    s.play.Some? && seqNo > PlusSat(s.play.value, 2 * MAX_SLOTS)
  }

  /** The buffer a push starts from: emptied exactly by a jump, since nothing is left in it after a starvation. */
  lemma BaseIs(s: State, seqNo: nat)
    requires s.Valid()
    ensures Base(s, seqNo) == if Jumps(s, seqNo) then map[] else s.slots
    ensures s.starved ==> s.slots == map[] && !Jumps(s, seqNo)
  {
  }

  /** Packets that a push drops without counting them. */
  function JumpedOver(s: State, seqNo: nat, pcm: seq<Byte>): nat
  {
    if WellFormed(s, seqNo, pcm) && Jumps(s, seqNo) then |s.slots| else 0
  }

  /** 1 if a push counts a packet as discarded that never entered. */
  function LateBy(s: State, seqNo: nat, pcm: seq<Byte>): nat
  {
    if WellFormed(s, seqNo, pcm) && Late(s.Restarted(), seqNo) then 1 else 0
  }

  lemma JumpsAreTaken(s: State, seqNo: nat, pcm: seq<Byte>)
    requires s.Valid() && WellFormed(s, seqNo, pcm) && Jumps(s, seqNo) && seqNo <= U64_MAX
    ensures Takes(s, seqNo, pcm)
  {
    BaseIs(s, seqNo);
  }

  lemma JoinedSize(slots: Slots, seqNo: nat, pcm: seq<Byte>)
    requires seqNo !in slots
    ensures |slots[seqNo := pcm]| == |slots| + 1
  {
    assert slots[seqNo := pcm].Keys == slots.Keys + {seqNo};
  }

  /** One push: what was buffered, entered or was counted as late is what is buffered, discarded or jumped over. */
  lemma PushBalances(s: State, seqNo: UInt64, pcm: seq<Byte>)
    requires s.Valid()
    ensures var (t, ok) := s.Push(seqNo, pcm);
            var entered := if ok then 1 else 0;
            && t.arrived == s.arrived + entered && t.discarded >= s.discarded
            && |s.slots| + entered + LateBy(s, seqNo, pcm)
               == |t.slots| + (t.discarded - s.discarded) + JumpedOver(s, seqNo, pcm)
  {
    BaseIs(s, seqNo);
    if Takes(s, seqNo, pcm) {
      PushMeaning(s, seqNo, pcm);
      JoinedSize(Base(s, seqNo), seqNo, pcm);
    } else {
      PushRefuses(s, seqNo, pcm);
      if WellFormed(s, seqNo, pcm) && Jumps(s, seqNo) {
        JumpsAreTaken(s, seqNo, pcm);
      }
    }
  }

  /** The discard counter agrees with what left the buffer exactly unless the packet is late, or far enough ahead of the
      cursor to empty a buffer that holds something. */
  lemma DiscardsAgreeIff(s: State, seqNo: UInt64, pcm: seq<Byte>)
    requires s.Valid() && WellFormed(s, seqNo, pcm)
    ensures var (t, ok) := s.Push(seqNo, pcm);
            t.discarded - s.discarded == |s.slots| + (if ok then 1 else 0) - |t.slots|
            <==> !Late(s.Restarted(), seqNo) && !(Jumps(s, seqNo) && s.slots != map[])
  {
    PushBalances(s, seqNo, pcm);
    BaseIs(s, seqNo);
    if Late(s.Restarted(), seqNo) {
      assert !Jumps(s, seqNo);
    }
  }

  // Runs.

  /** Where packets went besides the discard counter: taken out by pulls, jumped over, and counted without entering. */
  datatype Ledger = Ledger(taken: int, jumped: nat, late: nat)

  function Posted(s: State, op: Op): Ledger
    requires s.packetFrames > 0
  {
    match op
    case Push(seqNo, pcm) => Ledger(0, JumpedOver(s, seqNo, pcm), LateBy(s, seqNo, pcm))
    case Pull(_) => Ledger(|s.slots| - |Step(s, op).slots|, 0, 0)
    case Retarget(_) => Ledger(0, 0, 0)
  }

  ghost function LedgerOf(s: State, ops: seq<Op>): Ledger
    requires s.Valid()
  {
    if ops == [] then Ledger(0, 0, 0) else
      var n := |ops| - 1;
      var before, last := LedgerOf(s, ops[..n]), Posted(After(s, ops[..n]), ops[n]);
      Ledger(before.taken + last.taken, before.jumped + last.jumped, before.late + last.late)
  }

  /** Between s and t everything is accounted for. */
  ghost predicate Balanced(s: State, t: State, l: Ledger)
  {
    && l.taken >= 0 && t.arrived >= s.arrived && t.discarded >= s.discarded
    && |s.slots| + (t.arrived - s.arrived) + l.late == |t.slots| + l.taken + (t.discarded - s.discarded) + l.jumped
  }

  lemma PullTakes(s: State, n: nat)
    requires s.Valid()
    ensures var t := s.Pull(n); |t.slots| <= |s.slots| && t.arrived == s.arrived && t.discarded == s.discarded
  {
  }

  lemma RetargetBalances(s: State, packets: nat)
    requires s.Valid()
    ensures var t := s.Retarget(packets);
            && t.arrived == s.arrived && t.discarded >= s.discarded
            && |s.slots| == |t.slots| + (t.discarded - s.discarded)
  {
  }

  lemma StepBalances(s: State, op: Op)
    requires s.Valid()
    ensures Balanced(s, Step(s, op), Posted(s, op))
  {
    match op
    case Push(seqNo, pcm) => PushBalances(s, seqNo, pcm);
    case Pull(n) => PullTakes(s, n);
    case Retarget(packets) => RetargetBalances(s, packets);
  }

  /** Conservation over every run: what arrived is queued, was taken out by pulls, was discarded after entering, or was
      dropped by a jump. */
  lemma {:induction false} PacketsAreConserved(s: State, ops: seq<Op>)
    requires s.Valid()
    ensures Balanced(s, After(s, ops), LedgerOf(s, ops))
  {
    if ops != [] {
      var n := |ops| - 1;
      PacketsAreConserved(s, ops[..n]);
      StepBalances(After(s, ops[..n]), ops[n]);
    }
  }

  lemma EarlierPacket(k: nat, at: nat, next: nat, m: nat)
    requires at < m && k < next
    ensures k * m + at < next * m
  {
    MulMonotone(k + 1, next, m);
    MulMonotone(k, k, m);
  }

  lemma DrainedIsReached(s: State, n: nat, k: nat, at: nat)
    requires s.Valid() && s.Starves(n) && k in s.slots && at < s.packetFrames
    ensures k * s.packetFrames + at < s.Position() + n
  {
    EarlierPacket(k, at, s.EndPacket(), s.packetFrames);
  }

  lemma PassedIsReached(s: State, n: nat, k: nat, at: nat)
    requires s.Valid() && s.primed && !s.Starves(n) && k in s.slots && k !in s.Pull(n).slots && at < s.packetFrames
    ensures k * s.packetFrames + at < s.Position() + n
  {
    var q := s.Position() + n;
    PlayedPosition(s, n, q);
    Recompose(q, s.packetFrames);
    EarlierPacket(k, at, q / s.packetFrames, s.packetFrames);
  }

  /** The pull gets past the packet. */
  lemma RemovedIsReached(s: State, n: nat, k: nat, at: nat)
    requires s.Valid() && k in s.slots && k !in s.Pull(n).slots && at < s.packetFrames
    ensures s.primed && k * s.packetFrames + at < s.Position() + n
  {
    if s.Starves(n) {
      DrainedIsReached(s, n, k, at);
    } else {
      PassedIsReached(s, n, k, at);
    }
  }

  lemma {:induction false} AudibleHas(slots: Slots, pf: nat, p: nat, n: nat, q: nat)
    requires pf > 0 && p <= q < p + n && q / pf in slots
    ensures q in Audible(slots, pf, p, n)
  {
    if q < p + n - 1 {
      AudibleHas(slots, pf, p, n - 1, q);
    }
  }

  /** What pulls take out has been played: of a packet that a pull removes, the pull plays every frame that the cursor had
      not passed already. */
  lemma TakenIsPlayed(s: State, n: nat, k: nat, at: nat)
    requires s.Valid() && k in s.slots && k !in s.Pull(n).slots
    requires at < s.packetFrames && k * s.packetFrames + at >= s.Position()
    ensures k * s.packetFrames + at in Played(s, Op.Pull(n))
  {
    var q := k * s.packetFrames + at;
    DivMod(k, at, s.packetFrames);
    RemovedIsReached(s, n, k, at);
    AudibleHas(s.slots, s.packetFrames, s.Position(), n, q);
  }

  // Both ways to disagree, from a fresh buffer.

  /** A buffer of one-byte packets that plays packet 5. */
  function PlayingFive(): State
  {
    Fresh(1, 1).Retarget(1).Push(5, [0]).0.Pull(0)
  }

  lemma KeyOf(slots: Slots, k: nat)
    requires slots.Keys == {k}
    ensures LastKey(slots.Keys) == k && FirstKey(slots.Keys) == k
  {
  }

  /** A pull of no frames only starts playout. */
  lemma {:induction false} NothingPulled(s: State)
    requires s.Valid() && s.primed && s.slots != map[] && s.play.Some?
    ensures s.Pull(0) == s.(started := true)
  {
    CursorOfPosition(s);
    assert KeepFrom(s.slots, s.play.value) == s.slots;
  }

  /** That buffer before the pull. */
  function QueuedFive(): State
  {
    Fresh(1, 1).(target := 1, slots := map[5 := [0]], primed := true, play := Some(5), arrived := 1)
  }

  lemma FiveIsPushed()
    ensures Fresh(1, 1).Retarget(1).Push(5, [0]).0 == QueuedFive()
  {
    var a := Fresh(1, 1).Retarget(1);
    assert a == Fresh(1, 1).(target := 1);
    var b := a.Inserted(5, [0]).Evicted().Placed();
    KeyOf(b.slots, 5);
    assert b == QueuedFive().(primed := false) && b.QueuedFrames() == 1;
    assert b.Primed() == QueuedFive() && QueuedFive().Trimmed() == QueuedFive();
  }

  lemma {:induction false} FiveIsPulled()
    ensures QueuedFive().Valid() && QueuedFive().Pull(0) == QueuedFive().(started := true)
  {
    KeyOf(QueuedFive().slots, 5);
    NothingPulled(QueuedFive());
  }

  lemma FiveIsPlaying()
    ensures var s := PlayingFive();
            && s.Valid() && s.started && !s.starved && s.play == Some(5) && s.slots == map[5 := [0]]
            && s.bytesPerFrame == 1 && s.packetFrames == 1
  {
    FiveIsPushed();
    FiveIsPulled();
    PullKeepsValid(QueuedFive(), 0);
  }

  lemma LateDisagrees(s: State)
    requires s.Valid() && s.started && !s.starved && s.play == Some(5) && s.bytesPerFrame == 1 == s.packetFrames
    ensures var (t, ok) := s.Push(4, [0]); !ok && t.discarded == s.discarded + 1 && t.slots == s.slots
  {
    PushRefuses(s, 4, [0]);
  }

  lemma JumpDisagrees(s: State)
    requires s.Valid() && s.started && !s.starved && s.play == Some(5) && s.bytesPerFrame == 1 == s.packetFrames
    ensures var (t, ok) := s.Push(70, [0]); ok && t.discarded == s.discarded && t.slots == map[70 := [0]]
  {
    BaseIs(s, 70);
    PushMeaning(s, 70, [0]);
    PushBalances(s, 70, [0]);
    assert Base(s, 70) == map[];
  }

  /** Number 4 comes late: it is counted as discarded though nothing left. Number 70 empties the buffer, uncounted. */
  lemma LateAndJumpDisagree()
    ensures var s := PlayingFive();
            && s.slots == map[5 := [0]]
            && (var (t, ok) := s.Push(4, [0]); !ok && t.discarded == s.discarded + 1 && t.slots == s.slots)
            && (var (t, ok) := s.Push(70, [0]); ok && t.discarded == s.discarded && t.slots == map[70 := [0]])
  {
    FiveIsPlaying();
    LateDisagrees(PlayingFive());
    JumpDisagrees(PlayingFive());
  }
}
