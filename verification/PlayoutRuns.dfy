/** Whole runs of the jitter buffer: playback order, no frame twice, and re-priming. */
module PlayoutRuns {
  import opened Bytes
  import opened Division
  import opened Playout
  import opened PlayoutPull

  datatype Op = Push(seqNo: UInt64, pcm: seq<Byte>) | Pull(frames: nat) | Retarget(packets: nat)

  function Step(s: State, op: Op): State
    requires s.packetFrames > 0
  {
    match op
    case Push(seqNo, pcm) => s.Push(seqNo, pcm).0
    case Pull(frames) => s.Pull(frames)
    case Retarget(packets) => s.Retarget(packets)
  }

  lemma StepKeepsValid(s: State, op: Op)
    requires s.Valid()
    ensures Step(s, op).Valid()
    ensures Step(s, op).packetFrames == s.packetFrames && Step(s, op).bytesPerFrame == s.bytesPerFrame
  {
    match op
    case Push(seqNo, pcm) =>
      if Takes(s, seqNo, pcm) {
        PushMeaning(s, seqNo, pcm);
      } else {
        PushRefuses(s, seqNo, pcm);
      }
    case Pull(frames) => PullKeepsValid(s, frames);
    case Retarget(packets) => RetargetKeepsValid(s, packets);
  }

  /** The frames of the timeline, n of them from position p, whose packet is buffered. */
  function Audible(slots: Slots, packetFrames: nat, p: nat, n: nat): (qs: seq<nat>)
    requires packetFrames > 0
    ensures forall q | q in qs :: p <= q < p + n && q / packetFrames in slots
  {
    if n == 0 then [] else
      Audible(slots, packetFrames, p, n - 1)
      + (if (p + n - 1) / packetFrames in slots then [p + n - 1] else [])
  }

  /** The frames played by a step, as positions on the timeline. */
  function Played(s: State, op: Op): seq<nat>
    requires s.packetFrames > 0
  {
    if op.Pull? && s.primed then Audible(s.slots, s.packetFrames, s.Position(), op.frames) else []
  }

  ghost predicate Increasing(qs: seq<nat>) { forall i, j | 0 <= i < j < |qs| :: qs[i] < qs[j] }

  ghost predicate Distinct(qs: seq<nat>) { forall i, j | 0 <= i < j < |qs| :: qs[i] != qs[j] }

  lemma {:induction false} AudibleIncreases(slots: Slots, pf: nat, p: nat, n: nat)
    requires pf > 0
    ensures Increasing(Audible(slots, pf, p, n))
  {
    if n > 0 {
      AudibleIncreases(slots, pf, p, n - 1);
      var earlier := Audible(slots, pf, p, n - 1);
      assert forall i | 0 <= i < |earlier| :: earlier[i] in earlier;
    }
  }

  lemma AheadPosition(s: State, t: State)
    requires Ahead(s, t) && s.play.Some? && s.off < s.packetFrames && t.packetFrames == s.packetFrames
    ensures s.Position() <= t.Position()
  {
    if s.play.value < t.play.value {
      MulMonotone(s.play.value + 1, t.play.value, s.packetFrames);
      MulMonotone(s.play.value, s.play.value, s.packetFrames);
    }
  }

  lemma RetargetMeaning(s: State, packets: nat)
    requires s.Valid()
    ensures var t := s.Retarget(packets);
            && t.Valid() && Ahead(s, t)
            && (forall k | k in t.slots :: k in s.slots)
            && t.started == s.started && t.starved == s.starved && t.packetFrames == s.packetFrames
            && (s.play.None? ==> t.play.None?)
  {
    RetargetKeepsValid(s, packets);
    var target := Clamp(packets, 1, MAX_SLOTS);
    if target != s.target && s.play.Some? {
      var unprime := target > s.target && s.primed && s.QueuedFrames() < WrapMul(target, s.packetFrames);
      TrimCuts(s.(primed := s.primed && !unprime, target := target));
    }
  }

  /** Everything played so far lies behind the cursor, or in packets no longer buffered, and was pushed. */
  ghost predicate Behind(s: State, played: seq<nat>, pushed: set<nat>)
  {
    && s.Valid()
    && (forall k | k in s.slots :: k in pushed)
    && (forall q | q in played :: q / s.packetFrames in pushed)
    && (forall q | q in played && q / s.packetFrames in s.slots :: s.started && !s.starved && q < s.Position())
  }

  lemma BaseIsOld(s: State, seqNo: nat)
    requires s.Valid()
    ensures forall k | k in Base(s, seqNo) :: k in s.slots
  {
    BaseState(s, seqNo);
  }

  lemma TakenPacketJoins(s: State, seqNo: UInt64, pcm: seq<Byte>)
    requires s.Valid() && Takes(s, seqNo, pcm)
    ensures var t := s.Push(seqNo, pcm).0;
            && t.Valid() && t.packetFrames == s.packetFrames
            && (forall k | k in t.slots :: k == seqNo || k in s.slots)
            && (s.started && !s.starved ==> t.started && !t.starved && (s.play.Some? ==> s.Position() <= t.Position()))
  {
    var t := s.Push(seqNo, pcm).0;
    PushMeaning(s, seqNo, pcm);
    BaseIsOld(s, seqNo);
    if s.started && !s.starved && s.play.Some? {
      AheadPosition(s, t);
    }
  }

  /** What a push means for the packets: only the new one joins, and the old ones stay behind the same cursor. */
  lemma PushJoins(s: State, seqNo: UInt64, pcm: seq<Byte>)
    requires s.Valid()
    ensures var t := s.Push(seqNo, pcm).0;
            && t.Valid() && t.packetFrames == s.packetFrames
            && (forall k | k in t.slots :: k == seqNo || k in s.slots)
            && (s.started && !s.starved ==> t.started && !t.starved && (s.play.Some? ==> s.Position() <= t.Position()))
  {
    if Takes(s, seqNo, pcm) {
      TakenPacketJoins(s, seqNo, pcm);
    } else {
      PushRefuses(s, seqNo, pcm);
    }
  }

  lemma PushKeepsBehind(s: State, played: seq<nat>, pushed: set<nat>, seqNo: UInt64, pcm: seq<Byte>)
    requires Behind(s, played, pushed) && seqNo !in pushed
    ensures Behind(s.Push(seqNo, pcm).0, played, pushed + {seqNo})
  {
    PushJoins(s, seqNo, pcm);
  }

  lemma RetargetKeepsBehind(s: State, played: seq<nat>, pushed: set<nat>, packets: nat)
    requires Behind(s, played, pushed)
    ensures Behind(s.Retarget(packets), played, pushed)
  {
    RetargetMeaning(s, packets);
    if s.play.Some? {
      AheadPosition(s, s.Retarget(packets));
    }
  }

  lemma PullKeepsBehind(s: State, played: seq<nat>, pushed: set<nat>, n: nat)
    requires Behind(s, played, pushed) && s.primed
    ensures Behind(s.Pull(n), played + Audible(s.slots, s.packetFrames, s.Position(), n), pushed)
  {
    PullKeepsValid(s, n);
    if !s.Starves(n) {
      PlayedPosition(s, n, s.Position() + n);
    }
  }

  lemma ConcatDistinct(a: seq<nat>, b: seq<nat>)
    requires Distinct(a) && Increasing(b) && forall q | q in b :: q !in a
    ensures Distinct(a + b)
  {
    forall i, j | 0 <= i < j < |a + b|
      ensures (a + b)[i] != (a + b)[j]
    {
      if i < |a| <= j {
        assert (a + b)[j] == b[j - |a|] && b[j - |a|] in b;
      }
    }
  }

  lemma AppendDistinct(s: State, played: seq<nat>, pushed: set<nat>, n: nat)
    requires Behind(s, played, pushed) && Distinct(played)
    ensures Distinct(played + Audible(s.slots, s.packetFrames, s.Position(), n))
  {
    AudibleIncreases(s.slots, s.packetFrames, s.Position(), n);
    ConcatDistinct(played, Audible(s.slots, s.packetFrames, s.Position(), n));
  }

  /** The state after a run. */
  ghost function After(s: State, ops: seq<Op>): (t: State)
    requires s.Valid()
    ensures t.Valid() && t.packetFrames == s.packetFrames
  {
    if ops == [] then s else
      var t := After(s, ops[..|ops| - 1]);
      StepKeepsValid(t, ops[|ops| - 1]);
      Step(t, ops[|ops| - 1])
  }

  /** The frames played by a run, in order. */
  ghost function Log(s: State, ops: seq<Op>): seq<nat>
    requires s.Valid()
  {
    if ops == [] then [] else
      var n := |ops| - 1;
      Log(s, ops[..n]) + Played(After(s, ops[..n]), ops[n])
  }

  function PushedBy(ops: seq<Op>): set<nat>
  {
    if ops == [] then {} else
      var n := |ops| - 1;
      PushedBy(ops[..n]) + (if ops[n].Push? then {ops[n].seqNo} else {})
  }

  /** No sequence number is pushed a second time. */
  predicate PushesOnce(ops: seq<Op>)
  {
    ops == [] ||
    (var n := |ops| - 1;
     PushesOnce(ops[..n]) && (ops[n].Push? ==> ops[n].seqNo !in PushedBy(ops[..n])))
  }

  lemma StepKeepsBehind(s: State, played: seq<nat>, pushed: set<nat>, op: Op)
    requires Behind(s, played, pushed) && Distinct(played) && (op.Push? ==> op.seqNo !in pushed)
    ensures Behind(Step(s, op), played + Played(s, op), pushed + (if op.Push? then {op.seqNo} else {}))
    ensures Distinct(played + Played(s, op))
  {
    match op
    case Push(seqNo, pcm) =>
      assert played + Played(s, op) == played;
      PushKeepsBehind(s, played, pushed, seqNo, pcm);
    case Pull(frames) =>
      if s.primed {
        PullKeepsBehind(s, played, pushed, frames);
        AppendDistinct(s, played, pushed, frames);
      }
    case Retarget(packets) =>
      assert played + Played(s, op) == played;
      RetargetKeepsBehind(s, played, pushed, packets);
  }

  /** No frame is played twice, over any run that pushes no number twice: across late packets, evictions, jumps,
      retargets and starvation restarts. */
  lemma {:induction false} NoFrameIsPlayedTwice(s: State, ops: seq<Op>)
    requires s.Valid() && s.slots == map[] && PushesOnce(ops)
    ensures Distinct(Log(s, ops))
    ensures Behind(After(s, ops), Log(s, ops), PushedBy(ops))
  {
    if ops != [] {
      var n := |ops| - 1;
      NoFrameIsPlayedTwice(s, ops[..n]);
      StepKeepsBehind(After(s, ops[..n]), Log(s, ops[..n]), PushedBy(ops[..n]), ops[n]);
    }
  }

  /** The run neither runs dry nor reaches the last sequence number of 64 bits. */
  ghost predicate Uninterrupted(s: State, ops: seq<Op>)
    requires s.Valid()
  {
    ops == [] ||
    (var n := |ops| - 1;
     && Uninterrupted(s, ops[..n])
     && (ops[n].Pull? ==> !After(s, ops[..n]).Starves(ops[n].frames))
     && (ops[n].Push? ==> ops[n].seqNo < U64_MAX))
  }

  ghost predicate Playing(s: State)
  {
    s.Valid() && s.started && !s.starved && s.play.Some? && forall k | k in s.slots :: k < U64_MAX
  }

  /** One uninterrupted step moves the cursor forward, past everything that the step plays. */
  lemma StepMovesForward(s: State, op: Op)
    requires Playing(s)
    requires op.Pull? ==> !s.Starves(op.frames)
    requires op.Push? ==> op.seqNo < U64_MAX
    ensures Playing(Step(s, op)) && s.Position() <= Step(s, op).Position()
    ensures forall q | q in Played(s, op) :: s.Position() <= q < Step(s, op).Position()
  {
    match op
    case Push(seqNo, pcm) =>
      PushJoins(s, seqNo, pcm);
      if Takes(s, seqNo, pcm) {
        PushMeaning(s, seqNo, pcm);
      } else {
        PushRefuses(s, seqNo, pcm);
      }
    case Pull(n) =>
      PullKeepsValid(s, n);
      if s.primed {
        var q := s.Position() + n;
        PlayedPosition(s, n, q);
        EndIsAhead(s);
        if n > 0 {
          BeforeTheEnd(s, q);
        } else {
          CursorOfPosition(s);
        }
      }
    case Retarget(packets) =>
      RetargetMeaning(s, packets);
      AheadPosition(s, s.Retarget(packets));
  }

  lemma ConcatIncreasing(a: seq<nat>, b: seq<nat>, mid: nat)
    requires Increasing(a) && Increasing(b)
    requires (forall q | q in a :: q < mid) && (forall q | q in b :: mid <= q)
    ensures Increasing(a + b)
  {
    forall i, j | 0 <= i < j < |a + b|
      ensures (a + b)[i] < (a + b)[j]
    {
      if i < |a| <= j {
        assert (a + b)[i] in a && b[j - |a|] in b;
      }
    }
  }

  /** Between starvations playout never goes back: frames come out in strictly increasing order, under any pushes,
      evictions, jumps, trims, retargets and pulls. */
  lemma {:induction false} PlayoutNeverGoesBack(s: State, ops: seq<Op>)
    requires Playing(s) && Uninterrupted(s, ops)
    ensures Playing(After(s, ops)) && s.Position() <= After(s, ops).Position()
    ensures Increasing(Log(s, ops))
    ensures forall q | q in Log(s, ops) :: s.Position() <= q < After(s, ops).Position()
  {
    if ops != [] {
      var n := |ops| - 1;
      PlayoutNeverGoesBack(s, ops[..n]);
      var t := After(s, ops[..n]);
      StepMovesForward(t, ops[n]);
      if ops[n].Pull? {
        AudibleIncreases(t.slots, t.packetFrames, t.Position(), ops[n].frames);
      }
      ConcatIncreasing(Log(s, ops[..n]), Played(t, ops[n]), t.Position());
    }
  }
}
