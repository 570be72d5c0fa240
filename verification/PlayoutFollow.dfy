/** What becomes of one buffered packet over a run: its frames are played, or still wait. */
module PlayoutFollow {
  import opened Bytes
  import opened Division
  import opened Playout
  import opened PlayoutLedger
  import opened PlayoutPull
  import opened PlayoutPush
  import opened PlayoutRuns

  /** The cursor has stayed where it was, or stands at the start of a packet. */
  predicate Resets(s: State, t: State)
  {
    t.off == 0 || (t.play == s.play && t.off == s.off)
  }

  lemma TrimResets(s: State)
    ensures Resets(s, s.Trimmed())
  {
  }

  /** A push that moves the cursor leaves it at the start of a packet. */
  lemma PushResets(s: State, seqNo: UInt64, pcm: seq<Byte>)
    requires s.Valid()
    ensures Resets(s, s.Push(seqNo, pcm).0)
  {
    if Takes(s, seqNo, pcm) {
      PushIs(s, seqNo, pcm);
      PlacedFor(s, seqNo, pcm);
      TrimResets(s.Restarted().Jumped(seqNo).Inserted(seqNo, pcm).Evicted().Placed().Primed());
    } else {
      PushRefuses(s, seqNo, pcm);
    }
  }

  lemma RetargetResets(s: State, packets: nat)
    ensures Resets(s, s.Retarget(packets))
  {
    var t := Clamp(packets, 1, MAX_SLOTS);
    TrimResets(s.(primed := s.Retarget(packets).primed, target := t));
  }

  /** Frame q belongs to a buffered packet, and the cursor has not passed it. */
  predicate Waits(s: State, q: nat)
    requires s.packetFrames > 0
  {
    q / s.packetFrames in s.slots && q >= s.Position()
  }

  lemma ResetStillWaits(s: State, t: State, q: nat)
    requires s.Valid() && t.Valid() && t.packetFrames == s.packetFrames && Resets(s, t)
    requires Waits(s, q) && q / s.packetFrames in t.slots
    ensures Waits(t, q)
  {
    var k := q / s.packetFrames;
    Recompose(q, s.packetFrames);
    MulMonotone(t.play.value, k, s.packetFrames);
  }

  lemma PullPlaysOrWaits(s: State, n: nat, q: nat)
    requires s.Valid() && Waits(s, q)
    ensures q in Played(s, Op.Pull(n)) || Waits(s.Pull(n), q)
  {
    var k, at := q / s.packetFrames, q % s.packetFrames;
    Recompose(q, s.packetFrames);
    if k !in s.Pull(n).slots {
      TakenIsPlayed(s, n, k, at);
    } else if s.primed {
      PlayedPosition(s, n, s.Position() + n);
      if q < s.Position() + n {
        AudibleHas(s.slots, s.packetFrames, s.Position(), n, q);
      }
    }
  }

  /** The operation does not drop packet k: it is a pull, or k stays. */
  predicate Spares(s: State, op: Op, k: nat)
    requires s.packetFrames > 0
  {
    op.Pull? || k !in s.slots || k in Step(s, op).slots
  }

  /** No push or retarget of the run drops packet k. */
  ghost predicate AllSpare(s: State, ops: seq<Op>, k: nat)
    requires s.Valid()
  {
    ops == [] ||
    (var n := |ops| - 1;
     AllSpare(s, ops[..n], k) && Spares(After(s, ops[..n]), ops[n], k))
  }

  lemma StepPlaysOrWaits(s: State, op: Op, q: nat)
    requires s.Valid() && Waits(s, q) && Spares(s, op, q / s.packetFrames)
    ensures q in Played(s, op) || (Step(s, op).packetFrames == s.packetFrames && Waits(Step(s, op), q))
  {
    StepKeepsValid(s, op);
    match op
    case Push(seqNo, pcm) =>
      PushResets(s, seqNo, pcm);
      ResetStillWaits(s, Step(s, op), q);
    case Pull(frames) => PullPlaysOrWaits(s, frames, q);
    case Retarget(packets) =>
      RetargetResets(s, packets);
      ResetStillWaits(s, Step(s, op), q);
  }

  /** The dual of playing nothing twice: over any run whose pushes and retargets do not drop its packet, a frame that waits
      is played, or waits still. */
  lemma {:induction false} WaitingIsPlayedOrWaits(s: State, ops: seq<Op>, q: nat)
    requires s.Valid() && Waits(s, q) && AllSpare(s, ops, q / s.packetFrames)
    ensures q in Log(s, ops) || Waits(After(s, ops), q)
  {
    if ops != [] {
      var n := |ops| - 1;
      WaitingIsPlayedOrWaits(s, ops[..n], q);
      if Waits(After(s, ops[..n]), q) {
        StepPlaysOrWaits(After(s, ops[..n]), ops[n], q);
      }
    }
  }
}
