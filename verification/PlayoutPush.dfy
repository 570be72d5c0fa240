/** Exactly when a push primes the buffer and where it leaves the cursor before trimming. */
module PlayoutPush {
  import opened Bytes
  import opened Playout
  import opened PlayoutLedger

  /** What is left of 33 packets: all but the first. */
  function Kept(all: Slots): (kept: Slots)
    requires all != map[]
    ensures all.Keys == if |all| > MAX_SLOTS then kept.Keys + {FirstKey(all.Keys)} else kept.Keys
    ensures kept != map[]
  {
    if |all| > MAX_SLOTS then
      assert all.Keys == (all - {FirstKey(all.Keys)}).Keys + {FirstKey(all.Keys)};
      all - {FirstKey(all.Keys)}
    else all
  }

  /** The packets buffered once the new one is in. */
  function WithNew(s: State, seqNo: nat, pcm: seq<Byte>): (all: Slots)
    ensures all != map[]
  {
    assert seqNo in (if Jumps(s, seqNo) then map[] else s.slots)[seqNo := pcm];
    (if Jumps(s, seqNo) then map[] else s.slots)[seqNo := pcm]
  }

  /** Playout has begun, and goes on: no restart, no jump, and the packet at the cursor is not the one evicted. */
  predicate GoesOn(s: State, seqNo: nat, pcm: seq<Byte>)
  {
    && s.started && !s.starved && s.play.Some? && !Jumps(s, seqNo)
    && var all := WithNew(s, seqNo, pcm); |all| <= MAX_SLOTS || s.play.value > FirstKey(all.Keys)
  }

  /** The cursor a push leaves, before trimming: where it was if playout goes on, else the first packet. */
  function CursorFor(s: State, seqNo: nat, pcm: seq<Byte>): (nat, nat)
  {
    if GoesOn(s, seqNo, pcm) then (s.play.value, s.off) else (FirstKey(Kept(WithNew(s, seqNo, pcm)).Keys), 0)
  }

  /** Frames from that cursor to the end of the newest packet. */
  function QueuedFor(s: State, seqNo: nat, pcm: seq<Byte>): nat
  {
    var (cursor, off) := CursorFor(s, seqNo, pcm);
    MinusSat(WrapMul(PlusSat(MinusSat(LastKey(Kept(WithNew(s, seqNo, pcm)).Keys), cursor), 1), s.packetFrames), off)
  }

  lemma EvictedKeeps(c: State)
    requires Overfull(c) && c.slots != map[]
    ensures c.Evicted().slots == Kept(c.slots)
    ensures var e := c.Evicted();
            && e.packetFrames == c.packetFrames && e.started == c.started && e.primed == c.primed && e.target == c.target
            && (c.play.Some? && (|c.slots| <= MAX_SLOTS || c.play.value > FirstKey(c.slots.Keys)) ==>
                  e.play == c.play && e.off == c.off)
            && (c.play.Some? && |c.slots| > MAX_SLOTS && c.play.value <= FirstKey(c.slots.Keys) ==>
                  e.play == Some(FirstKey(e.slots.Keys)) && e.off == 0)
            && (c.play.None? ==> e.play.None? && e.off == c.off)
  {
    EvictedIsOneStep(c);
    if |c.slots| > MAX_SLOTS {
      assert c.Evicted() == c.WithoutFirst();
    }
  }

  lemma InsertedFor(s: State, seqNo: UInt64, pcm: seq<Byte>)
    requires s.Valid() && Takes(s, seqNo, pcm)
    ensures var c := s.Restarted().Jumped(seqNo).Inserted(seqNo, pcm);
            && Overfull(c) && c.slots == WithNew(s, seqNo, pcm) && c.packetFrames == s.packetFrames && c.target == s.target
            && (c.started <==> s.started && !s.starved) && (c.primed <==> s.primed && !Jumps(s, seqNo))
            && c.play == (if s.starved || Jumps(s, seqNo) then None else s.play)
            && c.off == (if s.starved || Jumps(s, seqNo) then 0 else s.off)
  {
    BaseIs(s, seqNo);
    BaseState(s, seqNo);
    InsertedIsOverfull(s.Restarted().Jumped(seqNo), seqNo, pcm);
  }

  lemma PlacedFor(s: State, seqNo: UInt64, pcm: seq<Byte>)
    requires s.Valid() && Takes(s, seqNo, pcm)
    ensures var d := s.Restarted().Jumped(seqNo).Inserted(seqNo, pcm).Evicted().Placed();
            && d.slots == Kept(WithNew(s, seqNo, pcm)) && d.packetFrames == s.packetFrames && d.target == s.target
            && (d.primed <==> s.primed && !Jumps(s, seqNo))
            && (d.play, d.off) == (Some(CursorFor(s, seqNo, pcm).0), CursorFor(s, seqNo, pcm).1)
  {
    InsertedFor(s, seqNo, pcm);
    EvictedKeeps(s.Restarted().Jumped(seqNo).Inserted(seqNo, pcm));
  }

  /** A push that takes its packet leaves the buffer primed exactly if it was and no jump empties it, or the queue from the
      cursor reaches the target. */
  lemma PushPrimesIff(s: State, seqNo: UInt64, pcm: seq<Byte>)
    requires s.Valid() && Takes(s, seqNo, pcm)
    ensures s.Push(seqNo, pcm).0.primed
            <==> (s.primed && !Jumps(s, seqNo)) || QueuedFor(s, seqNo, pcm) >= WrapMul(s.target, s.packetFrames)
  {
    PushIs(s, seqNo, pcm);
    PlacedFor(s, seqNo, pcm);
  }

  /** The cursor after trimming: at the start of the last `target` numbers if the newest packet is more than target + 2 ahead of
      where it was, else there. */
  predicate CursorLeft(t: State, last: nat, cursor: nat, off: nat, target: nat)
  {
    if last > cursor + target + 2 then t.play.Some? && t.play.value == last - (target - 1) && t.off == 0
    else t.play == Some(cursor) && t.off == off
  }

  lemma TrimmedCursor(d: State, t: State, last: nat, cursor: nat, off: nat)
    requires d.slots != map[] && last == LastKey(d.slots.Keys) && d.play == Some(cursor) && d.off == off
    requires d.target >= 1 && t == d.Primed().Trimmed()
    ensures CursorLeft(t, last, cursor, off, d.target)
  {
  }

  /** The buffer just before priming and trimming. */
  lemma BeforeTrimming(s: State, seqNo: UInt64, pcm: seq<Byte>) returns (d: State)
    requires s.Valid() && Takes(s, seqNo, pcm)
    ensures s.Push(seqNo, pcm).0 == d.Primed().Trimmed() && d.slots == Kept(WithNew(s, seqNo, pcm)) && d.target == s.target
    ensures (d.play, d.off) == (Some(CursorFor(s, seqNo, pcm).0), CursorFor(s, seqNo, pcm).1)
  {
    PlacedFor(s, seqNo, pcm);
    PushIs(s, seqNo, pcm);
    d := s.Restarted().Jumped(seqNo).Inserted(seqNo, pcm).Evicted().Placed();
  }

  /** The cursor that a push leaves. */
  lemma PushCursor(s: State, seqNo: UInt64, pcm: seq<Byte>)
    requires s.Valid() && Takes(s, seqNo, pcm)
    ensures var last, c := LastKey(Kept(WithNew(s, seqNo, pcm)).Keys), CursorFor(s, seqNo, pcm);
            CursorLeft(s.Push(seqNo, pcm).0, last, c.0, c.1, s.target)
  {
    var d := BeforeTrimming(s, seqNo, pcm);
    var c := CursorFor(s, seqNo, pcm);
    TrimmedCursor(d, s.Push(seqNo, pcm).0, LastKey(Kept(WithNew(s, seqNo, pcm)).Keys), c.0, c.1);
  }
}
