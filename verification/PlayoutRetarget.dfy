/** What a new latency target does to the buffer. */
module PlayoutRetarget {
  import opened Bytes
  import opened Division
  import opened Playout
  import opened PlayoutPriming

  /** The cursor under a new target: at the start of the last `target` numbers if the newest packet is too far ahead. */
  function CursorUnder(s: State, target: nat): (Option<nat>, nat)
    requires target >= 1
  {
    if s.slots != map[] && s.play.Some? && LastKey(s.slots.Keys) > s.play.value + target + 2
    then (Some(MinusSat(LastKey(s.slots.Keys), target - 1)), 0)
    else (s.play, s.off)
  }

  /** Packets before the cursor go and are counted; a buffer that has too little for a larger target must fill up again;
      nothing else changes. */
  lemma RetargetExactly(s: State, packets: nat)
    requires s.Valid()
    ensures var t, n := s.Retarget(packets), Clamp(packets, 1, MAX_SLOTS);
            && t.target == n && (t.play, t.off) == CursorUnder(s, n)
            && t.slots == (if t.play.Some? then KeepFrom(s.slots, t.play.value) else s.slots)
            && t.discarded == s.discarded + (|s.slots| - |t.slots|)
            && (t.primed <==> s.primed && (n <= s.target || s.QueuedFrames() >= WrapMul(n, s.packetFrames)))
            && t == s.(target := n, play := t.play, off := t.off, slots := t.slots, discarded := t.discarded, primed := t.primed)
  {
    if s.play.Some? && CursorUnder(s, Clamp(packets, 1, MAX_SLOTS)).0 == s.play {
      assert KeepFrom(s.slots, s.play.value) == s.slots;
    }
  }

  lemma Distribute(a: nat, b: nat, m: nat)
    requires b <= a
    ensures (a - b) * m == a * m - b * m
  {
  }

  /** What is queued is the way from the cursor to the end of the newest packet. */
  lemma QueueIsTheWay(s: State)
    requires s.Valid() && Fits(s) && s.slots != map[]
    ensures s.QueuedFrames() == (LastKey(s.slots.Keys) + 1) * s.packetFrames - s.Position()
  {
    var last := LastKey(s.slots.Keys);
    QueueOf(s, last - s.play.value + 1);
    Distribute(last + 1, s.play.value, s.packetFrames);
    MulMonotone(s.play.value + 1, last + 1, s.packetFrames);
    MulMonotone(s.play.value, s.play.value, s.packetFrames);
  }

  lemma NothingIsQueued(s: State)
    ensures s.slots == map[] ==> s.QueuedFrames() == 0
  {
  }

  /** A larger target stops playout exactly if the way to the end of the queue is shorter than it. */
  lemma LargerTargetUnprimesIff(s: State, packets: nat)
    requires s.Valid() && Fits(s) && s.primed && s.slots != map[]
    ensures var n := Clamp(packets, 1, MAX_SLOTS);
            s.Retarget(packets).primed
            <==> n <= s.target || s.Position() + n * s.packetFrames <= (LastKey(s.slots.Keys) + 1) * s.packetFrames
  {
    RetargetExactly(s, packets);
    QueueIsTheWay(s);
    TargetOf(s.(target := Clamp(packets, 1, MAX_SLOTS)));
  }
}
