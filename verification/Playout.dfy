/** The jitter buffer as a value: what each operation makes of the state, and what every state keeps. */
module Playout {
  import opened Bytes
  import opened Division

  const MAX_SLOTS := 32
  const START_TARGET := 4

  lemma {:induction false} LastKeyExists(s: set<nat>) returns (m: nat)
    requires s != {}
    ensures m in s && forall x | x in s :: x <= m
  {
    m :| m in s;
    if s != {m} {
      var rest := LastKeyExists(s - {m});
      assert s == s - {m} + {m};
      m := Max(m, rest);
    }
  }

  /** The last key of a non-empty ordered map. */
  function LastKey(s: set<nat>): (m: nat)
    requires s != {}
    ensures m in s && forall x | x in s :: x <= m
  {
    assert exists m: nat :: m in s && forall x | x in s :: x <= m by {
      var m := LastKeyExists(s);
    }
    var m: nat :| m in s && forall x | x in s :: x <= m;
    m
  }

  lemma {:induction false} FirstKeyExists(s: set<nat>) returns (m: nat)
    requires s != {}
    ensures m in s && forall x | x in s :: m <= x
  {
    m :| m in s;
    if s != {m} {
      var rest := FirstKeyExists(s - {m});
      assert s == s - {m} + {m};
      m := Min(m, rest);
    }
  }

  /** The first key of a non-empty ordered map. */
  function FirstKey(s: set<nat>): (m: nat)
    requires s != {}
    ensures m in s && forall x | x in s :: m <= x
  {
    assert exists m: nat :: m in s && forall x | x in s :: m <= x by {
      var m := FirstKeyExists(s);
    }
    var m: nat :| m in s && forall x | x in s :: m <= x;
    m
  }

  type Slots = map<nat, seq<Byte>>

  function KeepFrom(slots: Slots, lo: nat): (kept: Slots)
    ensures kept.Keys <= slots.Keys && |kept| <= |slots|
  {
    var kept := map k | k in slots && k >= lo :: slots[k];
    assert slots.Keys == kept.Keys + (slots.Keys - kept.Keys);
    kept
  }

  /** Packets missing among the sequence numbers from a up to, not including, b. */
  function AbsentPackets(slots: Slots, a: nat, b: nat): nat
    decreases b
  {
    if b <= a then 0 else AbsentPackets(slots, a, b - 1) + (if b - 1 in slots then 0 else 1)
  }

  /** Frames from position `from` on, n of them, whose packet is missing. */
  function ConcealedFrames(slots: Slots, packetFrames: nat, from: nat, n: nat): nat
    requires packetFrames > 0
  {
    if n == 0 then 0 else
      ConcealedFrames(slots, packetFrames, from, n - 1)
      + (if (from + n - 1) / packetFrames in slots then 0 else 1)
  }

  function Silence(n: nat): seq<Byte> { seq(n, _ => 0) }

  /** A target in milliseconds, in 5 ms packets, rounded up, between 4 and 30 of them. */
  function PacketsFor(ms: nat): nat { Clamp((Clamp(ms, 20, 150) + 4) / 5, 4, 30) }

  /** `a * b` on `usize`, which wraps. */
  function WrapMul(a: nat, b: nat): nat { a * b % U64_SPAN }

  datatype State = State(
    bytesPerFrame: nat, packetFrames: nat, target: nat,
    slots: Slots, primed: bool, starved: bool, started: bool,
    play: Option<nat>, off: nat,
    underruns: nat, starvations: nat, losses: nat, discarded: nat, arrived: nat)
  {
    /** What every run of pushes, pulls and retargets keeps. */
    ghost predicate Valid()
    {
      && bytesPerFrame >= 1 && packetFrames >= 1
      && 1 <= target <= MAX_SLOTS && |slots| <= MAX_SLOTS
      && (forall k | k in slots :: 1 <= k <= U64_MAX && |slots[k]| == bytesPerFrame * packetFrames)
      && off < packetFrames
      && (play.None? ==> slots == map[] && !primed && off == 0)
      && (play.Some? ==> play.value <= U64_MAX)
      && (play.Some? ==> forall k | k in slots :: play.value <= k <= play.value + target + 2)
      && (starved ==> play.None?)
      && (!started ==> off == 0)
    }

    function QueuedFrames(): nat
    {
      if slots == map[] then 0 else
        var last := LastKey(slots.Keys);
        var first := if play.Some? then play.value else FirstKey(slots.Keys);
        MinusSat(WrapMul(PlusSat(MinusSat(last, first), 1), packetFrames), off)
    }

    /** Drops what is more than target + 2 packets behind the newest one. */
    function Trimmed(): State
    {
      if slots == map[] || play.None? || target == 0 then this else
        var last := LastKey(slots.Keys);
        if MinusSat(last, play.value) <= target + 2 then this else
          var cut := MinusSat(last, target - 1);
          var kept := KeepFrom(slots, cut);
          this.(slots := kept, discarded := discarded + (|slots| - |kept|), play := Some(cut), off := 0)
    }

    function Retarget(packets: nat): State
    {
      var t := Clamp(packets, 1, MAX_SLOTS);
      if t == target then this else
        var unprime := t > target && primed && QueuedFrames() < WrapMul(t, packetFrames);
        this.(primed := primed && !unprime, target := t).Trimmed()
    }

    /** The first push after a starvation starts afresh. */
    function Restarted(): State
    {
      if !starved then this else
        this.(slots := map[], play := None, off := 0, primed := false, starved := false, started := false)
    }

    /** A number far ahead of the cursor clears the buffer. */
    function Jumped(seqNo: nat): State
    {
      if play.Some? && seqNo > PlusSat(play.value, 2 * MAX_SLOTS)
      then this.(slots := map[], play := None, off := 0, primed := false)
      else this
    }

    /** Drops the first packet; a cursor at or before it moves to the next one. */
    function WithoutFirst(): (s: State)
      requires |slots| > 1
      ensures |s.slots| == |slots| - 1
    {
      var first := FirstKey(slots.Keys);
      var rest := slots - {first};
      var pushed := play.Some? && play.value <= first;
      assert slots.Keys == rest.Keys + {first};
      this.(slots := rest, discarded := discarded + 1,
            play := if pushed then Some(FirstKey(rest.Keys)) else play,
            off := if pushed then 0 else off)
    }

    function Evicted(): State
      decreases |slots|
    {
      if |slots| <= MAX_SLOTS then this else WithoutFirst().Evicted()
    }

    /** Until playout starts, and after a jump, the cursor is the first buffered packet. */
    function Placed(): State
    {
      if play.None? || !started
      then this.(play := if slots == map[] then None else Some(FirstKey(slots.Keys)))
      else this
    }

    function Primed(): State
    {
      this.(primed := primed || QueuedFrames() >= WrapMul(target, packetFrames))
    }

    function Inserted(seqNo: nat, pcm: seq<Byte>): State
    {
      this.(slots := slots[seqNo := pcm], arrived := arrived + 1)
    }

    function Store(seqNo: nat, pcm: seq<Byte>): (State, bool)
    {
      if seqNo in slots then (this, false)
      else (Inserted(seqNo, pcm).Evicted().Placed().Primed().Trimmed(), true)
    }

    function Receive(seqNo: nat, pcm: seq<Byte>): (State, bool)
    {
      if play.Some? && seqNo < play.value && started then (this.(discarded := discarded + 1), false)
      else Jumped(seqNo).Store(seqNo, pcm)
    }

    /** The state after a push, and whether the packet was taken. */
    function Push(seqNo: nat, pcm: seq<Byte>): (State, bool)
    {
      if seqNo == 0 || |pcm| != bytesPerFrame * packetFrames then (this, false)
      else Restarted().Receive(seqNo, pcm)
    }

    /** The cursor as a frame number on the infinite timeline of packets 0, 1, 2, ... */
    function Position(): nat
    {
      if play.Some? then play.value * packetFrames + off else 0
    }

    /** The packet after the last buffered one; with nothing buffered, the cursor itself. */
    function EndPacket(): nat
      requires play.Some?
    {
      if slots == map[] then play.value else LastKey(slots.Keys) + 1
    }

    /** Frame q of the timeline: its bytes if its packet is buffered, else silence. */
    function Frame(q: nat): seq<Byte>
      requires packetFrames > 0
    {
      var k, at := q / packetFrames, q % packetFrames * bytesPerFrame;
      if k in slots && at + bytesPerFrame <= |slots[k]| then slots[k][at..at + bytesPerFrame]
      else Silence(bytesPerFrame)
    }

    /** n frames of the timeline from q on. */
    function Timeline(q: nat, n: nat): seq<Byte>
      requires packetFrames > 0
    {
      if n == 0 then [] else Timeline(q, n - 1) + Frame(q + n - 1)
    }

    /** What a pull of n frames emits: the timeline from the cursor on. */
    function Sound(n: nat): seq<Byte>
      requires packetFrames > 0
    {
      if primed then Timeline(Position(), n) else Silence(n * bytesPerFrame)
    }

    /** A pull runs dry if the buffer ends before the last frame asked for. */
    predicate Starves(n: nat)
    {
      primed && play.Some? && n > 0
      && (slots == map[] || Position() + n > EndPacket() * packetFrames)
    }

    /** Playout has moved on to a packet, with the frames concealed and the packets found missing on the way. */
    function Moved(next: nat, at: nat, concealed: nat, absent: nat): State
    {
      this.(slots := KeepFrom(slots, next), started := true, play := Some(Min(U64_MAX, next)), off := at,
            underruns := underruns + concealed, losses := losses + absent)
    }

    /** Playout has used up the buffer before it had the frames asked for. */
    function RanDry(concealed: nat, absent: nat): State
    {
      this.(slots := map[], primed := false, starved := true, started := true, play := None, off := 0,
            underruns := underruns + concealed, starvations := starvations + 1, losses := losses + absent)
    }

    /** Frames of an n-frame pull whose packet is missing. */
    function Concealed(n: nat): nat
      requires packetFrames > 0
    {
      ConcealedFrames(slots, packetFrames, Position(), n)
    }

    /** The state after a pull of n frames. */
    function Pull(n: nat): State
      requires packetFrames > 0
    {
      if !primed || play.None? then this
      else if Starves(n) then RanDry(Concealed(n), AbsentPackets(slots, play.value, EndPacket()))
      else
        var next := (Position() + n) / packetFrames;
        Moved(next, (Position() + n) % packetFrames, Concealed(n), AbsentPackets(slots, play.value, next))
    }
  }

  function Fresh(bytesPerFrame: nat, packetFrames: nat): (s: State)
    ensures s.Valid()
  {
    State(Max(bytesPerFrame, 1), Max(packetFrames, 1), START_TARGET, map[], false, false, false, None, 0, 0, 0, 0, 0, 0)
  }

  /** The cursor is the packet and the offset that its position stands for. */
  lemma CursorOfPosition(s: State)
    requires s.Valid() && s.play.Some?
    ensures s.Position() / s.packetFrames == s.play.value && s.Position() % s.packetFrames == s.off
  {
    DivMod(s.play.value, s.off, s.packetFrames);
  }

  /** `Valid`, with the newest packet any distance ahead of the cursor. */
  ghost predicate Untrimmed(s: State)
  {
    && s.bytesPerFrame >= 1 && s.packetFrames >= 1
    && 1 <= s.target <= MAX_SLOTS && |s.slots| <= MAX_SLOTS
    && (forall k | k in s.slots :: 1 <= k <= U64_MAX && |s.slots[k]| == s.bytesPerFrame * s.packetFrames)
    && s.off < s.packetFrames
    && (s.play.None? ==> s.slots == map[] && !s.primed && s.off == 0)
    && (s.play.Some? ==> s.play.value <= U64_MAX && forall k | k in s.slots :: s.play.value <= k)
    && (s.starved ==> s.play.None?)
    && (!s.started ==> s.off == 0)
  }

  lemma TrimKeepsValid(s: State)
    requires Untrimmed(s)
    ensures s.Trimmed().Valid()
  {
  }

  lemma RetargetKeepsValid(s: State, packets: nat)
    requires s.Valid()
    ensures s.Retarget(packets).Valid()
  {
    var t := Clamp(packets, 1, MAX_SLOTS);
    if t != s.target {
      var unprime := t > s.target && s.primed && s.QueuedFrames() < WrapMul(t, s.packetFrames);
      TrimKeepsValid(s.(primed := s.primed && !unprime, target := t));
    }
  }

  lemma PullKeepsValid(s: State, n: nat)
    requires s.Valid()
    ensures s.Pull(n).Valid()
  {
    if s.primed && !s.Starves(n) {
      CursorOfPosition(s);
      DivMonotone(s.Position(), s.Position() + n, s.packetFrames);
    }
  }

  /** The number pushed is refused as late: playout has passed it. */
  predicate Late(s: State, seqNo: nat)
  {
    s.play.Some? && s.started && seqNo < s.play.value
  }

  /** The packets a push starts from: nothing after a starvation or a jump. */
  function Base(s: State, seqNo: nat): Slots
  {
    s.Restarted().Jumped(seqNo).slots
  }

  /** The state just after a packet was put in, before the buffer is cut to size. */
  ghost predicate Overfull(s: State)
  {
    && s.bytesPerFrame >= 1 && s.packetFrames >= 1 && 1 <= s.target <= MAX_SLOTS
    && 1 <= |s.slots| <= MAX_SLOTS + 1
    && (forall k | k in s.slots :: 1 <= k <= U64_MAX && |s.slots[k]| == s.bytesPerFrame * s.packetFrames)
    && s.off < s.packetFrames && !s.starved
    && (s.play.None? ==> !s.primed && s.off == 0)
    && (s.play.Some? ==> s.play.value <= U64_MAX)
    && (s.play.Some? && s.started ==> forall k | k in s.slots :: s.play.value <= k)
    && (!s.started ==> s.off == 0)
  }

  /** b's cursor is at or past a's. */
  ghost predicate Ahead(a: State, b: State)
  {
    a.play.Some? ==>
      b.play.Some? && (b.play.value > a.play.value || (b.play.value == a.play.value && b.off == a.off))
  }

  /** From a to b only packets before b's cursor, and before all that stay, were dropped; all were counted. */
  ghost predicate Cut(a: State, b: State)
  {
    && (forall k | k in b.slots :: k in a.slots && b.slots[k] == a.slots[k])
    && (forall k | k in a.slots && k !in b.slots ::
          (b.play.Some? ==> k < b.play.value) && forall j | j in b.slots :: k < j)
    && b.discarded - a.discarded == |a.slots| - |b.slots|
    && b.(slots := a.slots, play := a.play, off := a.off, discarded := a.discarded) == a
  }

  /** The eviction loop removes the first packet of 33, and moves the cursor past it. */
  lemma EvictedIsOneStep(s: State)
    requires Overfull(s)
    ensures Overfull(s.Evicted()) && |s.Evicted().slots| <= MAX_SLOTS
    ensures Ahead(s, s.Evicted()) && Cut(s, s.Evicted())
    ensures s.play.None? ==> s.Evicted().play.None?
  {
    if |s.slots| > MAX_SLOTS {
      var first := FirstKey(s.slots.Keys);
      var rest := s.slots - {first};
      assert s.slots.Keys == rest.Keys + {first};
      var t := s.Evicted();
      assert t.slots == rest;
    }
  }

  lemma PlacedIsUntrimmed(s: State)
    requires Overfull(s) && |s.slots| <= MAX_SLOTS
    ensures Untrimmed(s.Placed()) && s.Placed().play.Some?
    ensures s.Placed().(play := s.play) == s
    ensures s.started ==> Ahead(s, s.Placed())
  {
  }

  lemma TrimCuts(s: State)
    requires Untrimmed(s) && s.play.Some?
    ensures Ahead(s, s.Trimmed()) && Cut(s, s.Trimmed())
    ensures s.slots != map[] ==> s.Trimmed().slots != map[]
  {
    if s.slots != map[] {
      var last := LastKey(s.slots.Keys);
      if MinusSat(last, s.play.value) > s.target + 2 {
        assert last in KeepFrom(s.slots, last - (s.target - 1));
      }
    }
  }

  /** A push takes its packet unless it is malformed, late or already buffered. */
  ghost predicate Takes(s: State, seqNo: nat, pcm: seq<Byte>)
  {
    && 1 <= seqNo && |pcm| == s.bytesPerFrame * s.packetFrames
    && !Late(s.Restarted(), seqNo) && seqNo !in Base(s, seqNo)
  }

  lemma BaseState(s: State, seqNo: nat)
    requires s.Valid()
    ensures var b := s.Restarted().Jumped(seqNo);
            && b.Valid() && !b.starved
            && (b.slots == map[] || b.slots == s.slots)
            && (b.play.Some? ==> b.play == s.play && b.off == s.off && b.started == s.started)
            && b.(slots := s.slots, primed := s.primed, starved := s.starved, started := s.started,
                  play := s.play, off := s.off) == s
  {
  }

  lemma InsertedIsOverfull(b: State, seqNo: nat, pcm: seq<Byte>)
    requires b.Valid() && !b.starved && 1 <= seqNo <= U64_MAX && |pcm| == b.bytesPerFrame * b.packetFrames
    requires seqNo !in b.slots && (b.play.Some? && b.started ==> b.play.value <= seqNo)
    ensures Overfull(b.Inserted(seqNo, pcm))
  {
    assert b.Inserted(seqNo, pcm).slots.Keys == b.slots.Keys + {seqNo};
  }

  /** Evicting and placing after an insertion. */
  lemma EvictAndPlace(c: State)
    requires Overfull(c)
    ensures var t := c.Evicted().Placed();
            && Untrimmed(t) && t.play.Some? && Cut(c, t) && (c.started ==> Ahead(c, t))
  {
    EvictedIsOneStep(c);
    PlacedIsUntrimmed(c.Evicted());
  }

  lemma CutTwice(a: State, b: State, c: State)
    requires Cut(a, b) && Cut(b, c) && Ahead(b, c) && b.play.Some?
    ensures Cut(a, c)
  {
  }

  lemma PrimeAndTrim(d: State)
    requires Untrimmed(d) && d.play.Some? && d.slots != map[]
    ensures var t := d.Primed().Trimmed();
            && t.Valid() && Ahead(d, t) && Cut(d.(primed := t.primed), t) && t.slots != map[]
  {
    TrimKeepsValid(d.Primed());
    TrimCuts(d.Primed());
  }

  lemma InsertedMeaning(c: State)
    requires Overfull(c)
    ensures var t := c.Evicted().Placed().Primed().Trimmed();
            && t.Valid() && t.play.Some? && t.slots != map[]
            && Cut(c.(primed := t.primed), t) && (c.started ==> Ahead(c, t))
  {
    EvictAndPlace(c);
    var d := c.Evicted().Placed();
    assert d.slots != map[];
    PrimeAndTrim(d);
    var t := d.Primed().Trimmed();
    CutTwice(c.(primed := t.primed), d.(primed := t.primed), t);
  }

  lemma CutIsKeepFrom(a: State, b: State)
    requires Cut(a, b) && b.play.Some? && forall k | k in b.slots :: b.play.value <= k
    ensures b.slots == KeepFrom(a.slots, b.play.value)
  {
  }

  lemma PushIs(s: State, seqNo: nat, pcm: seq<Byte>)
    requires Takes(s, seqNo, pcm)
    ensures s.Push(seqNo, pcm).1
    ensures s.Push(seqNo, pcm).0
         == s.Restarted().Jumped(seqNo).Inserted(seqNo, pcm).Evicted().Placed().Primed().Trimmed()
  {
  }

  /** Exactly what a push does when it takes its packet: after a reset where one is due, the packet is added,
      the cursor only moves forward, everything at or past the cursor stays, and the rest is counted as discarded. */
  lemma PushMeaning(s: State, seqNo: nat, pcm: seq<Byte>)
    requires s.Valid() && seqNo <= U64_MAX && Takes(s, seqNo, pcm)
    ensures var (t, ok) := s.Push(seqNo, pcm);
            var all := Base(s, seqNo)[seqNo := pcm];
            && ok && t.Valid() && t.play.Some?
            && t.slots == KeepFrom(all, t.play.value)
            && t.discarded == s.discarded + (|all| - |t.slots|)
            && t.arrived == s.arrived + 1
            && (s.started && !s.starved ==> Ahead(s, t))
            && t.started == (s.started && !s.starved) && !t.starved && t.target == s.target
            && t.underruns == s.underruns && t.starvations == s.starvations && t.losses == s.losses
            && t.bytesPerFrame == s.bytesPerFrame && t.packetFrames == s.packetFrames
  {
    BaseState(s, seqNo);
    var b := s.Restarted().Jumped(seqNo);
    var c := b.Inserted(seqNo, pcm);
    InsertedIsOverfull(b, seqNo, pcm);
    InsertedMeaning(c);
    var t := s.Push(seqNo, pcm).0;
    CutIsKeepFrom(c.(primed := t.primed), t);
    if s.play.Some? && c.play.None? && s.started && !s.starved {
      assert c.slots == map[seqNo := pcm];
      assert t.slots.Keys <= {seqNo};
    }
  }

  /** A refused push changes nothing but the pending restart and, for a late packet, the discard counter. */
  lemma PushRefuses(s: State, seqNo: nat, pcm: seq<Byte>)
    requires s.Valid() && !Takes(s, seqNo, pcm)
    ensures var (t, ok) := s.Push(seqNo, pcm);
            && !ok && t.Valid()
            && t.(discarded := s.discarded) ==
               (if seqNo >= 1 && |pcm| == s.bytesPerFrame * s.packetFrames then s.Restarted() else s)
            && t.discarded - s.discarded ==
               (if seqNo >= 1 && |pcm| == s.bytesPerFrame * s.packetFrames && Late(s.Restarted(), seqNo) then 1 else 0)
  {
  }
}
