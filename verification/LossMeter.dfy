/** Loss accounting of one peer's audio sequence, and the history it summarises. */
module LossMeter {
  import opened Bytes

  /** How far behind the newest packet a number may still arrive without counting as lost. */
  const SLACK := 32
  /** A jump of the horizon beyond this many numbers is accounted for in bulk. */
  const BULK := 48

  /** Number s arrived before any number that is more than the slack ahead of it. */
  ghost predicate InTime(history: seq<nat>, s: nat)
  {
    exists i :: 0 <= i < |history| && history[i] == s && MaxOf(history[..i]) <= s + SLACK
  }

  /** The numbers from 1 up to, not including, the bound that did not arrive in time. */
  ghost function Missed(history: seq<nat>, bound: nat): set<nat>
  {
    set s: nat | 1 <= s < bound && !InTime(history, s)
  }

  /** The first number that may still arrive in time. */
  function Horizon(largest: nat): nat { MinusSat(largest, SLACK) }

  lemma MaxOfPrefix(history: seq<nat>, i: nat)
    requires i <= |history|
    ensures MaxOf(history[..i]) <= MaxOf(history)
  {
    if i > 0 {
      assert MaxOf(history[..i]) in history;
    }
  }

  lemma MaxOfSnoc(history: seq<nat>, x: nat)
    ensures MaxOf(history + [x]) == Max(MaxOf(history), x)
  {
    assert (history + [x])[..|history|] == history;
  }

  /** A later arrival cannot rescue a number that is already behind the horizon. */
  lemma VerdictIsFinal(history: seq<nat>, x: nat, s: nat)
    requires s < Horizon(MaxOf(history))
    ensures InTime(history + [x], s) == InTime(history, s)
  {
    var more := history + [x];
    assert more[..|history|] == history;
    forall i | 0 <= i < |history|
      ensures more[..i] == history[..i]
    {
    }
  }

  /** At the horizon, arriving at all means arriving in time. */
  lemma InTimeAtTheHorizon(history: seq<nat>, x: nat, s: nat)
    requires MaxOf(history) <= s + SLACK && s != x
    ensures InTime(history + [x], s) <==> s in history
  {
    var more := history + [x];
    if s in history {
      var i :| 0 <= i < |history| && history[i] == s;
      assert more[..i] == history[..i];
      MaxOfPrefix(history, i);
      assert more[i] == s;
    }
  }

  ghost function Gaps(seen: set<nat>, lo: nat, hi: nat): set<nat>
  {
    set s: nat | lo <= s < hi && s !in seen
  }

  /** One arrival moves the verdicts forward: the old ones stand, and the new ones follow from who is here. */
  lemma MissedStep(history: seq<nat>, x: nat, cursor: nat, horizon: nat, seen: set<nat>)
    requires 1 <= cursor <= horizon && horizon <= Max(cursor, Horizon(Max(MaxOf(history), x)))
    requires Horizon(MaxOf(history)) <= cursor && (cursor > 1 ==> cursor == Horizon(MaxOf(history)))
    requires forall s: nat | cursor <= s < horizon :: s in seen <==> s in history
    ensures |Missed(history + [x], horizon)| == |Missed(history, cursor)| + |Gaps(seen, cursor, horizon)|
  {
    forall s: nat | 1 <= s < cursor
      ensures InTime(history + [x], s) == InTime(history, s)
    {
      VerdictIsFinal(history, x, s);
    }
    forall s: nat | cursor <= s < horizon
      ensures InTime(history + [x], s) <==> s in seen
    {
      InTimeAtTheHorizon(history, x, s);
    }
    assert Missed(history + [x], horizon) == Missed(history, cursor) + Gaps(seen, cursor, horizon);
    assert Missed(history, cursor) !! Gaps(seen, cursor, horizon);
  }

  /** A number that changes nothing: zero, or one already counted at or above the cursor. */
  lemma MissedUnchanged(history: seq<nat>, x: nat, cursor: nat)
    requires x <= MaxOf(history) && (cursor > 1 ==> cursor == Horizon(MaxOf(history)))
    ensures Missed(history + [x], cursor) == Missed(history, cursor)
  {
    forall s: nat | 1 <= s < cursor
      ensures InTime(history + [x], s) == InTime(history, s)
    {
      VerdictIsFinal(history, x, s);
    }
  }

  lemma {:induction false} GapsCount(seen: set<nat>, lo: nat, hi: nat)
    requires lo <= hi
    ensures |Gaps(seen, lo, hi)| == hi - lo - |set s | s in seen && lo <= s < hi|
    decreases hi - lo
  {
    var inside := set s | s in seen && lo <= s < hi;
    if lo < hi {
      GapsCount(seen, lo, hi - 1);
      var fewer := set s | s in seen && lo <= s < hi - 1;
      if hi - 1 in seen {
        assert inside == fewer + {hi - 1};
        assert Gaps(seen, lo, hi) == Gaps(seen, lo, hi - 1);
      } else {
        assert inside == fewer;
        assert Gaps(seen, lo, hi) == Gaps(seen, lo, hi - 1) + {hi - 1};
      }
    } else {
      assert inside == {} && Gaps(seen, lo, hi) == {};
    }
  }

  /** The counters summarise the whole arrival history. */
  ghost predicate Summary(history: seq<nat>, largest: nat, cursor: nat, seen: set<nat>, lost: nat)
  {
    && largest == MaxOf(history)
    && cursor == (if largest == 0 then 0 else Max(1, Horizon(largest)))
    && 0 !in seen
    && (forall s: nat | s >= cursor && s >= 1 :: s in seen <==> s in history)
    && (forall s | s in seen :: s in history)
    && lost == Min(U32_MAX, |Missed(history, cursor)|)
  }

  lemma SummaryUnchanged(history: seq<nat>, x: nat, largest: nat, cursor: nat, seen: set<nat>, lost: nat)
    requires Summary(history, largest, cursor, seen, lost) && (x == 0 || x in seen)
    ensures Summary(history + [x], largest, cursor, seen, lost)
  {
    MaxOfSnoc(history, x);
    MissedUnchanged(history, x, cursor);
  }

  /** From one summary to the next: the cursor moves to the new horizon and the gaps on the way are lost. */
  lemma SummaryStep(history: seq<nat>, x: nat, largest: nat, cursor: nat, seen: set<nat>, lost: nat,
                    cursor': nat, seen': set<nat>, lost': nat)
    requires Summary(history, largest, cursor, seen, lost) && x != 0 && x !in seen
    requires cursor' == Max(Max(1, cursor), Horizon(Max(largest, x)))
    requires lost' == Min(U32_MAX, lost + |Gaps(seen + {x}, Max(1, cursor), cursor')|)
    requires forall s: nat | s >= cursor' :: s in seen' <==> s in seen + {x}
    requires seen' <= seen + {x}
    ensures Summary(history + [x], Max(largest, x), cursor', seen', lost')
  {
    MaxOfSnoc(history, x);
    var from := Max(1, cursor);
    assert Missed(history, from) == Missed(history, cursor);
    assert x >= cursor' || x < from;
    MissedStep(history, x, from, cursor', seen + {x});
  }

  /** Reordering alone is never loss: if all of 1..n arrive, none more than 16 places from its turn, none is missed. */
  lemma SmallReorderingIsNotLoss(history: seq<nat>, n: nat)
    requires forall s: nat | 1 <= s <= n :: s in history
    requires forall i | 0 <= i < |history| :: 1 <= history[i] <= n && -16 <= history[i] - (i + 1) <= 16
    ensures Missed(history, Horizon(MaxOf(history))) == {}
  {
    assert MaxOf(history) <= n;
    forall s: nat | 1 <= s < Horizon(MaxOf(history))
      ensures InTime(history, s)
    {
      assert s in history;
      var i :| 0 <= i < |history| && history[i] == s;
      if i > 0 {
        var j :| 0 <= j < i && history[..i][j] == MaxOf(history[..i]);
        assert history[j] <= j + 17 && i <= s + 15;
      }
      assert MaxOf(history[..i]) <= s + SLACK;
    }
  }

  /** The set of remembered numbers stays small: at most 33 lie at or above the cursor. */
  lemma FewNumbersAboveTheCursor(history: seq<nat>, largest: nat, cursor: nat, seen: set<nat>, lost: nat)
    requires Summary(history, largest, cursor, seen, lost)
    ensures |set s | s in seen && s >= cursor| <= SLACK + 1
  {
    var above := set s | s in seen && s >= cursor;
    GapsCount(above, cursor, largest + 1);
    assert above == set s | s in above && cursor <= s < largest + 1;
  }

  /** The counters as a value. */
  datatype Tally = Tally(received: UInt32, lost: UInt32, maxAudioSeq: UInt64, lossCursor: nat, seenAudio: set<nat>)
  {
    /** The tally after a number arrives. */
    function Observed(seqNo: UInt64): Tally
    {
      if seqNo == 0 || seqNo in seenAudio then this else
        var t := Entered(seqNo);
        var horizon := Horizon(t.maxAudioSeq);
        if horizon > PlusSat(t.lossCursor, BULK) then t.InBulk(horizon) else t.OneByOne(horizon)
    }

    /** The number is remembered and counted; the cursor stays. */
    function Entered(seqNo: UInt64): Tally
    {
      Tally(Min(U32_MAX, received + 1), lost, Max(maxAudioSeq, seqNo), if lossCursor == 0 then 1 else lossCursor,
            seenAudio + {seqNo})
    }

    /** The cursor jumps to the horizon; everything below it is forgotten. */
    function InBulk(horizon: nat): Tally
    {
      var seen := |set s | s in seenAudio && lossCursor <= s < horizon|;
      this.(lost := Min(U32_MAX, lost + Min(U32_MAX, MinusSat(MinusSat(horizon, lossCursor), seen))),
            seenAudio := (set s | s in seenAudio && s >= horizon), lossCursor := horizon)
    }

    /** The cursor passes one number, which is forgotten if it is here and lost if it is not. */
    function OneStep(): Tally
    {
      this.(lost := if lossCursor in seenAudio then lost else Min(U32_MAX, lost + 1),
            seenAudio := seenAudio - {lossCursor}, lossCursor := lossCursor + 1)
    }

    function OneByOne(horizon: nat): Tally
      decreases horizon - lossCursor
    {
      if lossCursor < horizon then OneStep().OneByOne(horizon) else this
    }

    /** The tally summarises an arrival history. */
    ghost predicate Sums(history: seq<nat>)
    {
      Summary(history, maxAudioSeq, lossCursor, seenAudio, lost)
    }
  }

  const NOTHING_YET := Tally(0, 0, 0, 0, {})

  /** Both ways to move the cursor: the gaps below the horizon are lost, the numbers from there on stay. */
  ghost predicate Advanced(t: Tally, t': Tally, horizon: nat)
  {
    && t'.lossCursor == Max(t.lossCursor, horizon)
    && t'.lost == Min(U32_MAX, t.lost + |Gaps(t.seenAudio, t.lossCursor, t'.lossCursor)|)
    && (forall s: nat | s >= t'.lossCursor :: s in t'.seenAudio <==> s in t.seenAudio)
    && t'.seenAudio <= t.seenAudio
    && t'.maxAudioSeq == t.maxAudioSeq && t'.received == t.received
  }

  lemma InBulkAdvances(t: Tally, horizon: nat)
    requires t.lossCursor <= horizon
    ensures Advanced(t, t.InBulk(horizon), horizon)
  {
    GapsCount(t.seenAudio, t.lossCursor, horizon);
  }

  lemma GapsFromNext(seen: set<nat>, lo: nat, hi: nat)
    requires lo < hi
    ensures |Gaps(seen, lo, hi)| == |Gaps(seen - {lo}, lo + 1, hi)| + (if lo in seen then 0 else 1)
  {
    var rest := Gaps(seen - {lo}, lo + 1, hi);
    if lo in seen {
      assert Gaps(seen, lo, hi) == rest;
    } else {
      assert Gaps(seen, lo, hi) == rest + {lo};
    }
  }

  lemma {:induction false} OneByOneAdvances(t: Tally, horizon: nat)
    ensures Advanced(t, t.OneByOne(horizon), horizon)
    decreases horizon - t.lossCursor
  {
    if t.lossCursor < horizon {
      var u := t.OneStep();
      OneByOneAdvances(u, horizon);
      GapsFromNext(t.seenAudio, t.lossCursor, horizon);
    } else {
      assert Gaps(t.seenAudio, t.lossCursor, t.lossCursor) == {};
    }
  }

  /** What the cursor passes is forgotten; the bulk path forgets stragglers from before it, too. */
  lemma {:induction false} PassedIsForgotten(t: Tally, horizon: nat)
    requires t.lossCursor <= horizon
    ensures t.InBulk(horizon).seenAudio == set s | s in t.seenAudio && s >= horizon
    ensures t.OneByOne(horizon).seenAudio == set s | s in t.seenAudio && !(t.lossCursor <= s < horizon)
    decreases horizon - t.lossCursor
  {
    if t.lossCursor < horizon {
      PassedIsForgotten(t.OneStep(), horizon);
    }
  }

  /** Whatever arrives, the tally goes on summarising the whole history: the bulk path and the loop agree. */
  lemma TallySumsHistory(t: Tally, history: seq<nat>, x: UInt64)
    requires t.Sums(history)
    ensures t.Observed(x).Sums(history + [x])
  {
    if x == 0 || x in t.seenAudio {
      SummaryUnchanged(history, x, t.maxAudioSeq, t.lossCursor, t.seenAudio, t.lost);
    } else {
      var u := t.Entered(x);
      var horizon := Horizon(u.maxAudioSeq);
      var v := t.Observed(x);
      if horizon > PlusSat(u.lossCursor, BULK) {
        InBulkAdvances(u, horizon);
      } else {
        OneByOneAdvances(u, horizon);
      }
      assert Advanced(u, v, horizon);
      SummaryStep(history, x, t.maxAudioSeq, t.lossCursor, t.seenAudio, t.lost, v.lossCursor, v.seenAudio, v.lost);
    }
  }

  lemma NothingSums()
    ensures NOTHING_YET.Sums([])
  {
    assert Missed([], 0) == {};
  }

  class Meter {
    var received: UInt32
    var lost: UInt32
    var maxAudioSeq: UInt64
    var lossCursor: nat
    var seenAudio: set<nat>
    ghost var history: seq<nat>

    function Now(): Tally
      reads this
    {
      Tally(received, lost, maxAudioSeq, lossCursor, seenAudio)
    }

    ghost predicate Valid()
      reads this
    {
      Now().Sums(history)
    }

    constructor ()
      ensures Valid() && history == [] && Now() == NOTHING_YET
    {
      received, lost, maxAudioSeq, lossCursor, seenAudio := 0, 0, 0, 0, {};
      history := [];
      new;
      NothingSums();
    }

    method Observe(seqNo: UInt64)
      requires Valid()
      modifies this
      ensures Valid() && history == old(history) + [seqNo] && Now() == old(Now()).Observed(seqNo)
    {
      TallySumsHistory(Now(), history, seqNo);
      history := history + [seqNo];
      if seqNo == 0 || seqNo in seenAudio {
        return;
      }
      Enter(seqNo);
      var horizon := MinusSat(maxAudioSeq, SLACK);
      if horizon > PlusSat(lossCursor, BULK) {
        AdvanceInBulk(horizon);
      } else {
        AdvanceOneByOne(horizon);
      }
    }

    /** Remembers and counts a new number. */
    method Enter(seqNo: UInt64)
      requires seqNo != 0 && seqNo !in seenAudio
      modifies this`received, this`maxAudioSeq, this`lossCursor, this`seenAudio
      ensures Now() == old(Now()).Entered(seqNo)
    {
      seenAudio := seenAudio + {seqNo};
      received := Min(U32_MAX, received + 1);
      if seqNo > maxAudioSeq {
        maxAudioSeq := seqNo;
      }
      if lossCursor == 0 {
        lossCursor := 1;
      }
    }

    method AdvanceInBulk(horizon: nat)
      requires lossCursor <= horizon
      modifies this`lost, this`seenAudio, this`lossCursor
      ensures Now() == old(Now()).InBulk(horizon) && Advanced(old(Now()), Now(), horizon)
    {
      InBulkAdvances(Now(), horizon);
      var seen := |set s | s in seenAudio && lossCursor <= s < horizon|;
      var span := horizon - lossCursor;
      lost := Min(U32_MAX, lost + Min(U32_MAX, MinusSat(span, seen)));
      seenAudio := set s | s in seenAudio && s >= horizon;
      lossCursor := horizon;
    }

    method AdvanceOneByOne(horizon: nat)
      modifies this`lost, this`seenAudio, this`lossCursor
      ensures Now() == old(Now()).OneByOne(horizon) && Advanced(old(Now()), Now(), horizon)
    {
      OneByOneAdvances(Now(), horizon);
      while lossCursor < horizon
        invariant Now().OneByOne(horizon) == old(Now()).OneByOne(horizon)
      {
        if lossCursor in seenAudio {
          seenAudio := seenAudio - {lossCursor};
        } else {
          assert seenAudio - {lossCursor} == seenAudio;
          lost := Min(U32_MAX, lost + 1);
        }
        lossCursor := lossCursor + 1;
      }
    }
  }
}
