/** What a pull counts: frames concealed, packets found missing, and running dry. */
module PlayoutCounts {
  import opened Playout
  import opened PlayoutRuns

  /** The packets of a stretch that are not buffered. */
  function Missing(slots: Slots, lo: nat, hi: nat): set<nat>
  {
    set k: nat | lo <= k < hi && k !in slots
  }

  lemma {:induction false} AbsentAreMissing(slots: Slots, lo: nat, hi: nat)
    ensures AbsentPackets(slots, lo, hi) == |Missing(slots, lo, hi)|
    decreases hi
  {
    if hi <= lo {
      assert Missing(slots, lo, hi) == {};
    } else {
      AbsentAreMissing(slots, lo, hi - 1);
      if hi - 1 in slots {
        assert Missing(slots, lo, hi) == Missing(slots, lo, hi - 1);
      } else {
        assert Missing(slots, lo, hi) == Missing(slots, lo, hi - 1) + {hi - 1};
      }
    }
  }

  /** Every frame of a stretch is audible or concealed. */
  lemma {:induction false} ConcealedAreTheRest(slots: Slots, pf: nat, p: nat, n: nat)
    requires pf > 0
    ensures |Audible(slots, pf, p, n)| + ConcealedFrames(slots, pf, p, n) == n
  {
    if n > 0 {
      ConcealedAreTheRest(slots, pf, p, n - 1);
    }
  }

  /** The first packet that a pull does not pass. */
  function PassedUpTo(s: State, n: nat): nat
    requires s.packetFrames > 0 && s.play.Some?
  {
    if s.Starves(n) then s.EndPacket() else (s.Position() + n) / s.packetFrames
  }

  /** An unprimed buffer is left alone. A pull from a primed one starts playout, counts as underrun each frame that it does not
      play and as lost each packet that it passes and does not have; it counts as starved, and stops playout until the
      buffer has filled up again, exactly if it runs dry. */
  lemma PullCounts(s: State, n: nat)
    requires s.Valid()
    ensures var t := s.Pull(n);
            && (!s.primed ==> t == s)
            && (s.primed ==>
                  && s.play.Some? && t.started
                  && t.underruns == s.underruns + (n - |Played(s, Op.Pull(n))|)
                  && t.losses == s.losses + |Missing(s.slots, s.play.value, PassedUpTo(s, n))|
                  && t.starvations == s.starvations + (if s.Starves(n) then 1 else 0)
                  && (t.starved <==> s.Starves(n)) && (t.primed <==> !s.Starves(n)))
            && t.target == s.target && t.arrived == s.arrived && t.discarded == s.discarded
            && t.bytesPerFrame == s.bytesPerFrame && t.packetFrames == s.packetFrames
  {
    if s.primed {
      ConcealedAreTheRest(s.slots, s.packetFrames, s.Position(), n);
      AbsentAreMissing(s.slots, s.play.value, PassedUpTo(s, n));
    }
  }
}
