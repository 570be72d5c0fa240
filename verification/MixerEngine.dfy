/** The mixer's stream registry: a list of streams, at most one for each id. */
module MixerEngine {
  import opened Bytes
  import opened Utf8
  import opened Wire
  import opened ReceiverModel
  import Playout

  datatype Entry = Entry(id: Id, stream: Stream)

  ghost predicate Unique(entries: seq<Entry>)
  {
    forall i, j | 0 <= i < j < |entries| :: entries[i].id != entries[j].id
  }

  /** The streams by id. */
  function Table(entries: seq<Entry>): Streams
  {
    if entries == [] then map[] else
      var last := entries[|entries| - 1];
      Table(entries[..|entries| - 1])[last.id := last.stream]
  }

  lemma {:induction false} TableAt(entries: seq<Entry>, i: nat)
    requires Unique(entries) && i < |entries|
    ensures entries[i].id in Table(entries) && Table(entries)[entries[i].id] == entries[i].stream
  {
    var n := |entries| - 1;
    if i < n {
      TableAt(entries[..n], i);
    }
  }

  /** The place of an id that is in the table. */
  lemma {:induction false} PlaceOf(entries: seq<Entry>, s: Id) returns (i: nat)
    requires Unique(entries) && s in Table(entries)
    ensures i < |entries| && entries[i] == Entry(s, Table(entries)[s])
  {
    var n := |entries| - 1;
    if entries[n].id == s {
      i := n;
    } else {
      i := PlaceOf(entries[..n], s);
    }
  }

  lemma {:induction false} TableSize(entries: seq<Entry>)
    requires Unique(entries)
    ensures |Table(entries)| == |entries|
  {
    if entries != [] {
      var n := |entries| - 1;
      TableSize(entries[..n]);
      if entries[n].id in Table(entries[..n]) {
        var i := PlaceOf(entries[..n], entries[n].id);
      }
    }
  }

  lemma UpdatesCommute(m: Streams, a: Id, x: Stream, b: Id, y: Stream)
    requires a != b
    ensures m[a := x][b := y] == m[b := y][a := x]
  {
  }

  lemma UpdateTwice(m: Streams, a: Id, x: Stream, y: Stream)
    ensures m[a := x][a := y] == m[a := y]
  {
  }

  lemma {:induction false} TableUpdated(entries: seq<Entry>, i: nat, stream: Stream)
    requires Unique(entries) && i < |entries|
    ensures var entries' := entries[i := Entry(entries[i].id, stream)];
            Unique(entries') && Table(entries') == Table(entries)[entries[i].id := stream]
  {
    var n, entries' := |entries| - 1, entries[i := Entry(entries[i].id, stream)];
    if i < n {
      TableUpdated(entries[..n], i, stream);
      assert entries'[..n] == entries[..n][i := Entry(entries[i].id, stream)];
      UpdatesCommute(Table(entries[..n]), entries[i].id, stream, entries[n].id, entries[n].stream);
    } else {
      assert entries'[..n] == entries[..n];
      UpdateTwice(Table(entries[..n]), entries[n].id, entries[n].stream, stream);
    }
  }

  lemma TableExtended(entries: seq<Entry>, e: Entry)
    requires Unique(entries) && e.id !in Table(entries)
    ensures Unique(entries + [e]) && Table(entries + [e]) == Table(entries)[e.id := e.stream]
  {
    assert (entries + [e])[..|entries|] == entries;
    forall i | 0 <= i < |entries|
      ensures entries[i].id != e.id
    {
      TableAt(entries, i);
    }
  }

  function Retargeted(e: Entry, packets: nat): Entry
  {
    Entry(e.id, e.stream.(buffer := e.stream.buffer.Retarget(packets)))
  }

  lemma RetargetedAll(before: seq<Entry>, after: seq<Entry>, packets: nat)
    requires Unique(before) && Unique(after) && |after| == |before|
    requires forall j | 0 <= j < |after| :: after[j] == Retargeted(before[j], packets)
    ensures Table(after).Keys == Table(before).Keys
    ensures forall s | s in Table(after) ::
              Table(after)[s] == Table(before)[s].(buffer := Table(before)[s].buffer.Retarget(packets))
  {
    forall s | s in Table(before)
      ensures s in Table(after)
    {
      var j := PlaceOf(before, s);
      TableAt(after, j);
    }
    forall s | s in Table(after)
      ensures s in Table(before)
      ensures Table(after)[s] == Table(before)[s].(buffer := Table(before)[s].buffer.Retarget(packets))
    {
      var j := PlaceOf(after, s);
      TableAt(before, j);
    }
  }

  ghost predicate Keeps(e: Entry, maxIdle: nat, now: nat)
  {
    MinusSat(now, e.stream.lastSeen) < maxIdle
  }

  /** The first i entries, sorted into those that stay and those that go. */
  ghost predicate Sifted(entries: seq<Entry>, i: nat, kept: seq<Entry>, removed: seq<Id>, maxIdle: nat, now: nat)
  {
    && i <= |entries|
    && (forall e | e in kept :: Keeps(e, maxIdle, now) && e in entries[..i])
    && (forall e | e in entries[..i] && Keeps(e, maxIdle, now) :: e in kept)
    && (forall s :: s in removed <==> exists j :: 0 <= j < i && entries[j].id == s && !Keeps(entries[j], maxIdle, now))
  }

  lemma SiftedStep(entries: seq<Entry>, i: nat, kept: seq<Entry>, removed: seq<Id>, maxIdle: nat, now: nat)
    requires Unique(entries) && Unique(kept) && i < |entries| && Sifted(entries, i, kept, removed, maxIdle, now)
    ensures Keeps(entries[i], maxIdle, now) ==>
              Unique(kept + [entries[i]]) && Sifted(entries, i + 1, kept + [entries[i]], removed, maxIdle, now)
    ensures !Keeps(entries[i], maxIdle, now) ==>
              Sifted(entries, i + 1, kept, removed + [entries[i].id], maxIdle, now)
  {
    assert entries[..i + 1] == entries[..i] + [entries[i]];
    forall k | 0 <= k < |kept|
      ensures kept[k].id != entries[i].id
    {
      assert kept[k] in entries[..i];
    }
  }

  lemma SiftedIn(entries: seq<Entry>, kept: seq<Entry>, removed: seq<Id>, maxIdle: nat, now: nat, s: Id)
    requires Unique(entries) && Unique(kept) && Sifted(entries, |entries|, kept, removed, maxIdle, now)
    requires s in Table(kept)
    ensures s in Table(entries) && Table(kept)[s] == Table(entries)[s] && MinusSat(now, Table(entries)[s].lastSeen) < maxIdle
  {
    assert entries[..|entries|] == entries;
    var j := PlaceOf(kept, s);
    assert kept[j] in entries;
    var i :| 0 <= i < |entries| && entries[i] == kept[j];
    TableAt(entries, i);
  }

  lemma SiftedOut(entries: seq<Entry>, kept: seq<Entry>, removed: seq<Id>, maxIdle: nat, now: nat, s: Id)
    requires Unique(entries) && Unique(kept) && Sifted(entries, |entries|, kept, removed, maxIdle, now)
    requires s in Table(entries)
    ensures MinusSat(now, Table(entries)[s].lastSeen) < maxIdle ==> s in Table(kept)
    ensures s in removed <==> MinusSat(now, Table(entries)[s].lastSeen) >= maxIdle
  {
    assert entries[..|entries|] == entries;
    var i := PlaceOf(entries, s);
    if Keeps(entries[i], maxIdle, now) {
      assert entries[i] in kept;
      var j :| 0 <= j < |kept| && kept[j] == entries[i];
      TableAt(kept, j);
    }
  }

  lemma SiftedTable(entries: seq<Entry>, kept: seq<Entry>, removed: seq<Id>, maxIdle: nat, now: nat)
    requires Unique(entries) && Unique(kept) && Sifted(entries, |entries|, kept, removed, maxIdle, now)
    ensures Table(kept) == map s | s in Table(entries) && MinusSat(now, Table(entries)[s].lastSeen) < maxIdle :: Table(entries)[s]
  {
    forall s | s in Table(kept)
      ensures s in Table(entries) && Table(kept)[s] == Table(entries)[s] && MinusSat(now, Table(entries)[s].lastSeen) < maxIdle
    {
      SiftedIn(entries, kept, removed, maxIdle, now, s);
    }
    forall s | s in Table(entries)
      ensures MinusSat(now, Table(entries)[s].lastSeen) < maxIdle ==> s in Table(kept)
    {
      SiftedOut(entries, kept, removed, maxIdle, now, s);
    }
  }

  lemma SiftedRemoved(entries: seq<Entry>, kept: seq<Entry>, removed: seq<Id>, maxIdle: nat, now: nat, s: Id)
    requires Unique(entries) && Unique(kept) && Sifted(entries, |entries|, kept, removed, maxIdle, now)
    ensures s in removed <==> s in Table(entries) && s !in Table(kept)
  {
    if s in Table(kept) {
      SiftedIn(entries, kept, removed, maxIdle, now, s);
    }
    if s in Table(entries) {
      SiftedOut(entries, kept, removed, maxIdle, now, s);
    } else if s in removed {
      var j :| 0 <= j < |entries| && entries[j].id == s;
      TableAt(entries, j);
    }
  }

  lemma SiftedAll(entries: seq<Entry>, kept: seq<Entry>, removed: seq<Id>, maxIdle: nat, now: nat)
    requires Unique(entries) && Unique(kept) && Sifted(entries, |entries|, kept, removed, maxIdle, now)
    ensures Table(kept) == map s | s in Table(entries) && MinusSat(now, Table(entries)[s].lastSeen) < maxIdle :: Table(entries)[s]
    ensures forall s :: s in removed <==> s in Table(entries) && s !in Table(kept)
  {
    SiftedTable(entries, kept, removed, maxIdle, now);
    forall s
      ensures s in removed <==> s in Table(entries) && s !in Table(kept)
    {
      SiftedRemoved(entries, kept, removed, maxIdle, now, s);
    }
  }

  class Mixer {
    const bytesPerFrame: nat
    const packetFrames: nat
    var defaultTarget: nat
    var entries: seq<Entry>

    ghost predicate Valid()
      reads this
    {
      Unique(entries) && |entries| <= MAX_STREAMS
    }

    function Now(): ReceiverModel.Mixer
      reads this
    {
      ReceiverModel.Mixer(bytesPerFrame, packetFrames, defaultTarget, Table(entries))
    }

    /** Packets of less than 240 frames start with a target of one. */
    constructor (bpf: nat, frameSamples: nat)
      ensures Valid()
      ensures var frames := Max(frameSamples, 1);
              Now() == ReceiverModel.Mixer(Max(bpf, 1), frames, if frames >= 240 then Playout.START_TARGET else 1, map[])
    {
      var frames := Max(frameSamples, 1);
      bytesPerFrame, packetFrames, entries := Max(bpf, 1), frames, [];
      defaultTarget := if frames >= 240 then Playout.START_TARGET else 1;
    }

    /** The place of a stream, or the length of the list. */
    method Find(id: Id) returns (at: nat)
      requires Valid()
      ensures at <= |entries| && (at < |entries| <==> id in Table(entries))
      ensures at < |entries| ==> entries[at].id == id && Table(entries)[id] == entries[at].stream
    {
      at := 0;
      while at < |entries|
        invariant at <= |entries| && forall j | 0 <= j < at :: entries[j].id != id
      {
        if entries[at].id == id {
          TableAt(entries, at);
          return;
        }
        at := at + 1;
      }
      if id in Table(entries) {
        var i := PlaceOf(entries, id);
      }
    }

    method EnsureStream(id: Id, name: seq<Scalar>, now: nat) returns (ok: bool)
      requires Valid()
      modifies this`entries
      ensures Valid() && ok == old(Now()).Ensured(id, name, now).Some?
      ensures Now() == if ok then old(Now()).Ensured(id, name, now).value else old(Now())
    {
      var at := Find(id);
      TableSize(entries);
      if at < |entries| {
        var stream := entries[at].stream.(name := name, lastSeen := now);
        TableUpdated(entries, at, stream);
        entries := entries[at := Entry(entries[at].id, stream)];
        return true;
      }
      if |entries| >= MAX_STREAMS {
        return false;
      }
      var buffer := Playout.Fresh(bytesPerFrame, packetFrames).Retarget(defaultTarget);
      var e := Entry(id, Stream(name, now, buffer));
      TableExtended(entries, e);
      entries := entries + [e];
      ok := true;
    }

    method Touch(id: Id, now: nat)
      requires Valid()
      modifies this`entries
      ensures Valid() && Now() == old(Now()).Touched(id, now)
    {
      var at := Find(id);
      if at < |entries| {
        var stream := entries[at].stream.(lastSeen := now);
        TableUpdated(entries, at, stream);
        entries := entries[at := Entry(entries[at].id, stream)];
      }
    }

    method PushPacket(id: Id, seqNo: UInt64, pcm: seq<Byte>, now: nat) returns (taken: bool)
      requires Valid()
      modifies this`entries
      ensures Valid() && Now() == old(Now()).Pushed(id, seqNo, pcm, now)
      ensures taken <==> id in old(Now()).streams && old(Now()).streams[id].buffer.Push(seqNo, pcm).1
    {
      var at := Find(id);
      if at == |entries| {
        return false;
      }
      var pushed := entries[at].stream.buffer.Push(seqNo, pcm);
      var stream := entries[at].stream.(lastSeen := now, buffer := pushed.0);
      TableUpdated(entries, at, stream);
      entries := entries[at := Entry(entries[at].id, stream)];
      taken := pushed.1;
    }

    method SetStreamTargetMs(id: Id, ms: nat) returns (found: bool)
      requires Valid()
      modifies this`entries
      ensures Valid() && Now() == old(Now()).Retargeted(id, Playout.PacketsFor(ms))
      ensures found <==> id in old(Now()).streams
    {
      var at := Find(id);
      found := at < |entries|;
      if found {
        var stream := entries[at].stream.(buffer := entries[at].stream.buffer.Retarget(Playout.PacketsFor(ms)));
        TableUpdated(entries, at, stream);
        entries := entries[at := Entry(entries[at].id, stream)];
      }
    }

    /** How often a stream has run dry, 0 if there is none. */
    method Starvations(id: Id) returns (n: nat)
      requires Valid()
      ensures n == Now().Starvations(id)
    {
      var at := Find(id);
      n := if at < |entries| then entries[at].stream.buffer.starvations else 0;
    }

    /** Removes the streams that have been idle too long and says which. */
    method ExpireIdle(maxIdle: nat, now: nat) returns (removed: seq<Id>)
      requires Valid()
      modifies this`entries
      ensures Valid() && Now() == old(Now()).Expired(maxIdle, now)
      ensures forall s :: s in removed <==> s in old(Now()).streams && s !in Now().streams
    {
      var kept: seq<Entry> := [];
      removed := [];
      var i: nat := 0;
      while i < |entries|
        invariant i <= |entries| && |kept| <= i && entries == old(entries) && Unique(kept)
        invariant Sifted(entries, i, kept, removed, maxIdle, now)
      {
        SiftedStep(entries, i, kept, removed, maxIdle, now);
        if MinusSat(now, entries[i].stream.lastSeen) < maxIdle {
          kept := kept + [entries[i]];
        } else {
          removed := removed + [entries[i].id];
        }
        i := i + 1;
      }
      SiftedAll(entries, kept, removed, maxIdle, now);
      entries := kept;
    }

    method Clear()
      requires Valid()
      modifies this`entries
      ensures Valid() && Now() == old(Now()).(streams := map[])
    {
      entries := [];
    }

    /** Every stream's buffer takes the new target, and so will new streams. */
    method SetTargetPackets(packets: nat)
      requires Valid()
      modifies this
      ensures Valid() && defaultTarget == Clamp(packets, 1, Playout.MAX_SLOTS)
      ensures Now().streams.Keys == old(Now()).streams.Keys
      ensures forall s | s in Now().streams ::
                Now().streams[s] == old(Now()).streams[s].(buffer := old(Now()).streams[s].buffer.Retarget(packets))
    {
      defaultTarget := Clamp(packets, 1, Playout.MAX_SLOTS);
      ghost var before := entries;
      var i: nat := 0;
      while i < |entries|
        invariant i <= |entries| == |before| && Unique(entries) && defaultTarget == Clamp(packets, 1, Playout.MAX_SLOTS)
        invariant forall j | 0 <= j < |entries| :: entries[j] == if j < i then Retargeted(before[j], packets) else before[j]
      {
        entries := entries[i := Retargeted(entries[i], packets)];
        i := i + 1;
      }
      RetargetedAll(before, entries, packets);
    }
  }
}
