/** Circular byte buffers: the queue that a read index and a fill count stand for. */
module Ring {
  import opened Bytes
  import opened Division

  /** The bytes from the read index on, wrapping around the end. */
  function View(buf: seq<Byte>, read: nat, used: nat): (s: seq<Byte>)
    requires read < |buf| && used <= |buf|
    ensures |s| == used
  {
    if read + used <= |buf| then buf[read..read + used] else buf[read..] + buf[..read + used - |buf|]
  }

  /** The last bytes of a stream, as many as fit. */
  function KeepLast(s: seq<Byte>, capacity: nat): (r: seq<Byte>)
    ensures |r| == Min(|s|, capacity)
  {
    if |s| <= capacity then s else s[|s| - capacity..]
  }

  lemma SuffixOfSuffix(s: seq<Byte>, d: nat, k: nat)
    requires d + k <= |s|
    ensures s[d..][k..] == s[d + k..]
  {
  }

  lemma SuffixOfFirst(a: seq<Byte>, b: seq<Byte>, k: nat)
    requires k <= |a|
    ensures (a + b)[k..] == a[k..] + b
  {
  }

  lemma SuffixOfSecond(a: seq<Byte>, b: seq<Byte>, k: nat)
    requires k <= |b|
    ensures (a + b)[|a| + k..] == b[k..]
  {
  }

  /** Cutting the old stream first makes no difference to the last bytes of the whole. */
  lemma KeepLastOfKept(a: seq<Byte>, b: seq<Byte>, capacity: nat)
    ensures KeepLast(KeepLast(a, capacity) + b, capacity) == KeepLast(a + b, capacity)
  {
    if |a| > capacity {
      var d := |a| - capacity;
      SuffixOfFirst(a, b, d);
      SuffixOfSuffix(a + b, d, |b|);
    }
  }

  function Flat(writes: seq<seq<Byte>>): seq<Byte>
  {
    if writes == [] then [] else Flat(writes[..|writes| - 1]) + writes[|writes| - 1]
  }

  /** What a drop-oldest queue holds after a run of writes, each cut to the capacity as it is made. */
  function AfterWrites(s: seq<Byte>, writes: seq<seq<Byte>>, capacity: nat): seq<Byte>
  {
    if writes == [] then KeepLast(s, capacity)
    else KeepLast(AfterWrites(s, writes[..|writes| - 1], capacity) + writes[|writes| - 1], capacity)
  }

  /** Over any run of writes the queue holds the last bytes of everything written, however it was cut into writes. */
  lemma {:induction false} WritesKeepTheLast(s: seq<Byte>, writes: seq<seq<Byte>>, capacity: nat)
    ensures AfterWrites(s, writes, capacity) == KeepLast(s + Flat(writes), capacity)
  {
    if writes == [] {
      assert s + [] == s;
    } else {
      var before, last := writes[..|writes| - 1], writes[|writes| - 1];
      WritesKeepTheLast(s, before, capacity);
      KeepLastOfKept(s + Flat(before), last, capacity);
      assert s + Flat(before) + last == s + Flat(writes);
    }
  }

  /** Nor does cutting the new bytes first. */
  lemma KeepLastOfCut(a: seq<Byte>, b: seq<Byte>, capacity: nat)
    ensures KeepLast(a + KeepLast(b, capacity), capacity) == KeepLast(a + b, capacity)
  {
    if |b| > capacity {
      var d := |b| - capacity;
      SuffixOfSecond(a, b, d);
      SuffixOfSecond(a, b[d..], 0);
    }
  }

  /** Room for q is made by dropping just enough from the front. */
  lemma KeepLastByDropping(content: seq<Byte>, q: seq<Byte>, capacity: nat)
    requires |q| <= capacity
    ensures content[|content| - Min(|content|, capacity - |q|)..] + q == KeepLast(content + q, capacity)
  {
  }

  lemma WrapIndex(x: nat, size: nat)
    requires size > 0 && x < 2 * size
    ensures x % size == if x < size then x else x - size
  {
    if x >= size {
      DivMod(1, x - size, size);
    }
  }

  lemma SliceFrom(s: seq<Byte>, lo: nat, hi: nat, n: nat)
    requires lo + n <= hi <= |s|
    ensures s[lo..hi][n..] == s[lo + n..hi]
  {
  }

  lemma ViewMoved(buf: seq<Byte>, read: nat, used: nat, n: nat, moved: nat)
    requires read < |buf| && n <= used <= |buf|
    requires moved == if read + n < |buf| then read + n else read + n - |buf|
    ensures moved < |buf| && View(buf, moved, used - n) == View(buf, read, used)[n..]
  {
    if read + used <= |buf| {
      SliceFrom(buf, read, read + used, n);
    } else if read + n < |buf| {
      SliceFrom(buf, read, |buf|, n);
      assert (buf[read..] + buf[..read + used - |buf|])[n..] == buf[read..][n..] + buf[..read + used - |buf|];
    } else {
      SliceFrom(buf, 0, read + used - |buf|, moved);
      assert (buf[read..] + buf[..read + used - |buf|])[n..] == buf[..read + used - |buf|][moved..];
    }
  }

  /** Moving the read index drops bytes from the front. */
  method MoveIndex(buf: array<Byte>, read: nat, used: nat, n: nat) returns (moved: nat)
    requires read < buf.Length && n <= used <= buf.Length
    ensures moved < buf.Length
    ensures View(buf[..], moved, used - n) == View(buf[..], read, used)[n..]
  {
    WrapIndex(read + n, buf.Length);
    moved := (read + n) % buf.Length;
    ViewMoved(buf[..], read, used, n, moved);
  }

  lemma Wrapped(before: seq<Byte>, between: seq<Byte>, write: nat, copied: nat, p: seq<Byte>)
    requires write < |before| && |p| <= |before| && copied == |before| - write < |p|
    requires between == before[..write] + p[..copied] + before[write + copied..]
    ensures p[copied..] + between[|p| - copied..] == p[copied..] + before[|p| - copied..write] + p[..copied]
  {
    assert before[write + copied..] == [];
    assert between == before[..write] + p[..copied];
  }

  /** The bytes of p that fit go to `write`, the rest to the start. */
  method WriteTwice(buf: array<Byte>, write: nat, copied: nat, p: seq<Byte>)
    requires write < buf.Length && |p| <= buf.Length && copied == Min(|p|, buf.Length - write)
    modifies buf
    ensures copied == |p| ==> buf[..] == old(buf[..write]) + p + old(buf[write + copied..])
    ensures copied < |p| ==> buf[..] == p[copied..] + old(buf[|p| - copied..write]) + p[..copied]
  {
    ghost var before := buf[..];
    CopyInto(buf, write, p[..copied]);
    ghost var between := buf[..];
    if copied < |p| {
      CopyInto(buf, 0, p[copied..]);
      Wrapped(before, between, write, copied, p);
    }
  }

  lemma AppendedView(before: seq<Byte>, after: seq<Byte>, read: nat, used: nat, write: nat, copied: nat, p: seq<Byte>)
    requires read < |before| && used + |p| <= |before|
    requires write == (if read + used < |before| then read + used else read + used - |before|)
    requires copied == Min(|p|, |before| - write)
    requires copied == |p| ==> after == before[..write] + p + before[write + copied..]
    requires copied < |p| ==> after == p[copied..] + before[|p| - copied..write] + p[..copied]
    ensures |after| == |before|
    ensures View(after, read, used + |p|) == View(before, read, used) + p
  {
    if copied < |p| {
      assert after[read..] == before[read..write] + p[..copied];
      assert after[..|p| - copied] == p[copied..];
      assert p == p[..copied] + p[copied..];
    } else if read + used < |before| {
      assert after[read..write + copied] == before[read..write] + p;
    } else {
      assert after[read..] == before[read..];
      assert after[..write + copied] == before[..write] + p;
    }
  }

  /** Appends p behind the queue, in one piece or in two. */
  method Append(buf: array<Byte>, read: nat, used: nat, p: seq<Byte>)
    requires read < buf.Length && used + |p| <= buf.Length
    modifies buf
    ensures View(buf[..], read, used + |p|) == old(View(buf[..], read, used)) + p
  {
    WrapIndex(read + used, buf.Length);
    var write := (read + used) % buf.Length;
    var copied := Min(|p|, buf.Length - write);
    ghost var before := buf[..];
    WriteTwice(buf, write, copied, p);
    AppendedView(before, buf[..], read, used, write, copied, p);
  }

  lemma CopiedView(buf: seq<Byte>, read: nat, used: nat, n: nat, first: nat,
                   before: seq<Byte>, between: seq<Byte>, after: seq<Byte>)
    requires read < |buf| && n <= used <= |buf| && n <= |before| && first == Min(n, |buf| - read)
    requires between == buf[read..read + first] + before[first..]
    requires after == if first < n then between[..first] + buf[..n - first] + between[n..] else between
    ensures after == View(buf, read, used)[..n] + before[n..]
  {
  }

  /** Copies the first n bytes of the queue out, in one piece or in two. */
  method CopyOut(buf: array<Byte>, read: nat, used: nat, dst: array<Byte>, n: nat)
    requires read < buf.Length && n <= used <= buf.Length && n <= dst.Length && dst != buf
    modifies dst
    ensures dst[..] == View(buf[..], read, used)[..n] + old(dst[n..])
  {
    ghost var before := dst[..];
    var first := Min(n, buf.Length - read);
    CopyInto(dst, 0, buf[read..read + first]);
    ghost var between := dst[..];
    if first < n {
      CopyInto(dst, first, buf[..n - first]);
    }
    CopiedView(buf[..], read, used, n, first, before, between, dst[..]);
  }
}
