/** The capture ring: a drop-oldest byte queue on whole quanta. */
module PcmRing {
  import opened Bytes
  import opened Division
  import opened Ring

  function AlignedLen(n: nat, quantum: nat): nat
    requires quantum > 0
  {
    Recompose(n, quantum);
    n - n % quantum
  }

  lemma AlignedLenMeaning(n: nat, quantum: nat)
    requires quantum > 0
    ensures AlignedLen(n, quantum) <= n < AlignedLen(n, quantum) + quantum && AlignedLen(n, quantum) % quantum == 0
    ensures n % quantum == 0 ==> AlignedLen(n, quantum) == n
  {
    Recompose(n, quantum);
    DivMod(n / quantum, 0, quantum);
  }

  function AlignUp(n: int, quantum: nat): (r: int)
    requires quantum > 0
    ensures n >= 0 && n % quantum == 0 ==> r == n
  {
    if n <= 0 then 0 else
      var rem := n % quantum;
      if rem == 0 then n else n + quantum - rem
  }

  lemma MultiplesDiffer(a: nat, b: nat, m: nat)
    requires m > 0 && a % m == 0 && b % m == 0 && b <= a
    ensures (a - b) % m == 0
  {
    Recompose(a, m);
    Recompose(b, m);
    DivMonotone(b, a, m);
    assert a - b == (a / m - b / m) * m;
    DivMod(a / m - b / m, 0, m);
  }

  lemma MultiplesAdd(a: nat, b: nat, m: nat)
    requires m > 0 && a % m == 0 && b % m == 0
    ensures (a + b) % m == 0
  {
    Recompose(a, m);
    Recompose(b, m);
    assert a + b == (a / m + b / m) * m;
    DivMod(a / m + b / m, 0, m);
  }

  /** The part of a write that is whole quanta. */
  function Whole(p: seq<Byte>, quantum: nat): (r: seq<Byte>)
    requires quantum > 0
  {
    p[..AlignedLen(|p|, quantum)]
  }

  /** The next multiple of the quantum, or the number itself. */
  lemma AlignUpIs(n: nat, quantum: nat)
    requires quantum > 0
    ensures AlignUp(n, quantum) % quantum == 0 && n <= AlignUp(n, quantum) < n + quantum
  {
    if n > 0 && n % quantum != 0 {
      Recompose(n, quantum);
      MulMonotone(n / quantum, n / quantum, quantum);
      DivMod(n / quantum + 1, 0, quantum);
    }
  }

  /** The size of a ring asked to hold `size` bytes: whole quanta, at least one. */
  function Capacity(size: int, quantum: nat): (r: nat)
    requires quantum > 0
    ensures r % quantum == 0 && quantum <= r && r <= Max(size, quantum) < r + quantum
  {
    var s := if size < quantum then quantum else size;
    AlignedLenMeaning(s, quantum);
    MulMonotone(1, s / quantum, quantum);
    AlignedLen(s, quantum)
  }

  class PcmRing {
    const buf: array<Byte>
    const quantum: nat
    var read: nat
    var used: nat
    var dropped: nat
    /** Bytes handed to writes that obtained the lock, plus the whole quanta of those that did not. */
    ghost var offered: nat
    /** Bytes handed out by reads. */
    ghost var served: nat

    ghost predicate Valid()
      reads this
    {
      && quantum > 0 && buf.Length > 0 && buf.Length % quantum == 0
      && read < buf.Length && used <= buf.Length && used % quantum == 0
      && offered == served + used + dropped
    }

    ghost function Contents(): (s: seq<Byte>)
      requires Valid()
      reads this, buf
      ensures |s| == used
    {
      View(buf[..], read, used)
    }

    constructor (sizeBytes: int, quantumBytes: int)
      ensures Valid() && fresh(buf) && Contents() == [] && dropped == 0
      ensures quantum == Max(quantumBytes, 1)
      ensures buf.Length == Capacity(sizeBytes, quantum)
    {
      var q := if quantumBytes <= 0 then 1 else quantumBytes;
      var aligned := Capacity(sizeBytes, q);
      buf := new Byte[aligned](_ => 0);
      quantum := q;
      read, used, dropped, offered, served := 0, 0, 0, 0, 0;
    }

    /** Keeps the newest bytes of what was queued and what is written, in whole quanta; counts all it drops.
        If the lock is busy nothing is written and only whole quanta are counted. */
    method TryWrite(p: seq<Byte>, busy: bool) returns (n: nat)
      requires Valid()
      modifies this, buf
      ensures Valid() && served == old(served)
      ensures offered == old(offered) + (if busy then AlignedLen(|p|, quantum) else |p|)
      ensures busy ==> n == 0 && Contents() == old(Contents()) && dropped == old(dropped) + AlignedLen(|p|, quantum)
      ensures !busy ==> Contents() == KeepLast(old(Contents()) + Whole(p, quantum), buf.Length)
      ensures !busy ==> n == Min(AlignedLen(|p|, quantum), buf.Length)
      ensures !busy ==> dropped == old(dropped) + (|old(Contents())| + |p| - |Contents()|)
    {
      if |p| == 0 {
        return 0;
      }
      if busy {
        dropped := dropped + AlignedLen(|p|, quantum);
        offered := offered + AlignedLen(|p|, quantum);
        return 0;
      }
      n := WriteLocked(p);
    }

    method WriteLocked(p: seq<Byte>) returns (n: nat)
      requires Valid()
      modifies this, buf
      ensures Valid() && served == old(served) && offered == old(offered) + |p|
      ensures Contents() == KeepLast(old(Contents()) + Whole(p, quantum), buf.Length)
      ensures n == Min(AlignedLen(|p|, quantum), buf.Length)
      ensures dropped == old(dropped) + (|old(Contents())| + |p| - |Contents()|)
    {
      AlignedLenMeaning(|p|, quantum);
      offered := offered + |p|;
      n := AlignedLen(|p|, quantum);
      if n == 0 {
        dropped := dropped + |p|;
        assert Contents() + Whole(p, quantum) == Contents();
        return 0;
      }
      dropped := dropped + (|p| - n);
      MultiplesAdd(used, n, quantum);
      n := WriteWhole(p[..n]);
    }

    /** `WriteLocked` once the input is cut to whole quanta. */
    method WriteWhole(p: seq<Byte>) returns (n: nat)
      requires quantum > 0 && buf.Length > 0 && buf.Length % quantum == 0
      requires read < buf.Length && used <= buf.Length && used % quantum == 0 && |p| % quantum == 0
      modifies this`read, this`used, this`dropped, buf
      ensures read < buf.Length && used == Min(old(used) + |p|, buf.Length)
      ensures View(buf[..], read, used) == KeepLast(old(View(buf[..], read, used)) + p, buf.Length)
      ensures n == Min(|p|, buf.Length) && dropped == old(dropped) + (old(used) + |p| - used)
    {
      KeepLastOfCut(View(buf[..], read, used), p, buf.Length);
      n := |p|;
      var q := p;
      if n > buf.Length {
        var drop := n - buf.Length;
        dropped := dropped + drop;
        q := q[drop..];
        n := buf.Length;
        assert |q| == buf.Length;
      }
      WriteFitting(q);
    }

    /** `WriteWhole` once the input fits the empty ring. */
    method WriteFitting(q: seq<Byte>)
      requires quantum > 0 && buf.Length > 0 && buf.Length % quantum == 0
      requires read < buf.Length && used <= buf.Length && used % quantum == 0
      requires |q| % quantum == 0 && |q| <= buf.Length
      modifies this`read, this`used, this`dropped, buf
      ensures read < buf.Length && used == Min(old(used) + |q|, buf.Length)
      ensures View(buf[..], read, used) == KeepLast(old(View(buf[..], read, used)) + q, buf.Length)
      ensures dropped == old(dropped) + (old(used) + |q| - used)
    {
      KeepLastByDropping(View(buf[..], read, used), q, buf.Length);
      MakeRoom(|q|);
      Append(buf, read, used, q);
      used := used + |q|;
    }

    /** Drops the oldest bytes until a write of `size` bytes fits. */
    method MakeRoom(size: nat)
      requires quantum > 0 && buf.Length > 0 && buf.Length % quantum == 0
      requires read < buf.Length && used <= buf.Length && used % quantum == 0
      requires size % quantum == 0 && size <= buf.Length
      modifies this`read, this`used, this`dropped
      ensures read < buf.Length && used % quantum == 0
      ensures used == Min(old(used), buf.Length - size)
      ensures dropped == old(dropped) + (old(used) - used)
      ensures View(buf[..], read, used) == old(View(buf[..], read, used)[used - Min(used, buf.Length - size)..])
    {
      var space := buf.Length - used;
      if size > space {
        MultiplesDiffer(buf.Length, used, quantum);
        MultiplesDiffer(size, space, quantum);
        var drop := AlignUp(size - space, quantum);
        if drop > used {
          drop := used;
        }
        MultiplesDiffer(buf.Length, size, quantum);
        DropFront(drop);
        dropped := dropped + drop;
      }
    }

    method DropFront(n: nat)
      requires read < buf.Length && n <= used <= buf.Length
      modifies this`read, this`used
      ensures read < buf.Length && used == old(used) - n
      ensures View(buf[..], read, used) == old(View(buf[..], read, used)[n..])
    {
      read := MoveIndex(buf, read, used, n);
      used := used - n;
    }

    /** Takes whole quanta from the front, as many as are queued and fit. */
    method ReadLocked(dst: array<Byte>) returns (n: nat)
      requires Valid() && dst != buf
      modifies this, dst
      ensures Valid() && dropped == old(dropped) && offered == old(offered) && served == old(served) + n
      ensures n == Min(AlignedLen(dst.Length, quantum), old(used))
      ensures dst[..] == old(Contents())[..n] + old(dst[n..])
      ensures Contents() == old(Contents())[n..]
    {
      AlignedLenMeaning(dst.Length, quantum);
      n := AlignedLen(dst.Length, quantum);
      if n > used {
        n := used;
      }
      AlignedLenMeaning(n, quantum);
      n := AlignedLen(n, quantum);
      if n == 0 {
        assert dst[..] == [] + dst[0..];
        return;
      }
      TakeFront(dst, n);
      served := served + n;
    }

    method TakeFront(dst: array<Byte>, n: nat)
      requires quantum > 0 && buf.Length > 0 && buf.Length % quantum == 0
      requires read < buf.Length && used <= buf.Length && used % quantum == 0 && n % quantum == 0
      requires n <= used && n <= dst.Length && dst != buf
      modifies this`read, this`used, dst
      ensures read < buf.Length && used % quantum == 0 && used == old(used) - n
      ensures dst[..] == old(View(buf[..], read, used)[..n] + dst[n..])
      ensures View(buf[..], read, used) == old(View(buf[..], read, used)[n..])
    {
      CopyOut(buf, read, used, dst, n);
      MultiplesDiffer(used, n, quantum);
      DropFront(n);
    }

    method TryRead(dst: array<Byte>, busy: bool) returns (n: nat)
      requires Valid() && dst != buf
      modifies this, dst
      ensures Valid() && dropped == old(dropped) && offered == old(offered) && served == old(served) + n
      ensures n == if busy then 0 else Min(AlignedLen(dst.Length, quantum), old(used))
      ensures dst[..] == old(Contents())[..n] + old(dst[n..])
      ensures Contents() == old(Contents())[n..]
    {
      if dst.Length == 0 || busy {
        assert dst[..] == [] + dst[0..];
        return 0;
      }
      n := ReadLocked(dst);
    }
  }
}
