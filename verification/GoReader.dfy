/** A Go reader that may fail in between, and `io.ReadFull` on it. */
module GoReader {
  import opened Options
  import opened Words

  /** What one call of `Read` does; after the last event the reader is at its end. */
  datatype ReadEvent = Data(bytes: seq<Byte>) | Fault

  datatype Error = Eof | UnexpectedEof | Failed

  /** The bytes a reader will deliver, across failures. */
  function Content(script: seq<ReadEvent>): seq<Byte> {
    if script == [] then []
    else (if script[0].Data? then script[0].bytes else []) + Content(script[1..])
  }

  predicate NoFaults(script: seq<ReadEvent>) {
    forall i :: 0 <= i < |script| ==> script[i].Data?
  }

  /** What is left to do: events and bytes. */
  function Weight(script: seq<ReadEvent>): nat {
    |script| + |Content(script)|
  }

  // ---------------------------------------------------------------------------------------------
  // Filling a slice
  // ---------------------------------------------------------------------------------------------

  /** The bytes a slice was filled with, the reader afterwards, and what stopped it short. */
  datatype Filling = Filling(got: seq<Byte>, rest: seq<ReadEvent>, err: Option<Error>)

  /** Reads until `k` bytes are there, the reader fails, or it is at its end. */
  function Filled(script: seq<ReadEvent>, k: nat): Filling
    decreases |script|
  {
    if k == 0 then Filling([], script, None)
    else if script == [] then Filling([], [], Some(Eof))
    else match script[0]
      case Fault => Filling([], script[1..], Some(Failed))
      case Data(bytes) =>
        if |bytes| > k then Filling(bytes[..k], [Data(bytes[k..])] + script[1..], None)
        else Prepend(bytes, Filled(script[1..], k - |bytes|))
  }

  function Prepend(bytes: seq<Byte>, f: Filling): Filling {
    f.(got := bytes + f.got)
  }

  /** What `io.ReadFull` reports: an end after some bytes is an unexpected one. */
  function Reported(f: Filling): Option<Error> {
    if f.err == Some(Eof) && f.got != [] then Some(UnexpectedEof) else f.err
  }

  /** Nothing is lost, the slice is full exactly when nothing stopped the read, and the reader makes progress. */
  ghost predicate Accounted(script: seq<ReadEvent>, k: nat, f: Filling) {
    && Content(script) == f.got + Content(f.rest) && |f.got| <= k && (f.err.None? <==> |f.got| == k)
    && f.err != Some(UnexpectedEof) && (f.err == Some(Eof) ==> f.rest == [])
    && Weight(f.rest) <= Weight(script) && (script != [] && k > 0 ==> Weight(f.rest) < Weight(script))
  }

  lemma {:induction false} FilledAccounted(script: seq<ReadEvent>, k: nat)
    ensures Accounted(script, k, Filled(script, k))
    decreases |script|
  {
    if k > 0 && script != [] && script[0].Data? {
      var bytes := script[0].bytes;
      if |bytes| > k {
        Taken(script, [Data(bytes[k..])] + script[1..], k);
      } else {
        FilledAccounted(script[1..], k - |bytes|);
        PrependAccounted(script, k, Filled(script[1..], k - |bytes|));
      }
    }
  }

  lemma PrependAccounted(script: seq<ReadEvent>, k: nat, f: Filling)
    requires script != [] && script[0].Data? && |script[0].bytes| <= k
    requires Accounted(script[1..], k - |script[0].bytes|, f)
    ensures Accounted(script, k, Prepend(script[0].bytes, f))
  {
    var bytes := script[0].bytes;
    assert bytes + (f.got + Content(f.rest)) == bytes + f.got + Content(f.rest);
  }

  lemma {:induction false} FilledClean(script: seq<ReadEvent>, k: nat)
    requires NoFaults(script)
    ensures NoFaults(Filled(script, k).rest) && Filled(script, k).err in {None, Some(Eof)}
    decreases |script|
  {
    if k > 0 && script != [] {
      var bytes := script[0].bytes;
      if |bytes| <= k {
        FilledClean(script[1..], k - |bytes|);
      }
    }
  }

  /** Where a read stops on a script that goes well up to a failure. */
  lemma {:induction false} FilledUntilFault(s1: seq<ReadEvent>, s2: seq<ReadEvent>, k: nat)
    requires NoFaults(s1)
    ensures Filled(s1 + [Fault] + s2, k) ==
      if |Content(s1)| < k then Filling(Content(s1), s2, Some(Failed))
      else Filling(Filled(s1, k).got, Filled(s1, k).rest + [Fault] + s2, None)
    decreases |s1|
  {
    var script := s1 + [Fault] + s2;
    if s1 == [] {
      assert script[1..] == s2;
    } else if k > 0 {
      var bytes := s1[0].bytes;
      assert script[1..] == s1[1..] + [Fault] + s2;
      if |bytes| > k {
        assert [Data(bytes[k..])] + s1[1..] + [Fault] + s2 == [Data(bytes[k..])] + script[1..];
      } else {
        FilledUntilFault(s1[1..], s2, k - |bytes|);
      }
    }
  }

  /** Taking the first `n` bytes of the next event off a script. */
  lemma Taken(was: seq<ReadEvent>, left: seq<ReadEvent>, n: nat)
    requires was != [] && was[0].Data? && n <= |was[0].bytes|
    requires left == if n < |was[0].bytes| then [Data(was[0].bytes[n..])] + was[1..] else was[1..]
    ensures Content(was) == was[0].bytes[..n] + Content(left)
  {
    var bytes, rest := was[0].bytes, Content(was[1..]);
    assert Content(was) == bytes + rest;
    if n < |bytes| {
      assert left[1..] == was[1..];
      assert Content(left) == bytes[n..] + rest;
      Regroup(bytes, n, rest);
    } else {
      assert bytes[..n] == bytes;
    }
  }

  lemma Regroup(bytes: seq<Byte>, n: nat, rest: seq<Byte>)
    requires n <= |bytes|
    ensures bytes + rest == bytes[..n] + (bytes[n..] + rest)
  {
  }

  // ---------------------------------------------------------------------------------------------
  // The reader
  // ---------------------------------------------------------------------------------------------

  class Reader {
    var script: seq<ReadEvent>
    /** Everything the reader ever delivers, and what it has delivered so far. */
    ghost const total: seq<Byte>
    ghost var delivered: seq<Byte>

    ghost predicate Valid()
      reads this
    {
      total == delivered + Content(script)
    }

    constructor (script: seq<ReadEvent>)
      ensures Valid() && this.script == script && delivered == [] && total == Content(script)
    {
      this.script, delivered, total := script, [], Content(script);
    }

    /** One `Read` into the slice `[lo, hi)` of `buf`; `got` is what it put there. */
    method Read(buf: array<Byte>, lo: nat, hi: nat) returns (n: nat, err: Option<Error>, ghost got: seq<Byte>)
      requires Valid() && lo < hi <= buf.Length
      modifies this, buf
      ensures Valid() && n == |got| <= hi - lo && delivered == old(delivered) + got
      ensures buf[..lo + n] == old(buf[..lo]) + got
      ensures err.Some? ==> got == [] && Filled(old(script), hi - lo) == Filling([], script, err)
      ensures err.None? ==> Filled(old(script), hi - lo) == Prepend(got, Filled(script, hi - lo - n))
      ensures err.None? && n == 0 ==> |script| < |old(script)|
    {
      got := [];
      assert buf[..lo] == buf[..lo] + got;
      if script == [] {
        return 0, Some(Eof), got;
      }
      var e := script[0];
      if e == Fault {
        script := script[1..];
        return 0, Some(Failed), got;
      }
      n := if |e.bytes| <= hi - lo then |e.bytes| else hi - lo;
      got := e.bytes[..n];
      CopyIn(buf, lo, e.bytes[..n]);
      delivered := delivered + got;
      ghost var was := script;
      script := if n < |e.bytes| then [Data(e.bytes[n..])] + script[1..] else script[1..];
      Taken(was, script, n);
      assert n == |e.bytes| ==> got == e.bytes;
      return n, None, got;
    }

    /** One round of the loop of `io.ReadFull`, which is to end with the filling `goal`. */
    method ReadOn(buf: array<Byte>, lo: nat, hi: nat, n: nat, ghost got: seq<Byte>, ghost goal: Filling)
      returns (m: nat, err: Option<Error>, ghost more: seq<Byte>)
      requires Valid() && lo + n < hi <= buf.Length && n == |got| && FilledSoFar(goal, hi - lo, got, script, None)
      modifies this, buf
      ensures Valid() && m == |more| <= hi - lo && got <= more && delivered == old(delivered) + more[n..]
      ensures buf[..lo + m] == old(buf[..lo + n]) + more[n..]
      ensures FilledSoFar(goal, hi - lo, more, script, err)
      ensures err.None? && m == n ==> |script| < |old(script)|
    {
      ghost var before := script;
      var k; ghost var next;
      k, err, next := Read(buf, lo + n, hi);
      FilledOn(goal, hi - lo, got, before, next, script, err);
      m, more := n + k, got + next;
      assert more[n..] == next;
    }

    /** The loop of `io.ReadFull`. */
    method ReadLoop(buf: array<Byte>, lo: nat, hi: nat, ghost goal: Filling)
      returns (n: nat, err: Option<Error>, ghost got: seq<Byte>)
      requires Valid() && lo < hi <= buf.Length && FilledSoFar(goal, hi - lo, [], script, None)
      modifies this, buf
      ensures Valid() && n == |got| <= hi - lo && delivered == old(delivered) + got
      ensures buf[..lo + n] == old(buf[..lo]) + got
      ensures FilledSoFar(goal, hi - lo, got, script, err) && (err.None? ==> n == hi - lo)
    {
      n, err, got := 0, None, [];
      ghost var start, front := delivered, buf[..lo];
      assert front == front + got && start == start + got;
      while n < hi - lo && err.None?
        invariant Valid() && n == |got| <= hi - lo && delivered == start + got
        invariant buf[..lo + n] == front + got
        invariant FilledSoFar(goal, hi - lo, got, script, err)
        decreases err.None?, hi - lo - n, |script|
      {
        ghost var before := got;
        n, err, got := ReadOn(buf, lo, hi, n, got, goal);
        JoinMore(front, before, got);
        JoinMore(start, before, got);
      }
    }

    /** `io.ReadFull` into the slice `[lo, hi)` of `buf`. */
    method ReadFull(buf: array<Byte>, lo: nat, hi: nat) returns (n: nat, err: Option<Error>, ghost got: seq<Byte>)
      requires Valid() && lo < hi <= buf.Length
      modifies this, buf
      ensures Valid() && n == |got| <= hi - lo && delivered == old(delivered) + got
      ensures buf[..lo + n] == old(buf[..lo]) + got
      ensures
        var f := Filled(old(script), hi - lo);
        got == f.got && script == f.rest && err == Reported(f)
      ensures err == None <==> n == hi - lo
      ensures err == Some(Eof) ==> n == 0 && script == []
      ensures err == Some(UnexpectedEof) ==> 0 < n < hi - lo && script == []
    {
      ghost var was := script;
      n, err, got := ReadLoop(buf, lo, hi, Prepend([], Filled(script, hi - lo)));
      FilledDone(was, hi - lo, got, script, err);
      FilledAccounted(was, hi - lo);
      if n == hi - lo {
        err := None;
      } else if n > 0 && err == Some(Eof) {
        err := Some(UnexpectedEof);
      }
    }
  }

  /** Part of a filling is done: `got` is there, and the rest is what `script` still gives, unless it stopped. */
  ghost predicate FilledSoFar(goal: Filling, k: nat, got: seq<Byte>, script: seq<ReadEvent>, err: Option<Error>) {
    && |got| <= k
    && goal == if err.Some? then Filling(got, script, err) else Prepend(got, Filled(script, k - |got|))
  }

  lemma FilledDone(was: seq<ReadEvent>, k: nat, got: seq<Byte>, script: seq<ReadEvent>, err: Option<Error>)
    requires FilledSoFar(Prepend([], Filled(was, k)), k, got, script, err) && (err.None? ==> |got| == k)
    ensures Filled(was, k) == Filling(got, script, if |got| == k then None else err)
  {
    FilledAccounted(was, k);
    assert [] + Filled(was, k).got == Filled(was, k).got;
    if err.None? {
      assert got + [] == got;
    }
  }

  lemma FilledOn(
    goal: Filling, k: nat, got: seq<Byte>, before: seq<ReadEvent>, next: seq<Byte>, script: seq<ReadEvent>,
    err: Option<Error>)
    requires FilledSoFar(goal, k, got, before, None) && |got| + |next| <= k
    requires err.Some? ==> next == [] && Filled(before, k - |got|) == Filling([], script, err)
    requires err.None? ==> Filled(before, k - |got|) == Prepend(next, Filled(script, k - |got| - |next|))
    ensures FilledSoFar(goal, k, got + next, script, err)
  {
    if err.None? {
      PrependTwice(got, next, Filled(script, k - |got| - |next|));
    } else {
      assert got + [] == got;
    }
  }

  lemma PrependTwice(got: seq<Byte>, next: seq<Byte>, f: Filling)
    ensures Prepend(got, Prepend(next, f)) == Prepend(got + next, f)
  {
    assert got + (next + f.got) == got + next + f.got;
  }

  lemma JoinMore(front: seq<Byte>, got: seq<Byte>, more: seq<Byte>)
    requires got <= more
    ensures front + got + more[|got|..] == front + more
  {
    assert more == got + more[|got|..];
  }

  /** `copy` into the array from index `lo` on. */
  method CopyIn(buf: array<Byte>, lo: nat, bytes: seq<Byte>)
    requires lo + |bytes| <= buf.Length
    modifies buf
    ensures buf[..lo + |bytes|] == old(buf[..lo]) + bytes
  {
    forall i | 0 <= i < |bytes| {
      buf[lo + i] := bytes[i];
    }
  }
}
