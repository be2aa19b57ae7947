/** The byte-serial Gear scan of crates/fastcdc/src/scan.rs: the normative definition of a cut. */
module Gear {
  import opened Options
  import opened Words

  type GearTable = g: seq<Word> | |g| == 256 witness seq(256, _ => 0)

  /** One step of the recurrence: shift the fingerprint left and add the byte's table entry. */
  function Step(gear: GearTable, fp: Word, byte: Byte): Word {
    WrappingAdd(Shl(fp, 1), gear[byte])
  }

  /** The fingerprint after every byte of `data`, starting from `fp`. */
  function Roll(gear: GearTable, fp: Word, data: seq<Byte>): Word {
    if data == [] then fp else Step(gear, Roll(gear, fp, data[..|data| - 1]), data[|data| - 1])
  }

  predicate Hit(fp: Word, mask: Word) {
    And(fp, mask) == 0
  }

  /** A cut is possible after the first `p` bytes. */
  predicate CutsAt(gear: GearTable, data: seq<Byte>, mask: Word, fp: Word, p: nat)
    requires p <= |data|
  {
    Hit(Roll(gear, fp, data[..p]), mask)
  }

  /** What the scan promises: the earliest position after which the fingerprint is masked to zero. */
  ghost predicate IsFirstCut(gear: GearTable, data: seq<Byte>, mask: Word, fp: Word, r: Option<nat>) {
    match r
    case None => forall p :: 0 < p <= |data| ==> !CutsAt(gear, data, mask, fp, p)
    case Some(n) =>
      && 0 < n <= |data|
      && CutsAt(gear, data, mask, fp, n)
      && forall p :: 0 < p < n ==> !CutsAt(gear, data, mask, fp, p)
  }

  /** The earliest cut among the positions from `from + 1` on. */
  function FirstCutAfter(gear: GearTable, data: seq<Byte>, mask: Word, fp: Word, from: nat): (r: Option<nat>)
    requires from <= |data|
    ensures r.Some? ==> from < r.value <= |data|
    decreases |data| - from
  {
    if from == |data| then None
    else if CutsAt(gear, data, mask, fp, from + 1) then Some(from + 1)
    else FirstCutAfter(gear, data, mask, fp, from + 1)
  }

  function FirstCut(gear: GearTable, data: seq<Byte>, mask: Word, fp: Word): (r: Option<nat>)
    ensures r.Some? ==> 0 < r.value <= |data|
  {
    FirstCutAfter(gear, data, mask, fp, 0)
  }

  lemma {:induction false} FirstCutAfterIsFirst(gear: GearTable, data: seq<Byte>, mask: Word, fp: Word, from: nat)
    requires from <= |data|
    ensures
      var r := FirstCutAfter(gear, data, mask, fp, from);
      && (r.Some? ==> CutsAt(gear, data, mask, fp, r.value))
      && (forall p :: from < p <= |data| && (r.Some? ==> p < r.value) ==> !CutsAt(gear, data, mask, fp, p))
    decreases |data| - from
  {
    if from < |data| && !CutsAt(gear, data, mask, fp, from + 1) {
      FirstCutAfterIsFirst(gear, data, mask, fp, from + 1);
    }
  }

  /** A result satisfies the promise exactly when it is the one the recursive definition gives. */
  lemma FirstCutUnique(gear: GearTable, data: seq<Byte>, mask: Word, fp: Word, r: Option<nat>)
    ensures IsFirstCut(gear, data, mask, fp, r) <==> r == FirstCut(gear, data, mask, fp)
  {
    FirstCutAfterIsFirst(gear, data, mask, fp, 0);
  }

  lemma RollSnoc(gear: GearTable, fp: Word, data: seq<Byte>, n: nat)
    requires n < |data|
    ensures Roll(gear, fp, data[..n + 1]) == Step(gear, Roll(gear, fp, data[..n]), data[n])
  {
    assert data[..n + 1][..n] == data[..n];
  }

  lemma {:induction false} RollConcat(gear: GearTable, fp: Word, a: seq<Byte>, b: seq<Byte>)
    ensures Roll(gear, fp, a + b) == Roll(gear, Roll(gear, fp, a), b)
  {
    if b == [] {
      assert a + b == a;
    } else {
      var n := |b| - 1;
      assert (a + b)[..|a + b| - 1] == a + b[..n];
      RollConcat(gear, fp, a, b[..n]);
    }
  }

  /** `(fp << 1).wrapping_add(x)` is the integer recurrence mod 2^32. */
  lemma StepIsAffine(gear: GearTable, fp: Word, byte: Byte)
    ensures Step(gear, fp, byte) == (2 * fp + gear[byte]) % WORD
  {
    assert Pow2(1) == 2;
  }

  /** The group identity: the starting fingerprint enters only as `fp * 2^n`. */
  lemma {:induction false} RollSplit(gear: GearTable, fp: Word, data: seq<Byte>)
    ensures Roll(gear, fp, data) == (fp * Pow2(|data|) + Roll(gear, 0, data)) % WORD
  {
    if data != [] {
      var n := |data| - 1;
      var init, last := data[..n], data[n];
      RollSplit(gear, fp, init);
      StepIsAffine(gear, Roll(gear, fp, init), last);
      StepIsAffine(gear, Roll(gear, 0, init), last);
      SplitStep(fp, Pow2(n), Roll(gear, fp, init), Roll(gear, 0, init), gear[last]);
    }
  }

  lemma SplitStep(fp: nat, p: nat, r: nat, s: nat, g: nat)
    requires r == (fp * p + s) % WORD
    ensures (2 * r + g) % WORD == (fp * (2 * p) + (2 * s + g) % WORD) % WORD
  {
    MulDouble(fp, p);
    FoldOnce(fp * p, s, g);
  }

  lemma MulDouble(a: nat, b: nat)
    ensures a * (2 * b) == 2 * (a * b)
  {}

  lemma FoldOnce(x: nat, s: nat, g: nat)
    ensures (2 * ((x + s) % WORD) + g) % WORD == (2 * x + (2 * s + g) % WORD) % WORD
  {}

  /** `find_cut_scalar_from`: the scan seeded with a caller-supplied fingerprint. */
  method FindCutScalarFrom(gear: GearTable, data: seq<Byte>, mask: Word, fpInit: Word) returns (r: Option<nat>)
    ensures r == FirstCut(gear, data, mask, fpInit)
  {
    var fp := fpInit;
    var pos := 0;
    while pos < |data|
      invariant pos <= |data|
      invariant fp == Roll(gear, fpInit, data[..pos])
      invariant FirstCut(gear, data, mask, fpInit) == FirstCutAfter(gear, data, mask, fpInit, pos)
    {
      RollSnoc(gear, fpInit, data, pos);
      fp := Step(gear, fp, data[pos]);
      if And(fp, mask) == 0 {
        return Some(pos + 1);
      }
      pos := pos + 1;
    }
    return None;
  }

  /** `find_cut_scalar`: a chunk starts with a zero fingerprint. */
  method FindCutScalar(gear: GearTable, data: seq<Byte>, mask: Word) returns (r: Option<nat>)
    ensures r == FirstCut(gear, data, mask, 0)
  {
    r := FindCutScalarFrom(gear, data, mask, 0);
  }

  /** A scan split at `n`: either the head cuts, or the tail is scanned from the carried fingerprint. */
  lemma FirstCutSplit(gear: GearTable, data: seq<Byte>, mask: Word, fp: Word, n: nat)
    requires n <= |data|
    ensures
      var head := FirstCut(gear, data[..n], mask, fp);
      var tail := FirstCut(gear, data[n..], mask, Roll(gear, fp, data[..n]));
      FirstCut(gear, data, mask, fp) ==
        if head.Some? then head else if tail.Some? then Some(n + tail.value) else None
  {
    var head := FirstCut(gear, data[..n], mask, fp);
    var mid := Roll(gear, fp, data[..n]);
    var tail := FirstCut(gear, data[n..], mask, mid);
    forall p | 0 < p <= n
      ensures CutsAt(gear, data[..n], mask, fp, p) == CutsAt(gear, data, mask, fp, p)
    {
      assert data[..n][..p] == data[..p];
    }
    forall p | n < p <= |data|
      ensures CutsAt(gear, data, mask, fp, p) == CutsAt(gear, data[n..], mask, mid, p - n)
    {
      assert data[..p] == data[..n] + data[n..][..p - n];
      RollConcat(gear, fp, data[..n], data[n..][..p - n]);
    }
    FirstCutUnique(gear, data[..n], mask, fp, head);
    FirstCutUnique(gear, data[n..], mask, mid, tail);
    var whole := if head.Some? then head else if tail.Some? then Some(n + tail.value) else None;
    FirstCutUnique(gear, data, mask, fp, whole);
  }
}
