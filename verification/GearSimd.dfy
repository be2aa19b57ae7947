/**
 The vectorised cut searches of crates/fastcdc/src/simd_x86.rs and simd_arm.rs. A vector register is
 a sequence of lanes; each operation acts on all lanes at once. Both searches are proved to return
 exactly the cut of the byte-serial scan, for every gear table, every input and every mask.
 */
module GearSimd {
  import opened Options
  import opened Words
  import opened Gear

  const POW8: seq<Word> := [2, 4, 8, 16, 32, 64, 128, 256]
  const POW4: seq<Word> := [2, 4, 8, 16]

  /** Lane k of `fp * 2^(k+1) + s_k`. */
  function MulAddLanes(fp: Word, pow: seq<Word>, s: seq<Word>): (v: seq<Word>)
    requires |pow| == |s|
    ensures |v| == |s|
  {
    seq(|s|, k requires 0 <= k < |s| => WrappingAdd(MulLo(fp, pow[k]), s[k]))
  }

  /** AND every lane with the mask and compare it with zero. */
  function ZeroLanes(v: seq<Word>, mask: Word): (hits: seq<bool>)
    ensures |hits| == |v|
  {
    seq(|v|, k requires 0 <= k < |v| => And(v[k], mask) == 0)
  }

  /** `_mm256_movemask_ps`: one bit per lane, lane 0 lowest. */
  function MoveMask(hits: seq<bool>): nat {
    if hits == [] then 0 else (if hits[0] then 1 else 0) + 2 * MoveMask(hits[1..])
  }

  function TrailingZeros(n: nat): nat
    requires n > 0
  {
    if n % 2 == 1 then 0 else 1 + TrailingZeros(n / 2)
  }

  /** The lowest set bit of the mask is the first lane that hit. */
  lemma {:induction false} LowestLane(hits: seq<bool>)
    ensures MoveMask(hits) == 0 ==> forall k :: 0 <= k < |hits| ==> !hits[k]
    ensures MoveMask(hits) > 0 ==>
      var lane := TrailingZeros(MoveMask(hits));
      lane < |hits| && hits[lane] && forall k :: 0 <= k < lane ==> !hits[k]
  {
    if hits != [] {
      var rest := hits[1..];
      LowestLane(rest);
      assert forall k :: 0 < k < |hits| ==> hits[k] == rest[k - 1];
      if hits[0] {
        assert MoveMask(hits) % 2 == 1;
      } else {
        assert MoveMask(hits) % 2 == 0 && MoveMask(hits) / 2 == MoveMask(rest);
      }
    }
  }

  /** A power vector holds 2^(k+1) in lane k, and a suffix chain holds the cold-started fingerprints. */
  ghost predicate LaneInputs(gear: GearTable, group: seq<Byte>, pow: seq<Word>, s: seq<Word>) {
    && |pow| == |s| == |group|
    && (forall k :: 0 <= k < |pow| ==> pow[k] == Pow2(k + 1))
    && (forall k :: 0 <= k < |s| ==> s[k] == Roll(gear, 0, group[..k + 1]))
  }

  lemma LanePowers()
    ensures forall k :: 0 <= k < 8 ==> POW8[k] == Pow2(k + 1)
    ensures forall k :: 0 <= k < 4 ==> POW4[k] == Pow2(k + 1)
  {
    Pow2Small();
  }

  /** The fold after a clean group: `(fp << n) + s_(n-1)` is the scalar fingerprint after the group. */
  lemma FoldIdentity(gear: GearTable, fp: Word, group: seq<Byte>)
    ensures WrappingAdd(Shl(fp, |group|), Roll(gear, 0, group)) == Roll(gear, fp, group)
  {
    RollSplit(gear, fp, group);
    ModAdd(fp * Pow2(|group|), Roll(gear, 0, group));
  }

  lemma ModAdd(x: nat, y: nat)
    ensures (x % WORD + y) % WORD == (x + y) % WORD
  {}

  /** The lane identity: lane k is the scalar fingerprint after k+1 bytes of the group. */
  lemma LaneIdentity(gear: GearTable, fp: Word, group: seq<Byte>, pow: seq<Word>, s: seq<Word>, k: nat)
    requires LaneInputs(gear, group, pow, s) && k < |s|
    ensures MulAddLanes(fp, pow, s)[k] == Roll(gear, fp, group[..k + 1])
  {
    FoldIdentity(gear, fp, group[..k + 1]);
  }

  /** One vector test of a group decides the group's first cut. */
  lemma GroupVerdict(gear: GearTable, fp: Word, group: seq<Byte>, pow: seq<Word>, s: seq<Word>, mask: Word)
    requires LaneInputs(gear, group, pow, s)
    ensures
      var bits := MoveMask(ZeroLanes(MulAddLanes(fp, pow, s), mask));
      FirstCut(gear, group, mask, fp) == if bits == 0 then None else Some(TrailingZeros(bits) + 1)
  {
    var hits := ZeroLanes(MulAddLanes(fp, pow, s), mask);
    forall k | 0 <= k < |s|
      ensures hits[k] == CutsAt(gear, group, mask, fp, k + 1)
    {
      LaneIdentity(gear, fp, group, pow, s, k);
    }
    LowestLane(hits);
    var bits := MoveMask(hits);
    var r := if bits == 0 then None else Some(TrailingZeros(bits) + 1);
    assert forall p :: 0 < p <= |group| ==> CutsAt(gear, group, mask, fp, p) == hits[p - 1];
    FirstCutUnique(gear, group, mask, fp, r);
  }

  function Shift(n: nat, r: Option<nat>): Option<nat> {
    match r
    case None => None
    case Some(v) => Some(n + v)
  }

  /** A vector test of the next group either finds the scan's cut or leaves the scan of what follows it. */
  lemma GroupStep(gear: GearTable, rest: seq<Byte>, mask: Word, fp: Word, pow: seq<Word>, s: seq<Word>)
    requires 0 < |s| <= |rest| && LaneInputs(gear, rest[..|s|], pow, s)
    ensures
      var n := |s|;
      var bits := MoveMask(ZeroLanes(MulAddLanes(fp, pow, s), mask));
      FirstCut(gear, rest, mask, fp) ==
        if bits != 0 then Some(TrailingZeros(bits) + 1)
        else Shift(n, FirstCut(gear, rest[n..], mask, WrappingAdd(Shl(fp, n), s[n - 1])))
  {
    var n := |s|;
    var group := rest[..n];
    GroupVerdict(gear, fp, group, pow, s, mask);
    FirstCutSplit(gear, rest, mask, fp, n);
    assert group[..n] == group;
    FoldIdentity(gear, fp, group);
  }

  /** The first `k` entries of a suffix chain are in place and `acc` is the latest of them. */
  ghost predicate ChainTo(gear: GearTable, half: seq<Byte>, s: seq<Word>, acc: Word, k: nat) {
    && k <= |half| == |s|
    && acc == Roll(gear, 0, half[..k])
    && forall j :: 0 <= j < k ==> s[j] == Roll(gear, 0, half[..j + 1])
  }

  /** Appending one suffix-chain step. */
  lemma ChainStep(gear: GearTable, half: seq<Byte>, s: seq<Word>, acc: Word, k: nat)
    requires k < |half| && ChainTo(gear, half, s, acc, k)
    ensures
      var next := WrappingAdd(Shl(acc, 1), gear[half[k]]);
      ChainTo(gear, half, s[k := next], next, k + 1)
  {
    RollSnoc(gear, 0, half, k);
  }

  /**
   One vector test: multiply-add all lanes, AND with the mask, compare with zero, take the lowest set
   bit; without a hit, fold the fingerprint over the group. `rest` is the input from the group on.
   */
  method ProbeGroup(gear: GearTable, fp: Word, pow: seq<Word>, s: seq<Word>, mask: Word, ghost rest: seq<Byte>)
    returns (lane: Option<nat>, next: Word)
    requires 0 < |s| <= |rest| && LaneInputs(gear, rest[..|s|], pow, s)
    ensures lane.Some? ==> FirstCut(gear, rest, mask, fp) == Some(lane.value + 1)
    ensures lane.None? ==>
      FirstCut(gear, rest, mask, fp) == Shift(|s|, FirstCut(gear, rest[|s|..], mask, next))
  {
    GroupStep(gear, rest, mask, fp, pow, s);
    var bits := MoveMask(ZeroLanes(MulAddLanes(fp, pow, s), mask));
    lane := if bits != 0 then Some(TrailingZeros(bits)) else None;
    next := WrappingAdd(Shl(fp, |s|), s[|s| - 1]);
  }

  /** The two interleaved suffix chains of one 16-byte pair. */
  method SuffixChains(gear: GearTable, pair: seq<Byte>) returns (sLo: array<Word>, sHi: array<Word>)
    requires |pair| == 16
    ensures LaneInputs(gear, pair[..8], POW8, sLo[..]) && LaneInputs(gear, pair[8..], POW8, sHi[..])
  {
    sLo := new Word[8](_ => 0);
    sHi := new Word[8](_ => 0);
    var accLo: Word, accHi: Word := 0, 0;
    ghost var lo, hi := pair[..8], pair[8..];
    for k := 0 to 8
      invariant ChainTo(gear, lo, sLo[..], accLo, k) && ChainTo(gear, hi, sHi[..], accHi, k)
    {
      ChainStep(gear, lo, sLo[..], accLo, k);
      ChainStep(gear, hi, sHi[..], accHi, k);
      accLo := WrappingAdd(Shl(accLo, 1), gear[pair[k]]);
      sLo[k] := accLo;
      accHi := WrappingAdd(Shl(accHi, 1), gear[pair[k + 8]]);
      sHi[k] := accHi;
    }
    LanePowers();
  }

  /** `find_cut_avx2`: 16 bytes per iteration as two 8-lane halves with independent suffix chains. */
  method FindCutAvx2(gear: GearTable, data: seq<Byte>, mask: Word) returns (r: Option<nat>)
    ensures r == FirstCut(gear, data, mask, 0)
  {
    var fp: Word := 0;
    var consumed := 0;
    assert data[0..] == data;
    while consumed + 16 <= |data|
      invariant consumed <= |data|
      invariant FirstCut(gear, data, mask, 0) == Shift(consumed, FirstCut(gear, data[consumed..], mask, fp))
    {
      ghost var rest := data[consumed..];
      var pair := data[consumed..consumed + 16];
      var sLo, sHi := SuffixChains(gear, pair);

      assert pair[..8] == rest[..8];
      var lo, fpMid := ProbeGroup(gear, fp, POW8, sLo[..], mask, rest);
      if lo.Some? {
        return Some(consumed + lo.value + 1);
      }
      assert pair[8..] == rest[8..][..8];
      var hi, fpNext := ProbeGroup(gear, fpMid, POW8, sHi[..], mask, rest[8..]);
      if hi.Some? {
        return Some(consumed + 8 + hi.value + 1);
      }
      assert rest[8..][8..] == data[consumed + 16..];
      fp := fpNext;
      consumed := consumed + 16;
    }
    var rest := data[consumed..];
    if rest == [] {
      return None;
    }
    var tail := FindCutScalarFrom(gear, rest, mask, fp);
    r := Shift(consumed, tail);
  }

  /** The suffix chain of one 4-byte group. */
  method SuffixChain(gear: GearTable, group: seq<Byte>) returns (s: array<Word>)
    requires |group| == 4
    ensures LaneInputs(gear, group, POW4, s[..])
  {
    s := new Word[4](_ => 0);
    var acc: Word := 0;
    for k := 0 to 4
      invariant ChainTo(gear, group, s[..], acc, k)
    {
      ChainStep(gear, group, s[..], acc, k);
      acc := WrappingAdd(Shl(acc, 1), gear[group[k]]);
      s[k] := acc;
    }
    LanePowers();
  }

  /** The NEON test of one group: lanes examined one by one, lowest first. */
  method ProbeLaneByLane(gear: GearTable, fp: Word, s: seq<Word>, mask: Word, ghost rest: seq<Byte>)
    returns (lane: Option<nat>, next: Word)
    requires 4 == |s| <= |rest| && LaneInputs(gear, rest[..4], POW4, s)
    ensures lane.Some? ==> FirstCut(gear, rest, mask, fp) == Some(lane.value + 1)
    ensures lane.None? ==> FirstCut(gear, rest, mask, fp) == Shift(4, FirstCut(gear, rest[4..], mask, next))
  {
    GroupStep(gear, rest, mask, fp, POW4, s);
    var hits := ZeroLanes(MulAddLanes(fp, POW4, s), mask);
    LowestLane(hits);
    next := WrappingAdd(Shl(fp, 4), s[3]);
    lane :=
      if hits[0] then Some(0)
      else if hits[1] then Some(1)
      else if hits[2] then Some(2)
      else if hits[3] then Some(3)
      else None;
  }

  /** `find_cut_neon`: groups of four lanes. */
  method FindCutNeon(gear: GearTable, data: seq<Byte>, mask: Word) returns (r: Option<nat>)
    ensures r == FirstCut(gear, data, mask, 0)
  {
    var fp: Word := 0;
    var consumed := 0;
    assert data[0..] == data;
    while consumed + 4 <= |data|
      invariant consumed <= |data|
      invariant FirstCut(gear, data, mask, 0) == Shift(consumed, FirstCut(gear, data[consumed..], mask, fp))
    {
      ghost var rest := data[consumed..];
      var group := data[consumed..consumed + 4];
      var s := SuffixChain(gear, group);
      assert group == rest[..4];
      var lane, fpNext := ProbeLaneByLane(gear, fp, s[..], mask, rest);
      if lane.Some? {
        return Some(consumed + lane.value + 1);
      }
      assert rest[4..] == data[consumed + 4..];
      fp := fpNext;
      consumed := consumed + 4;
    }
    var rest := data[consumed..];
    if rest == [] {
      return None;
    }
    var tail := FindCutScalarFrom(gear, rest, mask, fp);
    r := Shift(consumed, tail);
  }

  datatype Path = Scalar | Avx2 | Neon

  /** `find_cut`: whichever path is selected at run time, the answer is the scalar one. */
  method FindCut(path: Path, gear: GearTable, data: seq<Byte>, mask: Word) returns (r: Option<nat>)
    ensures r == FirstCut(gear, data, mask, 0)
  {
    match path
    case Scalar => r := FindCutScalar(gear, data, mask);
    case Avx2 => r := FindCutAvx2(gear, data, mask);
    case Neon => r := FindCutNeon(gear, data, mask);
  }
}
