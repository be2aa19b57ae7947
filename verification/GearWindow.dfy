/**
 The Gear fingerprint under a mask of low ones. Only the last `b` bytes decide a `b`-bit hit; hence the
 two-phase cut, which restarts the fingerprint in each phase, is compared with the oracle of
 crates/fastcdc/tests/oracle.rs, which carries one fingerprint through the whole chunk.
 */
module GearWindow {
  import opened Options
  import opened Words
  import opened Gear
  import opened Chunking
  import opened FastCdc
  import opened FastCdcLaws

  /** The mask 2^b - 1. */
  function LowMask(b: nat): Word
    requires b <= 32
  {
    Pow2At32();
    Pow2Monotone(b, 32);
    Pow2(b) - 1
  }

  lemma {:induction false} Pow2Monotone(a: nat, b: nat)
    requires a <= b
    ensures Pow2(a) <= Pow2(b)
  {
    if a < b {
      Pow2Monotone(a, b - 1);
    }
  }

  lemma LowHit(fp: Word, b: nat)
    requires b <= 32
    ensures Hit(fp, LowMask(b)) <==> fp % Pow2(b) == 0
  {
    AndLowMask(fp, b);
  }

  /** Under the mask 2^b - 1, what is left of the fingerprint is a function of the last `b` bytes alone. */
  lemma LastBytesDecide(gear: GearTable, fp: Word, data: seq<Byte>, b: nat)
    requires b <= 32 && b <= |data|
    ensures And(Roll(gear, fp, data), LowMask(b)) == And(Roll(gear, 0, data[|data| - b..]), LowMask(b))
  {
    var head, last := data[..|data| - b], data[|data| - b..];
    assert data == head + last;
    RollConcat(gear, fp, head, last);
    SuffixDecides(gear, Roll(gear, fp, head), last, b);
  }

  lemma SuffixDecides(gear: GearTable, mid: Word, last: seq<Byte>, b: nat)
    requires b <= 32 && |last| == b
    ensures And(Roll(gear, mid, last), LowMask(b)) == And(Roll(gear, 0, last), LowMask(b))
  {
    RollSplit(gear, mid, last);
    LowBitsOfSplit(mid, Roll(gear, 0, last), b);
  }

  lemma LowBitsOfSplit(mid: Word, s: Word, b: nat)
    requires b <= 32
    ensures And((mid * Pow2(b) + s) % WORD, LowMask(b)) == And(s, LowMask(b))
  {
    AndLowMask((mid * Pow2(b) + s) % WORD, b);
    AndLowMask(s, b);
    RemainderOfSplit(mid, s, b);
  }

  lemma RemainderOfSplit(mid: Word, s: Word, b: nat)
    requires b <= 32
    ensures ((mid * Pow2(b) + s) % WORD) % Pow2(b) == s % Pow2(b)
  {
    ModWordThenPow2(mid * Pow2(b) + s, b);
    ModAddMultiple(s, mid, Pow2(b));
  }

  lemma HitsAgreeLate(gear: GearTable, fp: Word, data: seq<Byte>, b: nat, p: nat)
    requires 0 < b <= 32 && b <= p <= |data|
    ensures CutsAt(gear, data, LowMask(b), fp, p) == CutsAt(gear, data, LowMask(b), 0, p)
  {
    LastBytesDecide(gear, fp, data[..p], b);
    LastBytesDecide(gear, 0, data[..p], b);
  }

  /** The bytes on which a seeded scan can still differ from a cold one. */
  function WarmUp(data: seq<Byte>, b: nat): seq<Byte>
    requires b > 0
  {
    data[..Min(b - 1, |data|)]
  }

  /**
   A scan seeded with any fingerprint and a cold scan find the same cut exactly when they already do on
   the first b - 1 bytes; in particular whenever neither cuts there.
   */
  lemma SeedForgotten(gear: GearTable, fp: Word, data: seq<Byte>, b: nat)
    requires 0 < b <= 32
    ensures
      FirstCut(gear, data, LowMask(b), fp) == FirstCut(gear, data, LowMask(b), 0) <==>
      FirstCut(gear, WarmUp(data, b), LowMask(b), fp) == FirstCut(gear, WarmUp(data, b), LowMask(b), 0)
  {
    var mask, n := LowMask(b), |WarmUp(data, b)|;
    var head := data[..n];
    FirstCutSplit(gear, data, mask, fp, n);
    FirstCutSplit(gear, data, mask, 0, n);
    if FirstCut(gear, head, mask, fp).None? && FirstCut(gear, head, mask, 0).None? {
      ColdAndWarmLate(gear, fp, data, b);
    }
  }

  lemma ColdAndWarmLate(gear: GearTable, fp: Word, data: seq<Byte>, b: nat)
    requires 0 < b <= 32
    requires FirstCut(gear, WarmUp(data, b), LowMask(b), fp).None?
    requires FirstCut(gear, WarmUp(data, b), LowMask(b), 0).None?
    ensures FirstCut(gear, data, LowMask(b), fp) == FirstCut(gear, data, LowMask(b), 0)
  {
    var mask, n := LowMask(b), |WarmUp(data, b)|;
    var head := WarmUp(data, b);
    FirstCutUnique(gear, head, mask, fp, None);
    FirstCutUnique(gear, head, mask, 0, None);
    forall p | 0 < p <= |data|
      ensures CutsAt(gear, data, mask, fp, p) == CutsAt(gear, data, mask, 0, p)
    {
      if p <= n {
        assert head[..p] == data[..p];
        assert !CutsAt(gear, head, mask, fp, p) && !CutsAt(gear, head, mask, 0, p);
      } else {
        HitsAgreeLate(gear, fp, data, b, p);
      }
    }
    var r := FirstCut(gear, data, mask, 0);
    FirstCutUnique(gear, data, mask, 0, r);
    FirstCutUnique(gear, data, mask, fp, r);
  }

  // ---------------------------------------------------------------------------------------------
  // The carried-fingerprint oracle
  // ---------------------------------------------------------------------------------------------

  function FirstWindow(cfg: Config, data: seq<Byte>): seq<Byte> {
    var end := Min(Min(|data|, cfg.maxChunk), cfg.avgChunk);
    if end > cfg.minChunk then data[cfg.minChunk..end] else []
  }

  function SecondWindow(cfg: Config, data: seq<Byte>): seq<Byte> {
    var cap := Min(|data|, cfg.maxChunk);
    if cap > cfg.avgChunk then data[cfg.avgChunk..cap] else []
  }

  /** The fingerprint of the first `n` bytes of the chunk. */
  function Carried(cfg: Config, data: seq<Byte>, n: nat): Word {
    Roll(cfg.gear, 0, data[..Min(n, |data|)])
  }

  function WarmFirst(cfg: Config, data: seq<Byte>): Option<nat> {
    FirstCut(cfg.gear, FirstWindow(cfg, data), cfg.maskS, Carried(cfg, data, cfg.minChunk))
  }

  function WarmSecond(cfg: Config, data: seq<Byte>): Option<nat> {
    FirstCut(cfg.gear, SecondWindow(cfg, data), cfg.maskL, Carried(cfg, data, cfg.avgChunk))
  }

  /**
   The naive simulation: one running fingerprint per chunk, warmed up over the bytes below the minimum
   and carried from phase 1 into phase 2.  It reports lengths only.
   */
  function OracleLength(cfg: Config, data: seq<Byte>): (n: nat)
    requires cfg.Valid()
    ensures data != [] ==> 0 < n <= |data|
  {
    var first, second := WarmFirst(cfg, data), WarmSecond(cfg, data);
    if first.Some? then cfg.minChunk + first.value
    else if second.Some? then cfg.avgChunk + second.value
    else Min(|data|, cfg.maxChunk)
  }

  ghost predicate Masks(cfg: Config, bs: nat, bl: nat) {
    0 < bs <= 32 && 0 < bl <= 32 && cfg.maskS == LowMask(bs) && cfg.maskL == LowMask(bl)
  }

  /** A seeded and a cold scan of the first b - 1 bytes of a phase give the same answer. */
  ghost predicate WarmUpsAgree(gear: GearTable, window: seq<Byte>, fp: Word, b: nat)
    requires 0 < b <= 32
  {
    FirstCut(gear, WarmUp(window, b), LowMask(b), fp) == FirstCut(gear, WarmUp(window, b), LowMask(b), 0)
  }

  /** One of the answers is a cut at `n`, the other is none. */
  predicate OneEndsAt(a: Option<nat>, b: Option<nat>, n: nat) {
    (a == None && b == Some(n)) || (a == Some(n) && b == None)
  }

  /**
   The whole phase is shorter than b bytes, and one of the two scans of it hits, at its very last byte.
   Where the phase is the last one of the chunk, that cut changes nothing.
   */
  ghost predicate WarmUpsEnd(gear: GearTable, window: seq<Byte>, fp: Word, b: nat)
    requires 0 < b <= 32
  {
    && |window| < b
    && OneEndsAt(
         FirstCut(gear, WarmUp(window, b), LowMask(b), fp), FirstCut(gear, WarmUp(window, b), LowMask(b), 0), |window|)
  }

  /**
   The condition on one chunk, in terms of the first b - 1 bytes of each phase: they hide the carried
   fingerprint, or the scans differ only in a cut at the end of the last phase the chunk has.
   */
  ghost predicate Forgets(cfg: Config, bs: nat, bl: nat, data: seq<Byte>)
    requires Masks(cfg, bs, bl)
  {
    var w1, fp1 := FirstWindow(cfg, data), Carried(cfg, data, cfg.minChunk);
    var w2, fp2 := SecondWindow(cfg, data), Carried(cfg, data, cfg.avgChunk);
    || (&& WarmUpsAgree(cfg.gear, w1, fp1, bs)
        && (FirstPhase(cfg, data).None? ==> WarmUpsAgree(cfg.gear, w2, fp2, bl) || WarmUpsEnd(cfg.gear, w2, fp2, bl)))
    || (Min(|data|, cfg.maxChunk) <= cfg.avgChunk && WarmUpsEnd(cfg.gear, w1, fp1, bs))
  }

  lemma PhasesAreWindowScans(cfg: Config, data: seq<Byte>)
    ensures FirstPhase(cfg, data) == FirstCut(cfg.gear, FirstWindow(cfg, data), cfg.maskS, 0)
    ensures SecondPhase(cfg, data) == FirstCut(cfg.gear, SecondWindow(cfg, data), cfg.maskL, 0)
  {}

  /** From b bytes on the last byte's hit no longer depends on the seed, so only short phases can differ there. */
  lemma EndsInWarmUp(gear: GearTable, fp: Word, window: seq<Byte>, b: nat)
    requires 0 < b <= 32
    ensures
      OneEndsAt(FirstCut(gear, window, LowMask(b), fp), FirstCut(gear, window, LowMask(b), 0), |window|) <==>
      WarmUpsEnd(gear, window, fp, b)
  {
    var n, mask := |window|, LowMask(b);
    if n < b {
      assert WarmUp(window, b) == window;
    } else {
      var warm, cold := FirstCut(gear, window, mask, fp), FirstCut(gear, window, mask, 0);
      FirstCutUnique(gear, window, mask, fp, warm);
      FirstCutUnique(gear, window, mask, 0, cold);
      HitsAgreeLate(gear, fp, window, b, n);
    }
  }

  /** The lengths in terms of the scans' answers. */
  lemma LengthsAgree(cfg: Config, data: seq<Byte>)
    requires cfg.Valid()
    ensures
      var f, s, f', s' := FirstPhase(cfg, data), SecondPhase(cfg, data), WarmFirst(cfg, data), WarmSecond(cfg, data);
      OracleLength(cfg, data) == CutOf(cfg, data).length <==>
      || (f == f' && (f.None? ==> s == s' || OneEndsAt(s', s, |SecondWindow(cfg, data)|)))
      || (Min(|data|, cfg.maxChunk) <= cfg.avgChunk && OneEndsAt(f', f, |FirstWindow(cfg, data)|))
  {
    PhasesAreWindowScans(cfg, data);
  }

  /** The shipped cut has the oracle's length exactly when the warm-up bytes of each phase allow it. */
  lemma OracleAgreement(cfg: Config, bs: nat, bl: nat, data: seq<Byte>)
    requires cfg.Valid() && Masks(cfg, bs, bl)
    ensures OracleLength(cfg, data) == CutOf(cfg, data).length <==> Forgets(cfg, bs, bl, data)
  {
    var w1, fp1 := FirstWindow(cfg, data), Carried(cfg, data, cfg.minChunk);
    var w2, fp2 := SecondWindow(cfg, data), Carried(cfg, data, cfg.avgChunk);
    PhasesAreWindowScans(cfg, data);
    SeedForgotten(cfg.gear, fp1, w1, bs);
    SeedForgotten(cfg.gear, fp2, w2, bl);
    EndsInWarmUp(cfg.gear, fp1, w1, bs);
    EndsInWarmUp(cfg.gear, fp2, w2, bl);
    LengthsAgree(cfg, data);
  }

  function OracleRule(cfg: Config): LengthRule
    requires cfg.Valid()
  {
    (data: seq<Byte>) => OracleLength(cfg, data)
  }

  /** Every chunk start of the shipped chunker satisfies the condition. */
  ghost predicate ForgetsAlong(cfg: Config, bs: nat, bl: nat, data: seq<Byte>)
    requires cfg.Valid() && Masks(cfg, bs, bl)
    decreases |data|
  {
    data == [] || (Forgets(cfg, bs, bl, data) && ForgetsAlong(cfg, bs, bl, data[CutOf(cfg, data).length..]))
  }

  lemma {:induction false} ForgetsIsAgrees(cfg: Config, bs: nat, bl: nat, data: seq<Byte>)
    requires cfg.Valid() && Masks(cfg, bs, bl) && Productive(CdcRule(cfg))
    ensures ForgetsAlong(cfg, bs, bl, data) <==> AgreeAlong(CdcRule(cfg), OracleRule(cfg), data)
    decreases |data|
  {
    if data != [] {
      OracleAgreement(cfg, bs, bl, data);
      ForgetsIsAgrees(cfg, bs, bl, data[CutOf(cfg, data).length..]);
    }
  }

  /**
   The boundaries of the whole stream are the oracle's exactly when the condition holds at every chunk
   start.  The offsets then agree as well, since both sides tile the input.
   */
  lemma StreamMatchesOracle(cfg: Config, bs: nat, bl: nat, data: seq<Byte>)
    requires cfg.Valid() && Masks(cfg, bs, bl)
    ensures Advances(OracleRule(cfg))
    ensures LengthsBy(OracleRule(cfg), data) == Lengths(Chunks(cfg, data, 0)) <==> ForgetsAlong(cfg, bs, bl, data)
  {
    RuleProductive(cfg);
    ChunksAreByRule(cfg, data, 0);
    ForgetsIsAgrees(cfg, bs, bl, data);
    SameLengths(CdcRule(cfg), OracleRule(cfg), data, 0);
  }

  const DifferGear: GearTable := seq(256, i => if i == 0 then 4 else 1)

  const DifferConfig := Config(1, 3, 3, 3, 3, DifferGear, false)

  /** The boundaries do differ: a table entry divisible by 4 hits a cold 2-bit scan but not the carried one. */
  lemma OracleCanDiffer()
    ensures DifferConfig.Valid() && Masks(DifferConfig, 2, 2)
    ensures CutOf(DifferConfig, [1, 0, 1]).length == 2 && OracleLength(DifferConfig, [1, 0, 1]) == 3
  {
    var cfg, data, window := DifferConfig, [1, 0, 1], [0, 1];
    DifferHits();
    assert Pow2(2) == 4;
    assert FirstWindow(cfg, data) == data[1..3] == window;
    assert Carried(cfg, data, 1) == 1 by {
      assert data[..1] == [1];
    }
    PhasesAreWindowScans(cfg, data);
    FirstCutUnique(cfg.gear, window, 3, 0, Some(1));
    FirstCutUnique(cfg.gear, window, 3, 1, None);
    assert SecondWindow(cfg, data) == [];
  }

  lemma DifferHits()
    ensures Roll(DifferGear, 0, [1]) == 1
    ensures
      var window := [0, 1];
      && CutsAt(DifferGear, window, 3, 0, 1)
      && !CutsAt(DifferGear, window, 3, 1, 1) && !CutsAt(DifferGear, window, 3, 1, 2)
  {
    var window := [0, 1];
    DifferRolls();
    assert window[..1] == [0];
    assert window[..2] == window;
    assert And(4, 3) == 0 && And(6, 3) == 2 && And(13, 3) == 1;
  }

  lemma DifferRolls()
    ensures Roll(DifferGear, 0, [1]) == 1 && Roll(DifferGear, 0, [0]) == 4
    ensures Roll(DifferGear, 1, [0]) == 6 && Roll(DifferGear, 1, [0, 1]) == 13
  {
    RollOne(0, 1);
    RollOne(0, 0);
    RollOne(1, 0);
    StepIsAffine(DifferGear, 6, 1);
    assert [0, 1][..1] == [0];
  }

  lemma RollOne(fp: Word, byte: Byte)
    ensures Roll(DifferGear, fp, [byte]) == (2 * fp + DifferGear[byte]) % WORD
  {
    assert [byte][..0] == [];
    StepIsAffine(DifferGear, fp, byte);
  }

  // ---------------------------------------------------------------------------------------------
  // Constant input
  // ---------------------------------------------------------------------------------------------

  function Run(v: Byte, n: nat): (s: seq<Byte>)
    ensures |s| == n && forall i :: 0 <= i < n ==> s[i] == v
  {
    seq(n, _ => v)
  }

  lemma RunSlice(v: Byte, n: nat, lo: nat, hi: nat)
    requires lo <= hi <= n
    ensures Run(v, n)[lo..hi] == Run(v, hi - lo)
  {}

  /** The fingerprint of a run: `gear[v] * (2^n - 1)`. */
  lemma {:induction false} RunFingerprint(gear: GearTable, v: Byte, n: nat)
    ensures Roll(gear, 0, Run(v, n)) == (gear[v] * (Pow2(n) - 1)) % WORD
  {
    if n > 0 {
      RunSlice(v, n, 0, n - 1);
      assert Run(v, n)[..n - 1] == Run(v, n - 1);
      RunFingerprint(gear, v, n - 1);
      StepIsAffine(gear, Roll(gear, 0, Run(v, n - 1)), v);
      RunStep(gear[v], Pow2(n - 1));
    }
  }

  lemma RunStep(g: nat, p: nat)
    requires p > 0
    ensures (2 * ((g * (p - 1)) % WORD) + g) % WORD == (g * (2 * p - 1)) % WORD
  {
    assert g * (2 * p - 1) == 2 * (g * (p - 1)) + g;
    DoubleModWord(g * (p - 1), g);
  }

  lemma DoubleModWord(x: nat, g: nat)
    ensures (2 * (x % WORD) + g) % WORD == (2 * x + g) % WORD
  {}

  /** An odd factor does not change divisibility by a power of two. */
  lemma {:induction false} OddFactor(g: nat, m: nat, b: nat)
    requires m % 2 == 1
    ensures (g * m) % Pow2(b) == 0 <==> g % Pow2(b) == 0
  {
    if b == 0 {
      assert (g * m) % 1 == 0 && g % 1 == 0;
    } else {
      var p := Pow2(b - 1);
      var h := g / 2;
      DoubleMod(g, p);
      DoubleMod(g * m, p);
      OddProductParity(g, m);
      if g % 2 == 0 {
        assert g == 2 * h;
        assert (g * m) / 2 == h * m by { assert g * m == 2 * (h * m); }
        OddFactor(h, m, b - 1);
      }
    }
  }

  lemma OddProductParity(g: nat, m: nat)
    requires m % 2 == 1
    ensures (g * m) % 2 == g % 2
  {
    var k := m / 2;
    assert g * m == g + 2 * (g * k) by { assert m == 2 * k + 1; }
  }

  /** On a run, a `b`-bit mask hits at every position if 2^b divides the table entry, and nowhere otherwise. */
  lemma RunHit(gear: GearTable, v: Byte, n: nat, b: nat)
    requires n > 0 && b <= 32
    ensures Hit(Roll(gear, 0, Run(v, n)), LowMask(b)) <==> gear[v] % Pow2(b) == 0
  {
    RunFingerprint(gear, v, n);
    OneLessIsOdd(Pow2(n - 1));
    ProductHit(Roll(gear, 0, Run(v, n)), gear[v], Pow2(n) - 1, b);
  }

  lemma OneLessIsOdd(p: nat)
    requires p > 0
    ensures (2 * p - 1) % 2 == 1
  {}

  lemma ProductHit(fp: Word, g: nat, m: nat, b: nat)
    requires fp == (g * m) % WORD && m % 2 == 1 && b <= 32
    ensures Hit(fp, LowMask(b)) <==> g % Pow2(b) == 0
  {
    LowHit(fp, b);
    OddFactorMasked(g, m, b);
  }

  lemma OddFactorMasked(g: nat, m: nat, b: nat)
    requires m % 2 == 1 && b <= 32
    ensures ((g * m) % WORD) % Pow2(b) == 0 <==> g % Pow2(b) == 0
  {
    ModWordThenPow2(g * m, b);
    OddFactor(g, m, b);
  }

  lemma RunScan(gear: GearTable, v: Byte, n: nat, b: nat)
    requires b <= 32
    ensures FirstCut(gear, Run(v, n), LowMask(b), 0) == if n > 0 && gear[v] % Pow2(b) == 0 then Some(1) else None
  {
    var r := if n > 0 && gear[v] % Pow2(b) == 0 then Some(1) else None;
    forall p | 0 < p <= n
      ensures CutsAt(gear, Run(v, n), LowMask(b), 0, p) <==> gear[v] % Pow2(b) == 0
    {
      RunSlice(v, n, 0, p);
      assert Run(v, n)[..p] == Run(v, p);
      RunHit(gear, v, p, b);
    }
    FirstCutUnique(gear, Run(v, n), LowMask(b), 0, r);
  }

  ghost predicate Divides(gear: GearTable, v: Byte, b: nat) {
    gear[v] % Pow2(b) == 0
  }

  lemma RunFirstPhase(cfg: Config, bs: nat, bl: nat, v: Byte, n: nat)
    requires cfg.Valid() && Masks(cfg, bs, bl)
    ensures FirstPhase(cfg, Run(v, n)) == if n > cfg.minChunk && Divides(cfg.gear, v, bs) then Some(1) else None
  {
    var end := Min(Min(n, cfg.maxChunk), cfg.avgChunk);
    if end > cfg.minChunk {
      RunSlice(v, n, cfg.minChunk, end);
      RunScan(cfg.gear, v, end - cfg.minChunk, bs);
    }
  }

  lemma RunSecondPhase(cfg: Config, bs: nat, bl: nat, v: Byte, n: nat)
    requires cfg.Valid() && Masks(cfg, bs, bl)
    ensures SecondPhase(cfg, Run(v, n)) ==
      if n > cfg.avgChunk && cfg.maxChunk > cfg.avgChunk && Divides(cfg.gear, v, bl) then Some(1) else None
  {
    var cap := Min(n, cfg.maxChunk);
    if cap > cfg.avgChunk {
      RunSlice(v, n, cfg.avgChunk, cap);
      RunScan(cfg.gear, v, cap - cfg.avgChunk, bl);
    }
  }

  /** The cut at the ceiling or at the end of input. */
  function CeilingCut(n: nat, max: nat): Cut {
    Cut(Min(n, max), if n < max then EofTail else HardMax)
  }

  /** The first cut of a run, for every table entry: one byte past a phase's start, or no content cut at all. */
  lemma RunCut(cfg: Config, bs: nat, bl: nat, v: Byte, n: nat)
    requires cfg.Valid() && Masks(cfg, bs, bl)
    ensures CutOf(cfg, Run(v, n)) ==
      if n > cfg.minChunk && Divides(cfg.gear, v, bs) then Cut(cfg.minChunk + 1, SubAverage)
      else if n > cfg.avgChunk && cfg.maxChunk > cfg.avgChunk && Divides(cfg.gear, v, bl) then
        Cut(cfg.avgChunk + 1, PostAverage)
      else CeilingCut(n, cfg.maxChunk)
  {
    RunFirstPhase(cfg, bs, bl, v, n);
    RunSecondPhase(cfg, bs, bl, v, n);
  }

  lemma RunCeiling(cfg: Config, bs: nat, bl: nat, v: Byte, n: nat)
    requires cfg.Valid() && Masks(cfg, bs, bl) && !Divides(cfg.gear, v, bs) && !Divides(cfg.gear, v, bl)
    ensures CutOf(cfg, Run(v, n)) == CeilingCut(n, cfg.maxChunk)
  {
    RunCut(cfg, bs, bl, v, n);
  }

  /** Pieces of `max` bytes at the ceiling, then one tail if anything is left. */
  function CeilingPieces(n: nat, max: nat, offset: nat): seq<Chunk>
    requires max > 0
  {
    if n == 0 then []
    else if n < max then [Chunk(offset, n, EofTail)]
    else [Chunk(offset, max, HardMax)] + CeilingPieces(n - max, max, offset + max)
  }

  /** A constant file whose byte's table entry neither mask divides is cut into full-size pieces and a tail. */
  lemma {:induction false} ConstantFile(cfg: Config, bs: nat, bl: nat, v: Byte, n: nat, offset: nat)
    requires cfg.Valid() && Masks(cfg, bs, bl)
    requires !Divides(cfg.gear, v, bs) && !Divides(cfg.gear, v, bl)
    ensures Chunks(cfg, Run(v, n), offset) == CeilingPieces(n, cfg.maxChunk, offset)
    decreases n
  {
    if n > 0 {
      RunCeiling(cfg, bs, bl, v, n);
      var k := Min(n, cfg.maxChunk);
      RunDrop(v, n, k);
      ConstantFile(cfg, bs, bl, v, n - k, offset + k);
      CeilingStep(cfg, v, n, offset);
    }
  }

  lemma RunDrop(v: Byte, n: nat, k: nat)
    requires k <= n
    ensures Run(v, n)[k..] == Run(v, n - k)
  {
    RunSlice(v, n, k, n);
  }

  lemma CeilingStep(cfg: Config, v: Byte, n: nat, offset: nat)
    requires cfg.Valid() && n > 0 && CutOf(cfg, Run(v, n)) == CeilingCut(n, cfg.maxChunk)
    requires
      var k := Min(n, cfg.maxChunk);
      && Run(v, n)[k..] == Run(v, n - k)
      && Chunks(cfg, Run(v, n - k), offset + k) == CeilingPieces(n - k, cfg.maxChunk, offset + k)
    ensures Chunks(cfg, Run(v, n), offset) == CeilingPieces(n, cfg.maxChunk, offset)
  {
    ChunksStep(cfg, Run(v, n), offset, CutOf(cfg, Run(v, n)));
  }
}
