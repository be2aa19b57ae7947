/**
 What the chunks of `FastCdc` satisfy beyond tiling: size bounds phase by phase, locality of every cut
 and of every edit.
 */
module FastCdcLaws {
  import opened Options
  import opened Words
  import opened Gear
  import opened Chunking
  import opened FastCdc

  /** The content-defined cut as a rule over arbitrary remaining input. */
  function CdcRule(cfg: Config): Rule
    requires cfg.Valid()
  {
    (data: seq<Byte>) => CutOf(cfg, data)
  }

  lemma RuleProductive(cfg: Config)
    requires cfg.Valid()
    ensures Productive(CdcRule(cfg))
  {}

  /** The chunks of the stream are the chunks by that rule. */
  lemma {:induction false} ChunksAreByRule(cfg: Config, data: seq<Byte>, offset: nat)
    requires cfg.Valid() && Productive(CdcRule(cfg))
    ensures Chunks(cfg, data, offset) == ChunksBy(CdcRule(cfg), data, offset)
    decreases |data|
  {
    if data != [] {
      var c := CutOf(cfg, data);
      var tail := data[c.length..];
      ChunksAreByRule(cfg, tail, offset + c.length);
      ChunksStep(cfg, data, offset, c);
      ChunksCons(CdcRule(cfg), data, offset, c, Chunks(cfg, tail, offset + c.length));
    }
  }

  /** Where a cut of each phase can lie, given the bytes left at the chunk's start. */
  ghost predicate PhaseBounds(cfg: Config, c: Cut, left: nat) {
    match c.phase
    case SubAverage => cfg.minChunk < c.length <= cfg.avgChunk
    case PostAverage => cfg.avgChunk < c.length <= cfg.maxChunk
    case HardMax => c.length == cfg.maxChunk
    case EofTail => c.length == left < cfg.maxChunk
  }

  lemma CutBounds(cfg: Config, data: seq<Byte>)
    requires cfg.Valid() && data != []
    ensures PhaseBounds(cfg, CutOf(cfg, data), |data|)
  {}

  /** A chunk among all chunks `cs` of an input of `size` bytes at `from`. */
  ghost predicate ChunkBounds(cfg: Config, cs: seq<Chunk>, i: nat, from: nat, size: nat)
    requires i < |cs|
  {
    && from <= cs[i].offset && End(cs[i]) <= from + size
    && 0 < cs[i].length <= cfg.maxChunk
    && (i + 1 < |cs| ==> cs[i].length > cfg.minChunk && cs[i].phase != EofTail)
    && PhaseBounds(cfg, Cut(cs[i].length, cs[i].phase), from + size - cs[i].offset)
  }

  lemma RuleChunkBounds(cfg: Config, rule: Rule, data: seq<Byte>, offset: nat, i: nat)
    requires cfg.Valid() && Productive(rule) && i < |ChunksBy(rule, data, offset)|
    requires forall left: seq<Byte> :: left != [] ==> PhaseBounds(cfg, rule(left), |left|)
    ensures ChunkBounds(cfg, ChunksBy(rule, data, offset), i, offset, |data|)
  {
    var cs := ChunksBy(rule, data, offset);
    ChunkIsCut(rule, data, offset, i);
    LastChunkEnds(rule, data, offset, i);
    var left := data[cs[i].offset - offset..];
    assert PhaseBounds(cfg, rule(left), |left|);
    BoundsFromPhase(cfg, cs, i, offset, |data|);
  }

  lemma BoundsFromPhase(cfg: Config, cs: seq<Chunk>, i: nat, from: nat, size: nat)
    requires cfg.Valid() && i < |cs| && from <= cs[i].offset < End(cs[i]) <= from + size
    requires PhaseBounds(cfg, Cut(cs[i].length, cs[i].phase), from + size - cs[i].offset)
    requires i + 1 < |cs| ==> End(cs[i]) < from + size
    ensures ChunkBounds(cfg, cs, i, from, size)
  {}

  /**
   The chunks tile the input; every chunk but the last is longer than the minimum, none exceeds the
   maximum, each respects the bounds of its phase, and only the last can be an end-of-file tail.
   */
  lemma ChunkSizes(cfg: Config, data: seq<Byte>, offset: nat)
    requires cfg.Valid()
    ensures Tiles(Chunks(cfg, data, offset), offset, offset + |data|)
    ensures forall i :: 0 <= i < |Chunks(cfg, data, offset)| ==>
      ChunkBounds(cfg, Chunks(cfg, data, offset), i, offset, |data|)
  {
    RuleProductive(cfg);
    ChunksAreByRule(cfg, data, offset);
    forall left: seq<Byte> | left != []
      ensures PhaseBounds(cfg, CdcRule(cfg)(left), |left|)
    {
      CutBounds(cfg, left);
    }
    RuleBounds(cfg, CdcRule(cfg), data, offset);
  }

  lemma RuleBounds(cfg: Config, rule: Rule, data: seq<Byte>, offset: nat)
    requires cfg.Valid() && Productive(rule)
    requires forall left: seq<Byte> :: left != [] ==> PhaseBounds(cfg, rule(left), |left|)
    ensures Tiles(ChunksBy(rule, data, offset), offset, offset + |data|)
    ensures forall i :: 0 <= i < |ChunksBy(rule, data, offset)| ==>
      ChunkBounds(cfg, ChunksBy(rule, data, offset), i, offset, |data|)
  {
    ChunksTile(rule, data, offset);
    var cs := ChunksBy(rule, data, offset);
    forall i | 0 <= i < |cs|
      ensures ChunkBounds(cfg, cs, i, offset, |data|)
    {
      RuleChunkBounds(cfg, rule, data, offset, i);
    }
  }

  /** The hard-ceiling phase does not mean that data is pending: it also labels a final full-size chunk. */
  lemma FullFinalChunkIsHardMax(cfg: Config, data: seq<Byte>)
    requires cfg.Valid() && |data| == cfg.maxChunk
    requires FirstPhase(cfg, data).None? && SecondPhase(cfg, data).None?
    ensures Chunks(cfg, data, 0) == [Chunk(0, cfg.maxChunk, HardMax)]
  {
    assert CutOf(cfg, data) == Cut(cfg.maxChunk, HardMax);
    assert Chunks(cfg, data[|data|..], |data|) == [];
  }

  /** A scan that cuts after `n` bytes has looked at nothing beyond them. */
  lemma FirstCutPrefix(gear: GearTable, x: seq<Byte>, y: seq<Byte>, mask: Word, n: nat)
    requires FirstCut(gear, x, mask, 0) == Some(n) && n <= |y| && x[..n] == y[..n]
    ensures FirstCut(gear, y, mask, 0) == Some(n)
  {
    forall p | 0 < p <= n
      ensures CutsAt(gear, x, mask, 0, p) == CutsAt(gear, y, mask, 0, p)
    {
      assert x[..p] == x[..n][..p] == y[..n][..p] == y[..p];
    }
    FirstCutUnique(gear, x, mask, 0, Some(n));
    FirstCutUnique(gear, y, mask, 0, Some(n));
  }

  lemma SubSlice(s: seq<Byte>, lo: nat, hi: nat, n: nat)
    requires lo + n <= hi <= |s|
    ensures s[lo..hi][..n] == s[lo..lo + n]
  {}

  lemma FirstPhaseLocal(cfg: Config, a: seq<Byte>, b: seq<Byte>, n: nat)
    requires cfg.Valid() && FirstPhase(cfg, a) == Some(n)
    requires var k := cfg.minChunk + n; k <= |a| && k <= |b| && a[..k] == b[..k]
    ensures FirstPhase(cfg, b) == Some(n)
  {
    var min := cfg.minChunk;
    var x := a[min..Min(Min(|a|, cfg.maxChunk), cfg.avgChunk)];
    var y := b[min..Min(Min(|b|, cfg.maxChunk), cfg.avgChunk)];
    SliceOfPrefix(a, b, min + n, min, min + n);
    SubSlice(a, min, Min(Min(|a|, cfg.maxChunk), cfg.avgChunk), n);
    SubSlice(b, min, Min(Min(|b|, cfg.maxChunk), cfg.avgChunk), n);
    FirstCutPrefix(cfg.gear, x, y, cfg.maskS, n);
  }

  lemma SecondPhaseLocal(cfg: Config, a: seq<Byte>, b: seq<Byte>, n: nat)
    requires cfg.Valid() && SecondPhase(cfg, a) == Some(n)
    requires var k := cfg.avgChunk + n; k <= |a| && k <= |b| && a[..k] == b[..k]
    ensures SecondPhase(cfg, b) == Some(n) && FirstPhase(cfg, b) == FirstPhase(cfg, a)
  {
    var avg := cfg.avgChunk;
    SliceOfPrefix(a, b, avg + n, cfg.minChunk, avg);
    var x, y := a[avg..Min(|a|, cfg.maxChunk)], b[avg..Min(|b|, cfg.maxChunk)];
    SliceOfPrefix(a, b, avg + n, avg, avg + n);
    SubSlice(a, avg, Min(|a|, cfg.maxChunk), n);
    SubSlice(b, avg, Min(|b|, cfg.maxChunk), n);
    FirstCutPrefix(cfg.gear, x, y, cfg.maskL, n);
  }

  /** A cut depends only on the bytes of its own chunk, unless it is the end of the input that made it. */
  lemma CutLocal(cfg: Config, a: seq<Byte>, b: seq<Byte>)
    requires cfg.Valid()
    ensures LocalAt(CdcRule(cfg), a, b)
  {
    var c := CutOf(cfg, a);
    if c.length < |a| && c.length <= |b| && a[..c.length] == b[..c.length] {
      CutBounds(cfg, a);
      match c.phase
      case SubAverage => FirstPhaseLocal(cfg, a, b, c.length - cfg.minChunk);
      case PostAverage => SecondPhaseLocal(cfg, a, b, c.length - cfg.avgChunk);
      case HardMax => CutIgnoresBeyondMax(cfg, a, b, false);
    }
  }

  /** Edit locality of the content-defined chunker, for every valid configuration and every edit. */
  lemma CdcEditLocality(cfg: Config, prefix: seq<Byte>, x: seq<Byte>, y: seq<Byte>, suffix: seq<Byte>)
    requires cfg.Valid()
    ensures
      var cs, ds := Chunks(cfg, prefix + x + suffix, 0), Chunks(cfg, prefix + y + suffix, 0);
      PrefixKept(cs, ds, |prefix|) && SuffixKept(cs, ds, |prefix| + |x|, |prefix| + |y|)
  {
    RuleProductive(cfg);
    forall a: seq<Byte>, b: seq<Byte>
      ensures LocalAt(CdcRule(cfg), a, b)
    {
      CutLocal(cfg, a, b);
    }
    EditLocality(CdcRule(cfg), prefix, x, y, suffix);
    ChunksAreByRule(cfg, prefix + x + suffix, 0);
    ChunksAreByRule(cfg, prefix + y + suffix, 0);
  }

  // ---------------------------------------------------------------------------------------------
  // A cut, by the fingerprint and the masks alone
  // ---------------------------------------------------------------------------------------------

  /** The fingerprint of the bytes from `from` to `n`, started at zero, is masked to zero. */
  predicate MasksToZero(cfg: Config, window: seq<Byte>, from: nat, n: nat, mask: Word)
    requires from <= n <= |window|
  {
    And(Roll(cfg.gear, 0, window[from..n]), mask) == 0
  }

  /** `n` is the least size in (from, to] at which it is. */
  ghost predicate IsLeastHit(cfg: Config, window: seq<Byte>, from: nat, to: nat, mask: Word, n: nat)
    requires to <= |window|
  {
    && from < n <= to && MasksToZero(cfg, window, from, n, mask)
    && forall p :: from < p < n ==> !MasksToZero(cfg, window, from, p, mask)
  }

  ghost predicate HasHit(cfg: Config, window: seq<Byte>, from: nat, to: nat, mask: Word)
    requires to <= |window|
  {
    exists n :: from < n <= to && MasksToZero(cfg, window, from, n, mask)
  }

  lemma ScanMeans(cfg: Config, window: seq<Byte>, from: nat, to: nat, mask: Word)
    requires from < to <= |window|
    ensures
      match FirstCut(cfg.gear, window[from..to], mask, 0)
      case Some(n) => IsLeastHit(cfg, window, from, to, mask, from + n)
      case None => !HasHit(cfg, window, from, to, mask)
  {
    var data := window[from..to];
    FirstCutUnique(cfg.gear, data, mask, 0, FirstCut(cfg.gear, data, mask, 0));
    forall p | from < p <= to
      ensures CutsAt(cfg.gear, data, mask, 0, p - from) == MasksToZero(cfg, window, from, p, mask)
    {
      assert data[..p - from] == window[from..p];
    }
  }

  /**
   The cut of a window: the least size above the minimum and up to the average at which the small mask
   clears the fingerprint counted from the minimum; failing that, the least one above the average and up to
   the ceiling at which the large mask clears the fingerprint counted from the average; failing that, the
   ceiling.
   */
  lemma CutExactly(cfg: Config, window: seq<Byte>, eof: bool)
    requires cfg.Valid()
    ensures
      var c, cap := CutWindow(cfg, window, eof), Min(|window|, cfg.maxChunk);
      var early := HasHit(cfg, window, cfg.minChunk, Min(cap, cfg.avgChunk), cfg.maskS);
      var late := HasHit(cfg, window, cfg.avgChunk, cap, cfg.maskL);
      && (c.phase == SubAverage <==> early)
      && (c.phase == PostAverage <==> !early && late)
      && (c.phase == EofTail <==> !early && !late && eof)
      && (c.phase == HardMax <==> !early && !late && !eof)
      && (early ==> IsLeastHit(cfg, window, cfg.minChunk, Min(cap, cfg.avgChunk), cfg.maskS, c.length))
      && (!early && late ==> IsLeastHit(cfg, window, cfg.avgChunk, cap, cfg.maskL, c.length))
      && (!early && !late ==> c.length == cap)
  {
    FirstPhaseMeans(cfg, window);
    SecondPhaseMeans(cfg, window);
  }

  lemma FirstPhaseMeans(cfg: Config, window: seq<Byte>)
    ensures
      var to := Min(Min(|window|, cfg.maxChunk), cfg.avgChunk);
      match FirstPhase(cfg, window)
      case Some(n) =>
        && HasHit(cfg, window, cfg.minChunk, to, cfg.maskS)
        && IsLeastHit(cfg, window, cfg.minChunk, to, cfg.maskS, cfg.minChunk + n)
      case None => !HasHit(cfg, window, cfg.minChunk, to, cfg.maskS)
  {
    var to := Min(Min(|window|, cfg.maxChunk), cfg.avgChunk);
    if to > cfg.minChunk {
      ScanMeans(cfg, window, cfg.minChunk, to, cfg.maskS);
    }
  }

  lemma SecondPhaseMeans(cfg: Config, window: seq<Byte>)
    ensures
      var to := Min(|window|, cfg.maxChunk);
      match SecondPhase(cfg, window)
      case Some(n) =>
        && HasHit(cfg, window, cfg.avgChunk, to, cfg.maskL)
        && IsLeastHit(cfg, window, cfg.avgChunk, to, cfg.maskL, cfg.avgChunk + n)
      case None => !HasHit(cfg, window, cfg.avgChunk, to, cfg.maskL)
  {
    var to := Min(|window|, cfg.maxChunk);
    if to > cfg.avgChunk {
      ScanMeans(cfg, window, cfg.avgChunk, to, cfg.maskL);
    }
  }

  // ---------------------------------------------------------------------------------------------
  // The feature word
  // ---------------------------------------------------------------------------------------------

  /** Whatever the entropy, the word gives it back in its low byte, and above that only the phase's digit is set. */
  lemma FeaturesReadBack(q8: Option<Byte>, phase: CutPhase, i: nat)
    requires 8 <= i
    ensures FeatureWord(q8, phase) % 256 == if q8.Some? then q8.value else 0
    ensures Bit(FeatureWord(q8, phase), i) == 1 <==>
      match phase case SubAverage => i == 24 case PostAverage => i == 25 case EofTail => i == 26 case HardMax => i == 27
  {
    LowByte(q8, phase);
    PhaseBitIsDigit(phase);
    HighDigit(if q8.Some? then q8.value else 0, PhaseDigit(phase), i);
  }

  function PhaseDigit(phase: CutPhase): (k: nat) {
    match phase case SubAverage => 24 case PostAverage => 25 case EofTail => 26 case HardMax => 27
  }

  lemma PhaseBitIsDigit(phase: CutPhase)
    ensures FeatureBit(phase) == Pow2(PhaseDigit(phase))
  {
    PhaseBits();
  }

  lemma LowByte(q8: Option<Byte>, phase: CutPhase)
    ensures FeatureWord(q8, phase) % 256 == if q8.Some? then q8.value else 0
  {
    PhaseBits();
  }

  lemma HighDigit(q: Byte, k: nat, i: nat)
    requires 8 <= k && 8 <= i
    ensures Bit(q + Pow2(k), i) == if i == k then 1 else 0
  {
    Pow2Small();
    Pow2Add(k - 8, 8);
    OrBelow(q, k);
    BitAbove(q, 8, i);
    BitOfPow2(k, i);
    OrBits(q, Pow2(k), i);
  }
}
