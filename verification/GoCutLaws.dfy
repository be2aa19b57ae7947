/** Where the Go chunker cuts, stated by the rolling fingerprint and the two masks alone. */
module GoCutLaws {
  import opened Options
  import opened Words
  import opened Gear
  import opened GoChunker

  /** The small mask clears the fingerprint of the first `n` bytes. */
  predicate SmallClears(cfg: Config, w: seq<Byte>, n: nat)
    requires n <= |w|
  {
    And(Roll(cfg.gear, 0, w[..n]), cfg.maskS) == 0
  }

  /** The large mask clears the fingerprint of the first `avgChunk` bytes followed by the first `n` again. */
  predicate LargeClears(cfg: Config, w: seq<Byte>, n: nat)
    requires n <= |w| && cfg.avgChunk <= |w|
  {
    And(Roll(cfg.gear, 0, w[..cfg.avgChunk] + w[..n]), cfg.maskL) == 0
  }

  /** No size from `min` up to, and not including, `to` and the average is accepted by the small mask. */
  ghost predicate NoneEarly(cfg: Config, w: seq<Byte>, to: nat) {
    forall p :: cfg.minChunk <= p < to && p < cfg.avgChunk && p <= |w| ==> !SmallClears(cfg, w, p)
  }

  ghost predicate NoneLate(cfg: Config, w: seq<Byte>, to: nat)
    requires cfg.avgChunk <= |w|
  {
    forall p :: 0 < p < to && p <= |w| ==> !LargeClears(cfg, w, p)
  }

  lemma EarlyIsSmall(cfg: Config, w: seq<Byte>, n: nat)
    ensures EarlyHit(cfg, w, n) <==> cfg.minChunk <= n < cfg.avgChunk && n <= |w| && SmallClears(cfg, w, n)
  {}

  lemma LateIsLarge(cfg: Config, w: seq<Byte>, n: nat)
    ensures LateHit(cfg, w, n) <==>
      cfg.avgChunk <= |w| && 0 < n <= |w| && (n >= cfg.maxChunk || LargeClears(cfg, w, n))
  {
    if cfg.avgChunk <= |w| && n <= |w| {
      RollConcat(cfg.gear, 0, w[..cfg.avgChunk], w[..n]);
    }
  }

  lemma NoneEarlyExactly(cfg: Config, w: seq<Byte>, to: nat)
    ensures NoneEarly(cfg, w, to) <==> forall p: nat :: p < to ==> !EarlyHit(cfg, w, p)
  {
    forall p: nat
      ensures EarlyHit(cfg, w, p) <==> cfg.minChunk <= p < cfg.avgChunk && p <= |w| && SmallClears(cfg, w, p)
    {
      EarlyIsSmall(cfg, w, p);
    }
  }

  lemma NoneLateExactly(cfg: Config, w: seq<Byte>, to: nat)
    requires cfg.avgChunk <= |w| && to <= cfg.maxChunk
    ensures NoneLate(cfg, w, to) <==> forall p: nat :: p < to ==> !LateHit(cfg, w, p)
  {
    forall p: nat | p < to
      ensures LateHit(cfg, w, p) <==> 0 < p <= |w| && LargeClears(cfg, w, p)
    {
      LateIsLarge(cfg, w, p);
    }
  }

  /** The first phase finds the least size in [min, avg) at which the small mask clears. */
  lemma EarlyCutMeans(cfg: Config, w: seq<Byte>)
    ensures
      match EarlyCut(cfg, w, cfg.minChunk)
      case Some(n) => cfg.minChunk <= n < cfg.avgChunk && n <= |w| && SmallClears(cfg, w, n) && NoneEarly(cfg, w, n)
      case None => NoneEarly(cfg, w, cfg.avgChunk)
  {
    var r := EarlyCut(cfg, w, cfg.minChunk);
    EarlyCutHits(cfg, w, cfg.minChunk);
    var to := if r.Some? then r.value else cfg.avgChunk;
    forall p: nat | p < to
      ensures !EarlyHit(cfg, w, p)
    {
      if EarlyHit(cfg, w, p) {
        EarlyCutIsLeast(cfg, w, cfg.minChunk, p);
      }
    }
    NoneEarlyExactly(cfg, w, to);
  }

  /** The second phase finds the least size at which the large mask clears, or the maximum before that. */
  lemma LateCutMeans(cfg: Config, w: seq<Byte>)
    requires cfg.Valid()
    ensures
      match LateCut(cfg, w, 1)
      case Some(n) =>
        && cfg.avgChunk <= |w| && 0 < n <= |w| && n <= cfg.maxChunk
        && (n == cfg.maxChunk || LargeClears(cfg, w, n)) && NoneLate(cfg, w, n)
      case None => |w| < cfg.avgChunk || (|w| < cfg.maxChunk && NoneLate(cfg, w, |w| + 1))
  {
    var r := LateCut(cfg, w, 1);
    LateCutHits(cfg, w, 1);
    if cfg.avgChunk <= |w| {
      var to := if r.Some? then r.value else |w| + 1;
      LateWithin(cfg, w);
      forall p: nat | p < to
        ensures !LateHit(cfg, w, p)
      {
        if LateHit(cfg, w, p) {
          LateCutIsLeast(cfg, w, 1, p);
        }
      }
      NoneLateExactly(cfg, w, to);
    }
    if r.Some? {
      LateIsLarge(cfg, w, r.value);
    }
  }

  /** A window that reaches the maximum is cut there at the latest. */
  lemma LateWithin(cfg: Config, w: seq<Byte>)
    requires cfg.Valid() && cfg.avgChunk <= |w|
    ensures
      match LateCut(cfg, w, 1)
      case Some(n) => n <= cfg.maxChunk
      case None => |w| < cfg.maxChunk
  {
    LateCutHits(cfg, w, 1);
    if |w| >= cfg.maxChunk {
      LateCutIsLeast(cfg, w, 1, cfg.maxChunk);
    }
  }

  /**
   The cut of a window: the least size in [min, avg) at which the small mask clears the fingerprint; without
   one, in a window of at least the average, the least size at which the large mask clears the fingerprint
   carried over from the average, or the maximum; none otherwise.
   */
  lemma FoundCutExactly(cfg: Config, w: seq<Byte>)
    requires cfg.Valid()
    ensures
      match FoundCut(cfg, w)
      case Some(n) =>
        || (cfg.minChunk <= n < cfg.avgChunk && n <= |w| && SmallClears(cfg, w, n) && NoneEarly(cfg, w, n))
        || (&& NoneEarly(cfg, w, cfg.avgChunk) && cfg.avgChunk <= |w| && 0 < n <= |w| && n <= cfg.maxChunk
            && (n == cfg.maxChunk || LargeClears(cfg, w, n)) && NoneLate(cfg, w, n))
      case None =>
        && NoneEarly(cfg, w, cfg.avgChunk)
        && (|w| < cfg.avgChunk || (|w| < cfg.maxChunk && NoneLate(cfg, w, |w| + 1)))
  {
    EarlyCutMeans(cfg, w);
    LateCutMeans(cfg, w);
  }

  /** A window below the maximum in which neither mask clears is one chunk. */
  lemma UnclearedWindow(cfg: Config, w: seq<Byte>)
    requires cfg.Valid() && NoneEarly(cfg, w, cfg.avgChunk)
    requires |w| < cfg.avgChunk || (|w| < cfg.maxChunk && NoneLate(cfg, w, |w| + 1))
    ensures CutLen(cfg, w) == |w|
  {
    EarlyCutMeans(cfg, w);
    LateCutMeans(cfg, w);
  }

  // ---------------------------------------------------------------------------------------------
  // A window, and a whole input
  // ---------------------------------------------------------------------------------------------

  function Sum(sizes: seq<nat>): nat {
    if sizes == [] then 0 else sizes[0] + Sum(sizes[1..])
  }

  /** The sizes are those of the cuts made one after the other from the front of the window, none of a short rest. */
  ghost predicate CutsInTurn(cfg: Config, w: seq<Byte>, last: bool, sizes: seq<nat>)
    decreases |sizes|
  {
    sizes != [] ==>
      && (last || |w| >= cfg.minChunk) && 0 < sizes[0] <= |w| && sizes[0] == CutLen(cfg, w)
      && CutsInTurn(cfg, w[sizes[0]..], last, sizes[1..])
  }

  /** A window is cut in turn; a rest is held back only if it is below the minimum and more input may come. */
  lemma {:induction false} BatchMeans(cfg: Config, w: seq<Byte>, last: bool)
    requires cfg.Valid()
    ensures
      var (sizes, rest) := Batch(CutRule(cfg), cfg.minChunk, w, last);
      && CutsInTurn(cfg, w, last, sizes) && Sum(sizes) <= |w| && rest == w[Sum(sizes)..]
      && (rest != [] ==> |rest| < cfg.minChunk && !last)
    decreases |w|
  {
    if w != [] && (|w| >= cfg.minChunk || last) {
      CutLenBounds(cfg, w);
      var n := CutLen(cfg, w);
      BatchMeans(cfg, w[n..], last);
      var (sizes, rest) := Batch(CutRule(cfg), cfg.minChunk, w[n..], last);
      assert ([n] + sizes)[1..] == sizes;
      assert w[n..][Sum(sizes)..] == w[n + Sum(sizes)..];
    }
  }

  lemma {:induction false} SumConcat(a: seq<nat>, b: seq<nat>)
    ensures Sum(a + b) == Sum(a) + Sum(b)
  {
    if a == [] {
      assert a + b == b;
    } else {
      SumConcat(a[1..], b);
      assert (a + b)[1..] == a[1..] + b;
    }
  }

  /** The sizes of a whole input add up to it. */
  lemma {:induction false} PlanSums(cfg: Config, held: seq<Byte>, input: seq<Byte>)
    requires cfg.Valid()
    ensures Sum(Plan(cfg, held, input)) == |held| + |input|
    decreases |input|
  {
    if |input| < cfg.maxChunk {
      BatchMeans(cfg, held + input, true);
    } else {
      var w, later := held + input[..cfg.maxChunk], input[cfg.maxChunk..];
      BatchMeans(cfg, w, false);
      var (sizes, rest) := Batch(CutRule(cfg), cfg.minChunk, w, false);
      PlanSums(cfg, rest, later);
      SumConcat(sizes, Plan(cfg, rest, later));
    }
  }

  /** An input below the maximum is cut in turn from its first byte to its last. */
  lemma SmallInput(cfg: Config, input: seq<Byte>)
    requires cfg.Valid() && |input| < cfg.maxChunk
    ensures CutsInTurn(cfg, input, true, Plan(cfg, [], input)) && Sum(Plan(cfg, [], input)) == |input|
  {
    assert [] + input == input;
    BatchMeans(cfg, input, true);
  }
}
