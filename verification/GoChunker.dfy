/** The Go chunker: a carry-over buffer, a pending queue, and a second phase that rescans the window. */
module GoChunker {
  import opened Options
  import opened Words
  import opened Gear
  import opened GoReader
  import Chunking
  import FastCdc

  datatype Config = Config(minChunk: nat, avgChunk: nat, maxChunk: nat, maskS: Word, maskL: Word, gear: GearTable) {
    predicate Valid() {
      0 < minChunk <= avgChunk <= maxChunk
    }
  }

  // ---------------------------------------------------------------------------------------------
  // Where a window is cut
  // ---------------------------------------------------------------------------------------------

  /** A size below the average at which the small mask hits. */
  predicate EarlyHit(cfg: Config, w: seq<Byte>, n: nat) {
    cfg.minChunk <= n < cfg.avgChunk && n <= |w| && Hit(Roll(cfg.gear, 0, w[..n]), cfg.maskS)
  }

  /**
   A size at which the second phase stops.  It starts over at the first byte, with the fingerprint of the
   first `avgChunk` bytes still in place, and does not look at the minimum.
   */
  predicate LateHit(cfg: Config, w: seq<Byte>, n: nat) {
    && cfg.avgChunk <= |w| && 0 < n <= |w|
    && (n >= cfg.maxChunk || Hit(Roll(cfg.gear, Roll(cfg.gear, 0, w[..cfg.avgChunk]), w[..n]), cfg.maskL))
  }

  function EarlyCut(cfg: Config, w: seq<Byte>, from: nat): Option<nat>
    decreases |w| + 1 - from
  {
    if from > |w| then None else if EarlyHit(cfg, w, from) then Some(from) else EarlyCut(cfg, w, from + 1)
  }

  function LateCut(cfg: Config, w: seq<Byte>, from: nat): Option<nat>
    decreases |w| + 1 - from
  {
    if from > |w| then None else if LateHit(cfg, w, from) then Some(from) else LateCut(cfg, w, from + 1)
  }

  lemma {:induction false} EarlyCutHits(cfg: Config, w: seq<Byte>, from: nat)
    ensures
      var r := EarlyCut(cfg, w, from);
      r.Some? ==> from <= r.value && EarlyHit(cfg, w, r.value)
    decreases |w| + 1 - from
  {
    if from <= |w| && !EarlyHit(cfg, w, from) {
      EarlyCutHits(cfg, w, from + 1);
    }
  }

  lemma {:induction false} LateCutHits(cfg: Config, w: seq<Byte>, from: nat)
    ensures
      var r := LateCut(cfg, w, from);
      r.Some? ==> from <= r.value && LateHit(cfg, w, r.value)
    decreases |w| + 1 - from
  {
    if from <= |w| && !LateHit(cfg, w, from) {
      LateCutHits(cfg, w, from + 1);
    }
  }

  lemma {:induction false} EarlyCutIsLeast(cfg: Config, w: seq<Byte>, from: nat, n: nat)
    requires from <= n && EarlyHit(cfg, w, n)
    ensures EarlyCut(cfg, w, from).Some? && EarlyCut(cfg, w, from).value <= n
    decreases n - from
  {
    if from < n && !EarlyHit(cfg, w, from) {
      EarlyCutIsLeast(cfg, w, from + 1, n);
    }
  }

  lemma {:induction false} LateCutIsLeast(cfg: Config, w: seq<Byte>, from: nat, n: nat)
    requires from <= n && LateHit(cfg, w, n)
    ensures LateCut(cfg, w, from).Some? && LateCut(cfg, w, from).value <= n
    decreases n - from
  {
    if from < n && !LateHit(cfg, w, from) {
      LateCutIsLeast(cfg, w, from + 1, n);
    }
  }

  /** `findCut`, with the answer 0 of the source as None. */
  function FoundCut(cfg: Config, w: seq<Byte>): Option<nat> {
    var early := EarlyCut(cfg, w, cfg.minChunk);
    if early.Some? then early else LateCut(cfg, w, 1)
  }

  function CutLen(cfg: Config, w: seq<Byte>): nat {
    var found := FoundCut(cfg, w);
    if found.Some? then found.value else |w|
  }

  /** Every cut makes progress, stays in the window and respects the maximum. */
  lemma CutLenBounds(cfg: Config, w: seq<Byte>)
    requires cfg.Valid() && w != []
    ensures 0 < CutLen(cfg, w) <= |w| && CutLen(cfg, w) <= cfg.maxChunk
  {
    EarlyCutHits(cfg, w, cfg.minChunk);
    LateCutHits(cfg, w, 1);
    if |w| >= cfg.maxChunk {
      LateCutIsLeast(cfg, w, 1, cfg.maxChunk);
    }
  }

  /** Some size is accepted by the first phase, or by the second one below the minimum. */
  ghost predicate AnyEarly(cfg: Config, w: seq<Byte>) {
    exists n :: EarlyHit(cfg, w, n)
  }

  ghost predicate LateBelowMinimum(cfg: Config, w: seq<Byte>) {
    exists n: nat :: n < cfg.minChunk && LateHit(cfg, w, n)
  }

  /**
   The minimum is not a bound on the chunks: a window is cut below it exactly when it is too short itself
   or the first phase finds nothing and the second phase hits before the minimum.
   */
  lemma BelowMinimum(cfg: Config, w: seq<Byte>)
    requires cfg.Valid() && w != []
    ensures CutLen(cfg, w) < cfg.minChunk <==>
      |w| < cfg.minChunk || (!AnyEarly(cfg, w) && LateBelowMinimum(cfg, w))
  {
    EarlyCutHits(cfg, w, cfg.minChunk);
    LateCutHits(cfg, w, 1);
    if AnyEarly(cfg, w) {
      var n :| EarlyHit(cfg, w, n);
      EarlyCutIsLeast(cfg, w, cfg.minChunk, n);
    } else if LateBelowMinimum(cfg, w) {
      var n: nat :| n < cfg.minChunk && LateHit(cfg, w, n);
      LateCutIsLeast(cfg, w, 1, n);
    }
  }

  /**
   It happens under every table with an even entry: with min = avg = 2, max = 4 and the mask 1 for the second
   phase, a window of at least the minimum is cut after one byte exactly when that byte's entry is even.
   */
  lemma BelowMinimumHappens(gear: GearTable, maskS: Word, w: seq<Byte>)
    requires |w| >= 2
    ensures
      var cfg := Config(2, 2, 4, maskS, 1, gear);
      cfg.Valid() && (CutLen(cfg, w) == 1 <==> gear[w[0]] % 2 == 0)
  {
    var cfg := Config(2, 2, 4, maskS, 1, gear);
    var seed := Roll(gear, 0, w[..2]);
    assert w[..1] == [w[0]] && [w[0]][..0] == [];
    assert Roll(gear, seed, w[..1]) == Step(gear, seed, w[0]);
    StepIsAffine(gear, seed, w[0]);
    EvenHitsOne(seed, gear[w[0]]);
    EarlyCutHits(cfg, w, 2);
    LateCutHits(cfg, w, 1);
  }

  lemma EvenHitsOne(fp: Word, g: Word)
    ensures Hit((2 * fp + g) % WORD, 1) <==> g % 2 == 0
  {
    var r := (2 * fp + g) % WORD;
    assert Pow2(1) == 2;
    AndLowMask(r, 1);
  }

  /** One step of the shift register that fills the shipped table; an entry is the low half of the state. */
  function ShiftRegister(s: bv64): bv64 {
    (s >> 1) ^ (0xA0CC36C9 & (0 - (s & 1)))
  }

  const GEAR_SEED: bv64 := 0x6DCA4958_95636829

  /** The shipped table has even entries; the one of byte 2 is the first. */
  lemma ShippedEntryIsEven()
    ensures
      var s := ShiftRegister(ShiftRegister(ShiftRegister(GEAR_SEED)));
      s & 0xFFFF_FFFF == 0xCA354D1A && s & 1 == 0
  {}

  // ---------------------------------------------------------------------------------------------
  // The plan: every size, as a function of the whole input
  // ---------------------------------------------------------------------------------------------

  /** How many bytes of a window the next chunk takes. */
  type Rule = seq<Byte> -> nat

  function CutRule(cfg: Config): Rule {
    (w: seq<Byte>) => CutLen(cfg, w)
  }

  /** The sizes cut from one window, and what is held back of it: a short rest, unless the input ended. */
  function Batch(rule: Rule, min: nat, w: seq<Byte>, last: bool): (seq<nat>, seq<Byte>)
    decreases |w|
  {
    if w == [] || (|w| < min && !last) || !(0 < rule(w) <= |w|) then ([], w)
    else
      var (sizes, rest) := Batch(rule, min, w[rule(w)..], last);
      ([rule(w)] + sizes, rest)
  }

  /** The window is what was held back plus the next `maxChunk` bytes, or all of the last ones. */
  function Plan(cfg: Config, held: seq<Byte>, input: seq<Byte>): seq<nat>
    requires cfg.Valid()
    decreases |input|
  {
    if |input| < cfg.maxChunk then Batch(CutRule(cfg), cfg.minChunk, held + input, true).0
    else
      var (sizes, rest) := Batch(CutRule(cfg), cfg.minChunk, held + input[..cfg.maxChunk], false);
      sizes + Plan(cfg, rest, input[cfg.maxChunk..])
  }

  /** What chunking a reader to its end gives: the sizes, and the error that ends it. */
  datatype Outcome = Outcome(sizes: seq<nat>, end: Error)

  /**
   Every round reads up to `maxChunk` bytes and cuts them together with what was held back.  An error of the
   read makes the round cut everything, and ends the chunking only if there is nothing to cut.
   */
  function Rounds(cfg: Config, held: seq<Byte>, script: seq<ReadEvent>): Outcome
    requires cfg.Valid()
    decreases Weight(script), |held|
  {
    var f := Filled(script, cfg.maxChunk);
    var w := held + f.got;
    FilledAccounted(script, cfg.maxChunk);
    if w == [] then Outcome([], f.err.value)
    else
      var (sizes, keep) := Batch(CutRule(cfg), cfg.minChunk, w, f.err.Some?);
      LastRound(cfg, script, w);
      var later := Rounds(cfg, keep, f.rest);
      Outcome(sizes + later.sizes, later.end)
  }

  /** A round without any event left holds nothing back. */
  lemma LastRound(cfg: Config, script: seq<ReadEvent>, w: seq<Byte>)
    requires cfg.Valid() && w != []
    ensures script == [] ==> Batch(CutRule(cfg), cfg.minChunk, w, Filled(script, cfg.maxChunk).err.Some?).1 == []
  {
    BatchCutsAll(cfg, w);
  }

  lemma {:induction false} BatchCutsAll(cfg: Config, w: seq<Byte>)
    requires cfg.Valid()
    ensures Batch(CutRule(cfg), cfg.minChunk, w, true).1 == []
    decreases |w|
  {
    if w != [] {
      CutLenBounds(cfg, w);
      BatchCutsAll(cfg, w[CutLen(cfg, w)..]);
    }
  }

  lemma RoundsStep(cfg: Config, held: seq<Byte>, script: seq<ReadEvent>, sizes: seq<nat>, keep: seq<Byte>)
    requires cfg.Valid()
    requires
      var f := Filled(script, cfg.maxChunk);
      held + f.got != [] && Batch(CutRule(cfg), cfg.minChunk, held + f.got, f.err.Some?) == (sizes, keep)
    ensures
      var later := Rounds(cfg, keep, Filled(script, cfg.maxChunk).rest);
      Rounds(cfg, held, script) == Outcome(sizes + later.sizes, later.end)
  {}

  lemma RoundsEnd(cfg: Config, script: seq<ReadEvent>)
    requires cfg.Valid() && Filled(script, cfg.maxChunk).got == []
    ensures
      var f := Filled(script, cfg.maxChunk);
      f.err.Some? && Rounds(cfg, [], script) == Outcome([], f.err.value)
  {
    FilledAccounted(script, cfg.maxChunk);
  }

  /** If the reader never fails, the sizes depend on the bytes alone, not on how they were split into reads. */
  lemma {:induction false} CleanRounds(cfg: Config, held: seq<Byte>, script: seq<ReadEvent>)
    requires cfg.Valid() && NoFaults(script)
    ensures Rounds(cfg, held, script) == Outcome(Plan(cfg, held, Content(script)), Eof)
    decreases Weight(script), |held|
  {
    var f := Filled(script, cfg.maxChunk);
    var w := held + f.got;
    FilledAccounted(script, cfg.maxChunk);
    FilledClean(script, cfg.maxChunk);
    var (sizes, keep) := Batch(CutRule(cfg), cfg.minChunk, w, f.err.Some?);
    BatchCutsAll(cfg, w);
    PlanStep(cfg, held, Content(script), f.got, Content(f.rest), f.err.Some?, sizes, keep);
    if w != [] {
      LastRound(cfg, script, w);
      CleanRounds(cfg, keep, f.rest);
      RoundsStep(cfg, held, script, sizes, keep);
    } else {
      assert f.err == Some(Eof) && Plan(cfg, keep, Content(f.rest)) == [];
    }
  }

  /** The bytes there are to cut, after whole reads of `maxChunk` bytes, when the input stops. */
  function Uncut(cfg: Config, held: seq<Byte>, input: seq<Byte>): seq<Byte>
    requires cfg.Valid()
    decreases |input|
  {
    if |input| < cfg.maxChunk then held + input
    else
      var rest := Batch(CutRule(cfg), cfg.minChunk, held + input[..cfg.maxChunk], false).1;
      Uncut(cfg, rest, input[cfg.maxChunk..])
  }

  /**
   The first failure of a reader is reported exactly when the bytes before it leave nothing to cut; otherwise
   they are cut as if the input had ended there, and chunking goes on with what the reader does next.
   */
  lemma {:induction false} FailureReported(cfg: Config, held: seq<Byte>, s1: seq<ReadEvent>, s2: seq<ReadEvent>)
    requires cfg.Valid() && NoFaults(s1)
    ensures
      var plan, later := Plan(cfg, held, Content(s1)), Rounds(cfg, [], s2);
      Rounds(cfg, held, s1 + [Fault] + s2) ==
        if Uncut(cfg, held, Content(s1)) == [] then Outcome(plan, Failed)
        else Outcome(plan + later.sizes, later.end)
    decreases |Content(s1)|
  {
    FilledUntilFault(s1, s2, cfg.maxChunk);
    if |Content(s1)| < cfg.maxChunk {
      FailureAfterRest(cfg, held, s1, s2);
    } else {
      var f := Filled(s1, cfg.maxChunk);
      FilledAccounted(s1, cfg.maxChunk);
      FilledClean(s1, cfg.maxChunk);
      var (sizes, keep) := Batch(CutRule(cfg), cfg.minChunk, held + f.got, false);
      FullRead(Content(s1), f.got, Content(f.rest));
      FailureReported(cfg, keep, f.rest, s2);
      RoundsStep(cfg, held, s1 + [Fault] + s2, sizes, keep);
      Regrouped(sizes, Plan(cfg, keep, Content(f.rest)), Rounds(cfg, [], s2).sizes);
    }
  }

  lemma FailureAfterRest(cfg: Config, held: seq<Byte>, s1: seq<ReadEvent>, s2: seq<ReadEvent>)
    requires cfg.Valid() && |Content(s1)| < cfg.maxChunk
    requires Filled(s1 + [Fault] + s2, cfg.maxChunk) == Filling(Content(s1), s2, Some(Failed))
    ensures
      var plan, later := Plan(cfg, held, Content(s1)), Rounds(cfg, [], s2);
      Rounds(cfg, held, s1 + [Fault] + s2) ==
        if held + Content(s1) == [] then Outcome(plan, Failed) else Outcome(plan + later.sizes, later.end)
  {
    var w := held + Content(s1);
    BatchCutsAll(cfg, w);
    if w != [] {
      RoundsStep(cfg, held, s1 + [Fault] + s2, Batch(CutRule(cfg), cfg.minChunk, w, true).0, []);
    }
  }

  lemma FullRead(input: seq<Byte>, got: seq<Byte>, rest: seq<Byte>)
    requires input == got + rest
    ensures input[..|got|] == got && input[|got|..] == rest
  {
  }

  lemma Regrouped(a: seq<nat>, b: seq<nat>, c: seq<nat>)
    ensures a + (b + c) == a + b + c
  {
  }

  /** A number of bytes that is no multiple of `maxChunk` leaves some to cut. */
  lemma {:induction false} UncutRemainder(cfg: Config, held: seq<Byte>, input: seq<Byte>)
    requires cfg.Valid() && |input| % cfg.maxChunk != 0
    ensures Uncut(cfg, held, input) != []
    decreases |input|
  {
    if |input| >= cfg.maxChunk {
      ModAddMultiple(|input| - cfg.maxChunk, 1, cfg.maxChunk);
      UncutRemainder(
        cfg, Batch(CutRule(cfg), cfg.minChunk, held + input[..cfg.maxChunk], false).1, input[cfg.maxChunk..]);
    }
  }

  /**
   A single failure is swallowed after any number of bytes that is no multiple of `maxChunk`, however they
   were split into reads: the outcome is that of two readers one after the other.
   */
  lemma FailureSwallowed(cfg: Config, s1: seq<ReadEvent>, s2: seq<ReadEvent>)
    requires cfg.Valid() && NoFaults(s1) && NoFaults(s2) && |Content(s1)| % cfg.maxChunk != 0
    ensures Rounds(cfg, [], s1 + [Fault] + s2) ==
      Outcome(Plan(cfg, [], Content(s1)) + Plan(cfg, [], Content(s2)), Eof)
  {
    UncutRemainder(cfg, [], Content(s1));
    FailureReported(cfg, [], s1, s2);
    CleanRounds(cfg, [], s2);
  }

  /** Chunking ends at the reader's end or with a failure of it. */
  lemma {:induction false} RoundsEnds(cfg: Config, held: seq<Byte>, script: seq<ReadEvent>)
    requires cfg.Valid()
    ensures Rounds(cfg, held, script).end != UnexpectedEof
    decreases Weight(script), |held|
  {
    var f := Filled(script, cfg.maxChunk);
    var w := held + f.got;
    FilledAccounted(script, cfg.maxChunk);
    if w != [] {
      LastRound(cfg, script, w);
      RoundsEnds(cfg, Batch(CutRule(cfg), cfg.minChunk, w, f.err.Some?).1, f.rest);
    }
  }

  // ---------------------------------------------------------------------------------------------
  // The chunker
  // ---------------------------------------------------------------------------------------------

  datatype Chunk = Chunk(hash: FastCdc.Hash, offset: nat, size: nat)

  function End(c: Chunk): nat {
    c.offset + c.size
  }

  /** A chunk of 1 to `max` bytes, under the hash of exactly the input bytes it covers. */
  ghost predicate Placed(c: Chunk, input: seq<Byte>, max: nat) {
    0 < c.size <= max && End(c) <= |input| && c.hash == FastCdc.Sha256(input[c.offset..End(c)])
  }

  /** The chunks lead from `from` to `to`, each starting where the one before it ends. */
  ghost predicate Joined(cs: seq<Chunk>, from: nat, to: nat) {
    && (cs == [] ==> from == to)
    && (cs != [] ==> cs[0].offset == from && End(cs[|cs| - 1]) == to)
    && forall i :: 0 < i < |cs| ==> cs[i].offset == End(cs[i - 1])
  }

  ghost predicate AllPlaced(cs: seq<Chunk>, input: seq<Byte>, max: nat) {
    forall i :: 0 <= i < |cs| ==> Placed(cs[i], input, max)
  }

  /** The chunks tile the first `n` bytes of `input`. */
  ghost predicate Tiled(cs: seq<Chunk>, input: seq<Byte>, max: nat, n: nat) {
    Joined(cs, 0, n) && AllPlaced(cs, input, max)
  }

  lemma TiledGrows(cs: seq<Chunk>, input: seq<Byte>, more: seq<Byte>, max: nat, n: nat)
    requires Tiled(cs, input, max, n)
    ensures Tiled(cs, input + more, max, n)
  {
    forall i | 0 <= i < |cs|
      ensures Placed(cs[i], input + more, max)
    {
      PlacedGrows(cs[i], input, more, max);
    }
  }

  lemma PlacedGrows(c: Chunk, input: seq<Byte>, more: seq<Byte>, max: nat)
    requires Placed(c, input, max)
    ensures Placed(c, input + more, max)
  {
    assert (input + more)[c.offset..End(c)] == input[c.offset..End(c)];
  }

  lemma TiledConcat(cs: seq<Chunk>, ds: seq<Chunk>, input: seq<Byte>, max: nat, mid: nat, n: nat)
    requires Tiled(cs, input, max, mid) && Joined(ds, mid, n) && AllPlaced(ds, input, max)
    ensures Tiled(cs + ds, input, max, n)
  {
  }

  function Sizes(cs: seq<Chunk>): seq<nat> {
    seq(|cs|, i requires 0 <= i < |cs| => cs[i].size)
  }

  lemma {:induction false} NoEarlyFrom(cfg: Config, w: seq<Byte>, from: nat)
    requires from >= cfg.avgChunk || from > |w|
    ensures EarlyCut(cfg, w, from) == None
  {
    EarlyCutHits(cfg, w, from);
  }

  lemma EarlyStep(cfg: Config, w: seq<Byte>, n: nat)
    requires n < |w| && n + 1 < cfg.avgChunk && 0 < cfg.minChunk
    requires n + 1 >= cfg.minChunk ==> !EarlyHit(cfg, w, n + 1)
    ensures EarlyCut(cfg, w, Larger(cfg.minChunk, n + 1)) == EarlyCut(cfg, w, Larger(cfg.minChunk, n + 2))
  {
  }

  function Larger(a: nat, b: nat): nat {
    if a < b then b else a
  }

  /** What stays the same while one window is cut: the window, where it starts, and whether it is the last. */
  datatype Window = Window(rule: Rule, min: nat, max: nat, bytes: seq<Byte>, start: nat, last: bool)

  /** The loop goes on at the start of `c`, and `c` is the chunk it cuts there. */
  ghost predicate Follows(g: Window, c: Chunk) {
    && g.start <= c.offset < g.start + |g.bytes|
    && var at := c.offset - g.start;
      && (|g.bytes| - at >= g.min || g.last)
      && c.size == g.rule(g.bytes[at..]) && 0 < c.size <= |g.bytes| - at && c.size <= g.max
      && c.hash == FastCdc.Sha256(g.bytes[at..at + c.size])
  }

  /** The loop has cut `chunks` from the first `cut` bytes of the window. */
  ghost predicate Round(g: Window, chunks: seq<Chunk>, cut: nat) {
    Joined(chunks, g.start, g.start + cut) && AllFollow(g, chunks)
  }

  ghost predicate AllFollow(g: Window, chunks: seq<Chunk>) {
    forall i :: 0 <= i < |chunks| ==> Follows(g, chunks[i])
  }

  /** The loop ends at `cut`: the window is used up, or too short a rest is held back. */
  ghost predicate Stops(g: Window, cut: nat) {
    cut == |g.bytes| || (cut < |g.bytes| && |g.bytes| - cut < g.min && !g.last)
  }

  lemma RoundStep(g: Window, chunks: seq<Chunk>, cut: nat, c: Chunk)
    requires Round(g, chunks, cut) && Follows(g, c) && c.offset == g.start + cut
    ensures Round(g, chunks + [c], cut + c.size)
  {
  }

  /** The cut chunks lie where they say in an input that ends with the window. */
  lemma RoundPlaced(g: Window, chunks: seq<Chunk>, cut: nat, input: seq<Byte>)
    requires Round(g, chunks, cut) && g.start + |g.bytes| == |input| && g.bytes == input[g.start..]
    ensures AllPlaced(chunks, input, g.max)
  {
    forall i | 0 <= i < |chunks|
      ensures Placed(chunks[i], input, g.max)
    {
      FollowsPlaced(g, chunks[i], input);
    }
  }

  lemma FollowsPlaced(g: Window, c: Chunk, input: seq<Byte>)
    requires Follows(g, c) && g.start + |g.bytes| == |input| && g.bytes == input[g.start..]
    ensures Placed(c, input, g.max)
  {
    var at := c.offset - g.start;
    assert g.bytes[at..at + c.size] == input[c.offset..End(c)];
  }

  /** When the loop stops, it has cut exactly the sizes of the batch. */
  lemma {:induction false} RoundBatch(g: Window, chunks: seq<Chunk>, at: nat, cut: nat)
    requires Joined(chunks, g.start + at, g.start + cut) && AllFollow(g, chunks)
    requires at <= |g.bytes| && Stops(g, cut)
    ensures Batch(g.rule, g.min, g.bytes[at..], g.last) == (Sizes(chunks), g.bytes[cut..])
    decreases |chunks|
  {
    if chunks == [] {
      BatchStops(g, cut);
    } else {
      var c, later := chunks[0], chunks[1..];
      RoundTail(g, chunks, g.start + at, g.start + cut);
      RoundBatch(g, later, at + c.size, cut);
      BatchStep(g, c, Sizes(later), g.bytes[cut..]);
      SizesCons(chunks);
    }
  }

  lemma RoundTail(g: Window, chunks: seq<Chunk>, from: nat, to: nat)
    requires chunks != [] && Joined(chunks, from, to) && AllFollow(g, chunks)
    ensures Joined(chunks[1..], End(chunks[0]), to) && AllFollow(g, chunks[1..])
    ensures chunks[0].offset == from && Follows(g, chunks[0])
  {
    var later := chunks[1..];
    assert forall i :: 0 <= i < |later| ==> later[i] == chunks[i + 1];
  }

  lemma BatchStops(g: Window, cut: nat)
    requires Stops(g, cut)
    ensures Batch(g.rule, g.min, g.bytes[cut..], g.last) == (Sizes([]), g.bytes[cut..])
  {
    assert Sizes([]) == [];
  }

  lemma SizesCons(chunks: seq<Chunk>)
    requires chunks != []
    ensures Sizes(chunks) == [chunks[0].size] + Sizes(chunks[1..])
  {
  }

  /** All that one pass over a window amounts to. */
  lemma RoundResult(g: Window, chunks: seq<Chunk>, cut: nat, prior: seq<Chunk>, input: seq<Byte>)
    requires Round(g, chunks, cut) && Stops(g, cut)
    requires g.start + |g.bytes| == |input| && g.bytes == input[g.start..]
    requires Tiled(prior, input, g.max, g.start)
    ensures Tiled(prior + chunks, input, g.max, g.start + cut)
    ensures Batch(g.rule, g.min, g.bytes, g.last) == (Sizes(chunks), g.bytes[cut..])
    ensures g.bytes[cut..] == input[g.start + cut..]
  {
    Chunking.DropDrop(input, g.start, cut);
    RoundPlaced(g, chunks, cut, input);
    TiledConcat(prior, chunks, input, g.max, g.start, g.start + cut);
    RoundBatch(g, chunks, 0, cut);
    assert g.bytes[0..] == g.bytes;
  }

  lemma BatchStep(g: Window, c: Chunk, sizes: seq<nat>, rest: seq<Byte>)
    requires Follows(g, c)
    requires Batch(g.rule, g.min, g.bytes[End(c) - g.start..], g.last) == (sizes, rest)
    ensures Batch(g.rule, g.min, g.bytes[c.offset - g.start..], g.last) == ([c.size] + sizes, rest)
  {
    assert g.bytes[c.offset - g.start..][c.size..] == g.bytes[End(c) - g.start..];
  }

  class Chunker {
    const reader: Reader
    const cfg: Config
    const buf: array<Byte>
    var bufLen: nat
    var offset: nat
    var fingerprint: Word
    var cutPhase: bool
    var pending: seq<Chunk>
    /** The chunks returned so far. */
    ghost var emitted: seq<Chunk>

    /** What holds between the calls of `findCut`. */
    ghost predicate Ready()
      reads this
    {
      cfg.Valid() && buf.Length == 2 * cfg.maxChunk && fingerprint == 0 && !cutPhase
    }

    /** The buffer holds exactly the delivered bytes that are not in a chunk yet. */
    ghost predicate Buffered()
      reads this, reader, buf
    {
      && bufLen <= buf.Length && offset + bufLen == |reader.delivered|
      && buf[..bufLen] == reader.delivered[offset..]
    }

    ghost predicate Valid()
      reads this, reader, buf
    {
      && Ready() && reader.Valid() && Buffered() && bufLen < cfg.minChunk
      && Tiled(emitted + pending, reader.delivered, cfg.maxChunk, offset)
    }

    /** The sizes of the chunks to come, and the error that ends them. */
    ghost function Future(): Outcome
      reads this, reader, buf
      requires Valid()
    {
      var later := Rounds(cfg, buf[..bufLen], reader.script);
      Outcome(Sizes(pending) + later.sizes, later.end)
    }

    constructor (reader: Reader, cfg: Config)
      requires cfg.Valid() && reader.Valid() && reader.delivered == []
      ensures Valid() && this.reader == reader && this.cfg == cfg && emitted == [] && pending == []
      ensures bufLen == 0 && fresh(buf)
    {
      this.reader, this.cfg := reader, cfg;
      buf := new Byte[cfg.maxChunk * 2];
      bufLen, offset, fingerprint, cutPhase, pending, emitted := 0, 0, 0, false, [], [];
    }

    method FindCut(data: seq<Byte>) returns (n: nat)
      requires Ready()
      modifies this`fingerprint, this`cutPhase
      ensures FoundCut(cfg, data) == if n == 0 then None else Some(n)
    {
      if |data| == 0 {
        return 0;
      }
      n := FirstPass(data);
      LateCutHits(cfg, data, 1);
      if n > 0 || !cutPhase {
        return;
      }
      n := SecondPass(data);
    }

    /** The first loop of `findCut`; it leaves the rolling fingerprint behind for the second. */
    method FirstPass(data: seq<Byte>) returns (n: nat)
      requires Ready()
      modifies this`fingerprint, this`cutPhase
      ensures EarlyCut(cfg, data, cfg.minChunk) == if n == 0 then None else Some(n)
      ensures n == 0 ==> cutPhase == (|data| >= cfg.avgChunk)
      ensures n == 0 && cutPhase ==> fingerprint == Roll(cfg.gear, 0, data[..cfg.avgChunk])
    {
      var i := 0;
      while i < |data|
        invariant i <= |data| && i < cfg.avgChunk && !cutPhase
        invariant fingerprint == Roll(cfg.gear, 0, data[..i])
        invariant EarlyCut(cfg, data, cfg.minChunk) == EarlyCut(cfg, data, Larger(cfg.minChunk, i + 1))
      {
        RollSnoc(cfg.gear, 0, data, i);
        fingerprint := Step(cfg.gear, fingerprint, data[i]);
        var currentSize := i + 1;
        if currentSize >= cfg.avgChunk {
          cutPhase := true;
          NoEarlyFrom(cfg, data, Larger(cfg.minChunk, i + 1));
          return 0;
        }
        if currentSize >= cfg.minChunk {
          if And(fingerprint, cfg.maskS) == 0 {
            assert EarlyHit(cfg, data, currentSize);
            return currentSize;
          }
        }
        EarlyStep(cfg, data, i);
        i := i + 1;
      }
      NoEarlyFrom(cfg, data, Larger(cfg.minChunk, i + 1));
      return 0;
    }

    /** The second loop of `findCut`, over the same bytes from the start. */
    method SecondPass(data: seq<Byte>) returns (n: nat)
      requires cfg.Valid() && |data| >= cfg.avgChunk && fingerprint == Roll(cfg.gear, 0, data[..cfg.avgChunk])
      modifies this`fingerprint
      ensures LateCut(cfg, data, 1) == if n == 0 then None else Some(n)
    {
      ghost var seed := fingerprint;
      var i := 0;
      while i < |data|
        invariant i <= |data|
        invariant fingerprint == Roll(cfg.gear, seed, data[..i])
        invariant LateCut(cfg, data, 1) == LateCut(cfg, data, i + 1)
      {
        RollSnoc(cfg.gear, seed, data, i);
        fingerprint := Step(cfg.gear, fingerprint, data[i]);
        var currentSize := i + 1;
        if currentSize >= cfg.maxChunk {
          return currentSize;
        }
        if And(fingerprint, cfg.maskL) == 0 {
          return currentSize;
        }
        i := i + 1;
      }
      return 0;
    }

    /** The size of the chunk that starts at `cutPos`; without a cut it is all that remains. */
    method CutLength(cutPos: nat) returns (n: nat)
      requires Ready() && cutPos < bufLen <= buf.Length
      modifies this`fingerprint, this`cutPhase
      ensures n == CutRule(cfg)(buf[cutPos..bufLen]) && 0 < n <= bufLen - cutPos && n <= cfg.maxChunk
    {
      var remaining := bufLen - cutPos;
      n := FindCut(buf[cutPos..bufLen]);
      if n == 0 {
        n := remaining;
      }
      CutLenBounds(cfg, buf[cutPos..bufLen]);
    }

    /** One round of the loop of `readUntilCut`: the chunk that starts at `cutPos` of the buffer. */
    method CutOne(cutPos: nat, startOffset: nat, ghost last: bool) returns (c: Chunk)
      requires Ready() && cutPos < bufLen <= buf.Length && (last || bufLen - cutPos >= cfg.minChunk)
      modifies this`offset, this`fingerprint, this`cutPhase
      ensures Ready() && offset == old(offset) + c.size && c.offset == startOffset + cutPos
      ensures Follows(Window(CutRule(cfg), cfg.minChunk, cfg.maxChunk, buf[..bufLen], startOffset, last), c)
    {
      var cutLen := CutLength(cutPos);
      c := Chunk(FastCdc.Sha256(buf[cutPos..cutPos + cutLen]), startOffset + cutPos, cutLen);
      offset := offset + cutLen;
      fingerprint := 0;
      cutPhase := false;
      SubSlices(buf[..bufLen], buf[cutPos..bufLen], buf[cutPos..cutPos + cutLen], cutPos, cutLen);
    }

    /** The loop of `readUntilCut` over the filled buffer. */
    method CutLoop(last: bool) returns (chunks: seq<Chunk>, cutPos: nat)
      requires Ready() && bufLen <= buf.Length
      modifies this`offset, this`fingerprint, this`cutPhase
      ensures Ready() && cutPos <= bufLen && offset == old(offset) + cutPos
      ensures Round(Window(CutRule(cfg), cfg.minChunk, cfg.maxChunk, buf[..bufLen], old(offset), last), chunks, cutPos)
      ensures cutPos == bufLen || (bufLen - cutPos < cfg.minChunk && !last)
      ensures chunks == [] ==> cutPos == 0
    {
      ghost var g := Window(CutRule(cfg), cfg.minChunk, cfg.maxChunk, buf[..bufLen], offset, last);
      var startOffset := offset;
      chunks, cutPos := [], 0;
      while cutPos < bufLen
        invariant Ready() && cutPos <= bufLen && offset == startOffset + cutPos
        invariant Round(g, chunks, cutPos)
        decreases bufLen - cutPos
      {
        if bufLen - cutPos < cfg.minChunk && !last {
          break;
        }
        var c := CutOne(cutPos, startOffset, last);
        RoundStep(g, chunks, cutPos, c);
        chunks := chunks + [c];
        cutPos := cutPos + c.size;
      }
    }

    /** The read at the start of `readUntilCut`. */
    method Fill() returns (err: Option<Error>)
      requires Valid() && pending == []
      modifies this`bufLen, reader, buf
      ensures Ready() && reader.Valid() && Buffered()
      ensures Tiled(emitted, reader.delivered, cfg.maxChunk, offset)
      ensures
        var f := Filled(old(reader.script), cfg.maxChunk);
        && buf[..bufLen] == old(buf[..bufLen]) + f.got && bufLen == old(bufLen) + |f.got|
        && reader.script == f.rest && err == Reported(f)
    {
      ghost var before, held := reader.delivered, buf[..bufLen];
      var n; ghost var got;
      n, err, got := reader.ReadFull(buf, bufLen, bufLen + cfg.maxChunk);
      assert emitted + [] == emitted;
      TiledGrows(emitted, before, got, cfg.maxChunk, offset);
      Extended(before, held, got, offset);
      bufLen := bufLen + n;
    }

    /** Moves what was not cut to the front of the buffer. */
    method Shift(cutPos: nat)
      requires Ready() && cutPos <= bufLen <= buf.Length
      modifies this`bufLen, buf
      ensures bufLen == old(bufLen) - cutPos && buf[..bufLen] == old(buf[cutPos..bufLen])
    {
      var remaining := bufLen - cutPos;
      if remaining > 0 && cutPos > 0 {
        CopyIn(buf, 0, buf[cutPos..bufLen]);
      }
      bufLen := remaining;
    }

    /** Cutting the buffer continues the tiling, in the sizes of the batch. */
    method CutBuffer(last: bool) returns (chunks: seq<Chunk>, cutPos: nat)
      requires Ready() && Buffered() && Tiled(emitted, reader.delivered, cfg.maxChunk, offset)
      modifies this`offset, this`fingerprint, this`cutPhase
      ensures Ready() && cutPos <= bufLen && (if last then cutPos == bufLen else bufLen - cutPos < cfg.minChunk)
      ensures chunks == [] ==> cutPos == 0
      ensures Tiled(emitted + chunks, reader.delivered, cfg.maxChunk, offset)
      ensures offset <= |reader.delivered| && buf[cutPos..bufLen] == reader.delivered[offset..]
      ensures Batch(CutRule(cfg), cfg.minChunk, buf[..bufLen], last) == (Sizes(chunks), buf[cutPos..bufLen])
    {
      ghost var g := Window(CutRule(cfg), cfg.minChunk, cfg.maxChunk, buf[..bufLen], offset, last);
      chunks, cutPos := CutLoop(last);
      RoundResult(g, chunks, cutPos, emitted, reader.delivered);
      assert g.bytes[cutPos..] == buf[cutPos..bufLen];
    }

    /** The part of `readUntilCut` after the read. */
    method CutAndShift(last: bool) returns (chunks: seq<Chunk>)
      requires Ready() && Buffered() && Tiled(emitted, reader.delivered, cfg.maxChunk, offset)
      modifies this`bufLen, this`offset, this`fingerprint, this`cutPhase, buf
      ensures Ready() && Buffered() && bufLen < cfg.minChunk && bufLen <= old(bufLen)
      ensures Tiled(emitted + chunks, reader.delivered, cfg.maxChunk, offset)
      ensures Batch(CutRule(cfg), cfg.minChunk, old(buf[..bufLen]), last) == (Sizes(chunks), buf[..bufLen])
      ensures (last ==> bufLen == 0) && (chunks == [] ==> bufLen == old(bufLen))
    {
      var cutPos;
      chunks, cutPos := CutBuffer(last);
      Shift(cutPos);
    }

    /** `readUntilCut`.  Nothing is left to flush when the read failed: the assertion below. */
    method ReadUntilCut() returns (chunks: seq<Chunk>, err: Option<Error>)
      requires Valid() && pending == []
      modifies this`bufLen, this`offset, this`fingerprint, this`cutPhase, reader, buf
      ensures Ready() && reader.Valid() && Buffered() && bufLen < cfg.minChunk
      ensures Tiled(emitted + chunks, reader.delivered, cfg.maxChunk, offset)
      ensures err.Some? ==> bufLen == 0
      ensures
        var f := Filled(old(reader.script), cfg.maxChunk);
        var w := old(buf[..bufLen]) + f.got;
        && reader.script == f.rest && err == Reported(f) && (chunks == [] <==> w == [])
        && (w != [] ==> Batch(CutRule(cfg), cfg.minChunk, w, f.err.Some?) == (Sizes(chunks), buf[..bufLen]))
    {
      ghost var f := Filled(reader.script, cfg.maxChunk);
      FilledAccounted(reader.script, cfg.maxChunk);
      err := Fill();
      if bufLen == 0 {
        assert emitted + [] == emitted;
        chunks := [];
      } else {
        chunks := CutAndShift(err.Some?);
      }
      assert err.None? || bufLen == 0;
    }

    /** `NextChunk`: the error is reported only when there is nothing left to return. */
    method NextChunk() returns (r: Option<Chunk>, err: Option<Error>)
      requires Valid()
      modifies this, reader, buf
      ensures Valid() && (r.Some? <==> err.None?)
      ensures emitted == old(emitted) + if r.Some? then [r.value] else []
      ensures err.Some? ==> bufLen == 0 && pending == [] && (err == Some(Eof) ==> reader.script == [])
      ensures err.Some? ==> old(Future()) == Outcome([], err.value)
      ensures r.Some? ==> Before(Progress(), old(Progress()))
      ensures r.Some? ==> old(Future()) == Outcome([r.value.size] + Future().sizes, Future().end)
    {
      if |pending| > 0 {
        var chunk := Pop();
        return Some(chunk), None;
      }
      err := Queue();
      if err.Some? && pending == [] {
        assert emitted + [] == emitted;
        return None, err;
      }
      var chunk := Pop();
      return Some(chunk), None;
    }

    method Pop() returns (chunk: Chunk)
      requires Valid() && pending != []
      modifies this`pending, this`emitted
      ensures Valid() && emitted == old(emitted) + [chunk] && |pending| == |old(pending)| - 1
      ensures old(Future()) == Outcome([chunk.size] + Future().sizes, Future().end)
    {
      PopTiled(emitted, pending, Rounds(cfg, buf[..bufLen], reader.script).sizes);
      chunk := pending[0];
      emitted := emitted + [chunk];
      pending := pending[1..];
    }

    /** Reads and cuts once more, and queues what that gave. */
    method Queue() returns (err: Option<Error>)
      requires Valid() && pending == []
      modifies this`bufLen, this`offset, this`fingerprint, this`cutPhase, this`pending, reader, buf
      ensures Valid()
      ensures pending == [] ==> err.Some? && bufLen == 0 && (err == Some(Eof) ==> reader.script == [])
      ensures pending == [] ==> old(Future()) == Outcome([], err.value)
      ensures pending != [] ==> Before((Weight(reader.script), bufLen, 0), old((Weight(reader.script), bufLen, 0)))
      ensures pending != [] ==> Future() == old(Future())
    {
      ghost var held, script := buf[..bufLen], reader.script;
      FilledAccounted(script, cfg.maxChunk);
      assert Sizes([]) + Rounds(cfg, held, script).sizes == Rounds(cfg, held, script).sizes;
      pending, err := ReadUntilCut();
      if pending == [] {
        assert held == [];
        RoundsEnd(cfg, script);
      } else {
        RoundsStep(cfg, held, script, Sizes(pending), buf[..bufLen]);
      }
    }

    /** What every returned chunk uses up: bytes or events of the reader, held bytes, or queued chunks. */
    ghost function Progress(): (int, int, int)
      reads this, reader
    {
      (Weight(reader.script), bufLen, |pending|)
    }

    /** `ChunkAll`. */
    method ChunkAll() returns (all: seq<Chunk>, err: Option<Error>)
      requires Valid()
      modifies this, reader, buf
      ensures Valid() && emitted == old(emitted) + all
      ensures Tiled(emitted, reader.delivered, cfg.maxChunk, |reader.delivered|)
      ensures err.None? ==> reader.delivered == reader.total
      ensures err != Some(Eof) && old(Future()) == Outcome(Sizes(all), if err.None? then Eof else err.value)
    {
      all, err := [], None;
      ghost var goal, start, left := Future(), emitted, Progress();
      TowardStart(goal);
      assert start + all == start;
      while true
        invariant Valid() && emitted == start + all && left == Progress()
        invariant Toward(goal, all, Future())
        decreases left.0, left.1, left.2
      {
        var chunk, e := NextToward(goal, start, all);
        if e.Some? {
          return all, if e == Some(Eof) then None else e;
        }
        all := all + [chunk.value];
        left := Progress();
      }
    }

    /** One round of `ChunkAll`. */
    method NextToward(ghost goal: Outcome, ghost start: seq<Chunk>, ghost all: seq<Chunk>)
      returns (r: Option<Chunk>, err: Option<Error>)
      requires Valid() && emitted == start + all && Toward(goal, all, Future())
      modifies this, reader, buf
      ensures Valid() && (r.Some? <==> err.None?)
      ensures emitted == start + if r.Some? then all + [r.value] else all
      ensures r.Some? ==> Before(Progress(), old(Progress())) && Toward(goal, all + [r.value], Future())
      ensures err.Some? ==> goal == Outcome(Sizes(all), err.value)
      ensures err.Some? ==> Tiled(emitted, reader.delivered, cfg.maxChunk, |reader.delivered|)
      ensures err == Some(Eof) ==> reader.delivered == reader.total
    {
      ghost var before := Future();
      r, err := NextChunk();
      if err.Some? {
        TowardEnd(goal, all, before, err.value);
        Finished();
        assert start + all + [] == start + all;
      } else {
        assert start + all + [r.value] == start + (all + [r.value]);
        TowardSnoc(goal, all, before, r.value, Future());
      }
    }

    /** Nothing queued and nothing held: every delivered byte is in a chunk. */
    lemma Finished()
      requires Valid() && pending == [] && bufLen == 0
      ensures Tiled(emitted, reader.delivered, cfg.maxChunk, |reader.delivered|)
      ensures reader.script == [] ==> reader.delivered == reader.total
    {
      assert emitted + [] == emitted;
      assert reader.delivered + [] == reader.delivered;
    }
  }

  predicate Before(a: (int, int, int), b: (int, int, int)) {
    a.0 < b.0 || (a.0 == b.0 && (a.1 < b.1 || (a.1 == b.1 && a.2 < b.2)))
  }

  lemma PopTiled(prior: seq<Chunk>, chunks: seq<Chunk>, later: seq<nat>)
    requires chunks != []
    ensures prior + chunks == prior + [chunks[0]] + chunks[1..]
    ensures Sizes(chunks) + later == [chunks[0].size] + (Sizes(chunks[1..]) + later)
  {
    SizesCons(chunks);
  }

  /** After the chunks `all`, the outcome `goal` is reached by way of `future`. */
  ghost predicate Toward(goal: Outcome, all: seq<Chunk>, future: Outcome) {
    goal == Outcome(Sizes(all) + future.sizes, future.end)
  }

  lemma TowardStart(goal: Outcome)
    ensures Toward(goal, [], goal)
  {
    assert Sizes([]) + goal.sizes == goal.sizes;
  }

  lemma TowardSnoc(goal: Outcome, all: seq<Chunk>, before: Outcome, c: Chunk, future: Outcome)
    requires Toward(goal, all, before) && before == Outcome([c.size] + future.sizes, future.end)
    ensures Toward(goal, all + [c], future)
  {
    assert Sizes(all) + ([c.size] + future.sizes) == Sizes(all + [c]) + future.sizes;
  }

  lemma TowardEnd(goal: Outcome, all: seq<Chunk>, before: Outcome, e: Error)
    requires Toward(goal, all, before) && before == Outcome([], e)
    ensures goal == Outcome(Sizes(all), e)
  {
    assert Sizes(all) + [] == Sizes(all);
  }

  /** Where the chunks end. */
  function EndOf(cs: seq<Chunk>): nat {
    if cs == [] then 0 else End(cs[|cs| - 1])
  }

  method ChunkFresh(script: seq<ReadEvent>, cfg: Config) returns (all: seq<Chunk>, err: Option<Error>)
    requires cfg.Valid()
    ensures Tiled(all, Content(script), cfg.maxChunk, EndOf(all))
    ensures err.None? ==> EndOf(all) == |Content(script)|
    ensures err != Some(Eof) && Rounds(cfg, [], script) == Outcome(Sizes(all), if err.None? then Eof else err.value)
  {
    var reader := new Reader(script);
    var chunker := new Chunker(reader, cfg);
    assert chunker.buf[..0] == [] && Sizes([]) == [];
    assert [] + Rounds(cfg, [], script).sizes == Rounds(cfg, [], script).sizes;
    all, err := chunker.ChunkAll();
    assert [] + all == all;
    TiledGrows(all, reader.delivered, Content(reader.script), cfg.maxChunk, |reader.delivered|);
  }

  /**
   Chunking a reader from the start, for every way it splits its bytes and fails in between: the chunks tile
   the bytes from the first on, and all of them unless a failure is reported.  Sizes and failure are those of
   `Rounds`, and if the reader never fails, they depend on its bytes alone.
   */
  method ChunkReader(script: seq<ReadEvent>, cfg: Config) returns (all: seq<Chunk>, err: Option<Error>)
    requires cfg.Valid()
    ensures Tiled(all, Content(script), cfg.maxChunk, EndOf(all))
    ensures err.None? ==> EndOf(all) == |Content(script)|
    ensures Sizes(all) == Rounds(cfg, [], script).sizes
    ensures err == if Rounds(cfg, [], script).end == Failed then Some(Failed) else None
    ensures NoFaults(script) ==> err.None? && Sizes(all) == Plan(cfg, [], Content(script))
  {
    all, err := ChunkFresh(script, cfg);
    RoundsEnds(cfg, [], script);
    if NoFaults(script) {
      CleanRounds(cfg, [], script);
    }
  }

  lemma Extended(before: seq<Byte>, held: seq<Byte>, got: seq<Byte>, offset: nat)
    requires offset <= |before| && held == before[offset..]
    ensures held + got == (before + got)[offset..]
    ensures (held + got)[..|held|] == held && (held + got)[|held|..] == got
  {
  }

  lemma SubSlices(w: seq<Byte>, tail: seq<Byte>, part: seq<Byte>, at: nat, n: nat)
    requires at + n <= |w| && |tail| == |w| - at && |part| == n
    requires (forall i :: 0 <= i < |tail| ==> tail[i] == w[at + i]) && forall i :: 0 <= i < n ==> part[i] == w[at + i]
    ensures tail == w[at..] && part == w[at..at + n]
  {
  }

  /** One round of reading and cutting follows the plan. */
  lemma PlanStep(
    cfg: Config, held: seq<Byte>, input: seq<Byte>, got: seq<Byte>, later: seq<Byte>, last: bool, sizes: seq<nat>,
    rest: seq<Byte>)
    requires cfg.Valid() && input == got + later && Batch(CutRule(cfg), cfg.minChunk, held + got, last) == (sizes, rest)
    requires if last then |got| < cfg.maxChunk && later == [] && rest == [] else |got| == cfg.maxChunk
    ensures Plan(cfg, held, input) == sizes + Plan(cfg, rest, later)
  {
    if last {
      assert input == got && rest + later == [];
      assert Plan(cfg, rest, later) == [] && sizes + [] == sizes;
    } else {
      assert input[..cfg.maxChunk] == got && input[cfg.maxChunk..] == later;
    }
  }
}
