/**
 The two-phase chunker of crates/fastcdc/src/lib.rs. `Chunks` is a pure recursive definition of the
 chunks of a whole input; `FastCdcStream` is the buffering driver over a reader that may deliver the
 input in pieces of any size and may fail in between. The driver is proved to produce exactly `Chunks`.
 */
module FastCdc {
  import opened Options
  import opened Words
  import opened Gear
  import opened GearSimd
  import opened Chunking

  datatype Config = Config(
    minChunk: nat, avgChunk: nat, maxChunk: nat,
    maskS: Word, maskL: Word, gear: GearTable, computeFeatures: bool)
  {
    /** `Config::validate`. */
    predicate Valid() {
      0 < minChunk < avgChunk <= maxChunk
    }
  }

  function Min(a: nat, b: nat): nat {
    if a <= b then a else b
  }

  /** Phase 1 scans [min, avg) of the window with the small mask, from a zero fingerprint. */
  function FirstPhase(cfg: Config, window: seq<Byte>): Option<nat> {
    var end := Min(Min(|window|, cfg.maxChunk), cfg.avgChunk);
    if end > cfg.minChunk then FirstCut(cfg.gear, window[cfg.minChunk..end], cfg.maskS, 0) else None
  }

  /** Phase 2 scans [avg, max) of the window with the large mask, again from a zero fingerprint. */
  function SecondPhase(cfg: Config, window: seq<Byte>): Option<nat> {
    var cap := Min(|window|, cfg.maxChunk);
    if cap > cfg.avgChunk then FirstCut(cfg.gear, window[cfg.avgChunk..cap], cfg.maskL, 0) else None
  }

  /**
   `cut_point`, as a function of the buffered window and the end-of-file flag: the cut of the first
   phase that finds one, otherwise everything up to the ceiling.
   */
  function CutWindow(cfg: Config, window: seq<Byte>, eof: bool): Cut {
    var cap := Min(|window|, cfg.maxChunk);
    var first := FirstPhase(cfg, window);
    var second := SecondPhase(cfg, window);
    if first.Some? then Cut(cfg.minChunk + first.value, SubAverage)
    else if second.Some? then Cut(cfg.avgChunk + second.value, PostAverage)
    else if eof then Cut(cap, EofTail)
    else Cut(cap, HardMax)
  }

  /** The first chunk of everything still to be chunked: the tail case is "less than `max_chunk` left". */
  function CutOf(cfg: Config, data: seq<Byte>): (c: Cut)
    requires cfg.Valid()
    ensures data != [] ==> 0 < c.length <= Min(|data|, cfg.maxChunk)
  {
    CutWindow(cfg, data, |data| < cfg.maxChunk)
  }

  /** All chunks of `data`, whose first byte lies at `offset` of the stream. */
  function Chunks(cfg: Config, data: seq<Byte>, offset: nat): (cs: seq<Chunk>)
    requires cfg.Valid()
    decreases |data|
  {
    if data == [] then []
    else
      var c := CutOf(cfg, data);
      [Chunk(offset, c.length, c.phase)] + Chunks(cfg, data[c.length..], offset + c.length)
  }

  lemma ChunksStep(cfg: Config, data: seq<Byte>, offset: nat, c: Cut)
    requires cfg.Valid() && data != [] && c == CutOf(cfg, data)
    ensures 0 < c.length <= |data|
    ensures Chunks(cfg, data, offset) ==
      [Chunk(offset, c.length, c.phase)] + Chunks(cfg, data[c.length..], offset + c.length)
  {}

  /** Only the first `max_chunk` bytes of the window matter. */
  lemma CutIgnoresBeyondMax(cfg: Config, a: seq<Byte>, b: seq<Byte>, eof: bool)
    requires cfg.Valid()
    requires |a| >= cfg.maxChunk && |b| >= cfg.maxChunk && a[..cfg.maxChunk] == b[..cfg.maxChunk]
    ensures CutWindow(cfg, a, eof) == CutWindow(cfg, b, eof)
  {
    SliceOfPrefix(a, b, cfg.maxChunk, cfg.minChunk, cfg.avgChunk);
    SliceOfPrefix(a, b, cfg.maxChunk, cfg.avgChunk, cfg.maxChunk);
  }

  lemma SliceOfPrefix(a: seq<Byte>, b: seq<Byte>, n: nat, lo: nat, hi: nat)
    requires lo <= hi <= n <= |a| && n <= |b| && a[..n] == b[..n]
    ensures a[lo..hi] == b[lo..hi]
  {
    assert a[lo..hi] == a[..n][lo..hi] && b[lo..hi] == b[..n][lo..hi];
  }

  // ---------------------------------------------------------------------------------------------
  // The reader and the stream
  // ---------------------------------------------------------------------------------------------

  /** Size of the staging buffer one `read` call fills. */
  const STAGING: nat := 256 * 1024

  /** What one call of the reader does: hand over bytes (none of them means end of input) or fail. */
  datatype ReadEvent = Data(bytes: seq<Byte>) | Fault

  /** The input a reader will deliver: everything before its first empty read; faults deliver nothing. */
  function Content(script: seq<ReadEvent>): seq<Byte> {
    if script == [] then []
    else match script[0]
      case Fault => Content(script[1..])
      case Data(bytes) => if bytes == [] then [] else bytes + Content(script[1..])
  }

  /** Reading the input to its end runs into a failure. */
  predicate Faulty(script: seq<ReadEvent>) {
    script != [] && (script[0] == Fault || (script[0] != Data([]) && Faulty(script[1..])))
  }

  ghost predicate Staged(script: seq<ReadEvent>) {
    forall e :: e in script && e.Data? ==> |e.bytes| <= STAGING
  }

  class Reader {
    var script: seq<ReadEvent>

    constructor (script: seq<ReadEvent>)
      requires Staged(script)
      ensures this.script == script
    {
      this.script := script;
    }

    /** One `read`; an exhausted script keeps reporting end of input. */
    method Read() returns (e: ReadEvent)
      requires Staged(script)
      modifies this
      ensures Staged(script) && |script| <= |old(script)|
      ensures e.Data? ==> |e.bytes| <= STAGING
      ensures e == Fault ==> Content(script) == Content(old(script)) && Faulty(old(script))
      ensures e == Data([]) ==> Content(old(script)) == [] && !Faulty(old(script))
      ensures e.Data? && e.bytes != [] ==>
        Content(old(script)) == e.bytes + Content(script) && Faulty(script) == Faulty(old(script))
      ensures e != Data([]) ==> |script| < |old(script)|
    {
      if script == [] {
        return Data([]);
      }
      e := script[0];
      script := script[1..];
    }
  }

  /** The SHA-256 digest of `payload`, as a symbolic term: its bytes are never computed here. */
  datatype Hash = Sha256(payload: seq<Byte>)

  /** `entropy_q8`, whose floating-point arithmetic is not part of this model: some value from 0 to 255. */
  type Entropy = seq<Byte> -> Byte

  datatype Descriptor = Descriptor(hash: Hash, offset: nat, length: nat, contentFeatures: Word)

  datatype CutPoint = CutPoint(offset: nat, length: nat)

  datatype Result<+T> = Ok(value: T) | IoError | InvalidInput

  /** `CutPhase::feature_bit`. */
  function FeatureBit(phase: CutPhase): Word {
    match phase
    case SubAverage => 0x100_0000
    case PostAverage => 0x200_0000
    case EofTail => 0x400_0000
    case HardMax => 0x800_0000
  }

  /** The phase bit over the quantised entropy of a payload, if that is asked for. */
  function FeatureWord(q8: Option<Byte>, phase: CutPhase): (w: Word)
    ensures w == (if q8.Some? then q8.value else 0) + FeatureBit(phase)
  {
    PhaseBits();
    if q8.Some? then OrPhase(q8.value, phase); Or(q8.value, FeatureBit(phase)) else FeatureBit(phase)
  }

  lemma PhaseBits()
    ensures FeatureBit(SubAverage) == Pow2(24) && FeatureBit(PostAverage) == Pow2(25)
    ensures FeatureBit(EofTail) == Pow2(26) && FeatureBit(HardMax) == Pow2(27)
    ensures forall phase :: FeatureBit(phase) % 256 == 0
  {
    Pow2Small();
    Pow2Add(8, 8);
    Pow2Add(16, 8);
    assert Pow2(24) == 0x100_0000;
  }

  lemma OrPhase(q: Byte, phase: CutPhase)
    ensures Or(q, FeatureBit(phase)) == q + FeatureBit(phase)
  {
    PhaseBits();
    OrBelow(q, match phase case SubAverage => 24 case PostAverage => 25 case EofTail => 26 case HardMax => 27);
  }

  /**
   `d` describes chunk `c` of `input`: its hash and entropy are those of exactly the bytes it names. The
   phase bit is set whether or not features are computed.
   */
  ghost predicate Describes(cfg: Config, entropy: Entropy, input: seq<Byte>, c: Chunk, d: Descriptor) {
    && End(c) <= |input| && d.offset == c.offset && d.length == c.length
    && var payload := input[c.offset..End(c)];
      && d.hash == Sha256(payload)
      && d.contentFeatures == FeatureWord(if cfg.computeFeatures then Some(entropy(payload)) else None, c.phase)
  }

  /** `ds` describes the first chunks of `cs`. */
  ghost predicate Described(cfg: Config, entropy: Entropy, input: seq<Byte>, cs: seq<Chunk>, ds: seq<Descriptor>) {
    |ds| <= |cs| && forall i :: 0 <= i < |ds| ==> Describes(cfg, entropy, input, cs[i], ds[i])
  }

  /** `ds` describes the first chunks of `cs`, and `todo` is the rest. */
  ghost predicate DescribedSoFar(
    cfg: Config, entropy: Entropy, input: seq<Byte>, cs: seq<Chunk>, ds: seq<Descriptor>, todo: seq<Chunk>)
  {
    |ds| + |todo| == |cs| && todo == cs[|ds|..] && Described(cfg, entropy, input, cs, ds)
  }

  lemma DescribedSnoc(
    cfg: Config, entropy: Entropy, input: seq<Byte>, cs: seq<Chunk>, ds: seq<Descriptor>, todo: seq<Chunk>,
    d: Descriptor)
    requires DescribedSoFar(cfg, entropy, input, cs, ds, todo) && todo != []
    requires Describes(cfg, entropy, input, todo[0], d)
    ensures DescribedSoFar(cfg, entropy, input, cs, ds + [d], todo[1..])
  {
    assert todo[0] == cs[|ds|];
  }

  /** `ps` are the boundaries of `cs`, point by point. */
  ghost predicate AreBoundaries(cs: seq<Chunk>, ps: seq<CutPoint>) {
    |ps| == |cs| && forall i :: 0 <= i < |ps| ==> ps[i].offset == cs[i].offset && ps[i].length == cs[i].length
  }

  /** The points cover an input of that size without gap or overlap, and none is empty. */
  ghost predicate PointsTile(ps: seq<CutPoint>, size: nat) {
    && (ps == [] ==> size == 0)
    && (ps != [] ==> ps[0].offset == 0 && ps[|ps| - 1].offset + ps[|ps| - 1].length == size)
    && (forall i :: 0 <= i < |ps| - 1 ==> ps[i + 1].offset == ps[i].offset + ps[i].length)
    && (forall i :: 0 <= i < |ps| ==> ps[i].length > 0)
  }

  lemma BoundariesTile(cs: seq<Chunk>, ps: seq<CutPoint>, size: nat)
    requires AreBoundaries(cs, ps) && Tiles(cs, 0, size)
    ensures PointsTile(ps, size)
  {}

  ghost predicate BoundariesSoFar(cs: seq<Chunk>, ps: seq<CutPoint>, todo: seq<Chunk>) {
    |ps| + |todo| == |cs| && todo == cs[|ps|..] && AreBoundaries(cs[..|ps|], ps)
  }

  lemma BoundariesSnoc(cs: seq<Chunk>, ps: seq<CutPoint>, todo: seq<Chunk>, p: CutPoint)
    requires BoundariesSoFar(cs, ps, todo) && todo != []
    requires p.offset == todo[0].offset && p.length == todo[0].length
    ensures BoundariesSoFar(cs, ps + [p], todo[1..])
  {
    assert todo[0] == cs[|ps|];
    assert cs[..|ps| + 1] == cs[..|ps|] + [todo[0]];
  }

  class FastCdcStream {
    const cfg: Config
    const path: Path
    const entropy: Entropy
    const reader: Reader
    var buffer: seq<Byte>
    var globalOffset: nat
    var eof: bool
    /** The whole input, from the first byte of the stream. */
    ghost const input: seq<Byte>

    /** The bytes not chunked yet: those buffered and those the reader still holds. */
    ghost function Remaining(): seq<Byte>
      reads this, reader
    {
      buffer + if eof then [] else Content(reader.script)
    }

    /** Chunking to the end will report a reader failure. */
    ghost predicate WillFail()
      reads this, reader
    {
      !eof && Faulty(reader.script)
    }

    ghost predicate Valid()
      reads this, reader
    {
      && cfg.Valid()
      && Staged(reader.script)
      && |buffer| < cfg.maxChunk + STAGING
      && (eof ==> |buffer| < cfg.maxChunk)
      && globalOffset <= |input|
      && Remaining() == input[globalOffset..]
    }

    /** `with_config` after a successful `validate`. */
    constructor (reader: Reader, cfg: Config, path: Path, entropy: Entropy)
      requires cfg.Valid() && Staged(reader.script)
      ensures Valid() && this.reader == reader && this.cfg == cfg && this.entropy == entropy
      ensures input == Content(reader.script) && globalOffset == 0 && WillFail() == Faulty(reader.script)
    {
      this.reader := reader;
      this.cfg := cfg;
      this.path := path;
      this.entropy := entropy;
      buffer := [];
      globalOffset := 0;
      eof := false;
      input := Content(reader.script);
    }

    /** One iteration of `refill`: buffer what was read, or note the end of input. */
    method ReadMore() returns (ok: bool)
      requires Valid() && !eof && |buffer| < cfg.maxChunk
      modifies this`buffer, this`eof, reader
      ensures Valid() && Remaining() == old(Remaining())
      ensures ok ==> WillFail() == old(WillFail()) && (eof || |reader.script| < |old(reader.script)|)
      ensures !ok ==> old(WillFail()) && |reader.script| < |old(reader.script)|
      ensures |reader.script| <= |old(reader.script)|
    {
      var e := reader.Read();
      if e == Fault {
        return false;
      }
      if e.bytes == [] {
        eof := true;
      } else {
        assert (buffer + e.bytes) + Content(reader.script) == buffer + (e.bytes + Content(reader.script));
        buffer := buffer + e.bytes;
      }
      return true;
    }

    /**
     `refill`: read until the window is full or the input ends. A reader failure is reported with
     the bytes already read kept, so the remaining input is the same before and after in every case.
     After success, end of input is flagged exactly when less than `max_chunk` bytes remain.
     */
    method Refill() returns (ok: bool)
      requires Valid()
      modifies this`buffer, this`eof, reader
      ensures Valid() && Remaining() == old(Remaining()) && |reader.script| <= |old(reader.script)|
      ensures ok ==> (eof <==> |Remaining()| < cfg.maxChunk) && (eof ==> buffer == Remaining())
      ensures ok ==> |buffer| >= Min(|Remaining()|, cfg.maxChunk)
      ensures ok ==> WillFail() == old(WillFail())
      ensures !ok ==> |reader.script| < |old(reader.script)| && old(WillFail())
    {
      while !eof && |buffer| < cfg.maxChunk
        invariant Valid() && Remaining() == old(Remaining()) && |reader.script| <= |old(reader.script)|
        invariant WillFail() == old(WillFail())
        decreases !eof, |reader.script|
      {
        var more := ReadMore();
        if !more {
          return false;
        }
      }
      return true;
    }

    /** `cut_point`. The debug assertion of the source is the `assert` below. */
    method CutPointOf() returns (c: Cut)
      requires Valid() && (eof || |buffer| >= cfg.maxChunk)
      ensures c == CutWindow(cfg, buffer, eof)
    {
      var cap := Min(|buffer|, cfg.maxChunk);
      var hardMaxPending := cfg.maxChunk == cap && !eof;
      if |buffer| > cfg.minChunk {
        var p1End := Min(cap, cfg.avgChunk);
        if p1End > cfg.minChunk {
          var first := FindCut(path, cfg.gear, buffer[cfg.minChunk..p1End], cfg.maskS);
          if first.Some? {
            return Cut(cfg.minChunk + first.value, SubAverage);
          }
        }
        if cap > cfg.avgChunk {
          var second := FindCut(path, cfg.gear, buffer[cfg.avgChunk..cap], cfg.maskL);
          if second.Some? {
            return Cut(cfg.avgChunk + second.value, PostAverage);
          }
        }
      }
      if eof {
        return Cut(cap, EofTail);
      }
      assert hardMaxPending;
      return Cut(cap, HardMax);
    }

    /** After `refill`, the cut of the window is the cut of everything that remains. */
    lemma WindowDecides()
      requires Valid() && (eof <==> |Remaining()| < cfg.maxChunk) && (eof ==> buffer == Remaining())
      requires |buffer| >= Min(|Remaining()|, cfg.maxChunk)
      ensures CutWindow(cfg, buffer, eof) == CutOf(cfg, Remaining())
    {
      if !eof {
        assert buffer[..cfg.maxChunk] == Remaining()[..cfg.maxChunk];
        CutIgnoresBeyondMax(cfg, buffer, Remaining(), false);
      }
    }

    /** The chunks still to come. */
    ghost function Todo(): seq<Chunk>
      requires Valid()
      reads this, reader
    {
      Chunks(cfg, Remaining(), globalOffset)
    }

    /** Remove the first `n` buffered bytes and advance, as both emission paths do. */
    method Drain(n: nat) returns (payload: seq<Byte>)
      requires Valid() && n <= |buffer|
      modifies this`buffer, this`globalOffset
      ensures Valid() && globalOffset == old(globalOffset) + n && Remaining() == old(Remaining())[n..]
      ensures payload == input[old(globalOffset)..globalOffset]
    {
      payload := buffer[..n];
      ghost var more := if eof then [] else Content(reader.script);
      assert (buffer + more)[n..] == buffer[n..] + more;
      assert input[globalOffset..][n..] == input[globalOffset + n..];
      assert payload == input[globalOffset..][..n] == input[globalOffset..globalOffset + n];
      buffer := buffer[n..];
      globalOffset := globalOffset + n;
    }

    /** Refill, cut and drain: the steps both emission paths share. */
    method TakeCut() returns (r: Result<Option<Cut>>, payload: seq<Byte>)
      requires Valid()
      modifies this`buffer, this`eof, this`globalOffset, reader
      ensures Valid() && !r.InvalidInput? && |reader.script| <= |old(reader.script)|
      ensures r == IoError ==> |reader.script| < |old(reader.script)| && old(WillFail())
      ensures r.Ok? ==> WillFail() == old(WillFail()) && (r.value.None? ==> !WillFail())
      ensures r == IoError ==> Remaining() == old(Remaining()) && globalOffset == old(globalOffset)
      ensures r == Ok(None) ==> old(Remaining()) == [] && Remaining() == []
      ensures r.Ok? && r.value.Some? ==>
        var c := r.value.value;
        && old(Remaining()) != [] && c == CutOf(cfg, old(Remaining()))
        && globalOffset == old(globalOffset) + c.length
        && Remaining() == old(Remaining())[c.length..]
        && payload == input[old(globalOffset)..globalOffset]
    {
      payload := [];
      var ok := Refill();
      if !ok {
        return IoError, [];
      }
      if buffer == [] {
        return Ok(None), [];
      }
      WindowDecides();
      var c := CutPointOf();
      payload := Drain(c.length);
      r := Ok(Some(c));
    }

    /** The same in terms of the chunks still to come. */
    method Take() returns (r: Result<Option<Chunk>>, payload: seq<Byte>)
      requires Valid()
      modifies this`buffer, this`eof, this`globalOffset, reader
      ensures Valid() && !r.InvalidInput? && |reader.script| <= |old(reader.script)|
      ensures r == IoError ==> |reader.script| < |old(reader.script)| && old(WillFail())
      ensures r.Ok? ==> WillFail() == old(WillFail()) && (r.value.None? ==> !WillFail())
      ensures r == IoError ==> Todo() == old(Todo()) && globalOffset == old(globalOffset)
      ensures r == Ok(None) ==> old(Todo()) == [] && Todo() == []
      ensures r.Ok? && r.value.Some? ==>
        && old(Todo()) == [r.value.value] + Todo()
        && r.value.value.offset == old(globalOffset) < End(r.value.value) == globalOffset
        && payload == input[old(globalOffset)..globalOffset]
    {
      var offset := globalOffset;
      ghost var left := Remaining();
      var taken;
      taken, payload := TakeCut();
      if taken == IoError {
        return IoError, payload;
      }
      if taken.value.None? {
        return Ok(None), payload;
      }
      var c := taken.value.value;
      TodoStep(left, offset, c);
      return Ok(Some(Chunk(offset, c.length, c.phase))), payload;
    }

    /** What draining one cut does to the chunks still to come. */
    lemma TodoStep(left: seq<Byte>, offset: nat, c: Cut)
      requires Valid() && left != [] && c == CutOf(cfg, left)
      requires Remaining() == left[c.length..] && globalOffset == offset + c.length
      ensures 0 < c.length && Chunks(cfg, left, offset) == [Chunk(offset, c.length, c.phase)] + Todo()
    {
      ChunksStep(cfg, left, offset, c);
    }

    /** `next_chunk`: emits the head of `Todo`, with its hash over exactly the input bytes it names. */
    method NextChunk() returns (r: Result<Option<Descriptor>>)
      requires Valid()
      modifies this`buffer, this`eof, this`globalOffset, reader
      ensures Valid() && !r.InvalidInput? && |reader.script| <= |old(reader.script)|
      ensures r == IoError ==> Todo() == old(Todo()) && globalOffset == old(globalOffset)
      ensures r == IoError ==> |reader.script| < |old(reader.script)| && old(WillFail())
      ensures r.Ok? ==> WillFail() == old(WillFail()) && (r.value.None? ==> !WillFail())
      ensures r == Ok(None) ==> old(Todo()) == [] && Todo() == []
      ensures r.Ok? && r.value.Some? ==>
        && old(Todo()) != []
        && Describes(cfg, entropy, input, old(Todo()[0]), r.value.value)
        && Todo() == old(Todo()[1..])
        && globalOffset > old(globalOffset)
    {
      var taken, payload := Take();
      match taken
      case IoError => r := IoError;
      case Ok(None) => r := Ok(None);
      case Ok(Some(c)) =>
        var q8 := if cfg.computeFeatures then Some(entropy(payload)) else None;
        r := Ok(Some(Descriptor(Sha256(payload), c.offset, |payload|, FeatureWord(q8, c.phase))));
    }

    /** `next_boundary`: the same cut, without hashing. */
    method NextBoundary() returns (r: Result<Option<CutPoint>>)
      requires Valid()
      modifies this`buffer, this`eof, this`globalOffset, reader
      ensures Valid() && !r.InvalidInput? && |reader.script| <= |old(reader.script)|
      ensures r == IoError ==> Todo() == old(Todo()) && globalOffset == old(globalOffset)
      ensures r == IoError ==> |reader.script| < |old(reader.script)| && old(WillFail())
      ensures r.Ok? ==> WillFail() == old(WillFail()) && (r.value.None? ==> !WillFail())
      ensures r == Ok(None) ==> old(Todo()) == [] && Todo() == []
      ensures r.Ok? && r.value.Some? ==>
        && old(Todo()) != []
        && r.value.value.offset == old(globalOffset) == old(Todo()[0]).offset
        && r.value.value.length == globalOffset - old(globalOffset) == old(Todo()[0]).length
        && Todo() == old(Todo()[1..])
        && globalOffset > old(globalOffset)
    {
      var taken, _ := Take();
      match taken
      case IoError => r := IoError;
      case Ok(None) => r := Ok(None);
      case Ok(Some(c)) => r := Ok(Some(CutPoint(c.offset, c.length)));
    }

    /** The loop of `chunk_all`. */
    method CollectChunks() returns (r: Result<seq<Descriptor>>)
      requires Valid()
      modifies this`buffer, this`eof, this`globalOffset, reader
      ensures !r.InvalidInput? && (r == IoError <==> old(WillFail()))
      ensures r.Ok? ==> |r.value| == |old(Todo())| && Described(cfg, entropy, input, old(Todo()), r.value)
    {
      ghost var cs := Todo();
      var out := [];
      while true
        invariant Valid() && WillFail() == old(WillFail())
        invariant DescribedSoFar(cfg, entropy, input, cs, out, Todo())
        decreases |input| - globalOffset
      {
        ghost var todo := Todo();
        var d := NextChunk();
        match d
        case IoError => return IoError;
        case Ok(None) => return Ok(out);
        case Ok(Some(desc)) =>
          DescribedSnoc(cfg, entropy, input, cs, out, todo, desc);
          out := out + [desc];
      }
    }

    /** The loop of `cuts_all`. */
    method CollectBoundaries() returns (r: Result<seq<CutPoint>>)
      requires Valid()
      modifies this`buffer, this`eof, this`globalOffset, reader
      ensures !r.InvalidInput? && (r == IoError <==> old(WillFail()))
      ensures r.Ok? ==> AreBoundaries(old(Todo()), r.value)
    {
      ghost var cs := Todo();
      var out := [];
      while true
        invariant Valid() && WillFail() == old(WillFail())
        invariant BoundariesSoFar(cs, out, Todo())
        decreases |input| - globalOffset
      {
        ghost var todo := Todo();
        var p := NextBoundary();
        match p
        case IoError => return IoError;
        case Ok(None) =>
          assert cs[..|out|] == cs;
          return Ok(out);
        case Ok(Some(point)) =>
          BoundariesSnoc(cs, out, todo, point);
          out := out + [point];
      }
    }
  }

  lemma {:induction false} ChunksTileInput(cfg: Config, data: seq<Byte>, offset: nat)
    requires cfg.Valid()
    ensures Tiles(Chunks(cfg, data, offset), offset, offset + |data|)
    decreases |data|
  {
    if data != [] {
      var c := CutOf(cfg, data);
      ChunksTileInput(cfg, data[c.length..], offset + c.length);
      TilesCons(Chunks(cfg, data, offset), offset, offset + |data|);
    }
  }

  /**
   `chunk_all`: a degenerate configuration is refused; otherwise the call fails exactly when the reader
   does, and on success returns the descriptors of all of `Chunks`, however the reads were split.
   */
  method ChunkAll(script: seq<ReadEvent>, cfg: Config, path: Path, entropy: Entropy)
    returns (r: Result<seq<Descriptor>>)
    requires Staged(script)
    ensures r == InvalidInput <==> !(0 < cfg.minChunk < cfg.avgChunk <= cfg.maxChunk)
    ensures cfg.Valid() ==> (r == IoError <==> Faulty(script))
    ensures r.Ok? ==>
      var cs := Chunks(cfg, Content(script), 0);
      |r.value| == |cs| && Described(cfg, entropy, Content(script), cs, r.value)
  {
    if !cfg.Valid() {
      return InvalidInput;
    }
    var reader := new Reader(script);
    var stream := new FastCdcStream(reader, cfg, path, entropy);
    assert stream.input[0..] == stream.input;
    r := stream.CollectChunks();
  }

  /** `cuts_all`: the boundaries of the same chunks, which tile the input. */
  method CutsAll(script: seq<ReadEvent>, cfg: Config, path: Path)
    returns (r: Result<seq<CutPoint>>)
    requires Staged(script)
    ensures r == InvalidInput <==> !(0 < cfg.minChunk < cfg.avgChunk <= cfg.maxChunk)
    ensures cfg.Valid() ==> (r == IoError <==> Faulty(script))
    ensures r.Ok? ==> AreBoundaries(Chunks(cfg, Content(script), 0), r.value)
    ensures r.Ok? ==> PointsTile(r.value, |Content(script)|)
  {
    if !cfg.Valid() {
      return InvalidInput;
    }
    var reader := new Reader(script);
    var stream := new FastCdcStream(reader, cfg, path, _ => 0);
    assert stream.input[0..] == stream.input;
    r := stream.CollectBoundaries();
    if r.Ok? {
      ChunksTileInput(cfg, Content(script), 0);
      BoundariesTile(Chunks(cfg, Content(script), 0), r.value, |Content(script)|);
    }
  }
}
