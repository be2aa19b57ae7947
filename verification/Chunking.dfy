/**
 Chunking by an arbitrary cut rule: a function that, given all bytes still to be chunked, chooses the
 length of the first chunk. The laws here hold of every rule; FastCdc supplies the content-defined one.
 */
module Chunking {
  import opened Words

  datatype CutPhase = SubAverage | PostAverage | EofTail | HardMax

  datatype Cut = Cut(length: nat, phase: CutPhase)

  datatype Chunk = Chunk(offset: nat, length: nat, phase: CutPhase)

  type Rule = seq<Byte> -> Cut

  /** The rule takes at least one byte and no more than there are. */
  ghost predicate Productive(rule: Rule) {
    forall data: seq<Byte> :: data != [] ==> 0 < rule(data).length <= |data|
  }

  /** All chunks of `data`, whose first byte lies at `offset` of the stream. */
  function ChunksBy(rule: Rule, data: seq<Byte>, offset: nat): (cs: seq<Chunk>)
    requires Productive(rule)
    decreases |data|
  {
    if data == [] then []
    else
      var c := rule(data);
      [Chunk(offset, c.length, c.phase)] + ChunksBy(rule, data[c.length..], offset + c.length)
  }

  lemma ChunksHead(rule: Rule, data: seq<Byte>, offset: nat)
    requires Productive(rule) && data != []
    ensures
      var c, cs := rule(data), ChunksBy(rule, data, offset);
      && 0 < c.length <= |data|
      && cs != [] && cs[0] == Chunk(offset, c.length, c.phase)
      && cs[1..] == ChunksBy(rule, data[c.length..], offset + c.length)
  {}

  lemma ChunksCons(rule: Rule, data: seq<Byte>, offset: nat, c: Cut, rest: seq<Chunk>)
    requires Productive(rule) && data != [] && rule(data) == c && 0 < c.length <= |data|
    requires rest == ChunksBy(rule, data[c.length..], offset + c.length)
    ensures ChunksBy(rule, data, offset) == [Chunk(offset, c.length, c.phase)] + rest
  {}

  function End(c: Chunk): nat {
    c.offset + c.length
  }

  // ---------------------------------------------------------------------------------------------
  // Tiling
  // ---------------------------------------------------------------------------------------------

  ghost predicate Tiles(cs: seq<Chunk>, from: nat, to: nat) {
    && (cs == [] ==> from == to)
    && (cs != [] ==> cs[0].offset == from && End(cs[|cs| - 1]) == to)
    && (forall i :: 0 <= i < |cs| - 1 ==> cs[i + 1].offset == End(cs[i]))
    && (forall i :: 0 <= i < |cs| ==> cs[i].length > 0)
  }

  /** The chunks cover the input without gap or overlap, and none is empty. */
  lemma {:induction false} ChunksTile(rule: Rule, data: seq<Byte>, offset: nat)
    requires Productive(rule)
    ensures Tiles(ChunksBy(rule, data, offset), offset, offset + |data|)
    decreases |data|
  {
    if data != [] {
      ChunksHead(rule, data, offset);
      var n := rule(data).length;
      ChunksTile(rule, data[n..], offset + n);
      TilesCons(ChunksBy(rule, data, offset), offset, offset + |data|);
    }
  }

  lemma TilesCons(cs: seq<Chunk>, from: nat, to: nat)
    requires cs != [] && cs[0].offset == from && cs[0].length > 0 && Tiles(cs[1..], End(cs[0]), to)
    ensures Tiles(cs, from, to)
  {
    var rest := cs[1..];
    assert forall i :: 0 < i < |cs| ==> cs[i] == rest[i - 1];
  }

  lemma {:induction false} TilesOrdered(cs: seq<Chunk>, from: nat, to: nat, i: nat, j: nat)
    requires Tiles(cs, from, to) && i <= j < |cs|
    ensures cs[i].offset <= cs[j].offset && End(cs[i]) <= End(cs[j])
    ensures i < j ==> End(cs[i]) <= cs[j].offset
    decreases j
  {
    if i < j {
      TilesOrdered(cs, from, to, i, j - 1);
      assert cs[j - 1 + 1].offset == End(cs[j - 1]);
    }
  }

  /** From boundary `i` on, the chunks `cs` are those of the bytes from there on. */
  ghost predicate ResumesAt(rule: Rule, data: seq<Byte>, offset: nat, cs: seq<Chunk>, i: nat)
    requires Productive(rule) && i < |cs|
  {
    var at := cs[i].offset;
    offset <= at < offset + |data| && cs[i..] == ChunksBy(rule, data[at - offset..], at)
  }

  lemma {:induction false} ChunksFrom(rule: Rule, data: seq<Byte>, offset: nat, i: nat)
    requires Productive(rule) && i < |ChunksBy(rule, data, offset)|
    ensures ResumesAt(rule, data, offset, ChunksBy(rule, data, offset), i)
    decreases |data|
  {
    var cs := ChunksBy(rule, data, offset);
    if i == 0 {
      assert data[0..] == data && cs[0..] == cs;
    } else {
      ChunksHead(rule, data, offset);
      var n := rule(data).length;
      ChunksFrom(rule, data[n..], offset + n, i - 1);
      ResumeLater(rule, data, offset, cs, n, i);
    }
  }

  lemma ResumeLater(rule: Rule, data: seq<Byte>, offset: nat, cs: seq<Chunk>, n: nat, i: nat)
    requires Productive(rule) && 0 < i < |cs| && n <= |data|
    requires ResumesAt(rule, data[n..], offset + n, cs[1..], i - 1)
    ensures ResumesAt(rule, data, offset, cs, i)
  {
    DropDrop(cs, 1, i - 1);
    DropDrop(data, n, cs[i].offset - offset - n);
  }

  lemma DropDrop<T>(s: seq<T>, i: nat, j: nat)
    requires i + j <= |s|
    ensures s[i..][j..] == s[i + j..] && (i + j < |s| ==> s[i..][j] == s[i + j])
  {}

  /** Chunk `i` is the rule's cut of the bytes from its offset on. */
  lemma ChunkIsCut(rule: Rule, data: seq<Byte>, offset: nat, i: nat)
    requires Productive(rule) && i < |ChunksBy(rule, data, offset)|
    ensures
      var c := ChunksBy(rule, data, offset)[i];
      && offset <= c.offset < offset + |data| && End(c) <= offset + |data|
      && Cut(c.length, c.phase) == rule(data[c.offset - offset..])
  {
    ChunksFrom(rule, data, offset, i);
    var cs := ChunksBy(rule, data, offset);
    assert cs[i..][0] == cs[i];
  }

  lemma LastChunkEnds(rule: Rule, data: seq<Byte>, offset: nat, i: nat)
    requires Productive(rule) && i < |ChunksBy(rule, data, offset)|
    ensures
      var cs := ChunksBy(rule, data, offset);
      i + 1 < |cs| <==> End(cs[i]) < offset + |data|
  {
    var cs := ChunksBy(rule, data, offset);
    ChunksTile(rule, data, offset);
    if i + 1 < |cs| {
      TilesOrdered(cs, offset, offset + |data|, i + 1, |cs| - 1);
    }
  }

  // ---------------------------------------------------------------------------------------------
  // Locality
  // ---------------------------------------------------------------------------------------------

  /** A cut that is not the end of the input depends only on the bytes of its own chunk. */
  ghost predicate Local(rule: Rule) {
    forall a: seq<Byte>, b: seq<Byte> :: LocalAt(rule, a, b)
  }

  ghost predicate LocalAt(rule: Rule, a: seq<Byte>, b: seq<Byte>) {
    var c := rule(a);
    c.length < |a| && c.length <= |b| && a[..c.length] == b[..c.length] ==> rule(b) == c
  }

  /** Two inputs with a common prefix have the same chunks inside it, index by index. */
  lemma {:induction false} SharedPrefix(rule: Rule, a: seq<Byte>, b: seq<Byte>, n: nat, offset: nat, i: nat)
    requires Productive(rule) && Local(rule)
    requires n <= |a| && n <= |b| && a[..n] == b[..n]
    requires var cs := ChunksBy(rule, a, offset); i + 1 < |cs| && End(cs[i]) <= offset + n
    ensures var cs, ds := ChunksBy(rule, a, offset), ChunksBy(rule, b, offset); i < |ds| && ds[i] == cs[i]
    decreases |a|
  {
    var k := rule(a).length;
    SharedHead(rule, a, b, n, offset, i);
    if i > 0 {
      var m := n - k;
      SlicePrefix(a, b, k, n);
      SharedPrefix(rule, a[k..], b[k..], m, offset + k, i - 1);
    }
  }

  lemma SlicePrefix(a: seq<Byte>, b: seq<Byte>, k: nat, n: nat)
    requires k <= n <= |a| && n <= |b| && a[..n] == b[..n]
    ensures a[..k] == b[..k] && a[k..][..n - k] == b[k..][..n - k]
  {
    assert a[..k] == a[..n][..k] && b[..k] == b[..n][..k];
    assert a[k..][..n - k] == a[..n][k..] && b[k..][..n - k] == b[..n][k..];
  }

  /** The first chunk is cut alike when a later chunk still ends in the common prefix. */
  lemma SharedHead(rule: Rule, a: seq<Byte>, b: seq<Byte>, n: nat, offset: nat, i: nat)
    requires Productive(rule) && Local(rule)
    requires n <= |a| && n <= |b| && a[..n] == b[..n]
    requires var cs := ChunksBy(rule, a, offset); i + 1 < |cs| && End(cs[i]) <= offset + n
    ensures 0 < rule(a).length <= n && rule(b) == rule(a)
  {
    var cs := ChunksBy(rule, a, offset);
    var k := rule(a).length;
    ChunksTile(rule, a, offset);
    TilesOrdered(cs, offset, offset + |a|, 0, i);
    LastChunkEnds(rule, a, offset, 0);
    SlicePrefix(a, b, k, n);
    assert LocalAt(rule, a, b);
  }

  /** The same chunk at another offset. */
  function Moved(c: Chunk, offset: nat): Chunk {
    c.(offset := offset)
  }

  /** `ds` is `cs` shifted so that a chunk at `from` lands at `to`. */
  ghost predicate Shifted(cs: seq<Chunk>, ds: seq<Chunk>, from: nat, to: nat) {
    && |cs| == |ds|
    && forall k :: 0 <= k < |cs| ==> cs[k].offset >= from && ds[k] == Moved(cs[k], cs[k].offset - from + to)
  }

  lemma {:induction false} ChunksMove(rule: Rule, data: seq<Byte>, from: nat, to: nat)
    requires Productive(rule)
    ensures Shifted(ChunksBy(rule, data, from), ChunksBy(rule, data, to), from, to)
    decreases |data|
  {
    if data != [] {
      var n := rule(data).length;
      ChunksMove(rule, data[n..], from + n, to + n);
    }
  }

  /** Two chunkings that reach boundaries with the same bytes ahead agree from there on. */
  lemma Resync(rule: Rule, a: seq<Byte>, b: seq<Byte>, i: nat, j: nat)
    requires Productive(rule)
    requires i < |ChunksBy(rule, a, 0)| && j < |ChunksBy(rule, b, 0)|
    requires
      var p, q := ChunksBy(rule, a, 0)[i].offset, ChunksBy(rule, b, 0)[j].offset;
      p <= |a| && q <= |b| && a[p..] == b[q..]
    ensures
      var cs, ds := ChunksBy(rule, a, 0), ChunksBy(rule, b, 0);
      Shifted(cs[i..], ds[j..], cs[i].offset, ds[j].offset)
  {
    var cs, ds := ChunksBy(rule, a, 0), ChunksBy(rule, b, 0);
    ChunksFrom(rule, a, 0, i);
    ChunksFrom(rule, b, 0, j);
    ChunksMove(rule, a[cs[i].offset..], cs[i].offset, ds[j].offset);
  }

  /** Every non-final chunk of `cs` that ends within the first `n` bytes is a chunk of `ds` as well. */
  ghost predicate PrefixKept(cs: seq<Chunk>, ds: seq<Chunk>, n: nat) {
    forall i :: 0 <= i < |cs| - 1 && End(cs[i]) <= n ==> i < |ds| && ds[i] == cs[i]
  }

  /** From boundaries equally far beyond `p` and `q` on, the chunks are the same up to the shift. */
  ghost predicate SuffixKept(cs: seq<Chunk>, ds: seq<Chunk>, p: nat, q: nat) {
    forall i, j :: 0 <= i < |cs| && 0 <= j < |ds| && 0 <= cs[i].offset - p == ds[j].offset - q
      ==> Shifted(cs[i..], ds[j..], cs[i].offset, ds[j].offset)
  }

  lemma KeepPrefix(rule: Rule, a: seq<Byte>, b: seq<Byte>, n: nat)
    requires Productive(rule) && Local(rule) && n <= |a| && n <= |b| && a[..n] == b[..n]
    ensures PrefixKept(ChunksBy(rule, a, 0), ChunksBy(rule, b, 0), n)
  {
    var cs := ChunksBy(rule, a, 0);
    forall i | 0 <= i < |cs| - 1 && End(cs[i]) <= n
      ensures i < |ChunksBy(rule, b, 0)| && ChunksBy(rule, b, 0)[i] == cs[i]
    {
      SharedPrefix(rule, a, b, n, 0, i);
    }
  }

  lemma KeepSuffix(rule: Rule, a: seq<Byte>, b: seq<Byte>, p: nat, q: nat)
    requires Productive(rule) && p <= |a| && q <= |b| && a[p..] == b[q..]
    ensures SuffixKept(ChunksBy(rule, a, 0), ChunksBy(rule, b, 0), p, q)
  {
    var cs, ds := ChunksBy(rule, a, 0), ChunksBy(rule, b, 0);
    forall i, j | 0 <= i < |cs| && 0 <= j < |ds| && 0 <= cs[i].offset - p == ds[j].offset - q
      ensures Shifted(cs[i..], ds[j..], cs[i].offset, ds[j].offset)
    {
      ChunkIsCut(rule, a, 0, i);
      ChunkIsCut(rule, b, 0, j);
      var t := cs[i].offset - p;
      assert a[p + t..] == a[p..][t..] == b[q..][t..] == b[q + t..];
      Resync(rule, a, b, i, j);
    }
  }

  /**
   Edit locality. Replace the middle `x` of an input by `y`: every non-final chunk that ends inside the
   common prefix is kept in place, and once both chunkings have a boundary at the same point of the
   common suffix, all later chunks are identical up to the shift in offset.
   */
  lemma EditLocality(rule: Rule, prefix: seq<Byte>, x: seq<Byte>, y: seq<Byte>, suffix: seq<Byte>)
    requires Productive(rule) && Local(rule)
    ensures
      var cs, ds := ChunksBy(rule, prefix + x + suffix, 0), ChunksBy(rule, prefix + y + suffix, 0);
      PrefixKept(cs, ds, |prefix|) && SuffixKept(cs, ds, |prefix| + |x|, |prefix| + |y|)
  {
    Affixes(prefix, x, suffix);
    Affixes(prefix, y, suffix);
    KeepBoth(rule, prefix + x + suffix, prefix + y + suffix, |prefix|, |prefix| + |x|, |prefix| + |y|);
  }

  lemma Affixes(prefix: seq<Byte>, x: seq<Byte>, suffix: seq<Byte>)
    ensures (prefix + x + suffix)[..|prefix|] == prefix && (prefix + x + suffix)[|prefix| + |x|..] == suffix
  {}

  lemma KeepBoth(rule: Rule, a: seq<Byte>, b: seq<Byte>, n: nat, p: nat, q: nat)
    requires Productive(rule) && Local(rule) && n <= |a| && n <= |b| && a[..n] == b[..n]
    requires p <= |a| && q <= |b| && a[p..] == b[q..]
    ensures
      var cs, ds := ChunksBy(rule, a, 0), ChunksBy(rule, b, 0);
      PrefixKept(cs, ds, n) && SuffixKept(cs, ds, p, q)
  {
    KeepPrefix(rule, a, b, n);
    KeepSuffix(rule, a, b, p, q);
  }

  // ---------------------------------------------------------------------------------------------
  // Comparing boundaries
  // ---------------------------------------------------------------------------------------------

  function Lengths(cs: seq<Chunk>): seq<nat> {
    seq(|cs|, i requires 0 <= i < |cs| => cs[i].length)
  }

  /** A rule that only says how many bytes the next chunk takes. */
  type LengthRule = seq<Byte> -> nat

  ghost predicate Advances(g: LengthRule) {
    forall data: seq<Byte> :: data != [] ==> 0 < g(data) <= |data|
  }

  function LengthsBy(g: LengthRule, data: seq<Byte>): seq<nat>
    requires Advances(g)
    decreases |data|
  {
    if data == [] then [] else [g(data)] + LengthsBy(g, data[g(data)..])
  }

  /** At every chunk start of the first rule, the second one takes as many bytes. */
  ghost predicate AgreeAlong(f: Rule, g: LengthRule, data: seq<Byte>)
    requires Productive(f)
    decreases |data|
  {
    data == [] || (g(data) == f(data).length && AgreeAlong(f, g, data[f(data).length..]))
  }

  lemma SameHeadTail(x: nat, xs: seq<nat>, y: nat, ys: seq<nat>)
    ensures [x] + xs == [y] + ys <==> x == y && xs == ys
  {
    assert ([x] + xs)[0] == x && ([x] + xs)[1..] == xs;
    assert ([y] + ys)[0] == y && ([y] + ys)[1..] == ys;
  }

  /** Two rules put the same boundaries exactly when they take as many bytes at every chunk start of the first. */
  lemma SameLengths(f: Rule, g: LengthRule, data: seq<Byte>, offset: nat)
    requires Productive(f) && Advances(g)
    ensures LengthsBy(g, data) == Lengths(ChunksBy(f, data, offset)) <==> AgreeAlong(f, g, data)
  {
    if AgreeAlong(f, g, data) {
      LengthsFromAgreement(f, g, data, offset);
    }
    if LengthsBy(g, data) == Lengths(ChunksBy(f, data, offset)) {
      AgreementFromLengths(f, g, data, offset);
    }
  }

  lemma {:induction false} LengthsFromAgreement(f: Rule, g: LengthRule, data: seq<Byte>, offset: nat)
    requires Productive(f) && Advances(g) && AgreeAlong(f, g, data)
    ensures LengthsBy(g, data) == Lengths(ChunksBy(f, data, offset))
    decreases |data|
  {
    if data == [] {
      assert Lengths([]) == [];
    } else {
      LengthsHead(f, data, offset);
      LengthsByHead(g, data);
      LengthsFromAgreement(f, g, data[g(data)..], offset + g(data));
    }
  }

  lemma {:induction false} AgreementFromLengths(f: Rule, g: LengthRule, data: seq<Byte>, offset: nat)
    requires Productive(f) && Advances(g) && LengthsBy(g, data) == Lengths(ChunksBy(f, data, offset))
    ensures AgreeAlong(f, g, data)
    decreases |data|
  {
    if data != [] {
      HeadsAgree(f, g, data, offset);
      var n := g(data);
      AgreementFromLengths(f, g, data[n..], offset + n);
    }
  }

  lemma HeadsAgree(f: Rule, g: LengthRule, data: seq<Byte>, offset: nat)
    requires Productive(f) && Advances(g) && LengthsBy(g, data) == Lengths(ChunksBy(f, data, offset)) && data != []
    ensures
      var n := g(data);
      && 0 < n == f(data).length <= |data|
      && LengthsBy(g, data[n..]) == Lengths(ChunksBy(f, data[n..], offset + n))
  {
    LengthsHead(f, data, offset);
    LengthsByHead(g, data);
    var n := f(data).length;
    SameHeadTail(g(data), LengthsBy(g, data[g(data)..]), n, Lengths(ChunksBy(f, data[n..], offset + n)));
  }

  lemma LengthsHead(f: Rule, data: seq<Byte>, offset: nat)
    requires Productive(f) && data != []
    ensures
      var n := f(data).length;
      && 0 < n <= |data|
      && Lengths(ChunksBy(f, data, offset)) == [n] + Lengths(ChunksBy(f, data[n..], offset + n))
  {
    ChunksHead(f, data, offset);
    LengthsCons(ChunksBy(f, data, offset));
  }

  lemma LengthsCons(cs: seq<Chunk>)
    requires cs != []
    ensures Lengths(cs) == [cs[0].length] + Lengths(cs[1..])
  {}

  lemma LengthsByHead(g: LengthRule, data: seq<Byte>)
    requires Advances(g) && data != []
    ensures 0 < g(data) <= |data| && LengthsBy(g, data) == [g(data)] + LengthsBy(g, data[g(data)..])
  {}
}
