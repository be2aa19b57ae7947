/** The signed message and the pre-signed URL of internal/auth/hmac.go. */
module TokenCodec {
  import opened Options
  import opened Text

  const NONCE_SIZE: nat := 16
  const SHA256_SIZE: nat := 32

  datatype Claims = Claims(
    tenant: Uuid, blockHash: string, expiry: int, keyVersion: int, endpoint: string, nonce: string)

  datatype Token = Token(claims: Claims, signature: string)

  predicate IsEndpointChar(c: char) {
    '0' <= c <= '9' || 'A' <= c <= 'Z' || 'a' <= c <= 'z' || c == '_' || c == '-'
  }

  /** `isEndpointSafe`. */
  predicate IsEndpointSafe(s: string) {
    forall i :: 0 <= i < |s| ==> IsEndpointChar(s[i])
  }

  /** `Claims.valid`. */
  predicate ValidClaims(c: Claims) {
    && |c.blockHash| == 64 && IsLowerHex(c.blockHash)
    && 0 < |c.endpoint| <= 64 && IsEndpointSafe(c.endpoint)
    && 1 <= c.keyVersion <= 1_000_000
    && |c.nonce| == 2 * NONCE_SIZE && IsLowerHex(c.nonce)
  }

  predicate ValidSignature(s: string) {
    |s| == 2 * SHA256_SIZE && IsLowerHex(s)
  }

  // ---------------------------------------------------------------------------------------------
  // The canonical message
  // ---------------------------------------------------------------------------------------------

  function MessageFields(c: Claims): seq<string> {
    ["aegis1", FormatInt(c.keyVersion), UuidString(c.tenant), c.blockHash, FormatInt(c.expiry), c.endpoint, c.nonce]
  }

  /** `Claims.message`. */
  function Message(c: Claims): string {
    Join(':', MessageFields(c))
  }

  lemma HexHasNo(s: string, c: char)
    requires IsLowerHex(s) && !IsLowerHexChar(c)
    ensures c !in s
  {}

  lemma FormatIntHasNo(n: int, c: char)
    requires !IsDigit(c) && c != '-'
    ensures c !in FormatInt(n)
  {
    DecNatDigits(if n < 0 then -n else n);
  }

  lemma UuidHasNo(u: Uuid, c: char)
    requires !IsLowerHexChar(c) && c != '-'
    ensures c !in UuidString(u)
  {
    forall i | 0 <= i < 36
      ensures UuidString(u)[i] != c
    {
      UuidChars(u, i);
    }
  }

  /** The characters no field of a valid token contains. */
  predicate Foreign(c: char) {
    !IsEndpointChar(c)
  }

  lemma FieldsFree(c: Claims, sep: char)
    requires ValidClaims(c) && Foreign(sep)
    ensures Free(sep, MessageFields(c))
  {
    FormatIntHasNo(c.keyVersion, sep);
    FormatIntHasNo(c.expiry, sep);
    UuidHasNo(c.tenant, sep);
    HexHasNo(c.blockHash, sep);
    HexHasNo(c.nonce, sep);
    assert sep !in "aegis1";
  }

  lemma FormatIntSign(n: int)
    ensures FormatInt(n) != "" && (FormatInt(n)[0] == '-' <==> n < 0)
  {
    DecNatDigits(if n < 0 then -n else n);
    assert n >= 0 ==> IsDigit(FormatInt(n)[0]);
  }

  lemma FormatIntInjective(m: int, n: int)
    requires FormatInt(m) == FormatInt(n)
    ensures m == n
  {
    FormatIntSign(m);
    FormatIntSign(n);
    DecNatDigits(if m < 0 then -m else m);
    DecNatDigits(if n < 0 then -n else n);
    if m < 0 {
      assert FormatInt(m)[1..] == DecNat(-m) && FormatInt(n)[1..] == DecNat(-n);
    }
  }

  /** The message determines the claims: no field can pass for a separator or for another field. */
  lemma MessageInjective(a: Claims, b: Claims)
    requires ValidClaims(a) && ValidClaims(b) && Message(a) == Message(b)
    ensures a == b
  {
    FieldsFree(a, ':');
    FieldsFree(b, ':');
    SplitJoin(':', MessageFields(a));
    SplitJoin(':', MessageFields(b));
    var p, q := MessageFields(a), MessageFields(b);
    assert p == q;
    assert p[1] == q[1] && p[2] == q[2] && p[3] == q[3] && p[4] == q[4] && p[5] == q[5] && p[6] == q[6];
    FormatIntInjective(a.keyVersion, b.keyVersion);
    FormatIntInjective(a.expiry, b.expiry);
    UuidRoundTrip(a.tenant);
    UuidRoundTrip(b.tenant);
  }

  // ---------------------------------------------------------------------------------------------
  // Percent encoding
  // ---------------------------------------------------------------------------------------------

  /** The unreserved characters of section 2.3 of RFC 3986. */
  predicate Unreserved(c: char) {
    IsEndpointChar(c) || c == '.' || c == '~'
  }

  function UpperHex(d: nat): char
    requires d < 16
  {
    if d < 10 then ('0' as int + d) as char else ('A' as int + (d - 10)) as char
  }

  /** `url.QueryEscape`, on byte strings. */
  function QueryEscape(s: string): string {
    if s == "" then ""
    else
      var c := s[0];
      (if Unreserved(c) then [c]
       else if c == ' ' then "+"
       else var b := c as int % 256; ['%', UpperHex(b / 16), UpperHex(b % 16)])
      + QueryEscape(s[1..])
  }

  /** Percent decoding; in a query, `+` stands for a space. */
  function Unescape(s: string, plusIsSpace: bool): Option<string> {
    if s == "" then Some("")
    else if s[0] == '%' then
      if |s| < 3 then None
      else
        var hi, lo, rest := HexValue(s[1]), HexValue(s[2]), Unescape(s[3..], plusIsSpace);
        if hi.Some? && lo.Some? && rest.Some? then Some([(16 * hi.value + lo.value) as char] + rest.value) else None
    else
      var rest := Unescape(s[1..], plusIsSpace);
      if rest.Some? then Some([if plusIsSpace && s[0] == '+' then ' ' else s[0]] + rest.value) else None
  }

  predicate AllUnreserved(s: string) {
    forall i :: 0 <= i < |s| ==> Unreserved(s[i])
  }

  lemma {:induction false} EscapeIdentity(s: string)
    requires AllUnreserved(s)
    ensures QueryEscape(s) == s
  {
    if s != "" {
      EscapeIdentity(s[1..]);
      assert [s[0]] + s[1..] == s;
    }
  }

  predicate Plain(s: string) {
    forall i :: 0 <= i < |s| ==> s[i] != '%' && s[i] != '+'
  }

  lemma {:induction false} UnescapeIdentity(s: string, plusIsSpace: bool)
    requires Plain(s)
    ensures Unescape(s, plusIsSpace) == Some(s)
  {
    if s != "" {
      UnescapeIdentity(s[1..], plusIsSpace);
      assert [s[0]] + s[1..] == s;
    }
  }

  // ---------------------------------------------------------------------------------------------
  // Query strings
  // ---------------------------------------------------------------------------------------------

  datatype Param = Param(key: string, value: string)

  function PairText(p: Param): string {
    QueryEscape(p.key) + "=" + QueryEscape(p.value)
  }

  function PairTexts(ps: seq<Param>): seq<string> {
    if ps == [] then [] else [PairText(ps[0])] + PairTexts(ps[1..])
  }

  /** `url.Values.Encode` of parameters listed in key order. */
  function EncodeQuery(ps: seq<Param>): string {
    Join('&', PairTexts(ps))
  }

  /** One `key=value` piece of a query; empty pieces and pieces with `;` or bad escapes are dropped. */
  function ParsePair(text: string): Option<Param> {
    if text == "" || ';' in text then None
    else
      var (k, v) := CutAt(text, '=');
      var key, value := Unescape(k, true), Unescape(if v.Some? then v.value else "", true);
      if key.Some? && value.Some? then Some(Param(key.value, value.value)) else None
  }

  /** `url.Values.Get`: the first value under `key`, or nothing. */
  function GetFrom(texts: seq<string>, key: string): string {
    if texts == [] then ""
    else
      var p := ParsePair(texts[0]);
      if p.Some? && p.value.key == key then p.value.value else GetFrom(texts[1..], key)
  }

  function QueryGet(query: string, key: string): string {
    GetFrom(Split('&', query), key)
  }

  ghost predicate PlainParams(ps: seq<Param>) {
    forall p :: p in ps ==> AllUnreserved(p.key) && AllUnreserved(p.value)
  }

  lemma PairIsPlain(p: Param)
    requires AllUnreserved(p.key) && AllUnreserved(p.value)
    ensures PairText(p) == p.key + ['='] + p.value
  {
    EscapeIdentity(p.key);
    EscapeIdentity(p.value);
  }

  lemma UnreservedHasNo(s: string, c: char)
    requires AllUnreserved(s) && !Unreserved(c)
    ensures c !in s
  {}

  lemma PairHasNo(p: Param, c: char)
    requires AllUnreserved(p.key) && AllUnreserved(p.value) && !Unreserved(c) && c != '='
    ensures c !in PairText(p)
  {
    PairIsPlain(p);
    UnreservedHasNo(p.key, c);
    UnreservedHasNo(p.value, c);
  }

  lemma PairRoundTrip(p: Param)
    requires AllUnreserved(p.key) && AllUnreserved(p.value)
    ensures ParsePair(PairText(p)) == Some(p)
  {
    PairIsPlain(p);
    PairHasNo(p, ';');
    UnreservedHasNo(p.key, '=');
    CutAtJoin(p.key, '=', p.value);
    UnescapeIdentity(p.key, true);
    UnescapeIdentity(p.value, true);
  }

  /** The first parameter with the key. */
  function Lookup(ps: seq<Param>, key: string): string {
    if ps == [] then "" else if ps[0].key == key then ps[0].value else Lookup(ps[1..], key)
  }

  lemma {:induction false} GetFromPairs(ps: seq<Param>, key: string)
    requires PlainParams(ps)
    ensures GetFrom(PairTexts(ps), key) == Lookup(ps, key)
    ensures Free('&', PairTexts(ps)) && |PairTexts(ps)| == |ps|
  {
    if ps != [] {
      PairRoundTrip(ps[0]);
      PairHasNo(ps[0], '&');
      GetFromPairs(ps[1..], key);
    }
  }

  /** Decoding what was encoded finds every parameter. */
  lemma QueryRoundTrip(ps: seq<Param>, key: string)
    requires ps != [] && PlainParams(ps)
    ensures QueryGet(EncodeQuery(ps), key) == Lookup(ps, key)
  {
    GetFromPairs(ps, key);
    SplitJoin('&', PairTexts(ps));
  }

  // ---------------------------------------------------------------------------------------------
  // URLs
  // ---------------------------------------------------------------------------------------------

  predicate IsLetter(c: char) {
    'A' <= c <= 'Z' || 'a' <= c <= 'z'
  }

  predicate IsScheme(s: string) {
    && s != "" && IsLetter(s[0])
    && forall i :: 0 <= i < |s| ==> IsLetter(s[i]) || IsDigit(s[i]) || s[i] == '+' || s[i] == '-' || s[i] == '.'
  }

  predicate IsControl(c: char) {
    c < ' ' || c == 127 as char
  }

  predicate HasControl(s: string) {
    exists i :: 0 <= i < |s| && IsControl(s[i])
  }

  datatype Url = Url(path: string, query: string)

  /** Splits off `scheme:`; a colon with nothing before it is an error. */
  function SchemeOf(s: string): Option<(string, string)> {
    var (a, rest) := CutAt(s, ':');
    if rest.Some? && a == "" then None
    else if rest.Some? && IsScheme(a) then Some((a, rest.value))
    else Some(("", s))
  }

  /** The text before and after the last `c`. */
  function CutAtLast(s: string, c: char): Option<(string, string)> {
    if s == "" then None
    else if s[|s| - 1] == c then Some((s[..|s| - 1], ""))
    else
      var r := CutAtLast(s[..|s| - 1], c);
      if r.None? then None else Some((r.value.0, r.value.1 + [s[|s| - 1]]))
  }

  /** The characters a host may contain unescaped; the parser lets all non-ASCII ones pass. */
  predicate IsHostChar(c: char) {
    Unreserved(c) || c in "!$&'()*+,;=:[]<>" || c == 34 as char || c >= 128 as char
  }

  /** Escapes in a host stand for non-ASCII bytes or for the percent sign. */
  predicate HostEscapesOk(s: string) {
    s == "" ||
    if s[0] == '%' then
      && |s| >= 3 && HexValue(s[1]).Some? && HexValue(s[2]).Some?
      && (HexValue(s[1]).value >= 8 || s[..3] == "%25") && HostEscapesOk(s[3..])
    else IsHostChar(s[0]) && HostEscapesOk(s[1..])
  }

  predicate IsUserinfoChar(c: char) {
    Unreserved(c) || c in ":!$&'()*+,;=%@"
  }

  /** What the parser says of a host in brackets, an address literal. */
  type LiteralTest = string -> bool

  /** `parseHost`: an optional port is digits only. */
  predicate HostOk(host: string, literal: LiteralTest) {
    if '[' in host then literal(host)
    else
      var port := CutAtLast(host, ':');
      (port.Some? ==> AllDigits(port.value.1)) && HostEscapesOk(host)
  }

  /** `parseAuthority`: a host, after user information up to the last `@` if there is one. */
  predicate AuthorityOk(authority: string, literal: LiteralTest) {
    var user := CutAtLast(authority, '@');
    if user.None? then HostOk(authority, literal)
    else
      && HostOk(user.value.1, literal)
      && (forall i :: 0 <= i < |user.value.0| ==> IsUserinfoChar(user.value.0[i]))
      && Unescape(user.value.0, false).Some?
  }

  /** Checks and drops `//authority` in front of a path. */
  function DropAuthority(s: string, literal: LiteralTest): Option<string> {
    if |s| >= 2 && s[..2] == "//" then
      var (authority, path) := CutAt(s[2..], '/');
      if !AuthorityOk(authority, literal) then None
      else Some(if path.Some? then "/" + path.value else "")
    else Some(s)
  }

  /** `url.Parse`, as far as the path and the query of the result are concerned. */
  function ParseUrl(raw: string, literal: LiteralTest): Option<Url> {
    var (noFragment, _) := CutAt(raw, '#');
    var split := SchemeOf(noFragment);
    if HasControl(noFragment) || split.None? then None
    else
      var (scheme, afterScheme) := split.value;
      var (rest, q) := CutAt(afterScheme, '?');
      ParseHierarchy(scheme, rest, if q.Some? then q.value else "", literal)
  }

  /** The part between the scheme and the query. */
  function ParseHierarchy(scheme: string, rest: string, query: string, literal: LiteralTest): Option<Url> {
    if rest == "" || rest[0] != '/' then
      if scheme != "" then Some(Url("", query))
      else if ':' in CutAt(rest, '/').0 then None
      else PathUrl(rest, query)
    else if scheme == "" && |rest| >= 3 && rest[..3] == "///" then PathUrl(rest, query)
    else
      var path := DropAuthority(rest, literal);
      if path.None? then None else PathUrl(path.value, query)
  }

  function PathUrl(escaped: string, query: string): Option<Url> {
    var path := Unescape(escaped, false);
    if path.Some? then Some(Url(path.value, query)) else None
  }

  /** `SignedToken.Query`, in the key order `Encode` uses. */
  function Params(t: Token): seq<Param> {
    [Param("ep", t.claims.endpoint), Param("kv", FormatInt(t.claims.keyVersion)), Param("nonce", t.claims.nonce),
     Param("sig", t.signature), Param("tenant", UuidString(t.claims.tenant)), Param("ts", FormatInt(t.claims.expiry))]
  }

  const CHUNKS: string := "/chunks/"

  /** `SignedToken.URL`. */
  function UrlText(t: Token, base: string): string {
    base + CHUNKS + t.claims.blockHash + "?" + EncodeQuery(Params(t))
  }

  /** `ParsePreSignedURL`; `None` is the malformed-token error. */
  function ParsePreSigned(raw: string, literal: LiteralTest): Option<Token> {
    var u := ParseUrl(raw, literal);
    if u.None? then None else TokenOf(u.value.path, u.value.query)
  }

  /** The token in a path and a query; the first eight characters of the path are not looked at. */
  function TokenOf(path: string, q: string): Option<Token> {
    var blockHash := if |path| > |CHUNKS| then path[|CHUNKS|..] else "";
    var tenant, expiry, version :=
      UuidParse(QueryGet(q, "tenant")), ParseInt(QueryGet(q, "ts")), ParseInt(QueryGet(q, "kv"));
    var sig := QueryGet(q, "sig");
    if tenant.None? || expiry.None? || version.None? || !ValidSignature(sig) then None
    else
      var c := Claims(tenant.value, blockHash, expiry.value, version.value, QueryGet(q, "ep"), QueryGet(q, "nonce"));
      if ValidClaims(c) then Some(Token(c, sig)) else None
  }

  /**
   A base without a path: nothing, `scheme:`, or an authority the parser accepts after `scheme://` or `//`.
   An empty authority needs the scheme.
   */
  predicate Pathless(base: string, literal: LiteralTest) {
    var split := SchemeOf(base);
    && !HasControl(base) && split.Some?
    && var (scheme, rest) := split.value;
      rest == "" || (IsBareAuthority(rest, literal) && (scheme != "" || rest != "//"))
  }

  /** The characters of a printed query. */
  predicate QueryChar(c: char) {
    Unreserved(c) || c == '&' || c == '='
  }

  predicate AllQueryChars(s: string) {
    forall i :: 0 <= i < |s| ==> QueryChar(s[i])
  }

  lemma {:induction false} QueryChars(ps: seq<Param>)
    requires PlainParams(ps)
    ensures AllQueryChars(Join('&', PairTexts(ps)))
  {
    if ps != [] {
      PairIsPlain(ps[0]);
      QueryChars(ps[1..]);
      assert PairTexts(ps)[1..] == PairTexts(ps[1..]);
    }
  }

  lemma ParamsPlain(t: Token)
    requires ValidClaims(t.claims) && ValidSignature(t.signature)
    ensures PlainParams(Params(t))
  {
    FormatIntPlain(t.claims.keyVersion);
    FormatIntPlain(t.claims.expiry);
    UuidPlain(t.claims.tenant);
    HexPlain(t.claims.nonce);
    HexPlain(t.signature);
    EndpointPlain(t.claims.endpoint);
    assert AllUnreserved("ep") && AllUnreserved("kv") && AllUnreserved("nonce");
    assert AllUnreserved("sig") && AllUnreserved("tenant") && AllUnreserved("ts");
  }

  lemma FormatIntPlain(n: int)
    ensures AllUnreserved(FormatInt(n))
  {
    DecNatDigits(if n < 0 then -n else n);
  }

  lemma UuidPlain(u: Uuid)
    ensures AllUnreserved(UuidString(u))
  {
    forall i | 0 <= i < 36
      ensures Unreserved(UuidString(u)[i])
    {
      UuidChars(u, i);
    }
  }

  lemma HexPlain(s: string)
    requires IsLowerHex(s)
    ensures AllUnreserved(s)
  {}

  lemma EndpointPlain(s: string)
    requires IsEndpointSafe(s)
    ensures AllUnreserved(s)
  {}

  // ---------------------------------------------------------------------------------------------
  // Taking a printed URL apart
  // ---------------------------------------------------------------------------------------------

  predicate IsBlockHash(hash: string) {
    |hash| == 64 && IsLowerHex(hash)
  }

  /** What `URL` puts between the base and the query. */
  function ChunkPath(hash: string): string {
    CHUNKS + hash
  }

  lemma ChunkPathShape(hash: string)
    requires IsBlockHash(hash)
    ensures
      var path := ChunkPath(hash);
      && |path| == |CHUNKS| + 64 && path[0] == '/' && path[1] == 'c' && path[..2] != "//" && Plain(path)
      && ':' !in path && '?' !in path && '#' !in path && !HasControl(path)
  {
    var path := ChunkPath(hash);
    assert forall i :: 0 <= i < |path| ==> path[i] == '/' || Unreserved(path[i]);
  }

  /** Text after which the first `c` is still where it was. */
  lemma {:induction false} CutAtAppend(s: string, c: char, tail: string)
    requires c !in tail
    ensures
      var (a, b) := CutAt(s, c);
      CutAt(s + tail, c) == if b.Some? then (a, Some(b.value + tail)) else (s + tail, None)
  {
    if s == "" {
      assert s + tail == tail;
      CutAtNone(tail, c);
    } else {
      assert (s + tail)[1..] == s[1..] + tail;
      CutAtAppend(s[1..], c, tail);
      assert [s[0]] + (s[1..] + tail) == s + tail;
    }
  }

  lemma SchemeAppend(base: string, tail: string)
    requires ':' !in tail
    ensures
      var split := SchemeOf(base);
      SchemeOf(base + tail) == if split.None? then None else Some((split.value.0, split.value.1 + tail))
  {
    CutAtAppend(base, ':', tail);
  }

  /** What follows the scheme consists of characters of the whole. */
  lemma {:induction false} CutAtSuffix(s: string, c: char, x: char)
    requires x !in s
    ensures CutAt(s, c).1.Some? ==> x !in CutAt(s, c).1.value
  {
    if s != "" && s[0] != c {
      CutAtSuffix(s[1..], c, x);
    }
  }

  lemma SchemeSuffix(base: string, x: char)
    requires x !in base
    ensures SchemeOf(base).Some? ==> x !in SchemeOf(base).value.1
  {
    CutAtSuffix(base, ':', x);
  }

  /** Fragment, control characters, scheme and query of a printed URL. */
  lemma ParsePrinted(base: string, hash: string, query: string, literal: LiteralTest)
    requires '?' !in base && '#' !in base && IsBlockHash(hash) && AllQueryChars(query)
    ensures
      var split := SchemeOf(base);
      ParseUrl(base + ChunkPath(hash) + ['?'] + query, literal) ==
        if HasControl(base) || split.None? then None
        else ParseHierarchy(split.value.0, split.value.1 + ChunkPath(hash), query, literal)
  {
    var path := ChunkPath(hash);
    var tail := path + (['?'] + query);
    var raw := base + path + ['?'] + query;
    assert raw == base + tail;
    ChunkPathShape(hash);
    TailChars(hash, query);
    CutAtNone(raw, '#');
    ControlAppend(base, tail);
    SchemeAppend(base, tail);
    if SchemeOf(base).Some? {
      var rest := SchemeOf(base).value.1;
      SchemeSuffix(base, '?');
      assert rest + tail == rest + path + ['?'] + query;
      CutAtJoin(rest + path, '?', query);
    }
  }

  lemma TailChars(hash: string, query: string)
    requires IsBlockHash(hash) && AllQueryChars(query)
    ensures
      var tail := ChunkPath(hash) + (['?'] + query);
      ':' !in tail && '#' !in tail && !HasControl(tail)
  {
    ChunkPathShape(hash);
    ControlAppend(ChunkPath(hash), ['?'] + query);
    assert forall i :: 0 <= i < |query| ==> QueryChar(query[i]);
    assert ':' !in query && '#' !in query && !HasControl(['?'] + query);
  }

  lemma ControlAppend(a: string, b: string)
    ensures HasControl(a + b) <==> HasControl(a) || HasControl(b)
  {
    var s := a + b;
    if HasControl(a) {
      var i :| 0 <= i < |a| && IsControl(a[i]);
      assert s[i] == a[i];
    }
    if HasControl(b) {
      var i :| 0 <= i < |b| && IsControl(b[i]);
      assert s[|a| + i] == b[i];
    }
  }

  /** Percent decoding keeps a plain suffix that starts with a slash, and never empties what precedes it. */
  lemma {:induction false} UnescapeLonger(s: string, path: string)
    requires Plain(path) && path != "" && path[0] == '/'
    ensures
      var u := Unescape(s + path, false);
      u.Some? ==> |u.value| >= |path| + if s == "" then 0 else 1
    decreases |s|
  {
    var whole := s + path;
    if s == "" {
      assert whole == path;
      UnescapeIdentity(path, false);
    } else if s[0] != '%' {
      assert whole[1..] == s[1..] + path;
      UnescapeLonger(s[1..], path);
    } else if |s| >= 3 {
      assert whole[3..] == s[3..] + path;
      UnescapeLonger(s[3..], path);
    } else {
      assert whole[|s|] == '/';
    }
  }

  /** The URL, if there is one, holds no token. */
  predicate Refused(u: Option<Url>) {
    u.Some? ==> TokenOf(u.value.path, u.value.query).None?
  }

  /** A path of another length than the chunk path cannot hold a block hash of the right length... */
  lemma LengthRefused(path: string, q: string)
    requires |path| != |CHUNKS| + 64
    ensures TokenOf(path, q).None?
  {}

  /** ...so anything in front of the chunk path spoils the token. */
  lemma PrefixRefused(s: string, hash: string, q: string)
    requires s != "" && IsBlockHash(hash)
    ensures Refused(PathUrl(s + ChunkPath(hash), q))
  {
    ChunkPathShape(hash);
    UnescapeLonger(s, ChunkPath(hash));
    var u := Unescape(s + ChunkPath(hash), false);
    if u.Some? {
      LengthRefused(u.value, q);
    }
  }

  /** `//` and an authority the parser accepts, with nothing after it. */
  predicate IsBareAuthority(rest: string, literal: LiteralTest) {
    |rest| >= 2 && rest[..2] == "//" && '/' !in rest[2..] && AuthorityOk(rest[2..], literal)
  }

  /** The hierarchical part: only an empty rest and a bare authority leave the chunk path alone. */
  lemma HierarchyOfPrinted(scheme: string, rest: string, hash: string, q: string, literal: LiteralTest)
    requires IsBlockHash(hash)
    ensures
      var u := ParseHierarchy(scheme, rest + ChunkPath(hash), q, literal);
      if rest == "" || (IsBareAuthority(rest, literal) && (scheme != "" || rest != "//")) then
        u == Some(Url(ChunkPath(hash), q))
      else Refused(u)
  {
    var path := ChunkPath(hash);
    ChunkPathShape(hash);
    LengthRefused("", q);
    if rest == "" {
      assert rest + path == path;
      UnescapeIdentity(path, false);
    } else {
      PrefixRefused(rest, hash, q);
      if rest[0] == '/' {
        AuthorityOfPrinted(rest, hash, q, literal);
      }
    }
  }

  /** A rest that starts with a slash, after its authority is dropped. */
  lemma AuthorityOfPrinted(rest: string, hash: string, q: string, literal: LiteralTest)
    requires rest != "" && rest[0] == '/' && IsBlockHash(hash)
    ensures
      var path := DropAuthority(rest + ChunkPath(hash), literal);
      if IsBareAuthority(rest, literal) then path == Some(ChunkPath(hash)) && Unescape(path.value, false) == path
      else path.Some? ==> Refused(PathUrl(path.value, q))
  {
    var path, body := ChunkPath(hash), rest + ChunkPath(hash);
    ChunkPathShape(hash);
    UnescapeIdentity(path, false);
    if rest == "/" {
      RootRefused(hash, q, literal);
    } else if rest[1] != '/' {
      PrefixRefused(rest, hash, q);
    } else {
      assert rest == "//" + rest[2..];
      DoubleSlash(rest[2..], hash, q, literal);
    }
  }

  lemma DoubleSlash(x: string, hash: string, q: string, literal: LiteralTest)
    requires IsBlockHash(hash)
    ensures
      var path := DropAuthority("//" + x + ChunkPath(hash), literal);
      if '/' !in x && AuthorityOk(x, literal) then path == Some(ChunkPath(hash))
      else path.Some? ==> Refused(PathUrl(path.value, q))
  {
    var path := ChunkPath(hash);
    var body := "//" + x + path;
    ChunkPathShape(hash);
    assert body[..2] == "//" && body[2..] == x + path;
    if '/' in x {
      CutAtWithin(x, '/', path);
      var r := CutAt(x, '/').1.value;
      assert "/" + (r + path) == ("/" + r) + path;
      PrefixRefused("/" + r, hash, q);
    } else {
      assert x + path == x + ['/'] + path[1..];
      CutAtJoin(x, '/', path[1..]);
      assert "/" + path[1..] == path;
    }
  }

  /** After a base of just a slash, `chunks` is read as the authority. */
  lemma RootRefused(hash: string, q: string, literal: LiteralTest)
    requires IsBlockHash(hash)
    ensures
      var path := DropAuthority("/" + ChunkPath(hash), literal);
      path.Some? ==> Refused(PathUrl(path.value, q))
  {
    var body := "/" + ChunkPath(hash);
    assert body[2..] == "chunks" + ['/'] + hash;
    CutAtJoin("chunks", '/', hash);
    HexPlain(hash);
    assert Plain("/" + hash);
    UnescapeIdentity("/" + hash, false);
    LengthRefused("/" + hash, q);
  }

  lemma {:induction false} CutAtWithin(s: string, c: char, tail: string)
    requires c in s
    ensures CutAt(s, c).1.Some? && CutAt(s + tail, c) == (CutAt(s, c).0, Some(CutAt(s, c).1.value + tail))
  {
    assert (s + tail)[1..] == s[1..] + tail;
    if s[0] != c {
      CutAtWithin(s[1..], c, tail);
    }
  }

  lemma PrintedQuery(t: Token)
    requires ValidClaims(t.claims) && ValidSignature(t.signature)
    ensures
      var q := EncodeQuery(Params(t));
      && QueryGet(q, "ep") == t.claims.endpoint && QueryGet(q, "kv") == FormatInt(t.claims.keyVersion)
      && QueryGet(q, "nonce") == t.claims.nonce && QueryGet(q, "sig") == t.signature
      && QueryGet(q, "tenant") == UuidString(t.claims.tenant) && QueryGet(q, "ts") == FormatInt(t.claims.expiry)
  {
    ParamFound(t, 0);
    ParamFound(t, 1);
    ParamFound(t, 2);
    ParamFound(t, 3);
    ParamFound(t, 4);
    ParamFound(t, 5);
  }

  lemma ParamFound(t: Token, i: nat)
    requires ValidClaims(t.claims) && ValidSignature(t.signature) && i < 6
    ensures QueryGet(EncodeQuery(Params(t)), Params(t)[i].key) == Params(t)[i].value
  {
    ParamsPlain(t);
    ParamKeys(t, i);
    FoundInPlain(Params(t), i);
  }

  lemma ParamKeys(t: Token, i: nat)
    requires i < 6
    ensures forall j :: 0 <= j < i ==> Params(t)[j].key != Params(t)[i].key
  {
    KeysDistinct();
  }

  lemma FoundInPlain(ps: seq<Param>, i: nat)
    requires i < |ps| && PlainParams(ps) && forall j :: 0 <= j < i ==> ps[j].key != ps[i].key
    ensures QueryGet(EncodeQuery(ps), ps[i].key) == ps[i].value
  {
    QueryRoundTrip(ps, ps[i].key);
    LookupAt(ps, i);
  }

  lemma KeysDistinct()
    ensures "ep" != "kv" && "ep" != "nonce" && "kv" != "nonce" && "ep" != "sig" && "kv" != "sig" && "nonce" != "sig"
    ensures "ep" != "tenant" && "kv" != "tenant" && "nonce" != "tenant" && "sig" != "tenant"
    ensures "ep" != "ts" && "kv" != "ts" && "nonce" != "ts" && "sig" != "ts" && "tenant" != "ts"
  {
    assert "ep"[0] == 'e' && "kv"[0] == 'k' && "ts"[0] == 't';
  }

  lemma {:induction false} LookupAt(ps: seq<Param>, i: nat)
    requires i < |ps| && forall j :: 0 <= j < i ==> ps[j].key != ps[i].key
    ensures Lookup(ps, ps[i].key) == ps[i].value
  {
    if i > 0 {
      LookupAt(ps[1..], i - 1);
    }
  }

  /** The token is read back from the chunk path and the printed query. */
  lemma TokenRoundTrip(t: Token)
    requires ValidClaims(t.claims) && ValidSignature(t.signature) && IsInt64(t.claims.expiry)
    ensures TokenOf(ChunkPath(t.claims.blockHash), EncodeQuery(Params(t))) == Some(t)
  {
    PrintedQuery(t);
    UuidRoundTrip(t.claims.tenant);
    ParseFormatInt(t.claims.expiry);
    ParseFormatInt(t.claims.keyVersion);
    assert ChunkPath(t.claims.blockHash)[|CHUNKS|..] == t.claims.blockHash;
  }

  /**
   For every base without query and fragment: parsing the printed pre-signed URL gives back the token
   exactly when the base has no path, and is refused as malformed otherwise.
   */
  lemma UrlRoundTrip(t: Token, base: string, literal: LiteralTest)
    requires ValidClaims(t.claims) && ValidSignature(t.signature) && IsInt64(t.claims.expiry)
    requires '?' !in base && '#' !in base
    ensures ParsePreSigned(UrlText(t, base), literal) == if Pathless(base, literal) then Some(t) else None
  {
    var hash, query := t.claims.blockHash, EncodeQuery(Params(t));
    assert UrlText(t, base) == base + ChunkPath(hash) + ['?'] + query;
    ParamsPlain(t);
    QueryChars(Params(t));
    ParsePrinted(base, hash, query, literal);
    TokenRoundTrip(t);
    if SchemeOf(base).Some? {
      HierarchyOfPrinted(SchemeOf(base).value.0, SchemeOf(base).value.1, hash, query, literal);
    }
  }

  /** Among the bases without a path: nothing at all, `scheme://host` and `scheme://host:port`. */
  lemma HostIsPathless(scheme: string, host: string, port: string, literal: LiteralTest)
    requires IsScheme(scheme) && AllUnreserved(host) && AllDigits(port)
    ensures Pathless("", literal)
    ensures Pathless(scheme + "://" + host, literal)
    ensures Pathless(scheme + "://" + (host + ":" + port), literal)
  {
    assert CutAt("", ':') == ("", None);
    CutAtLastNone(host, '@');
    CutAtLastNone(host, ':');
    HostChars(host);
    AuthorityIsPathless(scheme, host, literal);
    var authority := host + ":" + port;
    CutAtLastNone(authority, '@');
    CutAtLastJoin(host, ':', port);
    HostChars(authority);
    AuthorityIsPathless(scheme, authority, literal);
  }

  lemma {:induction false} CutAtLastNone(s: string, c: char)
    requires c !in s
    ensures CutAtLast(s, c) == None
  {
    if s != "" {
      CutAtLastNone(s[..|s| - 1], c);
    }
  }

  lemma {:induction false} CutAtLastJoin(a: string, c: char, b: string)
    requires c !in b
    ensures CutAtLast(a + [c] + b, c) == Some((a, b))
  {
    var s := a + [c] + b;
    if b == "" {
      assert s[..|s| - 1] == a;
    } else {
      var n := |b| - 1;
      assert s[..|s| - 1] == a + [c] + b[..n];
      CutAtLastJoin(a, c, b[..n]);
      assert b[..n] + [b[n]] == b;
    }
  }

  lemma {:induction false} HostChars(s: string)
    requires forall i :: 0 <= i < |s| ==> Unreserved(s[i]) || s[i] == ':'
    ensures HostEscapesOk(s)
  {
    if s != "" {
      HostChars(s[1..]);
    }
  }

  lemma AuthorityIsPathless(scheme: string, authority: string, literal: LiteralTest)
    requires IsScheme(scheme) && AuthorityOk(authority, literal)
    requires forall i :: 0 <= i < |authority| ==> Unreserved(authority[i]) || authority[i] == ':'
    ensures Pathless(scheme + "://" + authority, literal)
  {
    var base, rest := scheme + "://" + authority, "//" + authority;
    assert base == scheme + [':'] + rest;
    assert ':' !in scheme;
    CutAtJoin(scheme, ':', rest);
    assert rest[2..] == authority;
    assert forall i :: 0 <= i < |base| ==> !IsControl(base[i]);
  }
}
