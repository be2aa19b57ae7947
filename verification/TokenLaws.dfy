/**
 What acceptance of an upload token means, and what every other answer means, stated on the token, the key
 records and the nonces themselves.
 */
module TokenLaws {
  import opened Options
  import opened Words
  import opened Text
  import opened TokenCodec
  import opened Tokens

  predicate HexDigits(s: string, n: nat) {
    |s| == n && forall i :: 0 <= i < n ==> '0' <= s[i] <= '9' || 'a' <= s[i] <= 'f'
  }

  predicate EndpointName(s: string) {
    && 1 <= |s| <= 64
    && forall i :: 0 <= i < |s| ==>
      '0' <= s[i] <= '9' || 'A' <= s[i] <= 'Z' || 'a' <= s[i] <= 'z' || s[i] == '_' || s[i] == '-'
  }

  /** The token has the form the wire format prescribes. */
  predicate WellFormed(tok: Token) {
    && HexDigits(tok.claims.blockHash, 64) && EndpointName(tok.claims.endpoint)
    && 1 <= tok.claims.keyVersion <= 1_000_000
    && HexDigits(tok.claims.nonce, 32) && HexDigits(tok.signature, 64)
  }

  /** Its expiry lies in the window that the clock, the lifetime and the skew leave. */
  predicate InWindow(env: Env, now: int, tok: Token) {
    now - env.skew <= tok.claims.expiry <= now + env.ttl + env.skew
  }

  /** Seven days, in seconds. */
  const WEEK: int := 604_800

  /** `key` is the tenant's key of that version, current or superseded less than a week ago. */
  predicate MayVerify(ks: KeyStore, tenant: Uuid, v: int, key: Key, now: int) {
    && tenant in ks && v in ks[tenant].versions && ks[tenant].versions[v].key == key
    && match ks[tenant].versions[v].supersededAt case None => true case Some(t) => now < t + WEEK
  }

  predicate Known(env: Env, sys: Sys, tenant: Uuid, entropy: Option<Key>) {
    tenant in sys.keys || (env.auto && entropy.Some?)
  }

  /** The key store a known tenant's request is answered from: an unknown tenant gets its first key. */
  function Consulted(sys: Sys, tenant: Uuid, entropy: Option<Key>): KeyStore
    requires tenant in sys.keys || entropy.Some?
  {
    if tenant in sys.keys then sys.keys
    else sys.keys[tenant := TenantKeys(1, map[1 := KeyRecord(entropy.value, sys.now, None)])]
  }

  predicate SignedUnder(env: Env, tok: Token, key: Key) {
    tok.signature == HexEncode(env.mac(key, Message(tok.claims)))
  }

  /** Well-formed, in its window, of a known tenant, and signed under a key that may verify. */
  ghost predicate Authentic(env: Env, sys: Sys, tok: Token, entropy: Option<Key>) {
    && WellFormed(tok) && InWindow(env, sys.now, tok) && Known(env, sys, tok.claims.tenant, entropy)
    && var ks := Consulted(sys, tok.claims.tenant, entropy);
      exists key :: MayVerify(ks, tok.claims.tenant, tok.claims.keyVersion, key, sys.now) && SignedUnder(env, tok, key)
  }

  lemma WellFormedExactly(tok: Token)
    ensures WellFormed(tok) <==> ValidClaims(tok.claims) && ValidSignature(tok.signature)
  {}

  lemma FreshExactly(env: Env, now: int, tok: Token)
    ensures
      var o := FreshVerdict(env, now, tok);
      && (o == Malformed <==> !WellFormed(tok))
      && (o == Expired <==> WellFormed(tok) && tok.claims.expiry < now - env.skew)
      && (o == TooFarInFuture <==> WellFormed(tok) && tok.claims.expiry > now + env.ttl + env.skew)
      && (o == Accepted <==> WellFormed(tok) && InWindow(env, now, tok))
  {
    WellFormedExactly(tok);
  }

  /** The comparison of decoded digests is one of signatures. */
  lemma SignatureCompared(env: Env, tok: Token, key: Key)
    requires WellFormed(tok)
    ensures HexDecode(tok.signature) == Some(env.mac(key, Message(tok.claims))) <==> SignedUnder(env, tok, key)
  {
    var digest := env.mac(key, Message(tok.claims));
    HexDecodeEncode(tok.signature);
    HexRoundTrip(digest);
  }

  lemma KeyExactly(env: Env, ks: KeyStore, now: int, tok: Token)
    requires WellFormed(tok) && tok.claims.tenant in ks
    ensures
      var o, tenant, v := KeyVerdict(env, ks[tok.claims.tenant], now, tok), tok.claims.tenant, tok.claims.keyVersion;
      && (o == UnknownKeyVersion <==> forall key :: !MayVerify(ks, tenant, v, key, now))
      && (o == BadSignature <==> exists key :: MayVerify(ks, tenant, v, key, now) && !SignedUnder(env, tok, key))
      && (o == Accepted <==> exists key :: MayVerify(ks, tenant, v, key, now) && SignedUnder(env, tok, key))
  {
    var vs, v := ks[tok.claims.tenant].versions, tok.claims.keyVersion;
    if v in vs {
      SignatureCompared(env, tok, vs[v].key);
      assert MayVerify(ks, tok.claims.tenant, v, vs[v].key, now) <==> Active(vs[v], now);
    }
  }

  lemma EnsureExactly(env: Env, sys: Sys, tenant: Uuid, entropy: Option<Key>)
    ensures
      var ks := EnsureTenant(sys.keys, env.auto, tenant, entropy, sys.now);
      if Known(env, sys, tenant, entropy) then ks == Some(Consulted(sys, tenant, entropy)) else ks == None
  {}

  /** The answers of the checks before the replay check; each failing check gives its own. */
  lemma RefusalsExactly(env: Env, sys: Sys, tok: Token, entropy: Option<Key>, owns: Ownership)
    ensures
      var o, tenant, v := Validate(env, sys, tok, entropy, owns).1, tok.claims.tenant, tok.claims.keyVersion;
      var reached := WellFormed(tok) && InWindow(env, sys.now, tok);
      && (o == Malformed <==> !WellFormed(tok))
      && (o == Expired <==> WellFormed(tok) && tok.claims.expiry < sys.now - env.skew)
      && (o == TooFarInFuture <==> WellFormed(tok) && tok.claims.expiry > sys.now + env.ttl + env.skew)
      && (o == NoKeys <==> reached && !Known(env, sys, tenant, entropy))
      && (o == UnknownKeyVersion <==>
            && reached && Known(env, sys, tenant, entropy)
            && forall key :: !MayVerify(Consulted(sys, tenant, entropy), tenant, v, key, sys.now))
      && (o == BadSignature <==>
            && reached && Known(env, sys, tenant, entropy)
            && exists key ::
              MayVerify(Consulted(sys, tenant, entropy), tenant, v, key, sys.now) && !SignedUnder(env, tok, key))
  {
    FreshExactly(env, sys.now, tok);
    EnsureExactly(env, sys, tok.claims.tenant, entropy);
    if WellFormed(tok) && InWindow(env, sys.now, tok) && Known(env, sys, tok.claims.tenant, entropy) {
      KeyExactly(env, Consulted(sys, tok.claims.tenant, entropy), sys.now, tok);
    }
  }

  /**
   Only an authentic token gets past those checks, and then the nonce and the ownership probe decide: it is
   accepted exactly if its nonce is not on record and the tenant is not found to lack the block.
   */
  lemma AcceptedExactly(env: Env, sys: Sys, tok: Token, entropy: Option<Key>, owns: Ownership)
    ensures
      var o := Validate(env, sys, tok, entropy, owns).1;
      var held := tok.claims.nonce in sys.seen && sys.seen[tok.claims.nonce] > sys.now;
      && (o == Replay <==> Authentic(env, sys, tok, entropy) && held)
      && (o == OwnershipUnavailable <==> Authentic(env, sys, tok, entropy) && !held && owns == ProbeFailed)
      && (o == NotTenantBlock <==> Authentic(env, sys, tok, entropy) && !held && owns == DoesNotOwn)
      && (o == Accepted <==> Authentic(env, sys, tok, entropy) && !held && owns in {NotChecked, Owns})
  {
    FreshExactly(env, sys.now, tok);
    EnsureExactly(env, sys, tok.claims.tenant, entropy);
    if WellFormed(tok) && InWindow(env, sys.now, tok) && Known(env, sys, tok.claims.tenant, entropy) {
      KeyExactly(env, Consulted(sys, tok.claims.tenant, entropy), sys.now, tok);
    }
  }

  /** What a presentation leaves behind: the first key of a new tenant, and the nonce of an authentic token. */
  lemma ValidateLeaves(env: Env, sys: Sys, tok: Token, entropy: Option<Key>, owns: Ownership)
    ensures
      var s := Validate(env, sys, tok, entropy, owns).0;
      var reached := WellFormed(tok) && InWindow(env, sys.now, tok) && Known(env, sys, tok.claims.tenant, entropy);
      && s.now == sys.now
      && s.keys == (if reached then Consulted(sys, tok.claims.tenant, entropy) else sys.keys)
      && (Authentic(env, sys, tok, entropy) && !NonceLive(sys.seen, tok.claims.nonce, sys.now) ==>
            tok.claims.nonce in s.seen && s.seen[tok.claims.nonce] == sys.now + env.ttl + env.skew)
      && (!Authentic(env, sys, tok, entropy) ==> s.seen == sys.seen)
      && (forall n :: n != tok.claims.nonce || NonceLive(sys.seen, n, sys.now) ==>
            (NonceLive(s.seen, n, sys.now) <==> NonceLive(sys.seen, n, sys.now))
            && (NonceLive(s.seen, n, sys.now) ==> s.seen[n] == sys.seen[n]))
  {
    FreshExactly(env, sys.now, tok);
    EnsureExactly(env, sys, tok.claims.tenant, entropy);
    if WellFormed(tok) && InWindow(env, sys.now, tok) && Known(env, sys, tok.claims.tenant, entropy) {
      KeyExactly(env, Consulted(sys, tok.claims.tenant, entropy), sys.now, tok);
    }
  }

  /** No two messages have the same digest under one key. */
  ghost predicate CollisionFree(mac: Mac) {
    forall key, a, b :: mac(key, a) == mac(key, b) ==> a == b
  }

  /** Under a collision-free MAC one signature serves no two claims with the same key, at whatever times. */
  lemma OneSignatureOneClaim(env: Env, a: Token, b: Token, key: Key)
    requires CollisionFree(env.mac) && WellFormed(a) && WellFormed(b)
    requires SignedUnder(env, a, key) && SignedUnder(env, b, key) && a.signature == b.signature
    ensures a == b
  {
    HexRoundTrip(env.mac(key, Message(a.claims)));
    HexRoundTrip(env.mac(key, Message(b.claims)));
    WellFormedExactly(a);
    WellFormedExactly(b);
    MessageInjective(a.claims, b.claims);
  }

  // ---------------------------------------------------------------------------------------------
  // The text that is signed, and the text that is sent
  // ---------------------------------------------------------------------------------------------

  lemma JoinCons(sep: char, head: string, parts: seq<string>)
    requires parts != []
    ensures Join(sep, [head] + parts) == head + [sep] + Join(sep, parts)
  {
    assert ([head] + parts)[1..] == parts;
  }

  lemma JoinSeven(sep: char, a: string, b: string, c: string, d: string, e: string, f: string, g: string)
    ensures Join(sep, [a, b, c, d, e, f, g]) ==
      a + [sep] + (b + [sep] + (c + [sep] + (d + [sep] + (e + [sep] + (f + [sep] + g)))))
  {
    assert [a, b, c, d, e, f, g] == [a] + [b, c, d, e, f, g];
    JoinCons(sep, a, [b, c, d, e, f, g]);
    JoinSix(sep, b, c, d, e, f, g);
  }

  lemma JoinSix(sep: char, a: string, b: string, c: string, d: string, e: string, f: string)
    ensures Join(sep, [a, b, c, d, e, f]) == a + [sep] + (b + [sep] + (c + [sep] + (d + [sep] + (e + [sep] + f))))
  {
    assert [a, b, c, d, e, f] == [a] + [b, c, d, e, f];
    JoinCons(sep, a, [b, c, d, e, f]);
    assert [b, c, d, e, f] == [b] + [c, d, e, f];
    JoinCons(sep, b, [c, d, e, f]);
    assert [c, d, e, f] == [c] + [d, e, f];
    JoinCons(sep, c, [d, e, f]);
    assert [d, e, f] == [d] + [e, f];
    JoinCons(sep, d, [e, f]);
    assert [e, f] == [e] + [f];
    JoinCons(sep, e, [f]);
  }

  /** The signed message, field by field. */
  lemma MessageText(c: Claims)
    ensures Message(c) ==
      "aegis1" + (":" + (FormatInt(c.keyVersion) + (":" + (UuidString(c.tenant) + (":" + (c.blockHash + (":" +
      (FormatInt(c.expiry) + (":" + (c.endpoint + (":" + c.nonce)))))))))))
  {
    JoinSeven(':', "aegis1", FormatInt(c.keyVersion), UuidString(c.tenant), c.blockHash, FormatInt(c.expiry),
      c.endpoint, c.nonce);
  }

  function KeyValue(key: string, value: string): string {
    key + "=" + value
  }

  lemma PlainPair(p: Param)
    requires AllUnreserved(p.key) && AllUnreserved(p.value)
    ensures PairText(p) == KeyValue(p.key, p.value)
  {
    EscapeIdentity(p.key);
    EscapeIdentity(p.value);
  }

  /** The pieces of a plain query, in order. */
  lemma {:induction false} PlainPairs(ps: seq<Param>, i: nat)
    requires PlainParams(ps) && i < |ps|
    ensures |PairTexts(ps)| == |ps| && PairTexts(ps)[i] == KeyValue(ps[i].key, ps[i].value)
    decreases |ps|
  {
    PlainPair(ps[0]);
    if |ps| > 1 {
      assert PlainParams(ps[1..]);
      PlainPairs(ps[1..], if i > 0 then i - 1 else 0);
    } else {
      assert PairTexts(ps[1..]) == [];
    }
  }

  /** The pre-signed URL: the block in the path, and the six parameters by their names, in alphabetical order. */
  lemma UrlLiteral(t: Token, base: string)
    requires WellFormed(t)
    ensures
      var c := t.claims;
      UrlText(t, base) ==
        base + "/chunks/" + c.blockHash + "?" +
        (KeyValue("ep", c.endpoint) + "&" + (KeyValue("kv", FormatInt(c.keyVersion)) + "&" +
        (KeyValue("nonce", c.nonce) + "&" + (KeyValue("sig", t.signature) + "&" +
        (KeyValue("tenant", UuidString(c.tenant)) + "&" + KeyValue("ts", FormatInt(c.expiry)))))))
  {
    var ps, c := Params(t), t.claims;
    WellFormedExactly(t);
    ParamsPlain(t);
    forall i | 0 <= i < 6
      ensures |PairTexts(ps)| == 6 && PairTexts(ps)[i] == KeyValue(ps[i].key, ps[i].value)
    {
      PlainPairs(ps, i);
    }
    var texts := PairTexts(ps);
    assert texts == [texts[0], texts[1], texts[2], texts[3], texts[4], texts[5]];
    JoinSix('&', texts[0], texts[1], texts[2], texts[3], texts[4], texts[5]);
  }

  lemma DigitsInRange(s: string)
    ensures ParseInt(s).Some? ==> IsInt64(ParseInt(s).value)
  {}

  /** Whatever text is parsed, only a well-formed token with a 64-bit expiry comes out. */
  lemma ParsedIsWellFormed(raw: string, literal: LiteralTest)
    ensures
      var t := ParsePreSigned(raw, literal);
      t.Some? ==> WellFormed(t.value) && IsInt64(t.value.claims.expiry)
  {
    var u, t := ParseUrl(raw, literal), ParsePreSigned(raw, literal);
    if t.Some? {
      WellFormedExactly(t.value);
      DigitsInRange(QueryGet(u.value.query, "ts"));
    }
  }

  // ---------------------------------------------------------------------------------------------
  // Signing
  // ---------------------------------------------------------------------------------------------

  /** The claims a token is asked to carry, under the version that is current. */
  function Asked(env: Env, now: int, tenant: Uuid, hash: string, v: int, endpoint: string, nonce: seq<Byte>): Claims {
    Claims(tenant, hash, now + env.ttl, v, endpoint, HexEncode(nonce))
  }

  /**
   A token is signed exactly for a known tenant with a current key of at least 32 bytes and well-formed
   claims; it carries just the claims asked for, and the signature under that key.
   */
  lemma SignedExactly(
    env: Env, sys: Sys, tenant: Uuid, hash: string, endpoint: string, entropy: Option<Key>, nonce: seq<Byte>)
    requires KeysOk(sys.keys)
    ensures
      var (s, r) := Sign(env, sys, tenant, hash, endpoint, entropy, nonce);
      if !Known(env, sys, tenant, entropy) then s == sys && r == None
      else
        var ks := Consulted(sys, tenant, entropy);
        var v := ks[tenant].current;
        && s == sys.(keys := ks) && v in ks[tenant].versions
        && var key := ks[tenant].versions[v].key;
          && (r.Some? <==>
                && |key| >= 32 && HexDigits(hash, 64) && EndpointName(endpoint) && 1 <= v <= 1_000_000
                && |nonce| == 16)
          && (r.Some? ==>
                && r.value.claims == Asked(env, sys.now, tenant, hash, v, endpoint, nonce)
                && SignedUnder(env, r.value, key))
  {
    EnsureExactly(env, sys, tenant, entropy);
    HexRoundTrip(nonce);
  }

  // ---------------------------------------------------------------------------------------------
  // Rotation over runs
  // ---------------------------------------------------------------------------------------------

  /** At `t` the tenant's version `v` was superseded by the next one, which holds `key`. */
  ghost predicate Superseded(ks: KeyStore, tenant: Uuid, v: int, was: Key, key: Key, t: int) {
    && tenant in ks && v in ks[tenant].versions && v + 1 in ks[tenant].versions && v + 1 <= ks[tenant].current
    && ks[tenant].versions[v].key == was && ks[tenant].versions[v].supersededAt == Some(t)
    && ks[tenant].versions[v + 1].key == key
  }

  lemma SupersededStep(env: Env, sys: Sys, e: Event, tenant: Uuid, v: int, was: Key, key: Key, t: int)
    requires KeysOk(sys.keys) && Enabled(sys, e) && Superseded(sys.keys, tenant, v, was, key, t)
    ensures Superseded(Step(env, sys, e).keys, tenant, v, was, key, t)
    ensures !(e.Rotate? && e.tenant == tenant) ==> Step(env, sys, e).keys[tenant] == sys.keys[tenant]
  {
    StepParts(env, sys, e);
  }

  lemma {:induction false} SupersededRun(
    env: Env, sys: Sys, es: seq<Event>, i: nat, tenant: Uuid, v: int, was: Key, key: Key, t: int)
    requires KeysOk(sys.keys) && Legal(env, sys, es) && i <= |es| && Superseded(sys.keys, tenant, v, was, key, t)
    ensures Superseded(At(env, sys, es, i).keys, tenant, v, was, key, t)
    ensures Unrotated(es, i, tenant) ==> At(env, sys, es, i).keys[tenant] == sys.keys[tenant]
    decreases i
  {
    if i > 0 {
      StepKeysOk(env, sys, es[0]);
      SupersededStep(env, sys, es[0], tenant, v, was, key, t);
      SupersededRun(env, Step(env, sys, es[0]), es[1..], i - 1, tenant, v, was, key, t);
      if Unrotated(es, i, tenant) {
        assert !(es[0].Rotate? && es[0].tenant == tenant) && Unrotated(es[1..], i - 1, tenant);
      }
    }
  }

  /** No event up to `i` rotates the tenant's key. */
  ghost predicate Unrotated(es: seq<Event>, i: nat, tenant: Uuid)
    requires i <= |es|
  {
    forall k :: 0 <= k < i ==> !(es[k].Rotate? && es[k].tenant == tenant)
  }

  /**
   After a rotation, at every later point of every run: the old version verifies exactly for a week, and the
   next version holds the fresh key, signs, and verifies until it is rotated itself.
   */
  lemma RotationHolds(env: Env, sys: Sys, tenant: Uuid, key: Key, es: seq<Event>, i: nat)
    requires KeysOk(sys.keys) && tenant in sys.keys && i <= |es|
    requires KeysOk(Step(env, sys, Rotate(tenant, Some(key))).keys)
    requires Legal(env, Step(env, sys, Rotate(tenant, Some(key))), es)
    ensures
      var s := At(env, Step(env, sys, Rotate(tenant, Some(key))), es, i);
      var v, was := sys.keys[tenant].current, sys.keys[tenant].versions[sys.keys[tenant].current].key;
      && (MayVerify(s.keys, tenant, v, was, s.now) <==> s.now < sys.now + WEEK)
      && (forall other :: MayVerify(s.keys, tenant, v, other, s.now) ==> other == was)
      && tenant in s.keys
      && (Unrotated(es, i, tenant) ==>
            s.keys[tenant].current == v + 1 && MayVerify(s.keys, tenant, v + 1, key, s.now))
  {
    var s0 := Step(env, sys, Rotate(tenant, Some(key)));
    var v, was := sys.keys[tenant].current, sys.keys[tenant].versions[sys.keys[tenant].current].key;
    assert Superseded(s0.keys, tenant, v, was, key, sys.now);
    SupersededRun(env, s0, es, i, tenant, v, was, key, sys.now);
  }

  lemma NoKeyRefused(env: Env, sys: Sys, tok: Token, entropy: Option<Key>, owns: Ownership)
    requires tok.claims.tenant in sys.keys
    requires forall key :: !MayVerify(sys.keys, tok.claims.tenant, tok.claims.keyVersion, key, sys.now)
    ensures Validate(env, sys, tok, entropy, owns).1 in {Malformed, Expired, TooFarInFuture, UnknownKeyVersion}
  {
    RefusalsExactly(env, sys, tok, entropy, owns);
  }

  /** So from then on a token of the old version is refused, whoever signed it. */
  lemma RetiredIsRefused(
    env: Env, sys: Sys, tenant: Uuid, key: Key, es: seq<Event>, i: nat, tok: Token, entropy: Option<Key>,
    owns: Ownership)
    requires KeysOk(sys.keys) && tenant in sys.keys && i <= |es|
    requires KeysOk(Step(env, sys, Rotate(tenant, Some(key))).keys)
    requires Legal(env, Step(env, sys, Rotate(tenant, Some(key))), es)
    requires At(env, Step(env, sys, Rotate(tenant, Some(key))), es, i).now >= sys.now + WEEK
    requires tok.claims.tenant == tenant && tok.claims.keyVersion == sys.keys[tenant].current
    ensures Validate(env, At(env, Step(env, sys, Rotate(tenant, Some(key))), es, i), tok, entropy, owns).1 in
      {Malformed, Expired, TooFarInFuture, UnknownKeyVersion}
  {
    var s := At(env, Step(env, sys, Rotate(tenant, Some(key))), es, i);
    RotationHolds(env, sys, tenant, key, es, i);
    NoKeyRefused(env, s, tok, entropy, owns);
  }
}
