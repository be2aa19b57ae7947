/**
 The upload-token protocol of internal/auth: signing, key rotation with an overlap window, freshness
 and single-use nonces, over runs of events on one non-decreasing clock in whole seconds. HMAC is an
 arbitrary function; random bytes are supplied by the environment.
 */
module Tokens {
  import opened Options
  import opened Words
  import opened Text
  import opened TokenCodec

  type Key = seq<Byte>

  type Digest = d: seq<Byte> | |d| == 32 witness seq(32, _ => 0)

  type Mac = (Key, string) -> Digest

  /** `OverlapWindow`, seven days. */
  const OVERLAP: int := 7 * 24 * 3600

  // ---------------------------------------------------------------------------------------------
  // Keys (internal/auth/keys.go)
  // ---------------------------------------------------------------------------------------------

  datatype KeyRecord = KeyRecord(key: Key, activatedAt: int, supersededAt: Option<int>)

  /** `KeyRecord.Active`. */
  predicate Active(r: KeyRecord, now: int) {
    r.supersededAt.None? || now < r.supersededAt.value + OVERLAP
  }

  datatype TenantKeys = TenantKeys(current: int, versions: map<int, KeyRecord>)

  type KeyStore = map<Uuid, TenantKeys>

  /** The current version is on record and not superseded; no version is newer. */
  ghost predicate TenantOk(tk: TenantKeys) {
    && tk.current in tk.versions && tk.versions[tk.current].supersededAt.None?
    && forall v :: v in tk.versions ==> v <= tk.current
  }

  ghost predicate KeysOk(ks: KeyStore) {
    forall t :: t in ks ==> TenantOk(ks[t])
  }

  function NewTenant(version: int, key: Key, now: int): TenantKeys {
    TenantKeys(version, map[version := KeyRecord(key, now, None)])
  }

  /** Automatic provisioning of an unknown tenant, where enabled and entropy is available. */
  function EnsureTenant(ks: KeyStore, auto: bool, tenant: Uuid, entropy: Option<Key>, now: int): (r: Option<KeyStore>)
    ensures r.Some? ==> tenant in r.value
  {
    if tenant in ks then Some(ks)
    else if auto && entropy.Some? then Some(ks[tenant := NewTenant(1, entropy.value, now)])
    else None
  }

  /** `Rotate`: the current version enters its overlap window, a fresh key becomes the next version. */
  function Rotated(tk: TenantKeys, key: Key, now: int): TenantKeys
    requires tk.current in tk.versions
  {
    var demoted := tk.versions[tk.current].(supersededAt := Some(now));
    TenantKeys(tk.current + 1, tk.versions[tk.current := demoted][tk.current + 1 := KeyRecord(key, now, None)])
  }

  // ---------------------------------------------------------------------------------------------
  // Nonces (internal/auth/replay.go)
  // ---------------------------------------------------------------------------------------------

  type Seen = map<string, int>

  /** The entries still in force. */
  function Live(seen: Seen, now: int): Seen {
    map n | n in seen && seen[n] > now :: seen[n]
  }

  /** `Consume`: sweep when full, refuse a live nonce, otherwise record it until `now + ttl`. */
  function Consume(seen: Seen, maxSize: nat, nonce: string, ttl: int, now: int): (Seen, bool) {
    var kept := if |seen| >= maxSize then Live(seen, now) else seen;
    if nonce in kept && kept[nonce] > now then (kept, false) else (kept[nonce := now + ttl], true)
  }

  // ---------------------------------------------------------------------------------------------
  // Tokens (internal/auth/hmac.go)
  // ---------------------------------------------------------------------------------------------

  datatype Env = Env(mac: Mac, ttl: nat, skew: nat, maxSize: nat, auto: bool)

  datatype Sys = Sys(keys: KeyStore, seen: Seen, now: int)

  datatype Ownership = NotChecked | Owns | DoesNotOwn | ProbeFailed

  datatype Outcome =
    | Accepted | Malformed | Expired | TooFarInFuture | NoKeys | UnknownKeyVersion | BadSignature
    | Replay | NotTenantBlock | OwnershipUnavailable

  /** `SignClaims`. */
  function Sign(
    env: Env, sys: Sys, tenant: Uuid, hash: string, endpoint: string, entropy: Option<Key>, nonce: seq<Byte>)
    : (r: (Sys, Option<Token>))
    requires KeysOk(sys.keys)
  {
    var ks := EnsureTenant(sys.keys, env.auto, tenant, entropy, sys.now);
    if ks.None? then (sys, None)
    else
      var sys' := sys.(keys := ks.value);
      var tk := ks.value[tenant];
      var key := tk.versions[tk.current].key;
      var c := Claims(tenant, hash, sys.now + env.ttl, tk.current, endpoint, HexEncode(nonce));
      if |key| < 32 || !ValidClaims(c) then (sys', None)
      else (sys', Some(Token(c, HexEncode(env.mac(key, Message(c))))))
  }

  /** Steps 1 and 2 of `Validate`: structure and freshness. */
  function FreshVerdict(env: Env, now: int, tok: Token): Outcome {
    if !ValidClaims(tok.claims) || !ValidSignature(tok.signature) then Malformed
    else if tok.claims.expiry + env.skew < now then Expired
    else if tok.claims.expiry > now + env.ttl + env.skew then TooFarInFuture
    else Accepted
  }

  /** Steps 3 and 4: an active key of the tenant, and the signature under it. */
  function KeyVerdict(env: Env, tk: TenantKeys, now: int, tok: Token): Outcome {
    var v := tok.claims.keyVersion;
    if v !in tk.versions || !Active(tk.versions[v], now) then UnknownKeyVersion
    else if HexDecode(tok.signature) != Some(env.mac(tk.versions[v].key, Message(tok.claims))) then BadSignature
    else Accepted
  }

  /** `Validate`: all six steps, and the state they leave behind. */
  function Validate(env: Env, sys: Sys, tok: Token, entropy: Option<Key>, owns: Ownership): (Sys, Outcome) {
    var early := FreshVerdict(env, sys.now, tok);
    if early != Accepted then (sys, early)
    else
      var ks := EnsureTenant(sys.keys, env.auto, tok.claims.tenant, entropy, sys.now);
      if ks.None? then (sys, NoKeys)
      else
        var sys' := sys.(keys := ks.value);
        var verdict := KeyVerdict(env, ks.value[tok.claims.tenant], sys.now, tok);
        if verdict != Accepted then (sys', verdict)
        else
          var (seen, first) := Consume(sys.seen, env.maxSize, tok.claims.nonce, env.ttl + env.skew, sys.now);
          var sys'' := sys'.(seen := seen);
          if !first then (sys'', Replay)
          else match owns
            case ProbeFailed => (sys'', OwnershipUnavailable)
            case DoesNotOwn => (sys'', NotTenantBlock)
            case _ => (sys'', Accepted)
  }

  /** A token that fails before the replay check leaves the nonce store as it was. */
  lemma FailuresKeepNonces(env: Env, sys: Sys, tok: Token, entropy: Option<Key>, owns: Ownership)
    ensures
      var (sys', o) := Validate(env, sys, tok, entropy, owns);
      && (o in {Malformed, Expired, TooFarInFuture, NoKeys, UnknownKeyVersion, BadSignature} ==> sys'.seen == sys.seen)
      && (o == Replay ==> Live(sys'.seen, sys.now) == Live(sys.seen, sys.now))
  {}

  // ---------------------------------------------------------------------------------------------
  // Runs
  // ---------------------------------------------------------------------------------------------

  datatype Event =
    | Tick(seconds: nat)
    | Provision(tenant: Uuid, version: int, key: Key)
    | Rotate(tenant: Uuid, entropy: Option<Key>)
    | Mint(tenant: Uuid, hash: string, endpoint: string, entropy: Option<Key>, nonce: seq<Byte>)
    | Present(tok: Token, entropy: Option<Key>, owns: Ownership)

  /** Tenants are provisioned once. */
  predicate Enabled(sys: Sys, e: Event) {
    e.Provision? ==> e.tenant !in sys.keys
  }

  function Step(env: Env, sys: Sys, e: Event): Sys
    requires KeysOk(sys.keys) && Enabled(sys, e)
  {
    match e
    case Tick(d) => sys.(now := sys.now + d)
    case Provision(t, v, key) => sys.(keys := sys.keys[t := NewTenant(v, key, sys.now)])
    case Rotate(t, entropy) =>
      if t in sys.keys && entropy.Some? then sys.(keys := sys.keys[t := Rotated(sys.keys[t], entropy.value, sys.now)])
      else sys
    case Mint(t, h, ep, entropy, n) => Sign(env, sys, t, h, ep, entropy, n).0
    case Present(tok, entropy, owns) => Validate(env, sys, tok, entropy, owns).0
  }

  /** Presenting `tok` in state `sys` by event `e` is answered with acceptance. */
  predicate Accepts(env: Env, sys: Sys, e: Event) {
    e.Present? && Validate(env, sys, e.tok, e.entropy, e.owns).1 == Accepted
  }

  function EnsureKeys(env: Env, sys: Sys, tenant: Uuid, entropy: Option<Key>): KeyStore {
    var ks := EnsureTenant(sys.keys, env.auto, tenant, entropy, sys.now);
    if ks.Some? then ks.value else sys.keys
  }

  /** What an event does to the keys. */
  function KeysAfter(env: Env, sys: Sys, e: Event): KeyStore
    requires KeysOk(sys.keys)
  {
    match e
    case Tick(_) => sys.keys
    case Provision(t, v, key) => sys.keys[t := NewTenant(v, key, sys.now)]
    case Rotate(t, entropy) =>
      if t in sys.keys && entropy.Some? then sys.keys[t := Rotated(sys.keys[t], entropy.value, sys.now)] else sys.keys
    case Mint(t, _, _, entropy, _) => EnsureKeys(env, sys, t, entropy)
    case Present(tok, entropy, _) =>
      if FreshVerdict(env, sys.now, tok) == Accepted then EnsureKeys(env, sys, tok.claims.tenant, entropy) else sys.keys
  }

  /** Presenting `tok` gets as far as the replay check. */
  predicate Reaches(env: Env, sys: Sys, e: Event) {
    && e.Present? && FreshVerdict(env, sys.now, e.tok) == Accepted
    && var ks := EnsureTenant(sys.keys, env.auto, e.tok.claims.tenant, e.entropy, sys.now);
      ks.Some? && KeyVerdict(env, ks.value[e.tok.claims.tenant], sys.now, e.tok) == Accepted
  }

  /** What an event does to the nonces. */
  function SeenAfter(env: Env, sys: Sys, e: Event): Seen {
    if Reaches(env, sys, e) then Consume(sys.seen, env.maxSize, e.tok.claims.nonce, env.ttl + env.skew, sys.now).0
    else sys.seen
  }

  lemma StepParts(env: Env, sys: Sys, e: Event)
    requires KeysOk(sys.keys) && Enabled(sys, e)
    ensures Step(env, sys, e) ==
      Sys(KeysAfter(env, sys, e), SeenAfter(env, sys, e), if e.Tick? then sys.now + e.seconds else sys.now)
  {}

  lemma AcceptsReaches(env: Env, sys: Sys, e: Event)
    requires Accepts(env, sys, e)
    ensures Reaches(env, sys, e)
    ensures Consume(sys.seen, env.maxSize, e.tok.claims.nonce, env.ttl + env.skew, sys.now).1
  {}

  lemma KeysAfterOk(env: Env, sys: Sys, e: Event)
    requires KeysOk(sys.keys) && Enabled(sys, e)
    ensures KeysOk(KeysAfter(env, sys, e))
  {}

  lemma StepKeysOk(env: Env, sys: Sys, e: Event)
    requires KeysOk(sys.keys) && Enabled(sys, e)
    ensures KeysOk(Step(env, sys, e).keys) && Step(env, sys, e).now >= sys.now
  {
    StepParts(env, sys, e);
    KeysAfterOk(env, sys, e);
  }

  predicate Legal(env: Env, sys: Sys, es: seq<Event>)
    requires KeysOk(sys.keys)
    decreases |es|
  {
    es == [] || (Enabled(sys, es[0]) && (StepKeysOk(env, sys, es[0]); Legal(env, Step(env, sys, es[0]), es[1..])))
  }

  /** The state before event `i` of a run (after the last one for `i == |es|`). */
  function At(env: Env, sys: Sys, es: seq<Event>, i: nat): Sys
    requires KeysOk(sys.keys) && Legal(env, sys, es) && i <= |es|
    decreases i
  {
    if i == 0 then sys
    else
      StepKeysOk(env, sys, es[0]);
      At(env, Step(env, sys, es[0]), es[1..], i - 1)
  }

  // ---------------------------------------------------------------------------------------------
  // Keys survive rotation for the overlap window
  // ---------------------------------------------------------------------------------------------

  /** Version `v` holds `key` and was not superseded before `t`. */
  ghost predicate Retained(ks: KeyStore, tenant: Uuid, v: int, key: Key, t: int) {
    && tenant in ks && v in ks[tenant].versions && v <= ks[tenant].current
    && ks[tenant].versions[v].key == key
    && (ks[tenant].versions[v].supersededAt.Some? ==> ks[tenant].versions[v].supersededAt.value >= t)
  }

  lemma RetainedStep(env: Env, sys: Sys, e: Event, tenant: Uuid, v: int, key: Key, t: int)
    requires KeysOk(sys.keys) && Enabled(sys, e) && Retained(sys.keys, tenant, v, key, t) && t <= sys.now
    ensures Retained(Step(env, sys, e).keys, tenant, v, key, t)
  {
    StepParts(env, sys, e);
  }

  lemma {:induction false} RetainedRun(
    env: Env, sys: Sys, es: seq<Event>, i: nat, tenant: Uuid, v: int, key: Key, t: int)
    requires KeysOk(sys.keys) && Legal(env, sys, es) && i <= |es|
    requires Retained(sys.keys, tenant, v, key, t) && t <= sys.now
    ensures Retained(At(env, sys, es, i).keys, tenant, v, key, t) && At(env, sys, es, i).now >= sys.now
    ensures KeysOk(At(env, sys, es, i).keys)
    decreases i
  {
    if i > 0 {
      StepKeysOk(env, sys, es[0]);
      RetainedStep(env, sys, es[0], tenant, v, key, t);
      RetainedRun(env, Step(env, sys, es[0]), es[1..], i - 1, tenant, v, key, t);
    }
  }

  // ---------------------------------------------------------------------------------------------
  // A minted token is accepted on first presentation
  // ---------------------------------------------------------------------------------------------

  predicate NonceLive(seen: Seen, nonce: string, now: int) {
    nonce in seen && seen[nonce] > now
  }

  /** What `Sign` puts into a token. */
  ghost predicate MintedAt(env: Env, keys: KeyStore, tok: Token, key: Key, t: int) {
    && ValidClaims(tok.claims) && tok.claims.expiry == t + env.ttl
    && Retained(keys, tok.claims.tenant, tok.claims.keyVersion, key, t)
    && tok.signature == HexEncode(env.mac(key, Message(tok.claims)))
  }

  lemma SignMints(
    env: Env, sys: Sys, tenant: Uuid, hash: string, endpoint: string, entropy: Option<Key>, nonce: seq<Byte>)
    returns (key: Key)
    requires KeysOk(sys.keys) && Sign(env, sys, tenant, hash, endpoint, entropy, nonce).1.Some?
    ensures
      var (sys', tok) := Sign(env, sys, tenant, hash, endpoint, entropy, nonce);
      && KeysOk(sys'.keys) && sys'.now == sys.now && sys'.seen == sys.seen
      && MintedAt(env, sys'.keys, tok.value, key, sys.now)
  {
    var ks := EnsureTenant(sys.keys, env.auto, tenant, entropy, sys.now).value;
    key := ks[tenant].versions[ks[tenant].current].key;
  }

  lemma MintedSignatureChecks(env: Env, keys: KeyStore, tok: Token, key: Key, t: int)
    requires MintedAt(env, keys, tok, key, t)
    ensures ValidSignature(tok.signature)
    ensures HexDecode(tok.signature) == Some(env.mac(key, Message(tok.claims)))
  {
    HexRoundTrip(env.mac(key, Message(tok.claims)));
  }

  /** Within its validity and before its key leaves the overlap window, only a live nonce can stop a token. */
  lemma AcceptedUnlessReplayed(env: Env, sys: Sys, tok: Token, key: Key, t: int, entropy: Option<Key>)
    requires MintedAt(env, sys.keys, tok, key, t)
    requires t <= sys.now <= t + env.ttl + env.skew < t + OVERLAP
    ensures Validate(env, sys, tok, entropy, NotChecked).1 ==
      if NonceLive(sys.seen, tok.claims.nonce, sys.now) then Replay else Accepted
  {
    MintedSignatureChecks(env, sys.keys, tok, key, t);
    assert FreshVerdict(env, sys.now, tok) == Accepted;
    assert KeyVerdict(env, sys.keys[tok.claims.tenant], sys.now, tok) == Accepted;
  }

  /** No event up to `i` presents the nonce. */
  ghost predicate Unpresented(es: seq<Event>, i: nat, nonce: string)
    requires i <= |es|
  {
    forall k :: 0 <= k < i && es[k].Present? ==> es[k].tok.claims.nonce != nonce
  }

  lemma ConsumeOther(seen: Seen, maxSize: nat, nonce: string, ttl: int, now: int, other: string)
    requires other != nonce && !NonceLive(seen, other, now)
    ensures !NonceLive(Consume(seen, maxSize, nonce, ttl, now).0, other, now)
  {}

  lemma {:induction false} StaysUnused(env: Env, sys: Sys, es: seq<Event>, i: nat, nonce: string)
    requires KeysOk(sys.keys) && Legal(env, sys, es) && i <= |es| && Unpresented(es, i, nonce)
    requires !NonceLive(sys.seen, nonce, sys.now)
    ensures var s := At(env, sys, es, i); !NonceLive(s.seen, nonce, s.now)
    decreases i
  {
    if i > 0 {
      var e := es[0];
      StepKeysOk(env, sys, e);
      StepParts(env, sys, e);
      if Reaches(env, sys, e) {
        ConsumeOther(sys.seen, env.maxSize, e.tok.claims.nonce, env.ttl + env.skew, sys.now, nonce);
      }
      assert Unpresented(es[1..], i - 1, nonce) by {
        assert forall k :: 0 <= k < i - 1 ==> es[1..][k] == es[k + 1];
      }
      StaysUnused(env, Step(env, sys, e), es[1..], i - 1, nonce);
    }
  }

  /**
   A token minted under the then-current key is accepted on its first presentation inside its window,
   whatever happens in between — rotations included — provided ttl + skew is below the overlap window.
   */
  lemma MintedIsAccepted(env: Env, sys: Sys, mint: Event, es: seq<Event>, i: nat, entropy: Option<Key>)
    requires KeysOk(sys.keys) && mint.Mint? && env.ttl + env.skew < OVERLAP
    requires Sign(env, sys, mint.tenant, mint.hash, mint.endpoint, mint.entropy, mint.nonce).1.Some?
    requires !NonceLive(sys.seen, HexEncode(mint.nonce), sys.now)
    requires KeysOk(Step(env, sys, mint).keys) && Legal(env, Step(env, sys, mint), es) && i <= |es|
    requires Unpresented(es, i, HexEncode(mint.nonce))
    requires At(env, Step(env, sys, mint), es, i).now <= sys.now + env.ttl + env.skew
    ensures
      var tok := Sign(env, sys, mint.tenant, mint.hash, mint.endpoint, mint.entropy, mint.nonce).1.value;
      Accepts(env, At(env, Step(env, sys, mint), es, i), Present(tok, entropy, NotChecked))
  {
    var key := SignMints(env, sys, mint.tenant, mint.hash, mint.endpoint, mint.entropy, mint.nonce);
    var (sys', minted) := Sign(env, sys, mint.tenant, mint.hash, mint.endpoint, mint.entropy, mint.nonce);
    var tok := minted.value;
    var c := tok.claims;
    assert sys' == Step(env, sys, mint) && c.nonce == HexEncode(mint.nonce);
    RetainedRun(env, sys', es, i, c.tenant, c.keyVersion, key, sys.now);
    StaysUnused(env, sys', es, i, c.nonce);
    AcceptedUnlessReplayed(env, At(env, sys', es, i), tok, key, sys.now, entropy);
  }

  // ---------------------------------------------------------------------------------------------
  // Replays
  // ---------------------------------------------------------------------------------------------

  /** The nonce is on record until `until`, unless that time has come. */
  ghost predicate HeldUntil(sys: Sys, nonce: string, until: int) {
    sys.now < until ==> nonce in sys.seen && sys.seen[nonce] == until
  }

  lemma HeldStep(env: Env, sys: Sys, e: Event, nonce: string, until: int)
    requires KeysOk(sys.keys) && Enabled(sys, e) && HeldUntil(sys, nonce, until)
    ensures HeldUntil(Step(env, sys, e), nonce, until)
  {
    StepParts(env, sys, e);
  }

  lemma {:induction false} HeldRun(env: Env, sys: Sys, es: seq<Event>, i: nat, nonce: string, until: int)
    requires KeysOk(sys.keys) && Legal(env, sys, es) && i <= |es| && HeldUntil(sys, nonce, until)
    ensures HeldUntil(At(env, sys, es, i), nonce, until)
    decreases i
  {
    if i > 0 {
      StepKeysOk(env, sys, es[0]);
      HeldStep(env, sys, es[0], nonce, until);
      HeldRun(env, Step(env, sys, es[0]), es[1..], i - 1, nonce, until);
    }
  }

  lemma {:induction false} AtLater(env: Env, sys: Sys, es: seq<Event>, i: nat, j: nat)
    requires KeysOk(sys.keys) && Legal(env, sys, es) && i < j <= |es|
    ensures
      var s := At(env, sys, es, i);
      && KeysOk(s.keys) && Enabled(s, es[i]) && KeysOk(Step(env, s, es[i]).keys)
      && Legal(env, Step(env, s, es[i]), es[i + 1..])
      && At(env, sys, es, j) == At(env, Step(env, s, es[i]), es[i + 1..], j - i - 1)
      && At(env, sys, es, j).now >= s.now
    decreases i
  {
    StepKeysOk(env, sys, es[0]);
    if i == 0 {
      ClockRuns(env, Step(env, sys, es[0]), es[1..], j - 1);
    } else {
      AtLater(env, Step(env, sys, es[0]), es[1..], i - 1, j - 1);
      assert es[1..][i..] == es[i + 1..];
    }
  }

  lemma {:induction false} ClockRuns(env: Env, sys: Sys, es: seq<Event>, i: nat)
    requires KeysOk(sys.keys) && Legal(env, sys, es) && i <= |es|
    ensures At(env, sys, es, i).now >= sys.now
    decreases i
  {
    if i > 0 {
      StepKeysOk(env, sys, es[0]);
      ClockRuns(env, Step(env, sys, es[0]), es[1..], i - 1);
    }
  }

  lemma AcceptanceHolds(env: Env, sys: Sys, e: Event)
    requires KeysOk(sys.keys) && Enabled(sys, e) && Accepts(env, sys, e)
    ensures HeldUntil(Step(env, sys, e), e.tok.claims.nonce, sys.now + env.ttl + env.skew)
  {
    StepParts(env, sys, e);
    AcceptsReaches(env, sys, e);
  }

  /** Over every run, two acceptances of one nonce are at least ttl + skew apart. */
  lemma AcceptancesApart(env: Env, sys: Sys, es: seq<Event>, i: nat, j: nat)
    requires KeysOk(sys.keys) && Legal(env, sys, es) && i < j < |es|
    requires Accepts(env, At(env, sys, es, i), es[i]) && Accepts(env, At(env, sys, es, j), es[j])
    requires es[i].tok.claims.nonce == es[j].tok.claims.nonce
    ensures At(env, sys, es, j).now >= At(env, sys, es, i).now + env.ttl + env.skew
  {
    HeldAfterAcceptance(env, sys, es, i, j);
    AcceptedWhenReleased(env, At(env, sys, es, j), es[j], At(env, sys, es, i).now + env.ttl + env.skew);
  }

  lemma HeldAfterAcceptance(env: Env, sys: Sys, es: seq<Event>, i: nat, j: nat)
    requires KeysOk(sys.keys) && Legal(env, sys, es) && i < j < |es| && Accepts(env, At(env, sys, es, i), es[i])
    ensures HeldUntil(At(env, sys, es, j), es[i].tok.claims.nonce, At(env, sys, es, i).now + env.ttl + env.skew)
  {
    var s := At(env, sys, es, i);
    AtLater(env, sys, es, i, j);
    AcceptanceHolds(env, s, es[i]);
    HeldRun(env, Step(env, s, es[i]), es[i + 1..], j - i - 1, es[i].tok.claims.nonce, s.now + env.ttl + env.skew);
  }

  lemma AcceptedWhenReleased(env: Env, sys: Sys, e: Event, until: int)
    requires Accepts(env, sys, e) && HeldUntil(sys, e.tok.claims.nonce, until)
    ensures sys.now >= until
  {
    AcceptsReaches(env, sys, e);
  }

  /**
   A token accepted twice was first accepted no later than ttl seconds before its expiry, that is, in the
   very second it was minted, and its second acceptance falls on the last second of its window. Hence a
   token first accepted in a later second than it was minted is never accepted again.
   */
  lemma SecondAcceptance(env: Env, sys: Sys, es: seq<Event>, i: nat, j: nat)
    requires KeysOk(sys.keys) && Legal(env, sys, es) && i < j < |es|
    requires Accepts(env, At(env, sys, es, i), es[i]) && Accepts(env, At(env, sys, es, j), es[j])
    requires es[i].tok == es[j].tok
    ensures
      var minted := es[i].tok.claims.expiry - env.ttl;
      && At(env, sys, es, i).now <= minted
      && (At(env, sys, es, i).now == minted ==> At(env, sys, es, j).now == minted + env.ttl + env.skew)
  {
    AcceptancesApart(env, sys, es, i, j);
    AcceptsReaches(env, At(env, sys, es, j), es[j]);
  }

  /** The remaining case does occur: minted and accepted in one second, accepted again at the window's end. */
  lemma BoundaryReplay(env: Env, sys: Sys, tok: Token, key: Key)
    requires KeysOk(sys.keys) && MintedAt(env, sys.keys, tok, key, sys.now)
    requires env.ttl + env.skew < OVERLAP && !NonceLive(sys.seen, tok.claims.nonce, sys.now)
    ensures
      var show := Present(tok, None, NotChecked);
      var es := [show, Tick(env.ttl + env.skew), show];
      Legal(env, sys, es) && Accepts(env, At(env, sys, es, 0), es[0]) && Accepts(env, At(env, sys, es, 2), es[2])
  {
    var show := Present(tok, None, NotChecked);
    var es := [show, Tick(env.ttl + env.skew), show];
    AcceptedUnlessReplayed(env, sys, tok, key, sys.now, None);
    StepKeysOk(env, sys, show);
    StepParts(env, sys, show);
    var s1 := Step(env, sys, show);
    var s2 := Step(env, s1, es[1]);
    assert s1.keys == sys.keys && s2.now == sys.now + env.ttl + env.skew && s2.seen == s1.seen;
    assert s1.seen[tok.claims.nonce] == s2.now;
    AcceptedUnlessReplayed(env, s2, tok, key, sys.now, None);
    assert es[1..] == [es[1], show] && es[1..][1..] == [show] && es[1..][1..][1..] == [];
    StepKeysOk(env, s1, es[1]);
    assert At(env, s1, es[1..], 1) == At(env, s2, es[1..][1..], 0) == s2;
  }

  // ---------------------------------------------------------------------------------------------
  // The capacity sweep
  // ---------------------------------------------------------------------------------------------

  datatype Call = Call(nonce: string, ttl: nat, now: int)

  /** The answers of a store that sweeps when it holds `maxSize` entries. */
  function Answers(maxSize: nat, seen: Seen, calls: seq<Call>): seq<bool>
    decreases |calls|
  {
    if calls == [] then []
    else
      var (seen', first) := Consume(seen, maxSize, calls[0].nonce, calls[0].ttl, calls[0].now);
      [first] + Answers(maxSize, seen', calls[1..])
  }

  /** Reference: a store that never forgets anything. */
  function Unswept(seen: Seen, calls: seq<Call>): seq<bool>
    decreases |calls|
  {
    if calls == [] then []
    else
      var c := calls[0];
      var first := !NonceLive(seen, c.nonce, c.now);
      [first] + Unswept(if first then seen[c.nonce := c.now + c.ttl] else seen, calls[1..])
  }

  ghost predicate Ordered(calls: seq<Call>, from: int) {
    calls == [] || (from <= calls[0].now && Ordered(calls[1..], calls[0].now))
  }

  /** The two stores agree on what is in force from `now` on. */
  ghost predicate SameLive(a: Seen, b: Seen, now: int) {
    forall n :: (NonceLive(a, n, now) || NonceLive(b, n, now)) ==> n in a && n in b && a[n] == b[n]
  }

  lemma ConsumeAgrees(maxSize: nat, a: Seen, b: Seen, c: Call, from: int)
    requires SameLive(a, b, from) && from <= c.now
    ensures
      var (a', first) := Consume(a, maxSize, c.nonce, c.ttl, c.now);
      var first' := !NonceLive(b, c.nonce, c.now);
      first == first' && SameLive(a', if first' then b[c.nonce := c.now + c.ttl] else b, c.now)
  {
    assert SameLive(a, b, c.now);
  }

  /** Sweeping expired entries never changes an answer, for any capacity and any calls in clock order. */
  lemma {:induction false} SweepIsInvisible(maxSize: nat, a: Seen, b: Seen, calls: seq<Call>, from: int)
    requires SameLive(a, b, from) && Ordered(calls, from)
    ensures Answers(maxSize, a, calls) == Unswept(b, calls)
    decreases |calls|
  {
    if calls != [] {
      var c := calls[0];
      ConsumeAgrees(maxSize, a, b, c, from);
      var (a', first) := Consume(a, maxSize, c.nonce, c.ttl, c.now);
      SweepIsInvisible(maxSize, a', if first then b[c.nonce := c.now + c.ttl] else b, calls[1..], c.now);
    }
  }
}
