/** The mutable objects of internal/auth, each method proved to act as the protocol's functions say. */
module TokenService {
  import opened Options
  import opened Words
  import opened Text
  import opened TokenCodec
  import Tokens
  import TokenLaws

  class InMemoryNonceStore {
    var seen: Tokens.Seen
    const maxSize: nat

    constructor (maxEntries: int)
      ensures seen == map[] && maxSize == if maxEntries <= 0 then 0x10_0000 else maxEntries
    {
      seen := map[];
      maxSize := if maxEntries <= 0 then 0x10_0000 else maxEntries;
    }

    /** The lazy sweep: delete every expired entry, in whatever order the map yields them. */
    method Sweep(now: int)
      modifies this`seen
      ensures seen == Tokens.Live(old(seen), now)
    {
      var pending := seen.Keys;
      while pending != {}
        invariant pending <= old(seen).Keys
        invariant seen == map n | n in old(seen) && (n in pending || old(seen)[n] > now) :: old(seen)[n]
        decreases |pending|
      {
        var k :| k in pending;
        if seen[k] <= now {
          seen := seen - {k};
        }
        pending := pending - {k};
      }
    }

    method Consume(nonce: string, ttl: int, now: int) returns (first: bool)
      modifies this`seen
      ensures (seen, first) == Tokens.Consume(old(seen), maxSize, nonce, ttl, now)
    {
      if |seen| >= maxSize {
        Sweep(now);
      }
      if nonce in seen && seen[nonce] > now {
        return false;
      }
      seen := seen[nonce := now + ttl];
      return true;
    }
  }

  class StaticKms {
    var tenants: Tokens.KeyStore
    var autoProvision: bool

    constructor ()
      ensures tenants == map[] && !autoProvision
    {
      tenants := map[];
      autoProvision := false;
    }

    method EnableAutoProvision()
      modifies this`autoProvision
      ensures autoProvision
    {
      autoProvision := true;
    }

    /** Registers a tenant's initial key, or makes the given version the current one. */
    method Provision(tenant: Uuid, version: int, key: Tokens.Key, now: int)
      modifies this`tenants
      ensures tenant !in old(tenants) ==> tenants == old(tenants)[tenant := Tokens.NewTenant(version, key, now)]
      ensures tenant in old(tenants) ==>
        tenants == old(tenants)[tenant :=
          Tokens.TenantKeys(version, old(tenants)[tenant].versions[version := Tokens.KeyRecord(key, now, None)])]
    {
      var versions := if tenant in tenants then tenants[tenant].versions else map[];
      var tk := Tokens.TenantKeys(version, versions[version := Tokens.KeyRecord(key, now, None)]);
      tenants := tenants[tenant := tk];
    }

    /** Looks the tenant up, provisioning it when that is enabled; fails without touching anything else. */
    method Ensure(tenant: Uuid, entropy: Option<Tokens.Key>, now: int) returns (ok: bool)
      modifies this`tenants
      ensures var r := Tokens.EnsureTenant(old(tenants), autoProvision, tenant, entropy, now);
        ok == r.Some? && tenants == if ok then r.value else old(tenants)
    {
      if tenant in tenants {
        return true;
      }
      if !autoProvision || entropy.None? {
        return false;
      }
      tenants := tenants[tenant := Tokens.NewTenant(1, entropy.value, now)];
      return true;
    }

    method SigningKey(tenant: Uuid, entropy: Option<Tokens.Key>, now: int) returns (r: Option<(int, Tokens.Key)>)
      requires Tokens.KeysOk(tenants)
      modifies this`tenants
      ensures Tokens.KeysOk(tenants)
      ensures var ks := Tokens.EnsureTenant(old(tenants), autoProvision, tenant, entropy, now);
        && tenants == (if ks.Some? then ks.value else old(tenants))
        && r.Some? == ks.Some?
        && (r.Some? ==> var tk := tenants[tenant]; r.value == (tk.current, tk.versions[tk.current].key))
    {
      var ok := Ensure(tenant, entropy, now);
      if !ok {
        return None;
      }
      var tk := tenants[tenant];
      return Some((tk.current, tk.versions[tk.current].key));
    }

    /** `None` is the no-keys error; an unknown or retired version is `Some(None)`. */
    method VerificationKey(tenant: Uuid, version: int, entropy: Option<Tokens.Key>, now: int)
      returns (r: Option<Option<Tokens.Key>>)
      modifies this`tenants
      ensures var ks := Tokens.EnsureTenant(old(tenants), autoProvision, tenant, entropy, now);
        && tenants == (if ks.Some? then ks.value else old(tenants))
        && r.Some? == ks.Some?
        && (r.Some? ==>
              var vs := tenants[tenant].versions;
              var serves := version in vs &&
                match vs[version].supersededAt case None => true case Some(t) => now < t + 7 * 86_400;
              r.value == if serves then Some(vs[version].key) else None)
    {
      var ok := Ensure(tenant, entropy, now);
      if !ok {
        return None;
      }
      var vs := tenants[tenant].versions;
      if version !in vs || !Tokens.Active(vs[version], now) {
        return Some(None);
      }
      return Some(Some(vs[version].key));
    }

    method Rotate(tenant: Uuid, entropy: Option<Tokens.Key>, now: int) returns (version: Option<int>)
      requires Tokens.KeysOk(tenants)
      modifies this`tenants
      ensures Tokens.KeysOk(tenants)
      ensures version.Some? <==> tenant in old(tenants) && entropy.Some?
      ensures version.None? ==> tenants == old(tenants)
      ensures version.Some? ==>
        && version.value == old(tenants)[tenant].current + 1
        && tenants == old(tenants)[tenant := Tokens.Rotated(old(tenants)[tenant], entropy.value, now)]
    {
      if tenant !in tenants || entropy.None? {
        return None;
      }
      var tk := tenants[tenant];
      var versions := tk.versions[tk.current := tk.versions[tk.current].(supersededAt := Some(now))];
      var next := tk.current + 1;
      versions := versions[next := Tokens.KeyRecord(entropy.value, now, None)];
      tenants := tenants[tenant := Tokens.TenantKeys(next, versions)];
      return Some(next);
    }
  }

  class TokenGenerator {
    const kms: StaticKms
    const nonces: InMemoryNonceStore
    const mac: Tokens.Mac
    const ttl: nat
    const skew: nat

    constructor (kms: StaticKms, nonces: InMemoryNonceStore, mac: Tokens.Mac, ttl: nat, skew: nat)
      ensures this.kms == kms && this.nonces == nonces && this.mac == mac && this.ttl == ttl && this.skew == skew
    {
      this.kms, this.nonces, this.mac, this.ttl, this.skew := kms, nonces, mac, ttl, skew;
    }

    ghost function Env(): Tokens.Env
      reads kms
    {
      Tokens.Env(mac, ttl, skew, nonces.maxSize, kms.autoProvision)
    }

    ghost function State(now: int): Tokens.Sys
      reads kms, nonces
    {
      Tokens.Sys(kms.tenants, nonces.seen, now)
    }

    method SignClaims(
      tenant: Uuid, hash: string, endpoint: string, entropy: Option<Tokens.Key>, nonce: seq<Byte>, now: int)
      returns (r: Option<Token>)
      requires Tokens.KeysOk(kms.tenants)
      modifies kms`tenants
      ensures (State(now), r) == Tokens.Sign(Env(), old(State(now)), tenant, hash, endpoint, entropy, nonce)
    {
      var key := kms.SigningKey(tenant, entropy, now);
      if key.None? || |key.value.1| < 32 {
        return None;
      }
      var c := Claims(tenant, hash, now + ttl, key.value.0, endpoint, HexEncode(nonce));
      if !ValidClaims(c) {
        return None;
      }
      return Some(Token(c, HexEncode(mac(key.value.1, Message(c)))));
    }

    /** Steps 3 and 4 of the validation: an active key, and the signature under it. */
    method CheckKey(tok: Token, entropy: Option<Tokens.Key>, now: int) returns (o: Tokens.Outcome)
      modifies kms`tenants
      ensures
        var ks := Tokens.EnsureTenant(old(kms.tenants), kms.autoProvision, tok.claims.tenant, entropy, now);
        if ks.None? then o == Tokens.NoKeys && kms.tenants == old(kms.tenants)
        else kms.tenants == ks.value && o == Tokens.KeyVerdict(Env(), ks.value[tok.claims.tenant], now, tok)
    {
      var key := kms.VerificationKey(tok.claims.tenant, tok.claims.keyVersion, entropy, now);
      if key.None? {
        return Tokens.NoKeys;
      }
      if key.value.None? {
        return Tokens.UnknownKeyVersion;
      }
      if HexDecode(tok.signature) != Some(mac(key.value.value, Message(tok.claims))) {
        return Tokens.BadSignature;
      }
      return Tokens.Accepted;
    }

    /** A token is accepted exactly if it is authentic, its nonce is not on record and its block is not foreign. */
    method Validate(tok: Token, entropy: Option<Tokens.Key>, owns: Tokens.Ownership, now: int)
      returns (o: Tokens.Outcome)
      modifies kms`tenants, nonces`seen
      ensures (State(now), o) == Tokens.Validate(Env(), old(State(now)), tok, entropy, owns)
      ensures o == Tokens.Accepted <==>
        && TokenLaws.Authentic(Env(), old(State(now)), tok, entropy)
        && !(tok.claims.nonce in old(nonces.seen) && old(nonces.seen)[tok.claims.nonce] > now)
        && owns in {Tokens.NotChecked, Tokens.Owns}
    {
      TokenLaws.AcceptedExactly(Env(), State(now), tok, entropy, owns);
      o := Check(tok, entropy, owns, now);
    }

    /** Order matters: the nonce is consumed only after structure, freshness, key and signature have passed. */
    method Check(tok: Token, entropy: Option<Tokens.Key>, owns: Tokens.Ownership, now: int)
      returns (o: Tokens.Outcome)
      modifies kms`tenants, nonces`seen
      ensures (State(now), o) == Tokens.Validate(Env(), old(State(now)), tok, entropy, owns)
    {
      if !ValidClaims(tok.claims) || !ValidSignature(tok.signature) {
        return Tokens.Malformed;
      }
      if tok.claims.expiry + skew < now {
        return Tokens.Expired;
      }
      if tok.claims.expiry > now + ttl + skew {
        return Tokens.TooFarInFuture;
      }
      o := CheckKey(tok, entropy, now);
      if o != Tokens.Accepted {
        return;
      }
      var first := nonces.Consume(tok.claims.nonce, ttl + skew, now);
      if !first {
        return Tokens.Replay;
      }
      match owns
      case ProbeFailed => return Tokens.OwnershipUnavailable;
      case DoesNotOwn => return Tokens.NotTenantBlock;
      case _ => return Tokens.Accepted;
    }
  }
}
