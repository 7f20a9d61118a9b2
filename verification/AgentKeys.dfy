/** The agent key registry, in memory (internal/agentkeys/store.go). */
module AgentKeys {
  import opened Wrappers
  import opened Crypto

  datatype Key = Key(
    keyId: string,
    subjectKey: string,
    tokenId: string,
    alg: string,
    publicKey: string,
    createdAt: int,
    revokedAt: Option<int>)

  datatype Challenge = Challenge(nonce: string, expiresAt: int, binder: string)

  datatype RegisterInput = RegisterInput(
    subjectKey: string,
    tokenId: string,
    alg: string,
    publicKey: string,
    nonce: string,
    signature: string,
    binder: string)

  datatype Error =
    | BinderRequired
    | NonceRequired
    | ChallengeNotFound
    | BinderMismatch
    | FieldsRequired
    | BadKey
    | BadProof
    | KeyNotFound

  /** Whether a caller may use a key: same subject, not revoked, and if the key
      is bound to a token, that token. */
  predicate BelongsToCaller(k: Key, subjectKey: string, tokenId: string) {
    && k.subjectKey == subjectKey
    && k.revokedAt == None
    && (k.tokenId != "" ==> k.tokenId == tokenId)
  }

  /** Everything but the revocation time is fixed when a key is registered. */
  predicate SameKey(a: Key, b: Key) {
    a.(revokedAt := None) == b.(revokedAt := None)
  }

  function Algorithm(input: RegisterInput): string {
    if input.alg == "" then "ed25519" else input.alg
  }

  predicate ChallengeOpen(challenges: map<string, Challenge>, nonce: string, binder: string, now: int) {
    nonce != "" && nonce in challenges && now <= challenges[nonce].expiresAt && challenges[nonce].binder == binder
  }

  /** The input is complete and names a key of a known kind. */
  predicate WellFormedInput(c: Scheme, input: RegisterInput) {
    && input.subjectKey != "" && input.publicKey != "" && input.nonce != "" && input.signature != ""
    && (Algorithm(input) == "ed25519" || Algorithm(input) == "ecdsa-p256")
    && c.wellFormedKey(Algorithm(input), input.publicKey)
  }

  /** The signature proves possession of the key. */
  predicate ProvesKey(c: Scheme, input: RegisterInput) {
    c.verify(Algorithm(input), input.publicKey, input.signature, c.hashOf(ProofEnvelope(input)))
  }

  /** What is signed to prove possession of a key. */
  function ProofEnvelope(input: RegisterInput): Envelope {
    if input.tokenId != "" then TokenProof(input.nonce, input.publicKey, input.tokenId)
    else SessionProof(input.nonce, input.publicKey, input.binder)
  }

  class Store {
    const scheme: Scheme
    var keys: map<string, Key>
    var challenges: map<string, Challenge>
    /** Nonces of challenges that were taken. */
    ghost var spent: set<string>

    ghost predicate Valid()
      reads this
    {
      && (forall id | id in keys :: keys[id].keyId == id)
      && (forall n | n in challenges :: challenges[n].nonce == n)
      && spent !! challenges.Keys
    }

    constructor (scheme: Scheme)
      ensures Valid() && keys == map[] && challenges == map[] && spent == {} && this.scheme == scheme
    {
      this.scheme := scheme;
      keys, challenges, spent := map[], map[], {};
    }

    /** nonce is the fresh random id that names the challenge. */
    method CreateChallenge(nonce: string, binder: string, now: int, ttl: int) returns (r: Result<Challenge, Error>)
      requires Valid() && nonce !in challenges && nonce !in spent
      modifies this
      ensures Valid() && keys == old(keys) && spent == old(spent)
      ensures binder == "" ==> r == Err(BinderRequired) && challenges == old(challenges)
      ensures binder != "" ==> r.Ok? && challenges == old(challenges)[nonce := r.value]
      ensures r.Ok? ==> r.value == Challenge(nonce, now + (if ttl <= 0 then 300_000_000_000 else ttl), binder)
    {
      if binder == "" {
        return Err(BinderRequired);
      }
      var lifetime := if ttl <= 0 then 300_000_000_000 else ttl;
      var ch := Challenge(nonce, now + lifetime, binder);
      challenges := challenges[nonce := ch];
      return Ok(ch);
    }

    /** A challenge is taken at most once: taking it moves its nonce to spent,
        and spent nonces are never taken again. */
    method ConsumeChallenge(nonce: string, binder: string, now: int) returns (r: Result<(), Error>)
      requires Valid()
      modifies this
      ensures Valid() && keys == old(keys)
      ensures r.Ok? <==> ChallengeOpen(old(challenges), nonce, binder, now)
      ensures r.Ok? ==> nonce !in old(spent) && spent == old(spent) + {nonce} && challenges == old(challenges) - {nonce}
      ensures r.Err? ==> spent == old(spent)
      ensures challenges.Keys <= old(challenges).Keys
    {
      if nonce == "" {
        return Err(NonceRequired);
      }
      if nonce !in challenges || now > challenges[nonce].expiresAt {
        challenges := challenges - {nonce};
        return Err(ChallengeNotFound);
      }
      if challenges[nonce].binder != binder {
        return Err(BinderMismatch);
      }
      challenges, spent := challenges - {nonce}, spent + {nonce};
      return Ok(());
    }

    /** A key enters the registry if and only if the input is well formed and carries a
        signature by that key over a challenge that was open; the challenge is spent
        from then on, even if the signature fails. */
    method Register(input: RegisterInput, keyId: string, now: int) returns (r: Result<Key, Error>)
      requires Valid() && keyId !in keys
      modifies this
      ensures Valid()
      ensures r.Err? ==> keys == old(keys)
      ensures r.Ok? ==> keys == old(keys)[keyId := r.value]
      ensures r.Ok? ==> r.value == Key(keyId, input.subjectKey, input.tokenId, Algorithm(input), input.publicKey,
        now, None)
      ensures r.Ok? <==>
        && WellFormedInput(scheme, input)
        && ChallengeOpen(old(challenges), input.nonce, input.binder, now)
        && ProvesKey(scheme, input)
      ensures WellFormedInput(scheme, input) && ChallengeOpen(old(challenges), input.nonce, input.binder, now) ==>
        input.nonce !in old(spent) && spent == old(spent) + {input.nonce}
      ensures !WellFormedInput(scheme, input) ==> spent == old(spent) && challenges == old(challenges)
      ensures old(spent) <= spent
    {
      if input.subjectKey == "" || input.publicKey == "" || input.nonce == "" || input.signature == "" {
        return Err(FieldsRequired);
      }
      var alg := Algorithm(input);
      if (alg != "ed25519" && alg != "ecdsa-p256") || !scheme.wellFormedKey(alg, input.publicKey) {
        return Err(BadKey);
      }
      var taken := ConsumeChallenge(input.nonce, input.binder, now);
      if taken.Err? {
        return Err(taken.error);
      }
      if !scheme.verify(alg, input.publicKey, input.signature, scheme.hashOf(ProofEnvelope(input))) {
        return Err(BadProof);
      }
      var key := Key(keyId, input.subjectKey, input.tokenId, alg, input.publicKey, now, None);
      keys := keys[keyId := key];
      return Ok(key);
    }

    method Get(keyId: string) returns (key: Option<Key>)
      ensures key == if keyId in keys then Some(keys[keyId]) else None
    {
      key := if keyId in keys then Some(keys[keyId]) else None;
    }

    method Revoke(keyId: string, subjectKey: string, now: int) returns (r: Result<(), Error>)
      requires Valid()
      modifies this`keys
      ensures Valid()
      ensures r.Ok? <==> keyId in old(keys) && old(keys)[keyId].subjectKey == subjectKey
      ensures r.Ok? ==> keys == old(keys)[keyId := old(keys)[keyId].(revokedAt := Some(now))]
      ensures r.Err? ==> keys == old(keys)
    {
      if keyId !in keys || keys[keyId].subjectKey != subjectKey {
        return Err(KeyNotFound);
      }
      keys := keys[keyId := keys[keyId].(revokedAt := Some(now))];
      return Ok(());
    }
  }
}
