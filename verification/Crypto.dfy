/** Envelopes, and cryptography as parameters. */
module Crypto {
  import opened Wrappers
  import opened Decimal
  import opened Canonical

  /** The maps that are hashed and signed. */
  datatype Envelope =
    | MessageEnvelope(
        objectId: string,
        policyVersion: int,
        policyHash: string,
        authorKeyId: string,
        nonce: string,
        createdAt: string,
        payload: map<string, Value>,
        prevHash: Option<string>)  // the key is present only if given
    | AttestationEnvelope(
        messageId: int,
        messageHash: string,
        attestedVersion: int,
        signerKeyId: string,
        status: string,
        comment: string,
        attestedAt: string)
    | TokenProof(challenge: string, publicKey: string, tokenId: string)
    | SessionProof(challenge: string, publicKey: string, sessionId: string)

  /** The JSON object an envelope stands for. Versions and message ids count up from 1;
      below 2^53 the server's text of a number is its decimal digits. */
  function EnvelopeValue(e: Envelope): Value {
    match e
    case MessageEnvelope(objectId, policyVersion, policyHash, authorKeyId, nonce, createdAt, payload, prevHash) =>
      var base := map[
        "objectId" := Str(objectId),
        "policyVersion" := Num(Show(policyVersion)),
        "policyHash" := Str(policyHash),
        "authorKeyId" := Str(authorKeyId),
        "nonce" := Str(nonce),
        "createdAt" := Str(createdAt),
        "payload" := Dict(payload)];
      Dict(if prevHash.Some? then base["prevHash" := Str(prevHash.value)] else base)
    case AttestationEnvelope(messageId, messageHash, policyVersion, signerKeyId, status, comment, createdAt) =>
      Dict(map[
        "messageId" := Num(Show(messageId)),
        "messageHash" := Str(messageHash),
        "policyVersion" := Num(Show(policyVersion)),
        "signerKeyId" := Str(signerKeyId),
        "status" := Str(status),
        "comment" := Str(comment),
        "createdAt" := Str(createdAt)])
    case TokenProof(nonce, publicKey, tokenId) =>
      Dict(map["nonce" := Str(nonce), "publicKey" := Str(publicKey), "tokenId" := Str(tokenId)])
    case SessionProof(nonce, publicKey, sessionId) =>
      Dict(map["nonce" := Str(nonce), "publicKey" := Str(publicKey), "sessionId" := Str(sessionId)])
  }

  /** hashOf stands for base64url of SHA-256 of the canonical JSON of an envelope;
      verify(alg, publicKey, signature, hash) for VerifyAgentSig, false on text it
      cannot decode; wellFormedKey for the length and curve checks at registration. */
  datatype Scheme = Scheme(
    hashOf: Envelope -> string,
    verify: (string, string, string, string) -> bool,
    wellFormedKey: (string, string) -> bool)

  /** The scheme hashes the canonical JSON text with the given digest. */
  ghost predicate HashesCanonicalJson(c: Scheme, digest: string -> string) {
    forall e :: c.hashOf(e) == digest(CanonicalJson(EnvelopeValue(e)))
  }

  /** SHA-256 idealised: no two texts share a digest. */
  ghost predicate CollisionFree(digest: string -> string) {
    forall x, y :: digest(x) == digest(y) ==> x == y
  }

  /** The encoding of a 32-byte digest is never the empty string. */
  ghost predicate HashesNonEmpty(c: Scheme) {
    forall e :: c.hashOf(e) != ""
  }

  lemma MessageValueInjective(a: Envelope, b: Envelope)
    requires a.MessageEnvelope? && b.MessageEnvelope? && EnvelopeValue(a) == EnvelopeValue(b)
    ensures a == b
  {
    var m, n := EnvelopeValue(a).entries, EnvelopeValue(b).entries;
    assert m["objectId"] == n["objectId"] && m["policyVersion"] == n["policyVersion"];
    ShowInjective(a.policyVersion, b.policyVersion);
    assert m["policyHash"] == n["policyHash"] && m["authorKeyId"] == n["authorKeyId"];
    assert m["nonce"] == n["nonce"] && m["createdAt"] == n["createdAt"] && m["payload"] == n["payload"];
    assert "prevHash" in m <==> a.prevHash.Some?;
    assert "prevHash" in n <==> b.prevHash.Some?;
    assert a.prevHash.Some? ==> m["prevHash"] == n["prevHash"];
  }

  /** With a collision-free digest the hash of a message envelope determines every
      field of it: the canonical text loses nothing. */
  lemma MessageHashInjective(c: Scheme, digest: string -> string, a: Envelope, b: Envelope)
    requires HashesCanonicalJson(c, digest) && CollisionFree(digest)
    requires a.MessageEnvelope? && b.MessageEnvelope? && c.hashOf(a) == c.hashOf(b)
    ensures a == b
  {
    CanonicalJsonInjective(EnvelopeValue(a), EnvelopeValue(b));
    MessageValueInjective(a, b);
  }

  /** The hash of a message envelope determines the envelope. */
  ghost predicate MessageHashesDetermine(c: Scheme) {
    forall a: Envelope, b: Envelope | a.MessageEnvelope? && b.MessageEnvelope? && c.hashOf(a) == c.hashOf(b) :: a == b
  }

  lemma CanonicalHashesDetermine(c: Scheme, digest: string -> string)
    requires HashesCanonicalJson(c, digest) && CollisionFree(digest)
    ensures MessageHashesDetermine(c)
  {
    forall a: Envelope, b: Envelope | a.MessageEnvelope? && b.MessageEnvelope?
      && c.hashOf(a) == c.hashOf(b) ensures a == b {
      MessageHashInjective(c, digest, a, b);
    }
  }
}
