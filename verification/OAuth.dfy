/** The OAuth authorization server's stores and token endpoint
    (internal/auth/oauthas, and the token table of internal/access/store.go). */
module OAuth {
  import opened Wrappers

  datatype Code = Code(clientId: string, redirectUri: string, challenge: string, expiresAt: int, usedAt: Option<int>)

  datatype Refresh = Refresh(clientId: string, accessTokenId: string, expiresAt: int, revokedAt: Option<int>)

  datatype AccessToken = AccessToken(revokedAt: Option<int>)

  datatype Error = Invalid | Used | Revoked | Expired | ClientMismatch | RedirectMismatch | PkceFailed | ServerError

  /** All that the token endpoint changes: codes by value, refresh tokens by hash,
      access tokens by id. */
  datatype Tables = Tables(codes: map<string, Code>, refresh: map<string, Refresh>, tokens: map<string, AccessToken>)

  /** VerifyPKCES256, with the digest of a verifier as a function. */
  predicate VerifyPkce(digest: string -> string, verifier: string, challenge: string) {
    verifier != "" && challenge != "" && digest(verifier) == challenge
  }

  // ---- Single store operations --------------------------------------------------------------------

  function CodeRefused(codes: map<string, Code>, raw: string, now: int): Option<Error> {
    if raw !in codes then Some(Invalid)
    else if codes[raw].usedAt.Some? then Some(Used)
    else if now > codes[raw].expiresAt then Some(Expired)
    else None
  }

  function UseCode(t: Tables, raw: string, now: int): Tables
    requires raw in t.codes
  {
    t.(codes := t.codes[raw := t.codes[raw].(usedAt := Some(now))])
  }

  function RefreshRefused(refresh: map<string, Refresh>, hash: string, now: int): Option<Error> {
    if hash !in refresh then Some(Invalid)
    else if refresh[hash].revokedAt.Some? then Some(Revoked)
    else if now > refresh[hash].expiresAt then Some(Expired)
    else None
  }

  function UseRefresh(t: Tables, hash: string, now: int): Tables
    requires hash in t.refresh
  {
    t.(refresh := t.refresh[hash := t.refresh[hash].(revokedAt := Some(now))])
  }

  function RevokeToken(t: Tables, id: string, now: int): Tables {
    if id in t.tokens then t.(tokens := t.tokens[id := AccessToken(Some(now))]) else t
  }

  function AddToken(t: Tables, id: string): Tables {
    t.(tokens := t.tokens[id := AccessToken(None)])
  }

  function AddRefresh(t: Tables, hash: string, token: Refresh): Tables {
    t.(refresh := t.refresh[hash := token])
  }

  // ---- The token endpoint ---------------------------------------------------------------------------

  datatype CodeRequest = CodeRequest(raw: string, redirectUri: string, clientId: string, verifier: string)

  /** What minting draws from outside: whether the principal and its storages could be
      resolved, the new token id, whether a refresh token could be drawn, its hash and expiry. */
  datatype Supply = Supply(resolved: bool, tokenId: string, drawn: bool, refreshHash: string, expiresAt: int)

  predicate CodeMatches(digest: string -> string, code: Code, r: CodeRequest) {
    && code.clientId == r.clientId
    && code.redirectUri == r.redirectUri
    && VerifyPkce(digest, r.verifier, code.challenge)
  }

  function Minted(t: Tables, clientId: string, supply: Supply): Tables {
    if !supply.resolved then t
    else if !supply.drawn then AddToken(t, supply.tokenId)
    else AddRefresh(AddToken(t, supply.tokenId), supply.refreshHash, Refresh(clientId, supply.tokenId,
      supply.expiresAt, None))
  }

  function CodeGrant(digest: string -> string, t: Tables, r: CodeRequest, now: int, supply: Supply): Tables {
    if CodeRefused(t.codes, r.raw, now).Some? then t
    else if !CodeMatches(digest, t.codes[r.raw], r) then UseCode(t, r.raw, now)
    else Minted(UseCode(t, r.raw, now), r.clientId, supply)
  }

  function RefreshGrant(t: Tables, hash: string, clientId: string, now: int, supply: Supply): Tables {
    if RefreshRefused(t.refresh, hash, now).Some? then t
    else
      var existing := t.refresh[hash];
      var used := UseRefresh(t, hash, now);
      if clientId != "" && existing.clientId != clientId then used
      else Minted(RevokeToken(used, existing.accessTokenId, now), existing.clientId, supply)
  }

  class Server {
    const digest: string -> string
    var codes: map<string, Code>
    var refresh: map<string, Refresh>
    var tokens: map<string, AccessToken>

    constructor (digest: string -> string)
      ensures this.digest == digest && Contents() == Tables(map[], map[], map[])
    {
      this.digest := digest;
      codes, refresh, tokens := map[], map[], map[];
    }

    ghost function Contents(): Tables
      reads this
    {
      Tables(codes, refresh, tokens)
    }

    method ConsumeAuthorizationCode(raw: string, now: int) returns (r: Result<Code, Error>)
      modifies this
      ensures var refused := CodeRefused(old(codes), raw, now);
              if refused.Some? then r == Err(refused.value) && Contents() == old(Contents())
              else r == Ok(old(codes)[raw].(usedAt := Some(now))) && Contents() == UseCode(old(Contents()), raw, now)
      ensures r.Ok? ==> forall later :: CodeRefused(codes, raw, later) == Some(Used)
    {
      if raw !in codes {
        return Err(Invalid);
      }
      var code := codes[raw];
      if code.usedAt.Some? {
        return Err(Used);
      }
      if now > code.expiresAt {
        return Err(Expired);
      }
      code := code.(usedAt := Some(now));
      codes := codes[raw := code];
      return Ok(code);
    }

    method ConsumeRefreshToken(hash: string, now: int) returns (r: Result<Refresh, Error>)
      modifies this
      ensures var refused := RefreshRefused(old(refresh), hash, now);
              if refused.Some? then r == Err(refused.value) && Contents() == old(Contents())
              else r == Ok(old(refresh)[hash].(revokedAt := Some(now))) && Contents() == UseRefresh(old(Contents()),
                hash, now)
      ensures r.Ok? ==> forall later :: RefreshRefused(refresh, hash, later) == Some(Revoked)
    {
      if hash !in refresh {
        return Err(Invalid);
      }
      var token := refresh[hash];
      if token.revokedAt.Some? {
        return Err(Revoked);
      }
      if now > token.expiresAt {
        return Err(Expired);
      }
      token := token.(revokedAt := Some(now));
      refresh := refresh[hash := token];
      return Ok(token);
    }

    /** The new access token's id and the refresh token's hash. */
    method MintTokens(clientId: string, supply: Supply) returns (r: Result<(string, string), Error>)
      modifies this
      ensures Contents() == Minted(old(Contents()), clientId, supply)
      ensures r == if supply.resolved && supply.drawn then
        Ok((supply.tokenId, supply.refreshHash)) else Err(ServerError)
    {
      if !supply.resolved {
        return Err(ServerError);
      }
      tokens := tokens[supply.tokenId := AccessToken(None)];
      if !supply.drawn {
        return Err(ServerError);
      }
      refresh := refresh[supply.refreshHash := Refresh(clientId, supply.tokenId, supply.expiresAt, None)];
      return Ok((supply.tokenId, supply.refreshHash));
    }

    method TokenAuthorizationCode(req: CodeRequest, now: int, supply: Supply) returns (r: Result<(string, string),
        Error>)
      modifies this
      ensures Contents() == CodeGrant(digest, old(Contents()), req, now, supply)
      ensures r.Ok? <==>
        CodeRefused(old(codes), req.raw, now).None? && CodeMatches(digest, old(codes)[req.raw], req)
          && supply.resolved && supply.drawn
    {
      var consumed := ConsumeAuthorizationCode(req.raw, now);
      if consumed.Err? {
        return Err(consumed.error);
      }
      var code := consumed.value;
      if code.clientId != req.clientId {
        return Err(ClientMismatch);
      }
      if code.redirectUri != req.redirectUri {
        return Err(RedirectMismatch);
      }
      if !VerifyPkce(digest, req.verifier, code.challenge) {
        return Err(PkceFailed);
      }
      r := MintTokens(req.clientId, supply);
    }

    method TokenRefresh(hash: string, clientId: string, now: int, supply: Supply) returns (r: Result<(string, string),
        Error>)
      modifies this
      ensures Contents() == RefreshGrant(old(Contents()), hash, clientId, now, supply)
      ensures r.Ok? <==>
        && RefreshRefused(old(refresh), hash, now).None?
        && (clientId == "" || old(refresh)[hash].clientId == clientId)
        && supply.resolved && supply.drawn
    {
      var consumed := ConsumeRefreshToken(hash, now);
      if consumed.Err? {
        return Err(consumed.error);
      }
      var existing := consumed.value;
      if clientId != "" && existing.clientId != clientId {
        return Err(ClientMismatch);
      }
      if existing.accessTokenId in tokens {
        tokens := tokens[existing.accessTokenId := AccessToken(Some(now))];
      }
      r := MintTokens(existing.clientId, supply);
    }
  }
}
