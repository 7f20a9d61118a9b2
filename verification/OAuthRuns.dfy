/** The token endpoint with requests in flight: each store operation is a step, and
    the steps of different requests interleave. A family is everything that descends
    from one authorization code. */
module OAuthRuns {
  import opened Wrappers
  import opened OAuth

  /** Holding: the refresh token is consumed, its access token not yet revoked.
      Clear: ready to mint. Created: the access token exists, its refresh token does not. */
  datatype Stage = Holding(tokenId: string) | Clear | Created(tokenId: string)

  /** direct is the request that redeemed the code, for a request that did so itself. */
  datatype Request = Request(family: string, clientId: string, direct: Option<CodeRequest>, stage: Stage)

  /** An access token minted for a family, directly from the code or on a refresh. */
  datatype Mint = Mint(family: string, tokenId: string, direct: Option<CodeRequest>)

  /** The tables and the requests in flight; the rest is history: the family of every
      refresh and access token, and all mints. */
  datatype System = System(
    t: Tables, requests: map<nat, Request>,
    refreshFamily: map<string, string>, tokenFamily: map<string, string>, mints: seq<Mint>)

  const Start := System(Tables(map[], map[], map[]), map[], map[], map[], [])

  datatype Step =
    | Issue(code: string, value: Code)
    | Redeem(id: nat, req: CodeRequest, now: int)
    | Rotate(id: nat, hash: string, clientId: string, now: int)
    | RevokeOld(id: nat, now: int)
    | CreateToken(id: nat, tokenId: string)
    | SaveRefresh(id: nat, hash: string, expiresAt: int)
    | Fail(id: nat)
    | Withdraw(tokenId: string, now: int)

  /** Codes, token ids and refresh tokens are drawn at random: drawing an old one again
      is excluded. */
  predicate Enabled(s: System, step: Step) {
    match step
    case Issue(code, value) => code !in s.t.codes && value.usedAt.None?
    case Redeem(id, _, _) => id !in s.requests
    case Rotate(id, _, _, _) => id !in s.requests
    case RevokeOld(id, _) => id in s.requests && s.requests[id].stage.Holding?
    case CreateToken(id, tokenId) => id in s.requests && s.requests[id].stage.Clear? && tokenId !in s.t.tokens
      && tokenId !in s.tokenFamily
    case SaveRefresh(id, hash, _) => id in s.requests && s.requests[id].stage.Created? && hash !in s.t.refresh
    case Fail(id) => id in s.requests
    case Withdraw(tokenId, _) => tokenId in s.t.tokens
  }

  function DoRedeem(digest: string -> string, s: System, id: nat, req: CodeRequest, now: int): System {
    if CodeRefused(s.t.codes, req.raw, now).Some? then s
    else
      var used := s.(t := UseCode(s.t, req.raw, now));
      if CodeMatches(digest, s.t.codes[req.raw], req)
      then used.(requests := s.requests[id := Request(req.raw, req.clientId, Some(req), Clear)])
      else used
  }

  function DoRotate(s: System, id: nat, hash: string, clientId: string, now: int): System {
    if RefreshRefused(s.t.refresh, hash, now).Some? || hash !in s.refreshFamily then s
    else
      var existing := s.t.refresh[hash];
      var used := s.(t := UseRefresh(s.t, hash, now));
      if clientId != "" && existing.clientId != clientId then used
      else used.(requests := s.requests[id := Request(s.refreshFamily[hash], existing.clientId, None,
        Holding(existing.accessTokenId))])
  }

  function DoRevokeOld(s: System, id: nat, now: int): System
    requires id in s.requests && s.requests[id].stage.Holding?
  {
    s.(t := RevokeToken(s.t, s.requests[id].stage.tokenId, now),
      requests := s.requests[id := s.requests[id].(stage := Clear)])
  }

  function DoCreateToken(s: System, id: nat, tokenId: string): System
    requires id in s.requests
  {
    var r := s.requests[id];
    s.(t := AddToken(s.t, tokenId),
       requests := s.requests[id := r.(stage := Created(tokenId))],
       tokenFamily := s.tokenFamily[tokenId := r.family],
       mints := s.mints + [Mint(r.family, tokenId, r.direct)])
  }

  function DoSaveRefresh(s: System, id: nat, hash: string, expiresAt: int): System
    requires id in s.requests && s.requests[id].stage.Created?
  {
    var r := s.requests[id];
    s.(t := AddRefresh(s.t, hash, Refresh(r.clientId, r.stage.tokenId, expiresAt, None)),
       requests := s.requests - {id},
       refreshFamily := s.refreshFamily[hash := r.family])
  }

  function Apply(digest: string -> string, s: System, step: Step): System
    requires Enabled(s, step)
  {
    match step
    case Issue(code, value) => s.(t := s.t.(codes := s.t.codes[code := value]))
    case Redeem(id, req, now) => DoRedeem(digest, s, id, req, now)
    case Rotate(id, hash, clientId, now) => DoRotate(s, id, hash, clientId, now)
    case RevokeOld(id, now) => DoRevokeOld(s, id, now)
    case CreateToken(id, tokenId) => DoCreateToken(s, id, tokenId)
    case SaveRefresh(id, hash, expiresAt) => DoSaveRefresh(s, id, hash, expiresAt)
    case Fail(id) => s.(requests := s.requests - {id})
    case Withdraw(tokenId, now) => s.(t := RevokeToken(s.t, tokenId, now))
  }

  predicate CanRun(digest: string -> string, s: System, steps: seq<Step>)
    decreases |steps|
  {
    steps == [] || (Enabled(s, steps[0]) && CanRun(digest, Apply(digest, s, steps[0]), steps[1..]))
  }

  function Run(digest: string -> string, s: System, steps: seq<Step>): System
    requires CanRun(digest, s, steps)
    decreases |steps|
  {
    if steps == [] then s else Run(digest, Apply(digest, s, steps[0]), steps[1..])
  }

  // ---- What every step keeps ------------------------------------------------------------------------

  predicate Unused(s: System, f: string) { f in s.t.codes && s.t.codes[f].usedAt.None? }

  predicate Busy(s: System, id: nat, f: string) { id in s.requests && s.requests[id].family == f }

  /** An unrevoked refresh token of the family. */
  predicate Held(s: System, h: string, f: string) {
    h in s.t.refresh && h in s.refreshFamily && s.refreshFamily[h] == f && s.t.refresh[h].revokedAt.None?
  }

  /** An unrevoked access token of the family. */
  predicate Active(s: System, t: string, f: string) {
    t in s.t.tokens && t in s.tokenFamily && s.tokenFamily[t] == f && s.t.tokens[t].revokedAt.None?
  }

  /** The access token a request still answers for. */
  function Carried(stage: Stage): Option<string> {
    match stage
    case Holding(t) => Some(t)
    case Clear => None
    case Created(t) => Some(t)
  }

  ghost predicate Known(s: System) {
    && s.refreshFamily.Keys == s.t.refresh.Keys
    && s.tokenFamily.Keys <= s.t.tokens.Keys
    && (forall h | h in s.refreshFamily :: s.refreshFamily[h] in s.t.codes)
    && (forall t | t in s.tokenFamily :: s.tokenFamily[t] in s.t.codes)
    && (forall id | id in s.requests :: s.requests[id].family in s.t.codes)
  }

  /** A family is in one pair of hands: its unused code, one request or one refresh token. */
  ghost predicate OneHolder(s: System) {
    && (forall a, b, f | Busy(s, a, f) && Busy(s, b, f) :: a == b)
    && (forall a, b, f | Held(s, a, f) && Held(s, b, f) :: a == b)
    && (forall id, h, f | Busy(s, id, f) && Held(s, h, f) :: false)
    && (forall id, f | Busy(s, id, f) :: !Unused(s, f))
    && (forall h, f | Held(s, h, f) :: !Unused(s, f))
  }

  /** The holder, if there is one, names the only active access token. */
  ghost predicate OneActive(s: System) {
    && (forall a, b, f | Active(s, a, f) && Active(s, b, f) :: a == b)
    && (forall t, id, f | Active(s, t, f) && Busy(s, id, f) :: Carried(s.requests[id].stage) == Some(t))
    && (forall t, h, f | Active(s, t, f) && Held(s, h, f) :: s.t.refresh[h].accessTokenId == t)
    && (forall t, f | Active(s, t, f) :: !Unused(s, f))
  }

  /** Refresh tokens and requests belong to the client the code was issued to. */
  ghost predicate SameClient(s: System) {
    && (forall h | h in s.refreshFamily && h in s.t.refresh && s.refreshFamily[h] in s.t.codes ::
          s.t.refresh[h].clientId == s.t.codes[s.refreshFamily[h]].clientId)
    && (forall id | id in s.requests && s.requests[id].family in s.t.codes ::
          s.requests[id].clientId == s.t.codes[s.requests[id].family].clientId)
  }

  /** The request redeemed the code as it was issued. */
  predicate Earned(digest: string -> string, s: System, f: string, req: CodeRequest) {
    f in s.t.codes && s.t.codes[f].usedAt.Some? && req.raw == f && CodeMatches(digest, s.t.codes[f], req)
  }

  ghost predicate DirectOk(digest: string -> string, s: System) {
    && (forall id | id in s.requests && s.requests[id].direct.Some? :: !s.requests[id].stage.Holding?)
    && (forall id | id in s.requests && s.requests[id].direct.Some? :: Earned(digest, s, s.requests[id].family,
      s.requests[id].direct.value))
    && (forall i | 0 <= i < |s.mints| && s.mints[i].direct.Some? :: Earned(digest, s, s.mints[i].family,
      s.mints[i].direct.value))
  }

  ghost predicate MintsOk(s: System) {
    && (forall i, j | 0 <= i < j < |s.mints| && s.mints[i].direct.Some? && s.mints[j].direct.Some? ::
      s.mints[i].family != s.mints[j].family)
    && (forall i, id | 0 <= i < |s.mints| && id in s.requests && s.mints[i].direct.Some?
      && s.requests[id].direct.Some? && s.requests[id].stage.Clear? ::
          s.mints[i].family != s.requests[id].family)
  }

  ghost predicate Inv(digest: string -> string, s: System) {
    Known(s) && OneHolder(s) && OneActive(s) && SameClient(s) && DirectOk(digest, s) && MintsOk(s)
  }

  // How the four kinds of holding in a new state come from those of the old one.

  ghost predicate BusyFrom(s: System, s': System) {
    forall id, f | Busy(s', id, f) :: Busy(s, id, f) && s'.requests[id].stage == s.requests[id].stage
  }

  ghost predicate HeldFrom(s: System, s': System) {
    forall h, f | Held(s', h, f) :: Held(s, h, f) && s'.t.refresh[h].accessTokenId == s.t.refresh[h].accessTokenId
  }

  ghost predicate ActiveFrom(s: System, s': System) {
    forall t, f | Active(s', t, f) :: Active(s, t, f)
  }

  ghost predicate UnusedFrom(s: System, s': System) {
    forall f | Unused(s', f) :: Unused(s, f)
  }

  /** Less held in every way: nothing to prove about who holds what. */
  lemma LessHeld(s: System, s': System)
    requires OneHolder(s) && OneActive(s)
    requires BusyFrom(s, s') && HeldFrom(s, s') && ActiveFrom(s, s') && UnusedFrom(s, s')
    ensures OneHolder(s') && OneActive(s')
  {
  }

  lemma IssueKeeps(digest: string -> string, s: System, code: string, value: Code)
    requires Inv(digest, s) && Enabled(s, Issue(code, value))
    ensures Inv(digest, Apply(digest, s, Issue(code, value)))
  {
    var s' := Apply(digest, s, Issue(code, value));
    assert BusyFrom(s, s') && HeldFrom(s, s') && ActiveFrom(s, s');
    assert forall f | Unused(s', f) :: Unused(s, f) || f == code;
  }

  /** A new request takes over a family nobody else holds any more. */
  ghost predicate TakeFrom(s: System, s': System, id: nat, family: string) {
    && HeldFrom(s, s') && ActiveFrom(s, s') && UnusedFrom(s, s')
    && id !in s.requests && id in s'.requests && s'.requests[id].family == family
    && (forall a, f | Busy(s', a, f) ::
      (Busy(s, a, f) && s'.requests[a].stage == s.requests[a].stage) || (a == id && f == family))
    && (forall a :: !Busy(s, a, family))
    && (forall h :: !Held(s', h, family))
    && !Unused(s', family)
    && (forall t | Active(s, t, family) :: Carried(s'.requests[id].stage) == Some(t))
  }

  lemma TakeHolds(s: System, s': System, id: nat, family: string)
    requires OneHolder(s) && OneActive(s) && TakeFrom(s, s', id, family)
    ensures OneHolder(s') && OneActive(s')
  {
  }

  lemma RedeemHolds(digest: string -> string, s: System, id: nat, req: CodeRequest, now: int)
    requires Known(s) && OneHolder(s) && OneActive(s) && id !in s.requests
    ensures OneHolder(DoRedeem(digest, s, id, req, now)) && OneActive(DoRedeem(digest, s, id, req, now))
  {
    var s' := DoRedeem(digest, s, id, req, now);
    if id !in s'.requests {
      assert BusyFrom(s, s') && HeldFrom(s, s') && ActiveFrom(s, s') && UnusedFrom(s, s');
      LessHeld(s, s');
    } else {
      RedeemTakes(digest, s, id, req, now);
      TakeHolds(s, s', id, req.raw);
    }
  }

  lemma RedeemTakes(digest: string -> string, s: System, id: nat, req: CodeRequest, now: int)
    requires OneHolder(s) && OneActive(s) && id !in s.requests && id in DoRedeem(digest, s, id, req, now).requests
    ensures TakeFrom(s, DoRedeem(digest, s, id, req, now), id, req.raw)
  {
    var s' := DoRedeem(digest, s, id, req, now);
    assert HeldFrom(s, s') && ActiveFrom(s, s');
    assert Unused(s, req.raw) && forall h :: !Held(s, h, req.raw);
  }

  lemma RedeemKnown(digest: string -> string, s: System, id: nat, req: CodeRequest, now: int)
    requires Known(s) && id !in s.requests
    ensures Known(DoRedeem(digest, s, id, req, now))
  {
  }

  lemma RedeemClient(digest: string -> string, s: System, id: nat, req: CodeRequest, now: int)
    requires Known(s) && SameClient(s) && id !in s.requests
    ensures SameClient(DoRedeem(digest, s, id, req, now))
  {
  }

  lemma RedeemKeepsEarned(digest: string -> string, s: System, id: nat, req: CodeRequest, now: int, f: string,
      r: CodeRequest)
    requires Earned(digest, s, f, r)
    ensures Earned(digest, DoRedeem(digest, s, id, req, now), f, r)
  {
  }

  lemma RedeemDirect(digest: string -> string, s: System, id: nat, req: CodeRequest, now: int)
    requires DirectOk(digest, s) && id !in s.requests
    ensures DirectOk(digest, DoRedeem(digest, s, id, req, now))
  {
    var s' := DoRedeem(digest, s, id, req, now);
    forall a | a in s'.requests && s'.requests[a].direct.Some?
      ensures Earned(digest, s', s'.requests[a].family, s'.requests[a].direct.value)
    {
      if a in s.requests {
        RedeemKeepsEarned(digest, s, id, req, now, s.requests[a].family, s.requests[a].direct.value);
      }
    }
    forall i | 0 <= i < |s.mints| && s.mints[i].direct.Some?
      ensures Earned(digest, s', s.mints[i].family, s.mints[i].direct.value)
    {
      RedeemKeepsEarned(digest, s, id, req, now, s.mints[i].family, s.mints[i].direct.value);
    }
  }

  lemma RedeemMints(digest: string -> string, s: System, id: nat, req: CodeRequest, now: int)
    requires DirectOk(digest, s) && MintsOk(s) && id !in s.requests
    ensures DirectOk(digest, DoRedeem(digest, s, id, req, now)) && MintsOk(DoRedeem(digest, s, id, req, now))
  {
    RedeemDirect(digest, s, id, req, now);
    var s' := DoRedeem(digest, s, id, req, now);
    assert forall i | 0 <= i < |s.mints| && s.mints[i].direct.Some? :: Earned(digest, s, s.mints[i].family,
      s.mints[i].direct.value);
    assert id in s'.requests ==> s.t.codes[req.raw].usedAt.None? && s'.requests[id].family == req.raw;
  }

  lemma RedeemKeeps(digest: string -> string, s: System, id: nat, req: CodeRequest, now: int)
    requires Inv(digest, s) && id !in s.requests
    ensures Inv(digest, DoRedeem(digest, s, id, req, now))
  {
    RedeemKnown(digest, s, id, req, now);
    RedeemClient(digest, s, id, req, now);
    RedeemMints(digest, s, id, req, now);
    RedeemHolds(digest, s, id, req, now);
  }

  lemma RotateHolds(s: System, id: nat, hash: string, clientId: string, now: int)
    requires Known(s) && OneHolder(s) && OneActive(s) && id !in s.requests
    ensures OneHolder(DoRotate(s, id, hash, clientId, now)) && OneActive(DoRotate(s, id, hash, clientId, now))
  {
    var s' := DoRotate(s, id, hash, clientId, now);
    if id !in s'.requests {
      assert BusyFrom(s, s') && HeldFrom(s, s') && ActiveFrom(s, s') && UnusedFrom(s, s');
      LessHeld(s, s');
    } else {
      RotateTakes(s, id, hash, clientId, now);
      TakeHolds(s, s', id, s.refreshFamily[hash]);
    }
  }

  lemma RotateTakes(s: System, id: nat, hash: string, clientId: string, now: int)
    requires OneHolder(s) && OneActive(s) && id !in s.requests && id in DoRotate(s, id, hash, clientId, now).requests
    ensures hash in s.refreshFamily && TakeFrom(s, DoRotate(s, id, hash, clientId, now), id, s.refreshFamily[hash])
  {
    var s' := DoRotate(s, id, hash, clientId, now);
    assert HeldFrom(s, s') && ActiveFrom(s, s');
    assert Held(s, hash, s.refreshFamily[hash]) && !Held(s', hash, s.refreshFamily[hash]);
  }

  lemma RotateKnown(s: System, id: nat, hash: string, clientId: string, now: int)
    requires Known(s) && id !in s.requests
    ensures Known(DoRotate(s, id, hash, clientId, now))
  {
  }

  lemma RotateClient(s: System, id: nat, hash: string, clientId: string, now: int)
    requires Known(s) && SameClient(s) && id !in s.requests
    ensures SameClient(DoRotate(s, id, hash, clientId, now))
  {
  }

  lemma RotateMints(digest: string -> string, s: System, id: nat, hash: string, clientId: string, now: int)
    requires Known(s) && OneHolder(s) && DirectOk(digest, s) && MintsOk(s) && id !in s.requests
    ensures DirectOk(digest, DoRotate(s, id, hash, clientId, now)) && MintsOk(DoRotate(s, id, hash, clientId, now))
  {
  }

  lemma RotateKeeps(digest: string -> string, s: System, id: nat, hash: string, clientId: string, now: int)
    requires Inv(digest, s) && id !in s.requests
    ensures Inv(digest, DoRotate(s, id, hash, clientId, now))
  {
    RotateKnown(s, id, hash, clientId, now);
    RotateClient(s, id, hash, clientId, now);
    RotateMints(digest, s, id, hash, clientId, now);
    RotateHolds(s, id, hash, clientId, now);
  }

  lemma RevokeOldHolds(s: System, id: nat, now: int)
    requires Known(s) && OneHolder(s) && OneActive(s) && Enabled(s, RevokeOld(id, now))
    ensures OneHolder(DoRevokeOld(s, id, now)) && OneActive(DoRevokeOld(s, id, now))
  {
    var s' := DoRevokeOld(s, id, now);
    assert HeldFrom(s, s') && ActiveFrom(s, s') && UnusedFrom(s, s');
    assert forall a, f | Busy(s', a, f) :: Busy(s, a, f) && (a != id ==> s'.requests[a].stage == s.requests[a].stage);
    var family := s.requests[id].family;
    assert Busy(s, id, family);
    assert forall t | Active(s', t, family) :: Active(s, t, family) && t != s.requests[id].stage.tokenId;
  }

  lemma RevokeOldKeeps(digest: string -> string, s: System, id: nat, now: int)
    requires Inv(digest, s) && Enabled(s, RevokeOld(id, now))
    ensures Inv(digest, DoRevokeOld(s, id, now))
  {
    RevokeOldHolds(s, id, now);
  }

  /** Where requests and active tokens come from when a request mints one. */
  ghost predicate MintFrom(s: System, s': System, id: nat, tokenId: string) {
    && HeldFrom(s, s') && UnusedFrom(s, s')
    && id in s.requests && id in s'.requests && s'.requests[id].stage == Created(tokenId)
    && (forall a, f | Busy(s', a, f) :: Busy(s, a, f) && (a != id ==> s'.requests[a].stage == s.requests[a].stage))
    && (forall t, f | Active(s', t, f) :: Active(s, t, f) || (t == tokenId && f == s.requests[id].family))
  }

  lemma CreateTokenFrom(s: System, id: nat, tokenId: string)
    requires Known(s) && Enabled(s, CreateToken(id, tokenId))
    ensures MintFrom(s, DoCreateToken(s, id, tokenId), id, tokenId)
  {
  }

  lemma MintHolder(s: System, s': System, id: nat, tokenId: string)
    requires OneHolder(s) && MintFrom(s, s', id, tokenId)
    ensures OneHolder(s')
  {
  }

  lemma MintActive(s: System, s': System, id: nat, tokenId: string)
    requires OneHolder(s) && OneActive(s) && MintFrom(s, s', id, tokenId) && s.requests[id].stage.Clear?
    ensures OneActive(s')
  {
    assert Busy(s, id, s.requests[id].family);
  }

  lemma CreateTokenRecords(digest: string -> string, s: System, id: nat, tokenId: string)
    requires Known(s) && SameClient(s) && DirectOk(digest, s) && MintsOk(s) && Enabled(s, CreateToken(id, tokenId))
    ensures Known(DoCreateToken(s, id, tokenId)) && SameClient(DoCreateToken(s, id, tokenId))
  {
  }

  lemma CreateTokenDirect(digest: string -> string, s: System, id: nat, tokenId: string)
    requires DirectOk(digest, s) && Enabled(s, CreateToken(id, tokenId))
    ensures DirectOk(digest, DoCreateToken(s, id, tokenId))
  {
    var s' := DoCreateToken(s, id, tokenId);
    assert forall f, r :: Earned(digest, s', f, r) == Earned(digest, s, f, r);
  }

  lemma CreateTokenMints(s: System, id: nat, tokenId: string)
    requires OneHolder(s) && MintsOk(s) && Enabled(s, CreateToken(id, tokenId))
    ensures MintsOk(DoCreateToken(s, id, tokenId))
  {
    assert forall a | a in s.requests :: Busy(s, a, s.requests[a].family);
  }

  lemma CreateTokenKeeps(digest: string -> string, s: System, id: nat, tokenId: string)
    requires Inv(digest, s) && Enabled(s, CreateToken(id, tokenId))
    ensures Inv(digest, DoCreateToken(s, id, tokenId))
  {
    CreateTokenRecords(digest, s, id, tokenId);
    CreateTokenDirect(digest, s, id, tokenId);
    CreateTokenMints(s, id, tokenId);
    var s' := DoCreateToken(s, id, tokenId);
    CreateTokenFrom(s, id, tokenId);
    MintHolder(s, s', id, tokenId);
    MintActive(s, s', id, tokenId);
  }

  /** Where requests and refresh tokens come from when a request ends by saving one. */
  ghost predicate SaveFrom(s: System, s': System, id: nat, hash: string) {
    && ActiveFrom(s, s') && UnusedFrom(s, s')
    && id in s.requests && s.requests[id].stage.Created?
    && (forall a, f | Busy(s', a, f) :: Busy(s, a, f) && a != id && s'.requests[a].stage == s.requests[a].stage)
    && (forall h, f | Held(s', h, f) ::
          || (Held(s, h, f) && s'.t.refresh[h].accessTokenId == s.t.refresh[h].accessTokenId)
          || (h == hash && f == s.requests[id].family && s'.t.refresh[h].accessTokenId == s.requests[id].stage.tokenId))
  }

  lemma SaveRefreshFrom(s: System, id: nat, hash: string, expiresAt: int)
    requires Known(s) && Enabled(s, SaveRefresh(id, hash, expiresAt))
    ensures SaveFrom(s, DoSaveRefresh(s, id, hash, expiresAt), id, hash)
  {
  }

  lemma SaveHolder(s: System, s': System, id: nat, hash: string)
    requires OneHolder(s) && SaveFrom(s, s', id, hash)
    ensures OneHolder(s')
  {
    assert Busy(s, id, s.requests[id].family);
  }

  lemma SaveActive(s: System, s': System, id: nat, hash: string)
    requires OneHolder(s) && OneActive(s) && SaveFrom(s, s', id, hash)
    ensures OneActive(s')
  {
    assert Busy(s, id, s.requests[id].family);
  }

  lemma SaveRefreshKeeps(digest: string -> string, s: System, id: nat, hash: string, expiresAt: int)
    requires Inv(digest, s) && Enabled(s, SaveRefresh(id, hash, expiresAt))
    ensures Inv(digest, DoSaveRefresh(s, id, hash, expiresAt))
  {
    var s' := DoSaveRefresh(s, id, hash, expiresAt);
    SaveRefreshFrom(s, id, hash, expiresAt);
    SaveHolder(s, s', id, hash);
    SaveActive(s, s', id, hash);
  }

  lemma FailKeeps(digest: string -> string, s: System, id: nat)
    requires Inv(digest, s) && id in s.requests
    ensures Inv(digest, s.(requests := s.requests - {id}))
  {
    var s' := s.(requests := s.requests - {id});
    assert BusyFrom(s, s') && HeldFrom(s, s') && ActiveFrom(s, s') && UnusedFrom(s, s');
    LessHeld(s, s');
  }

  lemma WithdrawKeeps(digest: string -> string, s: System, tokenId: string, now: int)
    requires Inv(digest, s) && tokenId in s.t.tokens
    ensures Inv(digest, s.(t := RevokeToken(s.t, tokenId, now)))
  {
    var s' := s.(t := RevokeToken(s.t, tokenId, now));
    assert BusyFrom(s, s') && HeldFrom(s, s') && ActiveFrom(s, s') && UnusedFrom(s, s');
    LessHeld(s, s');
  }

  lemma StepKeeps(digest: string -> string, s: System, step: Step)
    requires Inv(digest, s) && Enabled(s, step)
    ensures Inv(digest, Apply(digest, s, step))
  {
    match step
    case Issue(code, value) => IssueKeeps(digest, s, code, value);
    case Redeem(id, req, now) => RedeemKeeps(digest, s, id, req, now);
    case Rotate(id, hash, clientId, now) => RotateKeeps(digest, s, id, hash, clientId, now);
    case RevokeOld(id, now) => RevokeOldKeeps(digest, s, id, now);
    case CreateToken(id, tokenId) => CreateTokenKeeps(digest, s, id, tokenId);
    case SaveRefresh(id, hash, expiresAt) => SaveRefreshKeeps(digest, s, id, hash, expiresAt);
    case Fail(id) => FailKeeps(digest, s, id);
    case Withdraw(tokenId, now) => WithdrawKeeps(digest, s, tokenId, now);
  }

  lemma {:induction false} RunKeeps(digest: string -> string, s: System, steps: seq<Step>)
    requires Inv(digest, s) && CanRun(digest, s, steps)
    ensures Inv(digest, Run(digest, s, steps))
    decreases |steps|
  {
    if steps != [] {
      StepKeeps(digest, s, steps[0]);
      RunKeeps(digest, Apply(digest, s, steps[0]), steps[1..]);
    }
  }

  // ---- Over every run -------------------------------------------------------------------------------

  /** In every reachable state each family has at most one live refresh token and at
      most one unrevoked access token, and the refresh token is the one saved with it. */
  lemma OneLivePair(digest: string -> string, steps: seq<Step>, f: string)
    requires CanRun(digest, Start, steps)
    ensures var s := Run(digest, Start, steps);
            && (forall a, b | Held(s, a, f) && Held(s, b, f) :: a == b)
            && (forall a, b | Active(s, a, f) && Active(s, b, f) :: a == b)
            && (forall h, t | Held(s, h, f) && Active(s, t, f) :: s.t.refresh[h].accessTokenId == t)
  {
    RunKeeps(digest, Start, steps);
  }

  /** Each code is minted from directly at most once, by a request that gave the code
      with the client, redirect and verifier it was issued for. */
  lemma OneDirectMint(digest: string -> string, steps: seq<Step>)
    requires CanRun(digest, Start, steps)
    ensures var s := Run(digest, Start, steps);
            && (forall i, j | 0 <= i < j < |s.mints| && s.mints[i].direct.Some? && s.mints[j].direct.Some? ::
              s.mints[i].family != s.mints[j].family)
            && (forall i | 0 <= i < |s.mints| && s.mints[i].direct.Some? :: Earned(digest, s, s.mints[i].family,
              s.mints[i].direct.value))
  {
    RunKeeps(digest, Start, steps);
  }

  /** Every refresh token in circulation belongs to the client its code was issued to. */
  lemma ClientsStay(digest: string -> string, steps: seq<Step>, h: string)
    requires CanRun(digest, Start, steps) && h in Run(digest, Start, steps).t.refresh
    ensures var s := Run(digest, Start, steps);
            && h in s.refreshFamily && s.refreshFamily[h] in s.t.codes
            && s.t.refresh[h].clientId == s.t.codes[s.refreshFamily[h]].clientId
  {
    RunKeeps(digest, Start, steps);
  }

  /** What one state has spent, a later one has too. */
  ghost predicate SpentIn(s: System, s': System) {
    && (forall c | c in s.t.codes && s.t.codes[c].usedAt.Some? :: c in s'.t.codes && s'.t.codes[c] == s.t.codes[c])
    && (forall h | h in s.t.refresh && s.t.refresh[h].revokedAt.Some? ::
      h in s'.t.refresh && s'.t.refresh[h] == s.t.refresh[h])
  }

  lemma {:induction false} RunSpends(digest: string -> string, s: System, steps: seq<Step>)
    requires CanRun(digest, s, steps)
    ensures SpentIn(s, Run(digest, s, steps))
    decreases |steps|
  {
    if steps != [] {
      assert SpentIn(s, Apply(digest, s, steps[0]));
      RunSpends(digest, Apply(digest, s, steps[0]), steps[1..]);
    }
  }

  /** A code or refresh token once consumed is refused at every later time, after any
      further steps. */
  lemma SpentStaysSpent(digest: string -> string, s: System, steps: seq<Step>, now: int)
    requires CanRun(digest, s, steps)
    ensures forall c | c in s.t.codes && s.t.codes[c].usedAt.Some? ::
      CodeRefused(Run(digest, s, steps).t.codes, c, now) == Some(Used)
    ensures forall h | h in s.t.refresh && s.t.refresh[h].revokedAt.Some? ::
      RefreshRefused(Run(digest, s, steps).t.refresh, h, now) == Some(Revoked)
  {
    RunSpends(digest, s, steps);
  }

  // ---- The handlers are runs ------------------------------------------------------------------------

  lemma RunCons(digest: string -> string, s: System, step: Step, rest: seq<Step>)
    requires Enabled(s, step) && CanRun(digest, Apply(digest, s, step), rest)
    ensures CanRun(digest, s, [step] + rest)
    ensures Run(digest, s, [step] + rest) == Run(digest, Apply(digest, s, step), rest)
  {
    assert ([step] + rest)[1..] == rest;
  }

  function MintSteps(id: nat, supply: Supply): seq<Step> {
    if !supply.resolved then [Fail(id)]
    else [CreateToken(id, supply.tokenId)] + (if supply.drawn then [SaveRefresh(id, supply.refreshHash,
      supply.expiresAt)] else [Fail(id)])
  }

  function CodeSteps(digest: string -> string, t: Tables, id: nat, req: CodeRequest, now: int,
      supply: Supply): seq<Step> {
    [Redeem(id, req, now)] +
    if CodeRefused(t.codes, req.raw, now).None? && CodeMatches(digest, t.codes[req.raw], req) then
      MintSteps(id, supply) else []
  }

  function RefreshSteps(t: Tables, id: nat, hash: string, clientId: string, now: int, supply: Supply): seq<Step> {
    [Rotate(id, hash, clientId, now)] +
    if RefreshRefused(t.refresh, hash, now).None? && (clientId == "" || t.refresh[hash].clientId == clientId)
    then [RevokeOld(id, now)] + MintSteps(id, supply) else []
  }

  predicate Fresh(s: System, supply: Supply) {
    supply.tokenId !in s.t.tokens && supply.tokenId !in s.tokenFamily && supply.refreshHash !in s.t.refresh
  }

  lemma MintIsRun(digest: string -> string, s: System, id: nat, supply: Supply)
    requires id in s.requests && s.requests[id].stage.Clear? && Fresh(s, supply)
    ensures CanRun(digest, s, MintSteps(id, supply))
    ensures var s' := Run(digest, s, MintSteps(id, supply));
            s'.t == Minted(s.t, s.requests[id].clientId, supply) && s'.requests == s.requests - {id}
  {
    if !supply.resolved {
      RunCons(digest, s, Fail(id), []);
    } else {
      var created := DoCreateToken(s, id, supply.tokenId);
      var last := if supply.drawn then SaveRefresh(id, supply.refreshHash, supply.expiresAt) else Fail(id);
      assert Enabled(created, last);
      RunCons(digest, created, last, []);
      RunCons(digest, s, CreateToken(id, supply.tokenId), [last]);
      assert created.requests - {id} == s.requests - {id};
    }
  }

  /** Redeeming a code in one go is a run of the steps above, with the effect the
      handler promises. */
  lemma CodeGrantIsRun(digest: string -> string, s: System, id: nat, req: CodeRequest, now: int, supply: Supply)
    requires id !in s.requests && Fresh(s, supply)
    ensures CanRun(digest, s, CodeSteps(digest, s.t, id, req, now, supply))
    ensures var s' := Run(digest, s, CodeSteps(digest, s.t, id, req, now, supply));
            s'.t == CodeGrant(digest, s.t, req, now, supply) && s'.requests == s.requests
  {
    var mid := DoRedeem(digest, s, id, req, now);
    if id in mid.requests {
      MintIsRun(digest, mid, id, supply);
      assert mid.requests - {id} == s.requests;
      RunCons(digest, s, Redeem(id, req, now), MintSteps(id, supply));
    } else {
      RunCons(digest, s, Redeem(id, req, now), []);
    }
  }

  lemma RefreshGrantIsRun(digest: string -> string, s: System, id: nat, hash: string, clientId: string, now: int,
      supply: Supply)
    requires Known(s) && id !in s.requests && Fresh(s, supply)
    ensures CanRun(digest, s, RefreshSteps(s.t, id, hash, clientId, now, supply))
    ensures var s' := Run(digest, s, RefreshSteps(s.t, id, hash, clientId, now, supply));
            s'.t == RefreshGrant(s.t, hash, clientId, now, supply) && s'.requests == s.requests
  {
    var rotated := DoRotate(s, id, hash, clientId, now);
    if id in rotated.requests {
      var cleared := DoRevokeOld(rotated, id, now);
      MintIsRun(digest, cleared, id, supply);
      assert cleared.requests - {id} == s.requests;
      RunCons(digest, rotated, RevokeOld(id, now), MintSteps(id, supply));
      RunCons(digest, s, Rotate(id, hash, clientId, now), [RevokeOld(id, now)] + MintSteps(id, supply));
    } else {
      RunCons(digest, s, Rotate(id, hash, clientId, now), []);
    }
  }
}
