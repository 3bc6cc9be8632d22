/** OAuth grants for conversation clients (conversation-oauth.js): consent issues a one-time
    code, a code buys an access and a refresh token, a refresh token buys the next pair and is
    spent by it, and presenting a spent refresh token revokes the grant.

    Secrets are fresh numbers and the tables are keyed by the secret itself: a hash is read as
    an injective name for it.  Each call is one locked transaction; `now` and the set of
    workspace owners are inputs. */
module ConversationOAuth {
  import opened Options

  type Secret = nat

  datatype Kind = Access | Refresh

  datatype Account = Account(userId: nat, workspaceId: string)

  datatype Grant = Grant(account: Account, clientId: string, scopes: seq<string>, revoked: bool)

  datatype Code = Code(grantId: nat, redirectUri: string, challenge: string, resource: string, expiresAt: int, used: bool)

  datatype Token = Token(grantId: nat, kind: Kind, resource: string, expiresAt: int, used: bool)

  /** `nextId` bounds every identifier and secret handed out so far. */
  datatype State = State(grants: map<nat, Grant>, codes: map<Secret, Code>, tokens: map<Secret, Token>, nextId: nat)

  datatype Config = Config(clients: map<string, set<string>>, resource: string)

  /** `challengeIsS256`: the response type, the method and the form of the challenge are right. */
  datatype AuthorizationRequest = AuthorizationRequest(
    clientId: string, redirectUri: string, challengeIsS256: bool, challenge: string,
    stateIsText: bool, scopes: seq<string>, resource: string)

  /** `verifierDigest` is the S256 digest of the presented verifier. */
  datatype TokenRequest =
    | Exchange(clientId: string, resource: string, code: Secret, redirectUri: string,
               verifierIsWellFormed: bool, verifierDigest: string)
    | Renew(clientId: string, resource: string, refreshToken: Secret, scope: string)
    | OtherGrantType(clientId: string, resource: string)

  datatype Reply =
    | Issued(code: Secret)
    | Minted(access: Secret, refresh: Secret, scopes: seq<string>)
    | Verified(grantId: nat, account: Account, scopes: seq<string>)
    | Done
    | Denied

  const SCOPES: set<string> :=
    {"dcc.read", "dcc.work", "dcc.correct", "dcc.complete", "dcc.delegate", "dcc.reconcile"}
  const CODE_SECONDS := 300
  const ACCESS_SECONDS := 3600
  const REFRESH_SECONDS := 30 * 86400

  function Joined(scopes: seq<string>): string {
    if scopes == [] then ""
    else if |scopes| == 1 then scopes[0]
    else scopes[0] + " " + Joined(scopes[1..])
  }

  /** `[...new Set(scopes)]`: the first occurrence of each scope, in order. */
  function Deduplicated(scopes: seq<string>): (r: seq<string>)
    ensures forall x :: x in r <==> x in scopes
    ensures forall i, j :: 0 <= i < j < |r| ==> r[i] != r[j]
  {
    if scopes == [] then []
    else
      var front := Deduplicated(scopes[..|scopes| - 1]);
      if scopes[|scopes| - 1] in front then front else front + [scopes[|scopes| - 1]]
  }

  predicate RequestIsValid(config: Config, r: AuthorizationRequest) {
    && r.clientId in config.clients && r.redirectUri in config.clients[r.clientId]
    && r.challengeIsS256
    && r.resource == config.resource
    && r.stateIsText
    && r.scopes != [] && forall x :: x in r.scopes ==> x in SCOPES
  }

  // ===== The transactions, as functions of the tables =====

  function WithGrant(s: State, grant: Grant, code: Code): State {
    s.(grants := s.grants[s.nextId := grant], codes := s.codes[s.nextId + 1 := code], nextId := s.nextId + 2)
  }

  function Consent(config: Config, s: State, r: AuthorizationRequest, account: Account, owners: set<Account>, now: int)
    : (State, Reply)
  {
    if !RequestIsValid(config, r) || account !in owners then (s, Denied)
    else
      (WithGrant(s, Grant(account, r.clientId, Deduplicated(r.scopes), false),
                 Code(s.nextId, r.redirectUri, r.challenge, config.resource, now + CODE_SECONDS, false)),
       Issued(s.nextId + 1))
  }

  function Mint(config: Config, s: State, grantId: nat, now: int): (State, Reply)
    requires grantId in s.grants
  {
    var access, refresh := s.nextId, s.nextId + 1;
    (s.(tokens := s.tokens[access := Token(grantId, Access, config.resource, now + ACCESS_SECONDS, false)]
                          [refresh := Token(grantId, Refresh, config.resource, now + REFRESH_SECONDS, false)],
        nextId := s.nextId + 2),
     Minted(access, refresh, s.grants[grantId].scopes))
  }

  function Revoked(s: State, grantId: nat): State
    requires grantId in s.grants
  {
    s.(grants := s.grants[grantId := s.grants[grantId].(revoked := true)])
  }

  function SpentCode(s: State, code: Secret): State
    requires code in s.codes
  {
    s.(codes := s.codes[code := s.codes[code].(used := true)])
  }

  function SpentToken(s: State, token: Secret): State
    requires token in s.tokens
  {
    s.(tokens := s.tokens[token := s.tokens[token].(used := true)])
  }

  /** When a code may be exchanged. */
  predicate CodeIsGood(s: State, r: TokenRequest, owners: set<Account>, now: int)
    requires r.Exchange?
  {
    && r.verifierIsWellFormed
    && r.code in s.codes && s.codes[r.code].grantId in s.grants
    && var c := s.codes[r.code];
       var g := s.grants[c.grantId];
       && !c.used && !g.revoked && now < c.expiresAt
       && g.clientId == r.clientId && c.redirectUri == r.redirectUri && c.resource == r.resource
       && c.challenge == r.verifierDigest
       && g.account in owners
  }

  predicate RefreshIsKnown(s: State, r: TokenRequest)
    requires r.Renew?
  {
    && r.refreshToken in s.tokens && s.tokens[r.refreshToken].kind.Refresh?
    && s.tokens[r.refreshToken].grantId in s.grants
  }

  /** A spent refresh token, presented by its own client for its own resource. */
  predicate IsReuse(s: State, r: TokenRequest)
    requires r.Renew?
  {
    && RefreshIsKnown(s, r)
    && s.tokens[r.refreshToken].used
    && s.grants[s.tokens[r.refreshToken].grantId].clientId == r.clientId
    && s.tokens[r.refreshToken].resource == r.resource
  }

  predicate RefreshIsGood(s: State, r: TokenRequest, owners: set<Account>, now: int)
    requires r.Renew?
  {
    && RefreshIsKnown(s, r) && !IsReuse(s, r)
    && var t := s.tokens[r.refreshToken];
       var g := s.grants[t.grantId];
       && !g.revoked && now < t.expiresAt && g.clientId == r.clientId && t.resource == r.resource
       && (r.scope == "" || r.scope == Joined(g.scopes))
       && g.account in owners
  }

  function Redeem(config: Config, s: State, r: TokenRequest, owners: set<Account>, now: int): (State, Reply) {
    if r.clientId !in config.clients || r.resource != config.resource then (s, Denied)
    else match r
      case Exchange(_, _, code, _, _, _) =>
        if !CodeIsGood(s, r, owners, now) then (s, Denied)
        else Mint(config, SpentCode(s, code), s.codes[code].grantId, now)
      case Renew(_, _, token, _) =>
        if IsReuse(s, r) then (Revoked(s, s.tokens[token].grantId), Denied)
        else if !RefreshIsGood(s, r, owners, now) then (s, Denied)
        else Mint(config, SpentToken(s, token), s.tokens[token].grantId, now)
      case OtherGrantType(_, _) => (s, Denied)
  }

  function Verify(config: Config, s: State, token: Secret, scope: Option<string>, owners: set<Account>, now: int): Reply {
    if token !in s.tokens || s.tokens[token].grantId !in s.grants then Denied
    else
      var t := s.tokens[token];
      var g := s.grants[t.grantId];
      if !t.kind.Access? || t.expiresAt <= now || t.used || g.revoked || g.account !in owners || t.resource != config.resource
      then Denied
      else if scope.Some? && scope.value != "" && scope.value !in g.scopes then Denied
      else Verified(t.grantId, g.account, g.scopes)
  }

  function Revoke(s: State, grantId: nat, account: Account, owners: set<Account>): (State, Reply) {
    if account !in owners then (s, Denied)
    else if grantId in s.grants && s.grants[grantId].account == account then (Revoked(s, grantId), Done)
    else (s, Done)
  }

  // ===== Runs =====

  datatype Call =
    | CallConsent(request: AuthorizationRequest, account: Account, owners: set<Account>, now: int)
    | CallToken(tokenRequest: TokenRequest, owners: set<Account>, now: int)
    | CallRevoke(grantId: nat, account: Account, owners: set<Account>)
    | CallVerify(token: Secret, scope: Option<string>, owners: set<Account>, now: int)

  function Step(config: Config, s: State, call: Call): (State, Reply) {
    match call
    case CallConsent(r, account, owners, now) => Consent(config, s, r, account, owners, now)
    case CallToken(r, owners, now) => Redeem(config, s, r, owners, now)
    case CallRevoke(id, account, owners) => Revoke(s, id, account, owners)
    case CallVerify(token, scope, owners, now) => (s, Verify(config, s, token, scope, owners, now))
  }

  function Run(config: Config, s: State, calls: seq<Call>): State
    decreases |calls|
  {
    if calls == [] then s else Run(config, Step(config, s, calls[0]).0, calls[1..])
  }

  const INITIAL := State(map[], map[], map[], 0)

  // ===== What every reachable state keeps =====

  datatype Credential = ByCode(code: Secret) | ByRefresh(token: Secret)

  /** A code or refresh token of the grant that has not been redeemed. */
  ghost predicate Unspent(s: State, grantId: nat, c: Credential) {
    match c
    case ByCode(h) => h in s.codes && s.codes[h].grantId == grantId && !s.codes[h].used
    case ByRefresh(h) =>
      h in s.tokens && s.tokens[h].grantId == grantId && s.tokens[h].kind.Refresh? && !s.tokens[h].used
  }

  ghost predicate HasOneUnspent(s: State, grantId: nat) {
    exists c :: Unspent(s, grantId, c) && forall d :: Unspent(s, grantId, d) ==> d == c
  }

  ghost predicate Sound(s: State) {
    && (forall h :: h in s.codes ==> h < s.nextId && s.codes[h].grantId in s.grants)
    && (forall h :: h in s.tokens ==> h < s.nextId && s.tokens[h].grantId in s.grants)
    && (forall id :: id in s.grants ==> id < s.nextId && HasOneUnspent(s, id))
  }

  /** A credential replaced by the next one: what Mint and the spending write do together. */
  lemma SpendingLeavesOne(s: State, after: State, grantId: nat, spent: Credential, next: Credential)
    requires HasOneUnspent(s, grantId) && Unspent(s, grantId, spent)
    requires forall c :: Unspent(after, grantId, c) <==> c == next || (c != spent && Unspent(s, grantId, c))
    ensures HasOneUnspent(after, grantId)
  {
    assert Unspent(after, grantId, next);
  }

  lemma OthersKeepTheirs(s: State, after: State, grantId: nat)
    requires HasOneUnspent(s, grantId)
    requires forall c :: Unspent(after, grantId, c) <==> Unspent(s, grantId, c)
    ensures HasOneUnspent(after, grantId)
  {
    var c :| Unspent(s, grantId, c) && forall d :: Unspent(s, grantId, d) ==> d == c;
    assert Unspent(after, grantId, c);
  }

  lemma NewGrantKeepsSound(s: State, grant: Grant, code: Code)
    requires Sound(s) && code.grantId == s.nextId && !code.used
    ensures Sound(WithGrant(s, grant, code))
  {
    var after := WithGrant(s, grant, code);
    forall id | id in after.grants ensures HasOneUnspent(after, id) {
      if id == s.nextId {
        FirstCredential(after, id, s.nextId + 1);
      } else {
        forall c ensures Unspent(after, id, c) <==> Unspent(s, id, c) {
        }
        OthersKeepTheirs(s, after, id);
      }
    }
  }

  lemma FirstCredential(after: State, grantId: nat, code: Secret)
    requires code in after.codes && after.codes[code].grantId == grantId && !after.codes[code].used
    requires forall h :: h in after.codes && h != code ==> after.codes[h].grantId != grantId
    requires forall h :: h in after.tokens ==> after.tokens[h].grantId != grantId
    ensures HasOneUnspent(after, grantId)
  {
    assert Unspent(after, grantId, ByCode(code));
    forall c | Unspent(after, grantId, c) ensures c == ByCode(code) {
    }
  }

  lemma ConsentKeepsSound(config: Config, s: State, r: AuthorizationRequest, account: Account, owners: set<Account>, now: int)
    requires Sound(s)
    ensures Sound(Consent(config, s, r, account, owners, now).0)
  {
    NewGrantKeepsSound(s, Grant(account, r.clientId, Deduplicated(r.scopes), false),
                       Code(s.nextId, r.redirectUri, r.challenge, config.resource, now + CODE_SECONDS, false));
  }

  lemma MintForCodeKeepsSound(config: Config, s: State, code: Secret, now: int)
    requires Sound(s) && code in s.codes && !s.codes[code].used
    ensures Sound(Mint(config, SpentCode(s, code), s.codes[code].grantId, now).0)
  {
    var after := Mint(config, SpentCode(s, code), s.codes[code].grantId, now).0;
    forall id | id in after.grants ensures HasOneUnspent(after, id) {
      if id == s.codes[code].grantId {
        SpendingLeavesOne(s, after, id, ByCode(code), ByRefresh(s.nextId + 1));
      } else {
        OthersKeepTheirs(s, after, id);
      }
    }
  }

  lemma MintForTokenKeepsSound(config: Config, s: State, token: Secret, now: int)
    requires Sound(s) && token in s.tokens && s.tokens[token].kind.Refresh? && !s.tokens[token].used
    ensures Sound(Mint(config, SpentToken(s, token), s.tokens[token].grantId, now).0)
  {
    var after := Mint(config, SpentToken(s, token), s.tokens[token].grantId, now).0;
    forall id | id in after.grants ensures HasOneUnspent(after, id) {
      if id == s.tokens[token].grantId {
        SpendingLeavesOne(s, after, id, ByRefresh(token), ByRefresh(s.nextId + 1));
      } else {
        OthersKeepTheirs(s, after, id);
      }
    }
  }

  lemma RevokedKeepsSound(s: State, grantId: nat)
    requires Sound(s) && grantId in s.grants
    ensures Sound(Revoked(s, grantId))
  {
    forall id | id in s.grants ensures HasOneUnspent(Revoked(s, grantId), id) {
      OthersKeepTheirs(s, Revoked(s, grantId), id);
    }
  }

  lemma RedeemKeepsSound(config: Config, s: State, r: TokenRequest, owners: set<Account>, now: int)
    requires Sound(s)
    ensures Sound(Redeem(config, s, r, owners, now).0)
  {
    if r.Exchange? && CodeIsGood(s, r, owners, now) {
      MintForCodeKeepsSound(config, s, r.code, now);
    } else if r.Renew? && IsReuse(s, r) {
      RevokedKeepsSound(s, s.tokens[r.refreshToken].grantId);
    } else if r.Renew? && RefreshIsGood(s, r, owners, now) {
      assert !s.tokens[r.refreshToken].used;
      MintForTokenKeepsSound(config, s, r.refreshToken, now);
    }
  }

  lemma RevokeKeepsSound(s: State, grantId: nat, account: Account, owners: set<Account>)
    requires Sound(s)
    ensures Sound(Revoke(s, grantId, account, owners).0)
  {
    if grantId in s.grants {
      RevokedKeepsSound(s, grantId);
    }
  }

  lemma StepKeepsSound(config: Config, s: State, call: Call)
    requires Sound(s)
    ensures Sound(Step(config, s, call).0)
  {
    match call
    case CallConsent(r, account, owners, now) => ConsentKeepsSound(config, s, r, account, owners, now);
    case CallToken(r, owners, now) => RedeemKeepsSound(config, s, r, owners, now);
    case CallRevoke(id, account, owners) => RevokeKeepsSound(s, id, account, owners);
    case CallVerify(_, _, _, _) =>
  }

  /** In every reachable state each grant has exactly one unspent credential. */
  lemma {:induction false} EveryGrantHasOneUnspentCredential(config: Config, s: State, calls: seq<Call>)
    requires Sound(s)
    ensures Sound(Run(config, s, calls))
    decreases |calls|
  {
    if calls != [] {
      StepKeepsSound(config, s, calls[0]);
      EveryGrantHasOneUnspentCredential(config, Step(config, s, calls[0]).0, calls[1..]);
    }
  }

  // ===== What no step changes =====

  /** A grant keeps its owner, client and scopes, and never becomes unrevoked. */
  ghost predicate GrantEndures(s: State, after: State, grantId: nat)
    requires grantId in s.grants
  {
    && grantId in after.grants
    && var g, h := s.grants[grantId], after.grants[grantId];
       h.account == g.account && h.clientId == g.clientId && h.scopes == g.scopes && (g.revoked ==> h.revoked)
  }

  /** A token stays as it was, except that a refresh token may become spent. */
  ghost predicate TokenEndures(s: State, after: State, token: Secret)
    requires token in s.tokens
  {
    && token in after.tokens
    && (after.tokens[token] == s.tokens[token]
        || (s.tokens[token].kind.Refresh? && after.tokens[token] == s.tokens[token].(used := true)))
  }

  /** A code stays as it was, except that it may become spent. */
  ghost predicate CodeEndures(s: State, after: State, code: Secret)
    requires code in s.codes
  {
    && code in after.codes
    && (after.codes[code] == s.codes[code] || after.codes[code] == s.codes[code].(used := true))
  }

  /** A token or code that is new belongs to no grant that was revoked before. */
  ghost predicate NewOnlyFor(s: State, grantId: nat) {
    grantId !in s.grants || !s.grants[grantId].revoked
  }

  ghost predicate Evolves(s: State, after: State) {
    && (forall id :: id in s.grants ==> GrantEndures(s, after, id))
    && (forall h :: h in s.tokens ==> TokenEndures(s, after, h))
    && (forall h :: h in after.tokens && h !in s.tokens ==> NewOnlyFor(s, after.tokens[h].grantId))
    && (forall h :: h in after.codes && h !in s.codes ==> NewOnlyFor(s, after.codes[h].grantId))
    && (forall h :: h in s.codes ==> CodeEndures(s, after, h))
  }

  lemma EvolvesTransitively(s: State, t: State, u: State)
    requires Evolves(s, t) && Evolves(t, u)
    ensures Evolves(s, u)
  {
    forall id | id in s.grants ensures GrantEndures(s, u, id) {
      assert GrantEndures(s, t, id) && GrantEndures(t, u, id);
    }
    forall h | h in s.tokens ensures TokenEndures(s, u, h) {
      assert TokenEndures(s, t, h) && TokenEndures(t, u, h);
    }
    forall h | h in u.tokens && h !in s.tokens ensures NewOnlyFor(s, u.tokens[h].grantId) {
      if h in t.tokens {
        assert TokenEndures(t, u, h);
      }
      assert forall id :: id in s.grants ==> GrantEndures(s, t, id);
    }
    forall h | h in s.codes ensures CodeEndures(s, u, h) {
      assert CodeEndures(s, t, h) && CodeEndures(t, u, h);
    }
    forall h | h in u.codes && h !in s.codes ensures NewOnlyFor(s, u.codes[h].grantId) {
      if h in t.codes {
        assert CodeEndures(t, u, h);
      }
      assert forall id :: id in s.grants ==> GrantEndures(s, t, id);
    }
  }

  lemma MintEvolves(config: Config, s: State, grantId: nat, now: int)
    requires grantId in s.grants && !s.grants[grantId].revoked
    requires forall h :: h in s.tokens ==> h < s.nextId
    ensures Evolves(s, Mint(config, s, grantId, now).0)
  {
    var after := Mint(config, s, grantId, now).0;
    forall h | h in s.tokens ensures TokenEndures(s, after, h) {
    }
  }

  lemma SpendingCodeEvolves(s: State, code: Secret)
    requires code in s.codes
    ensures Evolves(s, SpentCode(s, code))
  {
  }

  lemma SpendingTokenEvolves(s: State, token: Secret)
    requires token in s.tokens && s.tokens[token].kind.Refresh?
    ensures Evolves(s, SpentToken(s, token))
  {
  }

  lemma ExchangeEvolves(config: Config, s: State, r: TokenRequest, owners: set<Account>, now: int)
    requires Sound(s) && r.Exchange? && Redeem(config, s, r, owners, now).1.Minted?
    ensures Evolves(s, Redeem(config, s, r, owners, now).0)
  {
    SpendingCodeEvolves(s, r.code);
    SpentThenMinted(config, s, SpentCode(s, r.code), s.codes[r.code].grantId, now);
  }

  lemma RenewEvolves(config: Config, s: State, r: TokenRequest, owners: set<Account>, now: int)
    requires Sound(s) && r.Renew? && Redeem(config, s, r, owners, now).1.Minted?
    ensures Evolves(s, Redeem(config, s, r, owners, now).0)
  {
    SpendingTokenEvolves(s, r.refreshToken);
    SpentThenMinted(config, s, SpentToken(s, r.refreshToken), s.tokens[r.refreshToken].grantId, now);
  }

  lemma RedeemEvolves(config: Config, s: State, r: TokenRequest, owners: set<Account>, now: int)
    requires Sound(s)
    ensures Evolves(s, Redeem(config, s, r, owners, now).0)
  {
    if Redeem(config, s, r, owners, now).1.Minted? {
      if r.Exchange? {
        ExchangeEvolves(config, s, r, owners, now);
      } else {
        RenewEvolves(config, s, r, owners, now);
      }
    }
  }

  lemma SpentThenMinted(config: Config, s: State, spent: State, grantId: nat, now: int)
    requires Evolves(s, spent) && grantId in spent.grants && !spent.grants[grantId].revoked
    requires forall h :: h in spent.tokens ==> h < spent.nextId
    ensures Evolves(s, Mint(config, spent, grantId, now).0)
  {
    MintEvolves(config, spent, grantId, now);
    EvolvesTransitively(s, spent, Mint(config, spent, grantId, now).0);
  }

  lemma StandingStillEvolves(s: State)
    ensures Evolves(s, s)
  {
  }

  lemma NewGrantEvolves(s: State, grant: Grant, code: Code)
    requires s.nextId !in s.grants && s.nextId + 1 !in s.codes && code.grantId == s.nextId
    ensures Evolves(s, WithGrant(s, grant, code))
  {
    forall id | id in s.grants ensures GrantEndures(s, WithGrant(s, grant, code), id) {
    }
    forall h | h in s.tokens ensures TokenEndures(s, WithGrant(s, grant, code), h) {
    }
    forall h | h in s.codes ensures CodeEndures(s, WithGrant(s, grant, code), h) {
    }
  }

  lemma ConsentEvolves(config: Config, s: State, r: AuthorizationRequest, account: Account, owners: set<Account>, now: int)
    requires Sound(s)
    ensures Evolves(s, Consent(config, s, r, account, owners, now).0)
  {
    NewGrantEvolves(s, Grant(account, r.clientId, Deduplicated(r.scopes), false),
                    Code(s.nextId, r.redirectUri, r.challenge, config.resource, now + CODE_SECONDS, false));
    StandingStillEvolves(s);
  }

  lemma RevokeEvolves(s: State, grantId: nat)
    requires grantId in s.grants
    ensures Evolves(s, Revoked(s, grantId))
  {
  }

  lemma StepEvolves(config: Config, s: State, call: Call)
    requires Sound(s)
    ensures Evolves(s, Step(config, s, call).0)
  {
    StandingStillEvolves(s);
    match call
    case CallConsent(r, account, owners, now) => ConsentEvolves(config, s, r, account, owners, now);
    case CallToken(r, owners, now) => RedeemEvolves(config, s, r, owners, now);
    case CallRevoke(grantId, account, owners) =>
      if grantId in s.grants {
        RevokeEvolves(s, grantId);
      }
    case CallVerify(_, _, _, _) =>
  }

  lemma {:induction false} RunEvolves(config: Config, s: State, calls: seq<Call>)
    requires Sound(s)
    ensures Evolves(s, Run(config, s, calls))
    decreases |calls|
  {
    if calls != [] {
      var next := Step(config, s, calls[0]).0;
      StepKeepsSound(config, s, calls[0]);
      StepEvolves(config, s, calls[0]);
      RunEvolves(config, next, calls[1..]);
      EvolvesTransitively(s, next, Run(config, next, calls[1..]));
    }
  }

  lemma RunKeepsGrant(config: Config, s: State, calls: seq<Call>, grantId: nat)
    requires Sound(s) && grantId in s.grants
    ensures GrantEndures(s, Run(config, s, calls), grantId)
  {
    RunEvolves(config, s, calls);
  }

  lemma RunKeepsToken(config: Config, s: State, calls: seq<Call>, token: Secret)
    requires Sound(s) && token in s.tokens
    ensures TokenEndures(s, Run(config, s, calls), token)
  {
    RunEvolves(config, s, calls);
  }

  lemma RunKeepsCode(config: Config, s: State, calls: seq<Call>, code: Secret)
    requires Sound(s) && code in s.codes
    ensures CodeEndures(s, Run(config, s, calls), code)
  {
    RunEvolves(config, s, calls);
  }

  /** The owner, client and scopes of a grant never change.  Once it is revoked, no token or
      code is ever added for it and none of its access tokens passes, whatever is called. */
  lemma RevokedForever(config: Config, s: State, calls: seq<Call>, grantId: nat)
    requires Sound(s) && grantId in s.grants
    ensures var after := Run(config, s, calls);
            && GrantEndures(s, after, grantId)
            && (s.grants[grantId].revoked ==>
                  && (forall h :: h in after.tokens && after.tokens[h].grantId == grantId ==> h in s.tokens)
                  && (forall h :: h in after.codes && after.codes[h].grantId == grantId ==> h in s.codes))
  {
    RunEvolves(config, s, calls);
  }

  lemma RevokedGrantNeverVerifies(config: Config, s: State, calls: seq<Call>, grantId: nat,
                                  token: Secret, scope: Option<string>, owners: set<Account>, now: int)
    requires Sound(s) && grantId in s.grants && s.grants[grantId].revoked
    ensures var reply := Verify(config, Run(config, s, calls), token, scope, owners, now);
            reply.Verified? ==> reply.grantId != grantId
  {
    RunEvolves(config, s, calls);
    assert GrantEndures(s, Run(config, s, calls), grantId);
  }

  /** Reuse detection (section 4.14.2 of RFC 9700): once a refresh token has bought a pair, the
      same client presenting it again, after any calls at all, is refused and the whole grant is
      revoked. */
  lemma ReusedRefreshTokenRevokesTheGrant(config: Config, s: State, r: TokenRequest, owners: set<Account>, now: int,
                                          calls: seq<Call>, owners': set<Account>, now': int)
    requires Sound(s) && r.Renew? && Redeem(config, s, r, owners, now).1.Minted?
    ensures var grantId := s.tokens[r.refreshToken].grantId;
            var later := Run(config, Redeem(config, s, r, owners, now).0, calls);
            var again := Redeem(config, later, r, owners', now');
            again.1 == Denied && grantId in again.0.grants && again.0.grants[grantId].revoked
  {
    var after := Redeem(config, s, r, owners, now).0;
    var grantId := s.tokens[r.refreshToken].grantId;
    RedeemKeepsSound(config, s, r, owners, now);
    RunKeepsToken(config, after, calls, r.refreshToken);
    RunKeepsGrant(config, after, calls, grantId);
  }

  /** What a token request presents. */
  function Presented(r: TokenRequest): Credential
    requires !r.OtherGrantType?
  {
    if r.Exchange? then ByCode(r.code) else ByRefresh(r.refreshToken)
  }

  predicate IsStored(s: State, c: Credential) {
    match c
    case ByCode(h) => h in s.codes
    case ByRefresh(h) => h in s.tokens && s.tokens[h].kind.Refresh?
  }

  function GrantOf(s: State, c: Credential): nat
    requires IsStored(s, c)
  {
    if c.ByCode? then s.codes[c.code].grantId else s.tokens[c.token].grantId
  }

  /** The presented credential is the client's own: unexpired, for the same resource, and a code for
      the same redirect address with the verifier of its challenge (section 4.6 of RFC 7636). */
  predicate IsHeldBy(s: State, c: Credential, r: TokenRequest, now: int)
    requires IsStored(s, c)
  {
    match c
    case ByCode(h) =>
      && now < s.codes[h].expiresAt && s.codes[h].resource == r.resource
      && r.Exchange? && s.codes[h].redirectUri == r.redirectUri && s.codes[h].challenge == r.verifierDigest
    case ByRefresh(h) => now < s.tokens[h].expiresAt && s.tokens[h].resource == r.resource
  }

  ghost predicate OnlyUnspent(s: State, grantId: nat, c: Credential) {
    forall d :: Unspent(s, grantId, d) <==> d == c
  }

  /** A pair is minted only by the client and for the owner of an unrevoked grant whose one unspent
      credential is the code or token presented, unexpired; afterwards that one is spent and the new
      refresh token is the one unspent credential.  The pair carries exactly the grant's scopes. */
  lemma MintingIsEarned(config: Config, s: State, r: TokenRequest, owners: set<Account>, now: int)
    requires Sound(s) && Redeem(config, s, r, owners, now).1.Minted?
    ensures !r.OtherGrantType? && IsStored(s, Presented(r))
    ensures var grantId, after, reply := GrantOf(s, Presented(r)), Redeem(config, s, r, owners, now).0,
                                         Redeem(config, s, r, owners, now).1;
            && grantId in s.grants && !s.grants[grantId].revoked && s.grants[grantId].account in owners
            && s.grants[grantId].clientId == r.clientId
            && IsHeldBy(s, Presented(r), r, now)
            && OnlyUnspent(s, grantId, Presented(r))
            && OnlyUnspent(after, grantId, ByRefresh(reply.refresh))
            && reply.scopes == s.grants[grantId].scopes
  {
    StepKeepsSound(config, s, CallToken(r, owners, now));
    var after, reply := Redeem(config, s, r, owners, now).0, Redeem(config, s, r, owners, now).1;
    TheOneUnspent(s, GrantOf(s, Presented(r)), Presented(r));
    TheOneUnspent(after, GrantOf(s, Presented(r)), ByRefresh(reply.refresh));
  }

  lemma TheOneUnspent(s: State, grantId: nat, c: Credential)
    requires HasOneUnspent(s, grantId) && Unspent(s, grantId, c)
    ensures OnlyUnspent(s, grantId, c)
  {
  }

  /** A spent code is refused, but unlike a spent refresh token it does not revoke the grant. */
  lemma SpentCodeOnlyRefuses(config: Config, s: State, r: TokenRequest, owners: set<Account>, now: int)
    requires r.Exchange? && r.code in s.codes && s.codes[r.code].used
    ensures Redeem(config, s, r, owners, now) == (s, Denied)
  {
  }

  // ===== What codes and tokens are good for, and until when =====

  /** A consent is given if and only if the workspace is the caller's and a known client asks, for
      one of its own redirect addresses and this resource, with an S256 challenge and a text state,
      for at least one scope and known ones only.  The grant then holds exactly those scopes, each
      once, and its first code. */
  lemma ConsentIsGivenExactly(config: Config, s: State, r: AuthorizationRequest, account: Account, owners: set<Account>, now: int)
    ensures var (after, reply) := Consent(config, s, r, account, owners, now);
            && (reply.Issued? <==>
                  && account in owners
                  && r.clientId in config.clients && r.redirectUri in config.clients[r.clientId] && r.resource == config.resource
                  && r.challengeIsS256 && r.stateIsText && |r.scopes| > 0
                  && forall x :: x in r.scopes ==>
                       x in {"dcc.read", "dcc.work", "dcc.correct", "dcc.complete", "dcc.delegate", "dcc.reconcile"})
            && (reply.Issued? ==> IsConsented(s, after, r, account, s.nextId, reply.code, now))
            && (!reply.Issued? ==> reply == Denied && after == s)
  {
  }

  /** One grant and one code are new: the grant has the asked scopes, the code lives five minutes. */
  ghost predicate IsConsented(s: State, after: State, r: AuthorizationRequest, account: Account, grantId: nat, code: Secret, now: int) {
    && after.grants.Keys == s.grants.Keys + {grantId} && after.codes.Keys == s.codes.Keys + {code} && after.tokens == s.tokens
    && (forall id :: id in s.grants && id != grantId ==> after.grants[id] == s.grants[id])
    && (forall h :: h in s.codes && h != code ==> after.codes[h] == s.codes[h])
    && var g, c := after.grants[grantId], after.codes[code];
       && g.account == account && g.clientId == r.clientId && !g.revoked
       && (forall x :: x in g.scopes <==> x in r.scopes)
       && (forall i, j :: 0 <= i < j < |g.scopes| ==> g.scopes[i] != g.scopes[j])
       && c.grantId == grantId && c.redirectUri == r.redirectUri && c.challenge == r.challenge
       && c.resource == r.resource && c.expiresAt == now + 300 && !c.used
  }

  /** After any calls the code of a consent buys a pair if and only if it is unspent, less than five
      minutes old and its grant unrevoked, and its own client presents it for this resource and the
      same redirect address, with the verifier of the challenge, for an account that still owns the
      workspace.  The pair carries exactly the scopes consented to. */
  lemma CodeBuysExactly(config: Config, s: State, asked: AuthorizationRequest, account: Account, owners: set<Account>, now: int,
                        calls: seq<Call>, r: TokenRequest, owners': set<Account>, now': int)
    requires Sound(s) && r.Exchange?
    requires Consent(config, s, asked, account, owners, now).1 == Issued(r.code)
    ensures var later := Run(config, Consent(config, s, asked, account, owners, now).0, calls);
            var reply := Redeem(config, later, r, owners', now').1;
            && r.code in later.codes && s.nextId in later.grants && later.codes[r.code].grantId == s.nextId
            && (reply.Minted? <==>
                  && !later.codes[r.code].used && !later.grants[s.nextId].revoked && now' < now + 300
                  && r.clientId == asked.clientId && r.resource == config.resource && r.redirectUri == asked.redirectUri
                  && r.verifierIsWellFormed && r.verifierDigest == asked.challenge && account in owners')
            && (reply.Minted? ==> forall x :: x in reply.scopes <==> x in asked.scopes)
  {
    var after := Consent(config, s, asked, account, owners, now).0;
    ConsentKeepsSound(config, s, asked, account, owners, now);
    RunKeepsCode(config, after, calls, r.code);
    RunKeepsGrant(config, after, calls, s.nextId);
  }

  /** The grant of a minted pair and its two tokens, after any calls. */
  lemma MintedPairEndures(config: Config, s: State, r: TokenRequest, owners: set<Account>, now: int, calls: seq<Call>)
    requires Sound(s) && Redeem(config, s, r, owners, now).1.Minted?
    ensures var (after, pair) := Redeem(config, s, r, owners, now);
            var later, grantId := Run(config, after, calls), GrantOf(s, Presented(r));
            && pair.access !in s.tokens && pair.refresh !in s.tokens && pair.access != pair.refresh
            && grantId in s.grants && grantId in later.grants
            && later.grants[grantId].(revoked := false) == s.grants[grantId]
            && r.clientId == s.grants[grantId].clientId && r.clientId in config.clients
            && pair.access in later.tokens
            && later.tokens[pair.access] == Token(grantId, Access, config.resource, now + 3600, false)
            && pair.refresh in later.tokens
            && later.tokens[pair.refresh].(used := false) == Token(grantId, Refresh, config.resource, now + 30 * 86400, false)
  {
    var (after, pair) := Redeem(config, s, r, owners, now);
    MintingIsEarned(config, s, r, owners, now);
    StepKeepsSound(config, s, CallToken(r, owners, now));
    RunKeepsGrant(config, after, calls, GrantOf(s, Presented(r)));
    RunKeepsToken(config, after, calls, pair.access);
    RunKeepsToken(config, after, calls, pair.refresh);
  }

  /** After any calls a minted access token is verified if and only if it is less than an hour old,
      its grant unrevoked, its account still an owner and the wanted scope, if any, one of the
      grant's; the refresh token of the pair never is. */
  lemma AccessVerifiesExactly(config: Config, s: State, r: TokenRequest, owners: set<Account>, now: int, calls: seq<Call>,
                              scope: Option<string>, owners': set<Account>, now': int)
    requires Sound(s) && Redeem(config, s, r, owners, now).1.Minted?
    ensures var (after, pair) := Redeem(config, s, r, owners, now);
            var later, grantId := Run(config, after, calls), GrantOf(s, Presented(r));
            && grantId in later.grants && grantId in s.grants
            && Verify(config, later, pair.access, scope, owners', now') ==
                 (if now' < now + 3600 && !later.grants[grantId].revoked && s.grants[grantId].account in owners'
                     && (scope == None || scope == Some("") || scope.value in s.grants[grantId].scopes)
                  then Verified(grantId, s.grants[grantId].account, s.grants[grantId].scopes)
                  else Denied)
            && Verify(config, later, pair.refresh, scope, owners', now') == Denied
  {
    MintedPairEndures(config, s, r, owners, now, calls);
  }

  /** After any calls a minted refresh token buys the next pair if and only if it is unspent, less
      than thirty days old and its grant unrevoked, and its own client presents it for this resource,
      asking for no other scopes, for an account that is still an owner; the access token of the
      pair never buys anything. */
  lemma RefreshBuysExactly(config: Config, s: State, r: TokenRequest, owners: set<Account>, now: int, calls: seq<Call>,
                           next: TokenRequest, owners': set<Account>, now': int)
    requires Sound(s) && Redeem(config, s, r, owners, now).1.Minted? && next.Renew?
    ensures var (after, pair) := Redeem(config, s, r, owners, now);
            var later, grantId := Run(config, after, calls), GrantOf(s, Presented(r));
            var reply := Redeem(config, later, next, owners', now').1;
            && pair.refresh in later.tokens && grantId in later.grants && grantId in s.grants
            && (next.refreshToken == pair.refresh ==>
                  (reply.Minted? <==>
                     && !later.tokens[pair.refresh].used && !later.grants[grantId].revoked && now' < now + 30 * 86400
                     && next.clientId == s.grants[grantId].clientId && next.resource == config.resource
                     && (next.scope == "" || next.scope == Joined(s.grants[grantId].scopes))
                     && s.grants[grantId].account in owners'))
            && (next.refreshToken == pair.access ==> reply == Denied)
  {
    MintedPairEndures(config, s, r, owners, now, calls);
  }

  /** A grant becomes revoked if and only if its own account, still an owner, asks for it, or its own
      client presents one of its spent refresh tokens for its resource. */
  lemma RevokesExactly(config: Config, s: State, call: Call, grantId: nat)
    requires Sound(s) && grantId in s.grants && !s.grants[grantId].revoked
    ensures var after := Step(config, s, call).0;
            && grantId in after.grants
            && (after.grants[grantId].revoked <==> IsRevocation(s, call, grantId) || PresentsSpent(config, s, call, grantId))
  {
  }

  predicate IsRevocation(s: State, call: Call, grantId: nat)
    requires grantId in s.grants
  {
    call.CallRevoke? && call.grantId == grantId && call.account == s.grants[grantId].account && call.account in call.owners
  }

  predicate PresentsSpent(config: Config, s: State, call: Call, grantId: nat)
    requires grantId in s.grants
  {
    && call.CallToken? && call.tokenRequest.Renew?
    && var r := call.tokenRequest;
       && r.clientId in config.clients && r.clientId == s.grants[grantId].clientId && r.resource == config.resource
       && r.refreshToken in s.tokens
       && var t := s.tokens[r.refreshToken];
          t.grantId == grantId && t.kind == Refresh && t.used && t.resource == r.resource
  }

  /** A code or refresh token becomes spent if and only if a pair is minted for it. */
  lemma SpendsExactly(config: Config, s: State, call: Call, grantId: nat, c: Credential)
    requires Sound(s) && Unspent(s, grantId, c)
    ensures var (after, reply) := Step(config, s, call);
            !Unspent(after, grantId, c) <==>
              call.CallToken? && reply.Minted?
              && ((call.tokenRequest.Exchange? && c == ByCode(call.tokenRequest.code))
                  || (call.tokenRequest.Renew? && c == ByRefresh(call.tokenRequest.refreshToken)))
  {
  }

  // ===== The store =====

  class OAuthStore {
    const config: Config
    var grants: map<nat, Grant>
    var codes: map<Secret, Code>
    var tokens: map<Secret, Token>
    var nextId: nat

    ghost function View(): State
      reads this
    {
      State(grants, codes, tokens, nextId)
    }

    constructor (config: Config)
      ensures View() == INITIAL && Sound(View()) && this.config == config
    {
      this.config := config;
      grants, codes, tokens, nextId := map[], map[], map[], 0;
    }

    method ConsentTo(r: AuthorizationRequest, account: Account, owners: set<Account>, now: int) returns (reply: Reply)
      requires Sound(View())
      modifies this
      ensures (View(), reply) == Consent(config, old(View()), r, account, owners, now) && Sound(View())
    {
      ConsentKeepsSound(config, View(), r, account, owners, now);
      if !RequestIsValid(config, r) || account !in owners {
        return Denied;
      }
      var id, code := nextId, nextId + 1;
      nextId := nextId + 2;
      grants := grants[id := Grant(account, r.clientId, Deduplicated(r.scopes), false)];
      codes := codes[code := Code(id, r.redirectUri, r.challenge, config.resource, now + CODE_SECONDS, false)];
      return Issued(code);
    }

    method MintPair(grantId: nat, now: int) returns (reply: Reply)
      requires grantId in grants
      modifies this`tokens, this`nextId
      ensures (View(), reply) == Mint(config, old(View()), grantId, now)
    {
      var access, refresh := nextId, nextId + 1;
      nextId := nextId + 2;
      tokens := tokens[access := Token(grantId, Access, config.resource, now + ACCESS_SECONDS, false)];
      tokens := tokens[refresh := Token(grantId, Refresh, config.resource, now + REFRESH_SECONDS, false)];
      return Minted(access, refresh, grants[grantId].scopes);
    }

    method ExchangeCode(r: TokenRequest, owners: set<Account>, now: int) returns (reply: Reply)
      requires Sound(View()) && r.Exchange? && r.clientId in config.clients && r.resource == config.resource
      modifies this
      ensures (View(), reply) == Redeem(config, old(View()), r, owners, now)
    {
      if !r.verifierIsWellFormed || r.code !in codes {
        return Denied;
      }
      var c := codes[r.code];
      var g := grants[c.grantId];
      if c.used || g.revoked || c.expiresAt <= now || g.clientId != r.clientId || c.redirectUri != r.redirectUri
         || c.resource != r.resource || r.verifierDigest != c.challenge || g.account !in owners {
        return Denied;
      }
      codes := codes[r.code := c.(used := true)];
      reply := MintPair(c.grantId, now);
    }

    method RenewToken(r: TokenRequest, owners: set<Account>, now: int) returns (reply: Reply)
      requires Sound(View()) && r.Renew? && r.clientId in config.clients && r.resource == config.resource
      modifies this
      ensures (View(), reply) == Redeem(config, old(View()), r, owners, now)
    {
      if r.refreshToken !in tokens || !tokens[r.refreshToken].kind.Refresh? {
        return Denied;
      }
      var t := tokens[r.refreshToken];
      var g := grants[t.grantId];
      if t.used && g.clientId == r.clientId && t.resource == r.resource {
        grants := grants[t.grantId := g.(revoked := true)];
        return Denied;
      }
      if g.revoked || t.expiresAt <= now || g.clientId != r.clientId || t.resource != r.resource {
        return Denied;
      }
      if (r.scope != "" && r.scope != Joined(g.scopes)) || g.account !in owners {
        return Denied;
      }
      tokens := tokens[r.refreshToken := t.(used := true)];
      reply := MintPair(t.grantId, now);
    }

    method RedeemToken(r: TokenRequest, owners: set<Account>, now: int) returns (reply: Reply)
      requires Sound(View())
      modifies this
      ensures (View(), reply) == Redeem(config, old(View()), r, owners, now) && Sound(View())
    {
      StepKeepsSound(config, View(), CallToken(r, owners, now));
      if r.clientId !in config.clients || r.resource != config.resource {
        return Denied;
      }
      match r {
        case Exchange(_, _, _, _, _, _) => reply := ExchangeCode(r, owners, now);
        case Renew(_, _, _, _) => reply := RenewToken(r, owners, now);
        case OtherGrantType(_, _) => reply := Denied;
      }
    }

    method VerifyToken(token: Secret, scope: Option<string>, owners: set<Account>, now: int) returns (reply: Reply)
      requires Sound(View())
      ensures reply == Verify(config, View(), token, scope, owners, now)
    {
      if token !in tokens {
        return Denied;
      }
      var t := tokens[token];
      var g := grants[t.grantId];
      if !t.kind.Access? || t.expiresAt <= now || t.used || g.revoked || g.account !in owners {
        return Denied;
      }
      if t.resource != config.resource || (scope.Some? && scope.value != "" && scope.value !in g.scopes) {
        return Denied;
      }
      return Verified(t.grantId, g.account, g.scopes);
    }

    method RevokeGrant(grantId: nat, account: Account, owners: set<Account>) returns (reply: Reply)
      requires Sound(View())
      modifies this`grants
      ensures (View(), reply) == Revoke(old(View()), grantId, account, owners) && Sound(View())
    {
      RevokeKeepsSound(View(), grantId, account, owners);
      if account !in owners {
        return Denied;
      }
      if grantId in grants && grants[grantId].account == account {
        grants := grants[grantId := grants[grantId].(revoked := true)];
      }
      return Done;
    }
  }
}
