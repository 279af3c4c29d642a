/** Authorization codes exchanged for tokens, and refresh tokens for new ones. Times in
    milliseconds are parameters, and so are the fresh codes and tokens. Refresh scope follows
    section 6 of RFC 6749, the resource section 2 of RFC 8707. */
module OAuthProvider {
  import opened Options
  import opened OAuthStore

  type Code = string

  const CODE_TTL_MS := 300000
  const REFRESH_RETRY_GRACE_SECONDS := 900

  /** allowed and normal stand for the URL checks: whether a resource is served here, and a
      resource's normal form. */
  datatype Config = Config(
    accessTtl: nat,
    refreshTtl: nat,
    scopes: seq<string>,
    allowed: Url -> bool,
    normal: Url -> Url)

  datatype CodeRecord = CodeRecord(
    clientId: string,
    redirectUri: string,
    scopes: Option<seq<string>>,
    resource: Option<Url>,
    expiresAtMs: int)

  datatype OAuthError = InvalidRequest | InvalidGrant | AccessDenied | InvalidToken

  datatype OAuthResult<+T> = Granted(value: T) | Denied(error: OAuthError)

  datatype Server = Server(codes: map<Code, CodeRecord>, tokens: Tokens)

  /** The tokens handed out, and for how many seconds the access token is good. */
  datatype Issue = Issue(accessToken: Token, refreshToken: Token, expiresIn: nat, scopes: seq<string>)

  /** A request to exchange, with the fresh tokens drawn for it, and the times at which it is
      checked and at which its tokens are issued. */
  datatype Draw = Draw(accessToken: Token, refreshToken: Token, checkMs: nat, issueMs: nat)

  predicate ScopesWithin(requested: seq<string>, granted: seq<string>) {
    forall i | 0 <= i < |requested| :: requested[i] in granted
  }

  predicate SameResource(config: Config, a: Url, b: Url) {
    config.normal(a) == config.normal(b)
  }

  // ---------------------------------------------------------- what operations do

  function AfterAuthorize(config: Config, s: Server, nowMs: nat, code: Code, clientId: string, redirectUri: string,
                          scopes: Option<seq<string>>, resource: Option<Url>): OAuthResult<Server> {
    if resource.None? || !config.allowed(resource.value) then Denied(InvalidRequest)
    else if scopes.Some? && !ScopesWithin(scopes.value, config.scopes) then Denied(InvalidRequest)
    else Granted(s.(codes := s.codes[code := CodeRecord(clientId, redirectUri, scopes, resource, nowMs + CODE_TTL_MS)]))
  }

  function PairFor(config: Config, clientId: string, scopes: seq<string>, resource: Option<Url>, draw: Draw): TokenPair {
    var now := draw.issueMs / 1000;
    TokenPair(draw.accessToken, TokenRecord(clientId, scopes, now + config.accessTtl, resource),
              draw.refreshToken, TokenRecord(clientId, scopes, now + config.refreshTtl, resource))
  }

  function ConsumedAt(token: Token, draw: Draw): Consumed {
    Consumed(token, draw.issueMs / 1000, draw.issueMs / 1000 + REFRESH_RETRY_GRACE_SECONDS)
  }

  function ValidCode(s: Server, clientId: string, code: Code, nowMs: nat): Option<CodeRecord> {
    if code !in s.codes || s.codes[code].clientId != clientId || s.codes[code].expiresAtMs < nowMs then None
    else Some(s.codes[code])
  }

  function GrantedScopes(config: Config, record: CodeRecord): seq<string> {
    if record.scopes.Some? then record.scopes.value else config.scopes
  }

  function AfterCode(config: Config, s: Server, clientId: string, code: Code, redirectUri: string,
                     resource: Option<Url>, draw: Draw): OAuthResult<Server> {
    match ValidCode(s, clientId, code, draw.checkMs)
    case None => Denied(InvalidGrant)
    case Some(record) =>
      if redirectUri != "" && redirectUri != record.redirectUri then Denied(InvalidGrant)
      else if resource.Some? && (record.resource.None? || !SameResource(config, resource.value, record.resource.value)) then
        Denied(InvalidGrant)
      else
        Granted(Server(s.codes - {code},
                       AfterSave(s.tokens, PairFor(config, clientId, GrantedScopes(config, record), record.resource, draw))))
  }

  /** The scopes and resource a refresh would grant. */
  function CheckRefresh(config: Config, s: Server, clientId: string, token: Token, scopes: Option<seq<string>>,
                        resource: Option<Url>, nowMs: nat): OAuthResult<(seq<string>, Url)> {
    if token !in s.tokens.refresh then Denied(InvalidGrant)
    else
      var record := s.tokens.refresh[token];
      if record.clientId != clientId || record.expiresAt < nowMs / 1000 then Denied(InvalidGrant)
      else if record.resource.None? || !config.allowed(record.resource.value) then Denied(InvalidGrant)
      else if resource.Some? && !SameResource(config, resource.value, record.resource.value) then Denied(InvalidGrant)
      else
        var requested := if scopes.Some? then scopes.value else record.scopes;
        if !ScopesWithin(requested, record.scopes) then Denied(AccessDenied)
        else Granted((requested, if resource.Some? then resource.value else record.resource.value))
  }

  function AfterRefresh(config: Config, s: Server, clientId: string, token: Token, scopes: Option<seq<string>>,
                        resource: Option<Url>, draw: Draw): OAuthResult<Server> {
    match CheckRefresh(config, s, clientId, token, scopes, resource, draw.checkMs)
    case Denied(e) => Denied(e)
    case Granted((requested, granted)) =>
      match AfterSavePair(s.tokens, PairFor(config, clientId, requested, Some(granted), draw), Some(ConsumedAt(token, draw)))
      case None => Denied(InvalidGrant)
      case Some(tokens) => Granted(s.(tokens := tokens))
  }

  /** An access token is good when it is there and not expired. */
  function Verified(t: Tokens, token: Token, nowMs: nat): OAuthResult<TokenRecord> {
    if token !in t.access || t.access[token].expiresAt < nowMs / 1000 then Denied(InvalidToken)
    else Granted(t.access[token])
  }

  // -------------------------------------------------------------- the provider

  class SingleUserOAuthProvider {
    const config: Config
    const store: SqliteOAuthStore
    var codes: map<Code, CodeRecord>

    function State(): Server
      reads this, store
    {
      Server(codes, store.Contents())
    }

    constructor (config: Config, store: SqliteOAuthStore)
      ensures this.config == config && this.store == store && State() == Server(map[], store.Contents())
    {
      this.config, this.store := config, store;
      codes := map[];
    }

    /** An authorization request the owner has approved. */
    method Authorize(nowMs: nat, code: Code, clientId: string, redirectUri: string,
                     scopes: Option<seq<string>>, resource: Option<Url>) returns (r: OAuthResult<Code>)
      modifies this
      ensures match AfterAuthorize(config, old(State()), nowMs, code, clientId, redirectUri, scopes, resource)
              case Denied(e) => r == Denied(e) && State() == old(State())
              case Granted(s) => r == Granted(code) && State() == s
    {
      if resource.None? || !config.allowed(resource.value) {
        return Denied(InvalidRequest);
      }
      if scopes.Some? && !ScopesWithin(scopes.value, config.scopes) {
        return Denied(InvalidRequest);
      }
      codes := codes[code := CodeRecord(clientId, redirectUri, scopes, resource, nowMs + CODE_TTL_MS)];
      return Granted(code);
    }

    method IssueTokens(clientId: string, scopes: seq<string>, resource: Option<Url>, consumed: Option<Token>, draw: Draw)
      returns (r: OAuthResult<Issue>)
      modifies store
      ensures var c := if consumed.Some? then Some(ConsumedAt(consumed.value, draw)) else None;
              match AfterSavePair(old(store.Contents()), PairFor(config, clientId, scopes, resource, draw), c)
              case None => r == Denied(InvalidGrant) && State() == old(State())
              case Some(t) => r == Granted(Issue(draw.accessToken, draw.refreshToken, config.accessTtl, scopes)) && State() == Server(codes, t)
    {
      var now := draw.issueMs / 1000;
      var c := if consumed.Some? then Some(Consumed(consumed.value, now, now + REFRESH_RETRY_GRACE_SECONDS)) else None;
      var saved := store.SaveTokenPair(
        TokenPair(draw.accessToken, TokenRecord(clientId, scopes, now + config.accessTtl, resource),
                  draw.refreshToken, TokenRecord(clientId, scopes, now + config.refreshTtl, resource)), c);
      if !saved {
        return Denied(InvalidGrant);
      }
      return Granted(Issue(draw.accessToken, draw.refreshToken, config.accessTtl, scopes));
    }

    method ExchangeAuthorizationCode(clientId: string, code: Code, redirectUri: string, resource: Option<Url>, draw: Draw)
      returns (r: OAuthResult<Issue>)
      modifies this, store
      ensures match AfterCode(config, old(State()), clientId, code, redirectUri, resource, draw)
              case Denied(e) => r == Denied(e) && State() == old(State())
              case Granted(s) =>
                && State() == s && draw.accessToken in store.access && r.Granted?
                && r.value.accessToken == draw.accessToken && r.value.refreshToken == draw.refreshToken
                && r.value.scopes == store.access[draw.accessToken].scopes
                && store.access[draw.accessToken].expiresAt == draw.issueMs / 1000 + r.value.expiresIn
    {
      var record := ValidCode(State(), clientId, code, draw.checkMs);
      if record.None? {
        return Denied(InvalidGrant);
      }
      if redirectUri != "" && redirectUri != record.value.redirectUri {
        return Denied(InvalidGrant);
      }
      if resource.Some? && (record.value.resource.None? || !SameResource(config, resource.value, record.value.resource.value)) {
        return Denied(InvalidGrant);
      }
      codes := codes - {code};
      r := IssueTokens(clientId, GrantedScopes(config, record.value), record.value.resource, None, draw);
    }

    method ExchangeRefreshToken(clientId: string, token: Token, scopes: Option<seq<string>>, resource: Option<Url>, draw: Draw)
      returns (r: OAuthResult<Issue>)
      modifies store
      ensures match AfterRefresh(config, old(State()), clientId, token, scopes, resource, draw)
              case Denied(e) => r == Denied(e) && State() == old(State())
              case Granted(s) =>
                && State() == s && draw.accessToken in store.access && r.Granted?
                && r.value.accessToken == draw.accessToken && r.value.refreshToken == draw.refreshToken
                && r.value.scopes == store.access[draw.accessToken].scopes
                && store.access[draw.accessToken].expiresAt == draw.issueMs / 1000 + r.value.expiresIn
    {
      var found := store.GetRefreshToken(token);
      if found.None? || found.value.clientId != clientId || found.value.expiresAt < draw.checkMs / 1000 {
        return Denied(InvalidGrant);
      }
      var record := found.value;
      if record.resource.None? || !config.allowed(record.resource.value) {
        return Denied(InvalidGrant);
      }
      if resource.Some? && !SameResource(config, resource.value, record.resource.value) {
        return Denied(InvalidGrant);
      }
      var requested := if scopes.Some? then scopes.value else record.scopes;
      if !ScopesWithin(requested, record.scopes) {
        return Denied(AccessDenied);
      }
      r := IssueTokens(clientId, requested, if resource.Some? then resource else record.resource, Some(token), draw);
    }

    method VerifyAccessToken(token: Token, nowMs: nat) returns (r: OAuthResult<TokenRecord>)
      ensures r == Verified(store.Contents(), token, nowMs)
      ensures r.Granted? <==> token in store.access && store.access[token].expiresAt >= nowMs / 1000
    {
      var record := store.GetAccessToken(token);
      if record.None? || record.value.expiresAt < nowMs / 1000 {
        return Denied(InvalidToken);
      }
      return Granted(record.value);
    }

    method RevokeToken(token: Token)
      modifies store
      ensures State() == old(State()).(tokens := AfterRevoke(old(store.Contents()), token))
    {
      store.DeleteToken(token);
    }
  }
}
