/** The token tables: access and refresh tokens by hash, saved in pairs, a refresh token's
    expiry brought forward when it is used. Times are whole seconds. */
module OAuthStore {
  import opened Options

  type Token = string
  type Url = string

  datatype TokenRecord = TokenRecord(clientId: string, scopes: seq<string>, expiresAt: int, resource: Option<Url>)

  datatype TokenPair = TokenPair(accessToken: Token, access: TokenRecord, refreshToken: Token, refresh: TokenRecord)

  /** A refresh token used at a time, and until when it may be tried again. */
  datatype Consumed = Consumed(token: Token, now: int, retryUntil: int)

  datatype Tokens = Tokens(access: map<Token, TokenRecord>, refresh: map<Token, TokenRecord>)

  function Min(a: int, b: int): int {
    if a <= b then a else b
  }

  function AfterConsume(t: Tokens, c: Consumed): Option<Tokens> {
    if c.token in t.refresh && t.refresh[c.token].expiresAt >= c.now then
      var r := t.refresh[c.token];
      Some(t.(refresh := t.refresh[c.token := r.(expiresAt := Min(r.expiresAt, c.retryUntil))]))
    else None
  }

  function AfterSave(t: Tokens, pair: TokenPair): Tokens {
    Tokens(t.access[pair.accessToken := pair.access], t.refresh[pair.refreshToken := pair.refresh])
  }

  /** Saving a pair, for a code or for a refresh token that is still good. */
  function AfterSavePair(t: Tokens, pair: TokenPair, consumed: Option<Consumed>): Option<Tokens> {
    match consumed
    case None => Some(AfterSave(t, pair))
    case Some(c) => match AfterConsume(t, c) case None => None case Some(t') => Some(AfterSave(t', pair))
  }

  function AfterRevoke(t: Tokens, token: Token): Tokens {
    Tokens(t.access - {token}, t.refresh - {token})
  }

  function AfterExpiry(t: Tokens, now: int): Tokens {
    Tokens(map k | k in t.access && t.access[k].expiresAt >= now :: t.access[k],
           map k | k in t.refresh && t.refresh[k].expiresAt >= now :: t.refresh[k])
  }

  class SqliteOAuthStore {
    var access: map<Token, TokenRecord>
    var refresh: map<Token, TokenRecord>

    function Contents(): Tokens
      reads this
    {
      Tokens(access, refresh)
    }

    constructor (saved: Tokens, now: int)
      ensures Contents() == AfterExpiry(saved, now)
    {
      access := map k | k in saved.access && saved.access[k].expiresAt >= now :: saved.access[k];
      refresh := map k | k in saved.refresh && saved.refresh[k].expiresAt >= now :: saved.refresh[k];
    }

    /** One transaction: nothing is saved when the used refresh token is gone or expired. */
    method SaveTokenPair(pair: TokenPair, consumed: Option<Consumed>) returns (saved: bool)
      modifies this
      ensures match AfterSavePair(old(Contents()), pair, consumed)
              case None => !saved && Contents() == old(Contents())
              case Some(t) => saved && Contents() == t
    {
      if consumed.Some? {
        var c := consumed.value;
        if c.token !in refresh || refresh[c.token].expiresAt < c.now {
          return false;
        }
        var row := refresh[c.token];
        if c.retryUntil < row.expiresAt {
          row := row.(expiresAt := c.retryUntil);
        }
        refresh := refresh[c.token := row];
      }
      access := access[pair.accessToken := pair.access];
      refresh := refresh[pair.refreshToken := pair.refresh];
      return true;
    }

    method GetRefreshToken(token: Token) returns (r: Option<TokenRecord>)
      ensures r == if token in refresh then Some(refresh[token]) else None
    {
      return if token in refresh then Some(refresh[token]) else None;
    }

    method GetAccessToken(token: Token) returns (r: Option<TokenRecord>)
      ensures r == if token in access then Some(access[token]) else None
    {
      return if token in access then Some(access[token]) else None;
    }

    method DeleteToken(token: Token)
      modifies this
      ensures Contents() == AfterRevoke(old(Contents()), token)
    {
      access := access - {token};
      refresh := refresh - {token};
    }
  }
}
