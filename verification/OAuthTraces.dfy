/** Every run of the provider over a clock that never goes back, with fresh codes and tokens.
    Single-use codes are section 10.5 of RFC 6749. */
module OAuthTraces {
  import opened Options
  import opened OAuthStore
  import opened OAuthProvider

  /** What has happened, for stating properties: no operation reads it. */
  datatype Past = Past(
    approved: map<Code, CodeRecord>,
    exchanged: set<Code>,
    issued: set<Token>,
    origin: map<Token, Code>,
    deadline: map<Token, int>)

  datatype Life = Life(server: Server, nowMs: nat, past: Past)

  datatype Step =
    | Tick(ms: nat)
    | Approve(code: Code, clientId: string, redirectUri: string, scopes: Option<seq<string>>, resource: Option<Url>)
    | Exchange(clientId: string, code: Code, redirectUri: string, resource: Option<Url>, draw: Draw)
    | Refresh(clientId: string, token: Token, scopes: Option<seq<string>>, resource: Option<Url>, draw: Draw)
    | Revoke(token: Token)
    | Restart

  const FIRST := Life(Server(map[], Tokens(map[], map[])), 0, Past(map[], {}, {}, map[], map[]))

  predicate FreshDraw(l: Life, draw: Draw) {
    && draw.accessToken !in l.past.issued && draw.refreshToken !in l.past.issued
    && draw.checkMs == l.nowMs <= draw.issueMs
  }

  predicate Enabled(l: Life, step: Step) {
    match step
    case Approve(code, _, _, _, _) => code !in l.past.approved
    case Exchange(_, _, _, _, draw) => FreshDraw(l, draw)
    case Refresh(_, _, _, _, draw) => FreshDraw(l, draw)
    case _ => true
  }

  function ExchangeResult(config: Config, l: Life, step: Step): OAuthResult<Server>
    requires step.Exchange?
  {
    AfterCode(config, l.server, step.clientId, step.code, step.redirectUri, step.resource, step.draw)
  }

  function RefreshResult(config: Config, l: Life, step: Step): OAuthResult<Server>
    requires step.Refresh?
  {
    AfterRefresh(config, l.server, step.clientId, step.token, step.scopes, step.resource, step.draw)
  }

  function Issued(past: Past, draw: Draw, code: Code): Past {
    past.(issued := past.issued + {draw.accessToken, draw.refreshToken},
          origin := past.origin[draw.accessToken := code][draw.refreshToken := code])
  }

  /** The time after which a refresh token used at a time is no longer good. */
  function Deadline(record: TokenRecord, draw: Draw): int {
    Min(record.expiresAt, draw.issueMs / 1000 + REFRESH_RETRY_GRACE_SECONDS)
  }

  function OriginOf(past: Past, token: Token): Code {
    if token in past.origin then past.origin[token] else ""
  }

  function Next(config: Config, l: Life, step: Step): Life {
    match step
    case Tick(ms) => l.(nowMs := l.nowMs + ms)
    case Approve(code, clientId, redirectUri, scopes, resource) =>
      (match AfterAuthorize(config, l.server, l.nowMs, code, clientId, redirectUri, scopes, resource)
       case Denied(_) => l
       case Granted(s) => l.(server := s, past := l.past.(approved := l.past.approved[code := s.codes[code]])))
    case Exchange(_, code, _, _, draw) =>
      (match ExchangeResult(config, l, step)
       case Denied(_) => l.(nowMs := if draw.issueMs >= l.nowMs then draw.issueMs else l.nowMs)
       case Granted(s) =>
         Life(s, draw.issueMs, Issued(l.past, draw, code).(exchanged := l.past.exchanged + {code})))
    case Refresh(_, token, _, _, draw) =>
      (match RefreshResult(config, l, step)
       case Denied(_) => l.(nowMs := if draw.issueMs >= l.nowMs then draw.issueMs else l.nowMs)
       case Granted(s) =>
         var past := Issued(l.past, draw, OriginOf(l.past, token));
         Life(s, draw.issueMs,
              past.(deadline := if token in l.past.deadline || token !in l.server.tokens.refresh then l.past.deadline
                                else l.past.deadline[token := Deadline(l.server.tokens.refresh[token], draw)])))
    case Revoke(token) => l.(server := l.server.(tokens := AfterRevoke(l.server.tokens, token)))
    case Restart => l.(server := Server(map[], AfterExpiry(l.server.tokens, l.nowMs / 1000)))
  }

  ghost predicate IsTrace(config: Config, states: seq<Life>, steps: seq<Step>) {
    && |states| == |steps| + 1 && states[0] == FIRST
    && forall i {:trigger steps[i]} | 0 <= i < |steps| :: Enabled(states[i], steps[i]) && states[i + 1] == Next(config, states[i], steps[i])
  }

  // ----------------------------------------------------------------- invariant

  /** A token keeps the client and the resource it was granted for, with no more scopes. */
  predicate Descends(config: Config, record: TokenRecord, code: CodeRecord) {
    && record.clientId == code.clientId
    && record.resource.Some? && code.resource.Some?
    && SameResource(config, record.resource.value, code.resource.value)
    && ScopesWithin(record.scopes, GrantedScopes(config, code))
  }

  predicate HasOrigin(config: Config, past: Past, token: Token, record: TokenRecord) {
    && token in past.issued && token in past.origin && past.origin[token] in past.approved
    && Descends(config, record, past.approved[past.origin[token]])
  }

  predicate TokensOk(config: Config, past: Past, t: Tokens) {
    && (forall k | k in t.access :: HasOrigin(config, past, k, t.access[k]))
    && (forall k | k in t.refresh :: HasOrigin(config, past, k, t.refresh[k]))
  }

  predicate CodesOk(past: Past, codes: map<Code, CodeRecord>) {
    && (forall c | c in codes :: c in past.approved && past.approved[c] == codes[c] && c !in past.exchanged)
    && (forall c | c in past.exchanged :: c in past.approved)
    && (forall c | c in past.approved :: past.approved[c].resource.Some?)
  }

  predicate DeadlinesOk(past: Past, refresh: map<Token, TokenRecord>, nowMs: nat) {
    forall k | k in past.deadline ::
      && k in past.issued && past.deadline[k] <= nowMs / 1000 + REFRESH_RETRY_GRACE_SECONDS
      && (k in refresh ==> refresh[k].expiresAt == past.deadline[k])
  }

  predicate Inv(config: Config, l: Life) {
    && TokensOk(config, l.past, l.server.tokens)
    && CodesOk(l.past, l.server.codes)
    && DeadlinesOk(l.past, l.server.tokens.refresh, l.nowMs)
  }

  lemma ScopesTransitive(a: seq<string>, b: seq<string>, c: seq<string>)
    requires ScopesWithin(a, b) && ScopesWithin(b, c)
    ensures ScopesWithin(a, c)
  {
    forall i | 0 <= i < |a| ensures a[i] in c {
      var j :| 0 <= j < |b| && b[j] == a[i];
    }
  }

  lemma IssuedKeepsOrigins(config: Config, past: Past, t: Tokens, draw: Draw, code: Code)
    requires TokensOk(config, past, t)
    requires draw.accessToken !in past.issued && draw.refreshToken !in past.issued
    ensures TokensOk(config, Issued(past, draw, code), t)
  {
  }

  lemma PairDescends(config: Config, past: Past, draw: Draw, code: Code, clientId: string, scopes: seq<string>, resource: Url)
    requires code in past.approved && past.approved[code].clientId == clientId && past.approved[code].resource.Some?
    requires SameResource(config, resource, past.approved[code].resource.value)
    requires ScopesWithin(scopes, GrantedScopes(config, past.approved[code]))
    ensures var pair := PairFor(config, clientId, scopes, Some(resource), draw);
            && HasOrigin(config, Issued(past, draw, code), draw.accessToken, pair.access)
            && HasOrigin(config, Issued(past, draw, code), draw.refreshToken, pair.refresh)
  {
  }

  lemma ExchangeKeeps(config: Config, l: Life, step: Step)
    requires Inv(config, l) && step.Exchange? && Enabled(l, step)
    ensures Inv(config, Next(config, l, step))
  {
    if ExchangeResult(config, l, step).Granted? {
      var record := l.server.codes[step.code];
      IssuedKeepsOrigins(config, l.past, l.server.tokens, step.draw, step.code);
      assert ScopesWithin(GrantedScopes(config, record), GrantedScopes(config, record));
      PairDescends(config, l.past, step.draw, step.code, step.clientId, GrantedScopes(config, record), record.resource.value);
    }
  }

  lemma ConsumeKeeps(config: Config, past: Past, t: Tokens, c: Consumed)
    requires TokensOk(config, past, t) && AfterConsume(t, c).Some?
    ensures TokensOk(config, past, AfterConsume(t, c).value)
  {
    var r := t.refresh[c.token];
    assert HasOrigin(config, past, c.token, r);
  }

  lemma SaveKeeps(config: Config, past: Past, t: Tokens, pair: TokenPair)
    requires TokensOk(config, past, t)
    requires HasOrigin(config, past, pair.accessToken, pair.access) && HasOrigin(config, past, pair.refreshToken, pair.refresh)
    ensures TokensOk(config, past, AfterSave(t, pair))
  {
  }

  /** What a granted refresh has checked, and what it saves. */
  lemma RefreshGranted(config: Config, l: Life, step: Step)
    requires step.Refresh? && RefreshResult(config, l, step).Granted?
    ensures step.token in l.server.tokens.refresh
    ensures var record := l.server.tokens.refresh[step.token];
            var requested := if step.scopes.Some? then step.scopes.value else record.scopes;
            && record.clientId == step.clientId && record.resource.Some? && ScopesWithin(requested, record.scopes)
            && var resource := if step.resource.Some? then step.resource.value else record.resource.value;
               && SameResource(config, resource, record.resource.value)
               && AfterConsume(l.server.tokens, ConsumedAt(step.token, step.draw)).Some?
               && RefreshResult(config, l, step).value.tokens ==
                  AfterSave(AfterConsume(l.server.tokens, ConsumedAt(step.token, step.draw)).value,
                            PairFor(config, step.clientId, requested, Some(resource), step.draw))
  {
  }

  /** The tokens of a granted refresh descend from the same code. */
  lemma RefreshKeepsTokens(config: Config, l: Life, step: Step)
    requires TokensOk(config, l.past, l.server.tokens) && step.Refresh? && Enabled(l, step)
    requires RefreshResult(config, l, step).Granted?
    ensures TokensOk(config, Next(config, l, step).past, Next(config, l, step).server.tokens)
  {
    RefreshGranted(config, l, step);
    var record := l.server.tokens.refresh[step.token];
    var requested := if step.scopes.Some? then step.scopes.value else record.scopes;
    var resource := if step.resource.Some? then step.resource.value else record.resource.value;
    assert HasOrigin(config, l.past, step.token, record);
    var code := l.past.origin[step.token];
    var t := AfterConsume(l.server.tokens, ConsumedAt(step.token, step.draw)).value;
    ConsumeKeeps(config, l.past, l.server.tokens, ConsumedAt(step.token, step.draw));
    IssuedKeepsOrigins(config, l.past, t, step.draw, code);
    ScopesTransitive(requested, record.scopes, GrantedScopes(config, l.past.approved[code]));
    PairDescends(config, l.past, step.draw, code, step.clientId, requested, resource);
    SaveKeeps(config, Issued(l.past, step.draw, code), t, PairFor(config, step.clientId, requested, Some(resource), step.draw));
  }

  /** The deadline of the token used is what it already was, or is fixed now. */
  lemma RefreshKeepsDeadlines(config: Config, l: Life, step: Step)
    requires Inv(config, l) && step.Refresh? && Enabled(l, step) && RefreshResult(config, l, step).Granted?
    ensures var l' := Next(config, l, step); DeadlinesOk(l'.past, l'.server.tokens.refresh, l'.nowMs)
  {
    assert HasOrigin(config, l.past, step.token, l.server.tokens.refresh[step.token]);
  }

  lemma StepKeeps(config: Config, l: Life, step: Step)
    requires Inv(config, l) && Enabled(l, step)
    ensures Inv(config, Next(config, l, step))
  {
    match step {
      case Exchange(_, _, _, _, _) => ExchangeKeeps(config, l, step);
      case Refresh(_, _, _, _, _) =>
        if RefreshResult(config, l, step).Granted? {
          RefreshKeepsTokens(config, l, step);
          RefreshKeepsDeadlines(config, l, step);
        }
      case _ =>
    }
  }

  lemma {:induction false} Reachable(config: Config, states: seq<Life>, steps: seq<Step>, n: nat)
    requires IsTrace(config, states, steps) && n <= |steps|
    ensures Inv(config, states[n])
  {
    if n > 0 {
      Reachable(config, states, steps, n - 1);
      StepKeeps(config, states[n - 1], steps[n - 1]);
    }
  }

  // ------------------------------------------------------------------ theorems

  /** Every token, however many refreshes away from its code, keeps the client and the
      normalised resource of that code, with scopes within those it granted. */
  lemma TokensDescend(config: Config, states: seq<Life>, steps: seq<Step>, n: nat, token: Token)
    requires IsTrace(config, states, steps) && n <= |steps|
    requires token in states[n].server.tokens.access || token in states[n].server.tokens.refresh
    ensures var l := states[n];
            && token in l.past.origin && l.past.origin[token] in l.past.approved
            && var code := l.past.approved[l.past.origin[token]];
               && (token in l.server.tokens.access ==> Descends(config, l.server.tokens.access[token], code))
               && (token in l.server.tokens.refresh ==> Descends(config, l.server.tokens.refresh[token], code))
  {
    Reachable(config, states, steps, n);
  }

  /** What the past never forgets: codes exchanged, and deadlines fixed. */
  ghost predicate Remembers(before: Past, after: Past) {
    && before.exchanged <= after.exchanged
    && forall k | k in before.deadline :: k in after.deadline && after.deadline[k] == before.deadline[k]
  }

  lemma RemembersTransitive(a: Past, b: Past, c: Past)
    requires Remembers(a, b) && Remembers(b, c)
    ensures Remembers(a, c)
  {
  }

  lemma StepRemembers(config: Config, l: Life, step: Step)
    requires Enabled(l, step) && Inv(config, l)
    ensures Remembers(l.past, Next(config, l, step).past)
  {
  }

  lemma {:induction false} PastStays(config: Config, states: seq<Life>, steps: seq<Step>, n: nat, m: nat)
    requires IsTrace(config, states, steps) && n <= m <= |steps|
    ensures Remembers(states[n].past, states[m].past)
    decreases m - n
  {
    if n < m {
      PastStays(config, states, steps, n, m - 1);
      Reachable(config, states, steps, m - 1);
      StepRemembers(config, states[m - 1], steps[m - 1]);
      RemembersTransitive(states[n].past, states[m - 1].past, states[m].past);
    }
  }

  /** A code is exchanged at most once. */
  lemma CodeExchangedOnce(config: Config, states: seq<Life>, steps: seq<Step>, n: nat, m: nat)
    requires IsTrace(config, states, steps) && n < m < |steps|
    requires steps[n].Exchange? && steps[m].Exchange? && steps[n].code == steps[m].code
    requires ExchangeResult(config, states[n], steps[n]).Granted?
    ensures ExchangeResult(config, states[m], steps[m]) == Denied(InvalidGrant)
  {
    PastStays(config, states, steps, n + 1, m);
    Reachable(config, states, steps, m);
  }

  predicate UseSucceeds(config: Config, l: Life, step: Step, token: Token) {
    step.Refresh? && step.token == token && RefreshResult(config, l, step).Granted?
  }

  /** The first use of a refresh token fixes its deadline: the earlier of its expiry and 900
      seconds later. No later use moves it, and none succeeds after it. */
  lemma DeadlineFixedByFirstUse(config: Config, states: seq<Life>, steps: seq<Step>, n: nat, m: nat)
    requires IsTrace(config, states, steps) && n < m <= |steps|
    requires steps[n].Refresh? && RefreshResult(config, states[n], steps[n]).Granted?
    requires steps[n].token !in states[n].past.deadline
    ensures var token := steps[n].token;
            token in states[n].server.tokens.refresh &&
            var fixed := Min(states[n].server.tokens.refresh[token].expiresAt, steps[n].draw.issueMs / 1000 + 900);
            && (token in states[m].server.tokens.refresh ==> states[m].server.tokens.refresh[token].expiresAt == fixed)
            && (m < |steps| && UseSucceeds(config, states[m], steps[m], token) ==> steps[m].draw.issueMs / 1000 <= fixed)
  {
    PastStays(config, states, steps, n + 1, m);
    Reachable(config, states, steps, m);
    var token := steps[n].token;
    assert states[n + 1].past.deadline[token] == Deadline(states[n].server.tokens.refresh[token], steps[n].draw);
    assert token in states[m].past.deadline;
  }

  /** An approved code was approved at some earlier step, and lives for five minutes from then. */
  lemma {:induction false} ApprovedEarlier(config: Config, states: seq<Life>, steps: seq<Step>, n: nat, code: Code)
    returns (k: nat)
    requires IsTrace(config, states, steps) && n <= |steps| && code in states[n].past.approved
    ensures k < n && steps[k].Approve? && steps[k].code == code
    ensures states[n].past.approved[code].clientId == steps[k].clientId
    ensures states[n].past.approved[code].redirectUri == steps[k].redirectUri
    ensures states[n].past.approved[code].expiresAtMs == states[k].nowMs + 300000
  {
    assert states[n] == Next(config, states[n - 1], steps[n - 1]);
    if code in states[n - 1].past.approved {
      k := ApprovedEarlier(config, states, steps, n - 1, code);
    } else {
      k := n - 1;
    }
  }

  /** A code is exchanged only by the client it was approved for, within five minutes of that,
      and for the redirect URI it was approved with. */
  lemma ExchangeFollowsApproval(config: Config, states: seq<Life>, steps: seq<Step>, n: nat) returns (k: nat)
    requires IsTrace(config, states, steps) && n < |steps| && steps[n].Exchange?
    requires ExchangeResult(config, states[n], steps[n]).Granted?
    ensures k < n && steps[k].Approve? && steps[k].code == steps[n].code && steps[k].clientId == steps[n].clientId
    ensures steps[n].draw.checkMs <= states[k].nowMs + 300000
    ensures steps[n].redirectUri != "" ==> steps[n].redirectUri == steps[k].redirectUri
  {
    Reachable(config, states, steps, n);
    k := ApprovedEarlier(config, states, steps, n, steps[n].code);
  }

  lemma IssuedGrows(config: Config, l: Life, step: Step, token: Token)
    requires Enabled(l, step) && Inv(config, l) && token in l.past.issued
    ensures token in Next(config, l, step).past.issued
    ensures token !in l.server.tokens.access ==> token !in Next(config, l, step).server.tokens.access
    ensures token !in l.server.tokens.refresh ==> token !in Next(config, l, step).server.tokens.refresh
  {
  }

  /** A token once revoked is never good again. */
  lemma {:induction false} RevokedForGood(config: Config, states: seq<Life>, steps: seq<Step>, n: nat, m: nat)
    requires IsTrace(config, states, steps) && n < m <= |steps|
    requires steps[n].Revoke? && steps[n].token in states[n].past.issued
    ensures steps[n].token in states[m].past.issued
    ensures steps[n].token !in states[m].server.tokens.access && steps[n].token !in states[m].server.tokens.refresh
    decreases m - n
  {
    if n + 1 < m {
      RevokedForGood(config, states, steps, n, m - 1);
      Reachable(config, states, steps, m - 1);
      IssuedGrows(config, states[m - 1], steps[m - 1], steps[n].token);
    }
  }
}
