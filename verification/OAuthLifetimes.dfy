/** How long codes and tokens are good, and when exactly a request for tokens is granted, in terms
    of the steps of a run. Nothing else expires a token early and nothing prolongs it. */
module OAuthLifetimes {
  import opened Options
  import opened OAuthStore
  import opened OAuthProvider
  import opened OAuthTraces

  /** A step that hands out the tokens of its draw. */
  predicate Issues(config: Config, l: Life, step: Step) {
    match step
    case Exchange(_, _, _, _, _) => ExchangeResult(config, l, step).Granted?
    case Refresh(_, _, _, _, _) => RefreshResult(config, l, step).Granted?
    case _ => false
  }

  predicate Revoked(steps: seq<Step>, n: nat, m: nat, token: Token)
    requires n <= m <= |steps|
  {
    exists k | n <= k < m :: steps[k] == Revoke(token)
  }

  predicate Restarted(steps: seq<Step>, n: nat, m: nat)
    requires n <= m <= |steps|
  {
    exists k | n <= k < m :: steps[k].Restart?
  }

  /** A refresh token used with success between two states. */
  predicate Used(config: Config, states: seq<Life>, steps: seq<Step>, n: nat, m: nat, token: Token)
    requires n <= m <= |steps| < |states|
  {
    exists k {:trigger UseSucceeds(config, states[k], steps[k], token)} | n <= k < m ::
      UseSucceeds(config, states[k], steps[k], token)
  }

  predicate ExchangeSucceeds(config: Config, l: Life, step: Step, code: Code) {
    step.Exchange? && step.code == code && ExchangeResult(config, l, step).Granted?
  }

  predicate Exchanged(config: Config, states: seq<Life>, steps: seq<Step>, n: nat, m: nat, code: Code)
    requires n <= m <= |steps| < |states|
  {
    exists k | n <= k < m :: ExchangeSucceeds(config, states[k], steps[k], code)
  }

  // ------------------------------------------------------------- what is handed out

  /** The pair handed out: both tokens carry the client, the scopes and the resource of the grant,
      and each ends its own lifetime after the issue. The code grants what was approved, or all
      scopes when none were named; a refresh grants what it asks for, or else what it had. */
  lemma PairIssued(config: Config, l: Life, step: Step)
    requires Inv(config, l) && Enabled(l, step) && Issues(config, l, step)
    ensures var t := Next(config, l, step).server.tokens;
            && step.draw.accessToken in t.access && step.draw.refreshToken in t.refresh
            && var access := t.access[step.draw.accessToken];
               var refresh := t.refresh[step.draw.refreshToken];
               && access.expiresAt == step.draw.issueMs / 1000 + config.accessTtl
               && refresh.expiresAt == step.draw.issueMs / 1000 + config.refreshTtl
               && access.clientId == refresh.clientId == step.clientId
               && access.scopes == refresh.scopes && access.resource == refresh.resource
               && (step.Exchange? ==>
                     && step.code in l.past.approved
                     && var code := l.past.approved[step.code];
                        && access.resource == code.resource
                        && (code.scopes.Some? ==> access.scopes == code.scopes.value)
                        && (code.scopes.None? ==> access.scopes == config.scopes))
               && (step.Refresh? ==>
                     && step.token in l.server.tokens.refresh
                     && var used := l.server.tokens.refresh[step.token];
                        && (step.scopes.Some? ==> access.scopes == step.scopes.value)
                        && (step.scopes.None? ==> access.scopes == used.scopes)
                        && (step.resource.Some? ==> access.resource == step.resource)
                        && (step.resource.None? ==> access.resource == used.resource))
  {
    if step.Refresh? {
      RefreshGranted(config, l, step);
    }
  }

  // ------------------------------------------------------------------- one step

  /** A record that is there as it was, or gone because its time is over. */
  predicate Kept(table: map<Token, TokenRecord>, token: Token, record: TokenRecord, nowMs: nat) {
    if token in table then table[token] == record else record.expiresAt < nowMs / 1000
  }

  lemma TimePasses(config: Config, l: Life, step: Step)
    requires Enabled(l, step)
    ensures l.nowMs <= Next(config, l, step).nowMs
  {
  }

  lemma LaterStill(record: TokenRecord, a: nat, b: nat)
    requires a <= b && record.expiresAt < a / 1000
    ensures record.expiresAt < b / 1000
  {
  }

  lemma StepKeepsAccess(config: Config, l: Life, step: Step, token: Token, record: TokenRecord)
    requires Enabled(l, step) && token in l.past.issued && step != Revoke(token)
    requires Kept(l.server.tokens.access, token, record, l.nowMs)
    ensures token in Next(config, l, step).past.issued
    ensures var l' := Next(config, l, step); Kept(l'.server.tokens.access, token, record, l'.nowMs)
  {
    TimePasses(config, l, step);
    if token !in l.server.tokens.access {
      LaterStill(record, l.nowMs, Next(config, l, step).nowMs);
    }
  }

  lemma StepKeepsRefresh(config: Config, l: Life, step: Step, token: Token, record: TokenRecord)
    requires Enabled(l, step) && token in l.past.issued && step != Revoke(token)
    requires !UseSucceeds(config, l, step, token)
    requires Kept(l.server.tokens.refresh, token, record, l.nowMs)
    ensures token in Next(config, l, step).past.issued
    ensures var l' := Next(config, l, step); Kept(l'.server.tokens.refresh, token, record, l'.nowMs)
  {
    TimePasses(config, l, step);
    if token !in l.server.tokens.refresh {
      LaterStill(record, l.nowMs, Next(config, l, step).nowMs);
    }
  }

  /** Used, a refresh token may be tried again for fifteen minutes, unless it expires before. */
  lemma UseShortens(config: Config, l: Life, step: Step, token: Token, record: TokenRecord)
    requires Enabled(l, step) && token in l.past.issued && UseSucceeds(config, l, step, token)
    requires Kept(l.server.tokens.refresh, token, record, l.nowMs)
    ensures token in Next(config, l, step).past.issued
    ensures var l' := Next(config, l, step);
            Kept(l'.server.tokens.refresh, token,
                 record.(expiresAt := if record.expiresAt <= step.draw.issueMs / 1000 + 900 then record.expiresAt
                                      else step.draw.issueMs / 1000 + 900), l'.nowMs)
  {
    RefreshGranted(config, l, step);
  }

  // ------------------------------------------------------------------- whole runs

  lemma {:induction false} IssuedStays(config: Config, states: seq<Life>, steps: seq<Step>, n: nat, m: nat, token: Token)
    requires IsTrace(config, states, steps) && n <= m <= |steps| && token in states[n].past.issued
    ensures token in states[m].past.issued
    decreases m - n
  {
    if n < m {
      IssuedStays(config, states, steps, n, m - 1, token);
      Reachable(config, states, steps, m - 1);
      IssuedGrows(config, states[m - 1], steps[m - 1], token);
    }
  }

  lemma HandedOut(config: Config, states: seq<Life>, steps: seq<Step>, n: nat)
    requires IsTrace(config, states, steps) && n < |steps| && Issues(config, states[n], steps[n])
    ensures steps[n].draw.accessToken in states[n + 1].past.issued && steps[n].draw.refreshToken in states[n + 1].past.issued
    ensures steps[n].draw.accessToken in states[n + 1].server.tokens.access
    ensures steps[n].draw.refreshToken in states[n + 1].server.tokens.refresh
    ensures states[n + 1].server.tokens.access[steps[n].draw.accessToken].clientId == steps[n].clientId
    ensures states[n + 1].server.tokens.access[steps[n].draw.accessToken].expiresAt == steps[n].draw.issueMs / 1000 + config.accessTtl
    ensures states[n + 1].server.tokens.refresh[steps[n].draw.refreshToken].expiresAt == steps[n].draw.issueMs / 1000 + config.refreshTtl
  {
    Reachable(config, states, steps, n);
    PairIssued(config, states[n], steps[n]);
  }

  lemma {:induction false} AccessKept(config: Config, states: seq<Life>, steps: seq<Step>, n: nat, m: nat,
                                      token: Token, record: TokenRecord)
    requires IsTrace(config, states, steps) && n <= m <= |steps| && !Revoked(steps, n, m, token)
    requires token in states[n].past.issued && Kept(states[n].server.tokens.access, token, record, states[n].nowMs)
    ensures token in states[m].past.issued && Kept(states[m].server.tokens.access, token, record, states[m].nowMs)
    decreases m - n
  {
    if n < m {
      AccessKept(config, states, steps, n, m - 1, token, record);
      StepKeepsAccess(config, states[m - 1], steps[m - 1], token, record);
    }
  }

  lemma RefreshStep(config: Config, states: seq<Life>, steps: seq<Step>, n: nat, m: nat, i: nat, token: Token, record: TokenRecord)
    requires IsTrace(config, states, steps) && n <= i < m <= |steps|
    requires !Revoked(steps, n, m, token) && !Used(config, states, steps, n, m, token)
    requires token in states[i].past.issued && Kept(states[i].server.tokens.refresh, token, record, states[i].nowMs)
    ensures token in states[i + 1].past.issued
    ensures Kept(states[i + 1].server.tokens.refresh, token, record, states[i + 1].nowMs)
  {
    assert Enabled(states[i], steps[i]) && !UseSucceeds(config, states[i], steps[i], token);
    StepKeepsRefresh(config, states[i], steps[i], token, record);
  }

  lemma RefreshKept(config: Config, states: seq<Life>, steps: seq<Step>, n: nat, m: nat, token: Token, record: TokenRecord)
    requires IsTrace(config, states, steps) && n <= m <= |steps|
    requires !Revoked(steps, n, m, token) && !Used(config, states, steps, n, m, token)
    requires token in states[n].past.issued && Kept(states[n].server.tokens.refresh, token, record, states[n].nowMs)
    ensures token in states[m].past.issued && Kept(states[m].server.tokens.refresh, token, record, states[m].nowMs)
  {
    for i := n to m
      invariant token in states[i].past.issued && Kept(states[i].server.tokens.refresh, token, record, states[i].nowMs)
    {
      RefreshStep(config, states, steps, n, m, i, token, record);
    }
  }

  /** An access token is accepted until its lifetime is over, counted in whole seconds from its
      issue, and never after, whatever else happens; only revoking it ends it before. */
  lemma AccessLifetime(config: Config, states: seq<Life>, steps: seq<Step>, n: nat, m: nat)
    requires IsTrace(config, states, steps) && n < m <= |steps| && Issues(config, states[n], steps[n])
    ensures var verified := Verified(states[m].server.tokens, steps[n].draw.accessToken, states[m].nowMs);
            && (verified.Granted? <==>
                  && !Revoked(steps, n + 1, m, steps[n].draw.accessToken)
                  && states[m].nowMs / 1000 <= steps[n].draw.issueMs / 1000 + config.accessTtl)
            && (verified.Granted? ==> verified.value.clientId == steps[n].clientId)
  {
    var token := steps[n].draw.accessToken;
    HandedOut(config, states, steps, n);
    if Revoked(steps, n + 1, m, token) {
      var k :| n + 1 <= k < m && steps[k] == Revoke(token);
      IssuedStays(config, states, steps, n + 1, k, token);
      RevokedForGood(config, states, steps, k, m);
    } else {
      AccessKept(config, states, steps, n + 1, m, token, states[n + 1].server.tokens.access[token]);
    }
  }

  /** What a refresh must say to be granted: the client the token is for, a resource still served
      here and the same as the token's, and no scope the token does not have. */
  predicate Suits(config: Config, record: TokenRecord, step: Step)
    requires step.Refresh?
  {
    && step.clientId == record.clientId
    && record.resource.Some? && config.allowed(record.resource.value)
    && (step.resource.Some? ==> SameResource(config, step.resource.value, record.resource.value))
    && (step.scopes.Some? ==> ScopesWithin(step.scopes.value, record.scopes))
  }

  lemma RefreshIff(config: Config, l: Life, step: Step)
    requires Enabled(l, step) && step.Refresh?
    ensures RefreshResult(config, l, step).Granted? <==>
              && step.token in l.server.tokens.refresh
              && Suits(config, l.server.tokens.refresh[step.token], step)
              && step.draw.issueMs / 1000 <= l.server.tokens.refresh[step.token].expiresAt
    ensures RefreshResult(config, l, step) == Denied(AccessDenied) <==>
              && step.token in l.server.tokens.refresh
              && step.scopes.Some? && !ScopesWithin(step.scopes.value, l.server.tokens.refresh[step.token].scopes)
              && Suits(config, l.server.tokens.refresh[step.token], Refresh(step.clientId, step.token, None, step.resource, step.draw))
              && step.draw.checkMs / 1000 <= l.server.tokens.refresh[step.token].expiresAt
    ensures RefreshResult(config, l, step).Denied? ==> RefreshResult(config, l, step).error in {InvalidGrant, AccessDenied}
  {
    if step.token in l.server.tokens.refresh {
      var record := l.server.tokens.refresh[step.token];
      assert ScopesWithin(record.scopes, record.scopes);
      LaterDivides(step.draw.checkMs, step.draw.issueMs);
    }
  }

  lemma LaterDivides(a: nat, b: nat)
    requires a <= b
    ensures a / 1000 <= b / 1000
  {
  }

  /** With the refresh token's record known up to its expiry, a request is granted exactly when it
      suits the record and comes in time. */
  lemma KeptIff(config: Config, l: Life, step: Step, record: TokenRecord)
    requires Enabled(l, step) && step.Refresh? && Kept(l.server.tokens.refresh, step.token, record, l.nowMs)
    ensures RefreshResult(config, l, step).Granted? <==>
              Suits(config, record, step) && step.draw.issueMs / 1000 <= record.expiresAt
  {
    RefreshIff(config, l, step);
    LaterDivides(l.nowMs, step.draw.issueMs);
  }

  /** The same for a token already used. */
  lemma RetriedIff(config: Config, l: Life, step: Step, record: TokenRecord, use: Draw)
    requires Enabled(l, step) && step.Refresh? && Kept(l.server.tokens.refresh, step.token, Retried(record, use), l.nowMs)
    ensures RefreshResult(config, l, step).Granted? <==>
              && Suits(config, record, step)
              && step.draw.issueMs / 1000 <= record.expiresAt && step.draw.issueMs / 1000 <= use.issueMs / 1000 + 900
  {
    KeptIff(config, l, step, Retried(record, use));
  }

  lemma RevokedRefresh(config: Config, states: seq<Life>, steps: seq<Step>, n: nat, m: nat)
    requires IsTrace(config, states, steps) && n < m <= |steps| && Issues(config, states[n], steps[n])
    requires Revoked(steps, n + 1, m, steps[n].draw.refreshToken)
    ensures steps[n].draw.refreshToken !in states[m].server.tokens.refresh
    ensures m < |steps| && steps[m].Refresh? && steps[m].token == steps[n].draw.refreshToken ==>
              RefreshResult(config, states[m], steps[m]).Denied?
  {
    var token := steps[n].draw.refreshToken;
    HandedOut(config, states, steps, n);
    var k :| n + 1 <= k < m && steps[k] == Revoke(token);
    IssuedStays(config, states, steps, n + 1, k, token);
    RevokedForGood(config, states, steps, k, m);
  }

  /** The first use of a refresh token is granted exactly when the token is not revoked, the
      request suits it, and its lifetime, counted from its issue, is not over. */
  lemma RefreshLifetime(config: Config, states: seq<Life>, steps: seq<Step>, n: nat, m: nat)
    requires IsTrace(config, states, steps) && n < m < |steps| && Issues(config, states[n], steps[n])
    requires steps[m].Refresh? && steps[m].token == steps[n].draw.refreshToken
    requires !Used(config, states, steps, n + 1, m, steps[m].token)
    ensures steps[m].token in states[n + 1].server.tokens.refresh
    ensures RefreshResult(config, states[m], steps[m]).Granted? <==>
              && !Revoked(steps, n + 1, m, steps[m].token)
              && Suits(config, states[n + 1].server.tokens.refresh[steps[m].token], steps[m])
              && steps[m].draw.issueMs / 1000 <= steps[n].draw.issueMs / 1000 + config.refreshTtl
  {
    HandedOut(config, states, steps, n);
    if Revoked(steps, n + 1, m, steps[m].token) {
      RevokedRefresh(config, states, steps, n, m);
    } else {
      var record := states[n + 1].server.tokens.refresh[steps[m].token];
      RefreshKept(config, states, steps, n + 1, m, steps[m].token, record);
      KeptIff(config, states[m], steps[m], record);
    }
  }

  /** The end of a refresh token first used at a step: its own, or fifteen minutes after the use. */
  function Retried(record: TokenRecord, use: Draw): TokenRecord {
    record.(expiresAt := if record.expiresAt <= use.issueMs / 1000 + 900 then record.expiresAt
                         else use.issueMs / 1000 + 900)
  }

  lemma UsedFirst(config: Config, states: seq<Life>, steps: seq<Step>, n: nat, u: nat, token: Token, record: TokenRecord)
    requires IsTrace(config, states, steps) && n <= u < |steps| && !Revoked(steps, n, u, token)
    requires UseSucceeds(config, states[u], steps[u], token) && !Used(config, states, steps, n, u, token)
    requires token in states[n].past.issued && Kept(states[n].server.tokens.refresh, token, record, states[n].nowMs)
    ensures token in states[u + 1].past.issued && steps[u].draw.issueMs <= states[u + 1].nowMs
    ensures Kept(states[u + 1].server.tokens.refresh, token, Retried(record, steps[u].draw), states[u + 1].nowMs)
  {
    RefreshKept(config, states, steps, n, u, token, record);
    UseShortens(config, states[u], steps[u], token, record);
  }

  lemma {:induction false} RetryKept(config: Config, states: seq<Life>, steps: seq<Step>, n: nat, m: nat,
                                     token: Token, record: TokenRecord, use: Draw)
    requires IsTrace(config, states, steps) && n <= m <= |steps| && !Revoked(steps, n, m, token)
    requires token in states[n].past.issued && use.issueMs <= states[n].nowMs
    requires Kept(states[n].server.tokens.refresh, token, Retried(record, use), states[n].nowMs)
    ensures token in states[m].past.issued && use.issueMs <= states[m].nowMs
    ensures Kept(states[m].server.tokens.refresh, token, Retried(record, use), states[m].nowMs)
    decreases m - n
  {
    if n < m {
      RetryKept(config, states, steps, n, m - 1, token, record, use);
      RetryStays(config, states[m - 1], steps[m - 1], token, record, use);
    }
  }

  /** No later step, and no later use, moves the end fixed by the first use. */
  lemma RetryStays(config: Config, l: Life, step: Step, token: Token, record: TokenRecord, use: Draw)
    requires Enabled(l, step) && token in l.past.issued && step != Revoke(token) && use.issueMs <= l.nowMs
    requires Kept(l.server.tokens.refresh, token, Retried(record, use), l.nowMs)
    ensures token in Next(config, l, step).past.issued && use.issueMs <= Next(config, l, step).nowMs
    ensures var l' := Next(config, l, step); Kept(l'.server.tokens.refresh, token, Retried(record, use), l'.nowMs)
  {
    TimePasses(config, l, step);
    if UseSucceeds(config, l, step, token) {
      UseShortens(config, l, step, token, Retried(record, use));
      LaterDivides(use.issueMs, step.draw.issueMs);
    } else {
      StepKeepsRefresh(config, l, step, token, Retried(record, use));
    }
  }

  lemma NotRevokedBetween(steps: seq<Step>, n: nat, u: nat, m: nat, token: Token)
    requires n <= u <= m <= |steps| && !Revoked(steps, n, m, token)
    ensures !Revoked(steps, n, u, token) && !Revoked(steps, u, m, token)
  {
  }

  /** What is left of a token first used at a step. */
  lemma UsedKept(config: Config, states: seq<Life>, steps: seq<Step>, n: nat, u: nat, m: nat, token: Token, record: TokenRecord)
    requires IsTrace(config, states, steps) && n <= u < m <= |steps| && !Revoked(steps, n, m, token)
    requires UseSucceeds(config, states[u], steps[u], token) && !Used(config, states, steps, n, u, token)
    requires token in states[n].past.issued && Kept(states[n].server.tokens.refresh, token, record, states[n].nowMs)
    ensures Kept(states[m].server.tokens.refresh, token, Retried(record, steps[u].draw), states[m].nowMs)
  {
    NotRevokedBetween(steps, n, u, m, token);
    UsedFirst(config, states, steps, n, u, token, record);
    NotRevokedBetween(steps, n, u + 1, m, token);
    RetryKept(config, states, steps, u + 1, m, token, record, steps[u].draw);
  }

  /** A refresh token used before is granted again exactly until it expires or fifteen minutes
      after its first use, whichever comes first, however often it is used between. */
  lemma RefreshRetried(config: Config, states: seq<Life>, steps: seq<Step>, n: nat, u: nat, m: nat)
    requires IsTrace(config, states, steps) && n < u < m < |steps| && Issues(config, states[n], steps[n])
    requires steps[m].Refresh? && steps[m].token == steps[n].draw.refreshToken
    requires UseSucceeds(config, states[u], steps[u], steps[m].token)
    requires !Used(config, states, steps, n + 1, u, steps[m].token)
    ensures steps[m].token in states[n + 1].server.tokens.refresh
    ensures RefreshResult(config, states[m], steps[m]).Granted? <==>
              && !Revoked(steps, n + 1, m, steps[m].token)
              && Suits(config, states[n + 1].server.tokens.refresh[steps[m].token], steps[m])
              && steps[m].draw.issueMs / 1000 <= steps[n].draw.issueMs / 1000 + config.refreshTtl
              && steps[m].draw.issueMs / 1000 <= steps[u].draw.issueMs / 1000 + 900
  {
    HandedOut(config, states, steps, n);
    if Revoked(steps, n + 1, m, steps[m].token) {
      RevokedRefresh(config, states, steps, n, m);
    } else {
      var record := states[n + 1].server.tokens.refresh[steps[m].token];
      UsedKept(config, states, steps, n + 1, u, m, steps[m].token, record);
      RetriedIff(config, states[m], steps[m], record, steps[u].draw);
    }
  }

  // ------------------------------------------------------------------------ codes

  /** An approval leaves its code exactly when the resource is one served here and every scope
      named is one offered here. */
  lemma ApprovedIff(config: Config, l: Life, step: Step)
    requires Enabled(l, step) && step.Approve?
    ensures step.code in Next(config, l, step).past.approved <==>
              && step.resource.Some? && config.allowed(step.resource.value)
              && (step.scopes.Some? ==> forall scope | scope in step.scopes.value :: scope in config.scopes)
    ensures step.code in Next(config, l, step).past.approved ==>
              var l' := Next(config, l, step);
              && step.code in l'.server.codes && l'.server.codes[step.code] == l'.past.approved[step.code]
              && l'.past.approved[step.code] ==
                 CodeRecord(step.clientId, step.redirectUri, step.scopes, step.resource, l.nowMs + 300000)
  {
    if step.scopes.Some? && ScopesWithin(step.scopes.value, config.scopes) {
      forall scope | scope in step.scopes.value ensures scope in config.scopes {
        var i :| 0 <= i < |step.scopes.value| && step.scopes.value[i] == scope;
      }
    }
  }

  lemma StepKeepsCode(config: Config, l: Life, step: Step, code: Code)
    requires Enabled(l, step) && !step.Restart? && !ExchangeSucceeds(config, l, step, code)
    requires code in l.past.approved && code in l.server.codes
    ensures var l' := Next(config, l, step);
            && code in l'.past.approved && code in l'.server.codes && l'.server.codes[code] == l.server.codes[code]
  {
  }

  lemma {:induction false} CodeKept(config: Config, states: seq<Life>, steps: seq<Step>, k: nat, m: nat)
    requires IsTrace(config, states, steps) && k < m <= |steps|
    requires steps[k].Approve? && steps[k].code in states[k + 1].past.approved
    requires !Restarted(steps, k + 1, m) && !Exchanged(config, states, steps, k + 1, m, steps[k].code)
    ensures var code := steps[k].code;
            && code in states[m].past.approved && code in states[m].server.codes
            && code in states[k + 1].server.codes && states[m].server.codes[code] == states[k + 1].server.codes[code]
    decreases m - k
  {
    ApprovedIff(config, states[k], steps[k]);
    if k + 1 < m {
      CodeKept(config, states, steps, k, m - 1);
      StepKeepsCode(config, states[m - 1], steps[m - 1], steps[k].code);
    }
  }

  lemma {:induction false} RestartForgets(config: Config, states: seq<Life>, steps: seq<Step>, r: nat, m: nat, code: Code)
    requires IsTrace(config, states, steps) && r < m <= |steps| && steps[r].Restart?
    requires code in states[r].past.approved
    ensures code in states[m].past.approved && code !in states[m].server.codes
    decreases m - r
  {
    if r + 1 < m {
      RestartForgets(config, states, steps, r, m - 1, code);
    }
    StepForgets(config, states[m - 1], steps[m - 1], code);
  }

  /** A code approved before comes back by no step. */
  lemma StepForgets(config: Config, l: Life, step: Step, code: Code)
    requires Enabled(l, step) && code in l.past.approved
    ensures code in Next(config, l, step).past.approved
    ensures step.Restart? || code !in l.server.codes ==> code !in Next(config, l, step).server.codes
  {
  }

  lemma {:induction false} ApprovedStays(config: Config, states: seq<Life>, steps: seq<Step>, n: nat, m: nat, code: Code)
    requires IsTrace(config, states, steps) && n <= m <= |steps| && code in states[n].past.approved
    ensures code in states[m].past.approved
    decreases m - n
  {
    if n < m {
      ApprovedStays(config, states, steps, n, m - 1, code);
      StepForgets(config, states[m - 1], steps[m - 1], code);
    }
  }

  /** A code is good exactly once, for the client it was approved for, within five minutes of the
      approval, with no restart between, and for its own redirect URI and resource when the request
      names them. */
  lemma CodeLifetime(config: Config, states: seq<Life>, steps: seq<Step>, k: nat, m: nat)
    requires IsTrace(config, states, steps) && k < m < |steps|
    requires steps[k].Approve? && steps[k].code in states[k + 1].past.approved
    requires steps[m].Exchange? && steps[m].code == steps[k].code
    ensures steps[k].resource.Some?
    ensures ExchangeResult(config, states[m], steps[m]).Granted? <==>
              && !Restarted(steps, k + 1, m) && !Exchanged(config, states, steps, k + 1, m, steps[m].code)
              && steps[m].clientId == steps[k].clientId
              && steps[m].draw.checkMs <= states[k].nowMs + 300000
              && (steps[m].redirectUri != "" ==> steps[m].redirectUri == steps[k].redirectUri)
              && (steps[m].resource.Some? ==> SameResource(config, steps[m].resource.value, steps[k].resource.value))
    ensures ExchangeResult(config, states[m], steps[m]).Denied? ==>
              ExchangeResult(config, states[m], steps[m]).error == InvalidGrant
  {
    var code := steps[k].code;
    ApprovedIff(config, states[k], steps[k]);
    if Restarted(steps, k + 1, m) {
      var r :| k + 1 <= r < m && steps[r].Restart?;
      ApprovedStays(config, states, steps, k + 1, r, code);
      RestartForgets(config, states, steps, r, m, code);
    } else if Exchanged(config, states, steps, k + 1, m, code) {
      var e :| k + 1 <= e < m && ExchangeSucceeds(config, states[e], steps[e], code);
      CodeExchangedOnce(config, states, steps, e, m);
    } else {
      CodeKept(config, states, steps, k, m);
    }
  }
}
