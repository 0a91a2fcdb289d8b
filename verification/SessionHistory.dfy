/**
 Refresh sessions over whole runs: the store always agrees with the history of logins, refreshes and
 revocations, with time passing in between.
 */
module SessionHistory {
  import opened Prelude
  import opened KeyValue
  import opened AuthKeys
  import opened AuthModel
  import opened AuthEffects

  predicate Ends(e: Event, user: string, digest: string) {
    e == SessionSpent(user, digest) || e == SessionsRevoked(user)
  }

  /** When the session was last issued, unless it was spent or revoked since. */
  function LastIssue(log: seq<Event>, user: string, digest: string): Option<nat> {
    if log == [] then None
    else
      var e := log[|log| - 1];
      if e.SessionIssued? && e.user == user && e.digest == digest then Some(e.at)
      else if Ends(e, user, digest) then None
      else LastIssue(log[..|log| - 1], user, digest)
  }

  /** `i` is the place in the history where the session was issued for the last time, and nothing ended it since. */
  ghost predicate IssuedAt(log: seq<Event>, i: nat, user: string, digest: string, at: nat) {
    && i < |log| && log[i] == SessionIssued(user, digest, at)
    && forall j :: i < j < |log| ==>
         !Ends(log[j], user, digest) && !(log[j].SessionIssued? && log[j].user == user && log[j].digest == digest)
  }

  lemma {:induction false} LastIssueIsIssuedAt(log: seq<Event>, user: string, digest: string, at: nat)
    ensures LastIssue(log, user, digest) == Some(at) <==> exists i: nat :: IssuedAt(log, i, user, digest, at)
  {
    if log == [] {
    } else {
      var n := |log| - 1;
      var front := log[..n];
      LastIssueIsIssuedAt(front, user, digest, at);
      if log[n] == SessionIssued(user, digest, at) {
        assert IssuedAt(log, n, user, digest, at);
      } else {
        forall i: nat ensures IssuedAt(log, i, user, digest, at)
          <==> IssuedAt(front, i, user, digest, at) && LastIssue(log, user, digest) == LastIssue(front, user, digest)
        {
          if i < n {
            assert log[n] == log[n] && front[i] == log[i];
          }
        }
      }
    }
  }

  function SessionEntry(kv: AuthStore, user: string, digest: string): Option<Option<nat>> {
    match kv.Look(SessionKey(user, digest))
    case Some(e) => Some(e.expiry)
    case None => None
  }

  /** What the history says the store should hold for a session: nothing, or an entry with this expiry. */
  function Expected(s: State, user: string, digest: string): Option<Option<nat>> {
    match LastIssue(s.log, user, digest)
    case None => None
    case Some(at) =>
      if !s.core.kv.expiring then Some(None)
      else if s.core.kv.now < at + 604_800_000 then Some(Some(at + 604_800_000))
      else None
  }

  ghost predicate SessionsFollowHistory(s: State) {
    forall u, d :: SessionEntry(s.core.kv, u, d) == Expected(s, u, d)
  }

  predicate TouchesSessions(e: Effect) {
    e.Wait? || e.Issue? || e.Spend? || e.Revoke?
  }

  lemma OtherEffectsLeaveHistory(env: Env, s: State, e: Effect, user: string, digest: string)
    requires Allowed(env, s.core, e) && !TouchesSessions(e)
    ensures LastIssue(Apply(env, s, e).log, user, digest) == LastIssue(s.log, user, digest)
  {
    EffectEvent(env, s, e);
  }

  lemma OtherEffectsLeaveSessions(env: Env, s: State, e: Effect, user: string, digest: string)
    requires Allowed(env, s.core, e) && !TouchesSessions(e)
    ensures SameAt(Apply(env, s, e).core.kv, s.core.kv, SessionKey(user, digest))
    ensures LastIssue(Apply(env, s, e).log, user, digest) == LastIssue(s.log, user, digest)
  {
    OtherEffectsLeaveHistory(env, s, e, user, digest);
    EffectFrame(env, s, e, SessionKey(user, digest));
  }

  lemma WaitFollows(env: Env, s: State, ms: nat, user: string, digest: string)
    requires SessionEntry(s.core.kv, user, digest) == Expected(s, user, digest)
    ensures var t := Apply(env, s, Wait(ms)); SessionEntry(t.core.kv, user, digest) == Expected(t, user, digest)
  {
    EffectEvent(env, s, Wait(ms));
    assert LastIssue(Apply(env, s, Wait(ms)).log, user, digest) == LastIssue(s.log, user, digest);
  }

  lemma IssueFollows(env: Env, s: State, e: Effect, user: string, digest: string)
    requires Allowed(env, s.core, e) && e.Issue?
    requires SessionEntry(s.core.kv, user, digest) == Expected(s, user, digest)
    ensures SessionEntry(Apply(env, s, e).core.kv, user, digest) == Expected(Apply(env, s, e), user, digest)
  {
    EffectEvent(env, s, e);
    if e.id != user || env.hash(Minted(env, e.id, e.tenant, e.roles, s.core.kv.now)) != digest {
      assert LastIssue(Apply(env, s, e).log, user, digest) == LastIssue(s.log, user, digest);
    }
  }

  lemma SessionEffectsFollow(env: Env, s: State, e: Effect, user: string, digest: string)
    requires Allowed(env, s.core, e) && TouchesSessions(e)
    requires SessionEntry(s.core.kv, user, digest) == Expected(s, user, digest)
    ensures SessionEntry(Apply(env, s, e).core.kv, user, digest) == Expected(Apply(env, s, e), user, digest)
  {
    if e.Wait? {
      WaitFollows(env, s, e.ms, user, digest);
    } else if e.Issue? {
      IssueFollows(env, s, e, user, digest);
    } else {
      EffectEvent(env, s, e);
    }
  }

  lemma EffectKeepsSessions(env: Env, s: State, e: Effect)
    requires SessionsFollowHistory(s) && Allowed(env, s.core, e)
    ensures SessionsFollowHistory(Apply(env, s, e))
  {
    var t := Apply(env, s, e);
    forall u, d ensures SessionEntry(t.core.kv, u, d) == Expected(t, u, d) {
      assert SessionEntry(s.core.kv, u, d) == Expected(s, u, d);
      if TouchesSessions(e) {
        SessionEffectsFollow(env, s, e, u, d);
      } else {
        OtherEffectsLeaveSessions(env, s, e, u, d);
      }
    }
  }

  lemma {:induction false} ChainKeepsSessions(env: Env, s: State, es: seq<Effect>)
    requires SessionsFollowHistory(s) && AllowedChain(env, s, es)
    ensures SessionsFollowHistory(Chain(env, s, es))
    decreases |es|
  {
    if es == [] {
    } else {
      EffectKeepsSessions(env, s, es[0]);
      ChainKeepsSessions(env, Apply(env, s, es[0]), es[1..]);
    }
  }

  /** In every reachable state the session part of the store is what the history says. */
  lemma SessionsFollow(env: Env, s: State, ops: seq<Op>)
    requires SessionsFollowHistory(s) && LegitRun(env, s, ops)
    ensures SessionsFollowHistory(Run(env, s, ops))
  {
    var es := RunIsChain(env, s, ops);
    ChainKeepsSessions(env, s, es);
  }

  /** Issued less than seven days ago (with the in-memory fallback: ever), not spent or revoked since. */
  ghost predicate LiveByHistory(s: State, user: string, digest: string) {
    exists i: nat, at: nat :: IssuedAt(s.log, i, user, digest, at)
                              && (s.core.kv.expiring ==> s.core.kv.now < at + 604_800_000)
  }

  lemma LiveIffStored(s: State, user: string, digest: string)
    requires SessionsFollowHistory(s)
    ensures SessionKey(user, digest) in s.core.kv.entries <==> LiveByHistory(s, user, digest)
  {
    assert SessionEntry(s.core.kv, user, digest) == Expected(s, user, digest);
    forall at: nat
      ensures LastIssue(s.log, user, digest) == Some(at) <==> exists i: nat :: IssuedAt(s.log, i, user, digest, at)
    {
      LastIssueIsIssuedAt(s.log, user, digest, at);
    }
    if SessionKey(user, digest) in s.core.kv.entries {
      var at := LastIssue(s.log, user, digest).value;
      var i: nat :| IssuedAt(s.log, i, user, digest, at);
    }
    if LiveByHistory(s, user, digest) {
      var i: nat, at: nat :| IssuedAt(s.log, i, user, digest, at)
                             && (s.core.kv.expiring ==> s.core.kv.now < at + 604_800_000);
      assert LastIssue(s.log, user, digest) == Some(at);
    }
  }

  /**
   After any run a refresh token is accepted exactly when it verifies and its session is live by the
   history. No freshness of tokens is assumed: a token issued again counts from then.
   */
  lemma RefreshAcceptedIff(env: Env, now: nat, expiring: bool, ops: seq<Op>, token: string, roles: string)
    requires LegitRun(env, Fresh(now, expiring), ops) && PlainSubject(env, token)
    ensures var s := Run(env, Fresh(now, expiring), ops);
            RefreshTokens(env, s.core, token, roles).outcome.SignedIn?
            <==> Verifies(env.refresh(token), s.core.kv.now)
                 && LiveByHistory(s, env.refresh(token).sub, env.hash(token))
  {
    SessionsFollow(env, Fresh(now, expiring), ops);
    LiveIffStored(Run(env, Fresh(now, expiring), ops), env.refresh(token).sub, env.hash(token));
  }

  /** With tokens never issued twice: issued once, not refreshed, not revoked since. */
  lemma RefreshAcceptedOfFreshTokens(log: seq<Event>, i: nat, user: string, digest: string, at: nat)
    requires i < |log| && log[i] == SessionIssued(user, digest, at)
    requires forall j :: 0 <= j < |log| && log[j].SessionIssued? && log[j].digest == digest ==> j == i
    ensures IssuedAt(log, i, user, digest, at)
            <==> SessionSpent(user, digest) !in log[i + 1..] && SessionsRevoked(user) !in log[i + 1..]
  {
    var later := log[i + 1..];
    assert forall j :: i < j < |log| ==> log[j] == later[j - i - 1];
    assert forall k :: 0 <= k < |later| ==> later[k] == log[k + i + 1];
  }

  /** A token that its issuer let run for at most seven days is cut off by its own expiry, never by the store's. */
  lemma SevenDayTokensOutlivedByStore(t: Claims, at: nat, now: nat)
    requires t.exp.Some? && t.exp.value <= at / 1000 + 604_800 && Verifies(t, now)
    ensures now < at + 604_800_000
  {
  }

  // Tokens carry no unique id: what a refresh mints depends on its user, its claims and the second.

  /** The session was issued under the hash of a token minted for its user in the second of its issue. */
  ghost predicate MintedFor(env: Env, e: Event, g: Grant) {
    e.SessionIssued? && g.user == e.user && g.second == e.at / 1000 && e.digest == env.hash(env.mint(g))
  }

  ghost predicate IssuesAreMinted(env: Env, log: seq<Event>) {
    forall i :: 0 <= i < |log| && log[i].SessionIssued? ==> exists g :: MintedFor(env, log[i], g)
  }

  lemma EffectKeepsMinted(env: Env, s: State, e: Effect)
    requires IssuesAreMinted(env, s.log) && Allowed(env, s.core, e)
    ensures IssuesAreMinted(env, Apply(env, s, e).log)
  {
    EffectEvent(env, s, e);
    var log := Apply(env, s, e).log;
    forall i | 0 <= i < |log| && log[i].SessionIssued? ensures exists g :: MintedFor(env, log[i], g) {
      if i == |s.log| {
        assert MintedFor(env, log[i], Grant(e.id, e.tenant, e.roles, s.core.kv.now / 1000));
      } else {
        assert log[i] == s.log[i];
      }
    }
  }

  lemma {:induction false} ChainKeepsMinted(env: Env, s: State, es: seq<Effect>)
    requires IssuesAreMinted(env, s.log) && AllowedChain(env, s, es)
    ensures IssuesAreMinted(env, Chain(env, s, es).log)
    decreases |es|
  {
    if es == [] {
    } else {
      EffectKeepsMinted(env, s, es[0]);
      ChainKeepsMinted(env, Apply(env, s, es[0]), es[1..]);
    }
  }

  lemma RunsMint(env: Env, now: nat, expiring: bool, ops: seq<Op>)
    requires LegitRun(env, Fresh(now, expiring), ops)
    ensures IssuesAreMinted(env, Run(env, Fresh(now, expiring), ops).log)
    ensures SessionsFollowHistory(Run(env, Fresh(now, expiring), ops))
  {
    var es := RunIsChain(env, Fresh(now, expiring), ops);
    ChainKeepsMinted(env, Fresh(now, expiring), es);
    SessionsFollow(env, Fresh(now, expiring), ops);
  }

  /** A session that is live was minted for its user, in the second the history says. */
  lemma LiveSessionsWereMinted(env: Env, s: State, user: string, digest: string) returns (g: Grant, i: nat, at: nat)
    requires SessionsFollowHistory(s) && IssuesAreMinted(env, s.log) && SessionKey(user, digest) in s.core.kv.entries
    ensures IssuedAt(s.log, i, user, digest, at) && (s.core.kv.expiring ==> s.core.kv.now < at + 604_800_000)
    ensures MintedFor(env, s.log[i], g)
  {
    LiveIffStored(s, user, digest);
    i, at :| IssuedAt(s.log, i, user, digest, at) && (s.core.kv.expiring ==> s.core.kv.now < at + 604_800_000);
    g :| MintedFor(env, s.log[i], g);
  }

  /** The token handed out is live exactly when it is not the one handed in. */
  lemma HandedOutLiveIff(env: Env, c: Core, token: string, roles: string)
    requires PlainSubject(env, token) && RefreshTokens(env, c, token, roles).outcome.SignedIn?
    ensures var t := env.refresh(token);
            var minted := Minted(env, t.sub, t.tenant, roles, c.kv.now);
            SessionKey(t.sub, env.hash(minted)) in RefreshTokens(env, c, token, roles).core.kv.entries
            <==> env.hash(minted) != env.hash(token)
  {
  }

  /**
   After any run, a token that is accepted was minted when its session was issued, and the refresh loses
   that session exactly when it falls into the second of that issue and finds the same roles.
   */
  lemma RefreshLosesSessionIff(env: Env, now: nat, expiring: bool, ops: seq<Op>, token: string, roles: string)
    returns (g: Grant, i: nat, at: nat)
    requires MintsFaithfully(env) && CollisionFree(env)
    requires LegitRun(env, Fresh(now, expiring), ops) && PlainSubject(env, token)
    requires RefreshTokens(env, Run(env, Fresh(now, expiring), ops).core, token, roles).outcome.SignedIn?
    ensures var s, sub := Run(env, Fresh(now, expiring), ops), env.refresh(token).sub;
            var n := RefreshTokens(env, s.core, token, roles);
            && token == env.mint(g) && IssuedAt(s.log, i, sub, env.hash(token), at) && g.second == at / 1000
            && (SessionKey(sub, env.hash(n.outcome.refreshToken)) !in n.core.kv.entries
                <==> at / 1000 == s.core.kv.now / 1000 && g.roles == roles)
  {
    RunsMint(env, now, expiring, ops);
    var s, t := Run(env, Fresh(now, expiring), ops), env.refresh(token);
    g, i, at := LiveSessionsWereMinted(env, s, t.sub, env.hash(token));
    HandedOutLiveIff(env, s.core, token, roles);
  }

  lemma SessionCountAfterRefresh(env: Env, c: Core, token: string, roles: string)
    requires PlainSubject(env, token) && RefreshTokens(env, c, token, roles).outcome.SignedIn?
    ensures var t := env.refresh(token);
            var issued := SessionKey(t.sub, env.hash(Minted(env, t.sub, t.tenant, roles, c.kv.now)));
            |SessionsOf(RefreshTokens(env, c, token, roles).core.kv, t.sub)|
            == |SessionsOf(c.kv, t.sub)| - if issued in c.kv.entries then 1 else 0
  {
    var t := env.refresh(token);
    var after := RefreshTokens(env, c, token, roles).core.kv;
    var spent := SessionKey(t.sub, env.hash(token));
    var issued := SessionKey(t.sub, env.hash(Minted(env, t.sub, t.tenant, roles, c.kv.now)));
    var before := SessionsOf(c.kv, t.sub);
    assert spent in before;
    assert SessionsOf(after, t.sub) == before + {issued} - {spent};
    if issued in c.kv.entries {
      assert issued in before && before + {issued} == before;
    }
  }

  /** The user still has a session issued in this second, for this tenant and these roles. */
  ghost predicate IssuedThisSecond(env: Env, s: State, user: string, tenant: Option<string>, roles: string) {
    var now := s.core.kv.now;
    exists i: nat, at: nat :: IssuedAt(s.log, i, user, env.hash(Minted(env, user, tenant, roles, now)), at)
                              && at / 1000 == now / 1000
  }

  lemma ReissuedIffThisSecond(env: Env, s: State, user: string, tenant: Option<string>, roles: string)
    requires MintsFaithfully(env) && CollisionFree(env) && SessionsFollowHistory(s) && IssuesAreMinted(env, s.log)
    ensures SessionKey(user, env.hash(Minted(env, user, tenant, roles, s.core.kv.now))) in s.core.kv.entries
            <==> IssuedThisSecond(env, s, user, tenant, roles)
  {
    var now := s.core.kv.now;
    var digest := env.hash(Minted(env, user, tenant, roles, now));
    LiveIffStored(s, user, digest);
    if SessionKey(user, digest) in s.core.kv.entries {
      var g, i, at := LiveSessionsWereMinted(env, s, user, digest);
      assert IssuedAt(s.log, i, user, digest, at) && at / 1000 == now / 1000;
    }
    if i: nat, at: nat :| IssuedAt(s.log, i, user, digest, at) && at / 1000 == now / 1000 {
      assert now < at + 604_800_000;
    }
  }

  /**
   After any run, a refresh keeps the user's number of live sessions, unless one of them was issued in
   this very second for the same tenant and roles: then there is one less.
   */
  lemma RefreshKeepsSessionCount(env: Env, now: nat, expiring: bool, ops: seq<Op>, token: string, roles: string)
    requires MintsFaithfully(env) && CollisionFree(env)
    requires LegitRun(env, Fresh(now, expiring), ops) && PlainSubject(env, token)
    requires RefreshTokens(env, Run(env, Fresh(now, expiring), ops).core, token, roles).outcome.SignedIn?
    ensures var s, t := Run(env, Fresh(now, expiring), ops), env.refresh(token);
            |SessionsOf(RefreshTokens(env, s.core, token, roles).core.kv, t.sub)|
            == |SessionsOf(s.core.kv, t.sub)| - if IssuedThisSecond(env, s, t.sub, t.tenant, roles) then 1 else 0
  {
    RunsMint(env, now, expiring, ops);
    var s, t := Run(env, Fresh(now, expiring), ops), env.refresh(token);
    SessionCountAfterRefresh(env, s.core, token, roles);
    ReissuedIffThisSecond(env, s, t.sub, t.tenant, roles);
  }

  /**
   A refresh in the second in which its token was minted hands out the token it was given; no session is
   left under it, and the next refresh is refused.
   */
  lemma RefreshWithinOneSecondLosesSession(env: Env, c: Core, g: Grant, next: string)
    requires MintsFaithfully(env) && PlainId(g.user) && g.second == c.kv.now / 1000
    requires RefreshTokens(env, c, env.mint(g), g.roles).outcome.SignedIn?
    ensures var n := RefreshTokens(env, c, env.mint(g), g.roles);
            && n.outcome == SignedIn(g.user, env.mint(g))
            && RefreshTokens(env, n.core, env.mint(g), next).outcome == Failed(Unauthorized)
            && |SessionsOf(n.core.kv, g.user)| + 1 == |SessionsOf(c.kv, g.user)|
  {
    assert Minted(env, g.user, g.tenant, g.roles, c.kv.now) == env.mint(g);
    SessionCountAfterRefresh(env, c, env.mint(g), g.roles);
  }

  /**
   From the empty store: a user is added and signs in through a provider, and a refresh within the second
   leaves no session.
   */
  lemma SessionLostFromTheStart(env: Env, now: nat, expiring: bool, id: string, identifier: string,
                                tenant: Option<string>, roles: string)
    returns (ops: seq<Op>, token: string)
    requires MintsFaithfully(env) && PlainId(id)
    requires Verifies(env.refresh(env.mint(Grant(id, tenant, roles, now / 1000))), now)
    ensures LegitRun(env, Fresh(now, expiring), ops) && PlainSubject(env, token)
    ensures var s := Run(env, Fresh(now, expiring), ops);
            && s.core.kv.now == now && |SessionsOf(s.core.kv, id)| == 1
            && RefreshTokens(env, s.core, token, roles).outcome == SignedIn(id, token)
            && |SessionsOf(RefreshTokens(env, s.core, token, roles).core.kv, id)| == 0
  {
    var s := Fresh(now, expiring);
    var add := DoAddGoogleUser(id, None, tenant);
    var login := DoLogin(LoginRequest(identifier, None, Resolved(tenant), ByProvider, Some(id), roles));
    var s1 := After(env, s, add);
    var s2 := After(env, s1, login);
    ops := [add, login];
    assert ops[1..] == [login] && ops[1..][1..] == [];
    assert LegitRun(env, s2, []) && Run(env, s2, []) == s2;
    assert LegitRun(env, s1, [login]) && Run(env, s1, [login]) == s2;
    var g := Grant(id, tenant, roles, now / 1000);
    token := env.mint(g);
    ProviderLoginHolds(env, s1, login.login, id);
    RefreshWithinOneSecondLosesSession(env, s2.core, g, "");
  }

  /** The first login of the only user leaves one session. */
  lemma ProviderLoginHolds(env: Env, s: State, r: LoginRequest, id: string)
    requires PlainUsers(s.core) && s.core.kv.entries == map[] && r.how.ByProvider? && r.tenant.Resolved?
    requires r.found == Some(id) && id in s.core.users && CanAuthenticate(s.core.users[id])
    ensures var t, token := After(env, s, DoLogin(r)), Minted(env, id, r.tenant.tenant, r.roles, s.core.kv.now);
            && PlainUsers(t.core) && t.core.kv.now == s.core.kv.now
            && SessionsOf(t.core.kv, id) == {SessionKey(id, env.hash(token))}
  {
    assert EnforceLoginRateLimit(s.core.kv, Scope(r.ctxTenant, r.identifier)).1;
  }

  /** Revocation takes every session of the user and nothing else of anybody, and reports their number. */
  lemma RevocationExact(c: Core, user: string, k: Key)
    ensures RevokeAll(c, user).core.kv.Look(k)
            == if k == LatestRefreshKey(user) || (k.SessionKey? && k.user == user) then None else c.kv.Look(k)
    ensures RevokeAll(c, user).outcome == Revoked(|SessionsOf(c.kv, user)|)
    ensures SessionsOf(RevokeAll(c, user).core.kv, user) == {}
    ensures k.SessionKey? && k.user != user ==>
              SessionsOf(RevokeAll(c, user).core.kv, k.user) == SessionsOf(c.kv, k.user)
  {
    var after := RevokeAll(c, user).core.kv;
    assert SessionsOf(after, user) == {};
    if k.SessionKey? && k.user != user {
      assert SessionsOf(after, k.user) == SessionsOf(c.kv, k.user);
    }
  }

  /** The calls after which a user must sign in again. */
  ghost predicate EndsSessions(env: Env, c: Core, op: Op, user: string)
    requires PlainUsers(c) && Legit(env, c, op)
  {
    match op
    case DoLogout(u, _) => u == user
    case DoRevokeAll(u) => u == user
    case DoResetPassword(_, found, _) => found == Some(user)
    case DoChangePassword(u, _, _) => u == user && Step(env, c, op).outcome.Done?
    case _ => false
  }

  /** They leave the user without a session and everybody else with the sessions they had. */
  lemma EndingSessionsIsExact(env: Env, c: Core, op: Op, user: string, other: string)
    requires PlainUsers(c) && Legit(env, c, op) && EndsSessions(env, c, op, user)
    ensures SessionsOf(Step(env, c, op).core.kv, user) == {}
    ensures other != user ==> SessionsOf(Step(env, c, op).core.kv, other) == SessionsOf(c.kv, other)
  {
    var revoked := RevokeUserSessions(c.kv, user);
    assert SessionsOf(revoked, user) == {};
    assert other != user ==> SessionsOf(revoked, other) == SessionsOf(c.kv, other);
    if op.DoLogout? {
      forall id ensures SessionsOf(Step(env, c, op).core.kv, id) == SessionsOf(revoked, id) {
        LogoutKeepsSessions(env, c, user, op.access, id);
      }
    }
  }

  lemma LogoutKeepsSessions(env: Env, c: Core, user: string, access: Option<string>, id: string)
    ensures SessionsOf(Logout(env, c, user, access).core.kv, id) == SessionsOf(RevokeUserSessions(c.kv, user), id)
  {
  }

  /** The session behind a `SignedIn` outcome is there for its full time. */
  ghost predicate HoldsSession(env: Env, n: Next)
    requires n.outcome.SignedIn?
  {
    var k := SessionKey(n.outcome.user, env.hash(n.outcome.refreshToken));
    k in n.core.kv.entries && n.core.kv.entries[k].expiry == n.core.kv.Deadline(604_800)
  }

  lemma SignInHolds(env: Env, c: Core, user: string, tenant: Option<string>, roles: string)
    requires PlainId(user)
    ensures HoldsSession(env, SignedInNext(env, c, SignIn(env, c.kv, user, tenant, roles), user, tenant, roles))
  {
  }

  lemma CodeSignsIn(env: Env, c: Core, r: VerifyRequest)
    requires PlainUsers(c) && VerifyOtp(env, c, r).outcome.SignedIn?
    ensures var n := VerifyOtp(env, c, r);
            HoldsSession(env, n) && n.outcome.user in c.users && CanAuthenticate(c.users[n.outcome.user])
  {
    var v := CheckCode(env, c, r);
    assert UseCode(env, c.(kv := v.kv), r, v.otp, v.user).outcome.SignedIn?;
    SignInHolds(env, c.(kv := v.kv), v.user, r.tenant.tenant, r.roles);
  }

  lemma AdmittedSignsIn(env: Env, c: Core, r: LoginRequest)
    requires PlainUsers(c) && LoginAdmitted(env, c, r).outcome.SignedIn?
    ensures var n := LoginAdmitted(env, c, r);
            HoldsSession(env, n) && n.outcome.user in c.users && CanAuthenticate(c.users[n.outcome.user])
  {
    match r.how
    case ByCode(code) => CodeSignsIn(env, c, CodeLogin(r, code));
    case ByPassword(_) => SignInHolds(env, c, r.found.value, r.tenant.tenant, r.roles);
    case _ =>
  }

  lemma LoginSignsIn(env: Env, c: Core, r: LoginRequest)
    requires PlainUsers(c) && Login(env, c, r).outcome.SignedIn?
    ensures var n := Login(env, c, r);
            HoldsSession(env, n) && n.outcome.user in c.users && CanAuthenticate(c.users[n.outcome.user])
  {
    var c1 := c.(kv := EnforceLoginRateLimit(c.kv, Scope(r.ctxTenant, r.identifier)).0);
    AdmittedSignsIn(env, c1, r);
  }

  lemma SendingNeverSignsIn(env: Env, c: Core, r: SendRequest)
    ensures !SendOtp(env, c, r).outcome.SignedIn?
  {
  }

  lemma WaysToSignIn(env: Env, c: Core, op: Op)
    requires PlainUsers(c) && Legit(env, c, op) && Step(env, c, op).outcome.SignedIn?
    ensures op.DoLogin? || op.DoVerifyOtp? || op.DoRefresh?
  {
    match op
    case DoSendOtp(r) => SendingNeverSignsIn(env, c, r);
    case DoRegister(r) =>
      var channel := ResolveVerificationChannel(r.verificationChannel, r.email, r.phone, UsesOtp(r));
      if r.tenant.Resolved? && channel.Some? {
        var users := c.users[r.id := NewUser(r)];
        SendingNeverSignsIn(env, c.(users := users), RegistrationCode(users, r, channel.value));
      }
    case DoForgotPassword(r) =>
      if Row(c, r.found).Some? { SendingNeverSignsIn(env, c, ResetCode(c.users, r, Row(c, r.found).value)); }
    case _ =>
  }

  /** Whoever is told to be signed in holds a session under the token handed out, but for the refresh above. */
  lemma SignedInHoldsSessionIff(env: Env, c: Core, op: Op)
    requires PlainUsers(c) && Legit(env, c, op) && Step(env, c, op).outcome.SignedIn?
    ensures HoldsSession(env, Step(env, c, op))
            <==> (op.DoRefresh? ==> env.hash(Step(env, c, op).outcome.refreshToken) != env.hash(op.refreshToken))
  {
    WaysToSignIn(env, c, op);
    match op
    case DoLogin(r) => LoginSignsIn(env, c, r);
    case DoVerifyOtp(r) => CodeSignsIn(env, c, r);
    case DoRefresh(token, roles) => HandedOutLiveIff(env, c, token, roles);
  }

}
