/** Verification status and password resets over whole runs (auth.service.ts). */
module Accounts {
  import opened Prelude
  import opened KeyValue
  import opened AuthKeys
  import opened AuthModel
  import opened AuthEffects
  import opened SessionHistory

  // Nobody unverified holds a session.

  ghost predicate StatusConsistent(c: Core) {
    && (forall u :: u in c.users && c.users[u].status == PendingVerification ==>
          !c.users[u].emailVerified && !c.users[u].phoneVerified)
    && (forall u, d :: SessionKey(u, d) in c.kv.entries ==> u in c.users && c.users[u].status != PendingVerification)
  }

  lemma NoNewSessions(env: Env, s: State, e: Effect, user: string, digest: string)
    requires Allowed(env, s.core, e) && !e.Issue?
    requires SessionKey(user, digest) in Apply(env, s, e).core.kv.entries
    ensures SessionKey(user, digest) in s.core.kv.entries
  {
    if !Touches(e, SessionKey(user, digest)) {
      EffectFrame(env, s, e, SessionKey(user, digest));
    }
  }

  lemma UsersOnlyGetVerified(env: Env, s: State, e: Effect, user: string)
    requires Allowed(env, s.core, e) && user in s.core.users
    ensures user in Apply(env, s, e).core.users
    ensures s.core.users[user].status != PendingVerification ==>
              Apply(env, s, e).core.users[user].status != PendingVerification
  {
  }

  lemma EffectKeepsStatus(env: Env, s: State, e: Effect)
    requires StatusConsistent(s.core) && PlainUsers(s.core) && Allowed(env, s.core, e)
    ensures StatusConsistent(Apply(env, s, e).core) && PlainUsers(Apply(env, s, e).core)
  {
    var t := Apply(env, s, e);
    forall u, d | SessionKey(u, d) in t.core.kv.entries
      ensures u in t.core.users && t.core.users[u].status != PendingVerification
    {
      if e.Issue? && u == e.id {
        if SessionsOf(s.core.kv, u) != {} {
          var k :| k in SessionsOf(s.core.kv, u);
          assert SessionKey(u, k.digest) in s.core.kv.entries;
        }
      } else if !e.Issue? {
        NoNewSessions(env, s, e, u, d);
      }
      UsersOnlyGetVerified(env, s, e, u);
    }
  }

  lemma {:induction false} ChainKeepsStatus(env: Env, s: State, es: seq<Effect>)
    requires StatusConsistent(s.core) && PlainUsers(s.core) && AllowedChain(env, s, es)
    ensures StatusConsistent(Chain(env, s, es).core) && PlainUsers(Chain(env, s, es).core)
    decreases |es|
  {
    if es == [] {
    } else {
      EffectKeepsStatus(env, s, es[0]);
      ChainKeepsStatus(env, Apply(env, s, es[0]), es[1..]);
    }
  }

  /**
   In every reachable state an account waiting for verification has no verified channel, and no account
   that holds a live session is waiting for verification, although `refreshTokens` never looks at the status.
   */
  lemma PendingUsersHoldNoSessions(env: Env, now: nat, expiring: bool, ops: seq<Op>)
    requires LegitRun(env, Fresh(now, expiring), ops)
    ensures StatusConsistent(Run(env, Fresh(now, expiring), ops).core)
  {
    var es := RunIsChain(env, Fresh(now, expiring), ops);
    ChainKeepsStatus(env, Fresh(now, expiring), es);
  }

  /** In no reachable state can a call sign in an account that is still waiting for verification. */
  lemma SignInsAreVerified(env: Env, now: nat, expiring: bool, ops: seq<Op>, op: Op)
    requires LegitRun(env, Fresh(now, expiring), ops)
    requires Legit(env, Run(env, Fresh(now, expiring), ops).core, op)
    ensures var c := Run(env, Fresh(now, expiring), ops).core;
            var outcome := Step(env, c, op).outcome;
            outcome.SignedIn? ==> outcome.user in c.users && c.users[outcome.user].status != PendingVerification
  {
    PendingUsersHoldNoSessions(env, now, expiring, ops);
    var c := Run(env, Fresh(now, expiring), ops).core;
    if Step(env, c, op).outcome.SignedIn? {
      SignInIsVerified(env, c, op);
    }
  }

  lemma SignInIsVerified(env: Env, c: Core, op: Op)
    requires StatusConsistent(c) && PlainUsers(c) && Legit(env, c, op) && Step(env, c, op).outcome.SignedIn?
    ensures var user := Step(env, c, op).outcome.user; user in c.users && c.users[user].status != PendingVerification
  {
    WaysToSignIn(env, c, op);
    match op
    case DoLogin(r) => LoginSignsIn(env, c, r);
    case DoVerifyOtp(r) => CodeSignsIn(env, c, r);
    case DoRefresh(token, _) =>
      assert SessionKey(env.refresh(token).sub, env.hash(token)) in c.kv.entries;
  }

  lemma {:induction false} StaysOpen(env: Env, s: State, es: seq<Effect>, user: string)
    requires user in s.core.users && s.core.users[user].status != PendingVerification && AllowedChain(env, s, es)
    ensures var c := Chain(env, s, es).core; user in c.users && c.users[user].status != PendingVerification
    decreases |es|
  {
    if es == [] {
    } else {
      UsersOnlyGetVerified(env, s, es[0], user);
      StaysOpen(env, Apply(env, s, es[0]), es[1..], user);
    }
  }

  /** The calls that confirm a channel of the account, by code or by link. */
  ghost predicate Confirms(env: Env, c: Core, op: Op, user: string) {
    match op
    case DoVerifyEmail(_, found) => found == Some(user)
    case DoVerifyOtp(r) =>
      var v := CheckCode(env, c, r);
      v.Accepted? && v.user == user && v.otp.purpose == AccountVerification
    case _ => false
  }

  /** Confirming either channel opens the account for the rest of the run, whatever its status was. */
  lemma VerificationOpensAccount(env: Env, s: State, op: Op, ops: seq<Op>, user: string)
    requires PlainUsers(s.core) && Legit(env, s.core, op) && Confirms(env, s.core, op, user)
    requires LegitRun(env, After(env, s, op), ops)
    ensures var c := Run(env, After(env, s, op), ops).core;
            user in c.users && c.users[user].status != PendingVerification && CanAuthenticate(c.users[user])
  {
    ConfirmingActivates(env, s.core, op, user);
    var t := After(env, s, op);
    var es := RunIsChain(env, t, ops);
    StaysOpen(env, t, es, user);
  }

  lemma ConfirmingActivates(env: Env, c: Core, op: Op, user: string)
    requires PlainUsers(c) && Legit(env, c, op) && Confirms(env, c, op, user)
    ensures user in Step(env, c, op).core.users && Step(env, c, op).core.users[user].status == Active
  {
  }

  /** Plain user ids never have to be assumed along the way: a further legitimate call can always be made. */
  lemma RunsExtend(env: Env, now: nat, expiring: bool, ops: seq<Op>, op: Op)
    requires LegitRun(env, Fresh(now, expiring), ops)
    requires Legit(env, Run(env, Fresh(now, expiring), ops).core, op)
    ensures LegitRun(env, Fresh(now, expiring), ops + [op])
    ensures Run(env, Fresh(now, expiring), ops + [op]) == After(env, Run(env, Fresh(now, expiring), ops), op)
  {
    ExtendsFrom(env, Fresh(now, expiring), ops, op);
  }

  lemma {:induction false} ExtendsFrom(env: Env, s: State, ops: seq<Op>, op: Op)
    requires StatusConsistent(s.core) && LegitRun(env, s, ops) && Legit(env, Run(env, s, ops).core, op)
    ensures LegitRun(env, s, ops + [op]) && Run(env, s, ops + [op]) == After(env, Run(env, s, ops), op)
    decreases |ops|
  {
    var first := if ops == [] then op else ops[0];
    var es := StepDecomposes(env, s, first);
    ChainKeepsStatus(env, s, es);
    if ops == [] {
      assert ([] + [op])[1..] == [];
      assert LegitRun(env, After(env, s, op), []);
    } else {
      assert (ops + [op])[1..] == ops[1..] + [op];
      ExtendsFrom(env, After(env, s, first), ops[1..], op);
    }
  }

  // Password resets.

  /** The newest reset token issued to the user and when, unless a reset was made since. */
  function LastReset(log: seq<Event>, user: string): Option<(string, nat)> {
    if log == [] then None
    else
      var e := log[|log| - 1];
      if e.ResetIssued? && e.user == user then Some((e.token, e.at))
      else if e == ResetSpent(user) then None
      else LastReset(log[..|log| - 1], user)
  }

  ghost predicate ResetFollows(s: State, user: string) {
    match LastReset(s.log, user)
    case None => user in s.core.users ==> s.core.users[user].resetToken == None
    case Some((token, at)) =>
      && user in s.core.users && s.core.users[user].resetToken == Some(token)
      && s.core.users[user].resetExpires == Some(at + 600_000)
  }

  /** Nothing but granting and spending touches reset tokens. */
  lemma OthersKeepResets(env: Env, s: State, e: Effect, user: string)
    requires ResetFollows(s, user) && Allowed(env, s.core, e) && !e.GrantReset? && !e.SpendReset?
    ensures ResetFollows(Apply(env, s, e), user)
  {
    EffectEvent(env, s, e);
    assert LastReset(Apply(env, s, e).log, user) == LastReset(s.log, user);
    SameResets(s.core, e, user);
  }

  lemma SameResets(c: Core, e: Effect, user: string)
    requires !e.GrantReset? && !e.SpendReset?
    requires e.AddUser? ==> e.id !in c.users && e.row.resetToken.None?
    ensures var t := EffectUsers(c, e);
            && (user in c.users ==> user in t && t[user].resetToken == c.users[user].resetToken
                                    && t[user].resetExpires == c.users[user].resetExpires)
            && (user !in c.users && user in t ==> t[user].resetToken == None)
  {
  }

  lemma EffectKeepsResets(env: Env, s: State, e: Effect, user: string)
    requires ResetFollows(s, user) && Allowed(env, s.core, e)
    ensures ResetFollows(Apply(env, s, e), user)
  {
    if e.GrantReset? || e.SpendReset? {
      EffectEvent(env, s, e);
    } else {
      OthersKeepResets(env, s, e, user);
    }
  }

  lemma {:induction false} ChainKeepsResets(env: Env, s: State, es: seq<Effect>, user: string)
    requires ResetFollows(s, user) && AllowedChain(env, s, es)
    ensures ResetFollows(Chain(env, s, es), user)
    decreases |es|
  {
    if es == [] {
    } else {
      EffectKeepsResets(env, s, es[0], user);
      ChainKeepsResets(env, Apply(env, s, es[0]), es[1..], user);
    }
  }

  /** The token is the newest one issued to the user, unspent and less than ten minutes old. */
  predicate ResetDue(s: State, token: string, user: string) {
    var last := LastReset(s.log, user);
    last.Some? && last.value.0 == token && s.core.kv.now < last.value.1 + 600_000
  }

  lemma MatchingIsDue(env: Env, now: nat, expiring: bool, ops: seq<Op>, token: string, user: string)
    requires LegitRun(env, Fresh(now, expiring), ops)
    ensures var s := Run(env, Fresh(now, expiring), ops);
            ResetMatches(s.core, token, user) <==> ResetDue(s, token, user)
  {
    var es := RunIsChain(env, Fresh(now, expiring), ops);
    ChainKeepsResets(env, Fresh(now, expiring), es, user);
  }

  /** The state a reset leads to. */
  function AfterReset(s: State, found: Option<string>, password: string): State {
    var n := ResetPassword(s.core, found, password);
    State(n.core, s.log + n.events)
  }

  lemma ResetIsWhole(s: State, token: string, found: Option<string>, password: string)
    requires FoundByReset(s.core, token, found)
    ensures var t := AfterReset(s, found, password);
            && (found.Some? ==>
                  && t.core.users == s.core.users[found.value :=
                       s.core.users[found.value].(password := Some(password), resetToken := None, resetExpires := None)]
                  && SessionsOf(t.core.kv, found.value) == {}
                  && !ResetDue(t, token, found.value))
            && (found.None? ==> t == s)
  {
    var n := ResetPassword(s.core, found, password);
    if found.Some? {
      var log := s.log + n.events;
      assert log[..|log| - 1] == s.log + [ResetSpent(found.value)];
      assert LastReset(log, found.value) == LastReset(s.log + [ResetSpent(found.value)], found.value) == None;
    } else {
      assert s.log + n.events == s.log;
    }
  }

  /**
   After any run a reset token changes a password exactly when it is due for some user, by link or by
   code alike; the password changed is that user's, who is then left without any session, and the
   token is spent.
   */
  lemma ResetWorksIffDue(env: Env, now: nat, expiring: bool, ops: seq<Op>, token: string, found: Option<string>,
                         password: string)
    requires LegitRun(env, Fresh(now, expiring), ops)
    requires FoundByReset(Run(env, Fresh(now, expiring), ops).core, token, found)
    ensures var s := Run(env, Fresh(now, expiring), ops);
            var t := After(env, s, DoResetPassword(token, found, password));
            && (ResetPassword(s.core, found, password).outcome.Done? <==> exists user :: ResetDue(s, token, user))
            && (found.Some? ==>
                  && ResetDue(s, token, found.value)
                  && t.core.users == s.core.users[found.value :=
                       s.core.users[found.value].(password := Some(password), resetToken := None, resetExpires := None)]
                  && SessionsOf(t.core.kv, found.value) == {}
                  && !ResetDue(t, token, found.value))
            && (found.None? ==> t == s)
  {
    var s := Run(env, Fresh(now, expiring), ops);
    forall user ensures ResetMatches(s.core, token, user) <==> ResetDue(s, token, user) {
      MatchingIsDue(env, now, expiring, ops, token, user);
    }
    ResetIsWhole(s, token, found, password);
    assert After(env, s, DoResetPassword(token, found, password)) == AfterReset(s, found, password);
  }
}
