/** Logged-out access tokens stay out (auth.service.ts blacklist and auth.guard.ts). */
module AccessRevocation {
  import opened Prelude
  import opened KeyValue
  import opened AuthKeys
  import opened AuthModel
  import opened AuthEffects

  /** The token does not verify any more, or is on the blacklist for as long as it could. */
  ghost predicate KeptOut(env: Env, c: Core, token: string) {
    var t := env.access(token);
    var e := c.kv.Look(BlacklistKey(env.hash(token)));
    !Verifies(t, c.kv.now) ||
    (e.Some? && (c.kv.expiring ==> t.exp.Some? && e.value.expiry.Some? && e.value.expiry.value >= 1000 * t.exp.value))
  }

  /** A token whose end is known, or a store that never forgets. */
  ghost predicate CanBeBarred(env: Env, c: Core, token: string) {
    env.access(token).exp.Some? || !c.kv.expiring
  }

  lemma BarringKeepsOut(env: Env, c: Core, access: string, token: string)
    requires CollisionFree(env) && CanBeBarred(env, c, token)
    requires KeptOut(env, c, token) || access == token
    ensures KeptOut(env, c.(kv := BlacklistAccessToken(env, c.kv, access)), token)
  {
  }

  lemma WaitingKeepsOut(env: Env, c: Core, ms: nat, token: string)
    requires CanBeBarred(env, c, token) && KeptOut(env, c, token)
    ensures KeptOut(env, c.(kv := Elapse(c.kv, ms)), token)
  {
    assert Verifies(env.access(token), c.kv.now + ms) ==> Verifies(env.access(token), c.kv.now);
  }

  lemma EffectKeepsOut(env: Env, s: State, e: Effect, token: string)
    requires CollisionFree(env) && CanBeBarred(env, s.core, token)
    requires KeptOut(env, s.core, token) && Allowed(env, s.core, e)
    ensures KeptOut(env, Apply(env, s, e).core, token) && CanBeBarred(env, Apply(env, s, e).core, token)
  {
    if e.Bar? {
      BarringKeepsOut(env, s.core, e.access, token);
    } else if e.Wait? {
      WaitingKeepsOut(env, s.core, e.ms, token);
    } else {
      EffectFrame(env, s, e, BlacklistKey(env.hash(token)));
    }
  }

  lemma {:induction false} ChainKeepsOut(env: Env, s: State, es: seq<Effect>, token: string)
    requires CollisionFree(env) && CanBeBarred(env, s.core, token)
    requires KeptOut(env, s.core, token) && AllowedChain(env, s, es)
    ensures KeptOut(env, Chain(env, s, es).core, token)
    decreases |es|
  {
    if es == [] {
    } else {
      EffectKeepsOut(env, s, es[0], token);
      ChainKeepsOut(env, Apply(env, s, es[0]), es[1..], token);
    }
  }

  lemma LogoutKeepsOut(env: Env, c: Core, user: string, token: string)
    requires CollisionFree(env) && CanBeBarred(env, c, token)
    ensures KeptOut(env, Logout(env, c, user, Some(token)).core, token)
  {
    var c1 := c.(kv := RevokeUserSessions(c.kv, user));
    BarringKeepsOut(env, c1, token, token);
  }

  /**
   From a logout on, the guard never lets the access token in again, whatever calls are made and however
   much time passes: the blacklist entry outlives the token, and expiry takes over from there.
   */
  lemma LoggedOutStaysOut(env: Env, s: State, user: string, token: string, ops: seq<Op>)
    requires CollisionFree(env) && CanBeBarred(env, s.core, token)
    requires PlainUsers(s.core) && PlainId(user)
    requires LegitRun(env, After(env, s, DoLogout(user, Some(token))), ops)
    ensures CanActivate(env, Run(env, After(env, s, DoLogout(user, Some(token))), ops).core, Some(token)) == None
  {
    var out := After(env, s, DoLogout(user, Some(token)));
    LogoutKeepsOut(env, s.core, user, token);
    var es := RunIsChain(env, out, ops);
    ChainKeepsOut(env, out, es, token);
  }

  /**
   The condition is needed: a signed token without an expiry is blacklisted for one second only, and the
   guard lets its user in again afterwards.
   */
  lemma TokenWithoutExpiryComesBack(env: Env, s: State, user: string, token: string)
    requires env.access(token).signed && !CanBeBarred(env, s.core, token)
    requires PlainUsers(s.core) && PlainId(user)
    requires env.access(token).sub in s.core.users && s.core.users[env.access(token).sub].status != Banned
    ensures LegitRun(env, After(env, s, DoLogout(user, Some(token))), [DoElapse(1000)])
    ensures CanActivate(env, Run(env, After(env, s, DoLogout(user, Some(token))), [DoElapse(1000)]).core, Some(token))
            == Some(env.access(token).sub)
  {
    var out := After(env, s, DoLogout(user, Some(token)));
    var later := After(env, out, DoElapse(1000));
    assert [DoElapse(1000)][1..] == [];
    assert LegitRun(env, later, []);
    assert Run(env, out, [DoElapse(1000)]) == Run(env, later, []) == later;
    var e := out.core.kv.Look(BlacklistKey(env.hash(token)));
    assert e == Some(Entry(Text("1"), Some(s.core.kv.now + 1000)));
  }
}
