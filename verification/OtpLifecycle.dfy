/** One-time codes over whole runs: stored, found, consumed at most once (auth.service.ts). */
module OtpLifecycle {
  import opened Prelude
  import opened KeyValue
  import opened AuthKeys
  import opened AuthModel
  import opened AuthEffects
  import Text

  // Conservation: a code is consumed at most as often as it was stored.

  predicate Stores(e: Event, otp: Otp) {
    e.CodeStored? && e.otp == otp
  }

  function TimesStored(log: seq<Event>, otp: Otp): nat {
    if log == [] then 0
    else TimesStored(log[..|log| - 1], otp) + if Stores(log[|log| - 1], otp) then 1 else 0
  }

  function TimesConsumed(log: seq<Event>, otp: Otp): nat {
    if log == [] then 0
    else TimesConsumed(log[..|log| - 1], otp) + if log[|log| - 1] == CodeConsumed(otp) then 1 else 0
  }

  ghost predicate Conserved(s: State, otp: Otp) {
    TimesConsumed(s.log, otp) + (if Stored(s.core.kv, otp) then 1 else 0) <= TimesStored(s.log, otp)
  }

  lemma CodesOnlyVanish(env: Env, s: State, e: Effect, k: Key)
    requires Allowed(env, s.core, e) && !e.SendCode?
    ensures var after := CodeUnder(Apply(env, s, e).core.kv, k); after == CodeUnder(s.core.kv, k) || after == None
  {
    if !Touches(e, k) {
      EffectFrame(env, s, e, k);
    }
  }

  lemma SendingStores(env: Env, s: State, e: Effect, otp: Otp)
    requires Allowed(env, s.core, e) && e.SendCode?
    requires Stored(Apply(env, s, e).core.kv, otp) && !Stored(s.core.kv, otp)
    ensures EffectEvents(env, s.core, e) != [] && Stores(EffectEvents(env, s.core, e)[0], otp)
  {
    var scope, ttl := OtpScope(e.otp), OtpTtl(e.otp.purpose);
    var s1 := Counted(env, s.core.kv, e.otp).0;
    ResendFrame(env, s.core.kv, e.otp.purpose, scope, ttl, OtpTokenKey(otp.token));
    ResendFrame(env, s.core.kv, e.otp.purpose, scope, ttl, PayloadKey(otp));
    assert !Stored(s1, otp);
  }

  /** A code can only turn up in the store by being sent. */
  lemma OnlySendingStores(env: Env, s: State, e: Effect, otp: Otp)
    requires Allowed(env, s.core, e)
    requires Stored(Apply(env, s, e).core.kv, otp) && !Stored(s.core.kv, otp)
    ensures EffectEvents(env, s.core, e) != [] && Stores(EffectEvents(env, s.core, e)[0], otp)
  {
    if e.SendCode? {
      SendingStores(env, s, e, otp);
    } else {
      CodesOnlyVanish(env, s, e, OtpTokenKey(otp.token));
      CodesOnlyVanish(env, s, e, PayloadKey(otp));
    }
  }

  lemma EffectConserves(env: Env, s: State, e: Effect, otp: Otp)
    requires Conserved(s, otp) && Allowed(env, s.core, e)
    ensures Conserved(Apply(env, s, e), otp)
  {
    EffectEvent(env, s, e);
    if e == ConsumeCode(otp) {
      ConsumingRemoves(s.core.kv, otp);
    } else if Stored(Apply(env, s, e).core.kv, otp) && !Stored(s.core.kv, otp) {
      OnlySendingStores(env, s, e, otp);
    }
  }

  lemma ConsumingRemoves(kv: AuthStore, otp: Otp)
    ensures !Stored(DeleteOtpPayload(kv, otp), otp)
  {
  }

  lemma {:induction false} ChainConserves(env: Env, s: State, es: seq<Effect>, otp: Otp)
    requires Conserved(s, otp) && AllowedChain(env, s, es)
    ensures Conserved(Chain(env, s, es), otp)
    decreases |es|
  {
    if es == [] {
    } else {
      EffectConserves(env, s, es[0], otp);
      ChainConserves(env, Apply(env, s, es[0]), es[1..], otp);
    }
  }

  /** Each time a code was sent lets it be consumed once, in any run; while it lies stored, one time is left. */
  lemma ConsumedAtMostAsOftenAsStored(env: Env, now: nat, expiring: bool, ops: seq<Op>, otp: Otp)
    requires LegitRun(env, Fresh(now, expiring), ops)
    ensures Conserved(Run(env, Fresh(now, expiring), ops), otp)
  {
    var es := RunIsChain(env, Fresh(now, expiring), ops);
    ChainConserves(env, Fresh(now, expiring), es, otp);
  }

  // Lookup by token.

  /** The code last stored under the token and when it ends, unless it was consumed since. */
  function LastCode(log: seq<Event>, token: string): Option<(Otp, nat)> {
    if log == [] then None
    else
      var e := log[|log| - 1];
      if e.CodeStored? && e.otp.token == token then Some((e.otp, e.at + 1000 * e.ttl))
      else if e.CodeConsumed? && e.otp.token == token then None
      else LastCode(log[..|log| - 1], token)
  }

  function ExpectedCode(s: State, token: string): Option<Entry> {
    match LastCode(s.log, token)
    case None => None
    case Some((otp, end)) =>
      if !s.core.kv.expiring then Some(Entry(Code(otp), None))
      else if s.core.kv.now < end then Some(Entry(Code(otp), Some(end)))
      else None
  }

  ghost predicate TokenFollows(s: State, token: string) {
    s.core.kv.Look(OtpTokenKey(token)) == ExpectedCode(s, token)
  }

  lemma StoringSetsToken(kv: AuthStore, otp: Otp, ttl: nat)
    requires ttl > 0
    ensures StoreOtp(kv, otp, ttl).Look(OtpTokenKey(otp.token)) == Some(Entry(Code(otp), kv.Deadline(ttl)))
    ensures StoreOtp(kv, otp, ttl).now == kv.now && StoreOtp(kv, otp, ttl).expiring == kv.expiring
  {
  }

  lemma StoringFollows(env: Env, s: State, otp: Otp)
    requires Allowed(env, s.core, SendCode(otp)) && Counted(env, s.core.kv, otp).1
    ensures TokenFollows(Apply(env, s, SendCode(otp)), otp.token)
  {
    var t, ttl := Apply(env, s, SendCode(otp)), OtpTtl(otp.purpose);
    EffectEvent(env, s, SendCode(otp));
    ResendFrame(env, s.core.kv, otp.purpose, OtpScope(otp), ttl, OtpTokenKey(otp.token));
    StoringSetsToken(Counted(env, s.core.kv, otp).0, otp, ttl);
    assert LastCode(t.log, otp.token) == Some((otp, s.core.kv.now + 1000 * ttl));
  }

  lemma SendingSetsToken(env: Env, s: State, otp: Otp)
    requires TokenFollows(s, otp.token) && Allowed(env, s.core, SendCode(otp))
    ensures TokenFollows(Apply(env, s, SendCode(otp)), otp.token)
  {
    if Counted(env, s.core.kv, otp).1 {
      StoringFollows(env, s, otp);
    } else {
      EffectEvent(env, s, SendCode(otp));
      ResendFrame(env, s.core.kv, otp.purpose, OtpScope(otp), OtpTtl(otp.purpose), OtpTokenKey(otp.token));
      assert LastCode(Apply(env, s, SendCode(otp)).log, otp.token) == LastCode(s.log, otp.token);
    }
  }

  lemma OthersKeepToken(env: Env, s: State, e: Effect, token: string)
    requires TokenFollows(s, token) && Allowed(env, s.core, e) && !Touches(e, OtpTokenKey(token))
    ensures TokenFollows(Apply(env, s, e), token)
  {
    EffectEvent(env, s, e);
    EffectFrame(env, s, e, OtpTokenKey(token));
    assert LastCode(Apply(env, s, e).log, token) == LastCode(s.log, token);
  }

  lemma WaitingKeepsToken(env: Env, s: State, ms: nat, token: string)
    requires TokenFollows(s, token)
    ensures TokenFollows(Apply(env, s, Wait(ms)), token)
  {
    EffectEvent(env, s, Wait(ms));
    assert LastCode(Apply(env, s, Wait(ms)).log, token) == LastCode(s.log, token);
  }

  lemma EffectKeepsToken(env: Env, s: State, e: Effect, token: string)
    requires TokenFollows(s, token) && Allowed(env, s.core, e)
    ensures TokenFollows(Apply(env, s, e), token)
  {
    if e.Wait? {
      WaitingKeepsToken(env, s, e.ms, token);
    } else if !Touches(e, OtpTokenKey(token)) {
      OthersKeepToken(env, s, e, token);
    } else if e.SendCode? {
      SendingSetsToken(env, s, e.otp);
    } else {
      EffectEvent(env, s, e);
    }
  }

  lemma {:induction false} ChainKeepsToken(env: Env, s: State, es: seq<Effect>, token: string)
    requires TokenFollows(s, token) && AllowedChain(env, s, es)
    ensures TokenFollows(Chain(env, s, es), token)
    decreases |es|
  {
    if es == [] {
    } else {
      EffectKeepsToken(env, s, es[0], token);
      ChainKeepsToken(env, Apply(env, s, es[0]), es[1..], token);
    }
  }

  // Codes and their tokens, when no token is generated twice.

  ghost predicate DistinctTokens(log: seq<Event>) {
    forall i, j :: 0 <= i < j < |log| && log[i].CodeStored? && log[j].CodeStored? ==>
      log[i].otp.token != log[j].otp.token
  }

  ghost predicate StoredBefore(log: seq<Event>, n: nat, otp: Otp) {
    exists i :: 0 <= i < n && i < |log| && Stores(log[i], otp)
  }

  /** Nothing is consumed before it is stored. */
  ghost predicate Ordered(log: seq<Event>) {
    forall j, otp :: 0 <= j < |log| && log[j] == CodeConsumed(otp) ==> StoredBefore(log, j, otp)
  }

  /** A code that lies under its identifier lies under its token too, and ends at the same moment. */
  ghost predicate Paired(kv: AuthStore, otp: Otp) {
    CodeUnder(kv, PayloadKey(otp)) == Some(otp) ==> kv.Look(OtpTokenKey(otp.token)) == kv.Look(PayloadKey(otp))
  }

  ghost predicate Tracked(s: State) {
    && (forall otp :: Conserved(s, otp))
    && Ordered(s.log)
    && (DistinctTokens(s.log) ==> forall otp :: Paired(s.core.kv, otp))
  }

  lemma {:induction false} CountedMeansStored(log: seq<Event>, otp: Otp)
    requires TimesStored(log, otp) > 0
    ensures StoredBefore(log, |log|, otp)
  {
    var n := |log| - 1;
    if Stores(log[n], otp) {
    } else {
      CountedMeansStored(log[..n], otp);
      var i :| 0 <= i < n && Stores(log[..n][i], otp);
      assert Stores(log[i], otp);
    }
  }

  lemma StoredIsLogged(s: State, otp: Otp)
    requires Conserved(s, otp) && Stored(s.core.kv, otp)
    ensures StoredBefore(s.log, |s.log|, otp)
  {
    CountedMeansStored(s.log, otp);
  }

  lemma OneCodePerToken(log: seq<Event>, a: Otp, b: Otp)
    requires DistinctTokens(log) && a.token == b.token
    requires StoredBefore(log, |log|, a) && StoredBefore(log, |log|, b)
    ensures a == b
  {
    var i :| 0 <= i < |log| && Stores(log[i], a);
    var j :| 0 <= j < |log| && Stores(log[j], b);
    assert i == j;
  }

  lemma EffectKeepsOrder(env: Env, s: State, e: Effect)
    requires Tracked(s) && Allowed(env, s.core, e)
    ensures Ordered(Apply(env, s, e).log)
  {
    EffectEvent(env, s, e);
    var log := Apply(env, s, e).log;
    if e.ConsumeCode? {
      StoredIsLogged(s, e.otp);
      var i :| 0 <= i < |s.log| && Stores(s.log[i], e.otp);
      assert Stores(log[i], e.otp);
    }
    forall j, otp | 0 <= j < |log| && log[j] == CodeConsumed(otp) ensures StoredBefore(log, j, otp) {
      if j < |s.log| {
        assert s.log[j] == CodeConsumed(otp);
        var i :| 0 <= i < j && Stores(s.log[i], otp);
        assert Stores(log[i], otp);
      }
    }
  }

  lemma SendingKeepsPairs(env: Env, s: State, e: Effect, otp: Otp)
    requires Tracked(s) && Allowed(env, s.core, e) && e.SendCode?
    requires DistinctTokens(Apply(env, s, e).log) && DistinctTokens(s.log)
    ensures Paired(Apply(env, s, e).core.kv, otp)
  {
    EffectEvent(env, s, e);
    var t := Apply(env, s, e);
    var scope, ttl := OtpScope(e.otp), OtpTtl(e.otp.purpose);
    var s1 := Counted(env, s.core.kv, e.otp).0;
    ResendFrame(env, s.core.kv, e.otp.purpose, scope, ttl, OtpTokenKey(otp.token));
    ResendFrame(env, s.core.kv, e.otp.purpose, scope, ttl, PayloadKey(otp));
    assert Paired(s.core.kv, otp);
    assert Paired(s1, otp);
    if Counted(env, s.core.kv, e.otp).1 {
      if e.otp != otp && CodeUnder(s1, PayloadKey(otp)) == Some(otp) {
        assert Stored(s.core.kv, otp) && Conserved(s, otp);
        StoredIsLogged(s, otp);
        var i :| 0 <= i < |s.log| && Stores(s.log[i], otp);
        assert t.log[i] == s.log[i];
      }
      StoringKeepsPairs(s1, e.otp, ttl, otp);
    }
  }

  lemma StoringKeepsPairs(kv: AuthStore, stored: Otp, ttl: nat, otp: Otp)
    requires ttl > 0 && Paired(kv, otp)
    requires stored != otp && CodeUnder(kv, PayloadKey(otp)) == Some(otp) ==> stored.token != otp.token
    ensures Paired(StoreOtp(kv, stored, ttl), otp)
  {
  }

  lemma ConsumingKeepsPairs(env: Env, s: State, e: Effect, otp: Otp)
    requires Tracked(s) && Allowed(env, s.core, e) && e.ConsumeCode? && DistinctTokens(s.log)
    ensures Paired(Apply(env, s, e).core.kv, otp)
  {
    assert Paired(s.core.kv, otp);
    if CodeUnder(s.core.kv, PayloadKey(otp)) == Some(otp) && e.otp.token == otp.token {
      assert Conserved(s, otp) && Conserved(s, e.otp);
      StoredIsLogged(s, otp);
      StoredIsLogged(s, e.otp);
      OneCodePerToken(s.log, otp, e.otp);
    }
  }

  lemma EffectKeepsPairs(env: Env, s: State, e: Effect, otp: Otp)
    requires Tracked(s) && Allowed(env, s.core, e) && DistinctTokens(Apply(env, s, e).log)
    ensures Paired(Apply(env, s, e).core.kv, otp)
  {
    EffectEvent(env, s, e);
    var t := Apply(env, s, e);
    assert DistinctTokens(s.log) by {
      assert forall i :: 0 <= i < |s.log| ==> t.log[i] == s.log[i];
    }
    assert Paired(s.core.kv, otp);
    if e.SendCode? {
      SendingKeepsPairs(env, s, e, otp);
    } else if e.ConsumeCode? {
      ConsumingKeepsPairs(env, s, e, otp);
    } else if !e.Wait? {
      EffectFrame(env, s, e, OtpTokenKey(otp.token));
      EffectFrame(env, s, e, PayloadKey(otp));
    }
  }

  lemma EffectKeepsTracked(env: Env, s: State, e: Effect)
    requires Tracked(s) && Allowed(env, s.core, e)
    ensures Tracked(Apply(env, s, e))
  {
    var t := Apply(env, s, e);
    forall otp ensures Conserved(t, otp) {
      assert Conserved(s, otp);
      EffectConserves(env, s, e, otp);
    }
    EffectKeepsOrder(env, s, e);
    if DistinctTokens(t.log) {
      forall otp ensures Paired(t.core.kv, otp) {
        EffectKeepsPairs(env, s, e, otp);
      }
    }
  }

  lemma {:induction false} ChainKeepsTracked(env: Env, s: State, es: seq<Effect>)
    requires Tracked(s) && AllowedChain(env, s, es)
    ensures Tracked(Chain(env, s, es))
    decreases |es|
  {
    if es == [] {
    } else {
      EffectKeepsTracked(env, s, es[0]);
      ChainKeepsTracked(env, Apply(env, s, es[0]), es[1..]);
    }
  }

  /** Ten minutes for a code to reset a password, five for any other. */
  predicate InTime(s: State, otp: Otp, at: nat) {
    s.core.kv.expiring ==> s.core.kv.now < at + if otp.purpose == PasswordReset then 600_000 else 300_000
  }

  ghost predicate UsualTtls(log: seq<Event>) {
    forall i :: 0 <= i < |log| && log[i].CodeStored? ==>
      log[i].ttl == if log[i].otp.purpose == PasswordReset then 600 else 300
  }

  lemma {:induction false} ChainKeepsTtls(env: Env, s: State, es: seq<Effect>)
    requires UsualTtls(s.log) && AllowedChain(env, s, es)
    ensures UsualTtls(Chain(env, s, es).log)
    decreases |es|
  {
    if es == [] {
    } else {
      EffectEvent(env, s, es[0]);
      ChainKeepsTtls(env, Apply(env, s, es[0]), es[1..]);
    }
  }

  lemma {:induction false} LastCodeOfDistinctTokens(log: seq<Event>, i: nat, otp: Otp, ttl: nat, at: nat)
    requires DistinctTokens(log) && Ordered(log)
    requires i < |log| && log[i] == CodeStored(otp, ttl, at)
    ensures LastCode(log, otp.token) == if CodeConsumed(otp) in log then None else Some((otp, at + 1000 * ttl))
  {
    var n := |log| - 1;
    if i == n {
      forall j | 0 <= j < n ensures log[j] != CodeConsumed(otp) {
        assert !StoredBefore(log, j, otp);
      }
    } else {
      var front := log[..n];
      assert front[i] == log[i];
      forall j, x | 0 <= j < n && front[j] == CodeConsumed(x) ensures StoredBefore(front, j, x) {
        assert log[j] == CodeConsumed(x);
        var k :| 0 <= k < j && Stores(log[k], x);
        assert Stores(front[k], x);
      }
      LastCodeOfDistinctTokens(front, i, otp, ttl, at);
      if log[n].CodeConsumed? && log[n].otp.token == otp.token {
        assert StoredBefore(log, n, log[n].otp);
        var k :| 0 <= k < n && Stores(log[k], log[n].otp);
        assert k == i;
      }
      assert log == front + [log[n]];
    }
  }

  /**
   After any run in which no token was generated twice, looking a code up by its own token and
   identifier (in any spelling) finds it exactly while it is in its time-to-live and not yet consumed,
   even after a later code has taken its place under the identifier.
   */
  lemma OwnTokenFindsCodeIff(env: Env, now: nat, expiring: bool, ops: seq<Op>, i: nat, otp: Otp, ttl: nat, at: nat,
                             identifier: string, tenant: Option<string>, purpose: Purpose)
    requires LegitRun(env, Fresh(now, expiring), ops)
    requires var s := Run(env, Fresh(now, expiring), ops);
             DistinctTokens(s.log) && i < |s.log| && s.log[i] == CodeStored(otp, ttl, at)
    requires otp.token != "" && Text.Lower(identifier) == Text.Lower(otp.identifier)
    ensures var s := Run(env, Fresh(now, expiring), ops);
            FindStoredOtp(s.core.kv, identifier, tenant, purpose, Some(otp.token)) == Some(otp)
            <==> InTime(s, otp, at) && CodeConsumed(otp) !in s.log
  {
    var start := Fresh(now, expiring);
    var s := Run(env, start, ops);
    var es := RunIsChain(env, start, ops);
    ChainKeepsToken(env, start, es, otp.token);
    ChainKeepsTracked(env, start, es);
    ChainKeepsTtls(env, start, es);
    LastCodeOfDistinctTokens(s.log, i, otp, ttl, at);
    FoundIffUnderToken(s.core.kv, otp, identifier, tenant, purpose);
  }

  lemma FoundIffUnderToken(kv: AuthStore, otp: Otp, identifier: string, tenant: Option<string>, purpose: Purpose)
    requires Paired(kv, otp)
    requires otp.token != "" && Text.Lower(identifier) == Text.Lower(otp.identifier)
    ensures FindStoredOtp(kv, identifier, tenant, purpose, Some(otp.token)) == Some(otp)
            <==> CodeUnder(kv, OtpTokenKey(otp.token)) == Some(otp)
  {
    var byEmail := OtpKey(purpose, EmailCode, Scope(tenant, identifier));
    var byPhone := OtpKey(purpose, PhoneCode, Scope(tenant, identifier));
    assert CodeUnder(kv, byEmail) == Some(otp) ==> PayloadKey(otp) == byEmail;
    assert CodeUnder(kv, byPhone) == Some(otp) ==> PayloadKey(otp) == byPhone;
  }

  /** With distinct tokens every code is consumed at most once in the whole run. */
  lemma ConsumedAtMostOnce(env: Env, now: nat, expiring: bool, ops: seq<Op>, otp: Otp)
    requires LegitRun(env, Fresh(now, expiring), ops)
    requires DistinctTokens(Run(env, Fresh(now, expiring), ops).log)
    ensures TimesConsumed(Run(env, Fresh(now, expiring), ops).log, otp) <= 1
  {
    ConsumedAtMostAsOftenAsStored(env, now, expiring, ops, otp);
    StoredAtMostOnce(Run(env, Fresh(now, expiring), ops).log, otp);
  }

  lemma {:induction false} StoredAtMostOnce(log: seq<Event>, otp: Otp)
    requires DistinctTokens(log)
    ensures TimesStored(log, otp) <= 1
  {
    if log == [] {
    } else {
      var n := |log| - 1;
      StoredAtMostOnce(log[..n], otp);
      if Stores(log[n], otp) {
        assert forall i :: 0 <= i < n ==> log[..n][i] == log[i];
        assert !StoredBefore(log[..n], n, otp);
        if TimesStored(log[..n], otp) > 0 {
          CountedMeansStored(log[..n], otp);
        }
      }
    }
  }

  // Sending and verifying fit together.

  lemma SentCodeIsStored(env: Env, c: Core, r: SendRequest)
    requires SendOtp(env, c, r).outcome.CodeSent?
    ensures var otp, kv := CodeFor(c, r), SendOtp(env, c, r).core.kv;
            && kv.Look(OtpTokenKey(r.token)) == Some(Entry(Code(otp), c.kv.Deadline(OtpTtl(otp.purpose))))
            && !OtpBlocked(env, kv, otp.purpose, OtpScope(otp))
            && kv.now == c.kv.now && kv.expiring == c.kv.expiring
  {
    var otp := CodeFor(c, r);
    ResendOverflowBlocks(env, c.kv, otp.purpose, OtpScope(otp), OtpTtl(otp.purpose));
    ResendFrame(env, c.kv, otp.purpose, OtpScope(otp), OtpTtl(otp.purpose), OtpTokenKey(r.token));
  }

  /** The code lies under its token, whatever a request says about tenant and purpose. */
  lemma PresentedByTokenIff(env: Env, c: Core, v: VerifyRequest, otp: Otp)
    requires otp.token != "" && v.token == Some(otp.token) && CodeUnder(c.kv, OtpTokenKey(otp.token)) == Some(otp)
    requires v.tenant.Resolved? && Text.Lower(Text.Trim(v.identifier)) == Text.Lower(otp.identifier)
    ensures var user := if otp.userId.Some? then otp.userId else v.byIdentifier;
            var check := CheckCode(env, c, v);
            && (check.Accepted? <==>
                  && !OtpBlocked(env, c.kv, v.purpose, ScopeOf(v))
                  && v.code == otp.code && user.Some? && user.value in c.users)
            && (check.Accepted? ==> check.otp == otp && check.user == user.value && !Stored(check.kv, otp))
  {
    assert FindStoredOtp(c.kv, Text.Trim(v.identifier), v.tenant.tenant, v.purpose, v.token) == Some(otp);
  }

  /**
   A code presented with its token before it runs out is accepted exactly when it is the code that was
   sent, its user still exists, and the tenant and purpose that the request names, which need not be
   those of the code, are not blocked; it is then gone.
   */
  lemma SentCodeVerifiesIff(env: Env, c: Core, r: SendRequest, v: VerifyRequest, wait: nat)
    requires SendOtp(env, c, r).outcome.CodeSent? && r.token != "" && v.token == Some(r.token)
    requires v.tenant.Resolved? && Text.Lower(Text.Trim(v.identifier)) == Text.Lower(Text.Trim(r.identifier))
    requires c.kv.expiring ==> wait < if CodeFor(c, r).purpose == PasswordReset then 600_000 else 300_000
    ensures var otp, d := CodeFor(c, r), SendOtp(env, c, r).core;
            var later := d.(kv := Elapse(d.kv, wait));
            var user := if otp.userId.Some? then otp.userId else v.byIdentifier;
            var check := CheckCode(env, later, v);
            && (check.Accepted? <==>
                  && !OtpBlocked(env, later.kv, v.purpose, ScopeOf(v))
                  && v.code == r.code && user.Some? && user.value in d.users)
            && (check.Accepted? ==> check.otp == otp && check.user == user.value && !Stored(check.kv, otp))
  {
    SentCodeIsStored(env, c, r);
    var otp, d := CodeFor(c, r), SendOtp(env, c, r).core;
    var later := d.(kv := Elapse(d.kv, wait));
    assert CodeUnder(later.kv, OtpTokenKey(r.token)) == Some(otp);
    PresentedByTokenIff(env, later, v, otp);
  }
}
