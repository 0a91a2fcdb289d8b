/**
 The authentication services as objects over the shared `RedisService` and the user table
 (auth.service.ts, session.service.ts, auth.guard.ts). Each method is proved to do what the function
 of the same name in `AuthModel` says, on the string keys the code really builds.
 */
module AuthServices {
  import opened Prelude
  import opened KeyValue
  import opened AuthKeys
  import opened AuthModel
  import opened Redis
  import Text

  /** The store without the entries under the given strings. */
  ghost function Without(kv: Store<Key>, strings: seq<string>): Store<Key> {
    kv.(entries := map k | k in kv.entries && Render(k) !in strings :: kv.entries[k])
  }

  lemma DeletingOneMore(view: Store<string>, kv: Store<Key>, strings: seq<string>, x: string)
    requires Encodes(view, Without(kv, strings)) && AllPlain(kv)
    ensures Encodes(view.Del(x), Without(kv, strings + [x]))
  {
    var before, after := Without(kv, strings), Without(kv, strings + [x]);
    assert forall k :: k in after.entries <==> k in before.entries && Render(k) != x;
  }

  /**
   Deleting what the session pattern selects and the latest-token key is revocation, whichever of the
   two comes first.
   */
  lemma DeletedAllSessions(view: Store<string>, kv: AuthStore, user: string, keys: seq<string>)
    requires Encodes(view, kv) && PlainId(user)
    requires forall x :: x in keys <==> x in view.entries && Selects(kv.expiring, SessionPattern(user), x)
    ensures Without(kv, keys).Del(LatestRefreshKey(user)) == RevokeUserSessions(kv, user)
    ensures LatestRefreshKey(user) !in kv.entries ==> Without(kv, keys) == RevokeUserSessions(kv, user)
  {
    WithoutSessions(view, kv, user, keys);
  }

  lemma WithoutSessions(view: Store<string>, kv: AuthStore, user: string, keys: seq<string>)
    requires Encodes(view, kv) && PlainId(user)
    requires forall x :: x in keys <==> x in view.entries && Selects(kv.expiring, SessionPattern(user), x)
    ensures Without(kv, keys).entries == kv.entries - SessionsOf(kv, user)
  {
    forall k | k in kv.entries ensures Render(k) in keys <==> k.SessionKey? && k.user == user {
      SessionPatternExact(kv.expiring, user, k);
    }
  }

  lemma RevokingTwice(kv: AuthStore, user: string)
    ensures RevokeUserSessions(Remove(kv, LatestRefreshKey(user)), user) == RevokeUserSessions(kv, user)
  {
    assert SessionsOf(Remove(kv, LatestRefreshKey(user)), user) == SessionsOf(kv, user);
  }

  /** The keys found are as many as the sessions they stand for. */
  lemma {:induction false} AsManyKeysAsSessions(keys: seq<string>, sessions: set<Key>)
    requires NoDuplicates(keys)
    requires forall k :: k in sessions ==> Plain(k) && Render(k) in keys
    requires forall x :: x in keys ==> Parse(x).Some? && Parse(x).value in sessions && Render(Parse(x).value) == x
    ensures |keys| == |sessions|
  {
    if keys == [] {
      assert sessions == {};
    } else {
      var n := |keys| - 1;
      var k := Parse(keys[n]).value;
      var rest := keys[..n];
      assert keys == rest + [keys[n]];
      forall k' | k' in sessions - {k} ensures Render(k') in rest {
        RenderInjective(k', k);
      }
      forall x | x in rest ensures Parse(x).value in sessions - {k} {
        assert x != keys[n];
      }
      AsManyKeysAsSessions(rest, sessions - {k});
    }
  }

  lemma BumpedCopy(view: Store<string>, kv: AuthStore, k: Key, windowSeconds: nat)
    requires Encodes(view, kv) && CountsUnder(k) && windowSeconds > 0
    ensures view.Countable(Render(k))
    ensures var view1 := view.Incr(Render(k));
            var first := view1.Count(Render(k)) == 1;
            && Encodes(if first then view1.Expire(Render(k), windowSeconds) else view1, Bump(kv, k, windowSeconds))
            && view1.Count(Render(k)) == Bump(kv, k, windowSeconds).Count(k)
  {
    EncodesIncr(view, kv, k);
    EncodesExpire(view.Incr(Render(k)), kv.Incr(k), k, windowSeconds);
  }

  /** The pattern finds one key for each session of the user. */
  lemma SelectedKeysAreSessions(view: Store<string>, kv: AuthStore, user: string, keys: seq<string>)
    requires Encodes(view, kv) && PlainId(user) && NoDuplicates(keys)
    requires forall x :: x in keys <==> x in view.entries && Selects(kv.expiring, SessionPattern(user), x)
    ensures |keys| == |SessionsOf(kv, user)|
    ensures forall k :: k in SessionsOf(kv, user) ==> Plain(k) && Render(k) in keys
    ensures forall x :: x in keys ==>
              Parse(x).Some? && Parse(x).value in SessionsOf(kv, user) && Render(Parse(x).value) == x
    ensures forall x :: x in keys ==> view.Look(x) == kv.Look(Parse(x).value)
  {
    forall x | x in keys ensures Parse(x).Some? && Parse(x).value in SessionsOf(kv, user) {
      SessionPatternExact(kv.expiring, user, Parse(x).value);
    }
    forall k | k in SessionsOf(kv, user) ensures Render(k) in keys {
      SessionPatternExact(kv.expiring, user, k);
    }
    AsManyKeysAsSessions(keys, SessionsOf(kv, user));
  }

  /** The stored values under the given keys, in order. */
  ghost function SessionRecords(kv: AuthStore, keys: seq<string>): (r: seq<Value>)
    requires forall x :: x in keys ==> Parse(x).Some? && Parse(x).value in kv.entries
  {
    seq(|keys|, i requires 0 <= i < |keys| =>
      assert keys[i] in keys; kv.entries[Parse(keys[i]).value].value)
  }

  lemma RecordsOfSessions(kv: AuthStore, user: string, keys: seq<string>)
    requires forall k :: k in SessionsOf(kv, user) ==> Plain(k) && Render(k) in keys
    requires forall x :: x in keys ==> Parse(x).Some? && Parse(x).value in SessionsOf(kv, user)
    ensures forall v :: v in SessionRecords(kv, keys)
                        <==> exists k :: k in SessionsOf(kv, user) && kv.entries[k].value == v
  {
    var records := SessionRecords(kv, keys);
    forall v | v in records ensures exists k :: k in SessionsOf(kv, user) && kv.entries[k].value == v {
      var j :| 0 <= j < |records| && records[j] == v;
      assert Parse(keys[j]).value in SessionsOf(kv, user);
    }
    forall k | k in SessionsOf(kv, user) ensures kv.entries[k].value in records {
      var j :| 0 <= j < |keys| && keys[j] == Render(k);
      RoundTrip(k);
      assert records[j] == kv.entries[k].value;
    }
  }

  /** What reading the keys one by one yields: the records of the user's sessions. */
  lemma RecordsRead(view: Store<string>, kv: AuthStore, user: string, keys: seq<string>) returns (records: seq<Value>)
    requires Encodes(view, kv) && PlainId(user) && NoDuplicates(keys)
    requires forall x :: x in keys <==> x in view.entries && Selects(kv.expiring, SessionPattern(user), x)
    ensures |records| == |keys| == |SessionsOf(kv, user)|
    ensures forall i :: 0 <= i < |keys| ==> view.Look(keys[i]).Some? && view.Look(keys[i]).value.value == records[i]
    ensures forall v :: v in records <==> exists k :: k in SessionsOf(kv, user) && kv.entries[k].value == v
  {
    SelectedKeysAreSessions(view, kv, user, keys);
    records := SessionRecords(kv, keys);
    RecordsOfSessions(kv, user, keys);
    forall i | 0 <= i < |keys| ensures view.Look(keys[i]) == Some(kv.entries[Parse(keys[i]).value]) {
      assert keys[i] in keys;
    }
  }

  /** Reads the given keys one by one. */
  method ReadEach(redis: RedisService, keys: seq<string>) returns (records: seq<Value>)
    requires redis.Valid() && forall i :: 0 <= i < |keys| ==> redis.View().Look(keys[i]).Some?
    ensures |records| == |keys|
    ensures forall i :: 0 <= i < |keys| ==> records[i] == redis.View().Look(keys[i]).value.value
  {
    records := [];
    for i := 0 to |keys|
      invariant |records| == i
      invariant forall j :: 0 <= j < i ==> records[j] == redis.View().Look(keys[j]).value.value
    {
      var record := redis.Get(keys[i]);
      if record.Some? {
        records := records + [record.value];
      }
    }
  }

  /** Deletes the given keys one by one. */
  method DeleteEach(redis: RedisService, keys: seq<string>, ghost kv: Store<Key>)
    requires redis.Valid() && Encodes(redis.View(), kv)
    modifies redis
    ensures redis.Valid() && Encodes(redis.View(), Without(kv, keys))
  {
    assert Without(kv, keys[..0]) == kv;
    for i := 0 to |keys|
      invariant redis.Valid() && Encodes(redis.View(), Without(kv, keys[..i]))
    {
      DeletingOneMore(redis.View(), kv, keys[..i], keys[i]);
      var _ := redis.Del(keys[i]);
      assert keys[..i + 1] == keys[..i] + [keys[i]];
    }
    assert keys[..|keys|] == keys;
  }

  class SessionService {
    const redis: RedisService

    constructor (redis: RedisService)
      ensures this.redis == redis
    {
      this.redis := redis;
    }

    /** Deletes the session keys one by one, then the latest token; reports how many sessions there were. */
    method RevokeAll(userId: string, ghost kv: AuthStore) returns (revoked: nat)
      requires redis.Valid() && Encodes(redis.View(), kv) && PlainId(userId)
      modifies redis
      ensures redis.Valid() && Encodes(redis.View(), RevokeUserSessions(kv, userId))
      ensures revoked == |SessionsOf(kv, userId)|
    {
      var keys := redis.Keys(SessionPattern(userId));
      DeletedAllSessions(redis.View(), kv, userId, keys);
      SelectedKeysAreSessions(redis.View(), kv, userId, keys);
      DeleteEach(redis, keys, kv);
      EncodesDel(redis.View(), Without(kv, keys), LatestRefreshKey(userId));
      var _ := redis.Del(Render(LatestRefreshKey(userId)));
      revoked := |keys|;
    }

    /** One record for each live session of the user. */
    method FindByUser(userId: string, ghost kv: AuthStore) returns (sessions: seq<Value>)
      requires redis.Valid() && Encodes(redis.View(), kv) && PlainId(userId)
      ensures |sessions| == |SessionsOf(kv, userId)|
      ensures forall v :: v in sessions <==> exists k :: k in SessionsOf(kv, userId) && kv.entries[k].value == v
    {
      var keys := redis.Keys(SessionPattern(userId));
      ghost var records := RecordsRead(redis.View(), kv, userId, keys);
      sessions := ReadEach(redis, keys);
      assert sessions == records;
    }
  }

  class AuthGuard {
    const env: Env
    const redis: RedisService

    constructor (env: Env, redis: RedisService)
      ensures this.env == env && this.redis == redis
    {
      this.env, this.redis := env, redis;
    }

    /** Lets in the user of a token that verifies and is not blacklisted, if the user is there and not banned. */
    method CanActivate(token: Option<string>, users: map<string, User>, ghost kv: AuthStore)
      returns (user: Option<string>)
      requires redis.Valid() && Encodes(redis.View(), kv)
      ensures user == AuthModel.CanActivate(env, Core(kv, users), token)
      ensures forall u :: user == Some(u) <==>
                && token.Some? && env.access(token.value).signed && env.access(token.value).sub == u
                && (env.access(token.value).exp.Some? ==> kv.now / 1000 < env.access(token.value).exp.value)
                && BlacklistKey(env.hash(token.value)) !in kv.entries
                && u in users && users[u].status != Banned
    {
      if token.None? {
        return None;
      }
      var claims := env.access(token.value);
      if !Verifies(claims, redis.now) {
        return None;
      }
      var digest := env.hash(token.value);
      assert Render(BlacklistKey(digest)) == "blacklist:access:" + digest;
      EncodedLook(redis.View(), kv, BlacklistKey(digest));
      var blacklisted := redis.Exists("blacklist:access:" + digest);
      assert blacklisted <==> BlacklistKey(digest) in kv.entries;
      if blacklisted || claims.sub !in users || users[claims.sub].status == Banned {
        return None;
      }
      return Some(claims.sub);
    }
  }

  class AuthService {
    const env: Env
    const redis: RedisService
    var users: map<string, User>
    ghost var kv: AuthStore

    ghost predicate Valid()
      reads this, redis
    {
      redis.Valid() && Encodes(redis.View(), kv) && PlainUsers(Now())
    }

    ghost function Now(): Core
      reads this
    {
      Core(kv, users)
    }

    constructor (env: Env, redis: RedisService)
      requires redis.Valid() && redis.View().entries == map[]
      ensures this.env == env && this.redis == redis
      ensures Valid() && Now() == Fresh(redis.now, redis.View().expiring).core
    {
      this.env, this.redis := env, redis;
      users := map[];
      kv := Store(map[], redis.now, redis.View().expiring);
    }

    // Time, and calls that reach the store by other ways.

    /** The environment lets time pass. */
    method Elapse(ms: nat)
      requires Valid()
      modifies this`kv, redis
      ensures Valid()
      ensures Now() == AuthModel.Step(env, old(Now()), DoElapse(ms)).core
    {
      EncodesAdvance(redis.View(), kv, ms);
      redis.Elapse(ms);
      kv := AuthModel.Elapse(kv, ms);
    }

    /** `SessionService.revokeAll` on the shared store. */
    method RevokeAll(sessions: SessionService, userId: string) returns (outcome: Outcome)
      requires Valid() && PlainId(userId) && sessions.redis == redis
      modifies this`kv, redis
      ensures Valid()
      ensures var n := AuthModel.Step(env, old(Now()), DoRevokeAll(userId)); Now() == n.core && outcome == n.outcome
    {
      var revoked := sessions.RevokeAll(userId, kv);
      kv := AuthModel.RevokeUserSessions(kv, userId);
      outcome := Revoked(revoked);
    }

    // Access to the shared store.

    method PutKey(k: Key, v: Value, ttlSeconds: nat)
      requires Valid() && Plain(k) && Fits(k, v) && ttlSeconds > 0
      modifies this`kv, redis
      ensures Valid() && kv == Put(old(kv), k, v, ttlSeconds)
    {
      EncodesSet(redis.View(), kv, k, v, ttlSeconds);
      redis.Set(Render(k), v, ttlSeconds);
      kv := Put(kv, k, v, ttlSeconds);
    }

    method RemoveKey(k: Key)
      requires Valid() && Plain(k)
      modifies this`kv, redis
      ensures Valid() && kv == Remove(old(kv), k)
    {
      EncodesDel(redis.View(), kv, k);
      var _ := redis.Del(Render(k));
      kv := Remove(kv, k);
    }

    method HasKey(k: Key) returns (found: bool)
      requires Valid() && Plain(k)
      ensures found <==> k in kv.entries
    {
      EncodedLook(redis.View(), kv, k);
      found := redis.Exists(Render(k));
    }

    method ReadCode(k: Key) returns (otp: Option<Otp>)
      requires Valid() && Plain(k)
      ensures otp == CodeUnder(kv, k)
    {
      EncodedLook(redis.View(), kv, k);
      var v := redis.Get(Render(k));
      otp := if v.Some? && v.value.Code? then Some(v.value.otp) else None;
    }

    method BumpKey(k: Key, windowSeconds: nat) returns (count: nat)
      requires Valid() && CountsUnder(k) && windowSeconds > 0
      modifies this`kv, redis
      ensures Valid() && kv == Bump(old(kv), k, windowSeconds) && count == kv.Count(k)
    {
      BumpedCopy(redis.View(), kv, k, windowSeconds);
      count := redis.Incr(Render(k));
      if count == 1 {
        redis.Expire(Render(k), windowSeconds);
      }
      kv := Bump(kv, k, windowSeconds);
    }

    // Sessions.

    method IssueTokens(userId: string, tenant: Option<string>, roles: string) returns (minted: string)
      requires Valid() && PlainId(userId)
      modifies this`kv, redis
      ensures Valid() && kv == AuthModel.IssueTokens(env, old(kv), userId, tenant, roles)
      ensures minted == Minted(env, userId, tenant, roles, old(kv).now)
    {
      minted := env.mint(Grant(userId, tenant, roles, redis.now / 1000));
      var digest := env.hash(minted);
      PutKey(SessionKey(userId, digest), Session(userId, tenant, digest), REFRESH_TTL_SECONDS);
      PutKey(LatestRefreshKey(userId), Text(minted), REFRESH_TTL_SECONDS);
    }

    /** Deletes the latest token first, then the session keys one by one. */
    method RevokeUserSessions(userId: string)
      requires Valid() && PlainId(userId)
      modifies this`kv, redis
      ensures Valid() && kv == AuthModel.RevokeUserSessions(old(kv), userId)
    {
      RemoveKey(LatestRefreshKey(userId));
      var keys := redis.Keys(SessionPattern(userId));
      DeletedAllSessions(redis.View(), kv, userId, keys);
      DeleteEach(redis, keys, kv);
      RevokingTwice(old(kv), userId);
      kv := AuthModel.RevokeUserSessions(kv, userId);
    }

    method RefreshTokens(token: string, roles: string) returns (outcome: Outcome)
      requires Valid() && PlainSubject(env, token)
      modifies this`kv, redis
      ensures Valid()
      ensures var n := AuthModel.RefreshTokens(env, old(Now()), token, roles); Now() == n.core && outcome == n.outcome
    {
      var claims := env.refresh(token);
      if !Verifies(claims, redis.now) {
        return Failed(Unauthorized);
      }
      var key := SessionKey(claims.sub, env.hash(token));
      var live := HasKey(key);
      if !live {
        return Failed(Unauthorized);
      }
      var minted := IssueTokens(claims.sub, claims.tenant, roles);
      RemoveKey(key);
      outcome := SignedIn(claims.sub, minted);
    }

    method BlacklistAccessToken(token: string)
      requires Valid()
      modifies this`kv, redis
      ensures Valid() && kv == AuthModel.BlacklistAccessToken(env, old(kv), token)
    {
      if Verifies(env.access(token), redis.now) {
        PutKey(BlacklistKey(env.hash(token)), Text("1"), BlacklistTtl(env.access(token), redis.now));
      }
    }

    method TouchPresence(userId: string, online: bool)
      requires Valid()
      modifies this`kv, redis
      ensures Valid() && kv == AuthModel.TouchPresence(old(kv), userId, online)
    {
      if online {
        PutKey(OnlineKey(userId), Text("true"), ONLINE_TTL_SECONDS);
      } else {
        RemoveKey(OnlineKey(userId));
      }
    }

    method Logout(userId: string, access: Option<string>) returns (outcome: Outcome)
      requires Valid() && PlainId(userId)
      modifies this`kv, redis
      ensures Valid()
      ensures var n := AuthModel.Logout(env, old(Now()), userId, access); Now() == n.core && outcome == n.outcome
    {
      RevokeUserSessions(userId);
      if access.Some? {
        BlacklistAccessToken(access.value);
      }
      if userId !in users {
        return Failed(NotFound);
      }
      TouchPresence(userId, false);
      outcome := Done;
    }

    // One-time codes.

    method AssertOtpNotBlocked(purpose: Purpose, scope: string) returns (refused: bool)
      requires Valid()
      ensures refused <==> OtpBlocked(env, kv, purpose, scope)
    {
      if !env.production {
        return false;
      }
      refused := HasKey(OtpKey(purpose, Blocked, scope));
    }

    method BumpOtpResendCounter(purpose: Purpose, scope: string, ttl: nat) returns (allowed: bool)
      requires Valid() && ttl > 0
      modifies this`kv, redis
      ensures Valid() && (kv, allowed) == AuthModel.BumpOtpResendCounter(env, old(kv), purpose, scope, ttl)
    {
      if !env.production {
        return true;
      }
      var key := OtpKey(purpose, Resend, scope);
      var attempts := BumpKey(key, ttl);
      if attempts > OTP_MAX_RESEND_ATTEMPTS {
        PutKey(OtpKey(purpose, Blocked, scope), Text("resend_limit"), OTP_BLOCK_SECONDS);
        RemoveKey(key);
        return false;
      }
      allowed := true;
    }

    method BumpOtpInvalidAttempts(purpose: Purpose, scope: string)
      requires Valid()
      modifies this`kv, redis
      ensures Valid() && kv == AuthModel.BumpOtpInvalidAttempts(env, old(kv), purpose, scope)
    {
      if !env.production {
        return;
      }
      var key := OtpKey(purpose, Invalid, scope);
      var attempts := BumpKey(key, OTP_TTL_SECONDS);
      if attempts >= OTP_MAX_INVALID_ATTEMPTS {
        PutKey(OtpKey(purpose, Blocked, scope), Text("invalid_attempt_limit"), OTP_BLOCK_SECONDS);
        RemoveKey(key);
      }
    }

    method ClearOtpGuardKeys(purpose: Purpose, scope: string)
      requires Valid()
      modifies this`kv, redis
      ensures Valid() && kv == AuthModel.ClearOtpGuardKeys(old(kv), purpose, scope)
    {
      RemoveKey(OtpKey(purpose, Resend, scope));
      RemoveKey(OtpKey(purpose, Invalid, scope));
    }

    method FindStoredOtp(identifier: string, tenant: Option<string>, purpose: Purpose, token: Option<string>)
      returns (otp: Option<Otp>)
      requires Valid()
      ensures otp == AuthModel.FindStoredOtp(kv, identifier, tenant, purpose, token)
    {
      if token.Some? && token.value != "" {
        otp := ReadCode(OtpTokenKey(token.value));
        if otp.Some? && Text.Lower(otp.value.identifier) == Text.Lower(identifier) {
          return;
        }
      }
      var emailOtp := ReadCode(OtpKey(purpose, EmailCode, Scope(tenant, identifier)));
      var phoneOtp := ReadCode(OtpKey(purpose, PhoneCode, Scope(tenant, identifier)));
      otp := if emailOtp.Some? then emailOtp else phoneOtp;
    }

    method DeleteOtpPayload(otp: Otp)
      requires Valid()
      modifies this`kv, redis
      ensures Valid() && kv == AuthModel.DeleteOtpPayload(old(kv), otp)
    {
      RemoveKey(PayloadKey(otp));
      RemoveKey(OtpTokenKey(otp.token));
    }

    method StoreOtp(otp: Otp, ttl: nat)
      requires Valid() && ttl > 0
      modifies this`kv, redis
      ensures Valid() && kv == AuthModel.StoreOtp(old(kv), otp, ttl)
    {
      PutKey(PayloadKey(otp), Code(otp), ttl);
      PutKey(OtpTokenKey(otp.token), Code(otp), ttl);
    }

    method SendOtp(r: SendRequest) returns (outcome: Outcome)
      requires Valid()
      modifies this`kv, redis
      ensures Valid()
      ensures var n := AuthModel.SendOtp(env, old(Now()), r); Now() == n.core && outcome == n.outcome
    {
      var identifier := Text.Trim(r.identifier);
      var anyUser := if r.anyUser.Some? && r.anyUser.value in users then Some(users[r.anyUser.value]) else None;
      var user := if r.user.Some? && r.user.value in users then Some(users[r.user.value]) else None;
      var purpose := ResolveOtpPurpose(r.purpose, anyUser);
      if r.tenant.Unresolved? {
        return Failed(NotFound);
      }
      var scope := Scope(r.tenant.tenant, identifier);
      var channel := ResolveOtpChannel(r.channel, identifier, user);
      if channel.None? {
        return Failed(BadRequest);
      }
      var refused := AssertOtpNotBlocked(purpose, scope);
      if refused {
        return Failed(TooManyRequests);
      }
      if purpose == AccountVerification {
        if user.None? {
          return Failed(NotFound);
        }
        if (channel.value == Email && user.value.emailVerified)
          || (channel.value == Phone && user.value.phoneVerified) {
          return Failed(BadRequest);
        }
      }
      if purpose == PasswordReset && user.None? {
        return Done;
      }
      var otp := Otp(identifier, channel.value, r.code, purpose, r.tenant.tenant, r.token,
                     if user.Some? then r.user else None, redis.now);
      var ttl := OtpTtl(purpose);
      var allowed := BumpOtpResendCounter(purpose, scope, ttl);
      if !allowed {
        return Failed(TooManyRequests);
      }
      StoreOtp(otp, ttl);
      outcome := CodeSent(r.token);
    }

    /** `verifyOtp` up to the deletion of the code: the code and the user it is for, or an error. */
    method CheckCode(r: VerifyRequest) returns (outcome: Outcome, accepted: Option<(Otp, string)>)
      requires Valid()
      modifies this`kv, redis
      ensures Valid()
      ensures var v := AuthModel.CheckCode(env, old(Now()), r);
              && kv == v.kv
              && accepted == (match v case Refused(_, _, _) => None case Accepted(otp, user, _, _) => Some((otp, user)))
              && (v.Refused? ==> outcome == Failed(v.error))
    {
      outcome, accepted := Failed(NotFound), None;
      if r.tenant.Unresolved? {
        return;
      }
      var identifier := Text.Trim(r.identifier);
      var scope := Scope(r.tenant.tenant, identifier);
      var refused := AssertOtpNotBlocked(r.purpose, scope);
      if refused {
        outcome := Failed(TooManyRequests);
        return;
      }
      var stored := FindStoredOtp(identifier, r.tenant.tenant, r.purpose, r.token);
      if stored.None? || stored.value.code != r.code {
        BumpOtpInvalidAttempts(r.purpose, scope);
        outcome := Failed(Unauthorized);
        return;
      }
      ClearOtpGuardKeys(r.purpose, scope);
      var user := if stored.value.userId.Some? then stored.value.userId else r.byIdentifier;
      if user.None? || user.value !in users {
        return;
      }
      DeleteOtpPayload(stored.value);
      accepted := Some((stored.value, user.value));
    }

    method VerifyOtp(r: VerifyRequest) returns (outcome: Outcome)
      requires Valid()
      modifies this, redis
      ensures Valid()
      ensures var n := AuthModel.VerifyOtp(env, old(Now()), r); Now() == n.core && outcome == n.outcome
    {
      var accepted;
      outcome, accepted := CheckCode(r);
      if accepted.None? {
        return;
      }
      var (otp, user) := accepted.value;
      match otp.purpose {
        case AccountVerification =>
          users := users[user := VerifiedRow(users[user], otp.channel)];
          outcome := Done;
        case PasswordReset =>
          users := users[user := WithResetToken(users[user], r.resetToken, redis.now)];
          outcome := ResetGranted(r.resetToken);
        case LoginCode =>
          if !CanAuthenticate(users[user]) {
            return Failed(Unauthorized);
          }
          TouchPresence(user, true);
          var minted := IssueTokens(user, r.tenant.tenant, r.roles);
          outcome := SignedIn(user, minted);
      }
    }

    // Login and passwords.

    method EnforceLoginRateLimit(scope: string) returns (admitted: bool)
      requires Valid()
      modifies this`kv, redis
      ensures Valid() && (kv, admitted) == AuthModel.EnforceLoginRateLimit(old(kv), scope)
    {
      var attempts := BumpKey(RateKey(scope), LOGIN_LIMIT_WINDOW_SECONDS);
      admitted := attempts <= LOGIN_LIMIT_MAX_ATTEMPTS;
    }

    method LoginByPassword(r: LoginRequest, matches: bool) returns (outcome: Outcome)
      requires Valid()
      modifies this`kv, redis
      ensures Valid()
      ensures var n := AuthModel.LoginByPassword(env, old(Now()), r, matches); Now() == n.core && outcome == n.outcome
    {
      if r.tenant.Unresolved? {
        return Failed(NotFound);
      }
      if r.found.None? || r.found.value !in users || users[r.found.value].password.None? || !matches {
        return Failed(Unauthorized);
      }
      var user := users[r.found.value];
      if user.status == Banned || !CanAuthenticate(user) {
        return Failed(Unauthorized);
      }
      TouchPresence(r.found.value, true);
      var minted := IssueTokens(r.found.value, r.tenant.tenant, r.roles);
      outcome := SignedIn(r.found.value, minted);
    }

    method LoginByProvider(r: LoginRequest) returns (outcome: Outcome)
      requires Valid()
      modifies this`kv, redis
      ensures Valid()
      ensures var n := AuthModel.LoginByProvider(env, old(Now()), r); Now() == n.core && outcome == n.outcome
    {
      if r.tenant.Unresolved? {
        return Failed(NotFound);
      }
      if r.found.None? || r.found.value !in users || !CanAuthenticate(users[r.found.value]) {
        return Failed(Unauthorized);
      }
      var minted := IssueTokens(r.found.value, r.tenant.tenant, r.roles);
      outcome := SignedIn(r.found.value, minted);
    }

    method Login(r: LoginRequest) returns (outcome: Outcome)
      requires Valid()
      modifies this, redis
      ensures Valid()
      ensures var n := AuthModel.Login(env, old(Now()), r); Now() == n.core && outcome == n.outcome
    {
      var admitted := EnforceLoginRateLimit(Scope(r.ctxTenant, r.identifier));
      if !admitted {
        return Failed(TooManyRequests);
      }
      match r.how {
        case ByProvider => outcome := LoginByProvider(r);
        case ByCode(code) => outcome := VerifyOtp(CodeLogin(r, code));
        case ByPassword(matches) => outcome := LoginByPassword(r, matches);
        case WithoutPassword => outcome := Failed(BadRequest);
      }
    }

    method Register(r: RegisterRequest) returns (outcome: Outcome)
      requires Valid() && PlainId(r.id) && r.id !in users
      modifies this, redis
      ensures Valid()
      ensures var n := AuthModel.Register(env, old(Now()), r); Now() == n.core && outcome == n.outcome
    {
      if r.email.None? && r.phone.None? {
        return Failed(BadRequest);
      }
      if r.tenant.Unresolved? {
        return Failed(NotFound);
      }
      if IdentityTaken(users, r) {
        return Failed(Conflict);
      }
      var channel := ResolveVerificationChannel(r.verificationChannel, r.email, r.phone, UsesOtp(r));
      if channel.None? {
        return Failed(BadRequest);
      }
      users := users[r.id := NewUser(r)];
      if UsesOtp(r) {
        outcome := SendOtp(RegistrationCode(users, r, channel.value));
      } else {
        outcome := Done;
      }
    }

    method VerifyEmail(found: Option<string>) returns (outcome: Outcome)
      requires Valid()
      modifies this`users
      ensures Valid()
      ensures var n := AuthModel.VerifyEmail(old(Now()), found); Now() == n.core && outcome == n.outcome
    {
      if found.None? || found.value !in users {
        return Failed(BadRequest);
      }
      users := users[found.value := VerifiedRow(users[found.value], Email)];
      outcome := Done;
    }

    method ForgotPassword(r: ForgotRequest) returns (outcome: Outcome)
      requires Valid()
      modifies this, redis
      ensures Valid()
      ensures var n := AuthModel.ForgotPassword(env, old(Now()), r); Now() == n.core && outcome == n.outcome
    {
      if r.found.None? || r.found.value !in users {
        return Done;
      }
      var row := users[r.found.value];
      if r.useOtp {
        outcome := SendOtp(ResetCode(users, r, row));
        outcome := if outcome.Failed? then outcome else Done;
      } else {
        users := users[r.found.value := WithResetToken(row, r.resetToken, redis.now)];
        outcome := Done;
      }
    }

    /** The row with this reset token that has not run out, if any. */
    method FindByResetToken(token: string) returns (found: Option<string>)
      requires Valid()
      ensures FoundByReset(Now(), token, found)
    {
      var todo := users.Keys;
      while todo != {}
        invariant todo <= users.Keys
        invariant forall id :: ResetMatches(Now(), token, id) ==> id in todo
        decreases todo
      {
        var id :| id in todo;
        if users[id].resetToken == Some(token)
          && users[id].resetExpires.Some? && redis.now < users[id].resetExpires.value {
          return Some(id);
        }
        todo := todo - {id};
      }
      found := None;
    }

    method ResetPassword(token: string, newPassword: string) returns (outcome: Outcome, found: Option<string>)
      requires Valid()
      modifies this, redis
      ensures Valid()
      ensures FoundByReset(old(Now()), token, found)
      ensures var n := AuthModel.ResetPassword(old(Now()), found, newPassword); Now() == n.core && outcome == n.outcome
    {
      found := FindByResetToken(token);
      if found.None? {
        return Failed(BadRequest), found;
      }
      users := users[found.value :=
        users[found.value].(password := Some(newPassword), resetToken := None, resetExpires := None)];
      RevokeUserSessions(found.value);
      outcome := Done;
    }

    method ChangePassword(userId: string, matches: bool, newPassword: string) returns (outcome: Outcome)
      requires Valid()
      modifies this, redis
      ensures Valid()
      ensures var n := AuthModel.ChangePassword(old(Now()), userId, matches, newPassword);
              Now() == n.core && outcome == n.outcome
    {
      if userId !in users {
        return Failed(NotFound);
      }
      if users[userId].password.None? {
        return Failed(BadRequest);
      }
      if !matches {
        return Failed(Unauthorized);
      }
      users := users[userId := users[userId].(password := Some(newPassword))];
      RevokeUserSessions(userId);
      outcome := Done;
    }
  }
}
