/**
 What each call of the authentication service answers and leaves in the store (auth.service.ts and
 auth.guard.ts), in terms of the request, the user rows and the entries of the store alone.
 */
module AuthAnswers {
  import opened Prelude
  import opened KeyValue
  import opened AuthKeys
  import opened AuthModel
  import Text

  // Access.

  /** An account that is not waiting for its first verification. */
  predicate Open(u: User) {
    u.status != PendingVerification || u.emailVerified || u.phoneVerified
  }

  /** The guard lets in exactly the subject of a good token who is there and not banned. */
  lemma GuardLetsInIff(env: Env, c: Core, token: string, u: string)
    ensures CanActivate(env, c, Some(token)) == Some(u) <==>
              var t := env.access(token);
              && t.signed && (t.exp.Some? ==> c.kv.now / 1000 < t.exp.value) && t.sub == u
              && BlacklistKey(env.hash(token)) !in c.kv.entries
              && u in c.users && c.users[u].status != Banned
    ensures CanActivate(env, c, None) == None
  {
  }

  // Sessions in the store.

  /** What is in the store under a key, by value and expiry. */
  predicate Holds(kv: AuthStore, k: Key, v: Value, seconds: nat) {
    kv.Look(k) == Some(Entry(v, if kv.expiring then Some(kv.now + 1000 * seconds) else None))
  }

  /** The keys that one sign-in of a user writes. */
  function SessionKeys(env: Env, user: string, token: string): set<Key> {
    {SessionKey(user, env.hash(token)), LatestRefreshKey(user)}
  }

  /** Issuing writes the session record and the latest token for seven days, and nothing else. */
  lemma IssuingIsExact(env: Env, kv: AuthStore, user: string, tenant: Option<string>, roles: string, k: Key)
    requires PlainId(user)
    ensures var kv' := IssueTokens(env, kv, user, tenant, roles);
            var token := env.mint(Grant(user, tenant, roles, kv.now / 1000));
            && Holds(kv', SessionKey(user, env.hash(token)), Session(user, tenant, env.hash(token)), 604_800)
            && Holds(kv', LatestRefreshKey(user), Text(token), 604_800)
            && (k !in SessionKeys(env, user, token) ==> kv'.Look(k) == kv.Look(k))
            && kv'.now == kv.now && kv'.expiring == kv.expiring
  {
  }

  /** Signing in also raises the presence flag for two minutes. */
  lemma SigningInIsExact(env: Env, kv: AuthStore, user: string, tenant: Option<string>, roles: string, k: Key)
    requires PlainId(user)
    ensures var kv' := SignIn(env, kv, user, tenant, roles);
            var token := env.mint(Grant(user, tenant, roles, kv.now / 1000));
            && Holds(kv', SessionKey(user, env.hash(token)), Session(user, tenant, env.hash(token)), 604_800)
            && Holds(kv', LatestRefreshKey(user), Text(token), 604_800)
            && Holds(kv', OnlineKey(user), Text("true"), 120)
            && (k !in SessionKeys(env, user, token) && k != OnlineKey(user) ==> kv'.Look(k) == kv.Look(k))
  {
  }

  /** A refresh writes the new session and removes the one it was given; nothing else changes. */
  lemma RefreshIsExact(env: Env, c: Core, token: string, roles: string, k: Key)
    requires PlainSubject(env, token) && RefreshTokens(env, c, token, roles).outcome.SignedIn?
    ensures var t, d := env.refresh(token), RefreshTokens(env, c, token, roles);
            var minted, spent := d.outcome.refreshToken, SessionKey(t.sub, env.hash(token));
            && d.outcome.user == t.sub && minted == env.mint(Grant(t.sub, t.tenant, roles, c.kv.now / 1000))
            && spent !in d.core.kv.entries && d.core.users == c.users
            && Holds(d.core.kv, LatestRefreshKey(t.sub), Text(minted), 604_800)
            && (SessionKey(t.sub, env.hash(minted)) != spent ==>
                  var digest := env.hash(minted);
                  Holds(d.core.kv, SessionKey(t.sub, digest), Session(t.sub, t.tenant, digest), 604_800))
            && (k !in SessionKeys(env, t.sub, minted) + {spent} ==> d.core.kv.Look(k) == c.kv.Look(k))
  {
  }

  /** A refresh that is refused changes nothing. */
  lemma RefusedRefresh(env: Env, c: Core, token: string, roles: string)
    requires PlainSubject(env, token) && !RefreshTokens(env, c, token, roles).outcome.SignedIn?
    ensures RefreshTokens(env, c, token, roles).outcome == Failed(Unauthorized)
    ensures RefreshTokens(env, c, token, roles).core == c
  {
  }

  /**
   Logout ends the user's sessions, takes the presence flag down if the user is there, and blacklists the
   access token if it still verifies: until its expiry, and for a second at least.
   */
  lemma LogoutIsExact(env: Env, c: Core, user: string, access: Option<string>, k: Key)
    ensures var d := Logout(env, c, user, access);
            var barred := access.Some? && Verifies(env.access(access.value), c.kv.now);
            && d.core.users == c.users
            && d.outcome == (if user in c.users then Done else Failed(NotFound))
            && (k == LatestRefreshKey(user) || (k.SessionKey? && k.user == user) ==> d.core.kv.Look(k) == None)
            && (k == OnlineKey(user) ==> d.core.kv.Look(k) == if user in c.users then None else c.kv.Look(k))
            && (barred && k == BlacklistKey(env.hash(access.value)) ==>
                  var exp := env.access(access.value).exp;
                  var left := if exp.Some? then exp.value - c.kv.now / 1000 else 1;
                  Holds(d.core.kv, k, Text("1"), left))
            && ((k == LatestRefreshKey(user) || (k.SessionKey? && k.user == user) || k == OnlineKey(user)
                 || (barred && k == BlacklistKey(env.hash(access.value))))
                || d.core.kv.Look(k) == c.kv.Look(k))
  {
  }

  // Codes in the store.

  predicate CodeAt(kv: AuthStore, k: Key, otp: Otp) {
    k in kv.entries && kv.entries[k].value == Code(otp)
  }

  predicate Barred(env: Env, kv: AuthStore, p: Purpose, scope: string) {
    env.production && OtpKey(p, Blocked, scope) in kv.entries
  }

  predicate ReachedByToken(kv: AuthStore, v: VerifyRequest, otp: Otp) {
    && v.token.Some? && v.token.value != "" && CodeAt(kv, OtpTokenKey(v.token.value), otp)
    && Text.Lower(otp.identifier) == Text.Lower(Text.Trim(v.identifier))
  }

  /** The code a request reaches: by its token, else by email, else by phone. */
  ghost predicate Reached(kv: AuthStore, v: VerifyRequest, otp: Otp)
    requires v.tenant.Resolved?
  {
    || ReachedByToken(kv, v, otp)
    || ((forall o :: !ReachedByToken(kv, v, o)) && CodeAt(kv, OtpKey(v.purpose, EmailCode, ScopeOf(v)), otp))
    || ((forall o :: !ReachedByToken(kv, v, o)) && OtpKey(v.purpose, EmailCode, ScopeOf(v)) !in kv.entries
        && CodeAt(kv, OtpKey(v.purpose, PhoneCode, ScopeOf(v)), otp))
  }

  lemma ReachedIsFound(kv: AuthStore, v: VerifyRequest, otp: Otp)
    requires v.tenant.Resolved?
    ensures Reached(kv, v, otp)
            <==> FindStoredOtp(kv, Text.Trim(v.identifier), v.tenant.tenant, v.purpose, v.token) == Some(otp)
  {
    if v.token.Some? && v.token.value != "" && OtpTokenKey(v.token.value) in kv.entries {
      var e := kv.entries[OtpTokenKey(v.token.value)].value;
      assert Fits(OtpTokenKey(v.token.value), e) && e == Code(e.otp);
      assert ReachedByToken(kv, v, e.otp) || forall o :: !ReachedByToken(kv, v, o);
    }
    var byEmail, byPhone := OtpKey(v.purpose, EmailCode, ScopeOf(v)), OtpKey(v.purpose, PhoneCode, ScopeOf(v));
    assert byEmail in kv.entries ==> Fits(byEmail, kv.entries[byEmail].value);
    assert byPhone in kv.entries ==> Fits(byPhone, kv.entries[byPhone].value);
  }

  /** The user a code is for: the one it was stored for, or the one the identifier leads to. */
  function UserOf(otp: Otp, v: VerifyRequest): Option<string> {
    if otp.userId.Some? then otp.userId else v.byIdentifier
  }

  /** The request presents the code it reaches, for an existing user, and is not blocked. */
  ghost predicate Accepts(env: Env, c: Core, v: VerifyRequest, otp: Otp, user: string) {
    && v.tenant.Resolved? && !Barred(env, c.kv, v.purpose, ScopeOf(v))
    && Reached(c.kv, v, otp) && v.code == otp.code && UserOf(otp, v) == Some(user) && user in c.users
  }

  lemma AcceptedIff(env: Env, c: Core, v: VerifyRequest, otp: Otp, user: string)
    ensures Accepts(env, c, v, otp, user) <==>
              var check := CheckCode(env, c, v); check.Accepted? && check.otp == otp && check.user == user
  {
    if v.tenant.Resolved? {
      ReachedIsFound(c.kv, v, otp);
    }
  }

  /** Without a tenant, or while it is blocked, a request is refused and changes nothing. */
  lemma VerificationTurnedAway(env: Env, c: Core, v: VerifyRequest)
    requires PlainUsers(c)
    ensures v.tenant.Unresolved? ==> VerifyOtp(env, c, v) == Next(c, Failed(NotFound), [])
    ensures v.tenant.Resolved? && Barred(env, c.kv, v.purpose, ScopeOf(v)) ==>
              VerifyOtp(env, c, v) == Next(c, Failed(TooManyRequests), [])
  {
  }

  /** A request that reaches no code is answered as one with a wrong code. */
  lemma VerificationOfNothing(env: Env, c: Core, v: VerifyRequest)
    requires PlainUsers(c) && v.tenant.Resolved? && !Barred(env, c.kv, v.purpose, ScopeOf(v))
    requires forall otp :: !Reached(c.kv, v, otp)
    ensures VerifyOtp(env, c, v).outcome == Failed(Unauthorized) && VerifyOtp(env, c, v).core.users == c.users
  {
    var found := FindStoredOtp(c.kv, Text.Trim(v.identifier), v.tenant.tenant, v.purpose, v.token);
    if found.Some? {
      ReachedIsFound(c.kv, v, found.value);
    }
  }

  /** What a request is answered that reaches a code. */
  lemma VerificationAnswers(env: Env, c: Core, v: VerifyRequest, otp: Otp)
    requires PlainUsers(c) && v.tenant.Resolved? && !Barred(env, c.kv, v.purpose, ScopeOf(v)) && Reached(c.kv, v, otp)
    ensures var o, user := VerifyOtp(env, c, v).outcome, UserOf(otp, v);
            && (v.code != otp.code ==> o == Failed(Unauthorized))
            && (v.code == otp.code && (user.None? || user.value !in c.users) ==> o == Failed(NotFound))
            && (v.code == otp.code && user.Some? && user.value in c.users ==>
                  && (otp.purpose == AccountVerification ==> o == Done)
                  && (otp.purpose == PasswordReset ==> o == ResetGranted(v.resetToken))
                  && (otp.purpose == LoginCode && !Open(c.users[user.value]) ==> o == Failed(Unauthorized))
                  && (otp.purpose == LoginCode && Open(c.users[user.value]) ==>
                        var g := Grant(user.value, v.tenant.tenant, v.roles, c.kv.now / 1000);
                        o == SignedIn(user.value, env.mint(g))))
  {
    ReachedIsFound(c.kv, v, otp);
  }

  /** The entries a right code clears: the counters of the triple the request names. */
  function Counters(v: VerifyRequest): set<Key>
    requires v.tenant.Resolved?
  {
    {OtpKey(v.purpose, Resend, ScopeOf(v)), OtpKey(v.purpose, Invalid, ScopeOf(v))}
  }

  /** The entries of a code: under its own identifier and under its token. */
  function CodeKeys(otp: Otp): set<Key> {
    {OtpKey(otp.purpose, if otp.channel == Email then EmailCode else PhoneCode, Scope(otp.tenant, otp.identifier)),
     OtpTokenKey(otp.token)}
  }

  /** A right code clears the counters, and if its user is there it is removed; blocks stay, and all else. */
  lemma RightCodeClears(env: Env, c: Core, v: VerifyRequest, otp: Otp, k: Key)
    requires v.tenant.Resolved? && !Barred(env, c.kv, v.purpose, ScopeOf(v))
    requires Reached(c.kv, v, otp) && v.code == otp.code
    ensures var kv, user := CheckCode(env, c, v).kv, UserOf(otp, v);
            var gone := Counters(v) + if user.Some? && user.value in c.users then CodeKeys(otp) else {};
            && kv.Look(k) == (if k in gone then None else c.kv.Look(k))
            && kv.now == c.kv.now && kv.expiring == c.kv.expiring
  {
    ReachedIsFound(c.kv, v, otp);
  }

  /** Using a code for anything but a sign-in leaves the store as the check left it. */
  lemma CodeUsed(env: Env, c: Core, v: VerifyRequest)
    requires PlainUsers(c)
    ensures var n, check := VerifyOtp(env, c, v), CheckCode(env, c, v);
            if n.outcome.SignedIn? then
              && check.Accepted? && n.outcome.user == check.user
              && n.outcome.refreshToken == env.mint(Grant(check.user, v.tenant.tenant, v.roles, check.kv.now / 1000))
              && n.core.kv == SignIn(env, check.kv, check.user, v.tenant.tenant, v.roles)
            else n.core.kv == check.kv
  {
  }

  /** What a right code leaves in the store, for each of its uses. */
  lemma RightCodeIsExact(env: Env, c: Core, v: VerifyRequest, otp: Otp, k: Key)
    requires PlainUsers(c) && v.tenant.Resolved? && !Barred(env, c.kv, v.purpose, ScopeOf(v)) && Reached(c.kv, v, otp)
    requires v.code == otp.code
    ensures var n, user := VerifyOtp(env, c, v), UserOf(otp, v);
            var gone := Counters(v) + if user.Some? && user.value in c.users then CodeKeys(otp) else {};
            if n.outcome.SignedIn? then
              var u, digest := n.outcome.user, env.hash(n.outcome.refreshToken);
              && Holds(n.core.kv, SessionKey(u, digest), Session(u, v.tenant.tenant, digest), 604_800)
              && Holds(n.core.kv, LatestRefreshKey(u), Text(n.outcome.refreshToken), 604_800)
              && Holds(n.core.kv, OnlineKey(u), Text("true"), 120)
              && (k in SessionKeys(env, u, n.outcome.refreshToken) || k == OnlineKey(u)
                  || n.core.kv.Look(k) == if k in gone then None else c.kv.Look(k))
            else n.core.kv.Look(k) == if k in gone then None else c.kv.Look(k)
  {
    RightCodeClears(env, c, v, otp, k);
    CodeUsed(env, c, v);
    var n, check := VerifyOtp(env, c, v), CheckCode(env, c, v);
    if n.outcome.SignedIn? {
      SigningInIsExact(env, check.kv, check.user, v.tenant.tenant, v.roles, k);
    }
  }

  // Login.

  predicate Admitted(kv: AuthStore, r: LoginRequest) {
    kv.Count(RateKey(Scope(r.ctxTenant, r.identifier))) < 10
  }

  /** A password signs in exactly when nothing stands against it. */
  lemma PasswordLoginIff(env: Env, c: Core, r: LoginRequest, u: string)
    requires PlainUsers(c) && r.how.ByPassword?
    ensures var o := Step(env, c, DoLogin(r)).outcome;
            (o.SignedIn? && o.user == u) <==>
              && Admitted(c.kv, r) && r.tenant.Resolved? && r.found == Some(u) && u in c.users
              && c.users[u].password.Some? && r.how.matches && c.users[u].status != Banned && Open(c.users[u])
  {
  }

  /** A linked provider account signs in whoever is there and open. */
  lemma ProviderLoginIff(env: Env, c: Core, r: LoginRequest, u: string)
    requires PlainUsers(c) && r.how.ByProvider?
    ensures var o := Step(env, c, DoLogin(r)).outcome;
            (o.SignedIn? && o.user == u) <==>
              Admitted(c.kv, r) && r.tenant.Resolved? && r.found == Some(u) && u in c.users && Open(c.users[u])
  {
  }

  /** The request for a code that a login by code makes. */
  function CodePresented(r: LoginRequest): VerifyRequest
    requires r.how.ByCode?
  {
    VerifyRequest(r.identifier, LoginCode, r.tenant, r.how.code, None, r.found, "", r.roles)
  }

  lemma CodeLoginVerifies(env: Env, c: Core, r: LoginRequest)
    requires PlainUsers(c) && r.how.ByCode? && Admitted(c.kv, r)
    ensures var c1 := c.(kv := EnforceLoginRateLimit(c.kv, Scope(r.ctxTenant, r.identifier)).0);
            && Step(env, c, DoLogin(r)).outcome == VerifyOtp(env, c1, CodePresented(r)).outcome
            && c1.kv.now == c.kv.now
            && forall k :: k != RateKey(Scope(r.ctxTenant, r.identifier)) ==> c1.kv.Look(k) == c.kv.Look(k)
  {
  }

  /** A code signs in exactly when it is the stored login code of an open account. */
  lemma CodeLoginIff(env: Env, c: Core, r: LoginRequest, u: string)
    requires PlainUsers(c) && r.how.ByCode?
    ensures var o, v := Step(env, c, DoLogin(r)).outcome, CodePresented(r);
            (o.SignedIn? && o.user == u) <==>
              Admitted(c.kv, r) && Open'(c, u) && exists otp :: Accepts(env, c, v, otp, u)
  {
    if Admitted(c.kv, r) {
      var c1 := c.(kv := EnforceLoginRateLimit(c.kv, Scope(r.ctxTenant, r.identifier)).0);
      var v := CodePresented(r);
      CodeLoginVerifies(env, c, r);
      forall otp ensures Accepts(env, c1, v, otp, u) <==> Accepts(env, c, v, otp, u) {
        SameCodes(env, c, c1, v, otp, u, RateKey(Scope(r.ctxTenant, r.identifier)));
      }
      CodeSignsInIff(env, c1, v, u);
    }
  }

  predicate Open'(c: Core, u: string) {
    u in c.users && Open(c.users[u])
  }

  lemma SameCodes(env: Env, c: Core, d: Core, v: VerifyRequest, otp: Otp, u: string, but: Key)
    requires c.users == d.users && but.RateKey? && forall k :: k != but ==> c.kv.Look(k) == d.kv.Look(k)
    ensures Accepts(env, c, v, otp, u) <==> Accepts(env, d, v, otp, u)
  {
    if v.tenant.Resolved? {
      forall k: Key, o: Otp | !k.RateKey? ensures CodeAt(c.kv, k, o) <==> CodeAt(d.kv, k, o) {
        assert c.kv.Look(k) == d.kv.Look(k);
      }
      assert forall o :: ReachedByToken(c.kv, v, o) <==> ReachedByToken(d.kv, v, o);
      assert c.kv.Look(OtpKey(v.purpose, Blocked, ScopeOf(v))) == d.kv.Look(OtpKey(v.purpose, Blocked, ScopeOf(v)));
      assert c.kv.Look(OtpKey(v.purpose, EmailCode, ScopeOf(v))) == d.kv.Look(OtpKey(v.purpose, EmailCode, ScopeOf(v)));
    }
  }

  /** Of the codes found by identifier under the login purpose, every one is a login code. */
  lemma CodeSignsInIff(env: Env, c: Core, v: VerifyRequest, u: string)
    requires PlainUsers(c) && v.purpose == LoginCode && v.token == None
    ensures var o := VerifyOtp(env, c, v).outcome;
            (o.SignedIn? && o.user == u) <==> Open'(c, u) && exists otp :: Accepts(env, c, v, otp, u)
  {
    var check := CheckCode(env, c, v);
    if check.Accepted? {
      AcceptedIff(env, c, v, check.otp, check.user);
    }
    forall otp | Accepts(env, c, v, otp, u) ensures otp.purpose == LoginCode && check.Accepted? && check.otp == otp
                                                    && check.user == u {
      AcceptedIff(env, c, v, otp, u);
    }
  }

  /** Counting an attempt touches one entry only. */
  lemma CountingIsExact(kv: AuthStore, scope: string, k: Key)
    ensures var kv' := EnforceLoginRateLimit(kv, scope).0;
            (k == RateKey(scope) || kv'.Look(k) == kv.Look(k)) && kv'.now == kv.now && kv'.expiring == kv.expiring
    ensures EnforceLoginRateLimit(kv, scope).1 <==> kv.Count(RateKey(scope)) < 10
  {
  }

  /** What is answered to a login without a code that was admitted and does not sign in. */
  lemma RefusedAfterAdmission(env: Env, c: Core, r: LoginRequest)
    requires PlainUsers(c) && !r.how.ByCode? && !LoginAdmitted(env, c, r).outcome.SignedIn?
    ensures LoginAdmitted(env, c, r).core == c
    ensures LoginAdmitted(env, c, r).outcome == Failed(if r.how.WithoutPassword? then BadRequest
                                                      else if r.tenant.Unresolved? then NotFound
                                                      else Unauthorized)
  {
  }

  /** What a login that does not sign in is answered. */
  lemma LoginRefusals(env: Env, c: Core, r: LoginRequest, k: Key)
    requires PlainUsers(c) && !r.how.ByCode? && !Step(env, c, DoLogin(r)).outcome.SignedIn?
    ensures var n := Step(env, c, DoLogin(r));
            && n.outcome == Failed(if !Admitted(c.kv, r) then TooManyRequests
                                   else if r.how.WithoutPassword? then BadRequest
                                   else if r.tenant.Unresolved? then NotFound
                                   else Unauthorized)
            && n.core.users == c.users
            && (k == RateKey(Scope(r.ctxTenant, r.identifier)) || n.core.kv.Look(k) == c.kv.Look(k))
  {
    var scope := Scope(r.ctxTenant, r.identifier);
    CountingIsExact(c.kv, scope, k);
    if Admitted(c.kv, r) {
      RefusedAfterAdmission(env, c.(kv := EnforceLoginRateLimit(c.kv, scope).0), r);
    }
  }

  /** What a login by password or provider does once it is admitted. */
  lemma SignedInAfterAdmission(env: Env, c: Core, r: LoginRequest)
    requires PlainUsers(c) && !r.how.ByCode? && LoginAdmitted(env, c, r).outcome.SignedIn?
    ensures var n := LoginAdmitted(env, c, r);
            && r.found.Some? && n.outcome.user == r.found.value && PlainId(r.found.value) && r.tenant.Resolved?
            && n.outcome.refreshToken == env.mint(Grant(r.found.value, r.tenant.tenant, r.roles, c.kv.now / 1000))
            && n.core.users == c.users
            && n.core.kv == if r.how.ByPassword? then SignIn(env, c.kv, r.found.value, r.tenant.tenant, r.roles)
                            else IssueTokens(env, c.kv, r.found.value, r.tenant.tenant, r.roles)
  {
  }

  /** What a login by password or provider leaves in the store. */
  lemma LoginIsExact(env: Env, c: Core, r: LoginRequest, k: Key)
    requires PlainUsers(c) && !r.how.ByCode? && Step(env, c, DoLogin(r)).outcome.SignedIn?
    ensures var n := Step(env, c, DoLogin(r));
            var u, token := n.outcome.user, n.outcome.refreshToken;
            && token == env.mint(Grant(u, r.tenant.tenant, r.roles, c.kv.now / 1000)) && n.core.users == c.users
            && Holds(n.core.kv, SessionKey(u, env.hash(token)), Session(u, r.tenant.tenant, env.hash(token)), 604_800)
            && Holds(n.core.kv, LatestRefreshKey(u), Text(token), 604_800)
            && (r.how.ByPassword? ==> Holds(n.core.kv, OnlineKey(u), Text("true"), 120))
            && (k in SessionKeys(env, u, token) || (r.how.ByPassword? && k == OnlineKey(u))
                || k == RateKey(Scope(r.ctxTenant, r.identifier)) || n.core.kv.Look(k) == c.kv.Look(k))
  {
    var scope := Scope(r.ctxTenant, r.identifier);
    var c1 := c.(kv := EnforceLoginRateLimit(c.kv, scope).0);
    CountingIsExact(c.kv, scope, k);
    SignedInAfterAdmission(env, c1, r);
    if r.how.ByPassword? {
      SigningInIsExact(env, c1.kv, r.found.value, r.tenant.tenant, r.roles, k);
    } else {
      IssuingIsExact(env, c1.kv, r.found.value, r.tenant.tenant, r.roles, k);
    }
  }

  // Sending codes.

  /** A phone number: six to twenty digits, perhaps after a plus. */
  lemma PhoneNumberIff(text: string)
    ensures IsPhoneNumber(text) <==>
              exists digits: string :: (text == digits || text == "+" + digits) && 6 <= |digits| <= 20
                                       && forall i :: 0 <= i < |digits| ==> '0' <= digits[i] <= '9'
  {
    if IsPhoneNumber(text) {
      var digits := if text != "" && text[0] == '+' then text[1..] else text;
      assert text == digits || text == "+" + digits;
    }
    if digits: string :| (text == digits || text == "+" + digits) && 6 <= |digits| <= 20
                         && forall i :: 0 <= i < |digits| ==> '0' <= digits[i] <= '9' {
      assert text == "+" + digits ==> text[1..] == digits;
      assert text == digits ==> '0' <= text[0] <= '9';
    }
  }

  /** A code goes where the caller asks; else where the identifier looks like; else where the user has an address. */
  lemma ChannelIs(preferred: Option<Channel>, identifier: string, user: Option<User>)
    ensures var text, channel := Text.Trim(identifier), ResolveOtpChannel(preferred, identifier, user);
            && (preferred.Some? ==> channel == preferred)
            && (preferred.None? && '@' in text ==> channel == Some(Email))
            && (preferred.None? && '@' !in text && IsPhoneNumber(text) ==> channel == Some(Phone))
            && (preferred.None? && '@' !in text && !IsPhoneNumber(text) ==>
                  && (user.None? ==> channel == None)
                  && (user.Some? ==>
                        var email, phone := user.value.email, user.value.phone;
                        var byEmail := email.Some? && Text.Lower(email.value) == Text.Lower(text);
                        && (byEmail ==> channel == Some(Email))
                        && (!byEmail && phone == Some(text) ==> channel == Some(Phone))
                        && (!byEmail && phone != Some(text) ==>
                              channel == if email.Some? && email.value != "" then Some(Email)
                                         else if phone.Some? && phone.value != "" then Some(Phone) else None)))
  {
  }

  /** A code is for what the caller asks; else to verify an account that is waiting for it; else to log in. */
  lemma PurposeIs(requested: Option<Purpose>, user: Option<User>)
    ensures requested.Some? ==> ResolveOtpPurpose(requested, user) == requested.value
    ensures requested.None? ==>
              ResolveOtpPurpose(requested, user)
              == if user.Some? && !Open(user.value) then AccountVerification else LoginCode
  {
  }

  function RowOf(c: Core, id: Option<string>): Option<User> {
    if id.Some? && id.value in c.users then Some(c.users[id.value]) else None
  }

  function SendScope(r: SendRequest): string
    requires r.tenant.Resolved?
  {
    Scope(r.tenant.tenant, Text.Trim(r.identifier))
  }

  function SendPurpose(c: Core, r: SendRequest): Purpose {
    ResolveOtpPurpose(r.purpose, RowOf(c, r.anyUser))
  }

  function SendChannel(c: Core, r: SendRequest): Option<Channel> {
    ResolveOtpChannel(r.channel, Text.Trim(r.identifier), RowOf(c, r.user))
  }

  /** The answer to a request for which no code is made out, if that is so. */
  function NoCodeFor(env: Env, c: Core, r: SendRequest): Option<Outcome> {
    var purpose, user := SendPurpose(c, r), RowOf(c, r.user);
    if r.tenant.Unresolved? then Some(Failed(NotFound))
    else if SendChannel(c, r).None? then Some(Failed(BadRequest))
    else if Barred(env, c.kv, purpose, SendScope(r)) then Some(Failed(TooManyRequests))
    else if user.None? && purpose == AccountVerification then Some(Failed(NotFound))
    else if user.None? && purpose == PasswordReset then Some(Done)
    else if purpose == AccountVerification
         && (if SendChannel(c, r).value == Email then user.value.emailVerified else user.value.phoneVerified)
    then Some(Failed(BadRequest))
    else None
  }

  lemma SendTurnedAway(env: Env, c: Core, r: SendRequest)
    requires NoCodeFor(env, c, r).Some?
    ensures SendOtp(env, c, r) == Next(c, NoCodeFor(env, c, r).value, [])
  {
  }

  /** The send that goes over the limit blocks the triple and closes its window; nothing else happens to the store. */
  lemma CountedOverLimit(env: Env, kv: AuthStore, p: Purpose, scope: string, ttl: nat, k: Key)
    requires ttl > 0 && env.production && kv.Count(OtpKey(p, Resend, scope)) >= 3
    ensures var (kv', allowed) := BumpOtpResendCounter(env, kv, p, scope, ttl);
            && !allowed && Holds(kv', OtpKey(p, Blocked, scope), Text("resend_limit"), 21_600)
            && OtpKey(p, Resend, scope) !in kv'.entries
            && (k == OtpKey(p, Blocked, scope) || k == OtpKey(p, Resend, scope) || kv'.Look(k) == kv.Look(k))
  {
  }

  lemma RefusedOverLimit(env: Env, c: Core, r: SendRequest)
    requires NoCodeFor(env, c, r).None?
    requires !BumpOtpResendCounter(env, c.kv, SendPurpose(c, r), SendScope(r), OtpTtl(SendPurpose(c, r))).1
    ensures var n, p := SendOtp(env, c, r), SendPurpose(c, r);
            && n.outcome == Failed(TooManyRequests) && n.core.users == c.users
            && n.core.kv == BumpOtpResendCounter(env, c.kv, p, SendScope(r), OtpTtl(p)).0
  {
  }

  /** The fourth code in a window is refused: the triple is blocked for six hours and its window closed. */
  lemma SendOverLimit(env: Env, c: Core, r: SendRequest, k: Key)
    requires NoCodeFor(env, c, r).None? && env.production
    requires c.kv.Count(OtpKey(SendPurpose(c, r), Resend, SendScope(r))) >= 3
    ensures var n, p := SendOtp(env, c, r), SendPurpose(c, r);
            && n.outcome == Failed(TooManyRequests) && n.core.users == c.users
            && Holds(n.core.kv, OtpKey(p, Blocked, SendScope(r)), Text("resend_limit"), 21_600)
            && OtpKey(p, Resend, SendScope(r)) !in n.core.kv.entries
            && (k == OtpKey(p, Blocked, SendScope(r)) || k == OtpKey(p, Resend, SendScope(r))
                || n.core.kv.Look(k) == c.kv.Look(k))
  {
    var p := SendPurpose(c, r);
    CountedOverLimit(env, c.kv, p, SendScope(r), OtpTtl(p), k);
    RefusedOverLimit(env, c, r);
  }

  /** The code made out for a request. */
  function CodeMade(c: Core, r: SendRequest): Otp
    requires r.tenant.Resolved? && SendChannel(c, r).Some?
  {
    Otp(Text.Trim(r.identifier), SendChannel(c, r).value, r.code, SendPurpose(c, r), r.tenant.tenant, r.token,
        if RowOf(c, r.user).Some? then r.user else None, c.kv.now)
  }

  /** Below the limit a send is counted, in production, and nothing else happens to the store. */
  lemma CountedSend(env: Env, kv: AuthStore, p: Purpose, scope: string, ttl: nat, k: Key)
    requires ttl > 0 && (env.production ==> kv.Count(OtpKey(p, Resend, scope)) < 3)
    ensures var (kv', allowed) := BumpOtpResendCounter(env, kv, p, scope, ttl);
            && allowed && kv'.now == kv.now && kv'.expiring == kv.expiring
            && (k == OtpKey(p, Resend, scope) && env.production ==> kv'.Count(k) == kv.Count(k) + 1)
            && ((k == OtpKey(p, Resend, scope) && env.production) || kv'.Look(k) == kv.Look(k))
  {
  }

  lemma StoredExactly(kv: AuthStore, otp: Otp, ttl: nat, k: Key)
    requires ttl > 0
    ensures var kv' := StoreOtp(kv, otp, ttl);
            if k in CodeKeys(otp) then Holds(kv', k, Code(otp), ttl) else kv'.Look(k) == kv.Look(k)
  {
  }

  lemma CodeIsMade(env: Env, c: Core, r: SendRequest)
    requires NoCodeFor(env, c, r).None?
    requires env.production ==> c.kv.Count(OtpKey(SendPurpose(c, r), Resend, SendScope(r))) < 3
    ensures var otp := CodeMade(c, r);
            var ttl := if otp.purpose == PasswordReset then 600 else 300;
            && SendOtp(env, c, r).outcome == CodeSent(r.token) && SendOtp(env, c, r).core.users == c.users
            && SendOtp(env, c, r).core.kv
               == StoreOtp(BumpOtpResendCounter(env, c.kv, otp.purpose, SendScope(r), ttl).0, otp, ttl)
  {
    CountedSend(env, c.kv, SendPurpose(c, r), SendScope(r), OtpTtl(SendPurpose(c, r)), OnlineKey(""));
  }

  /** Otherwise the code is stored under its identifier and its token, and in production counted. */
  lemma SendIsExact(env: Env, c: Core, r: SendRequest, k: Key)
    requires NoCodeFor(env, c, r).None?
    requires env.production ==> c.kv.Count(OtpKey(SendPurpose(c, r), Resend, SendScope(r))) < 3
    ensures var n, otp := SendOtp(env, c, r), CodeMade(c, r);
            var ttl := if otp.purpose == PasswordReset then 600 else 300;
            var resend := OtpKey(otp.purpose, Resend, SendScope(r));
            && n.outcome == CodeSent(r.token) && n.core.users == c.users
            && (k in CodeKeys(otp) ==> Holds(n.core.kv, k, Code(otp), ttl))
            && (k == resend && env.production ==> n.core.kv.Count(k) == c.kv.Count(k) + 1)
            && (k in CodeKeys(otp) || (k == resend && env.production) || n.core.kv.Look(k) == c.kv.Look(k))
  {
    var otp := CodeMade(c, r);
    var ttl := if otp.purpose == PasswordReset then 600 else 300;
    CodeIsMade(env, c, r);
    CountedSend(env, c.kv, otp.purpose, SendScope(r), ttl, k);
    StoredExactly(BumpOtpResendCounter(env, c.kv, otp.purpose, SendScope(r), ttl).0, otp, ttl, k);
  }

  // Registration and passwords.

  /** Where a registration is confirmed: where asked for, if that address was given, else by email, else by phone. */
  lemma RegistrationChannelIs(r: RegisterRequest)
    requires r.email.Some? || r.phone.Some?
    ensures var otp := r.otpVerification || r.email.None?;
            var asked := if otp then r.verificationChannel else None;
            ResolveVerificationChannel(r.verificationChannel, r.email, r.phone, UsesOtp(r))
            == if asked == Some(Email) then (if r.email.Some? then Some(Email) else None)
               else if asked == Some(Phone) then (if r.phone.Some? then Some(Phone) else None)
               else if r.email.Some? then Some(Email) else Some(Phone)
  {
    if r.verificationChannel.Some? {
      match r.verificationChannel.value
      case Email =>
      case Phone =>
    }
  }

  function RegistrationChannel(r: RegisterRequest): Option<Channel> {
    ResolveVerificationChannel(r.verificationChannel, r.email, r.phone, UsesOtp(r))
  }

  /** Somebody has the email, in lower case, the phone or the username. */
  ghost predicate Taken(c: Core, r: RegisterRequest) {
    || r.usernameTaken
    || (exists u :: u in c.users && r.email.Some? && c.users[u].email == Some(Text.Lower(r.email.value)))
    || (exists u :: u in c.users && r.phone.Some? && c.users[u].phone == r.phone)
  }

  /** Why a registration is refused, if it is. */
  ghost function Refusal(c: Core, r: RegisterRequest): Option<AuthError> {
    if r.email.None? && r.phone.None? then Some(BadRequest)
    else if r.tenant.Unresolved? then Some(NotFound)
    else if Taken(c, r) then Some(Conflict)
    else if RegistrationChannel(r).None? then Some(BadRequest)
    else None
  }

  lemma RegistrationRefused(env: Env, c: Core, r: RegisterRequest)
    requires Refusal(c, r).Some?
    ensures Register(env, c, r) == Next(c, Failed(Refusal(c, r).value), [])
  {
  }

  /** The row of a registered user: nothing verified yet, the link token only if a link is sent. */
  lemma RegistrationAdds(env: Env, c: Core, r: RegisterRequest)
    requires Refusal(c, r).None?
    ensures var n, byCode := Register(env, c, r), r.otpVerification || r.email.None?;
            var row := User(r.tenant.tenant, if r.email.Some? then Some(Text.Lower(r.email.value)) else None, r.phone,
                            r.password, PendingVerification, false, false, if byCode then None else Some(r.linkToken),
                            None, None);
            && n.core.users == c.users[r.id := row]
            && (!byCode ==> n.outcome == Done && n.core.kv == c.kv)
  {
  }

  /** The code for a new user goes to the address given, for the user's tenant, to verify the account. */
  lemma RegistrationSends(env: Env, c: Core, r: RegisterRequest)
    requires Refusal(c, r).None? && (r.otpVerification || r.email.None?)
    ensures var n, channel := Register(env, c, r), RegistrationChannel(r).value;
            var c1 := c.(users := n.core.users);
            var address, tenant := if channel == Email then r.email else r.phone,
                if r.tenant.tenant.Some? then r.tenant.tenant
                else if RowOf(c1, r.anyUser).Some? then RowOf(c1, r.anyUser).value.tenant else None;
            && address.Some?
            && n == SendOtp(env, c1, SendRequest(address.value, Some(channel), Some(AccountVerification),
                                                 Resolved(tenant), r.anyUser, r.user, r.code, r.token))
  {
    RegistrationAdds(env, c, r);
  }

  /** A forgotten password: nothing for an unknown email, else a code to it or a link. */
  lemma ForgottenPassword(env: Env, c: Core, r: ForgotRequest)
    ensures var n, row := ForgotPassword(env, c, r), RowOf(c, r.found);
            && (row.None? ==> n == Next(c, Done, []))
            && (row.Some? && !r.useOtp ==> n.outcome == Done && n.core.kv == c.kv)
            && (row.Some? && r.useOtp ==>
                  var tenant := if row.value.tenant.Some? then row.value.tenant
                                else if RowOf(c, r.anyUser).Some? then RowOf(c, r.anyUser).value.tenant else None;
                  var sent := SendOtp(env, c, SendRequest(r.email, Some(Email), Some(PasswordReset), Resolved(tenant),
                                                          r.anyUser, r.user, r.code, r.token));
                  n.core == sent.core && n.outcome == if sent.outcome.Failed? then sent.outcome else Done)
  {
  }

  /** Who may change a password, and what a refusal says. */
  lemma PasswordChangeAnswers(c: Core, user: string, matches: bool, password: string)
    ensures var n := ChangePassword(c, user, matches, password);
            && (n.outcome == Done <==> user in c.users && c.users[user].password.Some? && matches)
            && (n.outcome != Done ==>
                  && n.core == c
                  && n.outcome == Failed(if user !in c.users then NotFound
                                         else if c.users[user].password.None? then BadRequest else Unauthorized))
  {
  }

  /** A new password, by change or by reset, ends the sessions of its user and leaves the rest of the store. */
  lemma PasswordEndsSessions(env: Env, c: Core, op: Op, k: Key)
    requires PlainUsers(c) && Legit(env, c, op) && (op.DoChangePassword? || op.DoResetPassword?)
    requires Step(env, c, op).outcome == Done
    ensures var user := if op.DoChangePassword? then op.user else op.found.value;
            Step(env, c, op).core.kv.Look(k)
            == if k == LatestRefreshKey(user) || (k.SessionKey? && k.user == user) then None else c.kv.Look(k)
  {
  }

  /** Calls that only touch user rows. */
  lemma RowCallsSpareStore(env: Env, c: Core, op: Op)
    requires PlainUsers(c) && Legit(env, c, op) && (op.DoVerifyEmail? || op.DoAddGoogleUser? || op.DoSeedAdmin?)
    ensures Step(env, c, op).core.kv == c.kv
    ensures op.DoVerifyEmail? ==>
              Step(env, c, op).outcome
              == if op.found.Some? && op.found.value in c.users then Done else Failed(BadRequest)
  {
  }
}
