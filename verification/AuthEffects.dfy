/**
 Every call of the authentication service is a short sequence of sixteen primitive effects, each made
 only when its guard holds (`StepDecomposes`). A property that every allowed effect keeps therefore
 holds throughout every run (`RunIsChain`).
 */
module AuthEffects {
  import opened Prelude
  import opened KeyValue
  import opened AuthKeys
  import opened AuthModel
  import Text

  datatype Effect =
    | Wait(ms: nat)
    | AddUser(id: string, row: User)
    | VerifyUser(id: string, channel: Channel)
    | GrantReset(id: string, token: string)
    | SpendReset(id: string, password: string)
    | NewPassword(id: string, password: string)
    | Issue(id: string, tenant: Option<string>, roles: string)
    | Spend(id: string, digest: string)
    | Revoke(id: string)
    | Bar(access: string)
    | Touch(id: string, online: bool)
    | CountLogin(scope: string)
    | SendCode(otp: Otp)
    | CountGuess(purpose: Purpose, scope: string)
    | ClearGuards(purpose: Purpose, scope: string)
    | ConsumeCode(otp: Otp)

  /** The code is still stored somewhere. */
  predicate Stored(s: AuthStore, otp: Otp) {
    CodeUnder(s, OtpTokenKey(otp.token)) == Some(otp) || CodeUnder(s, PayloadKey(otp)) == Some(otp)
  }

  function OtpScope(otp: Otp): string {
    Scope(otp.tenant, otp.identifier)
  }

  function Counted(env: Env, s: AuthStore, otp: Otp): (AuthStore, bool) {
    BumpOtpResendCounter(env, s, otp.purpose, OtpScope(otp), OtpTtl(otp.purpose))
  }

  /** When the service performs an effect. */
  ghost predicate Allowed(env: Env, c: Core, e: Effect) {
    match e
    case AddUser(id, row) =>
      PlainId(id) && id !in c.users && row.resetToken.None? && row.resetExpires.None?
      && (row.status == PendingVerification ==> !row.emailVerified && !row.phoneVerified)
    case VerifyUser(id, _) => id in c.users
    case GrantReset(id, _) => id in c.users
    case SpendReset(id, _) => id in c.users
    case NewPassword(id, _) => id in c.users
    case Issue(id, _, _) =>
      PlainId(id) && ((id in c.users && CanAuthenticate(c.users[id])) || SessionsOf(c.kv, id) != {})
    case Spend(id, _) => PlainId(id)
    case CountGuess(purpose, scope) => !OtpBlocked(env, c.kv, purpose, scope)
    case SendCode(otp) => otp.createdAt == c.kv.now && !OtpBlocked(env, c.kv, otp.purpose, OtpScope(otp))
    case ConsumeCode(otp) => Stored(c.kv, otp)
    case _ => true
  }

  function EffectKv(env: Env, c: Core, e: Effect): AuthStore
    requires e.Issue? ==> PlainId(e.id)
  {
    var kv := c.kv;
    match e
    case Wait(ms) => Elapse(kv, ms)
    case Issue(id, tenant, roles) => IssueTokens(env, kv, id, tenant, roles)
    case Spend(id, digest) => Remove(kv, SessionKey(id, digest))
    case Revoke(id) => RevokeUserSessions(kv, id)
    case Bar(access) => BlacklistAccessToken(env, kv, access)
    case Touch(id, online) => TouchPresence(kv, id, online)
    case CountLogin(scope) => EnforceLoginRateLimit(kv, scope).0
    case SendCode(otp) =>
      var (s1, allowed) := Counted(env, kv, otp);
      if allowed then StoreOtp(s1, otp, OtpTtl(otp.purpose)) else s1
    case CountGuess(purpose, scope) => BumpOtpInvalidAttempts(env, kv, purpose, scope)
    case ClearGuards(purpose, scope) => ClearOtpGuardKeys(kv, purpose, scope)
    case ConsumeCode(otp) => DeleteOtpPayload(kv, otp)
    case _ => kv
  }

  function EffectUsers(c: Core, e: Effect): map<string, User> {
    match e
    case AddUser(id, row) => c.users[id := row]
    case VerifyUser(id, channel) => if id in c.users then c.users[id := VerifiedRow(c.users[id], channel)] else c.users
    case GrantReset(id, token) =>
      if id in c.users then c.users[id := WithResetToken(c.users[id], token, c.kv.now)] else c.users
    case SpendReset(id, password) =>
      if id in c.users
      then c.users[id := c.users[id].(password := Some(password), resetToken := None, resetExpires := None)]
      else c.users
    case NewPassword(id, password) =>
      if id in c.users then c.users[id := c.users[id].(password := Some(password))] else c.users
    case _ => c.users
  }

  function EffectEvents(env: Env, c: Core, e: Effect): seq<Event> {
    match e
    case Wait(ms) => [Elapsed(ms)]
    case GrantReset(id, token) => [ResetIssued(id, token, c.kv.now)]
    case SpendReset(id, _) => [ResetSpent(id)]
    case Issue(id, tenant, roles) => [SessionIssued(id, env.hash(Minted(env, id, tenant, roles, c.kv.now)), c.kv.now)]
    case Spend(id, digest) => [SessionSpent(id, digest)]
    case Revoke(id) => [SessionsRevoked(id)]
    case CountLogin(scope) => [LoginTried(scope, EnforceLoginRateLimit(c.kv, scope).1)]
    case SendCode(otp) =>
      if Counted(env, c.kv, otp).1
      then [CodeStored(otp, OtpTtl(otp.purpose), c.kv.now)]
      else [ResendLimited(otp.purpose, OtpScope(otp))]
    case CountGuess(purpose, scope) => [GuessWrong(purpose, scope)]
    case ClearGuards(purpose, scope) => [GuessRight(purpose, scope)]
    case ConsumeCode(otp) => [CodeConsumed(otp)]
    case _ => []
  }

  function Apply(env: Env, s: State, e: Effect): State
    requires e.Issue? ==> PlainId(e.id)
  {
    State(Core(EffectKv(env, s.core, e), EffectUsers(s.core, e)), s.log + EffectEvents(env, s.core, e))
  }

  ghost predicate AllowedChain(env: Env, s: State, es: seq<Effect>)
    decreases |es|
  {
    es == [] || (Allowed(env, s.core, es[0]) && AllowedChain(env, Apply(env, s, es[0]), es[1..]))
  }

  ghost function Chain(env: Env, s: State, es: seq<Effect>): State
    requires AllowedChain(env, s, es)
    decreases |es|
  {
    if es == [] then s else Chain(env, Apply(env, s, es[0]), es[1..])
  }

  lemma {:induction false} ChainConcat(env: Env, s: State, a: seq<Effect>, b: seq<Effect>)
    requires AllowedChain(env, s, a) && AllowedChain(env, Chain(env, s, a), b)
    ensures AllowedChain(env, s, a + b) && Chain(env, s, a + b) == Chain(env, Chain(env, s, a), b)
    decreases |a|
  {
    if a == [] {
      assert a + b == b;
    } else {
      assert (a + b)[1..] == a[1..] + b;
      ChainConcat(env, Apply(env, s, a[0]), a[1..], b);
    }
  }

  ghost predicate Reaches(env: Env, s: State, es: seq<Effect>, t: State) {
    AllowedChain(env, s, es) && Chain(env, s, es) == t
  }

  lemma One(env: Env, s: State, e: Effect)
    requires Allowed(env, s.core, e)
    ensures Reaches(env, s, [e], Apply(env, s, e))
  {
    assert Chain(env, Apply(env, s, e), [e][1..]) == Apply(env, s, e);
  }

  lemma Two(env: Env, s: State, e: Effect, f: Effect)
    requires Allowed(env, s.core, e) && Allowed(env, Apply(env, s, e).core, f)
    ensures Reaches(env, s, [e, f], Apply(env, Apply(env, s, e), f))
  {
    One(env, s, e);
    One(env, Apply(env, s, e), f);
    ChainConcat(env, s, [e], [f]);
    assert [e] + [f] == [e, f];
  }

  lemma Concat(env: Env, s: State, a: seq<Effect>, t: State, b: seq<Effect>, u: State)
    requires Reaches(env, s, a, t) && Reaches(env, t, b, u)
    ensures Reaches(env, s, a + b, u)
  {
    ChainConcat(env, s, a, b);
  }

  // The effects of each call.

  function To(s: State, n: Next): State {
    State(n.core, s.log + n.events)
  }

  /** The code a request leads to once it has passed every check. */
  function CodeFor(c: Core, r: SendRequest): Otp
    requires r.tenant.Resolved? && ResolveOtpChannel(r.channel, Text.Trim(r.identifier), Row(c, r.user)).Some?
  {
    var identifier := Text.Trim(r.identifier);
    Otp(identifier, ResolveOtpChannel(r.channel, identifier, Row(c, r.user)).value, r.code,
        ResolveOtpPurpose(r.purpose, Row(c, r.anyUser)), r.tenant.tenant, r.token,
        if Row(c, r.user).Some? then r.user else None, c.kv.now)
  }

  lemma SendOtpDecomposes(env: Env, s: State, r: SendRequest) returns (es: seq<Effect>)
    ensures Reaches(env, s, es, To(s, SendOtp(env, s.core, r)))
  {
    es := [];
    if SendOtp(env, s.core, r).events != [] {
      es := [SendCode(CodeFor(s.core, r))];
      One(env, s, es[0]);
    }
  }

  /** What `CheckCode` leaves behind, as a step. */
  function Checked(s: State, v: CodeCheck): State {
    State(s.core.(kv := v.kv), s.log + v.events)
  }

  lemma ClearingKeepsCodes(kv: AuthStore, purpose: Purpose, scope: string, otp: Otp)
    requires Stored(kv, otp)
    ensures Stored(ClearOtpGuardKeys(kv, purpose, scope), otp)
  {
  }

  lemma CheckCodeDecomposes(env: Env, s: State, r: VerifyRequest) returns (es: seq<Effect>)
    ensures Reaches(env, s, es, Checked(s, CheckCode(env, s.core, r)))
  {
    var v := CheckCode(env, s.core, r);
    es := [];
    if v.Accepted? {
      es := AcceptanceDecomposes(env, s, r);
    } else if v.events != [] && v.events[0].GuessWrong? {
      es := [CountGuess(v.events[0].purpose, v.events[0].scope)];
      One(env, s, es[0]);
    } else if v.events != [] {
      es := [ClearGuards(v.events[0].purpose, v.events[0].scope)];
      One(env, s, es[0]);
    }
  }

  lemma AcceptedCheck(env: Env, c: Core, r: VerifyRequest)
    requires CheckCode(env, c, r).Accepted?
    ensures var v, scope := CheckCode(env, c, r), Scope(r.tenant.tenant, Text.Trim(r.identifier));
            && Stored(c.kv, v.otp) && v.events == [GuessRight(r.purpose, scope), CodeConsumed(v.otp)]
            && v.kv == DeleteOtpPayload(ClearOtpGuardKeys(c.kv, r.purpose, scope), v.otp)
  {
  }

  lemma ClearThenConsume(env: Env, s: State, purpose: Purpose, scope: string, otp: Otp)
    requires Stored(s.core.kv, otp)
    ensures Reaches(env, s, [ClearGuards(purpose, scope), ConsumeCode(otp)],
                    State(s.core.(kv := DeleteOtpPayload(ClearOtpGuardKeys(s.core.kv, purpose, scope), otp)),
                          s.log + [GuessRight(purpose, scope), CodeConsumed(otp)]))
  {
    ClearingKeepsCodes(s.core.kv, purpose, scope, otp);
    Two(env, s, ClearGuards(purpose, scope), ConsumeCode(otp));
    assert s.log + [GuessRight(purpose, scope)] + [CodeConsumed(otp)]
        == s.log + [GuessRight(purpose, scope), CodeConsumed(otp)];
  }

  lemma AcceptanceDecomposes(env: Env, s: State, r: VerifyRequest) returns (es: seq<Effect>)
    requires CheckCode(env, s.core, r).Accepted?
    ensures Reaches(env, s, es, Checked(s, CheckCode(env, s.core, r)))
  {
    var v, scope := CheckCode(env, s.core, r), Scope(r.tenant.tenant, Text.Trim(r.identifier));
    AcceptedCheck(env, s.core, r);
    es := [ClearGuards(r.purpose, scope), ConsumeCode(v.otp)];
    ClearThenConsume(env, s, r.purpose, scope, v.otp);
  }

  lemma SignInDecomposes(env: Env, s: State, id: string, tenant: Option<string>, roles: string)
    requires PlainUsers(s.core) && id in s.core.users && CanAuthenticate(s.core.users[id])
    ensures Reaches(env, s, [Touch(id, true), Issue(id, tenant, roles)],
                    To(s, SignedInNext(env, s.core, SignIn(env, s.core.kv, id, tenant, roles), id, tenant, roles)))
  {
    Two(env, s, Touch(id, true), Issue(id, tenant, roles));
  }

  lemma UseCodeDecomposes(env: Env, s: State, r: VerifyRequest, otp: Otp, user: string) returns (es: seq<Effect>)
    requires PlainUsers(s.core) && user in s.core.users && r.tenant.Resolved?
    ensures Reaches(env, s, es, To(s, UseCode(env, s.core, r, otp, user)))
  {
    es := [];
    match otp.purpose {
      case AccountVerification =>
        es := [VerifyUser(user, otp.channel)];
        One(env, s, es[0]);
      case PasswordReset =>
        es := [GrantReset(user, r.resetToken)];
        One(env, s, es[0]);
      case LoginCode =>
        if CanAuthenticate(s.core.users[user]) {
          es := [Touch(user, true), Issue(user, r.tenant.tenant, r.roles)];
          SignInDecomposes(env, s, user, r.tenant.tenant, r.roles);
        }
    }
  }

  lemma VerifyOtpDecomposes(env: Env, s: State, r: VerifyRequest) returns (es: seq<Effect>)
    requires PlainUsers(s.core)
    ensures Reaches(env, s, es, To(s, VerifyOtp(env, s.core, r)))
  {
    var v := CheckCode(env, s.core, r);
    es := CheckCodeDecomposes(env, s, r);
    if v.Accepted? {
      var mid := Checked(s, v);
      var use := UseCodeDecomposes(env, mid, r, v.otp, v.user);
      Concat(env, s, es, mid, use, To(mid, UseCode(env, mid.core, r, v.otp, v.user)));
      es := es + use;
      assert s.log + (v.events + UseCode(env, mid.core, r, v.otp, v.user).events)
          == s.log + v.events + UseCode(env, mid.core, r, v.otp, v.user).events;
    }
  }

  lemma LoginAdmittedDecomposes(env: Env, s: State, r: LoginRequest) returns (es: seq<Effect>)
    requires PlainUsers(s.core)
    ensures Reaches(env, s, es, To(s, LoginAdmitted(env, s.core, r)))
  {
    es := [];
    var n := LoginAdmitted(env, s.core, r);
    if r.how.ByCode? {
      es := VerifyOtpDecomposes(env, s, CodeLogin(r, r.how.code));
    } else if n.outcome.SignedIn? {
      if r.how.ByProvider? {
        es := [Issue(r.found.value, r.tenant.tenant, r.roles)];
        One(env, s, es[0]);
      } else {
        es := [Touch(r.found.value, true), Issue(r.found.value, r.tenant.tenant, r.roles)];
        SignInDecomposes(env, s, r.found.value, r.tenant.tenant, r.roles);
      }
    }
  }

  /** What is admitted goes on after the attempt was counted. */
  lemma ThenAdmitted(env: Env, s: State, count: Effect, r: LoginRequest, mid: State) returns (es: seq<Effect>)
    requires PlainUsers(mid.core) && Reaches(env, s, [count], mid)
    ensures Reaches(env, s, es, To(mid, LoginAdmitted(env, mid.core, r)))
  {
    var rest := LoginAdmittedDecomposes(env, mid, r);
    Concat(env, s, [count], mid, rest, To(mid, LoginAdmitted(env, mid.core, r)));
    es := [count] + rest;
  }

  lemma LoginIsCounted(env: Env, s: State, r: LoginRequest)
    requires PlainUsers(s.core)
    ensures var scope := Scope(r.ctxTenant, r.identifier);
            var mid := Apply(env, s, CountLogin(scope));
            && PlainUsers(mid.core)
            && To(s, Login(env, s.core, r))
               == if EnforceLoginRateLimit(s.core.kv, scope).1 then To(mid, LoginAdmitted(env, mid.core, r)) else mid
  {
    var scope := Scope(r.ctxTenant, r.identifier);
    var mid := Apply(env, s, CountLogin(scope));
    var n := LoginAdmitted(env, mid.core, r);
    assert s.log + ([LoginTried(scope, true)] + n.events) == s.log + [LoginTried(scope, true)] + n.events;
  }

  lemma LoginDecomposes(env: Env, s: State, r: LoginRequest) returns (es: seq<Effect>)
    requires PlainUsers(s.core)
    ensures Reaches(env, s, es, To(s, Login(env, s.core, r)))
  {
    var count := CountLogin(Scope(r.ctxTenant, r.identifier));
    var mid := Apply(env, s, count);
    LoginIsCounted(env, s, r);
    One(env, s, count);
    es := [count];
    if EnforceLoginRateLimit(s.core.kv, count.scope).1 {
      es := ThenAdmitted(env, s, count, r, mid);
    }
  }

  lemma RegisterDecomposes(env: Env, s: State, r: RegisterRequest) returns (es: seq<Effect>)
    requires PlainId(r.id) && r.id !in s.core.users
    ensures Reaches(env, s, es, To(s, Register(env, s.core, r)))
  {
    es := [];
    var channel := ResolveVerificationChannel(r.verificationChannel, r.email, r.phone, UsesOtp(r));
    if (r.email.Some? || r.phone.Some?) && r.tenant.Resolved? && !IdentityTaken(s.core.users, r) && channel.Some? {
      var add := AddUser(r.id, NewUser(r));
      One(env, s, add);
      var mid := Apply(env, s, add);
      es := [add];
      if UsesOtp(r) {
        var send := RegistrationCode(mid.core.users, r, channel.value);
        var rest := SendOtpDecomposes(env, mid, send);
        Concat(env, s, es, mid, rest, To(mid, SendOtp(env, mid.core, send)));
        es := es + rest;
      }
    }
  }

  lemma LogoutDecomposes(env: Env, s: State, user: string, access: Option<string>) returns (es: seq<Effect>)
    ensures Reaches(env, s, es, To(s, Logout(env, s.core, user, access)))
  {
    One(env, s, Revoke(user));
    var t := Apply(env, s, Revoke(user));
    es := [Revoke(user)];
    if access.Some? {
      One(env, t, Bar(access.value));
      Concat(env, s, es, t, [Bar(access.value)], Apply(env, t, Bar(access.value)));
      t := Apply(env, t, Bar(access.value));
      es := es + [Bar(access.value)];
    }
    if user in s.core.users {
      One(env, t, Touch(user, false));
      Concat(env, s, es, t, [Touch(user, false)], Apply(env, t, Touch(user, false)));
      es := es + [Touch(user, false)];
    }
  }

  lemma RefreshDecomposes(env: Env, s: State, token: string, roles: string) returns (es: seq<Effect>)
    requires PlainSubject(env, token)
    ensures Reaches(env, s, es, To(s, RefreshTokens(env, s.core, token, roles)))
  {
    es := [];
    var t := env.refresh(token);
    var key := SessionKey(t.sub, env.hash(token));
    if Verifies(t, s.core.kv.now) && key in s.core.kv.entries {
      assert key in SessionsOf(s.core.kv, t.sub);
      es := [Issue(t.sub, t.tenant, roles), Spend(t.sub, key.digest)];
      Two(env, s, es[0], es[1]);
    }
  }

  lemma ForgotPasswordDecomposes(env: Env, s: State, r: ForgotRequest) returns (es: seq<Effect>)
    ensures Reaches(env, s, es, To(s, ForgotPassword(env, s.core, r)))
  {
    es := [];
    var row := Row(s.core, r.found);
    if row.Some? {
      if r.useOtp {
        es := SendOtpDecomposes(env, s, ResetCode(s.core.users, r, row.value));
      } else {
        es := [GrantReset(r.found.value, r.resetToken)];
        One(env, s, es[0]);
      }
    }
  }

  lemma ChangeDecomposes(env: Env, s: State, op: Op) returns (es: seq<Effect>)
    requires PlainUsers(s.core) && Legit(env, s.core, op) && (op.DoResetPassword? || op.DoChangePassword?)
    ensures Reaches(env, s, es, After(env, s, op))
  {
    es := [];
    if Step(env, s.core, op).outcome.Done? {
      match op {
        case DoResetPassword(_, found, password) =>
          es := [SpendReset(found.value, password), Revoke(found.value)];
          Two(env, s, es[0], es[1]);
        case DoChangePassword(user, _, password) =>
          es := [NewPassword(user, password), Revoke(user)];
          Two(env, s, es[0], es[1]);
      }
    }
  }

  /** Every call is a chain of allowed effects, in its state, its history and its order. */
  lemma StepDecomposes(env: Env, s: State, op: Op) returns (es: seq<Effect>)
    requires PlainUsers(s.core) && Legit(env, s.core, op)
    ensures Reaches(env, s, es, After(env, s, op))
  {
    es := [];
    match op {
      case DoElapse(ms) => es := [Wait(ms)]; One(env, s, es[0]);
      case DoRegister(r) => es := RegisterDecomposes(env, s, r);
      case DoLogin(r) => es := LoginDecomposes(env, s, r);
      case DoSendOtp(r) => es := SendOtpDecomposes(env, s, r);
      case DoVerifyOtp(r) => es := VerifyOtpDecomposes(env, s, r);
      case DoLogout(u, access) => es := LogoutDecomposes(env, s, u, access);
      case DoRefresh(t, roles) => es := RefreshDecomposes(env, s, t, roles);
      case DoRevokeAll(u) => es := [Revoke(u)]; One(env, s, es[0]);
      case DoVerifyEmail(_, found) =>
        if found.Some? { es := [VerifyUser(found.value, Email)]; One(env, s, es[0]); }
      case DoForgotPassword(r) => es := ForgotPasswordDecomposes(env, s, r);
      case DoResetPassword(_, _, _) => es := ChangeDecomposes(env, s, op);
      case DoChangePassword(_, _, _) => es := ChangeDecomposes(env, s, op);
      case DoAddGoogleUser(id, email, tenant) =>
        es := [AddUser(id, User(tenant, email, None, None, Active, email.Some?, false, None, None, None))];
        One(env, s, es[0]);
      case DoSeedAdmin(id, email, password) =>
        es := [AddUser(id, User(None, Some(email), None, Some(password), Active, true, false, None, None, None))];
        One(env, s, es[0]);
    }
  }

  /** Every run is a chain of allowed effects. */
  lemma {:induction false} RunIsChain(env: Env, s: State, ops: seq<Op>) returns (es: seq<Effect>)
    requires LegitRun(env, s, ops)
    ensures Reaches(env, s, es, Run(env, s, ops))
    decreases |ops|
  {
    if ops == [] {
      es := [];
    } else {
      var t := After(env, s, ops[0]);
      var first := StepDecomposes(env, s, ops[0]);
      var rest := RunIsChain(env, t, ops[1..]);
      es := first + rest;
      Concat(env, s, first, t, rest, Run(env, s, ops));
    }
  }

  // What each effect can touch.

  function GuardKeys(purpose: Purpose, scope: string): set<Key> {
    {OtpKey(purpose, Resend, scope), OtpKey(purpose, Invalid, scope), OtpKey(purpose, Blocked, scope)}
  }

  predicate Touches(e: Effect, k: Key) {
    match e
    case Wait(_) => true
    case Issue(id, _, _) => k == LatestRefreshKey(id) || (k.SessionKey? && k.user == id)
    case Spend(id, digest) => k == SessionKey(id, digest)
    case Revoke(id) => k == LatestRefreshKey(id) || (k.SessionKey? && k.user == id)
    case Bar(_) => k.BlacklistKey?
    case Touch(id, _) => k == OnlineKey(id)
    case CountLogin(scope) => k == RateKey(scope)
    case SendCode(otp) =>
      k in GuardKeys(otp.purpose, OtpScope(otp)) || k == PayloadKey(otp) || k == OtpTokenKey(otp.token)
    case CountGuess(purpose, scope) => k in GuardKeys(purpose, scope)
    case ClearGuards(purpose, scope) => k in GuardKeys(purpose, scope)
    case ConsumeCode(otp) => k == PayloadKey(otp) || k == OtpTokenKey(otp.token)
    case _ => false
  }

  ghost predicate SameAt(a: AuthStore, b: AuthStore, k: Key) {
    a.Look(k) == b.Look(k) && a.now == b.now && a.expiring == b.expiring
  }

  lemma BumpFrame(s: AuthStore, c: Key, windowSeconds: nat, k: Key)
    requires CountsUnder(c) && windowSeconds > 0 && k != c
    ensures SameAt(Bump(s, c, windowSeconds), s, k)
  {
  }

  lemma ResendFrame(env: Env, s: AuthStore, purpose: Purpose, scope: string, ttl: nat, k: Key)
    requires ttl > 0 && k !in GuardKeys(purpose, scope)
    ensures SameAt(BumpOtpResendCounter(env, s, purpose, scope, ttl).0, s, k)
  {
    BumpFrame(s, OtpKey(purpose, Resend, scope), ttl, k);
  }

  /** Only a send beyond the limit sets the block. */
  lemma ResendOverflowBlocks(env: Env, kv: AuthStore, p: Purpose, scope: string, ttl: nat)
    requires ttl > 0
    ensures var (kv', allowed) := BumpOtpResendCounter(env, kv, p, scope, ttl);
            && SameAt(kv', kv, OtpKey(p, Invalid, scope))
            && kv'.Look(OtpKey(p, Blocked, scope))
               == if allowed then kv.Look(OtpKey(p, Blocked, scope))
                  else Some(Entry(Text("resend_limit"), kv.Deadline(21_600)))
  {
    BumpFrame(kv, OtpKey(p, Resend, scope), ttl, OtpKey(p, Invalid, scope));
    BumpFrame(kv, OtpKey(p, Resend, scope), ttl, OtpKey(p, Blocked, scope));
  }

  lemma GuessFrame(env: Env, s: AuthStore, purpose: Purpose, scope: string, k: Key)
    requires k !in GuardKeys(purpose, scope)
    ensures SameAt(BumpOtpInvalidAttempts(env, s, purpose, scope), s, k)
  {
    BumpFrame(s, OtpKey(purpose, Invalid, scope), OTP_TTL_SECONDS, k);
  }

  /** An effect leaves every key alone that is not its own: other triples, other users, other families. */
  lemma EffectFrame(env: Env, s: State, e: Effect, k: Key)
    requires Allowed(env, s.core, e) && !Touches(e, k)
    ensures SameAt(Apply(env, s, e).core.kv, s.core.kv, k)
  {
    if e.SendCode? || e.CountGuess? || e.ClearGuards? || e.ConsumeCode? {
      OtpEffectFrame(env, s, e, k);
    }
  }

  lemma OtpEffectFrame(env: Env, s: State, e: Effect, k: Key)
    requires !Touches(e, k) && (e.SendCode? || e.CountGuess? || e.ClearGuards? || e.ConsumeCode?)
    ensures SameAt(EffectKv(env, s.core, e), s.core.kv, k)
  {
    match e
    case SendCode(otp) => ResendFrame(env, s.core.kv, otp.purpose, OtpScope(otp), OtpTtl(otp.purpose), k);
    case CountGuess(purpose, scope) => GuessFrame(env, s.core.kv, purpose, scope, k);
    case _ =>
  }

  /** An effect adds at most one event to the history. */
  lemma EffectEvent(env: Env, s: State, e: Effect)
    ensures |EffectEvents(env, s.core, e)| <= 1
    ensures (e.Issue? ==> PlainId(e.id)) && EffectEvents(env, s.core, e) == [] ==> Apply(env, s, e).log == s.log
    ensures (e.Issue? ==> PlainId(e.id)) && EffectEvents(env, s.core, e) != [] ==>
              var log := Apply(env, s, e).log;
              |log| == |s.log| + 1 && log[..|s.log|] == s.log && log[|s.log|] == EffectEvents(env, s.core, e)[0]
  {
    assert s.log + [] == s.log;
  }
}
