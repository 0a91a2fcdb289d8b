/**
 What each call of the authentication service does (src/modules/auth/auth.service.ts), as functions on
 the shared store and the user table.

 A call is one atomic step. It yields the new state, the outcome the caller sees and the events it adds
 to the history of a run. What the service takes from elsewhere is an argument: generated tokens and
 codes, bcrypt verdicts, and the row a database lookup returned.
 */
module AuthModel {
  import opened Prelude
  import opened KeyValue
  import opened AuthKeys
  import Text

  const OTP_TTL_SECONDS := 300
  const PASSWORD_RESET_OTP_TTL_SECONDS := 600
  const PASSWORD_RESET_TOKEN_TTL_MS := 600_000
  const OTP_MAX_RESEND_ATTEMPTS := 3
  const OTP_MAX_INVALID_ATTEMPTS := 3
  const OTP_BLOCK_SECONDS := 21_600
  const LOGIN_LIMIT_WINDOW_SECONDS := 60
  const LOGIN_LIMIT_MAX_ATTEMPTS := 10
  const REFRESH_TTL_SECONDS := 604_800
  const ONLINE_TTL_SECONDS := 120

  // The store, typed.

  function PayloadKey(otp: Otp): Key {
    OtpKey(otp.purpose, ChannelSlot(otp.channel), Scope(otp.tenant, otp.identifier))
  }

  /** Which values may sit under which key. */
  predicate Fits(k: Key, v: Value) {
    match k
    case SessionKey(u, d) => v.Session? && v.user == u && v.digest == d
    case OtpKey(_, EmailCode, _) => v.Code? && PayloadKey(v.otp) == k
    case OtpKey(_, PhoneCode, _) => v.Code? && PayloadKey(v.otp) == k
    case OtpKey(_, Blocked, _) => v.Text?
    case OtpKey(_, _, _) => v.Counter? && v.count > 0
    case OtpTokenKey(t) => v.Code? && v.otp.token == t
    case RateKey(_) => v.Counter? && v.count > 0
    case _ => v.Text?
  }

  ghost predicate WellTyped(s: Store<Key>) {
    && s.Valid() && AllPlain(s)
    && forall k :: k in s.entries ==> Fits(k, s.entries[k].value) && (s.expiring ==> s.entries[k].expiry.Some?)
  }

  /**
   Live entries only, under keys that can be told apart, each holding its own kind of value and, on a
   server, none without an expiry.
   */
  type AuthStore = s: Store<Key> | WellTyped(s) witness Store(map[], 0, true)

  function Put(s: AuthStore, k: Key, v: Value, ttlSeconds: nat): AuthStore
    requires Plain(k) && Fits(k, v) && ttlSeconds > 0
  {
    s.Set(k, v, ttlSeconds)
  }

  function Remove(s: AuthStore, k: Key): AuthStore {
    s.Del(k)
  }

  predicate CountsUnder(k: Key) {
    k.RateKey? || (k.OtpKey? && (k.slot == Resend || k.slot == Invalid))
  }

  /** The counting idiom of all three limiters: `incr`, and on the first hit `expire`. */
  function Bump(s: AuthStore, k: Key, windowSeconds: nat): AuthStore
    requires CountsUnder(k) && windowSeconds > 0
  {
    var t := s.Incr(k);
    if t.Count(k) == 1 then t.Expire(k, windowSeconds) else t
  }

  function Elapse(s: AuthStore, ms: nat): AuthStore {
    s.Advance(ms)
  }

  // Users, tokens and requests.

  datatype Status = Active | Inactive | Banned | PendingVerification

  datatype User = User(
    tenant: Option<string>, email: Option<string>, phone: Option<string>, password: Option<string>,
    status: Status, emailVerified: bool, phoneVerified: bool, emailVerifyToken: Option<string>,
    resetToken: Option<string>, resetExpires: Option<nat>)

  datatype Core = Core(kv: AuthStore, users: map<string, User>)

  /** What a JSON web token says, and whether it is signed with the right secret; `exp` is in seconds. */
  datatype Claims = Claims(signed: bool, sub: string, tenant: Option<string>, exp: Option<nat>)

  /**
   What is signed into a refresh token: its user and tenant, the roles and permissions read from the role
   tables, and the second of issue. There is no unique id.
   */
  datatype Grant = Grant(user: string, tenant: Option<string>, roles: string, second: nat)

  /**
   `hash` stands for SHA-256, `access` and `refresh` for reading a token under the access and the
   refresh secret, `mint` for signing a refresh token, `production` for NODE_ENV === 'production'.
   */
  datatype Env = Env(production: bool, hash: string -> string, access: string -> Claims, refresh: string -> Claims,
                     mint: Grant -> string)

  ghost predicate CollisionFree(env: Env) {
    forall a, b :: env.hash(a) == env.hash(b) ==> a == b
  }

  /** Different grants give different tokens, and a token says whom it was minted for. */
  ghost predicate MintsFaithfully(env: Env) {
    && (forall g, h :: env.mint(g) == env.mint(h) ==> g == h)
    && forall g :: var t := env.refresh(env.mint(g)); t.signed && t.sub == g.user && t.tenant == g.tenant
  }

  /** The token issued at a moment. */
  function Minted(env: Env, user: string, tenant: Option<string>, roles: string, nowMs: nat): string {
    env.mint(Grant(user, tenant, roles, nowMs / 1000))
  }

  predicate Verifies(t: Claims, nowMs: nat) {
    t.signed && (t.exp.Some? ==> nowMs / 1000 < t.exp.value)
  }

  /** Outcome of turning a tenant id or domain into a tenant; an unknown domain is an error. */
  datatype Resolution = Resolved(tenant: Option<string>) | Unresolved

  datatype SendRequest = SendRequest(
    identifier: string, channel: Option<Channel>, purpose: Option<Purpose>, tenant: Resolution,
    anyUser: Option<string>, user: Option<string>, code: string, token: string)

  datatype VerifyRequest = VerifyRequest(
    identifier: string, purpose: Purpose, tenant: Resolution, code: string, token: Option<string>,
    byIdentifier: Option<string>, resetToken: string, roles: string)

  /** The tail of the keys of the triple that a request names. */
  function ScopeOf(v: VerifyRequest): string
    requires v.tenant.Resolved?
  {
    Scope(v.tenant.tenant, Text.Trim(v.identifier))
  }

  datatype LoginMethod = ByProvider | ByCode(code: string) | ByPassword(matches: bool) | WithoutPassword

  datatype LoginRequest = LoginRequest(
    identifier: string, ctxTenant: Option<string>, tenant: Resolution, how: LoginMethod,
    found: Option<string>, roles: string)

  datatype RegisterRequest = RegisterRequest(
    id: string, email: Option<string>, phone: Option<string>, password: Option<string>,
    otpVerification: bool, verificationChannel: Option<Channel>, tenant: Resolution, usernameTaken: bool,
    linkToken: string, anyUser: Option<string>, user: Option<string>, code: string, token: string)

  datatype ForgotRequest = ForgotRequest(
    email: string, found: Option<string>, useOtp: bool, resetToken: string, anyUser: Option<string>,
    user: Option<string>, code: string, token: string)

  datatype AuthError = BadRequest | Unauthorized | NotFound | Conflict | TooManyRequests

  datatype Outcome =
    | Failed(error: AuthError)
    | Done
    | SignedIn(user: string, refreshToken: string)
    | CodeSent(token: string)
    | ResetGranted(token: string)
    | Revoked(sessions: nat)

  datatype Event =
    | Elapsed(ms: nat)
    | SessionIssued(user: string, digest: string, at: nat)
    | SessionSpent(user: string, digest: string)
    | SessionsRevoked(user: string)
    | CodeStored(otp: Otp, ttl: nat, at: nat)
    | CodeConsumed(otp: Otp)
    | ResendLimited(purpose: Purpose, scope: string)
    | GuessWrong(purpose: Purpose, scope: string)
    | GuessRight(purpose: Purpose, scope: string)
    | LoginTried(scope: string, admitted: bool)
    | ResetIssued(user: string, token: string, at: nat)
    | ResetSpent(user: string)

  datatype Next = Next(core: Core, outcome: Outcome, events: seq<Event>)

  // Sessions.

  function IssueTokens(env: Env, s: AuthStore, user: string, tenant: Option<string>, roles: string): AuthStore
    requires PlainId(user)
  {
    var minted := Minted(env, user, tenant, roles, s.now);
    var digest := env.hash(minted);
    var s1 := Put(s, SessionKey(user, digest), Session(user, tenant, digest), REFRESH_TTL_SECONDS);
    Put(s1, LatestRefreshKey(user), Text(minted), REFRESH_TTL_SECONDS)
  }

  function SessionsOf(s: AuthStore, user: string): set<Key> {
    set k | k in s.entries && k.SessionKey? && k.user == user
  }

  function RevokeUserSessions(s: AuthStore, user: string): AuthStore {
    s.(entries := s.entries - SessionsOf(s, user) - {LatestRefreshKey(user)})
  }

  /** `SessionService.revokeAll`, the second implementation of revocation. */
  function RevokeAll(c: Core, user: string): Next {
    Next(c.(kv := RevokeUserSessions(c.kv, user)), Revoked(|SessionsOf(c.kv, user)|), [SessionsRevoked(user)])
  }

  predicate PlainSubject(env: Env, refreshToken: string) {
    env.refresh(refreshToken).signed ==> PlainId(env.refresh(refreshToken).sub)
  }

  function RefreshTokens(env: Env, c: Core, token: string, roles: string): Next
    requires PlainSubject(env, token)
  {
    var t := env.refresh(token);
    var key := SessionKey(t.sub, env.hash(token));
    var minted := Minted(env, t.sub, t.tenant, roles, c.kv.now);
    if !Verifies(t, c.kv.now) || key !in c.kv.entries then
      Next(c, Failed(Unauthorized), [])
    else
      Next(c.(kv := Remove(IssueTokens(env, c.kv, t.sub, t.tenant, roles), key)),
           SignedIn(t.sub, minted),
           [SessionIssued(t.sub, env.hash(minted), c.kv.now), SessionSpent(t.sub, env.hash(token))])
  }

  function BlacklistTtl(t: Claims, nowMs: nat): (ttl: nat)
    ensures ttl >= 1 && (t.exp.Some? ==> nowMs / 1000 + ttl >= t.exp.value)
  {
    var left := (if t.exp.Some? then t.exp.value else 0) - nowMs / 1000;
    if left > 1 then left else 1
  }

  function BlacklistAccessToken(env: Env, s: AuthStore, token: string): AuthStore {
    var t := env.access(token);
    if Verifies(t, s.now)
    then Put(s, BlacklistKey(env.hash(token)), Text("1"), BlacklistTtl(t, s.now))
    else s
  }

  function TouchPresence(s: AuthStore, user: string, online: bool): AuthStore {
    if online then Put(s, OnlineKey(user), Text("true"), ONLINE_TTL_SECONDS) else Remove(s, OnlineKey(user))
  }

  /** The presence update at the end fails when the user row is gone. */
  function Logout(env: Env, c: Core, user: string, access: Option<string>): Next {
    var s1 := RevokeUserSessions(c.kv, user);
    var s2 := if access.Some? then BlacklistAccessToken(env, s1, access.value) else s1;
    if user in c.users
    then Next(c.(kv := TouchPresence(s2, user, false)), Done, [SessionsRevoked(user)])
    else Next(c.(kv := s2), Failed(NotFound), [SessionsRevoked(user)])
  }

  /** `AuthGuard.canActivate` on a protected route: the user let in, if any. */
  function CanActivate(env: Env, c: Core, token: Option<string>): Option<string> {
    if token.None? || !Verifies(env.access(token.value), c.kv.now) then None
    else
      var sub := env.access(token.value).sub;
      if BlacklistKey(env.hash(token.value)) in c.kv.entries then None
      else if sub !in c.users || c.users[sub].status == Banned then None
      else Some(sub)
  }

  // Account state.

  predicate CanAuthenticate(u: User) {
    !(u.status == PendingVerification && !u.emailVerified && !u.phoneVerified)
  }

  // One-time codes.

  function ResolveOtpPurpose(requested: Option<Purpose>, user: Option<User>): Purpose {
    if requested.Some? then requested.value
    else if user.Some? && !CanAuthenticate(user.value) then AccountVerification
    else LoginCode
  }

  predicate IsDigits(s: string) {
    forall i :: 0 <= i < |s| ==> '0' <= s[i] <= '9'
  }

  predicate IsPhoneNumber(s: string) {
    var digits := if s != "" && s[0] == '+' then s[1..] else s;
    6 <= |digits| <= 20 && IsDigits(digits)
  }

  function ResolveOtpChannel(preferred: Option<Channel>, identifier: string, user: Option<User>): Option<Channel> {
    var text := Text.Trim(identifier);
    var email := if user.Some? then user.value.email else None;
    var phone := if user.Some? then user.value.phone else None;
    if preferred.Some? then preferred
    else if '@' in text then Some(Email)
    else if IsPhoneNumber(text) then Some(Phone)
    else if email.Some? && Text.Lower(email.value) == Text.Lower(text) then Some(Email)
    else if phone == Some(text) then Some(Phone)
    else if email.Some? && email.value != "" then Some(Email)
    else if phone.Some? && phone.value != "" then Some(Phone)
    else None
  }

  predicate OtpBlocked(env: Env, s: AuthStore, purpose: Purpose, scope: string) {
    env.production && OtpKey(purpose, Blocked, scope) in s.entries
  }

  function Block(s: AuthStore, purpose: Purpose, scope: string, reason: string): AuthStore {
    Put(s, OtpKey(purpose, Blocked, scope), Text(reason), OTP_BLOCK_SECONDS)
  }

  /** The new store and whether one more code may be sent. */
  function BumpOtpResendCounter(env: Env, s: AuthStore, purpose: Purpose, scope: string, ttl: nat): (AuthStore, bool)
    requires ttl > 0
  {
    if !env.production then (s, true)
    else
      var key := OtpKey(purpose, Resend, scope);
      var s1 := Bump(s, key, ttl);
      if s1.Count(key) > OTP_MAX_RESEND_ATTEMPTS
      then (Remove(Block(s1, purpose, scope, "resend_limit"), key), false)
      else (s1, true)
  }

  function BumpOtpInvalidAttempts(env: Env, s: AuthStore, purpose: Purpose, scope: string): AuthStore {
    if !env.production then s
    else
      var key := OtpKey(purpose, Invalid, scope);
      var s1 := Bump(s, key, OTP_TTL_SECONDS);
      if s1.Count(key) >= OTP_MAX_INVALID_ATTEMPTS
      then Remove(Block(s1, purpose, scope, "invalid_attempt_limit"), key)
      else s1
  }

  function ClearOtpGuardKeys(s: AuthStore, purpose: Purpose, scope: string): AuthStore {
    Remove(Remove(s, OtpKey(purpose, Resend, scope)), OtpKey(purpose, Invalid, scope))
  }

  function CodeUnder(s: AuthStore, k: Key): Option<Otp> {
    if k in s.entries && s.entries[k].value.Code? then Some(s.entries[k].value.otp) else None
  }

  function FindStoredOtp(s: AuthStore, identifier: string, tenant: Option<string>, purpose: Purpose,
                         token: Option<string>): Option<Otp>
  {
    var byToken := if token.Some? && token.value != "" then CodeUnder(s, OtpTokenKey(token.value)) else None;
    if byToken.Some? && Text.Lower(byToken.value.identifier) == Text.Lower(identifier) then byToken
    else
      var byEmail := CodeUnder(s, OtpKey(purpose, EmailCode, Scope(tenant, identifier)));
      if byEmail.Some? then byEmail
      else CodeUnder(s, OtpKey(purpose, PhoneCode, Scope(tenant, identifier)))
  }

  function StoreOtp(s: AuthStore, otp: Otp, ttl: nat): AuthStore
    requires ttl > 0
  {
    Put(Put(s, PayloadKey(otp), Code(otp), ttl), OtpTokenKey(otp.token), Code(otp), ttl)
  }

  function DeleteOtpPayload(s: AuthStore, otp: Otp): AuthStore {
    Remove(Remove(s, PayloadKey(otp)), OtpTokenKey(otp.token))
  }

  function Row(c: Core, id: Option<string>): Option<User> {
    if id.Some? && id.value in c.users then Some(c.users[id.value]) else None
  }

  function OtpTtl(purpose: Purpose): (ttl: nat)
    ensures ttl > 0
  {
    if purpose == PasswordReset then PASSWORD_RESET_OTP_TTL_SECONDS else OTP_TTL_SECONDS
  }

  function SendOtp(env: Env, c: Core, r: SendRequest): Next {
    var identifier := Text.Trim(r.identifier);
    var purpose := ResolveOtpPurpose(r.purpose, Row(c, r.anyUser));
    if r.tenant.Unresolved? then Next(c, Failed(NotFound), [])
    else
      var tenant := r.tenant.tenant;
      var scope := Scope(tenant, identifier);
      var user := Row(c, r.user);
      var channel := ResolveOtpChannel(r.channel, identifier, user);
      if channel.None? then Next(c, Failed(BadRequest), [])
      else if OtpBlocked(env, c.kv, purpose, scope) then Next(c, Failed(TooManyRequests), [])
      else if purpose == AccountVerification && user.None? then Next(c, Failed(NotFound), [])
      else if purpose == AccountVerification && channel.value == Email && user.value.emailVerified then
        Next(c, Failed(BadRequest), [])
      else if purpose == AccountVerification && channel.value == Phone && user.value.phoneVerified then
        Next(c, Failed(BadRequest), [])
      else if purpose == PasswordReset && user.None? then Next(c, Done, [])
      else
        var otp := Otp(identifier, channel.value, r.code, purpose, tenant, r.token,
                       if user.Some? then r.user else None, c.kv.now);
        var ttl := OtpTtl(purpose);
        var (s1, allowed) := BumpOtpResendCounter(env, c.kv, purpose, scope, ttl);
        if !allowed
        then Next(c.(kv := s1), Failed(TooManyRequests), [ResendLimited(purpose, scope)])
        else Next(c.(kv := StoreOtp(s1, otp, ttl)), CodeSent(r.token), [CodeStored(otp, ttl, c.kv.now)])
  }

  /** The part of `verifyOtp` up to the deletion of the code. */
  datatype CodeCheck =
    | Refused(error: AuthError, kv: AuthStore, events: seq<Event>)
    | Accepted(otp: Otp, user: string, kv: AuthStore, events: seq<Event>)

  function CheckCode(env: Env, c: Core, r: VerifyRequest): (v: CodeCheck)
    ensures v.Accepted? ==> v.user in c.users && r.tenant.Resolved?
  {
    if r.tenant.Unresolved? then Refused(NotFound, c.kv, [])
    else
      var identifier := Text.Trim(r.identifier);
      var scope := Scope(r.tenant.tenant, identifier);
      if OtpBlocked(env, c.kv, r.purpose, scope) then Refused(TooManyRequests, c.kv, [])
      else
        var stored := FindStoredOtp(c.kv, identifier, r.tenant.tenant, r.purpose, r.token);
        if stored.None? || stored.value.code != r.code then
          Refused(Unauthorized, BumpOtpInvalidAttempts(env, c.kv, r.purpose, scope), [GuessWrong(r.purpose, scope)])
        else
          var otp := stored.value;
          var s1 := ClearOtpGuardKeys(c.kv, r.purpose, scope);
          var user := if otp.userId.Some? then otp.userId else r.byIdentifier;
          if user.None? || user.value !in c.users then
            Refused(NotFound, s1, [GuessRight(r.purpose, scope)])
          else
            Accepted(otp, user.value, DeleteOtpPayload(s1, otp), [GuessRight(r.purpose, scope), CodeConsumed(otp)])
  }

  function VerifiedRow(u: User, channel: Channel): User {
    match channel
    case Email => u.(emailVerified := true, emailVerifyToken := None, status := Active)
    case Phone => u.(phoneVerified := true, status := Active)
  }

  function WithResetToken(u: User, token: string, nowMs: nat): User {
    u.(resetToken := Some(token), resetExpires := Some(nowMs + PASSWORD_RESET_TOKEN_TTL_MS))
  }

  /** Signing in a user already found: presence, then a new session. */
  function SignIn(env: Env, s: AuthStore, user: string, tenant: Option<string>, roles: string): AuthStore
    requires PlainId(user)
  {
    IssueTokens(env, TouchPresence(s, user, true), user, tenant, roles)
  }

  /** A user found and checked is signed in: presence (not for providers), session, answer, history. */
  function SignedInNext(env: Env, c: Core, kv: AuthStore, user: string, tenant: Option<string>, roles: string): Next {
    var minted := Minted(env, user, tenant, roles, c.kv.now);
    Next(c.(kv := kv), SignedIn(user, minted), [SessionIssued(user, env.hash(minted), c.kv.now)])
  }

  ghost predicate PlainUsers(c: Core) {
    forall u :: u in c.users ==> PlainId(u)
  }

  /** What an accepted code is good for depends on the purpose it was stored for. */
  function UseCode(env: Env, c: Core, r: VerifyRequest, otp: Otp, user: string): Next
    requires PlainUsers(c) && user in c.users && r.tenant.Resolved?
  {
    match otp.purpose
    case AccountVerification =>
      Next(c.(users := c.users[user := VerifiedRow(c.users[user], otp.channel)]), Done, [])
    case PasswordReset =>
      Next(c.(users := c.users[user := WithResetToken(c.users[user], r.resetToken, c.kv.now)]),
           ResetGranted(r.resetToken), [ResetIssued(user, r.resetToken, c.kv.now)])
    case LoginCode =>
      if !CanAuthenticate(c.users[user]) then Next(c, Failed(Unauthorized), [])
      else SignedInNext(env, c, SignIn(env, c.kv, user, r.tenant.tenant, r.roles), user, r.tenant.tenant, r.roles)
  }

  function Prefixed(events: seq<Event>, n: Next): Next {
    n.(events := events + n.events)
  }

  function VerifyOtp(env: Env, c: Core, r: VerifyRequest): Next
    requires PlainUsers(c)
  {
    var v := CheckCode(env, c, r);
    if v.Refused? then Next(c.(kv := v.kv), Failed(v.error), v.events)
    else Prefixed(v.events, UseCode(env, c.(kv := v.kv), r, v.otp, v.user))
  }

  // Login.

  function EnforceLoginRateLimit(s: AuthStore, scope: string): (AuthStore, bool) {
    var s1 := Bump(s, RateKey(scope), LOGIN_LIMIT_WINDOW_SECONDS);
    (s1, s1.Count(RateKey(scope)) <= LOGIN_LIMIT_MAX_ATTEMPTS)
  }

  function LoginByPassword(env: Env, c: Core, r: LoginRequest, matches: bool): Next
    requires PlainUsers(c)
  {
    var user := Row(c, r.found);
    if r.tenant.Unresolved? then Next(c, Failed(NotFound), [])
    else if user.None? || user.value.password.None? || !matches then Next(c, Failed(Unauthorized), [])
    else if user.value.status == Banned || !CanAuthenticate(user.value) then Next(c, Failed(Unauthorized), [])
    else SignedInNext(env, c, SignIn(env, c.kv, r.found.value, r.tenant.tenant, r.roles),
                      r.found.value, r.tenant.tenant, r.roles)
  }

  function LoginByProvider(env: Env, c: Core, r: LoginRequest): Next
    requires PlainUsers(c)
  {
    var user := Row(c, r.found);
    if r.tenant.Unresolved? then Next(c, Failed(NotFound), [])
    else if user.None? || !CanAuthenticate(user.value) then Next(c, Failed(Unauthorized), [])
    else SignedInNext(env, c, IssueTokens(env, c.kv, r.found.value, r.tenant.tenant, r.roles),
                      r.found.value, r.tenant.tenant, r.roles)
  }

  function CodeLogin(r: LoginRequest, code: string): VerifyRequest {
    VerifyRequest(r.identifier, LoginCode, r.tenant, code, None, r.found, "", r.roles)
  }

  function LoginAdmitted(env: Env, c: Core, r: LoginRequest): Next
    requires PlainUsers(c)
  {
    match r.how
    case ByProvider => LoginByProvider(env, c, r)
    case ByCode(code) => VerifyOtp(env, c, CodeLogin(r, code))
    case ByPassword(matches) => LoginByPassword(env, c, r, matches)
    case WithoutPassword => Next(c, Failed(BadRequest), [])
  }

  function Login(env: Env, c: Core, r: LoginRequest): Next
    requires PlainUsers(c)
  {
    var scope := Scope(r.ctxTenant, r.identifier);
    var (s1, admitted) := EnforceLoginRateLimit(c.kv, scope);
    var c1 := c.(kv := s1);
    if !admitted then Next(c1, Failed(TooManyRequests), [LoginTried(scope, false)])
    else Prefixed([LoginTried(scope, true)], LoginAdmitted(env, c1, r))
  }

  // Registration, verification links and passwords.

  function ResolveVerificationChannel(preferred: Option<Channel>, email: Option<string>, phone: Option<string>,
                                      useOtp: bool): Option<Channel>
  {
    if useOtp && preferred == Some(Email) && email.None? then None
    else if useOtp && preferred == Some(Phone) && phone.None? then None
    else if useOtp && preferred.Some? then preferred
    else if email.Some? then Some(Email)
    else if phone.Some? then Some(Phone)
    else None
  }

  function UsesOtp(r: RegisterRequest): bool {
    r.otpVerification || r.email.None?
  }

  function NewUser(r: RegisterRequest): User
    requires r.tenant.Resolved?
  {
    User(r.tenant.tenant, if r.email.Some? then Some(Text.Lower(r.email.value)) else None, r.phone, r.password,
         PendingVerification, false, false, if UsesOtp(r) then None else Some(r.linkToken), None, None)
  }

  /** `ensureNoDuplicateIdentity`: somebody has the email or the phone; usernames are not in the table here. */
  predicate IdentityTaken(users: map<string, User>, r: RegisterRequest) {
    || r.usernameTaken
    || (exists u :: u in users &&
                    ((r.email.Some? && users[u].email == Some(Text.Lower(r.email.value)))
                     || (r.phone.Some? && users[u].phone == r.phone)))
  }

  /** The tenant a code is sent for when the caller names one or none, outside any tenant's context. */
  function SendTenant(users: map<string, User>, named: Option<string>, anyUser: Option<string>): Resolution {
    Resolved(if named.Some? then named
             else if anyUser.Some? && anyUser.value in users then users[anyUser.value].tenant
             else None)
  }

  function RegistrationCode(users: map<string, User>, r: RegisterRequest, channel: Channel): SendRequest
    requires r.tenant.Resolved?
  {
    var address := if channel == Email then r.email else r.phone;
    SendRequest(if address.Some? then address.value else "", Some(channel), Some(AccountVerification),
                SendTenant(users, r.tenant.tenant, r.anyUser), r.anyUser, r.user, r.code, r.token)
  }

  /** A failed code send leaves the new user row behind: the two are not one transaction. */
  function Register(env: Env, c: Core, r: RegisterRequest): Next {
    var channel := ResolveVerificationChannel(r.verificationChannel, r.email, r.phone, UsesOtp(r));
    if r.email.None? && r.phone.None? then Next(c, Failed(BadRequest), [])
    else if r.tenant.Unresolved? then Next(c, Failed(NotFound), [])
    else if IdentityTaken(c.users, r) then Next(c, Failed(Conflict), [])
    else if channel.None? then Next(c, Failed(BadRequest), [])
    else
      var c1 := c.(users := c.users[r.id := NewUser(r)]);
      if UsesOtp(r) then SendOtp(env, c1, RegistrationCode(c1.users, r, channel.value)) else Next(c1, Done, [])
  }

  function AddGoogleUser(c: Core, id: string, email: Option<string>, tenant: Option<string>): Next {
    Next(c.(users := c.users[id := User(tenant, email, None, None, Active, email.Some?, false, None, None, None)]),
         Done, [])
  }

  function SeedAdmin(c: Core, id: string, email: string, password: string): Next {
    var row := User(None, Some(email), None, Some(password), Active, true, false, None, None, None);
    Next(c.(users := c.users[id := row]), Done, [])
  }

  predicate VerifiesEmailOf(c: Core, token: string, id: string) {
    id in c.users && c.users[id].emailVerifyToken == Some(token)
  }

  function VerifyEmail(c: Core, found: Option<string>): Next {
    if found.None? || found.value !in c.users then Next(c, Failed(BadRequest), [])
    else Next(c.(users := c.users[found.value := VerifiedRow(c.users[found.value], Email)]), Done, [])
  }

  function ResetCode(users: map<string, User>, r: ForgotRequest, found: User): SendRequest {
    SendRequest(r.email, Some(Email), Some(PasswordReset), SendTenant(users, found.tenant, r.anyUser), r.anyUser,
                r.user, r.code, r.token)
  }

  function ForgotPassword(env: Env, c: Core, r: ForgotRequest): Next {
    var row := Row(c, r.found);
    if row.None? then Next(c, Done, [])
    else if r.useOtp then
      var n := SendOtp(env, c, ResetCode(c.users, r, row.value));
      if n.outcome.Failed? then n else n.(outcome := Done)
    else
      Next(c.(users := c.users[r.found.value := WithResetToken(row.value, r.resetToken, c.kv.now)]), Done,
           [ResetIssued(r.found.value, r.resetToken, c.kv.now)])
  }

  predicate ResetMatches(c: Core, token: string, id: string) {
    id in c.users && c.users[id].resetToken == Some(token) && c.users[id].resetExpires.Some?
    && c.kv.now < c.users[id].resetExpires.value
  }

  function WithPassword(c: Core, id: string, u: User): Core {
    c.(users := c.users[id := u], kv := RevokeUserSessions(c.kv, id))
  }

  function ResetPassword(c: Core, found: Option<string>, newPassword: string): Next {
    if found.None? || found.value !in c.users then Next(c, Failed(BadRequest), [])
    else
      var u := c.users[found.value].(password := Some(newPassword), resetToken := None, resetExpires := None);
      Next(WithPassword(c, found.value, u), Done, [ResetSpent(found.value), SessionsRevoked(found.value)])
  }

  function ChangePassword(c: Core, user: string, matches: bool, newPassword: string): Next {
    if user !in c.users then Next(c, Failed(NotFound), [])
    else if c.users[user].password.None? then Next(c, Failed(BadRequest), [])
    else if !matches then Next(c, Failed(Unauthorized), [])
    else Next(WithPassword(c, user, c.users[user].(password := Some(newPassword))), Done, [SessionsRevoked(user)])
  }

  // Runs.

  datatype Op =
    | DoElapse(ms: nat)
    | DoRegister(register: RegisterRequest)
    | DoLogin(login: LoginRequest)
    | DoSendOtp(send: SendRequest)
    | DoVerifyOtp(verify: VerifyRequest)
    | DoLogout(user: string, access: Option<string>)
    | DoRefresh(refreshToken: string, roles: string)
    | DoRevokeAll(user: string)
    | DoVerifyEmail(emailToken: string, found: Option<string>)
    | DoForgotPassword(forgot: ForgotRequest)
    | DoResetPassword(resetToken: string, found: Option<string>, password: string)
    | DoChangePassword(user: string, matches: bool, password: string)
    | DoAddGoogleUser(id: string, email: Option<string>, tenant: Option<string>)
    | DoSeedAdmin(id: string, adminEmail: string, password: string)

  /** The lookup by reset token returned a matching row, and none only if there is none. */
  ghost predicate FoundByReset(c: Core, token: string, found: Option<string>) {
    if found.Some? then ResetMatches(c, token, found.value) else forall id :: !ResetMatches(c, token, id)
  }

  ghost predicate FoundByEmailToken(c: Core, token: string, found: Option<string>) {
    if found.Some? then VerifiesEmailOf(c, token, found.value) else forall id :: !VerifiesEmailOf(c, token, id)
  }

  /** Inputs that can occur: new rows get new plain ids, lookups return what the table holds. */
  ghost predicate Legit(env: Env, c: Core, op: Op) {
    match op
    case DoRegister(r) => PlainId(r.id) && r.id !in c.users
    case DoLogout(u, _) => PlainId(u)
    case DoRefresh(t, _) => PlainSubject(env, t)
    case DoRevokeAll(u) => PlainId(u)
    case DoVerifyEmail(t, found) => FoundByEmailToken(c, t, found)
    case DoResetPassword(t, found, _) => FoundByReset(c, t, found)
    case DoAddGoogleUser(id, _, _) => PlainId(id) && id !in c.users
    case DoSeedAdmin(id, _, _) => PlainId(id) && id !in c.users
    case _ => true
  }

  function Step(env: Env, c: Core, op: Op): Next
    requires PlainUsers(c) && Legit(env, c, op)
  {
    match op
    case DoElapse(ms) => Next(c.(kv := Elapse(c.kv, ms)), Done, [Elapsed(ms)])
    case DoRegister(r) => Register(env, c, r)
    case DoLogin(r) => Login(env, c, r)
    case DoSendOtp(r) => SendOtp(env, c, r)
    case DoVerifyOtp(r) => VerifyOtp(env, c, r)
    case DoLogout(u, access) => Logout(env, c, u, access)
    case DoRefresh(t, roles) => RefreshTokens(env, c, t, roles)
    case DoRevokeAll(u) => RevokeAll(c, u)
    case DoVerifyEmail(_, found) => VerifyEmail(c, found)
    case DoForgotPassword(r) => ForgotPassword(env, c, r)
    case DoResetPassword(_, found, password) => ResetPassword(c, found, password)
    case DoChangePassword(u, matches, password) => ChangePassword(c, u, matches, password)
    case DoAddGoogleUser(id, email, tenant) => AddGoogleUser(c, id, email, tenant)
    case DoSeedAdmin(id, email, password) => SeedAdmin(c, id, email, password)
  }

  /** A state of a run with the history that led to it. */
  datatype State = State(core: Core, log: seq<Event>)

  function After(env: Env, s: State, op: Op): State
    requires PlainUsers(s.core) && Legit(env, s.core, op)
  {
    var n := Step(env, s.core, op);
    State(n.core, s.log + n.events)
  }

  /** Calls that can be made one after the other from `s`. */
  ghost predicate LegitRun(env: Env, s: State, ops: seq<Op>)
    decreases |ops|
  {
    PlainUsers(s.core) &&
    (ops == [] || (Legit(env, s.core, ops[0]) && LegitRun(env, After(env, s, ops[0]), ops[1..])))
  }

  ghost function Run(env: Env, s: State, ops: seq<Op>): State
    requires LegitRun(env, s, ops)
    ensures PlainUsers(Run(env, s, ops).core)
    decreases |ops|
  {
    if ops == [] then s else Run(env, After(env, s, ops[0]), ops[1..])
  }

  /** Where every run starts: an empty store, no users, no history. */
  function Fresh(now: nat, expiring: bool): State {
    State(Core(Store(map[], now, expiring), map[]), [])
  }
}
