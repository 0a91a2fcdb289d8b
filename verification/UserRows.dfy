/**
 What happens to the user rows (auth.service.ts): each call field by field, and which channels are
 verified after a whole run.
 */
module UserRows {
  import opened Prelude
  import opened KeyValue
  import opened AuthKeys
  import opened AuthModel
  import opened AuthAnswers
  import Text

  /** The call confirms the channel of the user: a code sent to verify it is accepted, or an email link is followed. */
  ghost predicate Confirms(env: Env, c: Core, op: Op, user: string, channel: Channel) {
    match op
    case DoVerifyEmail(_, found) => channel == Email && found == Some(user) && user in c.users
    case DoVerifyOtp(v) =>
      exists otp :: Accepts(env, c, v, otp, user) && otp.purpose == AccountVerification && otp.channel == channel
    case _ => false
  }

  /** The call gives the user a reset token: by link, or for a code sent for that. */
  ghost predicate GrantsReset(env: Env, c: Core, op: Op, user: string, token: string) {
    match op
    case DoForgotPassword(r) => !r.useOtp && r.found == Some(user) && user in c.users && token == r.resetToken
    case DoVerifyOtp(v) =>
      token == v.resetToken && exists otp :: Accepts(env, c, v, otp, user) && otp.purpose == PasswordReset
    case _ => false
  }

  ghost predicate Resets(c: Core, op: Op, user: string) {
    op.DoResetPassword? && op.found == Some(user) && user in c.users
  }

  ghost predicate Changes(c: Core, op: Op, user: string) {
    op.DoChangePassword? && op.user == user && user in c.users && c.users[user].password.Some? && op.matches
  }

  /** The row a call adds for an id, if it does. */
  ghost function Added(c: Core, op: Op, id: string): Option<User> {
    match op
    case DoRegister(r) =>
      if r.id == id && Refusal(c, r).None? then
        Some(User(r.tenant.tenant, if r.email.Some? then Some(Text.Lower(r.email.value)) else None, r.phone, r.password,
                  PendingVerification, false, false,
                  if r.otpVerification || r.email.None? then None else Some(r.linkToken), None, None))
      else None
    case DoAddGoogleUser(i, email, tenant) =>
      if i == id then Some(User(tenant, email, None, None, Active, email.Some?, false, None, None, None)) else None
    case DoSeedAdmin(i, email, password) =>
      if i == id
      then Some(User(None, Some(email), None, Some(password), Active, true, false, None, None, None))
      else None
    case _ => None
  }

  lemma ConfirmsIff(env: Env, c: Core, v: VerifyRequest, user: string, channel: Channel)
    ensures Confirms(env, c, DoVerifyOtp(v), user, channel) <==>
              var k := CheckCode(env, c, v);
              k.Accepted? && k.user == user && k.otp.purpose == AccountVerification && k.otp.channel == channel
  {
    var k := CheckCode(env, c, v);
    if k.Accepted? {
      AcceptedIff(env, c, v, k.otp, k.user);
    }
    forall otp ensures Accepts(env, c, v, otp, user) ==> k.Accepted? && k.otp == otp && k.user == user {
      AcceptedIff(env, c, v, otp, user);
    }
  }

  lemma GrantsIff(env: Env, c: Core, v: VerifyRequest, user: string, token: string)
    ensures GrantsReset(env, c, DoVerifyOtp(v), user, token) <==>
              var k := CheckCode(env, c, v);
              k.Accepted? && k.user == user && k.otp.purpose == PasswordReset && token == v.resetToken
  {
    var k := CheckCode(env, c, v);
    if k.Accepted? {
      AcceptedIff(env, c, v, k.otp, k.user);
    }
    forall otp ensures Accepts(env, c, v, otp, user) ==> k.Accepted? && k.otp == otp && k.user == user {
      AcceptedIff(env, c, v, otp, user);
    }
  }

  /** What a call makes of a row that is there, field by field. */
  ghost predicate Becomes(env: Env, c: Core, op: Op, id: string, u: User, t: User) {
    && t.tenant == u.tenant && t.email == u.email && t.phone == u.phone
    && (t.emailVerified <==> u.emailVerified || Confirms(env, c, op, id, Email))
    && (t.phoneVerified <==> u.phoneVerified || Confirms(env, c, op, id, Phone))
    && t.emailVerifyToken == (if Confirms(env, c, op, id, Email) then None else u.emailVerifyToken)
    && t.status == (if Confirms(env, c, op, id, Email) || Confirms(env, c, op, id, Phone) then Active else u.status)
    && t.password == (if Resets(c, op, id) || Changes(c, op, id) then Some(op.password) else u.password)
    && (Resets(c, op, id) ==> t.resetToken == None && t.resetExpires == None)
    && (forall token :: GrantsReset(env, c, op, id, token) ==>
          t.resetToken == Some(token) && t.resetExpires == Some(c.kv.now + 600_000))
    && (!Resets(c, op, id) && (forall token :: !GrantsReset(env, c, op, id, token)) ==>
          t.resetToken == u.resetToken && t.resetExpires == u.resetExpires)
  }

  /** The user table after a verification. */
  lemma TableAfterVerifying(env: Env, c: Core, v: VerifyRequest)
    requires PlainUsers(c)
    ensures var k, t := CheckCode(env, c, v), VerifyOtp(env, c, v).core.users;
            if k.Refused? || k.otp.purpose == LoginCode then t == c.users
            else
              var u := c.users[k.user];
              t == c.users[k.user :=
                if k.otp.purpose == PasswordReset
                then u.(resetToken := Some(v.resetToken), resetExpires := Some(c.kv.now + 600_000))
                else if k.otp.channel == Email
                then u.(emailVerified := true, emailVerifyToken := None, status := Active)
                else u.(phoneVerified := true, status := Active)]
  {
  }

  /** Who is confirmed or given a reset token by a verification. */
  lemma VerifyingSaid(env: Env, c: Core, v: VerifyRequest, id: string)
    ensures var k, op := CheckCode(env, c, v), DoVerifyOtp(v);
            && (forall channel :: Confirms(env, c, op, id, channel) <==>
                  k.Accepted? && k.user == id && k.otp.purpose == AccountVerification && k.otp.channel == channel)
            && (forall token :: GrantsReset(env, c, op, id, token) <==>
                  k.Accepted? && k.user == id && k.otp.purpose == PasswordReset && token == v.resetToken)
  {
    forall channel ensures Confirms(env, c, DoVerifyOtp(v), id, channel) <==>
                             var k := CheckCode(env, c, v);
                             && k.Accepted? && k.user == id
                             && k.otp.purpose == AccountVerification && k.otp.channel == channel {
      ConfirmsIff(env, c, v, id, channel);
    }
    forall token ensures GrantsReset(env, c, DoVerifyOtp(v), id, token) <==>
                           var k := CheckCode(env, c, v);
                           k.Accepted? && k.user == id && k.otp.purpose == PasswordReset && token == v.resetToken {
      GrantsIff(env, c, v, id, token);
    }
  }

  lemma VerifyingChangesRow(env: Env, c: Core, v: VerifyRequest, id: string)
    requires PlainUsers(c) && id in c.users
    ensures var t := VerifyOtp(env, c, v).core.users;
            id in t && Becomes(env, c, DoVerifyOtp(v), id, c.users[id], t[id])
  {
    TableAfterVerifying(env, c, v);
    VerifyingSaid(env, c, v, id);
    RowAfterVerifying(env, c, v, id, CheckCode(env, c, v), VerifyOtp(env, c, v).core.users);
  }

  lemma RowAfterVerifying(env: Env, c: Core, v: VerifyRequest, id: string, k: CodeCheck, t: map<string, User>)
    requires id in c.users && (k.Accepted? ==> k.user in c.users)
    requires if k.Refused? || k.otp.purpose == LoginCode then t == c.users
             else
               var u := c.users[k.user];
               t == c.users[k.user :=
                 if k.otp.purpose == PasswordReset
                 then u.(resetToken := Some(v.resetToken), resetExpires := Some(c.kv.now + 600_000))
                 else if k.otp.channel == Email
                then u.(emailVerified := true, emailVerifyToken := None, status := Active)
                 else u.(phoneVerified := true, status := Active)]
    requires forall channel :: Confirms(env, c, DoVerifyOtp(v), id, channel) <==>
               k.Accepted? && k.user == id && k.otp.purpose == AccountVerification && k.otp.channel == channel
    requires forall token :: GrantsReset(env, c, DoVerifyOtp(v), id, token) <==>
               k.Accepted? && k.user == id && k.otp.purpose == PasswordReset && token == v.resetToken
    ensures id in t && Becomes(env, c, DoVerifyOtp(v), id, c.users[id], t[id])
  {
    assert GrantsReset(env, c, DoVerifyOtp(v), id, v.resetToken) <==>
        k.Accepted? && k.user == id && k.otp.purpose == PasswordReset;
  }

  lemma SendingSparesRows(env: Env, c: Core, r: SendRequest)
    ensures SendOtp(env, c, r).core.users == c.users
  {
  }

  /** Under the login purpose only login codes are found by identifier, and those change no row. */
  lemma LoginCodeSparesRows(env: Env, c: Core, v: VerifyRequest)
    requires PlainUsers(c) && v.purpose == LoginCode && v.token == None
    ensures VerifyOtp(env, c, v).core.users == c.users
  {
    TableAfterVerifying(env, c, v);
    var k := CheckCode(env, c, v);
    assert k.Accepted? ==> k.otp.purpose == LoginCode;
  }

  lemma LoginSparesRows(env: Env, c: Core, r: LoginRequest)
    requires PlainUsers(c)
    ensures Login(env, c, r).core.users == c.users
  {
    var c1 := c.(kv := EnforceLoginRateLimit(c.kv, Scope(r.ctxTenant, r.identifier)).0);
    if r.how.ByCode? {
      LoginCodeSparesRows(env, c1, CodeLogin(r, r.how.code));
    }
  }

  lemma RegistrationRow(env: Env, c: Core, r: RegisterRequest, id: string)
    requires PlainId(r.id) && r.id !in c.users
    ensures var t := Register(env, c, r).core.users;
            && (id in c.users ==> id in t && t[id] == c.users[id])
            && (id !in c.users ==>
                  (if id in t then Some(t[id]) else None) == Added(c, DoRegister(r), id))
  {
    if Refusal(c, r).Some? {
      RegistrationRefused(env, c, r);
    } else {
      RegistrationAdds(env, c, r);
    }
  }

  lemma ForgettingChangesRow(env: Env, c: Core, r: ForgotRequest, id: string)
    requires id in c.users
    ensures var t := ForgotPassword(env, c, r).core.users;
            id in t && Becomes(env, c, DoForgotPassword(r), id, c.users[id], t[id])
  {
    assert GrantsReset(env, c, DoForgotPassword(r), id, r.resetToken) <==> !r.useOtp && r.found == Some(id);
    if r.found.Some? && r.found.value in c.users && r.useOtp {
      SendingSparesRows(env, c, ResetCode(c.users, r, c.users[r.found.value]));
    }
  }

  /** Where nothing is confirmed, granted or changed, the row stays as it is. */
  lemma SameRow(env: Env, c: Core, op: Op, id: string, u: User)
    requires forall channel :: !Confirms(env, c, op, id, channel)
    requires forall token :: !GrantsReset(env, c, op, id, token)
    requires !Resets(c, op, id) && !Changes(c, op, id)
    ensures Becomes(env, c, op, id, u, u)
  {
  }

  lemma PasswordCallsChangeRow(env: Env, c: Core, op: Op, id: string)
    requires PlainUsers(c) && Legit(env, c, op) && id in c.users
    requires op.DoResetPassword? || op.DoChangePassword? || op.DoVerifyEmail?
    ensures var t := Step(env, c, op).core.users; id in t && Becomes(env, c, op, id, c.users[id], t[id])
  {
  }

  /** Every call changes every row that is there as described. */
  lemma RowChangesExactly(env: Env, c: Core, op: Op, id: string)
    requires PlainUsers(c) && Legit(env, c, op) && id in c.users
    ensures var t := Step(env, c, op).core.users; id in t && Becomes(env, c, op, id, c.users[id], t[id])
  {
    if op.DoVerifyOtp? {
      VerifyingChangesRow(env, c, op.verify, id);
    } else if op.DoForgotPassword? {
      ForgettingChangesRow(env, c, op.forgot, id);
    } else if op.DoResetPassword? || op.DoChangePassword? || op.DoVerifyEmail? {
      PasswordCallsChangeRow(env, c, op, id);
    } else {
      SameRow(env, c, op, id, c.users[id]);
      match op
      case DoRegister(r) => RegistrationRow(env, c, r, id);
      case DoLogin(r) => LoginSparesRows(env, c, r);
      case DoSendOtp(r) => SendingSparesRows(env, c, r);
      case _ =>
    }
  }

  /** No call adds other rows than described. */
  lemma RowsAddedExactly(env: Env, c: Core, op: Op, id: string)
    requires PlainUsers(c) && Legit(env, c, op) && id !in c.users
    ensures var t := Step(env, c, op).core.users; (if id in t then Some(t[id]) else None) == Added(c, op, id)
  {
    match op
    case DoRegister(r) => RegistrationRow(env, c, r, id);
    case DoLogin(r) => LoginSparesRows(env, c, r);
    case DoSendOtp(r) => SendingSparesRows(env, c, r);
    case DoVerifyOtp(v) => TableAfterVerifying(env, c, v);
    case DoForgotPassword(r) =>
      if r.found.Some? && r.found.value in c.users && r.useOtp {
        SendingSparesRows(env, c, ResetCode(c.users, r, c.users[r.found.value]));
      }
    case _ =>
  }

  // Whole runs.

  function Verified(u: User, channel: Channel): bool {
    match channel
    case Email => u.emailVerified
    case Phone => u.phoneVerified
  }

  /** In the run, the row was added with the channel verified, or some call confirmed it. */
  ghost predicate VerifiedInRun(env: Env, s: State, ops: seq<Op>, id: string, channel: Channel)
    requires LegitRun(env, s, ops)
    decreases |ops|
  {
    ops != [] &&
    (|| Confirms(env, s.core, ops[0], id, channel)
     || (id !in s.core.users && Added(s.core, ops[0], id).Some? && Verified(Added(s.core, ops[0], id).value, channel))
     || VerifiedInRun(env, After(env, s, ops[0]), ops[1..], id, channel))
  }

  predicate HasVerified(c: Core, id: string, channel: Channel) {
    id in c.users && Verified(c.users[id], channel)
  }

  lemma {:induction false} VerifiedFrom(env: Env, s: State, ops: seq<Op>, id: string, channel: Channel)
    requires LegitRun(env, s, ops)
    ensures HasVerified(Run(env, s, ops).core, id, channel)
            <==> HasVerified(s.core, id, channel) || VerifiedInRun(env, s, ops, id, channel)
    decreases |ops|
  {
    if ops == [] {
    } else {
      var t := After(env, s, ops[0]);
      StepVerifies(env, s.core, ops[0], id, channel);
      VerifiedFrom(env, t, ops[1..], id, channel);
    }
  }

  lemma StepVerifies(env: Env, c: Core, op: Op, id: string, channel: Channel)
    requires PlainUsers(c) && Legit(env, c, op)
    ensures HasVerified(Step(env, c, op).core, id, channel) <==>
              || HasVerified(c, id, channel) || Confirms(env, c, op, id, channel)
              || (id !in c.users && Added(c, op, id).Some? && Verified(Added(c, op, id).value, channel))
  {
    if id in c.users {
      RowChangesExactly(env, c, op, id);
    } else {
      RowsAddedExactly(env, c, op, id);
    }
    match channel
    case Email =>
    case Phone =>
  }

  /** After any run a channel is verified exactly when the row was added with it or some call confirmed that channel. */
  lemma ChannelVerifiedIff(env: Env, now: nat, expiring: bool, ops: seq<Op>, id: string, channel: Channel)
    requires LegitRun(env, Fresh(now, expiring), ops)
    ensures HasVerified(Run(env, Fresh(now, expiring), ops).core, id, channel)
            <==> VerifiedInRun(env, Fresh(now, expiring), ops, id, channel)
  {
    VerifiedFrom(env, Fresh(now, expiring), ops, id, channel);
  }
}
