/**
 How many logins, codes and guesses fit into a span of time (auth.service.ts), in any run of the
 service: the three counters in the shared store run as fixed windows, and no other call disturbs them.
 */
module AttemptBounds {
  import opened Prelude
  import opened KeyValue
  import opened AuthKeys
  import opened AuthModel
  import opened AuthEffects
  import FW = FixedWindow
  import Text

  /** What is being counted: admitted logins, codes stored, or wrong guesses. */
  datatype Kind =
    | Logins(scope: string)
    | Codes(purpose: Purpose, scope: string)
    | Guesses(purpose: Purpose, scope: string)

  function LimitsOf(kind: Kind): FW.Limits {
    match kind
    case Logins(_) =>
      FW.Limits(LOGIN_LIMIT_MAX_ATTEMPTS, 1000 * LOGIN_LIMIT_WINDOW_SECONDS, false, false, 1000 * OTP_BLOCK_SECONDS)
    case Codes(p, _) => FW.Limits(OTP_MAX_RESEND_ATTEMPTS, 1000 * OtpTtl(p), true, false, 1000 * OTP_BLOCK_SECONDS)
    case Guesses(_, _) =>
      FW.Limits(OTP_MAX_INVALID_ATTEMPTS - 1, 1000 * OTP_TTL_SECONDS, true, true, 1000 * OTP_BLOCK_SECONDS)
  }

  function CounterKey(kind: Kind): Key {
    match kind
    case Logins(scope) => RateKey(scope)
    case Codes(p, scope) => OtpKey(p, Resend, scope)
    case Guesses(p, scope) => OtpKey(p, Invalid, scope)
  }

  function BlockEntry(kv: AuthStore, kind: Kind): Option<Entry> {
    match kind
    case Logins(_) => None
    case Codes(p, scope) => kv.Look(OtpKey(p, Blocked, scope))
    case Guesses(p, scope) => kv.Look(OtpKey(p, Blocked, scope))
  }

  function EndOf(e: Option<Entry>): Option<nat> {
    if e.Some? then e.value.expiry else None
  }

  /** The counter and the block of one subject, read off the store. */
  function MeterOf(kv: AuthStore, kind: Kind): (m: FW.Meter)
    ensures FW.Coherent(m)
  {
    var k := CounterKey(kind);
    FW.Meter(kv.now, kv.expiring, kv.Count(k), EndOf(kv.Look(k)), BlockEntry(kv, kind).Some?,
             EndOf(BlockEntry(kv, kind)))
  }

  predicate Counts(kind: Kind, e: Event) {
    match kind
    case Logins(scope) => e == LoginTried(scope, true)
    case Codes(p, scope) => e.CodeStored? && e.otp.purpose == p && OtpScope(e.otp) == scope
    case Guesses(p, scope) => e == GuessWrong(p, scope)
  }

  /** How often it happened in the history. */
  function Tally(log: seq<Event>, kind: Kind): nat {
    if log == [] then 0 else Tally(log[..|log| - 1], kind) + if Counts(kind, log[|log| - 1]) then 1 else 0
  }

  predicate Resets(kind: Kind, e: Event) {
    match kind
    case Logins(_) => false
    case Codes(p, scope) => e == GuessRight(p, scope)
    case Guesses(p, scope) => e == GuessRight(p, scope)
  }

  /** How often a successful match cleared the counters. */
  function Matches(log: seq<Event>, kind: Kind): nat {
    if log == [] then 0 else Matches(log[..|log| - 1], kind) + if Resets(kind, log[|log| - 1]) then 1 else 0
  }

  /** What an effect does to the meter of a subject, as acts of the abstract counter. */
  function ActsOf(env: Env, kv: AuthStore, e: Effect, kind: Kind): seq<FW.Act> {
    match e
    case Wait(ms) => [FW.Pass(ms)]
    case CountLogin(scope) => if kind == Logins(scope) then [FW.Hit] else []
    case SendCode(otp) =>
      if kind == Codes(otp.purpose, OtpScope(otp)) then [FW.Hit]
      else if kind == Guesses(otp.purpose, OtpScope(otp)) && !Counted(env, kv, otp).1 then [FW.Shut]
      else []
    case CountGuess(p, scope) =>
      if kind == Guesses(p, scope) then [FW.Hit]
      else if kind == Codes(p, scope) && kv.Count(OtpKey(p, Invalid, scope)) + 1 >= OTP_MAX_INVALID_ATTEMPTS then
        [FW.Shut]
      else []
    case _ => []
  }

  /** The OTP counters exist in production only; the login limiter always does. */
  predicate Active(env: Env, kind: Kind) {
    kind.Logins? || env.production
  }

  ghost predicate Follows(env: Env, s: State, e: Effect, kind: Kind)
    requires e.Issue? ==> PlainId(e.id)
  {
    var t := Apply(env, s, e);
    var m := MeterOf(s.core.kv, kind);
    var acts := ActsOf(env, s.core.kv, e, kind);
    && |acts| <= 1
    && FW.EnabledAll(LimitsOf(kind), m, acts)
    && MeterOf(t.core.kv, kind) == FW.End(LimitsOf(kind), m, acts)
    && Tally(t.log, kind) == Tally(s.log, kind) + FW.TotalAdmitted(LimitsOf(kind), m, acts)
  }

  lemma SingleAct(l: FW.Limits, m: FW.Meter, a: FW.Act)
    ensures FW.EnabledAll(l, m, [a]) <==> FW.Enabled(m, a)
    ensures FW.End(l, m, [a]) == FW.Next(l, m, a)
    ensures FW.TotalAdmitted(l, m, [a]) == FW.Admitted(l, m, a)
  {
    assert [a][1..] == [];
    assert FW.End(l, FW.Next(l, m, a), []) == FW.Next(l, m, a);
    assert FW.TotalAdmitted(l, FW.Next(l, m, a), []) == 0;
  }

  lemma LoginFollows(env: Env, s: State, scope: string)
    ensures Follows(env, s, CountLogin(scope), Logins(scope))
  {
    EffectEvent(env, s, CountLogin(scope));
    SingleAct(LimitsOf(Logins(scope)), MeterOf(s.core.kv, Logins(scope)), FW.Hit);
  }

  lemma WaitFollows(env: Env, s: State, ms: nat, kind: Kind)
    ensures Follows(env, s, Wait(ms), kind)
  {
    EffectEvent(env, s, Wait(ms));
    SingleAct(LimitsOf(kind), MeterOf(s.core.kv, kind), FW.Pass(ms));
  }

  lemma CountingGuesses(env: Env, kv: AuthStore, p: Purpose, scope: string)
    requires env.production && !OtpBlocked(env, kv, p, scope)
    ensures var kind := Guesses(p, scope);
            MeterOf(BumpOtpInvalidAttempts(env, kv, p, scope), kind)
            == FW.Next(LimitsOf(kind), MeterOf(kv, kind), FW.Hit)
  {
  }

  lemma GuessFollows(env: Env, s: State, p: Purpose, scope: string)
    requires env.production && Allowed(env, s.core, CountGuess(p, scope))
    ensures Follows(env, s, CountGuess(p, scope), Guesses(p, scope))
  {
    EffectEvent(env, s, CountGuess(p, scope));
    CountingGuesses(env, s.core.kv, p, scope);
    SingleAct(LimitsOf(Guesses(p, scope)), MeterOf(s.core.kv, Guesses(p, scope)), FW.Hit);
  }

  lemma OverflowShutsCodes(env: Env, kv: AuthStore, p: Purpose, scope: string)
    requires env.production
    ensures var kind := Codes(p, scope);
            MeterOf(BumpOtpInvalidAttempts(env, kv, p, scope), kind)
            == if kv.Count(OtpKey(p, Invalid, scope)) + 1 >= OTP_MAX_INVALID_ATTEMPTS
               then FW.Next(LimitsOf(kind), MeterOf(kv, kind), FW.Shut) else MeterOf(kv, kind)
  {
  }

  lemma GuessShutsCodes(env: Env, s: State, p: Purpose, scope: string)
    requires env.production && Allowed(env, s.core, CountGuess(p, scope))
    ensures Follows(env, s, CountGuess(p, scope), Codes(p, scope))
  {
    EffectEvent(env, s, CountGuess(p, scope));
    OverflowShutsCodes(env, s.core.kv, p, scope);
    SingleAct(LimitsOf(Codes(p, scope)), MeterOf(s.core.kv, Codes(p, scope)), FW.Shut);
  }

  lemma CountingCodes(env: Env, kv: AuthStore, otp: Otp)
    requires env.production && !OtpBlocked(env, kv, otp.purpose, OtpScope(otp))
    ensures var kind := Codes(otp.purpose, OtpScope(otp));
            && MeterOf(Counted(env, kv, otp).0, kind) == FW.Next(LimitsOf(kind), MeterOf(kv, kind), FW.Hit)
            && (Counted(env, kv, otp).1 <==> kv.Count(CounterKey(kind)) < OTP_MAX_RESEND_ATTEMPTS)
  {
  }

  lemma StoringKeepsMeters(kv: AuthStore, otp: Otp, ttl: nat, kind: Kind)
    requires ttl > 0
    ensures MeterOf(StoreOtp(kv, otp, ttl), kind) == MeterOf(kv, kind)
  {
  }

  lemma CodeFollows(env: Env, s: State, otp: Otp)
    requires env.production && Allowed(env, s.core, SendCode(otp))
    ensures Follows(env, s, SendCode(otp), Codes(otp.purpose, OtpScope(otp)))
  {
    var kind := Codes(otp.purpose, OtpScope(otp));
    EffectEvent(env, s, SendCode(otp));
    CountingCodes(env, s.core.kv, otp);
    StoringKeepsMeters(Counted(env, s.core.kv, otp).0, otp, OtpTtl(otp.purpose), kind);
    SingleAct(LimitsOf(kind), MeterOf(s.core.kv, kind), FW.Hit);
  }

  lemma OverflowShutsGuesses(env: Env, kv: AuthStore, otp: Otp)
    ensures var kind := Guesses(otp.purpose, OtpScope(otp));
            MeterOf(Counted(env, kv, otp).0, kind)
            == if Counted(env, kv, otp).1 then MeterOf(kv, kind)
               else FW.Next(LimitsOf(kind), MeterOf(kv, kind), FW.Shut)
  {
    ResendOverflowBlocks(env, kv, otp.purpose, OtpScope(otp), OtpTtl(otp.purpose));
  }

  lemma CodeShutsGuesses(env: Env, s: State, otp: Otp)
    requires env.production && Allowed(env, s.core, SendCode(otp))
    ensures Follows(env, s, SendCode(otp), Guesses(otp.purpose, OtpScope(otp)))
  {
    var kind := Guesses(otp.purpose, OtpScope(otp));
    EffectEvent(env, s, SendCode(otp));
    OverflowShutsGuesses(env, s.core.kv, otp);
    StoringKeepsMeters(Counted(env, s.core.kv, otp).0, otp, OtpTtl(otp.purpose), kind);
    SingleAct(LimitsOf(kind), MeterOf(s.core.kv, kind), FW.Shut);
  }

  lemma SameMeter(a: AuthStore, b: AuthStore, kind: Kind)
    requires SameAt(a, b, CounterKey(kind))
    requires kind.Logins? || SameAt(a, b, OtpKey(kind.purpose, Blocked, kind.scope))
    ensures MeterOf(a, kind) == MeterOf(b, kind)
  {
  }

  lemma SameTally(env: Env, s: State, e: Effect, kind: Kind)
    requires Allowed(env, s.core, e)
    requires EffectEvents(env, s.core, e) != [] ==> !Counts(kind, EffectEvents(env, s.core, e)[0])
    ensures Tally(Apply(env, s, e).log, kind) == Tally(s.log, kind)
  {
    EffectEvent(env, s, e);
  }

  /** Effects of other subjects and of other kinds do not touch the meter. */
  lemma OthersFollow(env: Env, s: State, e: Effect, kind: Kind)
    requires Allowed(env, s.core, e) && !Touches(e, CounterKey(kind))
    requires kind.Logins? || !Touches(e, OtpKey(kind.purpose, Blocked, kind.scope))
    requires EffectEvents(env, s.core, e) != [] ==> !Counts(kind, EffectEvents(env, s.core, e)[0])
    requires ActsOf(env, s.core.kv, e, kind) == []
    ensures Follows(env, s, e, kind)
  {
    SameTally(env, s, e, kind);
    EffectFrame(env, s, e, CounterKey(kind));
    if !kind.Logins? {
      EffectFrame(env, s, e, OtpKey(kind.purpose, Blocked, kind.scope));
    }
    SameMeter(Apply(env, s, e).core.kv, s.core.kv, kind);
  }

  lemma SendFollows(env: Env, s: State, otp: Otp, kind: Kind)
    requires Allowed(env, s.core, SendCode(otp)) && Active(env, kind)
    ensures Follows(env, s, SendCode(otp), kind)
  {
    if kind == Codes(otp.purpose, OtpScope(otp)) {
      CodeFollows(env, s, otp);
    } else if kind == Guesses(otp.purpose, OtpScope(otp)) {
      CodeShutsGuesses(env, s, otp);
    } else {
      OthersFollow(env, s, SendCode(otp), kind);
    }
  }

  lemma WrongGuessFollows(env: Env, s: State, p: Purpose, scope: string, kind: Kind)
    requires Allowed(env, s.core, CountGuess(p, scope)) && Active(env, kind)
    ensures Follows(env, s, CountGuess(p, scope), kind)
  {
    if kind == Guesses(p, scope) {
      GuessFollows(env, s, p, scope);
    } else if kind == Codes(p, scope) {
      GuessShutsCodes(env, s, p, scope);
    } else {
      OthersFollow(env, s, CountGuess(p, scope), kind);
    }
  }

  lemma RestFollowsLogins(env: Env, s: State, e: Effect, scope: string)
    requires Allowed(env, s.core, e) && !e.Wait? && e != CountLogin(scope)
    ensures Follows(env, s, e, Logins(scope))
  {
    OthersFollow(env, s, e, Logins(scope));
  }

  lemma RestFollowsOtp(env: Env, s: State, e: Effect, kind: Kind)
    requires Allowed(env, s.core, e) && !kind.Logins? && !e.Wait? && !e.SendCode? && !e.CountGuess?
    requires e != ClearGuards(kind.purpose, kind.scope)
    ensures Follows(env, s, e, kind)
  {
    OthersFollow(env, s, e, kind);
  }

  /** A successful match of the subject shows in the history. */
  lemma ClearingIsAMatch(env: Env, s: State, kind: Kind)
    requires !kind.Logins?
    ensures Matches(Apply(env, s, ClearGuards(kind.purpose, kind.scope)).log, kind) == Matches(s.log, kind) + 1
  {
    EffectEvent(env, s, ClearGuards(kind.purpose, kind.scope));
  }

  lemma EffectFollows(env: Env, s: State, e: Effect, kind: Kind)
    requires Allowed(env, s.core, e) && Active(env, kind)
    requires Matches(Apply(env, s, e).log, kind) == Matches(s.log, kind)
    ensures Follows(env, s, e, kind)
  {
    if e.Wait? {
      WaitFollows(env, s, e.ms, kind);
    } else if e.SendCode? {
      SendFollows(env, s, e.otp, kind);
    } else if e.CountGuess? {
      WrongGuessFollows(env, s, e.purpose, e.scope, kind);
    } else if e.CountLogin? && kind == Logins(e.scope) {
      LoginFollows(env, s, e.scope);
    } else if kind.Logins? {
      RestFollowsLogins(env, s, e, kind.scope);
    } else {
      ClearingIsAMatch(env, s, kind);
      RestFollowsOtp(env, s, e, kind);
    }
  }

  lemma {:induction false} MatchesGrow(env: Env, s: State, es: seq<Effect>, kind: Kind)
    requires AllowedChain(env, s, es)
    ensures Matches(Chain(env, s, es).log, kind) >= Matches(s.log, kind)
    decreases |es|
  {
    if es == [] {
    } else {
      EffectEvent(env, s, es[0]);
      MatchesGrow(env, Apply(env, s, es[0]), es[1..], kind);
    }
  }

  /** A stretch of a run without a successful match is a run of the abstract counter. */
  lemma {:induction false} ChainFollows(env: Env, s: State, es: seq<Effect>, kind: Kind) returns (acts: seq<FW.Act>)
    requires AllowedChain(env, s, es) && Active(env, kind)
    requires Matches(Chain(env, s, es).log, kind) == Matches(s.log, kind)
    ensures FW.EnabledAll(LimitsOf(kind), MeterOf(s.core.kv, kind), acts)
    ensures MeterOf(Chain(env, s, es).core.kv, kind) == FW.End(LimitsOf(kind), MeterOf(s.core.kv, kind), acts)
    ensures Tally(Chain(env, s, es).log, kind)
            == Tally(s.log, kind) + FW.TotalAdmitted(LimitsOf(kind), MeterOf(s.core.kv, kind), acts)
    decreases |es|
  {
    acts := [];
    if es == [] {
    } else {
      var t := Apply(env, s, es[0]);
      MatchesGrow(env, t, es[1..], kind);
      EffectEvent(env, s, es[0]);
      EffectFollows(env, s, es[0], kind);
      acts := ChainFollows(env, t, es[1..], kind);
      var first := ActsOf(env, s.core.kv, es[0], kind);
      if first != [] {
        SingleAct(LimitsOf(kind), MeterOf(s.core.kv, kind), first[0]);
        assert first == [first[0]];
        assert ([first[0]] + acts)[1..] == acts;
        acts := [first[0]] + acts;
      }
    }
  }

  /** How often it happened between two states of a run, and how long that took. */
  function Happened(s: State, t: State, kind: Kind): int {
    Tally(t.log, kind) - Tally(s.log, kind)
  }

  function Span(s: State, t: State): int {
    t.core.kv.now - s.core.kv.now
  }

  /** How often it can happen within d milliseconds. */
  function Most(kind: Kind, d: nat): nat {
    match kind
    case Logins(_) => 10 * (d / 60_000 + 1) + 9
    case Codes(p, _) => 3 * ((if p == PasswordReset then d / 600_000 else d / 300_000) + 1) + 2
    case Guesses(_, _) => 2 * (d / 300_000 + 1) + 2
  }

  lemma MostIsCeiling(kind: Kind, d: nat)
    ensures Most(kind, d) == FW.Ceiling(LimitsOf(kind), d)
  {
    match kind
    case Logins(_) => assert LimitsOf(kind) == FW.Limits(10, 60_000, false, false, 21_600_000);
    case Codes(p, _) =>
      var window := if p == PasswordReset then 600_000 else 300_000;
      assert LimitsOf(kind) == FW.Limits(3, window, true, false, 21_600_000);
    case Guesses(_, _) => assert LimitsOf(kind) == FW.Limits(2, 300_000, true, true, 21_600_000);
  }

  lemma ActsBound(kind: Kind, m: FW.Meter, acts: seq<FW.Act>)
    requires FW.Coherent(m) && FW.EnabledAll(LimitsOf(kind), m, acts)
    ensures var d := FW.End(LimitsOf(kind), m, acts).now - m.now;
            d >= 0 && FW.TotalAdmitted(LimitsOf(kind), m, acts) <= Most(kind, d)
  {
    FW.SpanBound(LimitsOf(kind), m, acts);
    MostIsCeiling(kind, FW.End(LimitsOf(kind), m, acts).now - m.now);
  }

  /** From one state to the other no more happened than may happen in the time between them. */
  ghost predicate WithinBound(s: State, t: State, kind: Kind) {
    Span(s, t) >= 0 && Happened(s, t, kind) <= Most(kind, Span(s, t))
  }

  lemma ChainBound(env: Env, s: State, es: seq<Effect>, t: State, kind: Kind)
    requires Reaches(env, s, es, t) && Active(env, kind) && Matches(t.log, kind) == Matches(s.log, kind)
    ensures WithinBound(s, t, kind)
  {
    var acts := ChainFollows(env, s, es, kind);
    ActsBound(kind, MeterOf(s.core.kv, kind), acts);
  }

  /** The bounds of the three limiters, for any stretch of any run. */
  lemma AttemptBound(env: Env, s: State, ops: seq<Op>, kind: Kind)
    requires LegitRun(env, s, ops) && Active(env, kind)
    requires Matches(Run(env, s, ops).log, kind) == Matches(s.log, kind)
    ensures WithinBound(s, Run(env, s, ops), kind)
  {
    var es := RunIsChain(env, s, ops);
    ChainBound(env, s, es, Run(env, s, ops), kind);
  }

  /** At most 10 logins a minute and 9 more are admitted for one identifier, and 19 in any single minute. */
  lemma LoginBound(env: Env, s: State, ops: seq<Op>, scope: string)
    requires LegitRun(env, s, ops)
    ensures Span(s, Run(env, s, ops)) >= 0
    ensures Happened(s, Run(env, s, ops), Logins(scope)) <= 10 * (Span(s, Run(env, s, ops)) / 60_000 + 1) + 9
    ensures Span(s, Run(env, s, ops)) < 60_000 ==> Happened(s, Run(env, s, ops), Logins(scope)) <= 19
  {
    assert Matches(Run(env, s, ops).log, Logins(scope)) == Matches(s.log, Logins(scope)) by {
      NoLoginResets(s.log, scope);
      NoLoginResets(Run(env, s, ops).log, scope);
    }
    AttemptBound(env, s, ops, Logins(scope));
    LoginsWithin(s, Run(env, s, ops), scope);
  }

  lemma LoginsWithin(s: State, t: State, scope: string)
    requires WithinBound(s, t, Logins(scope))
    ensures Span(s, t) >= 0
    ensures Happened(s, t, Logins(scope)) <= 10 * (Span(s, t) / 60_000 + 1) + 9
    ensures Span(s, t) < 60_000 ==> Happened(s, t, Logins(scope)) <= 19
  {
  }

  lemma {:induction false} NoLoginResets(log: seq<Event>, scope: string)
    ensures Matches(log, Logins(scope)) == 0
  {
    if log == [] {
    } else {
      NoLoginResets(log[..|log| - 1], scope);
    }
  }

  /** In production, without a successful match: two wrong guesses per five minutes and two more. */
  lemma GuessBound(env: Env, s: State, ops: seq<Op>, p: Purpose, scope: string)
    requires LegitRun(env, s, ops) && env.production
    requires Matches(Run(env, s, ops).log, Guesses(p, scope)) == Matches(s.log, Guesses(p, scope))
    ensures Span(s, Run(env, s, ops)) >= 0
    ensures Happened(s, Run(env, s, ops), Guesses(p, scope)) <= 2 * (Span(s, Run(env, s, ops)) / 300_000 + 1) + 2
  {
    AttemptBound(env, s, ops, Guesses(p, scope));
    GuessesWithin(s, Run(env, s, ops), p, scope);
  }

  lemma GuessesWithin(s: State, t: State, p: Purpose, scope: string)
    requires WithinBound(s, t, Guesses(p, scope))
    ensures Span(s, t) >= 0
    ensures Happened(s, t, Guesses(p, scope)) <= 2 * (Span(s, t) / 300_000 + 1) + 2
  {
  }

  /** In production, without a successful match: three codes per time-to-live of a code and two more. */
  lemma CodeBound(env: Env, s: State, ops: seq<Op>, p: Purpose, scope: string)
    requires LegitRun(env, s, ops) && env.production
    requires Matches(Run(env, s, ops).log, Codes(p, scope)) == Matches(s.log, Codes(p, scope))
    ensures Span(s, Run(env, s, ops)) >= 0
    ensures Happened(s, Run(env, s, ops), Codes(p, scope))
            <= 3 * (Span(s, Run(env, s, ops)) / (if p == PasswordReset then 600_000 else 300_000) + 1) + 2
  {
    AttemptBound(env, s, ops, Codes(p, scope));
    CodesWithin(s, Run(env, s, ops), p, scope);
  }

  lemma CodesWithin(s: State, t: State, p: Purpose, scope: string)
    requires WithinBound(s, t, Codes(p, scope))
    ensures Span(s, t) >= 0
    ensures Happened(s, t, Codes(p, scope))
            <= 3 * (Span(s, t) / (if p == PasswordReset then 600_000 else 300_000) + 1) + 2
  {
  }

  // Blocks last.

  ghost predicate BlockedUntil(kv: AuthStore, p: Purpose, scope: string, until: nat) {
    var e := kv.Look(OtpKey(p, Blocked, scope));
    e.Some? && (e.value.expiry.Some? ==> e.value.expiry.value >= until)
  }

  lemma EffectKeepsBlock(env: Env, s: State, e: Effect, p: Purpose, scope: string, until: nat)
    requires env.production && Allowed(env, s.core, e)
    requires BlockedUntil(s.core.kv, p, scope, until) && Apply(env, s, e).core.kv.now < until
    ensures BlockedUntil(Apply(env, s, e).core.kv, p, scope, until)
  {
    if !Touches(e, OtpKey(p, Blocked, scope)) {
      EffectFrame(env, s, e, OtpKey(p, Blocked, scope));
    }
  }

  lemma {:induction false} TimeGoesOn(env: Env, s: State, es: seq<Effect>)
    requires AllowedChain(env, s, es)
    ensures Chain(env, s, es).core.kv.now >= s.core.kv.now
    decreases |es|
  {
    if es == [] {
    } else {
      EffectAdvances(env, s, es[0]);
      TimeGoesOn(env, Apply(env, s, es[0]), es[1..]);
    }
  }

  lemma EffectAdvances(env: Env, s: State, e: Effect)
    requires Allowed(env, s.core, e)
    ensures Apply(env, s, e).core.kv.now >= s.core.kv.now
  {
    match e
    case SendCode(otp) =>
      ResendFrame(env, s.core.kv, otp.purpose, OtpScope(otp), OtpTtl(otp.purpose), OnlineKey(""));
    case CountGuess(p, scope) => GuessFrame(env, s.core.kv, p, scope, OnlineKey(""));
    case _ =>
  }

  lemma {:induction false} ChainKeepsBlock(env: Env, s: State, es: seq<Effect>, p: Purpose, scope: string, until: nat)
    requires env.production && AllowedChain(env, s, es)
    requires BlockedUntil(s.core.kv, p, scope, until) && Chain(env, s, es).core.kv.now < until
    ensures BlockedUntil(Chain(env, s, es).core.kv, p, scope, until)
    decreases |es|
  {
    if es == [] {
    } else {
      TimeGoesOn(env, Apply(env, s, es[0]), es[1..]);
      EffectKeepsBlock(env, s, es[0], p, scope, until);
      ChainKeepsBlock(env, Apply(env, s, es[0]), es[1..], p, scope, until);
    }
  }

  /** A wrong guess shuts the triple, for six hours, exactly when it is the third in its window. */
  lemma ThirdWrongGuessBlocksIff(env: Env, c: Core, guess: VerifyRequest)
    requires env.production && PlainUsers(c) && guess.tenant.Resolved?
    requires VerifyOtp(env, c, guess).events
             == [GuessWrong(guess.purpose, ScopeOf(guess))]
    ensures var scope, kv := ScopeOf(guess), VerifyOtp(env, c, guess).core.kv;
            && (OtpBlocked(env, kv, guess.purpose, scope) <==> c.kv.Count(OtpKey(guess.purpose, Invalid, scope)) >= 2)
            && (OtpBlocked(env, kv, guess.purpose, scope) ==>
                  && kv.Look(OtpKey(guess.purpose, Blocked, scope)).value.expiry
                     == (if kv.expiring then Some(c.kv.now + 21_600_000) else None)
                  && BlockedUntil(kv, guess.purpose, scope, c.kv.now + 21_600_000))
  {
    var scope := ScopeOf(guess);
    CountingGuesses(env, c.kv, guess.purpose, scope);
  }

  lemma BlockRefuses(env: Env, d: Core, send: SendRequest, verify: VerifyRequest, p: Purpose)
    requires PlainUsers(d) && send.tenant.Resolved? && verify.tenant.Resolved?
    requires ResolveOtpPurpose(send.purpose, Row(d, send.anyUser)) == p && verify.purpose == p
    requires OtpBlocked(env, d.kv, p, Scope(send.tenant.tenant, Text.Trim(send.identifier)))
    requires OtpBlocked(env, d.kv, p, ScopeOf(verify))
    ensures SendOtp(env, d, send).core == d && SendOtp(env, d, send).outcome.Failed?
    ensures VerifyOtp(env, d, verify) == Next(d, Failed(TooManyRequests), [])
  {
  }

  /**
   Until a block ends, whatever is called meanwhile, no code is sent for the triple and no code is looked
   at, and such calls change nothing at all.
   */
  lemma BlockHolds(env: Env, s: State, ops: seq<Op>, send: SendRequest, verify: VerifyRequest, p: Purpose,
                   scope: string, until: nat)
    requires env.production && LegitRun(env, s, ops)
    requires BlockedUntil(s.core.kv, p, scope, until) && Run(env, s, ops).core.kv.now < until
    requires send.tenant.Resolved? && Scope(send.tenant.tenant, Text.Trim(send.identifier)) == scope
    requires ResolveOtpPurpose(send.purpose, Row(Run(env, s, ops).core, send.anyUser)) == p
    requires verify.tenant.Resolved? && ScopeOf(verify) == scope
    requires verify.purpose == p
    ensures var d := Run(env, s, ops).core;
            && SendOtp(env, d, send).core == d && SendOtp(env, d, send).outcome.Failed?
            && VerifyOtp(env, d, verify) == Next(d, Failed(TooManyRequests), [])
  {
    var es := RunIsChain(env, s, ops);
    ChainKeepsBlock(env, s, es, p, scope, until);
    BlockRefuses(env, Run(env, s, ops).core, send, verify, p);
  }

  // The login window is never extended.

  ghost predicate WindowEnds(kv: AuthStore, scope: string, until: nat) {
    kv.Look(RateKey(scope)).Some? && kv.Look(RateKey(scope)).value.expiry == Some(until)
  }

  lemma {:induction false} ChainKeepsWindow(env: Env, s: State, es: seq<Effect>, scope: string, until: nat)
    requires AllowedChain(env, s, es) && WindowEnds(s.core.kv, scope, until) && Chain(env, s, es).core.kv.now < until
    ensures WindowEnds(Chain(env, s, es).core.kv, scope, until)
    decreases |es|
  {
    if es == [] {
    } else {
      TimeGoesOn(env, Apply(env, s, es[0]), es[1..]);
      if !Touches(es[0], RateKey(scope)) {
        EffectFrame(env, s, es[0], RateKey(scope));
      }
      ChainKeepsWindow(env, Apply(env, s, es[0]), es[1..], scope, until);
    }
  }

  /** The first attempt after a pause opens a window of 60 seconds. */
  lemma LoginOpensWindow(kv: AuthStore, scope: string)
    requires kv.expiring && RateKey(scope) !in kv.entries
    ensures EnforceLoginRateLimit(kv, scope).1 && WindowEnds(EnforceLoginRateLimit(kv, scope).0, scope, kv.now + 60_000)
  {
  }

  predicate TriesLogin(op: Op, scope: string) {
    op.DoLogin? && Scope(op.login.ctxTenant, op.login.identifier) == scope
  }

  /** No attempt is made with the scope. */
  ghost predicate NoTries(events: seq<Event>, scope: string) {
    forall i :: 0 <= i < |events| ==> !(events[i].LoginTried? && events[i].scope == scope)
  }

  lemma AdmittedLogsNoTry(env: Env, c: Core, r: LoginRequest, scope: string)
    requires PlainUsers(c)
    ensures NoTries(LoginAdmitted(env, c, r).events, scope)
  {
    if r.how.ByCode? {
      VerifyingLogsNoTry(env, c, CodeLogin(r, r.how.code), scope);
    }
  }

  lemma VerifyingLogsNoTry(env: Env, c: Core, r: VerifyRequest, scope: string)
    requires PlainUsers(c)
    ensures NoTries(VerifyOtp(env, c, r).events, scope)
  {
    assert NoTries(CheckCode(env, c, r).events, scope);
  }

  lemma SendingLogsNoTry(env: Env, c: Core, r: SendRequest, scope: string)
    ensures NoTries(SendOtp(env, c, r).events, scope)
  {
  }

  lemma OtherCallsLogNoTry(env: Env, c: Core, op: Op, scope: string)
    requires PlainUsers(c) && Legit(env, c, op) && !TriesLogin(op, scope)
    ensures NoTries(Step(env, c, op).events, scope)
  {
    match op
    case DoLogin(r) =>
      var c1 := c.(kv := EnforceLoginRateLimit(c.kv, Scope(r.ctxTenant, r.identifier)).0);
      AdmittedLogsNoTry(env, c1, r, scope);
    case DoVerifyOtp(r) => VerifyingLogsNoTry(env, c, r, scope);
    case DoSendOtp(r) => SendingLogsNoTry(env, c, r, scope);
    case DoRegister(r) =>
      var channel := ResolveVerificationChannel(r.verificationChannel, r.email, r.phone, UsesOtp(r));
      if r.tenant.Resolved? && channel.Some? {
        var users := c.users[r.id := NewUser(r)];
        SendingLogsNoTry(env, c.(users := users), RegistrationCode(users, r, channel.value), scope);
      }
    case DoForgotPassword(r) =>
      if Row(c, r.found).Some? {
        SendingLogsNoTry(env, c, ResetCode(c.users, r, Row(c, r.found).value), scope);
      }
    case _ =>
  }

  lemma {:induction false} ChainExtendsLog(env: Env, s: State, es: seq<Effect>)
    requires AllowedChain(env, s, es)
    ensures s.log <= Chain(env, s, es).log
    decreases |es|
  {
    if es == [] {
    } else {
      EffectEvent(env, s, es[0]);
      ChainExtendsLog(env, Apply(env, s, es[0]), es[1..]);
    }
  }

  /** The window is still the same, or it has ended. */
  ghost predicate WindowEndsOrEnded(kv: AuthStore, scope: string, until: nat) {
    RateKey(scope) in kv.entries ==> WindowEnds(kv, scope, until)
  }

  lemma EffectWithoutTry(env: Env, s: State, e: Effect, scope: string, until: nat)
    requires Allowed(env, s.core, e) && WindowEndsOrEnded(s.core.kv, scope, until)
    requires NoTries(EffectEvents(env, s.core, e), scope)
    ensures WindowEndsOrEnded(Apply(env, s, e).core.kv, scope, until)
  {
    if e.CountLogin? {
      assert EffectEvents(env, s.core, e)[0] == LoginTried(e.scope, EnforceLoginRateLimit(s.core.kv, e.scope).1);
    }
    if !Touches(e, RateKey(scope)) {
      EffectFrame(env, s, e, RateKey(scope));
    }
  }

  lemma {:induction false} ChainWithoutTries(env: Env, s: State, es: seq<Effect>, scope: string, until: nat)
    requires AllowedChain(env, s, es) && WindowEndsOrEnded(s.core.kv, scope, until)
    requires s.log <= Chain(env, s, es).log && NoTries(Chain(env, s, es).log[|s.log|..], scope)
    ensures WindowEndsOrEnded(Chain(env, s, es).core.kv, scope, until)
    decreases |es|
  {
    if es == [] {
    } else {
      var t, log := Apply(env, s, es[0]), Chain(env, s, es).log;
      ChainExtendsLog(env, t, es[1..]);
      FirstEventsNoTries(s.log, EffectEvents(env, s.core, es[0]), log, scope);
      EffectWithoutTry(env, s, es[0], scope, until);
      ChainWithoutTries(env, t, es[1..], scope, until);
    }
  }

  lemma FirstEventsNoTries(log: seq<Event>, events: seq<Event>, all: seq<Event>, scope: string)
    requires log + events <= all && NoTries(all[|log|..], scope)
    ensures NoTries(events, scope) && NoTries(all[|log + events|..], scope)
  {
    forall i | 0 <= i < |events| ensures events[i] == all[|log|..][i] {
      assert (log + events)[|log| + i] == all[|log| + i];
    }
    LaterNoTries(all, |log|, |log + events|, scope);
  }

  lemma LaterNoTries(log: seq<Event>, i: nat, j: nat, scope: string)
    requires i <= j <= |log| && NoTries(log[i..], scope)
    ensures NoTries(log[j..], scope)
  {
    assert forall k :: 0 <= k < |log| - j ==> log[j..][k] == log[i..][k + j - i];
  }

  lemma {:induction false} RunWithoutTries(env: Env, s: State, ops: seq<Op>, scope: string, until: nat)
    requires LegitRun(env, s, ops) && WindowEndsOrEnded(s.core.kv, scope, until)
    requires forall i :: 0 <= i < |ops| ==> !TriesLogin(ops[i], scope)
    ensures WindowEndsOrEnded(Run(env, s, ops).core.kv, scope, until)
    decreases |ops|
  {
    if ops == [] {
    } else {
      var t := After(env, s, ops[0]);
      OtherCallsLogNoTry(env, s.core, ops[0], scope);
      var es := StepDecomposes(env, s, ops[0]);
      assert t.log[|s.log|..] == Step(env, s.core, ops[0]).events;
      ChainWithoutTries(env, s, es, scope, until);
      RunWithoutTries(env, t, ops[1..], scope, until);
    }
  }

  /** The next attempt is admitted and, on a server, opens a window of 60 seconds. */
  ghost predicate OpensAfresh(kv: AuthStore, scope: string) {
    && EnforceLoginRateLimit(kv, scope).1
    && (kv.expiring ==> WindowEnds(EnforceLoginRateLimit(kv, scope).0, scope, kv.now + 60_000))
  }

  lemma EndedWindowReopens(kv: AuthStore, scope: string, until: nat)
    requires WindowEndsOrEnded(kv, scope, until) && until <= kv.now
    ensures OpensAfresh(kv, scope)
  {
    assert RateKey(scope) !in kv.entries;
    if kv.expiring {
      LoginOpensWindow(kv, scope);
    }
  }

  lemma RunKeepsWindow(env: Env, s: State, ops: seq<Op>, scope: string, until: nat)
    requires LegitRun(env, s, ops) && WindowEnds(s.core.kv, scope, until) && Run(env, s, ops).core.kv.now < until
    ensures WindowEndsOrEnded(Run(env, s, ops).core.kv, scope, until)
  {
    var es := RunIsChain(env, s, ops);
    ChainKeepsWindow(env, s, es, scope, until);
  }

  /**
   However many attempts are made and refused before a window ends, none moves its end, and whatever is
   called afterwards, the first attempt from then on is admitted and opens the next window.
   */
  lemma LoginWindowReopens(env: Env, s: State, before: seq<Op>, after: seq<Op>, scope: string, until: nat)
    requires LegitRun(env, s, before) && WindowEnds(s.core.kv, scope, until) && Run(env, s, before).core.kv.now < until
    requires LegitRun(env, Run(env, s, before), after) && forall i :: 0 <= i < |after| ==> !TriesLogin(after[i], scope)
    requires until <= Run(env, Run(env, s, before), after).core.kv.now
    ensures OpensAfresh(Run(env, Run(env, s, before), after).core.kv, scope)
  {
    RunKeepsWindow(env, s, before, scope, until);
    AfterTheWindow(env, Run(env, s, before), after, scope, until);
  }

  lemma AfterTheWindow(env: Env, mid: State, after: seq<Op>, scope: string, until: nat)
    requires LegitRun(env, mid, after) && forall i :: 0 <= i < |after| ==> !TriesLogin(after[i], scope)
    requires WindowEndsOrEnded(mid.core.kv, scope, until) && until <= Run(env, mid, after).core.kv.now
    ensures OpensAfresh(Run(env, mid, after).core.kv, scope)
  {
    RunWithoutTries(env, mid, after, scope, until);
    EndedWindowReopens(Run(env, mid, after).core.kv, scope, until);
  }

  /** With the in-memory fallback there is no end to a window: an identifier once over the limit stays locked out. */
  lemma FallbackLockoutIsForever(env: Env, s: State, ops: seq<Op>, scope: string)
    requires LegitRun(env, s, ops) && !s.core.kv.expiring
    requires s.core.kv.Count(RateKey(scope)) >= 10
    ensures !EnforceLoginRateLimit(Run(env, s, ops).core.kv, scope).1
  {
    var es := RunIsChain(env, s, ops);
    ChainKeepsCount(env, s, es, scope);
  }

  lemma {:induction false} ChainKeepsCount(env: Env, s: State, es: seq<Effect>, scope: string)
    requires AllowedChain(env, s, es) && !s.core.kv.expiring
    ensures !Chain(env, s, es).core.kv.expiring
    ensures Chain(env, s, es).core.kv.Count(RateKey(scope)) >= s.core.kv.Count(RateKey(scope))
    decreases |es|
  {
    if es == [] {
    } else {
      if !Touches(es[0], RateKey(scope)) {
        EffectFrame(env, s, es[0], RateKey(scope));
      }
      ChainKeepsCount(env, Apply(env, s, es[0]), es[1..], scope);
    }
  }
}
