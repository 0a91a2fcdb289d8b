/**
 The bounds on logins, codes and wrong guesses are attained by runs of the service from the empty store,
 for spans of any length: what an earlier window has left, then all of each window, and with the last
 wrong guess the one that closes its window.
 */
module BoundAttained {
  import opened Prelude
  import opened KeyValue
  import opened AuthKeys
  import opened AuthModel
  import opened AuthEffects
  import opened AttemptBounds
  import FW = FixedWindow
  import Text

  /** A call that is made again and again: a login, a request for a login code, or a guess at no code. */
  datatype Caller = TriesLogin(login: LoginRequest) | AsksCode(send: SendRequest) | GuessesCode(verify: VerifyRequest)

  predicate Suits(h: Caller) {
    match h
    case TriesLogin(r) => r.how.WithoutPassword?
    case AsksCode(r) => r.tenant.Resolved? && r.purpose == Some(LoginCode) && r.channel.Some?
    case GuessesCode(v) => v.tenant.Resolved?
  }

  function OpOf(h: Caller): Op {
    match h
    case TriesLogin(r) => DoLogin(r)
    case AsksCode(r) => DoSendOtp(r)
    case GuessesCode(v) => DoVerifyOtp(v)
  }

  /** What the call counts against. */
  function KindOf(h: Caller): Kind
    requires Suits(h)
  {
    match h
    case TriesLogin(r) => Logins(Scope(r.ctxTenant, r.identifier))
    case AsksCode(r) => Codes(LoginCode, Scope(r.tenant.tenant, Text.Trim(r.identifier)))
    case GuessesCode(v) => Guesses(v.purpose, ScopeOf(v))
  }

  /** As long as no code is stored, every code presented is wrong. */
  ghost predicate Ready(s: State, h: Caller) {
    PlainUsers(s.core) && (h.GuessesCode? ==> forall k :: CodeUnder(s.core.kv, k) == None)
  }

  function EffectOf(s: State, h: Caller): Effect
    requires Suits(h)
  {
    match h
    case TriesLogin(r) => CountLogin(Scope(r.ctxTenant, r.identifier))
    case AsksCode(r) => SendCode(CodeFor(s.core, r))
    case GuessesCode(v) => CountGuess(v.purpose, ScopeOf(v))
  }

  lemma GuessIsEffect(env: Env, s: State, v: VerifyRequest)
    requires env.production && v.tenant.Resolved? && Ready(s, GuessesCode(v))
    requires !OtpBlocked(env, s.core.kv, v.purpose, ScopeOf(v))
    ensures After(env, s, DoVerifyOtp(v)) == Apply(env, s, CountGuess(v.purpose, ScopeOf(v)))
    ensures Ready(After(env, s, DoVerifyOtp(v)), GuessesCode(v))
  {
    assert FindStoredOtp(s.core.kv, Text.Trim(v.identifier), v.tenant.tenant, v.purpose, v.token) == None;
    var t := After(env, s, DoVerifyOtp(v));
    forall k ensures CodeUnder(t.core.kv, k) == None {
      assert CodeUnder(s.core.kv, k) == None;
      if k !in GuardKeys(v.purpose, ScopeOf(v)) {
        GuessFrame(env, s.core.kv, v.purpose, ScopeOf(v), k);
        assert t.core.kv.Look(k) == s.core.kv.Look(k);
      }
    }
  }

  lemma SendIsEffect(env: Env, s: State, r: SendRequest)
    requires Suits(AsksCode(r)) && PlainUsers(s.core)
    requires !OtpBlocked(env, s.core.kv, LoginCode, Scope(r.tenant.tenant, Text.Trim(r.identifier)))
    ensures After(env, s, DoSendOtp(r)) == Apply(env, s, SendCode(CodeFor(s.core, r)))
  {
  }

  lemma LoginIsEffect(env: Env, s: State, r: LoginRequest)
    requires r.how.WithoutPassword? && PlainUsers(s.core)
    ensures After(env, s, DoLogin(r)) == Apply(env, s, CountLogin(Scope(r.ctxTenant, r.identifier)))
  {
    LoginIsCounted(env, s, r);
    assert To(s, Login(env, s.core, r)).core == Apply(env, s, CountLogin(Scope(r.ctxTenant, r.identifier))).core;
  }

  /** While nobody is barred the call has just the effect that is counted. */
  lemma CallIsEffect(env: Env, s: State, h: Caller)
    requires env.production && Suits(h) && Ready(s, h) && !MeterOf(s.core.kv, KindOf(h)).barred
    ensures var e := EffectOf(s, h);
            && Allowed(env, s.core, e) && Legit(env, s.core, OpOf(h))
            && After(env, s, OpOf(h)) == Apply(env, s, e) && Ready(After(env, s, OpOf(h)), h)
            && ActsOf(env, s.core.kv, e, KindOf(h)) == [FW.Hit]
            && Matches(Apply(env, s, e).log, KindOf(h)) == Matches(s.log, KindOf(h))
  {
    EffectEvent(env, s, EffectOf(s, h));
    match h
    case TriesLogin(r) => LoginIsEffect(env, s, r);
    case AsksCode(r) => SendIsEffect(env, s, r);
    case GuessesCode(v) => GuessIsEffect(env, s, v);
  }

  lemma WaitIsEffect(env: Env, s: State, h: Caller, ms: nat)
    requires Suits(h) && Ready(s, h)
    ensures After(env, s, DoElapse(ms)) == Apply(env, s, Wait(ms)) && Ready(After(env, s, DoElapse(ms)), h)
    ensures Matches(Apply(env, s, Wait(ms)).log, KindOf(h)) == Matches(s.log, KindOf(h))
  {
    EffectEvent(env, s, Wait(ms));
    if h.GuessesCode? {
      forall k ensures CodeUnder(Elapse(s.core.kv, ms), k) == None {
        assert CodeUnder(s.core.kv, k) == None;
      }
    }
  }

  /** A stretch of a run that does to the meter what the acts do. */
  ghost predicate Performs(env: Env, s: State, ops: seq<Op>, h: Caller, acts: seq<FW.Act>)
    requires Suits(h)
  {
    var l, m, kind := LimitsOf(KindOf(h)), MeterOf(s.core.kv, KindOf(h)), KindOf(h);
    && LegitRun(env, s, ops) && Ready(Run(env, s, ops), h)
    && MeterOf(Run(env, s, ops).core.kv, kind) == FW.End(l, m, acts)
    && Happened(s, Run(env, s, ops), kind) == FW.TotalAdmitted(l, m, acts)
    && Matches(Run(env, s, ops).log, kind) == Matches(s.log, kind)
  }

  /** One call that does to the meter what the act does. */
  ghost predicate PerformsOne(env: Env, s: State, op: Op, h: Caller, a: FW.Act)
    requires Suits(h)
  {
    && PlainUsers(s.core) && Legit(env, s.core, op)
    && var t, kind := After(env, s, op), KindOf(h);
       var l, m := LimitsOf(kind), MeterOf(s.core.kv, kind);
       && Ready(t, h) && MeterOf(t.core.kv, kind) == FW.Next(l, m, a)
       && Happened(s, t, kind) == FW.Admitted(l, m, a)
       && Matches(t.log, kind) == Matches(s.log, kind)
  }

  lemma FollowsPerforms(env: Env, s: State, op: Op, e: Effect, h: Caller, a: FW.Act)
    requires Suits(h) && PlainUsers(s.core) && Legit(env, s.core, op) && Allowed(env, s.core, e)
    requires After(env, s, op) == Apply(env, s, e) && Ready(After(env, s, op), h)
    requires ActsOf(env, s.core.kv, e, KindOf(h)) == [a] && Follows(env, s, e, KindOf(h))
    requires Matches(Apply(env, s, e).log, KindOf(h)) == Matches(s.log, KindOf(h))
    ensures PerformsOne(env, s, op, h, a)
  {
    SingleAct(LimitsOf(KindOf(h)), MeterOf(s.core.kv, KindOf(h)), a);
  }

  lemma HitPerforms(env: Env, s: State, h: Caller)
    requires env.production && Suits(h) && Ready(s, h) && !MeterOf(s.core.kv, KindOf(h)).barred
    ensures PerformsOne(env, s, OpOf(h), h, FW.Hit)
  {
    CallIsEffect(env, s, h);
    EffectFollows(env, s, EffectOf(s, h), KindOf(h));
    FollowsPerforms(env, s, OpOf(h), EffectOf(s, h), h, FW.Hit);
  }

  lemma PassPerforms(env: Env, s: State, h: Caller, ms: nat)
    requires env.production && Suits(h) && Ready(s, h)
    ensures PerformsOne(env, s, DoElapse(ms), h, FW.Pass(ms))
  {
    WaitIsEffect(env, s, h, ms);
    WaitFollows(env, s, ms, KindOf(h));
    FollowsPerforms(env, s, DoElapse(ms), Wait(ms), h, FW.Pass(ms));
  }

  lemma OneAct(env: Env, s: State, h: Caller, a: FW.Act) returns (op: Op)
    requires env.production && Suits(h) && Ready(s, h) && !a.Shut? && FW.Enabled(MeterOf(s.core.kv, KindOf(h)), a)
    ensures PerformsOne(env, s, op, h, a)
  {
    match a {
      case Hit =>
        op := OpOf(h);
        HitPerforms(env, s, h);
      case Pass(ms) =>
        op := DoElapse(ms);
        PassPerforms(env, s, h, ms);
    }
  }

  lemma PerformsMore(env: Env, s: State, op: Op, rest: seq<Op>, h: Caller, a: FW.Act, acts: seq<FW.Act>)
    requires Suits(h) && PerformsOne(env, s, op, h, a) && Performs(env, After(env, s, op), rest, h, acts)
    ensures Performs(env, s, [op] + rest, h, [a] + acts)
  {
    RunPrepends(env, s, op, rest);
    assert ([a] + acts)[1..] == acts;
  }

  lemma RunPrepends(env: Env, s: State, op: Op, rest: seq<Op>)
    requires PlainUsers(s.core) && Legit(env, s.core, op) && LegitRun(env, After(env, s, op), rest)
    ensures LegitRun(env, s, [op] + rest) && Run(env, s, [op] + rest) == Run(env, After(env, s, op), rest)
  {
    assert ([op] + rest)[1..] == rest;
  }

  lemma {:induction false} Perform(env: Env, s: State, h: Caller, acts: seq<FW.Act>) returns (ops: seq<Op>)
    requires env.production && Suits(h) && Ready(s, h)
    requires FW.EnabledAll(LimitsOf(KindOf(h)), MeterOf(s.core.kv, KindOf(h)), acts)
    requires forall i :: 0 <= i < |acts| ==> !acts[i].Shut?
    ensures Performs(env, s, ops, h, acts)
    decreases |acts|
  {
    if acts == [] {
      ops := [];
    } else {
      var op := OneAct(env, s, h, acts[0]);
      var rest := Perform(env, After(env, s, op), h, acts[1..]);
      PerformsMore(env, s, op, rest, h, acts[0], acts[1..]);
      assert acts == [acts[0]] + acts[1..];
      ops := [op] + rest;
    }
  }

  lemma {:induction false} HitsDoNotShut(n: nat)
    ensures forall i :: 0 <= i < |FW.Hits(n)| ==> FW.Hits(n)[i] == FW.Hit
  {
    if n == 0 {
    } else {
      HitsDoNotShut(n - 1);
    }
  }

  lemma {:induction false} RoundsDoNotShut(l: FW.Limits, n: nat)
    ensures forall i :: 0 <= i < |FW.Rounds(l, n)| ==> !FW.Rounds(l, n)[i].Shut?
  {
    HitsDoNotShut(if n == 0 then l.quota + l.Bonus(1) else l.quota);
    if n == 0 {
    } else {
      RoundsDoNotShut(l, n - 1);
    }
  }

  /** A first call, and all of the window it opens but a millisecond. */
  lemma AlmostAWindow(env: Env, s: State, h: Caller) returns (before: seq<Op>)
    requires env.production && Suits(h) && Ready(s, h) && FW.Untouched(MeterOf(s.core.kv, KindOf(h)))
    ensures LegitRun(env, s, before) && Ready(Run(env, s, before), h)
    ensures FW.AtLastMoment(MeterOf(Run(env, s, before).core.kv, KindOf(h)))
  {
    var l := LimitsOf(KindOf(h));
    var end := FW.OpeningYields(l, MeterOf(s.core.kv, KindOf(h)));
    before := Perform(env, s, h, FW.Opening(l));
    PerformedEnd(env, s, before, h, FW.Opening(l), end, 1);
  }

  lemma PerformedEnd(env: Env, s: State, ops: seq<Op>, h: Caller, acts: seq<FW.Act>, end: FW.Meter, x: nat)
    requires Suits(h) && Performs(env, s, ops, h, acts)
    requires FW.Yields(LimitsOf(KindOf(h)), MeterOf(s.core.kv, KindOf(h)), acts, end, x)
    ensures LegitRun(env, s, ops) && MeterOf(Run(env, s, ops).core.kv, KindOf(h)) == end
  {
  }

  /** From such a state a span of n windows sees as many calls counted as the bound allows. */
  lemma SpanAttained(env: Env, s: State, h: Caller, n: nat) returns (ops: seq<Op>)
    requires env.production && Suits(h) && Ready(s, h)
    requires FW.AtLastMoment(MeterOf(s.core.kv, KindOf(h)))
    ensures Attains(env, s, ops, KindOf(h), n)
  {
    var kind := KindOf(h);
    var l, m := LimitsOf(kind), MeterOf(s.core.kv, kind);
    var end := FW.SpanBoundAttained(l, m, n);
    HitsDoNotShut(l.quota - 1);
    RoundsDoNotShut(l, n);
    ops := Perform(env, s, h, FW.Fullest(l, n));
    PerformedAttains(env, s, ops, h, FW.Fullest(l, n), end, n);
  }

  lemma PerformedAttains(env: Env, s: State, ops: seq<Op>, h: Caller, acts: seq<FW.Act>, end: FW.Meter, n: nat)
    requires Suits(h) && Performs(env, s, ops, h, acts)
    requires var l, m := LimitsOf(KindOf(h)), MeterOf(s.core.kv, KindOf(h));
             && end.now >= m.now && (end.now - m.now) / l.window == n
             && FW.Yields(l, m, acts, end, FW.Ceiling(l, end.now - m.now))
    ensures Attains(env, s, ops, KindOf(h), n)
  {
    MostIsCeiling(KindOf(h), end.now - s.core.kv.now);
    assert MeterOf(Run(env, s, ops).core.kv, KindOf(h)).now == Run(env, s, ops).core.kv.now;
  }

  /** Without a match, the stretch is of n windows and sees as many as the bound allows. */
  ghost predicate Attains(env: Env, s: State, ops: seq<Op>, kind: Kind, n: nat) {
    && LegitRun(env, s, ops) && Matches(Run(env, s, ops).log, kind) == Matches(s.log, kind)
    && Span(s, Run(env, s, ops)) >= 0 && Span(s, Run(env, s, ops)) / LimitsOf(kind).window == n
    && Happened(s, Run(env, s, ops), kind) == Most(kind, Span(s, Run(env, s, ops)))
  }

  lemma FreshIsReady(now: nat, h: Caller)
    requires Suits(h)
    ensures Ready(Fresh(now, true), h)
    ensures FW.Untouched(MeterOf(Fresh(now, true).core.kv, KindOf(h)))
  {
  }

  /**
   From the empty store: a run after which a span of n windows sees as many logins, codes or wrong guesses
   as the bound allows.
   */
  lemma BoundsAttained(env: Env, now: nat, h: Caller, n: nat) returns (before: seq<Op>, ops: seq<Op>)
    requires env.production && Suits(h)
    ensures LegitRun(env, Fresh(now, true), before)
    ensures Attains(env, Run(env, Fresh(now, true), before), ops, KindOf(h), n)
  {
    FreshIsReady(now, h);
    before := AlmostAWindow(env, Fresh(now, true), h);
    ops := SpanAttained(env, Run(env, Fresh(now, true), before), h, n);
  }
}
