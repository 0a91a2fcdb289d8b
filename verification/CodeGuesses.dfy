/**
 How often one stored code can be guessed at (auth.service.ts). The counters and blocks belong to a
 triple of purpose, tenant and identifier. A code is also found by its token, under whatever tenant and
 purpose a request names, so the limit on guesses protects a triple, and a code only as far as requests
 name the code's own triple.
 */
module CodeGuesses {
  import opened Prelude
  import opened KeyValue
  import opened AuthKeys
  import opened AuthModel
  import opened AuthEffects
  import opened AttemptBounds
  import OtpLifecycle
  import Text

  /** The request reaches the stored code and presents another one. */
  predicate GuessesAt(env: Env, c: Core, v: VerifyRequest, otp: Otp) {
    && v.tenant.Resolved? && !OtpBlocked(env, c.kv, v.purpose, ScopeOf(v))
    && FindStoredOtp(c.kv, Text.Trim(v.identifier), v.tenant.tenant, v.purpose, v.token) == Some(otp)
    && v.code != otp.code
  }

  predicate OwnTriple(v: VerifyRequest, otp: Otp) {
    v.tenant.Resolved? && v.purpose == otp.purpose && ScopeOf(v) == OtpScope(otp)
  }

  lemma GuessIsCounted(env: Env, c: Core, v: VerifyRequest, otp: Otp)
    requires PlainUsers(c) && GuessesAt(env, c, v, otp)
    ensures VerifyOtp(env, c, v)
            == Next(c.(kv := BumpOtpInvalidAttempts(env, c.kv, v.purpose, ScopeOf(v))), Failed(Unauthorized),
                    [GuessWrong(v.purpose, ScopeOf(v))])
  {
  }

  /** Only a lookup by the code's own token finds it under another triple. */
  lemma OtherTripleNeedsToken(env: Env, c: Core, v: VerifyRequest, otp: Otp)
    requires GuessesAt(env, c, v, otp) && !OwnTriple(v, otp)
    ensures v.token == Some(otp.token) && otp.token != ""
  {
    var byEmail, byPhone := OtpKey(v.purpose, EmailCode, ScopeOf(v)), OtpKey(v.purpose, PhoneCode, ScopeOf(v));
    assert CodeUnder(c.kv, byEmail) == Some(otp) ==> PayloadKey(otp) == byEmail;
    assert CodeUnder(c.kv, byPhone) == Some(otp) ==> PayloadKey(otp) == byPhone;
  }

  /** The counter and the block of the code's triple, and the code itself. */
  ghost predicate SameGuards(a: AuthStore, b: AuthStore, otp: Otp) {
    && SameAt(a, b, OtpKey(otp.purpose, Invalid, OtpScope(otp)))
    && SameAt(a, b, OtpKey(otp.purpose, Blocked, OtpScope(otp)))
    && SameAt(a, b, PayloadKey(otp)) && SameAt(a, b, OtpTokenKey(otp.token))
  }

  lemma CountingChangesCounter(env: Env, kv: AuthStore, p: Purpose, scope: string)
    requires env.production
    ensures var k := OtpKey(p, Invalid, scope); BumpOtpInvalidAttempts(env, kv, p, scope).Look(k) != kv.Look(k)
  {
  }

  /** In production a wrong guess leaves the guards of the code alone exactly when it names another triple. */
  lemma GuessCountsIffOwnTriple(env: Env, c: Core, v: VerifyRequest, otp: Otp)
    requires env.production && PlainUsers(c) && GuessesAt(env, c, v, otp)
    ensures SameGuards(VerifyOtp(env, c, v).core.kv, c.kv, otp) <==> !OwnTriple(v, otp)
  {
    GuessIsCounted(env, c, v, otp);
    if OwnTriple(v, otp) {
      CountingChangesCounter(env, c.kv, v.purpose, ScopeOf(v));
    } else {
      GuessFrame(env, c.kv, v.purpose, ScopeOf(v), OtpKey(otp.purpose, Invalid, OtpScope(otp)));
      GuessFrame(env, c.kv, v.purpose, ScopeOf(v), OtpKey(otp.purpose, Blocked, OtpScope(otp)));
      GuessFrame(env, c.kv, v.purpose, ScopeOf(v), PayloadKey(otp));
      GuessFrame(env, c.kv, v.purpose, ScopeOf(v), OtpTokenKey(otp.token));
    }
  }

  // Whole runs.

  /** The request by which a call presents a code, and the state it meets. */
  function Presented(c: Core, op: Op): Option<(Core, VerifyRequest)> {
    match op
    case DoVerifyOtp(v) => Some((c, v))
    case DoLogin(r) =>
      var (kv, admitted) := EnforceLoginRateLimit(c.kv, Scope(r.ctxTenant, r.identifier));
      if admitted && r.how.ByCode? then Some((c.(kv := kv), CodeLogin(r, r.how.code))) else None
    case _ => None
  }

  predicate OpGuessesAt(env: Env, c: Core, op: Op, otp: Otp) {
    var p := Presented(c, op);
    p.Some? && GuessesAt(env, p.value.0, p.value.1, otp)
  }

  /** How many wrong codes are presented for the stored code. */
  ghost function WrongCodes(env: Env, s: State, ops: seq<Op>, otp: Otp): nat
    requires LegitRun(env, s, ops)
    decreases |ops|
  {
    if ops == [] then 0
    else
      (if OpGuessesAt(env, s.core, ops[0], otp) then 1 else 0)
      + WrongCodes(env, After(env, s, ops[0]), ops[1..], otp)
  }

  /** A triple that requests can name; the scope stands for tenant and identifier. */
  datatype Triple = Triple(purpose: Purpose, scope: string)

  function TripleOf(v: VerifyRequest): Triple
    requires v.tenant.Resolved?
  {
    Triple(v.purpose, ScopeOf(v))
  }

  function GuessKind(x: Triple): Kind {
    Guesses(x.purpose, x.scope)
  }

  /** The triples that wrong codes presented for the stored code name. */
  ghost function Named(env: Env, s: State, ops: seq<Op>, otp: Otp): set<Triple>
    requires LegitRun(env, s, ops)
    decreases |ops|
  {
    if ops == [] then {}
    else
      (if OpGuessesAt(env, s.core, ops[0], otp) then {TripleOf(Presented(s.core, ops[0]).value.1)} else {})
      + Named(env, After(env, s, ops[0]), ops[1..], otp)
  }

  /** How many of the wrong codes name one of the given triples. */
  ghost function WrongUnder(env: Env, s: State, ops: seq<Op>, otp: Otp, triples: set<Triple>): nat
    requires LegitRun(env, s, ops)
    decreases |ops|
  {
    if ops == [] then 0
    else
      (if OpGuessesAt(env, s.core, ops[0], otp) && TripleOf(Presented(s.core, ops[0]).value.1) in triples then 1 else 0)
      + WrongUnder(env, After(env, s, ops[0]), ops[1..], otp, triples)
  }

  /** A call that gives the token of the code names the code's own triple with it. */
  predicate NamesOwnTriple(op: Op, otp: Otp) {
    op.DoVerifyOtp? && op.verify.token == Some(otp.token) && otp.token != "" ==> OwnTriple(op.verify, otp)
  }

  lemma {:induction false} TallyConcat(a: seq<Event>, b: seq<Event>, kind: Kind)
    ensures Tally(a + b, kind) == Tally(a, kind) + Tally(b, kind)
  {
    if b == [] {
      assert a + b == a;
    } else {
      var n := |b| - 1;
      assert (a + b)[..|a + b| - 1] == a + b[..n];
      TallyConcat(a, b[..n], kind);
    }
  }

  lemma PresentedEvents(env: Env, c: Core, op: Op)
    requires PlainUsers(c) && Legit(env, c, op) && Presented(c, op).Some?
    ensures var (d, v) := Presented(c, op).value;
            PlainUsers(d) && (Step(env, c, op).events == VerifyOtp(env, d, v).events
                              || (|Step(env, c, op).events| == 1 + |VerifyOtp(env, d, v).events|
                                  && Step(env, c, op).events[1..] == VerifyOtp(env, d, v).events))
  {
  }

  lemma GuessIsTallied(env: Env, s: State, op: Op, otp: Otp)
    requires PlainUsers(s.core) && Legit(env, s.core, op) && OpGuessesAt(env, s.core, op, otp)
    ensures Tally(Step(env, s.core, op).events, GuessKind(TripleOf(Presented(s.core, op).value.1))) >= 1
  {
    var (d, v) := Presented(s.core, op).value;
    var kind, events := GuessKind(TripleOf(v)), Step(env, s.core, op).events;
    PresentedEvents(env, s.core, op);
    GuessIsCounted(env, d, v, otp);
    var n := |events| - 1;
    assert events[n] == GuessWrong(v.purpose, ScopeOf(v));
    assert Tally(events, kind) == Tally(events[..n], kind) + 1;
  }

  lemma CallTally(env: Env, s: State, op: Op, kind: Kind)
    requires PlainUsers(s.core) && Legit(env, s.core, op)
    ensures Tally(After(env, s, op).log, kind) == Tally(s.log, kind) + Tally(Step(env, s.core, op).events, kind)
  {
    TallyConcat(s.log, Step(env, s.core, op).events, kind);
  }

  /** One triple more covers at most as many wrong codes more as were counted against it. */
  lemma {:induction false} OneTripleMore(env: Env, s: State, ops: seq<Op>, otp: Otp, triples: set<Triple>, x: Triple)
    requires LegitRun(env, s, ops)
    ensures WrongUnder(env, s, ops, otp, triples + {x})
            <= WrongUnder(env, s, ops, otp, triples) + Happened(s, Run(env, s, ops), GuessKind(x))
    decreases |ops|
  {
    if ops == [] {
    } else {
      CallTally(env, s, ops[0], GuessKind(x));
      if OpGuessesAt(env, s.core, ops[0], otp) {
        GuessIsTallied(env, s, ops[0], otp);
      }
      OneTripleMore(env, After(env, s, ops[0]), ops[1..], otp, triples, x);
    }
  }

  lemma {:induction false} NothingUnderNone(env: Env, s: State, ops: seq<Op>, otp: Otp)
    requires LegitRun(env, s, ops)
    ensures WrongUnder(env, s, ops, otp, {}) == 0
    decreases |ops|
  {
    if ops == [] {
    } else {
      NothingUnderNone(env, After(env, s, ops[0]), ops[1..], otp);
    }
  }

  lemma {:induction false} AllUnderNamed(env: Env, s: State, ops: seq<Op>, otp: Otp, triples: set<Triple>)
    requires LegitRun(env, s, ops) && Named(env, s, ops, otp) <= triples
    ensures WrongCodes(env, s, ops, otp) == WrongUnder(env, s, ops, otp, triples)
    decreases |ops|
  {
    if ops == [] {
    } else {
      var t := After(env, s, ops[0]);
      assert Named(env, t, ops[1..], otp) <= Named(env, s, ops, otp);
      assert OpGuessesAt(env, s.core, ops[0], otp) ==>
          TripleOf(Presented(s.core, ops[0]).value.1) in Named(env, s, ops, otp);
      AllUnderNamed(env, t, ops[1..], otp, triples);
    }
  }

  /** The most wrong guesses one triple can see between two states. */
  function MostGuesses(s: State, t: State): int {
    2 * (Span(s, t) / 300_000 + 1) + 2
  }

  ghost predicate Unmatched(s: State, t: State, triples: set<Triple>) {
    forall x :: x in triples ==> Matches(t.log, GuessKind(x)) == Matches(s.log, GuessKind(x))
  }

  lemma OneMoreTimes(n: nat, x: int)
    ensures (n + 1) * x == n * x + x
  {
  }

  lemma {:induction false} BoundUnder(env: Env, s: State, ops: seq<Op>, otp: Otp, triples: set<Triple>, most: int)
    requires LegitRun(env, s, ops)
    requires forall x :: x in triples ==> Happened(s, Run(env, s, ops), GuessKind(x)) <= most
    ensures WrongUnder(env, s, ops, otp, triples) <= |triples| * most
    decreases triples
  {
    if triples == {} {
      NothingUnderNone(env, s, ops, otp);
    } else {
      var x :| x in triples;
      var rest := triples - {x};
      BoundUnder(env, s, ops, otp, rest, most);
      OneTripleMore(env, s, ops, otp, rest, x);
      OneMoreTimes(|rest|, most);
      assert rest + {x} == triples && |triples| == |rest| + 1;
    }
  }

  /**
   In production, in any stretch of a run without a match for the triples that wrong codes presented for a
   stored code name, there are at most two such wrong codes per five minutes and two more for each of them.
   */
  lemma NamedTriplesBoundGuesses(env: Env, s: State, ops: seq<Op>, otp: Otp)
    requires LegitRun(env, s, ops) && env.production
    requires Unmatched(s, Run(env, s, ops), Named(env, s, ops, otp))
    ensures WrongCodes(env, s, ops, otp) <= |Named(env, s, ops, otp)| * MostGuesses(s, Run(env, s, ops))
  {
    var named, t := Named(env, s, ops, otp), Run(env, s, ops);
    AllUnderNamed(env, s, ops, otp, named);
    forall x | x in named ensures Happened(s, t, GuessKind(x)) <= MostGuesses(s, t) {
      GuessBound(env, s, ops, x.purpose, x.scope);
    }
    BoundUnder(env, s, ops, otp, named, MostGuesses(s, t));
  }

  lemma {:induction false} OnlyOwnTripleNamed(env: Env, s: State, ops: seq<Op>, otp: Otp)
    requires LegitRun(env, s, ops) && forall i :: 0 <= i < |ops| ==> NamesOwnTriple(ops[i], otp)
    ensures Named(env, s, ops, otp) <= {Triple(otp.purpose, OtpScope(otp))}
    decreases |ops|
  {
    if ops == [] {
    } else {
      OnlyOwnTripleNamed(env, After(env, s, ops[0]), ops[1..], otp);
      if OpGuessesAt(env, s.core, ops[0], otp) {
        var (d, v) := Presented(s.core, ops[0]).value;
        if !OwnTriple(v, otp) {
          OtherTripleNeedsToken(env, d, v, otp);
        }
      }
    }
  }

  lemma OwnGuessesCounted(env: Env, s: State, ops: seq<Op>, otp: Otp)
    requires LegitRun(env, s, ops) && forall i :: 0 <= i < |ops| ==> NamesOwnTriple(ops[i], otp)
    ensures WrongCodes(env, s, ops, otp) <= Happened(s, Run(env, s, ops), Guesses(otp.purpose, OtpScope(otp)))
  {
    var own := Triple(otp.purpose, OtpScope(otp));
    OnlyOwnTripleNamed(env, s, ops, otp);
    AllUnderNamed(env, s, ops, otp, {own});
    NothingUnderNone(env, s, ops, otp);
    OneTripleMore(env, s, ops, otp, {}, own);
    assert {} + {own} == {own};
  }

  /** When every request that gives the token of a code names the code's own triple with it, that is one triple. */
  lemma OwnTripleBoundsGuesses(env: Env, s: State, ops: seq<Op>, otp: Otp)
    requires LegitRun(env, s, ops) && env.production && forall i :: 0 <= i < |ops| ==> NamesOwnTriple(ops[i], otp)
    requires var kind := Guesses(otp.purpose, OtpScope(otp));
             Matches(Run(env, s, ops).log, kind) == Matches(s.log, kind)
    ensures Span(s, Run(env, s, ops)) >= 0
    ensures WrongCodes(env, s, ops, otp) <= 2 * (Span(s, Run(env, s, ops)) / 300_000 + 1) + 2
  {
    OwnGuessesCounted(env, s, ops, otp);
    GuessBound(env, s, ops, otp.purpose, OtpScope(otp));
  }

  // Without that condition there is no bound.

  function Repeat(n: nat): string {
    if n == 0 then "" else "a" + Repeat(n - 1)
  }

  lemma {:induction false} RepeatLength(n: nat)
    ensures |Repeat(n)| == n
  {
    if n == 0 {
    } else {
      RepeatLength(n - 1);
    }
  }

  ghost predicate NoBlocksFrom(kv: AuthStore, p: Purpose, n: nat) {
    forall k :: k in kv.entries && k.OtpKey? && k.purpose == p && k.slot == Blocked ==> |k.scope| < n
  }

  lemma {:induction false} SomeLength(keys: set<Key>) returns (n: nat)
    ensures forall k :: k in keys && k.OtpKey? ==> |k.scope| < n
    decreases keys
  {
    if keys == {} {
      n := 0;
    } else {
      var k :| k in keys;
      n := SomeLength(keys - {k});
      if k.OtpKey? && |k.scope| >= n {
        n := |k.scope| + 1;
      }
    }
  }

  /** A request by token under a tenant of n characters. */
  function UnderTenant(otp: Otp, identifier: string, code: string, n: nat): VerifyRequest {
    VerifyRequest(identifier, otp.purpose, Resolved(Some(Repeat(n))), code, Some(otp.token), otp.userId, "", "")
  }

  /** The code lies under its token for an existing user, and tenants from n characters on are not blocked. */
  ghost predicate Reachable(c: Core, otp: Otp, identifier: string, n: nat) {
    && CodeUnder(c.kv, OtpTokenKey(otp.token)) == Some(otp) && otp.token != ""
    && Text.Lower(Text.Trim(identifier)) == Text.Lower(otp.identifier)
    && otp.userId.Some? && otp.userId.value in c.users && PlainUsers(c)
    && NoBlocksFrom(c.kv, otp.purpose, n + 1 + |Text.Lower(Text.Trim(identifier))|)
  }

  lemma ScopeUnderTenant(otp: Otp, identifier: string, code: string, n: nat)
    ensures |ScopeOf(UnderTenant(otp, identifier, code, n))| == n + 1 + |Text.Lower(Text.Trim(identifier))|
  {
    RepeatLength(n);
  }

  lemma BlocksAfterGuess(env: Env, kv: AuthStore, p: Purpose, scope: string, n: nat)
    requires NoBlocksFrom(kv, p, n) && |scope| <= n
    ensures NoBlocksFrom(BumpOtpInvalidAttempts(env, kv, p, scope), p, n + 1)
  {
    var kv' := BumpOtpInvalidAttempts(env, kv, p, scope);
    forall k | k in kv'.entries && k.OtpKey? && k.purpose == p && k.slot == Blocked ensures |k.scope| < n + 1 {
      if k != OtpKey(p, Blocked, scope) {
        GuessFrame(env, kv, p, scope, k);
        assert kv.Look(k) == kv'.Look(k);
      }
    }
  }

  lemma WrongUnderTenant(env: Env, s: State, otp: Otp, identifier: string, wrong: string, n: nat)
    requires Reachable(s.core, otp, identifier, n) && wrong != otp.code
    ensures var v := UnderTenant(otp, identifier, wrong, n);
            && GuessesAt(env, s.core, v, otp) && Legit(env, s.core, DoVerifyOtp(v))
            && Reachable(After(env, s, DoVerifyOtp(v)).core, otp, identifier, n + 1)
            && After(env, s, DoVerifyOtp(v)).core.kv.now == s.core.kv.now
  {
    var v := UnderTenant(otp, identifier, wrong, n);
    ScopeUnderTenant(otp, identifier, wrong, n);
    assert !OtpBlocked(env, s.core.kv, v.purpose, ScopeOf(v));
    assert GuessesAt(env, s.core, v, otp);
    GuessIsCounted(env, s.core, v, otp);
    BlocksAfterGuess(env, s.core.kv, v.purpose, ScopeOf(v), n + 1 + |Text.Lower(Text.Trim(identifier))|);
    GuessFrame(env, s.core.kv, v.purpose, ScopeOf(v), OtpTokenKey(otp.token));
  }

  lemma {:induction false} GuessesUnderTenants(env: Env, s: State, otp: Otp, identifier: string, wrong: string, n: nat,
                                               more: nat)
    returns (ops: seq<Op>)
    requires Reachable(s.core, otp, identifier, n) && wrong != otp.code
    ensures LegitRun(env, s, ops) && |ops| == more && WrongCodes(env, s, ops, otp) == more
    ensures Span(s, Run(env, s, ops)) == 0
    ensures Reachable(Run(env, s, ops).core, otp, identifier, n + more)
    decreases more
  {
    if more == 0 {
      ops := [];
    } else {
      var op := DoVerifyOtp(UnderTenant(otp, identifier, wrong, n));
      WrongUnderTenant(env, s, otp, identifier, wrong, n);
      var rest := GuessesUnderTenants(env, After(env, s, op), otp, identifier, wrong, n + 1, more - 1);
      ops := [op] + rest;
      assert ops[1..] == rest;
    }
  }

  /**
   A code that lies under its token, its own triple blocked or not: for every number there is a run of that
   many wrong codes presented for it, within one moment and each under a tenant of its own, after which the
   right code is still accepted.
   */
  lemma TenantsLiftTheBound(env: Env, s: State, otp: Otp, identifier: string, wrong: string, more: nat)
    returns (ops: seq<Op>, right: VerifyRequest)
    requires PlainUsers(s.core) && CodeUnder(s.core.kv, OtpTokenKey(otp.token)) == Some(otp) && otp.token != ""
    requires otp.userId.Some? && otp.userId.value in s.core.users
    requires Text.Lower(Text.Trim(identifier)) == Text.Lower(otp.identifier) && wrong != otp.code
    ensures LegitRun(env, s, ops) && WrongCodes(env, s, ops, otp) == more && Span(s, Run(env, s, ops)) == 0
    ensures var check := CheckCode(env, Run(env, s, ops).core, right); check.Accepted? && check.otp == otp
  {
    var n := SomeLength(s.core.kv.entries.Keys);
    ops := GuessesUnderTenants(env, s, otp, identifier, wrong, n, more);
    var d := Run(env, s, ops).core;
    right := UnderTenant(otp, identifier, otp.code, n + more);
    ScopeUnderTenant(otp, identifier, otp.code, n + more);
    OtpLifecycle.PresentedByTokenIff(env, d, right, otp);
  }
}
