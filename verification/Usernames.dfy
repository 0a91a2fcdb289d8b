/**
 The three username normalisers (auth.service.ts `slugify`, admin-seed.service.ts `toUsername`,
 oauth.service.ts `generateUniqueUsername`) and the bounded search for a free name.
 */
module Usernames {
  import opened Prelude
  import opened Text

  predicate AlphaNumeric(c: char) {
    'a' <= c <= 'z' || '0' <= c <= '9'
  }

  // The regular expressions.

  /** The text from the first letter or digit on. */
  function FromAlphaNumeric(s: string): string {
    if s != "" && !AlphaNumeric(s[0]) then FromAlphaNumeric(s[1..]) else s
  }

  /** `.replace(/[^a-z0-9]+/g, '_')` */
  function ReplaceRuns(s: string): string
    decreases |s|
  {
    if s == "" then ""
    else if AlphaNumeric(s[0]) then [s[0]] + ReplaceRuns(s[1..])
    else
      ShorterFrom(s);
      "_" + ReplaceRuns(FromAlphaNumeric(s))
  }

  lemma {:induction false} ShorterFrom(s: string)
    ensures |FromAlphaNumeric(s)| <= |s|
    ensures s != "" && !AlphaNumeric(s[0]) ==> |FromAlphaNumeric(s)| < |s|
  {
    if s == "" || AlphaNumeric(s[0]) {
    } else {
      ShorterFrom(s[1..]);
    }
  }

  /** `.replace(/[^a-z0-9_]/g, '_')` */
  function ReplaceEach(s: string): string {
    if s == "" then "" else [if AlphaNumeric(s[0]) || s[0] == '_' then s[0] else '_'] + ReplaceEach(s[1..])
  }

  function FromOther(s: string): string {
    if s != "" && s[0] == '_' then FromOther(s[1..]) else s
  }

  lemma {:induction false} ShorterOther(s: string)
    ensures |FromOther(s)| <= |s|
    ensures s != "" && s[0] == '_' ==> |FromOther(s)| < |s|
  {
    if s == "" || s[0] != '_' {
    } else {
      ShorterOther(s[1..]);
    }
  }

  /** `.replace(/_+/g, '_')` */
  function CollapseUnderscores(s: string): string
    decreases |s|
  {
    if s == "" then ""
    else if s[0] != '_' then [s[0]] + CollapseUnderscores(s[1..])
    else
      ShorterOther(s);
      "_" + CollapseUnderscores(FromOther(s))
  }

  function WithoutTrailing(s: string): string {
    if s != "" && s[|s| - 1] == '_' then WithoutTrailing(s[..|s| - 1]) else s
  }

  /** `.replace(/^_+|_+$/g, '')` */
  function StripUnderscores(s: string): string {
    WithoutTrailing(FromOther(s))
  }

  /** `slugify` and `toUsername` before their fallbacks for an empty result. */
  function Slug(name: string): string {
    StripUnderscores(ReplaceRuns(Trim(Lower(name))))
  }

  /** The seed normalisation of `generateUniqueUsername` before its fallback. */
  function SeedSlug(seed: string): string {
    StripUnderscores(CollapseUnderscores(ReplaceEach(Lower(seed))))
  }

  // They agree.

  lemma {:induction false} ReplaceEachSkips(s: string)
    ensures ReplaceEach(FromAlphaNumeric(s)) == FromOther(ReplaceEach(s))
  {
    if s == "" || AlphaNumeric(s[0]) {
    } else {
      ReplaceEachSkips(s[1..]);
      assert ReplaceEach(s)[1..] == ReplaceEach(s[1..]);
    }
  }

  /** Replacing runs is replacing each character and then collapsing. */
  lemma {:induction false} RunsAreCollapsed(s: string)
    ensures ReplaceRuns(s) == CollapseUnderscores(ReplaceEach(s))
    decreases |s|
  {
    if s == "" {
    } else {
      assert ReplaceEach(s)[1..] == ReplaceEach(s[1..]);
      if AlphaNumeric(s[0]) {
        RunsAreCollapsed(s[1..]);
      } else {
        ShorterFrom(s);
        ReplaceEachSkips(s);
        RunsAreCollapsed(FromAlphaNumeric(s));
      }
    }
  }

  lemma {:induction false} LeadingRunVanishes(s: string)
    ensures FromOther(ReplaceRuns(s)) == ReplaceRuns(FromAlphaNumeric(s))
  {
    if s == "" || AlphaNumeric(s[0]) {
    } else {
      StartsAlphaNumeric(s);
      assert ReplaceRuns(s)[1..] == ReplaceRuns(FromAlphaNumeric(s));
    }
  }

  lemma {:induction false} StartsAlphaNumeric(s: string)
    ensures FromAlphaNumeric(s) != "" ==> AlphaNumeric(FromAlphaNumeric(s)[0])
    ensures FromAlphaNumeric(FromAlphaNumeric(s)) == FromAlphaNumeric(s)
  {
    if s == "" || AlphaNumeric(s[0]) {
    } else {
      StartsAlphaNumeric(s[1..]);
    }
  }

  lemma {:induction false} TrimmedStart(s: string)
    ensures FromAlphaNumeric(TrimStart(s)) == FromAlphaNumeric(s)
  {
    if s == "" || !IsSpace(s[0]) {
    } else {
      TrimmedStart(s[1..]);
    }
  }

  lemma {:induction false} FromKeepsEnd(s: string, c: char)
    requires !AlphaNumeric(c)
    ensures FromAlphaNumeric(s + [c]) == if FromAlphaNumeric(s) == "" then "" else FromAlphaNumeric(s) + [c]
  {
    if s == "" {
      assert (s + [c])[1..] == "";
    } else if !AlphaNumeric(s[0]) {
      assert (s + [c])[1..] == s[1..] + [c];
      FromKeepsEnd(s[1..], c);
    }
  }

  /** One more separator at the end adds at most one underscore at the end. */
  lemma {:induction false} TrailingRunVanishes(s: string, c: char)
    requires !AlphaNumeric(c)
    ensures ReplaceRuns(s + [c]) == ReplaceRuns(s) || ReplaceRuns(s + [c]) == ReplaceRuns(s) + "_"
    decreases |s|
  {
    if s == "" {
      assert s + [c] == [c] && [c][1..] == "";
      assert FromAlphaNumeric([c]) == FromAlphaNumeric("") == "";
      assert ReplaceRuns([c]) == "_" + ReplaceRuns("") == "_";
    } else if AlphaNumeric(s[0]) {
      assert (s + [c])[1..] == s[1..] + [c];
      TrailingRunVanishes(s[1..], c);
    } else {
      FromKeepsEnd(s, c);
      ShorterFrom(s);
      TrailingRunVanishes(FromAlphaNumeric(s), c);
    }
  }

  lemma WithoutOneMore(s: string)
    ensures WithoutTrailing(s + "_") == WithoutTrailing(s)
  {
    assert (s + "_")[..|s|] == s;
  }

  lemma {:induction false} FromCommutesWithTrimEnd(s: string)
    ensures WithoutTrailing(ReplaceRuns(FromAlphaNumeric(TrimEnd(s))))
            == WithoutTrailing(ReplaceRuns(FromAlphaNumeric(s)))
    decreases |s|
  {
    if s == "" || !IsSpace(s[|s| - 1]) {
    } else {
      var front, last := s[..|s| - 1], s[|s| - 1];
      assert s == front + [last];
      FromCommutesWithTrimEnd(front);
      FromKeepsEnd(front, last);
      TrailingRunVanishes(FromAlphaNumeric(front), last);
      WithoutOneMore(ReplaceRuns(FromAlphaNumeric(front)));
    }
  }

  /** On every string the three normalisers agree before their fallbacks. */
  lemma NormalizersAgree(name: string)
    ensures Slug(name) == SeedSlug(name)
  {
    var s := Lower(name);
    RunsAreCollapsed(s);
    LeadingRunVanishes(s);
    LeadingRunVanishes(Trim(s));
    FromCommutesWithTrimEnd(TrimStart(s));
    TrimmedStart(s);
  }

  // What they return.

  /** The letters and digits that the text begins with. */
  function FirstWord(s: string): (w: string)
    ensures w <= s && forall i :: 0 <= i < |w| ==> AlphaNumeric(w[i])
    ensures |w| < |s| ==> !AlphaNumeric(s[|w|])
  {
    if s == "" || !AlphaNumeric(s[0]) then "" else [s[0]] + FirstWord(s[1..])
  }

  /** The runs of letters and digits in a text. */
  function Words(s: string): seq<string>
    decreases |s|
  {
    ShorterFrom(s);
    StartsAlphaNumeric(s);
    var t := FromAlphaNumeric(s);
    if t == "" then [] else [FirstWord(t)] + Words(t[|FirstWord(t)|..])
  }

  function JoinedWords(words: seq<string>): string {
    if words == [] then ""
    else if |words| == 1 then words[0]
    else words[0] + "_" + JoinedWords(words[1..])
  }

  lemma {:induction false} WordIsKept(w: string, u: string)
    requires forall i :: 0 <= i < |w| ==> AlphaNumeric(w[i])
    ensures ReplaceRuns(w + u) == w + ReplaceRuns(u)
  {
    if w == "" {
      assert w + u == u;
    } else {
      assert (w + u)[1..] == w[1..] + u;
      WordIsKept(w[1..], u);
    }
  }

  lemma {:induction false} TrailingOf(a: string, b: string)
    requires WithoutTrailing(b) != ""
    ensures WithoutTrailing(a + b) == a + WithoutTrailing(b)
  {
    if b[|b| - 1] != '_' {
    } else {
      assert (a + b)[..|a + b| - 1] == a + b[..|b| - 1];
      TrailingOf(a, b[..|b| - 1]);
    }
  }

  lemma WordHasNoTrailing(w: string)
    requires w != "" && AlphaNumeric(w[|w| - 1])
    ensures WithoutTrailing(w) == w && WithoutTrailing(w + "_") == w
  {
    assert (w + "_")[..|w|] == w;
  }

  lemma {:induction false} StartsWithoutUnderscore(s: string)
    requires s != "" && s[0] != '_'
    ensures WithoutTrailing(s) != ""
  {
    if s[|s| - 1] != '_' {
    } else {
      StartsWithoutUnderscore(s[..|s| - 1]);
    }
  }

  lemma {:induction false} RunsAreWords(s: string)
    ensures WithoutTrailing(ReplaceRuns(FromAlphaNumeric(s))) == JoinedWords(Words(s))
    decreases |s|
  {
    var t := FromAlphaNumeric(s);
    ShorterFrom(s);
    StartsAlphaNumeric(s);
    if t == "" {
    } else {
      var w := FirstWord(t);
      var u := t[|w|..];
      assert t == w + u && w != "";
      WordIsKept(w, u);
      WordHasNoTrailing(w);
      RunsAreWords(u);
      var rest := ReplaceRuns(FromAlphaNumeric(u));
      if u == "" {
        assert ReplaceRuns(t) == w && Words(u) == [];
      } else {
        ShorterFrom(u);
        StartsAlphaNumeric(u);
        assert ReplaceRuns(t) == w + ("_" + rest);
        if FromAlphaNumeric(u) == "" {
          assert "_" + rest == "_" && Words(u) == [];
        } else {
          assert rest[0] == FromAlphaNumeric(u)[0] && Words(u) != [];
          StartsWithoutUnderscore(rest);
          TrailingOf(w + "_", rest);
          assert w + ("_" + rest) == w + "_" + rest;
          assert Words(s)[1..] == Words(u) && |Words(s)| > 1;
        }
      }
    }
  }

  /** A slug is the words of the lower-cased name, joined by single underscores. */
  lemma SlugIsWords(name: string)
    ensures Slug(name) == JoinedWords(Words(Lower(name)))
  {
    var s := Lower(name);
    LeadingRunVanishes(Trim(s));
    FromCommutesWithTrimEnd(TrimStart(s));
    TrimmedStart(s);
    RunsAreWords(s);
  }

  // They are idempotent.

  /** Letters and digits with single underscores between them. */
  predicate Canonical(s: string) {
    && (forall i :: 0 <= i < |s| ==> AlphaNumeric(s[i]) || s[i] == '_')
    && (forall i :: 0 <= i < |s| - 1 ==> s[i] != '_' || s[i + 1] != '_')
    && (s != "" ==> s[0] != '_' && s[|s| - 1] != '_')
  }

  /** As `Canonical`, but an underscore may end or begin the text. */
  predicate Collapsed(s: string) {
    && (forall i :: 0 <= i < |s| ==> AlphaNumeric(s[i]) || s[i] == '_')
    && (forall i :: 0 <= i < |s| - 1 ==> s[i] != '_' || s[i + 1] != '_')
  }

  lemma {:induction false} RunsCollapse(s: string)
    ensures Collapsed(ReplaceRuns(s))
    ensures s != "" && AlphaNumeric(s[0]) ==> ReplaceRuns(s) != "" && ReplaceRuns(s)[0] != '_'
    decreases |s|
  {
    if s == "" {
    } else {
      if AlphaNumeric(s[0]) {
        RunsCollapse(s[1..]);
      } else {
        ShorterFrom(s);
        StartsAlphaNumeric(s);
        RunsCollapse(FromAlphaNumeric(s));
      }
    }
  }

  lemma {:induction false} StrippingIsCanonical(s: string)
    requires Collapsed(s) && (s != "" ==> s[0] != '_')
    ensures Canonical(WithoutTrailing(s))
  {
    if s == "" || s[|s| - 1] != '_' {
    } else {
      StrippingIsCanonical(s[..|s| - 1]);
    }
  }

  lemma SlugIsCanonical(name: string)
    ensures Canonical(Slug(name))
  {
    var s := Trim(Lower(name));
    LeadingRunVanishes(s);
    StartsAlphaNumeric(s);
    RunsCollapse(FromAlphaNumeric(s));
    StrippingIsCanonical(ReplaceRuns(FromAlphaNumeric(s)));
  }

  lemma {:induction false} LowerKeeps(s: string)
    requires forall i :: 0 <= i < |s| ==> AlphaNumeric(s[i]) || s[i] == '_'
    ensures Lower(s) == s
  {
    if s == "" {
    } else {
      LowerKeeps(s[1..]);
    }
  }

  lemma {:induction false} CollapseKeeps(s: string)
    requires Collapsed(s)
    ensures ReplaceEach(s) == s && CollapseUnderscores(s) == s
    decreases |s|
  {
    if s == "" {
    } else {
      CollapseKeeps(s[1..]);
      if s[0] == '_' {
        assert FromOther(s) == s[1..] by {
          if |s| > 1 { assert s[1] != '_'; }
        }
      }
    }
  }

  lemma CanonicalIsKept(s: string)
    requires Canonical(s)
    ensures SeedSlug(s) == s
  {
    LowerKeeps(s);
    CollapseKeeps(s);
  }

  /** What a normaliser returns is unchanged by any of them. */
  lemma NormalizersAreIdempotent(name: string)
    ensures Slug(Slug(name)) == Slug(name) && SeedSlug(SeedSlug(name)) == SeedSlug(name)
  {
    NormalizersAgree(name);
    NormalizersAgree(Slug(name));
    SlugIsCanonical(name);
    CanonicalIsKept(Slug(name));
  }

  // The search for a free OAuth username.

  predicate UsernameCharacters(s: string) {
    forall i :: 0 <= i < |s| ==> AlphaNumeric(s[i]) || s[i] == '_'
  }

  function Digit(n: nat): char
    requires n < 10
  {
    (n + '0' as int) as char
  }

  function FourDigits(n: nat): string
    requires 1000 <= n <= 9999
  {
    [Digit(n / 1000), Digit(n / 100 % 10), Digit(n / 10 % 10), Digit(n % 10)]
  }

  function Value(c: char): int {
    c as int - '0' as int
  }

  lemma DigitIs(n: nat)
    requires n < 10
    ensures Value(Digit(n)) == n
  {
  }

  lemma Places(n: nat)
    ensures n == 1000 * (n / 1000) + 100 * (n / 100 % 10) + 10 * (n / 10 % 10) + n % 10
  {
    assert n == 10 * (n / 10) + n % 10;
    assert n / 10 == 10 * (n / 100) + n / 10 % 10;
    assert n / 100 == 10 * (n / 1000) + n / 100 % 10;
  }

  lemma FourDigitsSpell(n: nat)
    requires 1000 <= n <= 9999
    ensures var d := FourDigits(n);
            |d| == 4 && n == 1000 * Value(d[0]) + 100 * Value(d[1]) + 10 * Value(d[2]) + Value(d[3])
  {
    Places(n);
    DigitIs(n / 1000);
    DigitIs(n / 100 % 10);
    DigitIs(n / 10 % 10);
    DigitIs(n % 10);
  }

  /** The name made of the words of a seed. */
  lemma BaseOfSeed(seed: string)
    ensures var words := JoinedWords(Words(Lower(seed)));
            UsernameBase(seed) == if words == "" then "user"
                                  else if |words| < 3 then "user_" + words
                                  else if |words| <= 24 then words
                                  else words[..24]
  {
    NormalizersAgree(seed);
    SlugIsWords(seed);
  }

  /** The first 24 characters of the normalised seed, padded to at least three. */
  function UsernameBase(seed: string): string {
    var raw := if SeedSlug(seed) == "" then "user" else SeedSlug(seed);
    var long := if |raw| >= 3 then raw else "user_" + raw;
    if |long| > 24 then long[..24] else long
  }

  lemma BaseIsWellFormed(seed: string)
    ensures UsernameCharacters(UsernameBase(seed)) && 3 <= |UsernameBase(seed)| <= 24
  {
    NormalizersAgree(seed);
    SlugIsCanonical(seed);
  }

  function Candidate(seed: string, draws: seq<nat>, i: nat): string
    requires i <= |draws| && forall j :: 0 <= j < |draws| ==> 1000 <= draws[j] <= 9999
  {
    if i == 0 then UsernameBase(seed) else UsernameBase(seed) + "_" + FourDigits(draws[i - 1])
  }

  /**
   Probes at most twenty names. The result is the first free one, of 3 to 29 characters from
   [a-z0-9_]; none is returned only when all twenty were taken.
   */
  method GenerateUniqueUsername(seed: string, taken: set<string>, draws: seq<nat>) returns (name: Option<string>)
    requires |draws| >= 20 && forall j :: 0 <= j < |draws| ==> 1000 <= draws[j] <= 9999
    ensures name.Some? ==>
              name.value !in taken && UsernameCharacters(name.value) && 3 <= |name.value| <= 29
              && exists i :: 0 <= i < 20 && name.value == Candidate(seed, draws, i)
                             && forall j :: 0 <= j < i ==> Candidate(seed, draws, j) in taken
    ensures name.None? <==> forall i :: 0 <= i < 20 ==> Candidate(seed, draws, i) in taken
  {
    BaseIsWellFormed(seed);
    var base := UsernameBase(seed);
    var candidate := base;
    var tries := 0;
    while tries < 20
      invariant 0 <= tries <= 20 && candidate == Candidate(seed, draws, tries)
      invariant UsernameCharacters(candidate) && 3 <= |candidate| <= 29
      invariant forall j :: 0 <= j < tries ==> Candidate(seed, draws, j) in taken
    {
      if candidate !in taken {
        assert candidate == Candidate(seed, draws, tries);
        return Some(candidate);
      }
      candidate := base + "_" + FourDigits(draws[tries]);
      tries := tries + 1;
    }
    name := None;
  }
}
