/**
 The string keys of the shared store (auth.service.ts and auth.guard.ts) and what keeps them apart.

 Every key the services build is `Render(k)` for a structured key `k`, and `Parse` recovers `k` from
 the string. So the string store the code runs on is a faithful copy of a store over structured keys
 (`Encodes`), and what is proved about the latter holds of the former.
 */
module AuthKeys {
  import opened Prelude
  import opened KeyValue
  import opened Redis
  import Text

  datatype Slot = EmailCode | PhoneCode | Resend | Invalid | Blocked

  datatype Key =
    | SessionKey(user: string, digest: string)
    | LatestRefreshKey(user: string)
    | OtpKey(purpose: Purpose, slot: Slot, scope: string)
    | OtpTokenKey(token: string)
    | RateKey(scope: string)
    | BlacklistKey(digest: string)
    | OnlineKey(user: string)

  function PurposeText(p: Purpose): string {
    match p
    case LoginCode => "login"
    case AccountVerification => "account_verification"
    case PasswordReset => "password_reset"
  }

  function SlotText(s: Slot): string {
    match s
    case EmailCode => "email"
    case PhoneCode => "phone"
    case Resend => "resend"
    case Invalid => "invalid"
    case Blocked => "blocked"
  }

  function ChannelSlot(c: Channel): Slot {
    match c
    case Email => EmailCode
    case Phone => PhoneCode
  }

  function TenantText(t: Option<string>): string {
    match t
    case Some(text) => text
    case None => "global"
  }

  /** The tail `<tenant or global>:<lower-cased identifier>` shared by the OTP and rate-limit keys. */
  function Scope(tenant: Option<string>, identifier: string): string {
    TenantText(tenant) + ":" + Text.Lower(identifier)
  }

  function Render(k: Key): string {
    match k
    case SessionKey(u, d) => "session:refresh:" + u + ":" + d
    case LatestRefreshKey(u) => "refresh_token:" + u
    case OtpKey(p, s, scope) => "otp:" + PurposeText(p) + ":" + SlotText(s) + ":" + scope
    case OtpTokenKey(t) => "otp:token:" + t
    case RateKey(scope) => "auth:rate:" + scope
    case BlacklistKey(d) => "blacklist:access:" + d
    case OnlineKey(u) => "user:" + u + ":online"
  }

  function Drop(s: string, n: nat): string {
    if n <= |s| then s[n..] else ""
  }

  function ParseSlot(p: Purpose, s: string): Option<Key> {
    if s == "" then None
    else if s[0] == 'e' then Some(OtpKey(p, EmailCode, Drop(s, 6)))
    else if s[0] == 'p' then Some(OtpKey(p, PhoneCode, Drop(s, 6)))
    else if s[0] == 'r' then Some(OtpKey(p, Resend, Drop(s, 7)))
    else if s[0] == 'i' then Some(OtpKey(p, Invalid, Drop(s, 8)))
    else if s[0] == 'b' then Some(OtpKey(p, Blocked, Drop(s, 8)))
    else None
  }

  function ParseOtp(s: string): Option<Key> {
    if s == "" then None
    else if s[0] == 't' then Some(OtpTokenKey(Drop(s, 6)))
    else if s[0] == 'l' then ParseSlot(LoginCode, Drop(s, 6))
    else if s[0] == 'a' then ParseSlot(AccountVerification, Drop(s, 21))
    else if s[0] == 'p' then ParseSlot(PasswordReset, Drop(s, 15))
    else None
  }

  function ParseSession(s: string): Option<Key> {
    var i := IndexOf(s, ':');
    if i < |s| then Some(SessionKey(s[..i], s[i + 1..])) else None
  }

  /** Reads a store key back, family by family: a left inverse of `Render`. */
  function Parse(s: string): Option<Key> {
    if s == "" then None
    else if s[0] == 's' then ParseSession(Drop(s, 16))
    else if s[0] == 'r' then Some(LatestRefreshKey(Drop(s, 14)))
    else if s[0] == 'o' then ParseOtp(Drop(s, 4))
    else if s[0] == 'a' then Some(RateKey(Drop(s, 10)))
    else if s[0] == 'b' then Some(BlacklistKey(Drop(s, 17)))
    else if s[0] == 'u' && |s| >= 12 then Some(OnlineKey(s[5..|s| - 7]))
    else None
  }

  /** Ids as the database makes them: no separator and no character that Redis patterns treat specially. */
  predicate PlainId(u: string) {
    forall i :: 0 <= i < |u| ==> u[i] != ':' && IsLiteral(u[i])
  }

  predicate Plain(k: Key) {
    k.SessionKey? ==> PlainId(k.user)
  }

  lemma Strips(p: string, rest: string)
    ensures p <= p + rest && Drop(p + rest, |p|) == rest
  {
  }

  lemma ParsesSession(u: string, d: string)
    requires PlainId(u)
    ensures ParseSession(u + ":" + d) == Some(SessionKey(u, d))
  {
    FirstSeparator(u, d);
    assert (u + ":" + d)[..|u|] == u && (u + ":" + d)[|u| + 1..] == d;
  }

  lemma ParsesSlot(p: Purpose, slot: Slot, scope: string)
    ensures ParseSlot(p, SlotText(slot) + ":" + scope) == Some(OtpKey(p, slot, scope))
  {
    var head := SlotText(slot) + ":";
    Strips(head, scope);
    assert (head + scope)[0] == head[0] == SlotText(slot)[0];
  }

  lemma ParsesOtp(p: Purpose, slot: Slot, scope: string)
    ensures ParseOtp(PurposeText(p) + ":" + (SlotText(slot) + ":" + scope)) == Some(OtpKey(p, slot, scope))
  {
    var head, tail := PurposeText(p) + ":", SlotText(slot) + ":" + scope;
    Strips(head, tail);
    ParsesSlot(p, slot, scope);
    assert (head + tail)[0] == head[0] == PurposeText(p)[0];
  }

  lemma ParsesOtpKey(p: Purpose, slot: Slot, scope: string)
    ensures Parse(Render(OtpKey(p, slot, scope))) == Some(OtpKey(p, slot, scope))
  {
    var tail := PurposeText(p) + ":" + (SlotText(slot) + ":" + scope);
    Strips("otp:", tail);
    Regroup("otp:" + PurposeText(p) + ":", SlotText(slot), ":", scope);
    Regroup("otp:", PurposeText(p), ":", SlotText(slot) + ":" + scope);
    ParsesOtp(p, slot, scope);
  }

  lemma ParsesOtpTokenKey(t: string)
    ensures Parse(Render(OtpTokenKey(t))) == Some(OtpTokenKey(t))
  {
    Strips("otp:", "token:" + t);
    Strips("token:", t);
    assert Render(OtpTokenKey(t)) == "otp:" + ("token:" + t);
  }

  lemma ParsesSessionKey(u: string, d: string)
    requires PlainId(u)
    ensures Parse(Render(SessionKey(u, d))) == Some(SessionKey(u, d))
  {
    Strips("session:refresh:", u + ":" + d);
    assert Render(SessionKey(u, d)) == "session:refresh:" + (u + ":" + d);
    ParsesSession(u, d);
  }

  lemma ParsesOnlineKey(u: string)
    ensures Parse(Render(OnlineKey(u))) == Some(OnlineKey(u))
  {
    assert Render(OnlineKey(u))[0] == 'u';
    assert Render(OnlineKey(u))[5..|Render(OnlineKey(u))| - 7] == u;
  }

  lemma ParsesOneTailKey(k: Key)
    requires k.LatestRefreshKey? || k.RateKey? || k.BlacklistKey?
    ensures Parse(Render(k)) == Some(k)
  {
    match k
    case LatestRefreshKey(u) => Strips("refresh_token:", u);
    case RateKey(scope) => Strips("auth:rate:", scope);
    case BlacklistKey(d) => Strips("blacklist:access:", d);
  }

  /** Every key the services build is read back exactly, so no two different keys share a string. */
  lemma RoundTrip(k: Key)
    requires Plain(k)
    ensures Parse(Render(k)) == Some(k)
  {
    match k
    case SessionKey(u, d) => ParsesSessionKey(u, d);
    case OtpKey(p, slot, scope) => ParsesOtpKey(p, slot, scope);
    case OtpTokenKey(t) => ParsesOtpTokenKey(t);
    case OnlineKey(u) => ParsesOnlineKey(u);
    case _ => ParsesOneTailKey(k);
  }

  lemma RenderInjective(a: Key, b: Key)
    requires Plain(a) && Plain(b)
    ensures Render(a) == Render(b) <==> a == b
  {
    RoundTrip(a);
    RoundTrip(b);
  }

  predicate PlainTenant(t: Option<string>) {
    t.Some? ==> ':' !in t.value && t.value != "global"
  }

  lemma FirstSeparator(head: string, tail: string)
    requires ':' !in head
    ensures IndexOf(head + ":" + tail, ':') == |head|
  {
    var s := head + ":" + tail;
    assert s[|head|] == ':';
    assert forall j :: 0 <= j < |head| ==> s[j] == head[j];
  }

  /** The longer tenant text swallows the separator and the beginning of the other's identifier. */
  ghost predicate Swallows(long: string, longId: string, short: string, shortId: string) {
    exists p: string :: long == short + ":" + p && shortId == p + ":" + longId
  }

  lemma Swallowed(long: string, longId: string, short: string, shortId: string)
    requires long + ":" + longId == short + ":" + shortId && |long| > |short|
    ensures Swallows(long, longId, short, shortId)
  {
    var s := long + ":" + longId;
    assert long == s[..|long|] && short == s[..|short|] && s[|short|] == ':';
    var p := long[|short| + 1..];
    assert long == short + ":" + p;
    assert shortId == s[|short| + 1..] == p + ":" + longId;
  }

  lemma SwallowingCollides(long: string, longId: string, short: string, shortId: string)
    requires Swallows(long, longId, short, shortId)
    ensures long + ":" + longId == short + ":" + shortId
  {
    var p :| long == short + ":" + p && shortId == p + ":" + longId;
    assert short + ":" + p + ":" + longId == short + ":" + (p + ":" + longId);
  }

  /**
   Two triples share their store keys exactly when tenant texts and lower-cased identifiers agree, or one
   tenant text is the other with a part of the other's identifier attached.
   */
  lemma ScopesAgreeIff(t: Option<string>, i: string, t': Option<string>, i': string)
    ensures var a, b, l, l' := TenantText(t), TenantText(t'), Text.Lower(i), Text.Lower(i');
            Scope(t, i) == Scope(t', i') <==> (a == b && l == l') || Swallows(a, l, b, l') || Swallows(b, l', a, l)
  {
    var a, b, l, l' := TenantText(t), TenantText(t'), Text.Lower(i), Text.Lower(i');
    if a + ":" + l == b + ":" + l' {
      if |a| > |b| {
        Swallowed(a, l, b, l');
      } else if |b| > |a| {
        Swallowed(b, l', a, l);
      } else {
        assert a == (a + ":" + l)[..|a|] && b == (b + ":" + l')[..|b|];
        assert l == (a + ":" + l)[|a| + 1..] && l' == (b + ":" + l')[|b| + 1..];
      }
    }
    if Swallows(a, l, b, l') {
      SwallowingCollides(a, l, b, l');
    }
    if Swallows(b, l', a, l) {
      SwallowingCollides(b, l', a, l);
    }
  }

  /** Tenants that cannot be confused keep their triples apart. */
  lemma ScopeInjective(t: Option<string>, i: string, t': Option<string>, i': string)
    requires PlainTenant(t) && PlainTenant(t')
    ensures Scope(t, i) == Scope(t', i') <==> t == t' && Text.Lower(i) == Text.Lower(i')
  {
    ScopesAgreeIff(t, i, t', i');
    assert ':' !in TenantText(t) && ':' !in TenantText(t');
    assert forall p: string, s: string :: (s + ":" + p)[|s|] == ':';
  }

  /** Two pairs of triples that do share all their keys. */
  lemma ScopesCollide()
    ensures Scope(Some("global"), "x") == Scope(None, "x")
    ensures Scope(Some("a:b"), "c") == Scope(Some("a"), "b:c")
  {
    assert Text.Lower("c") == "c" && Text.Lower("b:c") == "b:c" by {
      assert "c"[1..] == "" && "b:c"[1..] == ":c" && ":c"[1..] == "c";
    }
  }

  function SessionPattern(u: string): string {
    "session:refresh:" + u + ":*"
  }

  /**
   The pattern used to revoke and list sessions picks exactly the user's own session keys, on the
   server and in the fallback alike, even when one id is the beginning of another.
   */
  lemma SessionPatternExact(expiring: bool, u: string, k: Key)
    requires PlainId(u) && Plain(k)
    ensures Selects(expiring, SessionPattern(u), Render(k)) <==> k.SessionKey? && k.user == u
  {
    var p := "session:refresh:" + u + ":";
    assert SessionPattern(u) == p + "*";
    assert Literal(p);
    BackendsAgreeOnPrefixes(expiring, p, Render(k));
    SessionPrefix(u, k);
  }

  lemma SessionPrefix(u: string, k: Key)
    requires PlainId(u) && Plain(k)
    ensures "session:refresh:" + u + ":" <= Render(k) <==> k.SessionKey? && k.user == u
  {
    var p := "session:refresh:" + u + ":";
    if k.SessionKey? && k.user == u {
      assert Render(k) == p + k.digest;
    } else if p <= Render(k) {
      var d := Render(k)[|p|..];
      assert Render(SessionKey(u, d)) == p + d == Render(k);
      RenderInjective(k, SessionKey(u, d));
    }
  }

  // The string store as a copy of a store over structured keys.

  ghost predicate AllPlain(s: Store<Key>) {
    forall k :: k in s.entries ==> Plain(k)
  }

  ghost predicate Encodes(strings: Store<string>, keys: Store<Key>) {
    && strings.now == keys.now && strings.expiring == keys.expiring
    && AllPlain(keys)
    && (forall k :: k in keys.entries ==> Render(k) in strings.entries && strings.entries[Render(k)] == keys.entries[k])
    && (forall x :: x in strings.entries ==>
          Parse(x).Some? && Parse(x).value in keys.entries && Render(Parse(x).value) == x)
  }

  lemma EncodedLook(strings: Store<string>, keys: Store<Key>, k: Key)
    requires Encodes(strings, keys) && Plain(k)
    ensures strings.Look(Render(k)) == keys.Look(k)
  {
    RoundTrip(k);
  }

  lemma EncodedElsewhere(strings: Store<string>, keys: Store<Key>, k: Key)
    requires Encodes(strings, keys) && Plain(k)
    ensures Parse(Render(k)) == Some(k)
    ensures forall k' :: k' in keys.entries ==> (Render(k') == Render(k) <==> k' == k)
    ensures Render(k) in strings.entries <==> k in keys.entries
  {
    RoundTrip(k);
    forall k' | k' in keys.entries ensures Render(k') == Render(k) <==> k' == k {
      RenderInjective(k, k');
    }
  }

  /** Overwriting or adding one entry does the same on the two stores. */
  lemma EncodesUpdate(strings: Store<string>, keys: Store<Key>, k: Key, e: Entry)
    requires Encodes(strings, keys) && Plain(k)
    ensures Encodes(strings.(entries := strings.entries[Render(k) := e]), keys.(entries := keys.entries[k := e]))
  {
    EncodedElsewhere(strings, keys, k);
  }

  lemma EncodesSet(strings: Store<string>, keys: Store<Key>, k: Key, v: Value, ttl: nat)
    requires Encodes(strings, keys) && Plain(k)
    ensures Encodes(strings.Set(Render(k), v, ttl), keys.Set(k, v, ttl))
  {
    EncodesUpdate(strings, keys, k, Entry(v, keys.Deadline(ttl)));
  }

  lemma EncodesDel(strings: Store<string>, keys: Store<Key>, k: Key)
    requires Encodes(strings, keys) && Plain(k)
    ensures Encodes(strings.Del(Render(k)), keys.Del(k))
  {
    EncodedElsewhere(strings, keys, k);
  }

  lemma ExpireIsUpdate(strings: Store<string>, keys: Store<Key>, k: Key, ttl: nat)
    requires strings.now == keys.now && strings.expiring == keys.expiring && ttl > 0
    requires strings.Look(Render(k)) == keys.Look(k)
    ensures if keys.expiring && k in keys.entries then
              var e := keys.entries[k].(expiry := keys.Deadline(ttl));
              && strings.Expire(Render(k), ttl) == strings.(entries := strings.entries[Render(k) := e])
              && keys.Expire(k, ttl) == keys.(entries := keys.entries[k := e])
            else
              strings.Expire(Render(k), ttl) == strings && keys.Expire(k, ttl) == keys
  {
  }

  lemma EncodesExpire(strings: Store<string>, keys: Store<Key>, k: Key, ttl: nat)
    requires Encodes(strings, keys) && Plain(k) && ttl > 0
    ensures Encodes(strings.Expire(Render(k), ttl), keys.Expire(k, ttl))
  {
    EncodedLook(strings, keys, k);
    ExpireIsUpdate(strings, keys, k, ttl);
    if keys.expiring && k in keys.entries {
      EncodesUpdate(strings, keys, k, keys.entries[k].(expiry := keys.Deadline(ttl)));
    }
  }

  lemma IncrIsUpdate(strings: Store<string>, keys: Store<Key>, k: Key)
    requires strings.Look(Render(k)) == keys.Look(k) && keys.Countable(k)
    ensures strings.Countable(Render(k)) && strings.Incr(Render(k)).Count(Render(k)) == keys.Incr(k).Count(k)
    ensures var e := keys.Incr(k).entries[k];
            && keys.Incr(k) == keys.(entries := keys.entries[k := e])
            && strings.Incr(Render(k)) == strings.(entries := strings.entries[Render(k) := e])
  {
  }

  lemma EncodesIncr(strings: Store<string>, keys: Store<Key>, k: Key)
    requires Encodes(strings, keys) && Plain(k) && keys.Countable(k)
    ensures strings.Countable(Render(k)) && strings.Incr(Render(k)).Count(Render(k)) == keys.Incr(k).Count(k)
    ensures Encodes(strings.Incr(Render(k)), keys.Incr(k))
  {
    EncodedLook(strings, keys, k);
    IncrIsUpdate(strings, keys, k);
    EncodesUpdate(strings, keys, k, keys.Incr(k).entries[k]);
  }

  lemma EncodesAdvance(strings: Store<string>, keys: Store<Key>, ms: nat)
    requires Encodes(strings, keys)
    ensures Encodes(strings.Advance(ms), keys.Advance(ms))
  {
  }
}
