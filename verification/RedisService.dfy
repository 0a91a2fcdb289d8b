/** `RedisService`: one interface over a Redis server and its in-process fallback (src/redis/redis.service.ts). */
module Redis {
  import opened Prelude
  import opened KeyValue

  /** The part of a character class after `[` (and `^`): does it list `c`, and what follows the `]`? */
  function ClassHit(p: string, c: char): (r: (bool, string))
    ensures |r.1| <= |p|
  {
    if p == "" then (false, "")
    else if p[0] == ']' then (false, p[1..])
    else if p[0] == '\\' && |p| >= 2 then
      var (hit, rest) := ClassHit(p[2..], c);
      (hit || p[1] == c, rest)
    else if |p| >= 3 && p[1] == '-' then
      var (hit, rest) := ClassHit(p[3..], c);
      (hit || p[0] <= c <= p[2] || p[2] <= c <= p[0], rest)
    else
      var (hit, rest) := ClassHit(p[1..], c);
      (hit || p[0] == c, rest)
  }

  /** Redis glob matching: `*`, `?`, `[...]`, `[^...]` and `\` escapes. */
  predicate Glob(p: string, s: string)
    decreases |p| + |s|
  {
    if p == "" then s == ""
    else if p[0] == '*' then Glob(p[1..], s) || (s != "" && Glob(p, s[1..]))
    else if s == "" then false
    else if p[0] == '?' then Glob(p[1..], s[1..])
    else if p[0] == '[' then
      var negated := |p| >= 2 && p[1] == '^';
      var (hit, rest) := ClassHit(if negated then p[2..] else p[1..], s[0]);
      hit != negated && Glob(rest, s[1..])
    else if p[0] == '\\' && |p| >= 2 then p[1] == s[0] && Glob(p[2..], s[1..])
    else p[0] == s[0] && Glob(p[1..], s[1..])
  }

  /** The fallback drops every `*` from the pattern and compares the start of the key with the rest. */
  function StripStars(p: string): string {
    if p == "" then "" else (if p[0] == '*' then "" else [p[0]]) + StripStars(p[1..])
  }

  predicate Selects(expiring: bool, pattern: string, key: string) {
    if expiring then Glob(pattern, key) else StripStars(pattern) <= key
  }

  predicate IsLiteral(c: char) {
    c != '*' && c != '?' && c != '[' && c != '\\'
  }

  predicate Literal(p: string) {
    forall i :: 0 <= i < |p| ==> IsLiteral(p[i])
  }

  lemma {:induction false} StarMatchesAll(s: string)
    ensures Glob("*", s)
  {
    if s == "" {
      assert Glob("*"[1..], s);
    } else {
      StarMatchesAll(s[1..]);
    }
  }

  lemma {:induction false} GlobLiteralPrefix(p: string, s: string)
    requires Literal(p)
    ensures Glob(p + "*", s) <==> p <= s
  {
    if p == "" {
      assert p + "*" == "*";
      StarMatchesAll(s);
    } else {
      assert (p + "*")[1..] == p[1..] + "*";
      assert IsLiteral(p[0]);
      if s != "" {
        GlobLiteralPrefix(p[1..], s[1..]);
        assert p <= s <==> p[0] == s[0] && p[1..] <= s[1..] by {
          if p[0] == s[0] && p[1..] <= s[1..] {
            assert s == [s[0]] + s[1..] && p == [p[0]] + p[1..];
          }
        }
      }
    }
  }

  lemma {:induction false} StripLiteral(p: string)
    requires Literal(p)
    ensures StripStars(p + "*") == p
  {
    if p == "" {
      assert p + "*" == "*";
    } else {
      assert (p + "*")[1..] == p[1..] + "*";
      StripLiteral(p[1..]);
    }
  }

  /** On a pattern that is a literal prefix followed by `*`, server and fallback select the same keys. */
  lemma BackendsAgreeOnPrefixes(expiring: bool, p: string, key: string)
    requires Literal(p)
    ensures Selects(expiring, p + "*", key) <==> p <= key
  {
    GlobLiteralPrefix(p, key);
    StripLiteral(p);
  }

  class RedisService {
    const useMemoryFallback: bool
    var memoryStore: map<string, Value>
    var server: map<string, Entry>
    var now: nat

    ghost function View(): Store<string>
      reads this
    {
      if useMemoryFallback
      then Store(map k | k in memoryStore :: Entry(memoryStore[k], None), now, false)
      else Store(server, now, true)
    }

    ghost predicate Valid()
      reads this
    {
      View().Valid()
    }

    constructor (serverReachable: bool, now: nat)
      ensures Valid() && View() == Store(map[], now, serverReachable)
    {
      useMemoryFallback := !serverReachable;
      memoryStore := map[];
      server := map[];
      this.now := now;
    }

    /** The environment lets time pass; a server drops what has expired meanwhile. */
    method Elapse(ms: nat)
      requires Valid()
      modifies this
      ensures Valid() && View() == old(View()).Advance(ms)
    {
      now := now + ms;
      server := map k | k in server && (server[k].expiry.Some? ==> now < server[k].expiry.value) :: server[k];
    }

    method Get(key: string) returns (value: Option<Value>)
      requires Valid()
      ensures value == match View().Look(key) case Some(e) => Some(e.value) case None => None
    {
      if useMemoryFallback {
        value := if key in memoryStore then Some(memoryStore[key]) else None;
      } else {
        value := if key in server then Some(server[key].value) else None;
      }
    }

    method Set(key: string, value: Value, ttlSeconds: nat)
      requires Valid()
      modifies this
      ensures Valid() && View() == old(View()).Set(key, value, ttlSeconds)
    {
      if useMemoryFallback {
        memoryStore := memoryStore[key := value];
        return;
      }
      if ttlSeconds != 0 {
        server := server[key := Entry(value, Some(now + 1000 * ttlSeconds))];
      } else {
        server := server[key := Entry(value, None)];
      }
    }

    method Del(key: string) returns (removed: nat)
      requires Valid()
      modifies this
      ensures Valid() && View() == old(View()).Del(key)
      ensures removed == if old(View().Look(key)).Some? then 1 else 0
    {
      if useMemoryFallback {
        removed := if key in memoryStore then 1 else 0;
        memoryStore := memoryStore - {key};
      } else {
        removed := if key in server then 1 else 0;
        server := server - {key};
      }
    }

    method Exists(key: string) returns (found: bool)
      requires Valid()
      ensures found <==> key in View().entries
    {
      if useMemoryFallback {
        found := key in memoryStore;
      } else {
        found := key in server;
      }
    }

    method Expire(key: string, ttlSeconds: int)
      requires Valid()
      modifies this
      ensures Valid() && View() == old(View()).Expire(key, ttlSeconds)
    {
      if useMemoryFallback {
        return;
      }
      if key in server {
        if ttlSeconds <= 0 {
          server := server - {key};
        } else {
          server := server[key := server[key].(expiry := Some(now + 1000 * ttlSeconds))];
        }
      }
    }

    method Incr(key: string) returns (count: nat)
      requires Valid() && View().Countable(key)
      modifies this
      ensures Valid() && View() == old(View()).Incr(key) && count == View().Count(key)
    {
      if useMemoryFallback {
        count := if key in memoryStore then memoryStore[key].count + 1 else 1;
        memoryStore := memoryStore[key := Counter(count)];
      } else {
        count := if key in server then server[key].value.count + 1 else 1;
        server := server[key := Entry(Counter(count), if key in server then server[key].expiry else None)];
      }
    }

    method Keys(pattern: string) returns (keys: seq<string>)
      requires Valid()
      ensures forall k :: k in keys <==> k in View().entries && Selects(!useMemoryFallback, pattern, k)
      ensures NoDuplicates(keys)
    {
      keys := [];
      var todo := if useMemoryFallback then memoryStore.Keys else server.Keys;
      ghost var all := todo;
      while todo != {}
        invariant todo <= all
        invariant forall k :: k in keys <==> k in all && k !in todo && Selects(!useMemoryFallback, pattern, k)
        invariant NoDuplicates(keys)
        decreases todo
      {
        var k :| k in todo;
        todo := todo - {k};
        if Selects(!useMemoryFallback, pattern, k) {
          keys := keys + [k];
        }
      }
    }

    /** Deletes exactly the entries whose key `prefix*` selects. */
    method FlushPrefix(prefix: string)
      requires Valid()
      modifies this
      ensures Valid() && View().now == old(View().now) && View().expiring == old(View().expiring)
      ensures forall k :: View().Look(k) ==
                          if Selects(!useMemoryFallback, prefix + "*", k) then None else old(View()).Look(k)
    {
      var keys := Keys(prefix + "*");
      ghost var before := View();
      for i := 0 to |keys|
        invariant Valid() && View().now == before.now && View().expiring == before.expiring
        invariant forall k :: View().Look(k) == if k in keys[..i] then None else before.Look(k)
      {
        var _ := Del(keys[i]);
        assert keys[..i + 1] == keys[..i] + [keys[i]];
      }
      assert keys[..|keys|] == keys;
    }
  }
}
