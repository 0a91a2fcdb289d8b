/**
 The expiring key/value store behind `RedisService`, as a value.

 Time is in milliseconds. An entry set with a time-to-live of t seconds at time n is there at every
 moment before n + 1000 t and gone from then on; `Advance` drops what has run out, so the map only
 ever holds live entries. The in-memory fallback is the same store with `expiring` off: it keeps no
 expiry at all.
 */
module KeyValue {
  import opened Prelude

  datatype Channel = Email | Phone

  datatype Purpose = LoginCode | AccountVerification | PasswordReset

  /** A stored one-time code. `tenant` is None for the source's null tenant. */
  datatype Otp = Otp(
    identifier: string, channel: Channel, code: string, purpose: Purpose, tenant: Option<string>,
    token: string, userId: Option<string>, createdAt: nat)

  /** What the service stores: plain strings, decimal counters and two kinds of JSON record. */
  datatype Value =
    | Text(text: string)
    | Counter(count: nat)
    | Code(otp: Otp)
    | Session(user: string, tenant: Option<string>, digest: string)

  datatype Entry = Entry(value: Value, expiry: Option<nat>)

  datatype Store<K(==)> = Store(entries: map<K, Entry>, now: nat, expiring: bool) {

    ghost predicate Valid() {
      forall k :: k in entries && entries[k].expiry.Some? ==> expiring && now < entries[k].expiry.value
    }

    function Look(k: K): Option<Entry> {
      if k in entries then Some(entries[k]) else None
    }

    function Deadline(ttlSeconds: nat): Option<nat> {
      if expiring && ttlSeconds > 0 then Some(now + 1000 * ttlSeconds) else None
    }

    /** A time-to-live of 0 stands for "not given": the entry then never expires. */
    function Set(k: K, v: Value, ttlSeconds: nat): Store<K> {
      this.(entries := entries[k := Entry(v, Deadline(ttlSeconds))])
    }

    function Del(k: K): Store<K> {
      this.(entries := entries - {k})
    }

    /** A time-to-live that is not positive deletes the entry; the in-memory fallback ignores the call. */
    function Expire(k: K, ttlSeconds: int): Store<K> {
      if !expiring || k !in entries then this
      else if ttlSeconds <= 0 then Del(k)
      else this.(entries := entries[k := entries[k].(expiry := Deadline(ttlSeconds))])
    }

    predicate Countable(k: K) {
      k in entries ==> entries[k].value.Counter?
    }

    function Count(k: K): nat {
      if k in entries && entries[k].value.Counter? then entries[k].value.count else 0
    }

    /** Adds one to a counter and keeps its expiry; a missing counter starts at 1 without expiry. */
    function Incr(k: K): Store<K>
      requires Countable(k)
    {
      this.(entries := entries[k := Entry(Counter(Count(k) + 1), if k in entries then entries[k].expiry else None)])
    }

    function Advance(ms: nat): Store<K> {
      this.(now := now + ms,
            entries := map k | k in entries && (entries[k].expiry.Some? ==> now + ms < entries[k].expiry.value)
                         :: entries[k])
    }
  }
}
