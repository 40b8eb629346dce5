/**
 * The Guava cache built with `expireAfterWrite(1440, MINUTES)`, as a map from key
 * to the value and the time it was written. Time is an abstract clock counting
 * nanoseconds, the unit Guava measures expiry in. An entry is expired once
 * `now - writeTime >= expireAfterWrite`; an expired entry reads as absent.
 */
module ExpiringCache {
  import opened Wrappers

  const CacheExpirationMinutes: nat := 1440
  const NanosPerMinute: nat := 60_000_000_000
  const ExpireAfterWriteNanos: nat := CacheExpirationMinutes * NanosPerMinute

  datatype Entry = Entry(value: string, writeTime: nat)

  type Cache = map<string, Entry>

  predicate IsExpired(e: Entry, now: nat)
  {
    now - e.writeTime >= ExpireAfterWriteNanos
  }

  /** `cache.getIfPresent(key)`: the value of a live entry, or nothing (Java's null). */
  function GetIfPresent(c: Cache, key: string, now: nat): Option<string>
  {
    if key in c && !IsExpired(c[key], now) then Some(c[key].value) else None
  }

  /** `cache.put(key, value)` at time `now`: the key reads back as `value`, every other key is untouched. */
  function Put(c: Cache, key: string, value: string, now: nat): (c': Cache)
    ensures GetIfPresent(c', key, now) == Some(value)
    ensures c'.Keys == c.Keys + {key}
    ensures forall k :: k in c && k != key ==> c'[k] == c[k]
  {
    c[key := Entry(value, now)]
  }

  /** `cache.invalidateAll()`: no key reads as present afterwards, at any time. */
  function InvalidateAll(c: Cache): (c': Cache)
    ensures forall k, now :: GetIfPresent(c', k, now) == None
  {
    map[]
  }

  /**
   * An entry written at time `t` is a hit at every later time before `t` plus the
   * time-to-live (1440 minutes), and a miss from that moment on.
   */
  lemma ExpiresAfterWrite(c: Cache, key: string, value: string, t: nat, now: nat)
    requires t <= now
    ensures GetIfPresent(Put(c, key, value, t), key, now) ==
      if now < t + CacheExpirationMinutes * NanosPerMinute then Some(value) else None
  {
  }

  /** Once expired, an entry stays expired as the clock moves forward. */
  lemma ExpiredStaysExpired(c: Cache, key: string, now: nat, later: nat)
    requires now <= later
    requires GetIfPresent(c, key, now) == None
    ensures GetIfPresent(c, key, later) == None
  {
  }
}
