/** What `getTimeZone` and `clear` promise, stated over the specification in TimezoneLookup. */
module LookupProperties {
  import opened Wrappers
  import opened JavaStrings
  import opened ExpiringCache
  import opened RetryLoop
  import opened TimezoneLookup

  /** A player whose request gets past both stores and has an address, so the worker runs. */
  predicate ReachesWorker(s: Stores, p: Player, now: nat)
  {
    && GetIfPresent(s.cache, UuidString(p.uuid), now).None?
    && p.uuid !in s.timezones
    && p.address.Some?
  }

  /** A live cache entry is returned as it is, before the sticky map is looked at, and nothing changes. */
  lemma CacheHitReturnedAsIs(s: Stores, p: Player, defaultTz: string, outcomes: seq<Attempt>, now: nat)
    requires |outcomes| == MaxAttempts
    requires UuidString(p.uuid) in s.cache && !IsExpired(s.cache[UuidString(p.uuid)], now)
    ensures GetTimeZone(s, p, defaultTz, outcomes, now) == Reply(s.cache[UuidString(p.uuid)].value, s, 0, 0)
  {
  }

  /** On a cache miss a sticky entry is returned unchanged, with no attempt and no write. */
  lemma StickyHitOnCacheMiss(s: Stores, p: Player, defaultTz: string, outcomes: seq<Attempt>, now: nat)
    requires |outcomes| == MaxAttempts
    requires GetIfPresent(s.cache, UuidString(p.uuid), now).None?
    requires p.uuid in s.timezones
    ensures GetTimeZone(s, p, defaultTz, outcomes, now) == Reply(s.timezones[p.uuid], s, 0, 0)
  {
  }

  /**
   * With no address the answer is the default timezone; it is written to the cache
   * only, the sticky map is left alone and no lookup is attempted.
   */
  lemma NoAddressFallsBackToDefault(s: Stores, p: Player, defaultTz: string, outcomes: seq<Attempt>, now: nat)
    requires |outcomes| == MaxAttempts
    requires GetIfPresent(s.cache, UuidString(p.uuid), now).None?
    requires p.uuid !in s.timezones && p.address.None?
    ensures var r := GetTimeZone(s, p, defaultTz, outcomes, now);
            && r.timezone == defaultTz
            && r.after.timezones == s.timezones
            && r.after.cache == s.cache[UuidString(p.uuid) := Entry(defaultTz, now)]
            && r.attempts == 0 && r.delays == 0
  {
  }

  /**
   * The no-address fallback lives in the cache only: the same request is a cache hit
   * for 1440 minutes, and once the entry has expired it takes the no-address path again.
   */
  lemma NoAddressFallbackExpires(s: Stores, p: Player, defaultTz: string, outcomes: seq<Attempt>, now: nat, later: nat)
    requires |outcomes| == MaxAttempts
    requires GetIfPresent(s.cache, UuidString(p.uuid), now).None?
    requires p.uuid !in s.timezones && p.address.None?
    requires now <= later
    ensures var r := GetTimeZone(s, p, defaultTz, outcomes, now);
            var r2 := GetTimeZone(r.after, p, defaultTz, outcomes, later);
            && r2.timezone == defaultTz && r2.attempts == 0
            && (later < now + ExpireAfterWriteNanos ==> r2.after == r.after)
            && (later >= now + ExpireAfterWriteNanos ==>
                  r2.after == Stores(s.timezones, s.cache[UuidString(p.uuid) := Entry(defaultTz, later)]))
  {
    ExpiresAfterWrite(s.cache, UuidString(p.uuid), defaultTz, now, later);
  }

  /**
   * The worker makes one to three attempts, and only an exception leads to another:
   * every attempt before the last ended in an exception, and the last is the first
   * one that did not, unless all three did. It sleeps once per exception.
   */
  lemma WorkerAttempts(s: Stores, p: Player, defaultTz: string, outcomes: seq<Attempt>, now: nat)
    requires |outcomes| == MaxAttempts
    requires ReachesWorker(s, p, now)
    ensures var r := GetTimeZone(s, p, defaultTz, outcomes, now);
            && 1 <= r.attempts <= MaxAttempts
            && (forall j :: 0 <= j < r.attempts - 1 ==> outcomes[j].IsException())
            && (r.attempts < MaxAttempts ==> !outcomes[r.attempts - 1].IsException())
            && r.delays == (if outcomes[r.attempts - 1].IsException() then r.attempts else r.attempts - 1)
  {
    RetryLoopContract(outcomes);
  }

  /**
   * The cache after the worker: the line of the last attempt that read one is written
   * verbatim, whatever its letter case, also when closing the reader then threw; when
   * no attempt read a line (null lines and exceptions only) nothing is written.
   */
  lemma WorkerCachesLineVerbatim(s: Stores, p: Player, defaultTz: string, outcomes: seq<Attempt>, now: nat)
    requires |outcomes| == MaxAttempts
    requires ReachesWorker(s, p, now)
    ensures var r := GetTimeZone(s, p, defaultTz, outcomes, now);
            var read := LastLine(outcomes, 0, r.attempts);
            && 1 <= r.attempts
            && r.after.cache == (if read.Some? then s.cache[UuidString(p.uuid) := Entry(read.value, now)] else s.cache)
            && (outcomes[r.attempts - 1].Line? ==> read == Some(outcomes[r.attempts - 1].text))
  {
    RetryLoopContract(outcomes);
  }

  /**
   * The sticky map after the worker holds the answer for the player, and nothing else
   * changes in it. The answer is the line read, unless there is none or it equals
   * "undefined" ignoring case, in which case it is the default; so it is never
   * "undefined" unless the default is.
   */
  lemma WorkerWritesStickyAnswer(s: Stores, p: Player, defaultTz: string, outcomes: seq<Attempt>, now: nat)
    requires |outcomes| == MaxAttempts
    requires ReachesWorker(s, p, now)
    ensures var r := GetTimeZone(s, p, defaultTz, outcomes, now);
            var last := outcomes[r.attempts - 1];
            && 1 <= r.attempts
            && r.after.timezones == s.timezones[p.uuid := r.timezone]
            && r.timezone == (if last.Line? && !IsUndefined(last.text) then last.text else defaultTz)
            && (!IsUndefined(defaultTz) ==> !IsUndefined(r.timezone))
  {
    RetryLoopContract(outcomes);
  }

  /**
   * When all three attempts throw, the cache is unchanged, the sticky map gets the
   * default, and the worker has slept three times, the last after the final attempt.
   */
  lemma WorkerAllAttemptsThrow(s: Stores, p: Player, defaultTz: string, outcomes: seq<Attempt>, now: nat)
    requires |outcomes| == MaxAttempts
    requires ReachesWorker(s, p, now)
    requires forall j :: 0 <= j < |outcomes| ==> outcomes[j] == Throws
    ensures GetTimeZone(s, p, defaultTz, outcomes, now) ==
      Reply(defaultTz, Stores(s.timezones[p.uuid := defaultTz], s.cache), 3, 3)
  {
    AllThrow(outcomes);
  }

  /**
   * Once the worker has run for a player, no later request for that player reaches the
   * lookup again and none changes a store. A later request answers the line the worker
   * cached while that entry is live, and the worker's result after it expires. The two
   * differ when the cached line reads "undefined" in some letter case, or when closing
   * the reader threw after the line was cached.
   */
  lemma ResolvedPlayerIsNotLookedUpAgain(s: Stores, p: Player, defaultTz: string, outcomes: seq<Attempt>,
                                         now: nat, outcomes2: seq<Attempt>, later: nat)
    requires |outcomes| == MaxAttempts && |outcomes2| == MaxAttempts
    requires ReachesWorker(s, p, now)
    requires now <= later
    ensures var r := GetTimeZone(s, p, defaultTz, outcomes, now);
            var r2 := GetTimeZone(r.after, p, defaultTz, outcomes2, later);
            var read := LastLine(outcomes, 0, r.attempts);
            && 1 <= r.attempts
            && r2.attempts == 0 && r2.after == r.after
            && r2.timezone == (if read.Some? && later < now + ExpireAfterWriteNanos then read.value else r.timezone)
  {
    RetryLoopContract(outcomes);
    var r := GetTimeZone(s, p, defaultTz, outcomes, now);
    if LastLine(outcomes, 0, r.attempts).None? {
      ExpiredStaysExpired(s.cache, UuidString(p.uuid), now, later);
    }
  }

  /** A request keeps the sticky map free of "undefined" as long as the default timezone is not "undefined". */
  lemma GetTimeZoneKeepsStickyResolved(s: Stores, p: Player, defaultTz: string, outcomes: seq<Attempt>, now: nat)
    requires |outcomes| == MaxAttempts
    requires StickyResolved(s) && !IsUndefined(defaultTz)
    ensures StickyResolved(GetTimeZone(s, p, defaultTz, outcomes, now).after)
  {
    if ReachesWorker(s, p, now) {
      WorkerWritesStickyAnswer(s, p, defaultTz, outcomes, now);
    }
  }

  /** `clear()` leaves both stores empty whatever they held, so clearing twice is clearing once. */
  lemma ClearEmptiesBothStores(s: Stores)
    ensures Clear(s) == Empty()
    ensures Clear(Clear(s)) == Clear(s)
  {
  }

  /** After `clear()` every request misses both stores and goes to the address check. */
  lemma RequestAfterClearMisses(s: Stores, p: Player, defaultTz: string, outcomes: seq<Attempt>, now: nat)
    requires |outcomes| == MaxAttempts
    requires p.address.Some?
    ensures GetTimeZone(Clear(s), p, defaultTz, outcomes, now) == Resolve(Empty(), p.uuid, defaultTz, outcomes, now)
  {
  }

  /**
   * A first line "Europe/Berlin" on the first attempt: one attempt, no delay, and the
   * request answers "Europe/Berlin".
   */
  lemma FirstAttemptAnswers(p: Player, defaultTz: string)
    requires p.address.Some?
    ensures GetTimeZone(Empty(), p, defaultTz, [Line("Europe/Berlin"), Throws, Throws], 0) ==
      Reply("Europe/Berlin",
            Stores(map[p.uuid := "Europe/Berlin"], map[UuidString(p.uuid) := Entry("Europe/Berlin", 0)]), 1, 0)
  {
    SomeSpellings();
  }

  /**
   * An empty response body makes `readLine()` return null, which ends the loop after a
   * single attempt with no delay: the default is stored in the sticky map only.
   */
  lemma EmptyBodyEndsAfterOneAttempt(p: Player, defaultTz: string)
    requires p.address.Some?
    ensures GetTimeZone(Empty(), p, defaultTz, [NullLine, NullLine, NullLine], 0) ==
      Reply(defaultTz, Stores(map[p.uuid := defaultTz], map[]), 1, 0)
  {
    SomeSpellings();
  }

  /**
   * A line read on the first attempt stays cached when closing the reader then throws:
   * the loop goes round again, and if the other two attempts throw, the cache holds
   * the line while the sticky map gets the default, after three attempts and three delays.
   */
  lemma CloseFailureKeepsCachedLine(p: Player, defaultTz: string)
    requires p.address.Some?
    ensures GetTimeZone(Empty(), p, defaultTz, [LineThenThrows("Europe/Berlin"), Throws, Throws], 0) ==
      Reply(defaultTz,
            Stores(map[p.uuid := defaultTz], map[UuidString(p.uuid) := Entry("Europe/Berlin", 0)]), 3, 3)
  {
    SomeSpellings();
  }
}
