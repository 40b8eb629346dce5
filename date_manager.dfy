/**
 * The `DateManager` object: its two stores are fields that `getTimeZone` and `clear`
 * update in place. Each method is proved against the specification in TimezoneLookup.
 */
module LocalTime {
  import opened Wrappers
  import opened JavaStrings
  import opened ExpiringCache
  import opened RetryLoop
  import opened TimezoneLookup
  import LookupProperties

  class DateManager {
    /** The sticky map, UUID to timezone id, never expiring. */
    var timezones: map<Uuid, string>
    /** The expiring cache, UUID string to timezone id, 1440 minutes after write. */
    var cache: Cache
    /** Seconds slept after each failed attempt. */
    var retryDelay: nat

    /** The two stores as a value. */
    function Snapshot(): Stores
      reads this
    {
      Stores(timezones, cache)
    }

    constructor ()
      ensures Snapshot() == Empty()
      ensures retryDelay == 5
    {
      timezones := map[];
      cache := map[];
      retryDelay := 5;
    }

    /**
     * `getTimeZone(player)` with the worker run to completion. Returns the timezone,
     * the number of lookup attempts, the number of sleeps and the milliseconds slept.
     */
    method GetTimeZone(player: Player, defaultTz: string, outcomes: seq<Attempt>, now: nat)
      returns (tz: string, attempts: nat, delays: nat, sleptMillis: int)
      requires |outcomes| == MaxAttempts
      modifies this
      ensures Reply(tz, Snapshot(), attempts, delays) ==
        TimezoneLookup.GetTimeZone(old(Snapshot()), player, defaultTz, outcomes, now)
      ensures sleptMillis == delays * (retryDelay * 1000)
      ensures retryDelay == old(retryDelay)
      ensures StickyResolved(old(Snapshot())) && !IsUndefined(defaultTz) ==> StickyResolved(Snapshot())
    {
      if StickyResolved(Snapshot()) && !IsUndefined(defaultTz) {
        LookupProperties.GetTimeZoneKeepsStickyResolved(Snapshot(), player, defaultTz, outcomes, now);
      }
      var key := UuidString(player.uuid);
      var cachedTimezone := GetIfPresent(cache, key, now);
      if cachedTimezone.Some? {
        return cachedTimezone.value, 0, 0, 0;
      }
      if player.uuid in timezones {
        return timezones[player.uuid], 0, 0, 0;
      }
      if player.address.None? {
        tz := defaultTz;
        cache := Put(cache, key, tz, now);
        return tz, 0, 0, 0;
      }
      tz, attempts, delays, sleptMillis := Resolve(player.uuid, defaultTz, outcomes, now);
    }

    /**
     * The worker: up to three attempts, each outcome taken from `outcomes` in turn; a
     * line read is written to the cache, an exception (also one from closing the
     * reader after a line was cached) sleeps `retryDelay` seconds and retries; then
     * the fallback to the default and the write to the sticky map.
     */
    method Resolve(uuid: Uuid, defaultTz: string, outcomes: seq<Attempt>, now: nat)
      returns (tz: string, attempts: nat, delays: nat, sleptMillis: int)
      requires |outcomes| == MaxAttempts
      modifies this
      ensures Reply(tz, Snapshot(), attempts, delays) ==
        TimezoneLookup.Resolve(old(Snapshot()), uuid, defaultTz, outcomes, now)
      ensures sleptMillis == delays * (retryDelay * 1000)
      ensures retryDelay == old(retryDelay)
    {
      var result := Undefined;
      var retries: int := MaxAttempts;
      ghost var written: Option<string> := None;
      attempts, delays, sleptMillis := 0, 0, 0;
      while true
        invariant 0 <= retries && attempts + retries == MaxAttempts
        invariant delays == attempts && sleptMillis == delays * (retryDelay * 1000)
        invariant result == Undefined
        invariant timezones == old(timezones) && retryDelay == old(retryDelay)
        invariant cache == if written.Some? then Put(old(cache), UuidString(uuid), written.value, now) else old(cache)
        invariant Run(outcomes, attempts, retries, written) == Run(outcomes, 0, MaxAttempts, None)
        decreases retries
      {
        // `retries-- > 0`
        var remaining := retries;
        retries := retries - 1;
        if remaining <= 0 {
          break;
        }
        var outcome := outcomes[attempts];
        attempts := attempts + 1;
        match outcome
        case Throws =>
          result := Undefined;
          delays := delays + 1;
          sleptMillis := sleptMillis + retryDelay * 1000;
        case LineThenThrows(s) =>
          // the line is cached, then closing the reader throws into the catch block
          result := s;
          cache := Put(cache, UuidString(uuid), s, now);
          written := Some(s);
          result := Undefined;
          delays := delays + 1;
          sleptMillis := sleptMillis + retryDelay * 1000;
        case NullLine =>
          result := Undefined;
          break;
        case Line(s) =>
          result := s;
          cache := Put(cache, UuidString(uuid), s, now);
          written := Some(s);
          break;
      }
      if IsUndefined(result) {
        result := defaultTz;
      }
      timezones := timezones[uuid := result];
      tz := result;
    }

    /** `clear()`: both stores emptied; the retry delay is kept. */
    method Clear()
      modifies this
      ensures Snapshot() == Empty()
      ensures retryDelay == old(retryDelay)
    {
      timezones := map[];
      cache := InvalidateAll(cache);
    }
  }
}
