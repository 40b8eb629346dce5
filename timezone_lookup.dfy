/**
 * `DateManager.getTimeZone` as a function of the two stores it keeps:
 * the expiring cache keyed by the player's UUID string, and the sticky
 * `timezones` map keyed by the UUID itself. The asynchronous worker is taken to
 * run to completion, and the request's value is the worker's result.
 */
module TimezoneLookup {
  import opened Wrappers
  import opened JavaStrings
  import opened ExpiringCache
  import opened RetryLoop

  /** A player's UUID, identified with its canonical text form. */
  datatype Uuid = Uuid(canonical: string)

  /** `uuid.toString()`, the cache's key for the player. */
  function UuidString(u: Uuid): string
  {
    u.canonical
  }

  /** What the lookup uses of a player: the UUID and the host address, if the player has one. */
  datatype Player = Player(uuid: Uuid, address: Option<string>)

  /** The two stores the manager owns. */
  datatype Stores = Stores(timezones: map<Uuid, string>, cache: Cache)

  /**
   * One request's answer, the stores it leaves behind, and how many lookup attempts
   * and `retryDelay` sleeps it took.
   */
  datatype Reply = Reply(timezone: string, after: Stores, attempts: nat, delays: nat)

  /** Both stores empty, as the constructor creates them and `clear()` leaves them. */
  function Empty(): Stores
  {
    Stores(map[], map[])
  }

  /** The worker's fallback: a result equal to "undefined" ignoring case is replaced by the default timezone. */
  function Settle(result: string, defaultTz: string): string
  {
    if IsUndefined(result) then defaultTz else result
  }

  /**
   * The worker: the retry loop, with every line it reads written to the cache at once
   * (the last write wins), then the fallback, then the write-back to the sticky map.
   */
  function Resolve(s: Stores, uuid: Uuid, defaultTz: string, outcomes: seq<Attempt>, now: nat): Reply
    requires |outcomes| == MaxAttempts
  {
    var run := Run(outcomes, 0, MaxAttempts, None);
    var cache := if run.cached.Some? then Put(s.cache, UuidString(uuid), run.cached.value, now) else s.cache;
    var tz := Settle(run.result.GetOr(Undefined), defaultTz);
    Reply(tz, Stores(s.timezones[uuid := tz], cache), run.attempts, run.delays)
  }

  /** `getTimeZone(player)`: cache, then sticky map, then the no-address fallback, then the worker. */
  function GetTimeZone(s: Stores, p: Player, defaultTz: string, outcomes: seq<Attempt>, now: nat): Reply
    requires |outcomes| == MaxAttempts
  {
    match GetIfPresent(s.cache, UuidString(p.uuid), now)
    case Some(cached) => Reply(cached, s, 0, 0)
    case None =>
      if p.uuid in s.timezones then Reply(s.timezones[p.uuid], s, 0, 0)
      else if p.address.None? then
        Reply(defaultTz, s.(cache := Put(s.cache, UuidString(p.uuid), defaultTz, now)), 0, 0)
      else Resolve(s, p.uuid, defaultTz, outcomes, now)
  }

  /** `clear()`: both stores emptied. */
  function Clear(s: Stores): Stores
  {
    Stores(map[], InvalidateAll(s.cache))
  }

  /** No value in the sticky map is the sentinel "undefined" in any letter case. */
  predicate StickyResolved(s: Stores)
  {
    forall u :: u in s.timezones ==> !IsUndefined(s.timezones[u])
  }
}
