# LocalTime timezone lookup, modelled in Dafny

This project models the timezone lookup of the LocalTime placeholder expansion:
`DateManager`, which finds a player's timezone and keeps it in two stores.

- The **cache** is a Guava cache keyed by the player's UUID string. An entry expires
  1440 minutes after it is written.
- The **sticky map** (`timezones`) is keyed by the UUID and never expires.

`getTimeZone(player)` checks the cache, then the sticky map. A player without an
address gets the JVM's default timezone, which is written to the cache only. For
anyone else a worker asks the `ipapi.co` service up to three times. After each
exception it sleeps `retryDelay` (5) seconds. A line it reads goes into the cache
verbatim. A result equal to `"undefined"` (ignoring case) is replaced by the default.
The final answer goes into the sticky map. `clear()` empties both stores.

The model has these modules:

- `Wrappers`: an Option type for Java's null.
- `JavaStrings`: `String.equalsIgnoreCase` against an ASCII lower-case target, such
  as `"undefined"`. This includes the Unicode characters U+0130, U+0131, U+017F and
  U+212A, which Java's per-character comparison also matches.
- `ExpiringCache`: the Guava cache as a map from key to value and write time. The
  clock counts nanoseconds. An entry is expired once `now - writeTime >= 1440 minutes`.
- `RetryLoop`: the `while (retries-- > 0)` loop as the function `Run` over a
  sequence of per-attempt outcomes. An attempt can throw before reading a line
  (`Throws`), read a null line (`NullLine`), read a line (`Line(s)`), or read and cache
  a line and then throw when the reader is closed (`LineThenThrows(s)`). `Run` is
  proved equal to two independent references, `FirstCompletion` and `LastLine`.
- `TimezoneLookup`: `getTimeZone` and `clear` as pure functions over the two stores.
- `LookupProperties`: lemmas that state what a request does in each case.
- `LocalTime`: the class `DateManager`. Its methods update the stores in place and
  are proved equal to the `TimezoneLookup` functions.

Inputs the model takes as parameters:

- The lookup service's answer to each attempt, as a sequence of exactly three outcomes.
- The default timezone (`TimeZone.getDefault().getID()`).
- The current time.

Notable behaviour of the code, which the model follows:

- A line read from the service is stored as read, without trimming.
- Entries leave the stores only by expiry (cache) or `clear()`; nothing removes a
  player's entries when the player leaves.
- The worker also sleeps after the third failed attempt, so an all-failing lookup
  makes three delays.
- A response with an empty body (`readLine()` returns null) ends the loop after one
  attempt with no delay.
- The no-address fallback is written to the cache only, not to the sticky map, so it
  expires after 1440 minutes.
- With an address, the request's value is the worker's result (the future completes
  with it). The worker is modelled as running to completion.
- If closing the reader throws after a line was cached, the exception replaces the
  `break`: the catch block resets the result to `"undefined"`, sleeps and retries.
  The cached line stays, so the cache and the sticky map can disagree
  (`LookupProperties.CloseFailureKeepsCachedLine`).
- A line such as `"Undefined"` is cached verbatim. The next request returns it for as
  long as the entry is live, even though the sticky map holds the default
  (`LookupProperties.ResolvedPlayerIsNotLookedUpAgain`).

## Model

| member | source | states |
|---|---|---|
| `JavaStrings.UndefinedSpellings` | src/main/java/net/aboodyy/localtime/DateManager.java:122 | a string equals "undefined" ignoring case exactly when it has nine characters, each the sentinel's letter in either case, with U+0130 and U+0131 also accepted for the 'i' |
| `JavaStrings.SomeSpellings` | src/main/java/net/aboodyy/localtime/DateManager.java:122 | "undefined", "UNDEFINED", "Undefined" and a spelling with a dotless i count as the sentinel; "Europe/Berlin", a shorter string and "" do not |
| `ExpiringCache.Put` | src/main/java/net/aboodyy/localtime/DateManager.java:85 | after `cache.put(key, value)` the key reads back as the value, the key set gains only that key, and other entries are unchanged |
| `ExpiringCache.InvalidateAll` | src/main/java/net/aboodyy/localtime/DateManager.java:143 | after `invalidateAll()` no key reads as present at any time |
| `ExpiringCache.ExpiresAfterWrite` | src/main/java/net/aboodyy/localtime/DateManager.java:48-54 | an entry written at time T is a hit at every time before T + 1440 minutes and a miss from then on |
| `ExpiringCache.ExpiredStaysExpired` | src/main/java/net/aboodyy/localtime/DateManager.java:52-54 | an entry that is absent or expired at one time is still a miss at every later time |
| `RetryLoop.FirstCompletion` | src/main/java/net/aboodyy/localtime/DateManager.java:95-119 | gives the first attempt in a range that did not end in an exception (every earlier one did), or the end of the range when all did |
| `RetryLoop.RunIsFirstCompletion` | src/main/java/net/aboodyy/localtime/DateManager.java:95-119 | the loop stops right after the first attempt that does not end in an exception; it sleeps once per exception before that; `result` keeps a line only when that attempt read one normally; the cache holds the last line any attempt read |
| `RetryLoop.RetryLoopContract` | src/main/java/net/aboodyy/localtime/DateManager.java:92-120 | with three retries: one to three attempts; every attempt but the last ended in an exception; a completed read ends the loop; one delay per exception; `result` keeps a line exactly when the last attempt read one normally; the cache was last written with the line of the last attempt that read one |
| `RetryLoop.AllThrow` | src/main/java/net/aboodyy/localtime/DateManager.java:113-119 | when every attempt throws before reading a line, the loop makes three attempts and three delays, caches nothing and keeps no result |
| `RetryLoop.LastLine` | src/main/java/net/aboodyy/localtime/DateManager.java:103-110 | gives the text of the last attempt in a range that read a line (no later one in the range did), or nothing exactly when none did |
| `LookupProperties.CacheHitReturnedAsIs` | src/main/java/net/aboodyy/localtime/DateManager.java:71-74 | a live cache entry for the UUID string is the answer, the sticky map is not consulted, and neither store changes |
| `LookupProperties.StickyHitOnCacheMiss` | src/main/java/net/aboodyy/localtime/DateManager.java:76-79 | on a cache miss a sticky entry is returned unchanged, with no attempt and no write |
| `LookupProperties.NoAddressFallsBackToDefault` | src/main/java/net/aboodyy/localtime/DateManager.java:81-87 | with no address the answer is the default; it is written to the cache only, the sticky map is unchanged, and no attempt is made |
| `LookupProperties.NoAddressFallbackExpires` | src/main/java/net/aboodyy/localtime/DateManager.java:81-87 | after the no-address fallback the next request answers the default; within 1440 minutes it changes nothing, and after that it rewrites the cache entry only |
| `LookupProperties.WorkerAttempts` | src/main/java/net/aboodyy/localtime/DateManager.java:92-119 | the worker makes one to three attempts; only an exception leads to another attempt; it sleeps once per exception, including after the last attempt |
| `LookupProperties.WorkerCachesLineVerbatim` | src/main/java/net/aboodyy/localtime/DateManager.java:103-119 | the line of the last attempt that read one is written to the cache verbatim, whatever its case, even if closing the reader then threw; when no attempt read a line the cache is unchanged |
| `LookupProperties.WorkerWritesStickyAnswer` | src/main/java/net/aboodyy/localtime/DateManager.java:122-128 | after the worker the sticky map maps the UUID to the answer and is otherwise unchanged; the answer is the line read, or the default when there is no line or the line is "undefined" ignoring case; it is never "undefined" unless the default is |
| `LookupProperties.WorkerAllAttemptsThrow` | src/main/java/net/aboodyy/localtime/DateManager.java:113-127 | if all three attempts throw before reading a line, the cache is unchanged, the sticky map gets the default, and there are three attempts and three delays |
| `LookupProperties.ResolvedPlayerIsNotLookedUpAgain` | src/main/java/net/aboodyy/localtime/DateManager.java:71-79 | after the worker has run, no later request for the player makes an attempt or changes a store; it returns the line the worker cached while that entry is live, and the worker's answer after that |
| `LookupProperties.GetTimeZoneKeepsStickyResolved` | src/main/java/net/aboodyy/localtime/DateManager.java:122-127 | if the default is not "undefined", a request keeps every sticky value different from "undefined" ignoring case |
| `LookupProperties.ClearEmptiesBothStores` | src/main/java/net/aboodyy/localtime/DateManager.java:141-144 | `clear()` leaves both stores empty whatever they held, so clearing twice equals clearing once |
| `LookupProperties.RequestAfterClearMisses` | src/main/java/net/aboodyy/localtime/DateManager.java:141-144 | after `clear()` a request for a player with an address goes straight to the worker over empty stores |
| `LookupProperties.FirstAttemptAnswers` | src/main/java/net/aboodyy/localtime/DateManager.java:91-128 | a first-attempt line "Europe/Berlin" is the request's answer, written to both stores, after one attempt and no delay |
| `LookupProperties.EmptyBodyEndsAfterOneAttempt` | src/main/java/net/aboodyy/localtime/DateManager.java:104-111 | a null first line ends the loop after one attempt with no delay; the default goes into the sticky map and the cache stays empty |
| `LookupProperties.CloseFailureKeepsCachedLine` | src/main/java/net/aboodyy/localtime/DateManager.java:103-119 | a line cached before closing the reader throws stays cached; if the other attempts throw, the sticky map gets the default after three attempts and three delays |
| `LocalTime.DateManager.constructor` | src/main/java/net/aboodyy/localtime/DateManager.java:50-57 | a new manager has both stores empty and a retry delay of 5 seconds |
| `LocalTime.DateManager.GetTimeZone` | src/main/java/net/aboodyy/localtime/DateManager.java:68-129 | the answer and the new stores are those of the lookup specification; the time slept is delays × retryDelay seconds; sticky values stay free of "undefined" when the default is |
| `LocalTime.DateManager.Resolve` | src/main/java/net/aboodyy/localtime/DateManager.java:91-129 | the retry loop's in-place updates of result, retries and the cache, then the fallback and sticky write, give exactly the worker of the specification |
| `LocalTime.DateManager.Clear` | src/main/java/net/aboodyy/localtime/DateManager.java:141-144 | both stores are empty afterwards and the retry delay is kept |

## Left out

- `getDate` (DateManager.java:59-66) is not modelled. It formats the wall-clock date with `SimpleDateFormat` and `TimeZone` and has no logic of its own.
- The HTTP request is not modelled: URL construction, `URLConnection`, the 5-second timeouts, the User-Agent header and `BufferedReader`. Each attempt is reduced to its outcome, supplied by the caller.
- The single-thread executor, `CompletableFuture.supplyAsync` and `shutdown` are not modelled. The worker runs sequentially to completion inside the request, so races with `clear()` are not captured.
- Overlapping requests for one player are not modelled. In the code, two requests made before the first worker finishes each start a worker, and each repeats the lookup attempts, because requests are not coalesced. The model runs each worker to completion inside its request, so it cannot express this. `LookupProperties.ResolvedPlayerIsNotLookedUpAgain` covers only requests made after the worker has finished.
- `Thread.sleep` is not modelled as time passing. Sleeps are counted, and the cache write uses the request's time.
- The `exceptionally` handler (DateManager.java:131-136) is not modelled. The worker's loop catches every `Exception`, so it is practically unreachable, and the future it returns is discarded. If it ran, it would write the default into both stores.
- Log messages and the player's name, which only appears in them, are not modelled.
- Guava's cache internals are not modelled. Guava removes expired entries lazily, and a read cannot see that removal, so the model keeps expired entries and treats them as misses.
- `UUID.toString()` formatting is not modelled. A UUID is identified with its canonical text, which keeps the UUID-to-key mapping injective as in Java.
- `TimeZone.getDefault().getID()` is a parameter: the default timezone is whatever the caller passes.
- LocalTime.DateManager.GetTimeZone: returns the worker's finished result instead of a future, because the worker is modelled as running to completion.
