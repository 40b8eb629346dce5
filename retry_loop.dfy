/**
 * The worker's bounded retry loop, `while (retries-- > 0) { try { ... } catch (Exception e) { ... } }`,
 * with the network request replaced by the outcome each attempt would have.
 */
module RetryLoop {
  import opened Wrappers

  /** The worker starts with `retries = 3`. */
  const MaxAttempts: nat := 3

  /**
   * What one attempt at the lookup service ends in:
   * - `Throws`: an exception in connecting or reading before any line was read
   *   (this also covers a null line followed by an exception from closing the
   *   reader, which has the same effect);
   * - `NullLine`: `readLine()` returned null and the reader closed normally;
   * - `Line(text)`: a first line was read and the reader closed normally;
   * - `LineThenThrows(text)`: a first line was read and written to the cache, then
   *   closing the reader threw. In the try-with-resources the exception replaces
   *   the `break`, so the catch block resets the result, sleeps and goes round again.
   */
  datatype Attempt = Throws | NullLine | Line(text: string) | LineThenThrows(text: string) {

    /** The attempt ends in the catch block, so the loop sleeps and may go round again. */
    predicate IsException()
    {
      Throws? || LineThenThrows?
    }

    /** The attempt read a line and wrote it to the cache. */
    predicate ReadsLine()
    {
      Line? || LineThenThrows?
    }
  }

  /**
   * How the loop ended: the last line it wrote to the cache (if any), the line held
   * in `result` when the loop ended (if any), how many attempts it made, and how
   * many times it slept `retryDelay` seconds.
   */
  datatype LoopEnd = LoopEnd(cached: Option<string>, result: Option<string>, attempts: nat, delays: nat)

  /**
   * The loop entered before attempt number `next` (counting from 0) with `retries`
   * attempts left, every earlier attempt having ended in an exception, and
   * `written` the last line written to the cache so far. An exception sleeps once
   * and goes round again; a read that completes, null or not, breaks out.
   */
  function Run(outcomes: seq<Attempt>, next: nat, retries: nat, written: Option<string>): LoopEnd
    requires next + retries <= |outcomes|
    decreases retries
  {
    if retries == 0 then LoopEnd(written, None, next, next)
    else
      match outcomes[next]
      case Throws => Run(outcomes, next + 1, retries - 1, written)
      case LineThenThrows(s) => Run(outcomes, next + 1, retries - 1, Some(s))
      case NullLine => LoopEnd(written, None, next + 1, next)
      case Line(s) => LoopEnd(Some(s), Some(s), next + 1, next)
  }

  /**
   * Reference definition: the first attempt in [from, to) that did not end in an
   * exception, or `to` when every one of them did.
   */
  function FirstCompletion(outcomes: seq<Attempt>, from: nat, to: nat): (k: nat)
    requires from <= to <= |outcomes|
    ensures from <= k <= to
    ensures forall j :: from <= j < k ==> outcomes[j].IsException()
    ensures k < to ==> !outcomes[k].IsException()
    decreases |outcomes| - from
  {
    if from == to || !outcomes[from].IsException() then from else FirstCompletion(outcomes, from + 1, to)
  }

  /**
   * Reference definition: the text of the last attempt in [from, to) that read a
   * line, or nothing when none of them did.
   */
  function LastLine(outcomes: seq<Attempt>, from: nat, to: nat): (r: Option<string>)
    requires from <= to <= |outcomes|
    ensures r.None? <==> forall j :: from <= j < to ==> !outcomes[j].ReadsLine()
    ensures r.Some? ==> exists j :: from <= j < to && outcomes[j].ReadsLine() && outcomes[j].text == r.value &&
                                    forall i :: j < i < to ==> !outcomes[i].ReadsLine()
    decreases |outcomes| - from
  {
    if from == to then None
    else
      var rest := LastLine(outcomes, from + 1, to);
      if rest.Some? then rest
      else if outcomes[from].ReadsLine() then Some(outcomes[from].text)
      else None
  }

  /**
   * The loop stops right after the first attempt that does not end in an exception,
   * having slept once per exception; `result` holds a line only when that attempt
   * read one, and the cache holds the last line any attempt read.
   */
  lemma {:induction false} RunIsFirstCompletion(outcomes: seq<Attempt>, next: nat, retries: nat, written: Option<string>)
    requires next + retries <= |outcomes|
    ensures var e := Run(outcomes, next, retries, written);
            var k := FirstCompletion(outcomes, next, next + retries);
            && e.delays == k
            && e.attempts == (if k < next + retries then k + 1 else k)
            && e.result == (if k < next + retries && outcomes[k].Line? then Some(outcomes[k].text) else None)
            && next <= e.attempts <= next + retries
            && e.cached == (var last := LastLine(outcomes, next, e.attempts); if last.Some? then last else written)
    decreases retries
  {
    if retries > 0 {
      match outcomes[next]
      case Throws => RunIsFirstCompletion(outcomes, next + 1, retries - 1, written);
      case LineThenThrows(s) => RunIsFirstCompletion(outcomes, next + 1, retries - 1, Some(s));
      case NullLine =>
      case Line(s) =>
    }
  }

  /**
   * The worker's loop, started with three retries and nothing cached: it makes one to
   * three attempts; every attempt but the last ended in an exception; the last is the
   * first that did not, unless all three did; it sleeps once per exception (also after
   * the third); `result` holds a line exactly when the last attempt read one normally;
   * and the cache was last written with the line of the last attempt that read one.
   */
  lemma RetryLoopContract(outcomes: seq<Attempt>)
    requires |outcomes| == MaxAttempts
    ensures var e := Run(outcomes, 0, MaxAttempts, None);
            && 1 <= e.attempts <= MaxAttempts
            && (forall j :: 0 <= j < e.attempts - 1 ==> outcomes[j].IsException())
            && (e.attempts < MaxAttempts ==> !outcomes[e.attempts - 1].IsException())
            && e.delays == (if outcomes[e.attempts - 1].IsException() then e.attempts else e.attempts - 1)
            && e.result == (if outcomes[e.attempts - 1].Line? then Some(outcomes[e.attempts - 1].text) else None)
            && e.cached == LastLine(outcomes, 0, e.attempts)
  {
    RunIsFirstCompletion(outcomes, 0, MaxAttempts, None);
  }

  /** When every attempt throws before reading a line: three attempts, three delays, nothing cached, no result. */
  lemma AllThrow(outcomes: seq<Attempt>)
    requires |outcomes| == MaxAttempts
    requires forall j :: 0 <= j < |outcomes| ==> outcomes[j] == Throws
    ensures Run(outcomes, 0, MaxAttempts, None) == LoopEnd(None, None, MaxAttempts, MaxAttempts)
  {
    RetryLoopContract(outcomes);
  }
}
