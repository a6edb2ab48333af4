/**
 * `test_turso_simple.ts`: the generic `withRetry` helper with exponential
 * back-off, and the bucketing of the `image_webp_status` group counts.
 */
module TursoSimple {
  import opened Text

  // ------------------------------------------------------------------ withRetry

  /** A value thrown by `fn`: an `Error`, or anything else. */
  datatype Raised = ErrorValue(message: string) | OtherValue(text: string)

  /** One call of `fn`: it resolves to a value or throws. */
  datatype Attempt<T> = Ok(value: T) | Fail(raised: Raised)

  /** `error instanceof Error ? error : new Error(String(error))`. */
  function Wrap(e: Raised): (w: Raised)
    ensures w.ErrorValue?
    ensures e.ErrorValue? ==> w == e
  {
    match e
    case ErrorValue(_) => e
    case OtherValue(t) => ErrorValue(t)
  }

  /**
   * How `withRetry` ends: with `fn`'s value, or throwing `lastError`
   * (`None` is the `null` thrown when no attempt was made). `calls` counts
   * the calls of `fn` and `sleeps` lists the waits in order.
   */
  datatype Outcome<T> =
    | Returned(value: T, calls: nat, sleeps: seq<int>)
    | Thrown(error: Option<Raised>, calls: nat, sleeps: seq<int>)

  function Pow2(k: nat): (p: nat)
    ensures p >= 1
  {
    if k == 0 then 1 else 2 * Pow2(k - 1)
  }

  /** The waits after the first `n` failures: delayMs, 2·delayMs, 4·delayMs, … */
  function Backoff(delayMs: int, n: nat): (r: seq<int>)
    ensures |r| == n
    ensures forall k :: 0 <= k < n ==> r[k] == delayMs * Pow2(k)
  {
    if n == 0 then [] else Backoff(delayMs, n - 1) + [delayMs * Pow2(n - 1)]
  }

  /**
   * `withRetry(fn, maxRetries, delayMs)`, with `fn(i)` the outcome of the
   * i-th call. It stops at the first value; it sleeps only between attempts,
   * the k-th sleep lasting delayMs·2^(k-1); after the last failure it throws
   * that failure, wrapped; with `maxRetries <= 0` it never calls `fn` and
   * throws `null`.
   */
  method WithRetry<T>(fn: nat -> Attempt<T>, maxRetries: int, delayMs: int) returns (r: Outcome<T>)
    ensures r.calls <= if maxRetries > 0 then maxRetries else 0
    ensures r.Returned? ==>
      && 1 <= r.calls
      && fn(r.calls - 1) == Ok(r.value)
      && forall k :: 0 <= k < r.calls - 1 ==> fn(k).Fail?
    ensures r.Thrown? ==>
      && (forall k :: 0 <= k < maxRetries ==> fn(k).Fail?)
      && r.calls == (if maxRetries > 0 then maxRetries else 0)
      && r.error == (if maxRetries <= 0 then None else Some(Wrap(fn(maxRetries - 1).raised)))
    ensures r.sleeps == Backoff(delayMs, if r.calls == 0 then 0 else r.calls - 1)
  {
    var lastError: Option<Raised> := None;
    var delay := delayMs;
    var sleeps: seq<int> := [];
    var i := 0;
    while i < maxRetries
      invariant 0 <= i && (maxRetries > 0 ==> i <= maxRetries)
      invariant maxRetries <= 0 ==> i == 0
      invariant forall k :: 0 <= k < i ==> fn(k).Fail?
      invariant i == 0 ==> lastError == None
      invariant i > 0 ==> lastError == Some(Wrap(fn(i - 1).raised))
      invariant sleeps == Backoff(delayMs, if i == 0 then 0 else if i < maxRetries then i else i - 1)
      invariant i < maxRetries ==> delay == delayMs * Pow2(|sleeps|)
    {
      var attempt := fn(i);
      if attempt.Ok? {
        return Returned(attempt.value, i + 1, sleeps);
      }
      lastError := Some(Wrap(attempt.raised));
      if i < maxRetries - 1 {
        sleeps := sleeps + [delay];
        delay := delay * 2;
      }
      i := i + 1;
    }
    r := Thrown(lastError, i, sleeps);
  }

  /** `withRetry` with its defaults (3 attempts, 1000 ms) waits 1000 ms then 2000 ms before giving up. */
  lemma DefaultBackoff()
    ensures Backoff(1000, 2) == [1000, 2000]
  {
    assert Pow2(1) == 2;
  }

  // ------------------------------------------------------------------ status bucketing

  /** A row of `GROUP BY image_webp_status`: the status and its count, either possibly null. */
  datatype StatusRow = StatusRow(status: Option<int>, count: Option<int>)

  datatype WebpStatus = WebpStatus(total: int, pending: int, completed: int, failed: int, abnormal: int)

  /** A null status counts as 0. */
  function StatusOf(row: StatusRow): int {
    if row.status.Some? then row.status.value else 0
  }

  function CountOf(row: StatusRow): int {
    if row.count.Some? then row.count.value else 0
  }

  /** The count of the last row whose status is `s`, or 0 when there is none. */
  function LastCount(rows: seq<StatusRow>, s: int): int {
    if rows == [] then 0
    else if StatusOf(rows[|rows| - 1]) == s then CountOf(rows[|rows| - 1])
    else LastCount(rows[..|rows| - 1], s)
  }

  predicate Known(s: int) { s == 0 || s == 1 || s == 2 }

  /** The sum of the counts of the rows whose status is not 0, 1 or 2. */
  function OtherSum(rows: seq<StatusRow>): int {
    if rows == [] then 0
    else OtherSum(rows[..|rows| - 1]) + (if Known(StatusOf(rows[|rows| - 1])) then 0 else CountOf(rows[|rows| - 1]))
  }

  /** The row `i` is the last row with status `s`. */
  predicate LastWith(rows: seq<StatusRow>, s: int, i: int) {
    0 <= i < |rows| && StatusOf(rows[i]) == s && forall j :: i < j < |rows| ==> StatusOf(rows[j]) != s
  }

  /** Statuses 0, 1 and 2 take the count of the last row with that status, not a sum. */
  lemma {:induction false} LastCountMeaning(rows: seq<StatusRow>, s: int, i: int)
    requires LastWith(rows, s, i)
    ensures LastCount(rows, s) == CountOf(rows[i])
  {
    if i < |rows| - 1 {
      assert LastWith(rows[..|rows| - 1], s, i);
      LastCountMeaning(rows[..|rows| - 1], s, i);
    }
  }

  lemma {:induction false} LastCountNone(rows: seq<StatusRow>, s: int)
    requires forall j :: 0 <= j < |rows| ==> StatusOf(rows[j]) != s
    ensures LastCount(rows, s) == 0
  {
    if rows != [] {
      LastCountNone(rows[..|rows| - 1], s);
    }
  }

  /** A null group and a 0 group both land in `pending`, and only the later count survives. */
  lemma NullThenZero(x: int, y: int)
    ensures LastCount([StatusRow(None, Some(x)), StatusRow(Some(0), Some(y))], 0) == y
  {
  }

  /** Other statuses add up in `abnormal`: with non-negative counts it is at least each one. */
  lemma {:induction false} OtherSumCovers(rows: seq<StatusRow>, i: int)
    requires 0 <= i < |rows| && !Known(StatusOf(rows[i]))
    requires forall j :: 0 <= j < |rows| ==> CountOf(rows[j]) >= 0
    ensures OtherSum(rows) >= CountOf(rows[i])
  {
    var init := rows[..|rows| - 1];
    if i < |rows| - 1 {
      OtherSumCovers(init, i);
    } else {
      OtherSumNonNegative(init);
    }
  }

  lemma {:induction false} OtherSumNonNegative(rows: seq<StatusRow>)
    requires forall j :: 0 <= j < |rows| ==> CountOf(rows[j]) >= 0
    ensures OtherSum(rows) >= 0
  {
    if rows != [] {
      OtherSumNonNegative(rows[..|rows| - 1]);
    }
  }

  function Bucketed(total: int, rows: seq<StatusRow>): WebpStatus {
    WebpStatus(total, LastCount(rows, 0), LastCount(rows, 1), LastCount(rows, 2), OtherSum(rows))
  }

  /** The `forEach` over the status groups. */
  method BucketStatuses(total: int, rows: seq<StatusRow>) returns (q: WebpStatus)
    ensures q == Bucketed(total, rows)
  {
    q := WebpStatus(total, 0, 0, 0, 0);
    for i := 0 to |rows|
      invariant q == Bucketed(total, rows[..i])
    {
      assert rows[..i + 1][..i] == rows[..i];
      var row := rows[i];
      var status := if row.status.Some? then row.status.value else 0;
      var count := if row.count.Some? then row.count.value else 0;
      if status == 0 {
        q := q.(pending := count);
      } else if status == 1 {
        q := q.(completed := count);
      } else if status == 2 {
        q := q.(failed := count);
      } else {
        q := q.(abnormal := q.abnormal + count);
      }
    }
    assert rows[..|rows|] == rows;
  }
}
