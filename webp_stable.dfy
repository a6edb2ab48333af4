/**
 * `webp:stable`: fetches pending cases five at a time and processes them one
 * by one until none is pending or 100 have been handled in this run, writing
 * each case's status and counting successes and failures. The image
 * processing (raced with its 30 s timeout) is an oracle; the table is a
 * sequence of rows whose status changes are tracked by the set of ids
 * written so far.
 */
module WebpStable {
  import opened WebpCommon
  import ImageProcessor

  type HfFile = ImageProcessor.HfFile

  /** `.limit(batchSize)` with `batchSize = 5`. */
  const FetchLimit := 5

  const MaxProcessedInRun := 100

  /** The query's filter: status 0 and a non-null url_path; a written case no longer has status 0. */
  predicate Eligible(r: CaseRecord, written: set<int>) {
    r.webpStatus == 0 && r.urlPath.Some? && r.id !in written
  }

  /** The rows the query can return, in table order. */
  function Pending(rows: seq<CaseRecord>, written: set<int>): (p: seq<CaseRecord>)
    ensures |p| <= |rows|
    ensures forall k :: 0 <= k < |p| ==> p[k] in rows && Eligible(p[k], written)
  {
    if rows == [] then []
    else
      var rest := Pending(rows[1..], written);
      var p := (if Eligible(rows[0], written) then [rows[0]] else []) + rest;
      assert forall k :: 0 <= k < |rest| ==> rest[k] in rows[1..];
      p
  }

  /** Every eligible row is pending: the query misses none. */
  lemma {:induction false} PendingComplete(rows: seq<CaseRecord>, written: set<int>, r: CaseRecord)
    requires r in rows && Eligible(r, written)
    ensures r in Pending(rows, written)
  {
    if rows[0] != r {
      assert r in rows[1..];
      PendingComplete(rows[1..], written, r);
    }
  }

  /** One fetch: at most five pending cases, none only when nothing is pending. */
  function Fetch(rows: seq<CaseRecord>, written: set<int>): (r: seq<CaseRecord>)
    ensures |r| <= FetchLimit
    ensures r == [] <==> Pending(rows, written) == []
    ensures forall k :: 0 <= k < |r| ==> r[k] in rows && Eligible(r[k], written)
  {
    var p := Pending(rows, written);
    if |p| <= FetchLimit then p else p[..FetchLimit]
  }

  function IdSet(s: seq<CaseRecord>): set<int> {
    set k | 0 <= k < |s| :: s[k].id
  }

  /** No two rows share an id: each row's id is none of the later rows' ids. */
  predicate DistinctIds(s: seq<CaseRecord>) {
    s == [] || (s[0].id !in IdSet(s[1..]) && DistinctIds(s[1..]))
  }

  /** An id no row has does not change what is pending. */
  lemma {:induction false} PendingIgnores(rows: seq<CaseRecord>, written: set<int>, x: int)
    requires forall k :: 0 <= k < |rows| ==> rows[k].id != x
    ensures Pending(rows, written + {x}) == Pending(rows, written)
  {
    if rows != [] {
      PendingIgnores(rows[1..], written, x);
    }
  }

  lemma IdSetCons(r: CaseRecord, s: seq<CaseRecord>)
    ensures IdSet([r] + s) == IdSet(s) + {r.id}
  {
    var t := [r] + s;
    forall x | x in IdSet(t) ensures x in IdSet(s) + {r.id} {
      var k :| 0 <= k < |t| && t[k].id == x;
      if k > 0 {
        assert s[k - 1].id == x;
      }
    }
    forall x | x in IdSet(s) ensures x in IdSet(t) {
      var k :| 0 <= k < |s| && s[k].id == x;
      assert t[k + 1].id == x;
    }
    assert t[0].id == r.id;
  }

  /**
   * With distinct ids, once the first `m` pending cases are written, the
   * pending cases are exactly the rest: each case is fetched once, in order.
   */
  lemma {:induction false} PendingAfter(rows: seq<CaseRecord>, m: nat)
    requires DistinctIds(rows)
    requires m <= |Pending(rows, {})|
    ensures Pending(rows, IdSet(Pending(rows, {})[..m])) == Pending(rows, {})[m..]
  {
    var p := Pending(rows, {});
    if m == 0 {
      assert IdSet(p[..0]) == {};
      PendingEmpty(rows);
    } else {
      var r := rows[0];
      var tail := rows[1..];
      var p' := Pending(tail, {});
      if Eligible(r, {}) {
        assert p == [r] + p';
        var d' := IdSet(p'[..m - 1]);
        assert p[..m] == [r] + p'[..m - 1];
        IdSetCons(r, p'[..m - 1]);
        assert forall k :: 0 <= k < |tail| ==> tail[k].id in IdSet(tail);
        PendingIgnores(tail, d', r.id);
        PendingAfter(tail, m - 1);
      } else {
        assert p == p';
        PendingAfter(tail, m);
      }
    }
  }

  /** With distinct ids, a fetch after the first `m` pending cases returns the next ones. */
  lemma FetchAfter(rows: seq<CaseRecord>, m: nat)
    requires DistinctIds(rows)
    requires m <= |Pending(rows, {})|
    ensures var p := Pending(rows, {}); var r := Fetch(rows, IdSet(p[..m]));
      m + |r| <= |p| && r == p[m..m + |r|]
  {
    PendingAfter(rows, m);
  }

  /** Nothing written yet: the query sees every eligible row. */
  lemma {:induction false} PendingEmpty(rows: seq<CaseRecord>)
    ensures Pending(rows, IdSet([])) == Pending(rows, {})
  {
    assert IdSet([]) == {};
  }

  lemma IdSetSnoc(s: seq<CaseRecord>, r: CaseRecord)
    ensures IdSet(s + [r]) == IdSet(s) + {r.id}
  {
    var t := s + [r];
    forall x | x in IdSet(t) ensures x in IdSet(s) + {r.id} {
      var k :| 0 <= k < |t| && t[k].id == x;
      if k < |s| {
        assert s[k].id == x;
      }
    }
    forall x | x in IdSet(s) ensures x in IdSet(t) {
      var k :| 0 <= k < |s| && s[k].id == x;
      assert t[k].id == x;
    }
    assert t[|s|].id == r.id;
  }

  lemma PrefixSnoc(s: seq<CaseRecord>, p: seq<CaseRecord>)
    requires |s| < |p| && s == p[..|s|]
    ensures s + [p[|s|]] == p[..|s| + 1]
  {
  }

  // ------------------------------------------------------------------ the counters

  /** How each handled case ended, `process(k)` being the outcome of the k-th case handled. */
  function Handlings(handled: seq<CaseRecord>, process: nat -> Processing<HfFile>): (hs: seq<Handling<HfFile>>)
    ensures |hs| == |handled|
  {
    seq(|handled|, k requires 0 <= k < |handled| => Classify(handled[k], process(k)))
  }

  lemma HandlingsSnoc(handled: seq<CaseRecord>, process: nat -> Processing<HfFile>, rec: CaseRecord, h: Handling<HfFile>)
    requires h == Classify(rec, process(|handled|))
    ensures Handlings(handled + [rec], process) == Handlings(handled, process) + [h]
  {
    var a := Handlings(handled + [rec], process);
    var b := Handlings(handled, process) + [h];
    forall k | 0 <= k < |a| ensures a[k] == b[k] {
      if k < |handled| {
        assert (handled + [rec])[k] == handled[k];
      }
    }
  }

  /** `processedInThisRun`: cases with images whose processing finished. */
  function Successes(hs: seq<Handling<HfFile>>): nat {
    if hs == [] then 0 else Successes(hs[..|hs| - 1]) + (if hs[|hs| - 1].Done? then 1 else 0)
  }

  /** `failedCases`: cases whose processing threw or timed out. */
  function Failures(hs: seq<Handling<HfFile>>): nat {
    if hs == [] then 0 else Failures(hs[..|hs| - 1]) + (if hs[|hs| - 1].Failed? then 1 else 0)
  }

  /** `totalImagesInThisRun`: the image counts of the successful cases. */
  function Images(hs: seq<Handling<HfFile>>): nat {
    if hs == [] then 0 else Images(hs[..|hs| - 1]) + (if hs[|hs| - 1].Done? then hs[|hs| - 1].count else 0)
  }

  lemma CountStep(hs: seq<Handling<HfFile>>, h: Handling<HfFile>)
    ensures Successes(hs + [h]) == Successes(hs) + (if h.Done? then 1 else 0)
    ensures Failures(hs + [h]) == Failures(hs) + (if h.Failed? then 1 else 0)
    ensures Images(hs + [h]) == Images(hs) + (if h.Done? then h.count else 0)
  {
    assert (hs + [h])[..|hs|] == hs;
  }

  /** A case counts as a success or a failure at most once; no case is in neither exactly when none lacked images. */
  lemma {:induction false} CountsCover(hs: seq<Handling<HfFile>>)
    ensures Successes(hs) + Failures(hs) <= |hs|
    ensures Successes(hs) + Failures(hs) == |hs| <==> forall k :: 0 <= k < |hs| ==> !hs[k].NoImages?
  {
    if hs != [] {
      var n := |hs| - 1;
      CountsCover(hs[..n]);
      assert forall k :: 0 <= k < n ==> hs[..n][k] == hs[k];
    }
  }

  // ------------------------------------------------------------------ the command

  /** The body of the `try` for one case: its status write, and how it ended. */
  method HandleCase(rec: CaseRecord, result: Processing<HfFile>) returns (w: StatusWrite, h: Handling<HfFile>)
    ensures h == Classify(rec, result)
    ensures w == WriteFor(rec, h)
  {
    var urls := ImgUrls(rec.caseHtml);
    if |urls| == 0 {
      w := StatusWrite(rec.id, 1, 0);
      h := NoImages;
      return;
    }
    var cleanPath := CleanPath(rec.urlPath);
    match result {
      case Threw =>
        w := StatusWrite(rec.id, 2, 0);
        h := Failed;
      case Processed(caseImageCount, processedForHf) =>
        w := StatusWrite(rec.id, 1, caseImageCount);
        h := Done(caseImageCount, processedForHf);
    }
  }

  /** The cases of a batch were eligible when fetched, so before anything was written. */
  lemma BatchEligible(rows: seq<CaseRecord>, before: seq<CaseRecord>, records: seq<CaseRecord>, n: nat, written: set<int>)
    requires n <= |records|
    requires forall k :: 0 <= k < |before| ==> before[k] in rows && Eligible(before[k], {})
    requires forall k :: 0 <= k < |records| ==> records[k] in rows && Eligible(records[k], written)
    ensures var h := before + records[..n]; forall k :: 0 <= k < |h| ==> h[k] in rows && Eligible(h[k], {})
  {
    var h := before + records[..n];
    forall k | 0 <= k < |h| ensures h[k] in rows && Eligible(h[k], {}) {
      if k >= |before| {
        assert h[k] == records[k - |before|];
      }
    }
  }

  /** Handling the first `n` cases of a batch that continues the pending list extends the prefix by `n`. */
  lemma PrefixExtend(before: seq<CaseRecord>, p: seq<CaseRecord>, records: seq<CaseRecord>, n: nat)
    requires |before| + |records| <= |p| && before == p[..|before|]
    requires records == p[|before|..|before| + |records|] && n <= |records|
    ensures before + records[..n] == p[..|before| + n]
  {
    assert records[..n] == p[|before|..|before| + n];
  }

  /**
   * Every handled case was pending when the run started; with distinct ids
   * the handled cases are the first pending ones, in table order, so none
   * is handled twice.
   */
  predicate FetchedInOrder(rows: seq<CaseRecord>, handled: seq<CaseRecord>) {
    && (forall k :: 0 <= k < |handled| ==> handled[k] in rows && Eligible(handled[k], {}))
    && (DistinctIds(rows) ==> |handled| <= |Pending(rows, {})| && handled == Pending(rows, {})[..|handled|])
  }

  /** Handling the first cases of a fetch keeps the handled cases the pending ones in order. */
  lemma BatchFetchedInOrder(rows: seq<CaseRecord>, before: seq<CaseRecord>, records: seq<CaseRecord>, after: seq<CaseRecord>)
    requires FetchedInOrder(rows, before)
    requires records == Fetch(rows, IdSet(before))
    requires |before| <= |after| <= |before| + |records| && after == before + records[..|after| - |before|]
    ensures FetchedInOrder(rows, after)
  {
    var n := |after| - |before|;
    BatchEligible(rows, before, records, n, IdSet(before));
    if DistinctIds(rows) {
      FetchAfter(rows, |before|);
      PrefixExtend(before, Pending(rows, {}), records, n);
    }
  }

  /** The run's counters and what it has handled so far, `processedInThisRun` and the others as in the source. */
  datatype Tally = Tally(handled: seq<CaseRecord>, writes: seq<StatusWrite>,
                         processedInThisRun: nat, totalImagesInThisRun: nat, failedCases: nat)

  /** One write per handled case, and the counters agree with how the cases ended. */
  predicate Counted(t: Tally, process: nat -> Processing<HfFile>) {
    var hs := Handlings(t.handled, process);
    && |t.writes| == |t.handled|
    && (forall k :: 0 <= k < |t.handled| ==> t.writes[k] == WriteFor(t.handled[k], hs[k]))
    && t.processedInThisRun == Successes(hs)
    && t.failedCases == Failures(hs)
    && t.totalImagesInThisRun == Images(hs)
  }

  /** One case handled: its write appended, and the counter of its outcome incremented. */
  lemma CountedStep(t: Tally, process: nat -> Processing<HfFile>, rec: CaseRecord, w: StatusWrite, h: Handling<HfFile>)
    requires Counted(t, process)
    requires h == Classify(rec, process(|t.handled|)) && w == WriteFor(rec, h)
    ensures Counted(Tally(t.handled + [rec], t.writes + [w],
                          t.processedInThisRun + (if h.Done? then 1 else 0),
                          t.totalImagesInThisRun + (if h.Done? then h.count else 0),
                          t.failedCases + (if h.Failed? then 1 else 0)), process)
  {
    var hs := Handlings(t.handled, process);
    HandlingsSnoc(t.handled, process, rec, h);
    CountStep(hs, h);
    var handled := t.handled + [rec];
    var writes := t.writes + [w];
    forall k | 0 <= k < |handled| ensures writes[k] == WriteFor(handled[k], (hs + [h])[k]) {
      if k < |t.handled| {
        assert writes[k] == t.writes[k] && handled[k] == t.handled[k] && (hs + [h])[k] == hs[k];
      }
    }
  }

  /**
   * The `for (const record of records)` loop: counts each case in
   * `processedSoFar` and stops, before handling it, at the 101st.
   */
  method ProcessBatch(records: seq<CaseRecord>, process: nat -> Processing<HfFile>, processedSoFar: nat, t: Tally)
    returns (processedSoFar': nat, t': Tally)
    requires processedSoFar == |t.handled| < MaxProcessedInRun && |records| > 0
    requires Counted(t, process)
    ensures Counted(t', process)
    ensures processedSoFar < processedSoFar' <= MaxProcessedInRun + 1
    ensures |t'.handled| == if processedSoFar' <= MaxProcessedInRun then processedSoFar' else MaxProcessedInRun
    ensures |t'.handled| - |t.handled| <= |records|
    ensures t'.handled == t.handled + records[..|t'.handled| - |t.handled|]
    ensures |t'.handled| - |t.handled| == |records| || |t'.handled| == MaxProcessedInRun
  {
    processedSoFar' := processedSoFar;
    t' := t;
    for j := 0 to |records|
      invariant processedSoFar' == processedSoFar + j <= MaxProcessedInRun
      invariant |t'.handled| == processedSoFar' && t'.handled == t.handled + records[..j]
      invariant Counted(t', process)
    {
      processedSoFar' := processedSoFar' + 1;
      if processedSoFar' > MaxProcessedInRun {
        break;
      }
      var rec := records[j];
      var w, h := HandleCase(rec, process(processedSoFar' - 1));
      CountedStep(t', process, rec, w, h);
      var processedInThisRun, totalImagesInThisRun, failedCases := t'.processedInThisRun, t'.totalImagesInThisRun, t'.failedCases;
      if h.Done? {
        processedInThisRun := processedInThisRun + 1;
        totalImagesInThisRun := totalImagesInThisRun + h.count;
      } else if h.Failed? {
        failedCases := failedCases + 1;
      }
      assert records[..j + 1] == records[..j] + [rec];
      t' := Tally(t'.handled + [rec], t'.writes + [w], processedInThisRun, totalImagesInThisRun, failedCases);
    }
  }

  /**
   * `run()`: the cases handled in order, their status writes, and the three
   * counters. At most 100 cases are handled, and the run stops early only
   * when nothing is pending; with distinct ids they are the first pending
   * cases in table order. The ids written so far stand for the status
   * changes the query sees.
   */
  method Run(rows: seq<CaseRecord>, process: nat -> Processing<HfFile>) returns (t: Tally)
    ensures |t.handled| <= MaxProcessedInRun
    ensures |t.handled| == MaxProcessedInRun || Pending(rows, IdSet(t.handled)) == []
    ensures FetchedInOrder(rows, t.handled)
    ensures Counted(t, process)
  {
    t := Tally([], [], 0, 0, 0);
    var processedSoFar := 0;
    while processedSoFar < MaxProcessedInRun
      invariant processedSoFar <= MaxProcessedInRun + 1
      invariant |t.handled| == if processedSoFar <= MaxProcessedInRun then processedSoFar else MaxProcessedInRun
      invariant FetchedInOrder(rows, t.handled)
      invariant Counted(t, process)
      decreases MaxProcessedInRun - processedSoFar
    {
      var records := Fetch(rows, IdSet(t.handled));
      if |records| == 0 {
        break;
      }
      ghost var before := t.handled;
      processedSoFar, t := ProcessBatch(records, process, processedSoFar, t);
      BatchFetchedInOrder(rows, before, records, t.handled);
    }
  }
}
