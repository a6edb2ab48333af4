/**
 * `webp:run`: processes one batch of pending cases, writes each case's
 * status, and queues the processed files for a Hugging Face batch upload
 * that is tried (up to three times) once `batchSize` cases have succeeded.
 * The image processing, the upload and the database are oracles.
 */
module WebpRun {
  import opened Text
  import opened WebpCommon
  import ImageProcessor

  type HfFile = ImageProcessor.HfFile

  /** `parseInt(this.batchSize || '3') || 3`: never 0; a missing or empty argument gives 3. */
  function BatchSize(arg: Option<string>): (n: int)
    ensures n != 0
    ensures Given(arg) ==> n == ParseIntOr(arg.value, 3)
  {
    ParseIntOr(if Given(arg) then arg.value else "3", 3)
  }

  lemma DefaultBatchSize()
    ensures BatchSize(None) == 3
  {
    ParseNatToString(3);
    assert NatToString(3) == "3";
  }

  /** The queue, the counter, the batches uploaded so far, and the upload calls made. */
  datatype Queue = Queue(pending: seq<HfFile>, counter: int, uploaded: seq<seq<HfFile>>, attempts: nat)

  /** All files of a list of batches, in order. */
  function Flatten(batches: seq<seq<HfFile>>): seq<HfFile> {
    if batches == [] then [] else Flatten(batches[..|batches| - 1]) + batches[|batches| - 1]
  }

  /** Some of the (at most three) upload calls starting at call `from` succeeds. */
  predicate UploadSucceeds(ok: nat -> bool, from: nat) {
    ok(from) || ok(from + 1) || ok(from + 2)
  }

  /** The number of upload calls the retry loop makes: up to the first success, at most 3. */
  function Tries(ok: nat -> bool, from: nat): (n: nat)
    ensures 1 <= n <= 3
    ensures UploadSucceeds(ok, from) ==> ok(from + n - 1) && forall c: nat :: from <= c < from + n - 1 ==> !ok(c)
  {
    if ok(from) then 1 else if ok(from + 1) then 2 else 3
  }

  /** The retry loop's effect: on success the queue goes up as one batch and queue and counter reset. */
  function Uploaded(q: Queue, ok: nat -> bool): Queue {
    if UploadSucceeds(ok, q.attempts) then Queue([], 0, q.uploaded + [q.pending], q.attempts + Tries(ok, q.attempts))
    else q.(attempts := q.attempts + 3)
  }

  /** A processed case: its files are queued, the counter counts it, and a due upload is tried. */
  function AfterSuccess(q: Queue, files: seq<HfFile>, batchSize: int, ok: nat -> bool): (r: Queue)
    ensures q.attempts <= r.attempts <= q.attempts + 3
    ensures r.attempts > q.attempts ==> q.counter + 1 >= batchSize && q.pending + files != []
    ensures r.attempts > q.attempts && UploadSucceeds(ok, q.attempts) ==>
      r.pending == [] && r.counter == 0 && r.uploaded == q.uploaded + [q.pending + files]
    ensures r.attempts > q.attempts && !UploadSucceeds(ok, q.attempts) ==>
      r.pending == q.pending + files && r.counter == q.counter + 1 && r.uploaded == q.uploaded
    ensures r.attempts == q.attempts ==>
      r.pending == q.pending + files && r.counter == q.counter + 1 && r.uploaded == q.uploaded
  {
    var q1 := Queue(q.pending + files, q.counter + 1, q.uploaded, q.attempts);
    if q1.counter >= batchSize && q1.pending != [] then Uploaded(q1, ok) else q1
  }

  /** Nothing is lost or duplicated: uploaded batches then the queue are all files queued so far. */
  lemma AfterSuccessConserves(q: Queue, files: seq<HfFile>, batchSize: int, ok: nat -> bool)
    ensures var r := AfterSuccess(q, files, batchSize, ok);
      Flatten(r.uploaded) + r.pending == Flatten(q.uploaded) + q.pending + files
  {
    var r := AfterSuccess(q, files, batchSize, ok);
    if r.uploaded != q.uploaded {
      assert r.uploaded == q.uploaded + [q.pending + files];
      assert r.uploaded[..|r.uploaded| - 1] == q.uploaded;
      assert Flatten(r.uploaded) == Flatten(q.uploaded) + (q.pending + files);
    }
  }

  /** How each fetched case ends, `process(i)` being the outcome of processing case `i`. */
  function Handlings(records: seq<CaseRecord>, process: nat -> Processing<HfFile>): seq<Handling<HfFile>> {
    seq(|records|, i requires 0 <= i < |records| => Classify(records[i], process(i)))
  }

  /** The queue after one case: only a processed case touches it. */
  function StepCase(q: Queue, h: Handling<HfFile>, batchSize: int, ok: nat -> bool): Queue {
    if h.Done? then AfterSuccess(q, h.files, batchSize, ok) else q
  }

  function RunQueue(hs: seq<Handling<HfFile>>, batchSize: int, ok: nat -> bool): Queue {
    if hs == [] then Queue([], 0, [], 0)
    else StepCase(RunQueue(hs[..|hs| - 1], batchSize, ok), hs[|hs| - 1], batchSize, ok)
  }

  /** One status write per case, in order. */
  function Writes(records: seq<CaseRecord>, hs: seq<Handling<HfFile>>): (w: seq<StatusWrite>)
    requires |hs| == |records|
  {
    seq(|records|, i requires 0 <= i < |records| => WriteFor(records[i], hs[i]))
  }

  /** The cases that were processed. */
  function Successes(hs: seq<Handling<HfFile>>): (n: nat)
    ensures n <= |hs|
  {
    if hs == [] then 0 else Successes(hs[..|hs| - 1]) + (if hs[|hs| - 1].Done? then 1 else 0)
  }

  /** The files the processed cases queued, in order. */
  function Pushed(hs: seq<Handling<HfFile>>): seq<HfFile> {
    if hs == [] then [] else Pushed(hs[..|hs| - 1]) + (if hs[|hs| - 1].Done? then hs[|hs| - 1].files else [])
  }

  /** Every queued file is either in an uploaded batch or still in the queue, in queue order. */
  lemma {:induction false} RunConserves(hs: seq<Handling<HfFile>>, batchSize: int, ok: nat -> bool)
    ensures var q := RunQueue(hs, batchSize, ok);
      Flatten(q.uploaded) + q.pending == Pushed(hs)
  {
    if hs != [] {
      var n := |hs| - 1;
      RunConserves(hs[..n], batchSize, ok);
      if hs[n].Done? {
        AfterSuccessConserves(RunQueue(hs[..n], batchSize, ok), hs[n].files, batchSize, ok);
      }
    }
  }

  /**
   * With fewer successes than `batchSize` nothing is ever uploaded: the
   * counter is the number of successes and every queued file is left over.
   */
  lemma {:induction false} FewSuccessesNoUpload(hs: seq<Handling<HfFile>>, batchSize: int, ok: nat -> bool)
    requires Successes(hs) < batchSize
    ensures RunQueue(hs, batchSize, ok) == Queue(Pushed(hs), Successes(hs), [], 0)
  {
    if hs != [] {
      FewSuccessesNoUpload(hs[..|hs| - 1], batchSize, ok);
    }
  }

  /** Each case that was not processed keeps the success count below the number of cases. */
  lemma {:induction false} SuccessesBelow(hs: seq<Handling<HfFile>>, i: int)
    requires 0 <= i < |hs| && !hs[i].Done?
    ensures Successes(hs) < |hs|
  {
    var n := |hs| - 1;
    if i < n {
      assert hs[..n][i] == hs[i];
      SuccessesBelow(hs[..n], i);
    }
  }

  /**
   * The query fetches at most `batchSize` cases and the queue is local to
   * the run: if any of them fails or has no image, nothing reaches Hugging
   * Face and the queued files are dropped when the run ends.
   */
  lemma LeftoverNeverUploaded(hs: seq<Handling<HfFile>>, batchSize: int, ok: nat -> bool, i: int)
    requires |hs| <= batchSize
    requires 0 <= i < |hs| && !hs[i].Done?
    ensures RunQueue(hs, batchSize, ok).uploaded == []
    ensures RunQueue(hs, batchSize, ok).pending == Pushed(hs)
  {
    SuccessesBelow(hs, i);
    FewSuccessesNoUpload(hs, batchSize, ok);
  }

  // ------------------------------------------------------------------ the command

  /** The `while (retryCount < maxRetries && !hfSuccess)` loop. */
  method UploadWithRetry(q: Queue, ok: nat -> bool) returns (r: Queue)
    ensures r == Uploaded(q, ok)
  {
    var hfSuccess := false;
    var retryCount := 0;
    var maxRetries := 3;
    r := q;
    while retryCount < maxRetries && !hfSuccess
      invariant 0 <= retryCount <= 3
      invariant forall c: nat :: q.attempts <= c < q.attempts + retryCount ==> !ok(c)
      invariant !hfSuccess ==> r == q.(attempts := q.attempts + retryCount)
      invariant hfSuccess ==> retryCount < 3 && ok(q.attempts + retryCount)
      invariant hfSuccess ==> r == Queue([], 0, q.uploaded + [q.pending], q.attempts + retryCount + 1)
      decreases 3 - retryCount - (if hfSuccess then 1 else 0)
    {
      var call: nat := q.attempts + retryCount;
      assert r.attempts == call;
      var uploadOk := ok(call);
      r := r.(attempts := r.attempts + 1);
      if uploadOk {
        hfSuccess := true;
        r := r.(pending := [], counter := 0, uploaded := r.uploaded + [q.pending]);
      } else {
        retryCount := retryCount + 1;
      }
    }
  }

  /** The body of `for (const record of records)`: one status write, and the queue after it. */
  method HandleRecord(q: Queue, rec: CaseRecord, result: Processing<HfFile>, batchSize: int, ok: nat -> bool)
    returns (w: StatusWrite, r: Queue)
    ensures w == WriteFor(rec, Classify(rec, result))
    ensures r == StepCase(q, Classify(rec, result), batchSize, ok)
  {
    ghost var h := Classify(rec, result);
    r := q;
    var urls := ImgUrls(rec.caseHtml);
    if |urls| == 0 {
      assert h == NoImages;
      w := StatusWrite(rec.id, 1, 0);
      return;
    }
    var cleanPath := CleanPath(rec.urlPath);
    match result {
      case Threw =>
        assert h == Failed;
        w := StatusWrite(rec.id, 2, 0);
      case Processed(caseImageCount, processedForHf) =>
        assert h == Done(caseImageCount, processedForHf);
        w := StatusWrite(rec.id, 1, caseImageCount);
        r := QueueProcessed(q, processedForHf, batchSize, ok);
    }
  }

  /** A processed case's files join the queue, the counter counts it, and a due upload is tried. */
  method QueueProcessed(q: Queue, processedForHf: seq<HfFile>, batchSize: int, ok: nat -> bool) returns (r: Queue)
    ensures r == AfterSuccess(q, processedForHf, batchSize, ok)
  {
    r := q;
    if |processedForHf| > 0 {
      r := r.(pending := r.pending + processedForHf);
    } else {
      assert r.pending + processedForHf == r.pending;
    }
    r := r.(counter := r.counter + 1);
    if r.counter >= batchSize && |r.pending| > 0 {
      r := UploadWithRetry(r, ok);
    }
  }

  /** One turn of the loop in `run()`: record `i` adds its status write and moves the queue on. */
  method NextRecord(records: seq<CaseRecord>, process: nat -> Processing<HfFile>, i: int, batchSize: int, ok: nat -> bool,
                    writes: seq<StatusWrite>, q: Queue)
    returns (writes': seq<StatusWrite>, q': Queue)
    requires 0 <= i < |records| && |writes| == i
    requires forall k :: 0 <= k < i ==> writes[k] == WriteFor(records[k], Handlings(records, process)[k])
    requires q == RunQueue(Handlings(records, process)[..i], batchSize, ok)
    ensures |writes'| == i + 1
    ensures forall k :: 0 <= k < i + 1 ==> writes'[k] == WriteFor(records[k], Handlings(records, process)[k])
    ensures q' == RunQueue(Handlings(records, process)[..i + 1], batchSize, ok)
  {
    ghost var hs := Handlings(records, process);
    assert hs[..i + 1][..i] == hs[..i];
    assert hs[i] == Classify(records[i], process(i));
    var w;
    w, q' := HandleRecord(q, records[i], process(i), batchSize, ok);
    writes' := writes + [w];
  }

  /**
   * `run()` over the fetched records, `process(i)` being the outcome of
   * processing record `i` and `ok(k)` that of the k-th upload call.
   */
  method Run(batchArg: Option<string>, records: seq<CaseRecord>, process: nat -> Processing<HfFile>, ok: nat -> bool)
    returns (writes: seq<StatusWrite>, q: Queue)
    ensures writes == Writes(records, Handlings(records, process))
    ensures q == RunQueue(Handlings(records, process), BatchSize(batchArg), ok)
  {
    ghost var hs := Handlings(records, process);
    var batchSize := BatchSize(batchArg);
    writes := [];
    q := Queue([], 0, [], 0);
    if |records| == 0 {
      return;
    }
    for i := 0 to |records|
      invariant |writes| == i
      invariant forall k :: 0 <= k < i ==> writes[k] == WriteFor(records[k], hs[k])
      invariant q == RunQueue(hs[..i], batchSize, ok)
    {
      writes, q := NextRecord(records, process, i, batchSize, ok, writes, q);
    }
    assert hs[..|records|] == hs;
  }
}
