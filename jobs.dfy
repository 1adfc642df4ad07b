/**
 * The job record (`FileJob`) and the list operations both `AppState` classes
 * perform on `recent_jobs`, a list kept newest first. Ids are not unique in
 * the source (they come from a random draw), so every operation here is
 * stated for lists that may hold several jobs with one id.
 */
module Jobs {
  import opened Optional
  import Sizes

  datatype Status = Queued | Processing | Complete | Error

  /**
   * One `FileJob`. `size` and `convertedSize` are the labels `_format_size`
   * picks; `convertedFilename` is "" until a conversion completes (the
   * source's "" in one copy and None in the other; both only read as falsy).
   */
  datatype Job = Job(
    id: string,
    filename: string,
    size: Sizes.SizeLabel,
    status: Status,
    progress: real,
    uploadedAt: string,
    resolution: string,
    quality: string,
    convertedFilename: string,
    convertedSize: Option<Sizes.SizeLabel>,
    errorMessage: Option<string>)

  /** The record an upload creates: queued, no progress, no output, no error. */
  function NewJob(id: string, filename: string, sizeBytes: nat, uploadedAt: string,
                  resolution: string, quality: string): Job
  {
    Job(id, filename, Sizes.SizeLabelOf(sizeBytes), Queued, 0.0, uploadedAt,
        resolution, quality, "", None, None)
  }

  /** A job as it stands right after creation with the given encoding choices. */
  predicate IsFresh(j: Job, resolution: string, quality: string) {
    && j.status == Queued && j.progress == 0.0
    && j.convertedFilename == "" && j.convertedSize == None && j.errorMessage == None
    && j.resolution == resolution && j.quality == quality
  }

  /**
   * What the dashboard relies on: progress is a percentage, a completed job has
   * reached 100 and names its output, a failed job carries a message.
   */
  predicate Consistent(j: Job) {
    && 0.0 <= j.progress <= 100.0
    && (j.status == Complete ==> j.progress == 100.0 && j.convertedFilename != "")
    && (j.status == Error ==> j.errorMessage.Some?)
  }

  predicate AllConsistent(jobs: seq<Job>) {
    forall k :: 0 <= k < |jobs| ==> Consistent(jobs[k])
  }

  predicate SameIds(a: seq<Job>, b: seq<Job>) {
    |a| == |b| && forall k :: 0 <= k < |a| ==> a[k].id == b[k].id
  }

  /** The ids of `jobs`, in order. */
  function Ids(jobs: seq<Job>): (ids: seq<string>)
    ensures |ids| == |jobs| && forall k :: 0 <= k < |jobs| ==> ids[k] == jobs[k].id
  {
    seq(|jobs|, k requires 0 <= k < |jobs| => jobs[k].id)
  }

  /** One more job adds its id at the end. */
  lemma IdsStep(jobs: seq<Job>, job: Job)
    ensures Ids(jobs + [job]) == Ids(jobs) + [job.id]
  {
    assert forall k :: 0 <= k < |jobs| ==> (jobs + [job])[k] == jobs[k];
  }

  // ---------------------------------------------------------------- search

  /** The index of the first job with this id, if there is one. */
  function FirstIndex(jobs: seq<Job>, id: string): (r: Option<nat>)
    ensures r.Some? ==> r.value < |jobs| && jobs[r.value].id == id
    ensures forall k :: 0 <= k < |jobs| && (r.None? || k < r.value) ==> jobs[k].id != id
  {
    if jobs == [] then None
    else if jobs[0].id == id then Some(0)
    else match FirstIndex(jobs[1..], id)
      case None => None
      case Some(i) => Some(i + 1)
  }

  /**
   * The `for idx, job in enumerate(self.recent_jobs): if job["id"] == job_id: ... break`
   * search that `process_job`, `retry_job` and `_update_job_progress` each run.
   */
  method IndexOf(jobs: seq<Job>, id: string) returns (found: Option<nat>)
    ensures found == FirstIndex(jobs, id)
  {
    var i := 0;
    while i < |jobs|
      invariant 0 <= i <= |jobs|
      invariant forall k :: 0 <= k < i ==> jobs[k].id != id
    {
      if jobs[i].id == id {
        return Some(i);
      }
      i := i + 1;
    }
    return None;
  }

  /** Lists with the same ids in the same places have the same first match. */
  lemma FirstIndexSameIds(a: seq<Job>, b: seq<Job>, id: string)
    requires SameIds(a, b)
    ensures FirstIndex(a, id) == FirstIndex(b, id)
  {
    var ra, rb := FirstIndex(a, id), FirstIndex(b, id);
    if ra.Some? {
      assert b[ra.value].id == id;
    }
    if rb.Some? {
      assert a[rb.value].id == id;
    }
  }

  // ---------------------------------------------------------------- remove

  /** `[j for j in self.recent_jobs if j["id"] != job_id]`. */
  function RemoveById(jobs: seq<Job>, id: string): seq<Job> {
    if jobs == [] then []
    else (if jobs[0].id == id then [] else [jobs[0]]) + RemoveById(jobs[1..], id)
  }

  /** Removal works piecewise, so the kept jobs stay in their original relative order. */
  lemma {:induction false} RemoveByIdAppend(a: seq<Job>, b: seq<Job>, id: string)
    ensures RemoveById(a + b, id) == RemoveById(a, id) + RemoveById(b, id)
  {
    if a != [] {
      assert (a + b)[1..] == a[1..] + b;
      RemoveByIdAppend(a[1..], b, id);
    } else {
      assert a + b == b;
    }
  }

  /** Every job with the id is dropped; every other job is kept as often as it occurred. */
  lemma {:induction false} RemoveByIdCounts(jobs: seq<Job>, id: string, j: Job)
    ensures multiset(RemoveById(jobs, id))[j] == if j.id == id then 0 else multiset(jobs)[j]
  {
    if jobs != [] {
      RemoveByIdCounts(jobs[1..], id, j);
      assert jobs == [jobs[0]] + jobs[1..];
    }
  }

  /** No job with the id survives removal. */
  lemma RemoveByIdLeavesNone(jobs: seq<Job>, id: string)
    ensures FirstIndex(RemoveById(jobs, id), id) == None
  {
    var r := RemoveById(jobs, id);
    forall k | 0 <= k < |r| ensures r[k].id != id {
      RemoveByIdCounts(jobs, id, r[k]);
      assert r[k] in multiset(r);
    }
  }

  /** Removing an id that is not in the list changes nothing. */
  lemma {:induction false} RemoveByIdAbsent(jobs: seq<Job>, id: string)
    requires FirstIndex(jobs, id) == None
    ensures RemoveById(jobs, id) == jobs
  {
    if jobs != [] {
      assert jobs[0].id != id;
      RemoveByIdAbsent(jobs[1..], id);
    }
  }

  /** Removing twice is removing once. */
  lemma RemoveByIdIdempotent(jobs: seq<Job>, id: string)
    ensures RemoveById(RemoveById(jobs, id), id) == RemoveById(jobs, id)
  {
    RemoveByIdLeavesNone(jobs, id);
    RemoveByIdAbsent(RemoveById(jobs, id), id);
  }

  /** Rewriting a job that carries the id, keeping the id, does not change what removal leaves. */
  lemma {:induction false} RemoveByIdIgnoresUpdate(jobs: seq<Job>, i: nat, x: Job, id: string)
    requires i < |jobs| && jobs[i].id == id && x.id == id
    ensures RemoveById(jobs[i := x], id) == RemoveById(jobs, id)
  {
    if i > 0 {
      assert jobs[i := x][1..] == jobs[1..][i - 1 := x];
      RemoveByIdIgnoresUpdate(jobs[1..], i - 1, x, id);
    }
  }

  lemma RemoveByIdConsistent(jobs: seq<Job>, id: string)
    requires AllConsistent(jobs)
    ensures AllConsistent(RemoveById(jobs, id))
  {
    var r := RemoveById(jobs, id);
    forall k | 0 <= k < |r| ensures Consistent(r[k]) {
      RemoveByIdCounts(jobs, id, r[k]);
      assert r[k] in multiset(r);
      assert r[k] in multiset(jobs);
    }
  }

  /**
   * The files `remove_job` unlinks: those named by the FIRST job with the id
   * (its upload, then its output when it has one), although every job with
   * that id leaves the list.
   */
  function FilesToDelete(jobs: seq<Job>, id: string): (files: seq<string>)
    ensures FirstIndex(jobs, id) == None ==> files == []
    ensures forall f :: f in files ==> f != ""
  {
    match FirstIndex(jobs, id)
    case None => []
    case Some(i) =>
      (if jobs[i].filename != "" then [jobs[i].filename] else [])
      + (if jobs[i].convertedFilename != "" then [jobs[i].convertedFilename] else [])
  }

  /**
   * When the job at `i` is the first with the id, `remove_job` unlinks its
   * upload and then its output, each only when it names a file, and no
   * other name: the other jobs with the id keep their files on disk.
   */
  lemma FilesToDeleteOfFirst(jobs: seq<Job>, id: string, i: nat)
    requires i < |jobs| && jobs[i].id == id
    requires forall k :: 0 <= k < i ==> jobs[k].id != id
    ensures var files := FilesToDelete(jobs, id);
      && (forall f :: f in files <==> f != "" && (f == jobs[i].filename || f == jobs[i].convertedFilename))
      && |files| == (if jobs[i].filename != "" then 1 else 0) + (if jobs[i].convertedFilename != "" then 1 else 0)
      && (jobs[i].filename != "" ==> files[0] == jobs[i].filename)
      && (jobs[i].convertedFilename != "" ==> files[|files| - 1] == jobs[i].convertedFilename)
  {
    var r := FirstIndex(jobs, id);
    assert r.Some?;
    assert r.value == i;
  }

  // ---------------------------------------------------------------- retry

  /** What `retry_job` writes: Queued, progress 0.0, no error; output fields are kept. */
  function Reset(j: Job): Job {
    j.(status := Queued, progress := 0.0, errorMessage := None)
  }

  /** `retry_job`'s effect on the list: reset the first job with the id, whatever its status. */
  function RetryFirst(jobs: seq<Job>, id: string): seq<Job> {
    match FirstIndex(jobs, id)
    case None => jobs
    case Some(i) => jobs[i := Reset(jobs[i])]
  }

  /** Retrying twice is retrying once. */
  lemma RetryFirstIdempotent(jobs: seq<Job>, id: string)
    ensures RetryFirst(RetryFirst(jobs, id), id) == RetryFirst(jobs, id)
  {
    FirstIndexSameIds(jobs, RetryFirst(jobs, id), id);
  }

  /** A retried job that is removed afterwards leaves the same list as removing it directly. */
  lemma RemoveAfterRetry(jobs: seq<Job>, id: string)
    ensures RemoveById(RetryFirst(jobs, id), id) == RemoveById(jobs, id)
  {
    match FirstIndex(jobs, id)
    case None =>
    case Some(i) => RemoveByIdIgnoresUpdate(jobs, i, Reset(jobs[i]), id);
  }

  lemma RetryFirstConsistent(jobs: seq<Job>, id: string)
    requires AllConsistent(jobs)
    ensures AllConsistent(RetryFirst(jobs, id))
  {
  }

  // ---------------------------------------------------------------- progress

  /** `_update_job_progress`: the first job with the id gets the new progress, whatever its status. */
  function SetProgressFirst(jobs: seq<Job>, id: string, p: real): seq<Job> {
    match FirstIndex(jobs, id)
    case None => jobs
    case Some(i) => jobs[i := jobs[i].(progress := p)]
  }

  /**
   * Nothing orders a progress update after the completion write, and the
   * update does not look at the status: a late one leaves a completed job
   * below 100 percent.
   */
  lemma LateProgressBreaksComplete(jobs: seq<Job>, id: string, p: real)
    requires FirstIndex(jobs, id).Some?
    requires jobs[FirstIndex(jobs, id).value].status == Complete && p < 100.0
    ensures !AllConsistent(SetProgressFirst(jobs, id, p))
  {
    var i := FirstIndex(jobs, id).value;
    assert !Consistent(SetProgressFirst(jobs, id, p)[i]);
  }

  // ---------------------------------------------------------------- process_job writes

  /**
   * The writes of `process_job`'s critical sections. Each goes through the
   * index the worker found when it claimed the job, not through the id.
   */
  function ClaimAt(jobs: seq<Job>, i: nat): seq<Job>
    requires i < |jobs|
  {
    jobs[i := jobs[i].(status := Processing, progress := 5.0)]
  }

  function StartedAt(jobs: seq<Job>, i: nat): seq<Job>
    requires i < |jobs|
  {
    jobs[i := jobs[i].(progress := 10.0)]
  }

  function CompleteAt(jobs: seq<Job>, i: nat, output: string, outputBytes: nat): seq<Job>
    requires i < |jobs|
  {
    jobs[i := jobs[i].(status := Complete, progress := 100.0, convertedFilename := output,
                       convertedSize := Some(Sizes.SizeLabelOf(outputBytes)))]
  }

  function FailAt(jobs: seq<Job>, i: nat, message: string): seq<Job>
    requires i < |jobs|
  {
    jobs[i := jobs[i].(status := Error, errorMessage := Some(message))]
  }

  /**
   * The cached index goes stale when a job is inserted at the front while a
   * conversion runs: the completion lands on the job in front of the claimed
   * one, which stays as it was.
   */
  lemma StaleIndexAfterInsert(jobs: seq<Job>, i: nat, newer: Job, output: string, outputBytes: nat)
    requires i < |jobs| && output != ""
    ensures var after := CompleteAt([newer] + jobs, i, output, outputBytes);
      && after[i + 1] == jobs[i]
      && after[i].status == Complete
      && after[i].id == ([newer] + jobs)[i].id
  {
  }

  // ---------------------------------------------------------------- insertion

  /** The list after inserting each of `created`, in order, at index 0. */
  function InsertedAtFront(jobs: seq<Job>, created: seq<Job>): seq<Job>
    decreases |created|
  {
    if created == [] then jobs
    else [created[|created| - 1]] + InsertedAtFront(jobs, created[..|created| - 1])
  }

  /** Inserting one more job puts it in front of the list built so far. */
  lemma InsertedAtFrontStep(jobs: seq<Job>, created: seq<Job>, job: Job)
    ensures InsertedAtFront(jobs, created + [job]) == [job] + InsertedAtFront(jobs, created)
  {
    assert (created + [job])[..|created|] == created;
  }

  /** The newest insertion comes first, and the existing jobs follow, unchanged and in order. */
  lemma {:induction false} InsertedAtFrontShape(jobs: seq<Job>, created: seq<Job>)
    ensures var r := InsertedAtFront(jobs, created);
      && |r| == |created| + |jobs|
      && r[|created|..] == jobs
      && forall k :: 0 <= k < |created| ==> r[k] == created[|created| - 1 - k]
    decreases |created|
  {
    if created != [] {
      InsertedAtFrontShape(jobs, created[..|created| - 1]);
    }
  }

  lemma InsertedAtFrontConsistent(jobs: seq<Job>, created: seq<Job>)
    requires AllConsistent(jobs) && AllConsistent(created)
    ensures AllConsistent(InsertedAtFront(jobs, created))
  {
    InsertedAtFrontShape(jobs, created);
    var r := InsertedAtFront(jobs, created);
    forall k | 0 <= k < |r| ensures Consistent(r[k]) {
      if k >= |created| {
        assert r[k] == r[|created|..][k - |created|];
      }
    }
  }
}
