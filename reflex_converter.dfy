/**
 * The `AppState` of the reflex_video_converter application: the job list
 * with a storage quota. Uploads are charged against `used_capacity_gb` and
 * turned away when they would overflow `MAX_CAPACITY_GB`; a completed
 * conversion charges its output without any check; removing a job gives
 * nothing back. The resolution table has no "4K" tier.
 */
module ReflexConverter {
  import opened Optional
  import opened Jobs
  import opened Uploads
  import Paths
  import Sizes
  import Encoding
  import Progress
  import Worker

  const MaxCapacityGb: real := 100.0
  /** `1024 * 1024 * 1024`, the divisor that turns a byte count into gigabytes. */
  const BytesPerGb: real := 1073741824.0

  const ResolutionOptions: seq<string> := ["Original", "1080p", "720p", "480p"]
  const QualityOptions: seq<string> := ["Standard", "High", "Maximum"]

  /** A byte count in gigabytes. */
  function Gb(bytes: nat): (g: real)
    ensures 0.0 <= g
    ensures g == 0.0 <==> bytes == 0
  {
    bytes as real / BytesPerGb
  }

  // ---------------------------------------------------------------- handle_upload, per file

  /**
   * One pass of `handle_upload`'s loop with `used` gigabytes already in use.
   * A failed read is reported under the file's own name; then the extension
   * is checked, then the capacity, then the file is written.
   */
  function Admit(a: Arrival, resolution: string, quality: string, used: real): (r: Admission)
    ensures r.Accepted? ==> a.read.Bytes? && used + Gb(a.read.size) <= MaxCapacityGb
  {
    match a.read
    case ReadFailed(reason) => Rejected(Failed(a.name, reason))
    case Bytes(size) =>
      if !Paths.IsAllowed(a.name) then Rejected(InvalidType(a.name, Paths.Extension(a.name)))
      else if used + Gb(size) > MaxCapacityGb then Rejected(NotEnoughCapacity(a.name))
      else if a.writeError.Some? then Rejected(Failed(a.name, a.writeError.value))
      else
        Accepted(NewJob(JobId(a.jobNumber), Paths.StoredName(a.name, a.tag), size, a.uploadedAt,
                        resolution, quality))
  }

  /**
   * A file becomes a job exactly when it is read, has an allowed extension,
   * fits in the space left and is written; it is turned away for capacity
   * exactly when it is an allowed file that does not fit. The job is fresh
   * and carries the selection, the drawn id, the stored name and the size
   * label of the bytes read.
   */
  lemma AdmitSound(a: Arrival, resolution: string, quality: string, used: real)
    ensures var r := Admit(a, resolution, quality, used);
      && (r.Accepted? <==>
            a.read.Bytes? && Paths.IsAllowed(a.name) && used + Gb(a.read.size) <= MaxCapacityGb
            && a.writeError.None?)
      && (r == Rejected(NotEnoughCapacity(a.name)) <==>
            a.read.Bytes? && Paths.IsAllowed(a.name) && used + Gb(a.read.size) > MaxCapacityGb)
      && (r.Accepted? ==>
            && IsFresh(r.job, resolution, quality) && Consistent(r.job)
            && r.job.id == JobId(a.jobNumber) && r.job.uploadedAt == a.uploadedAt
            && r.job.filename == Paths.StoredName(a.name, a.tag)
            && r.job.size == Sizes.SizeLabelOf(a.read.size))
      && (a.read.ReadFailed? ==> r == Rejected(Failed(a.name, a.read.reason)))
  {
  }

  /** The body of `handle_upload`'s `try` block for one file, with the gigabytes in use. */
  method AdmitFile(a: Arrival, resolution: string, quality: string, used: real) returns (r: Admission)
    ensures r == Admit(a, resolution, quality, used)
  {
    match a.read {
      case ReadFailed(reason) =>
        return Rejected(Failed(a.name, reason));
      case Bytes(size) =>
        if !Paths.IsAllowed(a.name) {
          return Rejected(InvalidType(a.name, Paths.Extension(a.name)));
        }
        var sizeGb := size as real / BytesPerGb;
        if used + sizeGb > MaxCapacityGb {
          return Rejected(NotEnoughCapacity(a.name));
        }
        if a.writeError.Some? {
          return Rejected(Failed(a.name, a.writeError.value));
        }
        var sizeLabel := Sizes.FormatSize(size);
        r := Accepted(Job(JobId(a.jobNumber), Paths.StoredName(a.name, a.tag), sizeLabel, Queued, 0.0,
                          a.uploadedAt, resolution, quality, "", None, None));
    }
  }

  /** The jobs created, the errors collected and the gigabytes in use after `handle_upload`'s loop. */
  datatype Batch = Batch(created: seq<Job>, errors: seq<UploadError>, used: real)

  /** One more file through the loop: its job and its size are added, or its error. */
  function Next(b: Batch, a: Arrival, resolution: string, quality: string): Batch {
    match Admit(a, resolution, quality, b.used)
    case Accepted(job) => Batch(b.created + [job], b.errors, b.used + Gb(a.read.size))
    case Rejected(e) => Batch(b.created, b.errors + [e], b.used)
  }

  lemma NextAccepted(b: Batch, a: Arrival, resolution: string, quality: string, job: Job)
    requires Admit(a, resolution, quality, b.used) == Accepted(job)
    ensures a.read.Bytes?
    ensures Next(b, a, resolution, quality) == Batch(b.created + [job], b.errors, b.used + Gb(a.read.size))
  {
  }

  lemma NextRejected(b: Batch, a: Arrival, resolution: string, quality: string, e: UploadError)
    requires Admit(a, resolution, quality, b.used) == Rejected(e)
    ensures Next(b, a, resolution, quality) == Batch(b.created, b.errors + [e], b.used)
  {
  }

  function AdmitAll(arrivals: seq<Arrival>, resolution: string, quality: string, used: real): Batch
    decreases |arrivals|
  {
    if arrivals == [] then Batch([], [], used)
    else
      Next(AdmitAll(arrivals[..|arrivals| - 1], resolution, quality, used), arrivals[|arrivals| - 1],
           resolution, quality)
  }

  /** `AdmitAll` over one more file. */
  lemma AdmitAllStep(arrivals: seq<Arrival>, i: nat, resolution: string, quality: string, used: real)
    requires i < |arrivals|
    ensures AdmitAll(arrivals[..i + 1], resolution, quality, used)
      == Next(AdmitAll(arrivals[..i], resolution, quality, used), arrivals[i], resolution, quality)
  {
    assert arrivals[..i + 1][..i] == arrivals[..i];
  }

  /**
   * Each file yields one job or one error; the space in use only grows, and
   * an upload never takes it past the maximum when it started within it;
   * every job made is fresh and consistent.
   */
  lemma {:induction false} AdmitAllAccounts(arrivals: seq<Arrival>, resolution: string, quality: string,
                                            used: real)
    ensures var b := AdmitAll(arrivals, resolution, quality, used);
      && |b.created| + |b.errors| == |arrivals|
      && used <= b.used
      && (used <= MaxCapacityGb ==> b.used <= MaxCapacityGb)
      && forall k :: 0 <= k < |b.created| ==>
           IsFresh(b.created[k], resolution, quality) && Consistent(b.created[k])
    decreases |arrivals|
  {
    if arrivals != [] {
      AdmitAllAccounts(arrivals[..|arrivals| - 1], resolution, quality, used);
      var b := AdmitAll(arrivals[..|arrivals| - 1], resolution, quality, used);
      AdmitSound(arrivals[|arrivals| - 1], resolution, quality, b.used);
    }
  }

  /**
   * One file on its own: it becomes a job exactly when it is read, allowed,
   * fits and is written, and is then charged exactly its size in gigabytes;
   * a file turned away for any reason is charged nothing.
   */
  lemma UploadOne(a: Arrival, resolution: string, quality: string, used: real)
    ensures var b := AdmitAll([a], resolution, quality, used);
      && (|b.created| == 1 <==>
            a.read.Bytes? && Paths.IsAllowed(a.name) && used + Gb(a.read.size) <= MaxCapacityGb
            && a.writeError.None?)
      && b.used == (if |b.created| == 1 then used + Gb(a.read.size) else used)
  {
    assert [a][..0] == [];
    AdmitSound(a, resolution, quality, used);
  }

  /** Once the quota is used up, no file with any content is accepted, and nothing more is charged. */
  lemma {:induction false} AdmitAllWhenFull(arrivals: seq<Arrival>, resolution: string, quality: string,
                                            used: real)
    requires MaxCapacityGb <= used
    requires forall k :: 0 <= k < |arrivals| && arrivals[k].read.Bytes? ==> arrivals[k].read.size > 0
    ensures AdmitAll(arrivals, resolution, quality, used).created == []
    ensures AdmitAll(arrivals, resolution, quality, used).used == used
    decreases |arrivals|
  {
    if arrivals != [] {
      var n := |arrivals| - 1;
      assert forall k :: 0 <= k < n && arrivals[..n][k].read.Bytes? ==> arrivals[..n][k].read.size > 0;
      AdmitAllWhenFull(arrivals[..n], resolution, quality, used);
      AdmitSound(arrivals[n], resolution, quality, used);
    }
  }

  /**
   * `handle_upload`'s loop over the files, on the job list and the space in
   * use it starts from: each admitted file's job goes to the front, its id is
   * dispatched and its size is charged; each turned-away file adds its error.
   */
  method UploadBatch(jobs: seq<Job>, arrivals: seq<Arrival>, resolution: string, quality: string, used: real)
    returns (newJobs: seq<Job>, dispatched: seq<string>, errors: seq<UploadError>, newUsed: real)
    ensures var b := AdmitAll(arrivals, resolution, quality, used);
      && newJobs == InsertedAtFront(jobs, b.created) && dispatched == Ids(b.created)
      && errors == b.errors && newUsed == b.used
  {
    newJobs, dispatched, errors, newUsed := jobs, [], [], used;
    ghost var b := Batch([], [], used);
    var i := 0;
    while i < |arrivals|
      invariant 0 <= i <= |arrivals|
      invariant b == AdmitAll(arrivals[..i], resolution, quality, used)
      invariant errors == b.errors && newUsed == b.used
      invariant newJobs == InsertedAtFront(jobs, b.created) && dispatched == Ids(b.created)
    {
      var admission := AdmitFile(arrivals[i], resolution, quality, newUsed);
      ghost var next := Next(b, arrivals[i], resolution, quality);
      assert next == AdmitAll(arrivals[..i + 1], resolution, quality, used) by {
        AdmitAllStep(arrivals, i, resolution, quality, used);
      }
      match admission {
        case Rejected(e) =>
          assert next == Batch(b.created, b.errors + [e], b.used) by {
            NextRejected(b, arrivals[i], resolution, quality, e);
          }
          errors := errors + [e];
        case Accepted(job) =>
          assert arrivals[i].read.Bytes? && next.errors == b.errors
            && next.used == b.used + Gb(arrivals[i].read.size)
            && InsertedAtFront(jobs, next.created) == [job] + newJobs
            && Ids(next.created) == dispatched + [job.id] by {
            NextAccepted(b, arrivals[i], resolution, quality, job);
            InsertedAtFrontStep(jobs, b.created, job);
            IdsStep(b.created, job);
          }
          newUsed := newUsed + Gb(arrivals[i].read.size);
          newJobs := [job] + newJobs;
          dispatched := dispatched + [job.id];
      }
      b := next;
      i := i + 1;
    }
    assert arrivals[..i] == arrivals;
  }

  // ---------------------------------------------------------------- the quota indicator

  /** The indicator's colour for a usage percentage: red above 90, amber above 75, indigo otherwise. */
  function ColorFor(pct: real): string {
    if pct > 90.0 then "bg-red-500"
    else if pct > 75.0 then "bg-amber-500"
    else "bg-indigo-600"
  }

  /** How alarming a colour is: indigo, then amber, then red. */
  function Severity(color: string): nat {
    if color == "bg-red-500" then 2 else if color == "bg-amber-500" then 1 else 0
  }

  /** More usage never shows a calmer colour. */
  lemma ColorForMonotone(p: real, q: real)
    requires p <= q
    ensures Severity(ColorFor(p)) <= Severity(ColorFor(q))
  {
  }

  /**
   * What a completed conversion adds to the space in use: its output's size,
   * with no check against the maximum. Every other ending adds nothing.
   */
  function Charged(run: Worker.Run, used: real): (r: real)
    ensures used <= r
  {
    match run.outcome
    case Completed(_, outputBytes) => used + Gb(outputBytes)
    case _ => used
  }

  /**
   * The quota holds only for uploads: a conversion that completes on a full
   * store, with any output at all, takes the space in use past the maximum.
   */
  lemma ConversionOverfills(jobs: seq<Job>, id: string, env: Worker.Environment)
    requires FirstIndex(jobs, id).Some? && env.ffmpegAvailable && env.inputExists
    requires Encoding.EncoderFailure(Encoding.ProgressMode(env.duration), env.launchError, env.exitCode).None?
    requires env.outputExists && env.outputBytes > 0
    ensures Charged(Worker.RunJob(jobs, id, env, false), MaxCapacityGb) > MaxCapacityGb
  {
    Worker.RunJobCompletes(jobs, id, env, false);
  }

  // ---------------------------------------------------------------- the state

  class AppState {
    var usedCapacityGb: real
    var isUploading: bool
    var selectedResolution: string
    var selectedQuality: string
    var recentJobs: seq<Job>

    /** The space in use is never negative. */
    predicate Valid()
      reads this
    {
      0.0 <= usedCapacityGb
    }

    /** `remaining_capacity_gb`: negative exactly when the store is over its maximum. */
    function RemainingCapacityGb(): (r: real)
      reads this
      ensures r < 0.0 <==> usedCapacityGb > MaxCapacityGb
      ensures r == 0.0 <==> usedCapacityGb == MaxCapacityGb
    {
      MaxCapacityGb - usedCapacityGb
    }

    /** `usage_percentage`: above 100 exactly when the store is over its maximum. */
    function UsagePercentage(): (p: real)
      reads this
      ensures p > 100.0 <==> usedCapacityGb > MaxCapacityGb
      ensures p >= 0.0 <==> usedCapacityGb >= 0.0
      ensures p + RemainingCapacityGb() == 100.0
    {
      usedCapacityGb / MaxCapacityGb * 100.0
    }

    /** `usage_color`: with a 100 GB maximum, the thresholds fall at 90 and 75 GB in use. */
    function UsageColor(): (c: string)
      reads this
      ensures c == "bg-red-500" <==> usedCapacityGb > 90.0
      ensures c == "bg-amber-500" <==> 75.0 < usedCapacityGb <= 90.0
      ensures c == "bg-indigo-600" <==> usedCapacityGb <= 75.0
    {
      ColorFor(UsagePercentage())
    }

    /** The resolution and quality selection is as it was. */
    twostate predicate SelectionKept()
      reads this
    {
      selectedResolution == old(selectedResolution) && selectedQuality == old(selectedQuality)
    }

    /** Only the job list may have changed. */
    twostate predicate OnlyJobsChanged()
      reads this
    {
      && usedCapacityGb == old(usedCapacityGb) && isUploading == old(isUploading)
      && SelectionKept()
    }

    constructor()
      ensures Valid()
      ensures usedCapacityGb == 0.0 && !isUploading && recentJobs == []
      ensures selectedResolution == "Original" && selectedQuality == "High"
    {
      usedCapacityGb := 0.0;
      isUploading := false;
      selectedResolution := "Original";
      selectedQuality := "High";
      recentJobs := [];
    }

    method SetResolution(resolution: string)
      modifies this
      ensures selectedResolution == resolution && selectedQuality == old(selectedQuality)
      ensures usedCapacityGb == old(usedCapacityGb) && isUploading == old(isUploading)
      ensures recentJobs == old(recentJobs)
    {
      selectedResolution := resolution;
    }

    method SetQuality(quality: string)
      modifies this
      ensures selectedQuality == quality && selectedResolution == old(selectedResolution)
      ensures usedCapacityGb == old(usedCapacityGb) && isUploading == old(isUploading)
      ensures recentJobs == old(recentJobs)
    {
      selectedQuality := quality;
    }

    /**
     * `handle_upload`: every acceptable file that fits is stored, charged and
     * becomes a queued job at the front. Returns the ids handed to
     * `process_job` and the per-file errors.
     */
    method HandleUpload(arrivals: seq<Arrival>) returns (dispatched: seq<string>, errors: seq<UploadError>)
      requires Valid()
      modifies this
      ensures Valid()
      ensures var b := AdmitAll(arrivals, selectedResolution, selectedQuality, old(usedCapacityGb));
        && recentJobs == InsertedAtFront(old(recentJobs), b.created)
        && dispatched == Ids(b.created) && errors == b.errors
        && usedCapacityGb == b.used
      ensures old(usedCapacityGb) <= MaxCapacityGb ==> usedCapacityGb <= MaxCapacityGb
      ensures !isUploading && SelectionKept()
    {
      isUploading := true;
      var jobs, used;
      jobs, dispatched, errors, used := UploadBatch(recentJobs, arrivals, selectedResolution, selectedQuality,
                                                    usedCapacityGb);
      AdmitAllAccounts(arrivals, selectedResolution, selectedQuality, usedCapacityGb);
      recentJobs := jobs;
      usedCapacityGb := used;
      isUploading := false;
    }

    // ------------------------------------------------------------ job list events

    /**
     * `remove_job`: every job with the id leaves the list; the first one's
     * files are unlinked (returned here); the space they held is not given back.
     */
    method RemoveJob(id: string) returns (deleted: seq<string>)
      modifies this
      ensures recentJobs == RemoveById(old(recentJobs), id)
      ensures deleted == FilesToDelete(old(recentJobs), id)
      ensures OnlyJobsChanged()
    {
      deleted := FilesToDelete(recentJobs, id);
      recentJobs := RemoveById(recentJobs, id);
    }

    /** `retry_job`: the first job with the id is reset and dispatched again, whatever its status. */
    method RetryJob(id: string) returns (dispatched: bool)
      modifies this
      ensures recentJobs == RetryFirst(old(recentJobs), id)
      ensures dispatched <==> FirstIndex(old(recentJobs), id).Some?
      ensures OnlyJobsChanged()
    {
      dispatched := false;
      var i := 0;
      while i < |recentJobs|
        invariant 0 <= i <= |recentJobs| && recentJobs == old(recentJobs)
        invariant forall k :: 0 <= k < i ==> recentJobs[k].id != id
      {
        if recentJobs[i].id == id {
          recentJobs := recentJobs[i := recentJobs[i].(status := Queued, progress := 0.0, errorMessage := None)];
          dispatched := true;
          return;
        }
        i := i + 1;
      }
    }

    /** `_update_job_progress`: the first job with the id takes the new progress. */
    method UpdateJobProgress(id: string, progress: real)
      modifies this
      ensures recentJobs == SetProgressFirst(old(recentJobs), id, progress)
      ensures OnlyJobsChanged()
    {
      var i := 0;
      while i < |recentJobs|
        invariant 0 <= i <= |recentJobs| && recentJobs == old(recentJobs)
        invariant forall k :: 0 <= k < i ==> recentJobs[k].id != id
      {
        if recentJobs[i].id == id {
          recentJobs := recentJobs[i := recentJobs[i].(progress := progress)];
          return;
        }
        i := i + 1;
      }
    }

    // ------------------------------------------------------------ process_job's critical sections

    /**
     * The first critical section: the index of the first job with the id,
     * when there is one and ffmpeg is installed; that job is then Processing at 5.
     */
    method ClaimJob(id: string, ffmpegAvailable: bool) returns (claimed: Option<nat>)
      modifies this
      ensures var c := Worker.ClaimSection(old(recentJobs), id, ffmpegAvailable);
        recentJobs == c.jobs && claimed == c.index
      ensures OnlyJobsChanged()
    {
      claimed := IndexOf(recentJobs, id);
      if claimed.None? {
        return;
      }
      var i := claimed.value;
      if !ffmpegAvailable {
        recentJobs := recentJobs[i := recentJobs[i].(status := Error, errorMessage := Some(Worker.NoFfmpegMessage))];
        return None;
      }
      recentJobs := recentJobs[i := recentJobs[i].(status := Processing, progress := 5.0)];
    }

    /** The later sections write through the claimed index; one past the end raises and writes nothing. */
    method MarkStarted(idx: nat) returns (ok: bool)
      modifies this
      ensures ok <==> idx < |old(recentJobs)|
      ensures recentJobs == if ok then StartedAt(old(recentJobs), idx) else old(recentJobs)
      ensures OnlyJobsChanged()
    {
      ok := idx < |recentJobs|;
      if ok {
        recentJobs := recentJobs[idx := recentJobs[idx].(progress := 10.0)];
      }
    }

    /** The completion section also charges the output's size to the space in use. */
    method CompleteJob(idx: nat, output: string, outputBytes: nat) returns (ok: bool)
      requires Valid()
      modifies this
      ensures Valid()
      ensures ok <==> idx < |old(recentJobs)|
      ensures recentJobs == if ok then CompleteAt(old(recentJobs), idx, output, outputBytes) else old(recentJobs)
      ensures usedCapacityGb == if ok then old(usedCapacityGb) + Gb(outputBytes) else old(usedCapacityGb)
      ensures isUploading == old(isUploading) && SelectionKept()
    {
      ok := idx < |recentJobs|;
      if ok {
        var sizeLabel := Sizes.FormatSize(outputBytes);
        recentJobs := recentJobs[idx := recentJobs[idx].(status := Complete, progress := 100.0,
                                                         convertedFilename := output,
                                                         convertedSize := Some(sizeLabel))];
        usedCapacityGb := usedCapacityGb + outputBytes as real / BytesPerGb;
      }
    }

    method FailJob(idx: nat, message: string) returns (ok: bool)
      modifies this
      ensures ok <==> idx < |old(recentJobs)|
      ensures recentJobs == if ok then FailAt(old(recentJobs), idx, message) else old(recentJobs)
      ensures OnlyJobsChanged()
    {
      ok := idx < |recentJobs|;
      if ok {
        recentJobs := recentJobs[idx := recentJobs[idx].(status := Error, errorMessage := Some(message))];
      }
    }

    /** `process_job`'s read loop: each progress report goes through `_update_job_progress` as it arrives. */
    method StreamReports(id: string, reports: seq<real>)
      modifies this
      ensures recentJobs == Worker.ApplyReports(old(recentJobs), id, reports)
      ensures OnlyJobsChanged()
    {
      var k := 0;
      while k < |reports|
        invariant 0 <= k <= |reports|
        invariant recentJobs == Worker.ApplyReports(old(recentJobs), id, reports[..k])
        invariant OnlyJobsChanged()
      {
        assert reports[..k + 1][..k] == reports[..k];
        UpdateJobProgress(id, reports[k]);
        k := k + 1;
      }
      assert reports[..k] == reports;
    }

    /**
     * `process_job` run with nothing interleaved, section after section, with
     * the table that has no "4K" tier; a completed run charges its output.
     */
    method ProcessJob(id: string, env: Worker.Environment)
      requires Valid()
      modifies this
      ensures Valid()
      ensures var r := Worker.RunJob(old(recentJobs), id, env, false);
        recentJobs == r.jobs && usedCapacityGb == Charged(r, old(usedCapacityGb))
      ensures isUploading == old(isUploading) && SelectionKept()
    {
      var claimed := ClaimJob(id, env.ffmpegAvailable);
      if claimed.None? {
        return;
      }
      var i := claimed.value;
      var job := recentJobs[i];
      var input := job.filename;
      var output := Paths.ConvertedName(input);
      var ok;
      if !env.inputExists {
        ok := FailJob(i, Worker.MissingInputMessage(input));
        return;
      }
      var plan := Encoding.PlanFor(input, output, Encoding.ScaleHeight(job.resolution), job.quality, env.duration);
      ok := MarkStarted(i);
      if plan.progressPipe && env.launchError.None? {
        var reports := Progress.StreamProgress(env.progressLines, env.duration.value);
        StreamReports(id, reports);
      }
      SettleJob(i, output, plan, env);
    }

    /** The last critical section of `process_job`: fail the job at `idx`, or complete it and charge its output. */
    method SettleJob(idx: nat, output: string, plan: Encoding.Plan, env: Worker.Environment)
      requires Valid() && idx < |recentJobs|
      modifies this
      ensures Valid()
      ensures var r := Worker.Settle(old(recentJobs), idx, output, plan, env);
        recentJobs == r.jobs && usedCapacityGb == Charged(r, old(usedCapacityGb))
      ensures isUploading == old(isUploading) && SelectionKept()
    {
      var ok;
      var failure := Encoding.EncoderFailure(plan.progressPipe, env.launchError, env.exitCode);
      if failure.Some? {
        ok := FailJob(idx, failure.value);
      } else if !env.outputExists {
        ok := FailJob(idx, Worker.NoOutputMessage);
      } else {
        ok := CompleteJob(idx, output, env.outputBytes);
      }
    }
  }
}
