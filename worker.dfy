/**
 * `process_job` run from start to finish with nothing interleaved: the
 * critical sections it goes through, in order, and what each writes into
 * `recent_jobs`. The world outside the job list (whether ffmpeg is
 * installed, whether the files exist, what the probe and the encoder
 * report) is an `Environment` the caller supplies.
 */
module Worker {
  import opened Optional
  import opened Jobs
  import Paths
  import Encoding
  import Progress
  import Sizes

  /**
   * What `process_job` learns from outside: `shutil.which("ffmpeg")`, the
   * input's existence, `get_media_duration`, the exception (if any) that
   * starting the encoder raises, the encoder's exit status, the lines it
   * writes on the progress pipe, and the output's existence and size.
   */
  datatype Environment = Environment(
    ffmpegAvailable: bool,
    inputExists: bool,
    duration: Option<real>,
    launchError: Option<string>,
    exitCode: int,
    progressLines: seq<string>,
    outputExists: bool,
    outputBytes: nat)

  datatype Outcome = NotFound | Failed(message: string) | Completed(output: string, outputBytes: nat)

  /** The list after the run, how the run ended, and what was handed to the encoder, if anything. */
  datatype Run = Run(jobs: seq<Job>, outcome: Outcome, plan: Option<Encoding.Plan>)

  const NoFfmpegMessage: string := "Server Error: FFmpeg not installed"
  const NoOutputMessage: string := "Conversion failed: Output file not created"

  /** `str()` of the `FileNotFoundError` raised for a missing input. */
  function MissingInputMessage(input: string): string {
    "Input file " + input + " not found"
  }

  /** The result of the first critical section, and the index the rest of the run writes through. */
  datatype Claim = Claim(jobs: seq<Job>, index: Option<nat>)

  /**
   * The first critical section: find the first job with the id; without
   * ffmpeg mark it failed and stop, otherwise mark it Processing at 5.
   */
  function ClaimSection(jobs: seq<Job>, id: string, ffmpegAvailable: bool): (c: Claim)
    ensures |c.jobs| == |jobs|
    ensures c.index.Some? <==> FirstIndex(jobs, id).Some? && ffmpegAvailable
    ensures c.index.Some? ==> c.index == FirstIndex(jobs, id) && c.jobs == ClaimAt(jobs, c.index.value)
    ensures FirstIndex(jobs, id).None? ==> c.jobs == jobs
    ensures FirstIndex(jobs, id).Some? && !ffmpegAvailable ==>
              c.jobs == FailAt(jobs, FirstIndex(jobs, id).value, NoFfmpegMessage)
  {
    match FirstIndex(jobs, id)
    case None => Claim(jobs, None)
    case Some(i) =>
      if !ffmpegAvailable then Claim(FailAt(jobs, i, NoFfmpegMessage), None)
      else Claim(ClaimAt(jobs, i), Some(i))
  }

  /** The resolution table of one copy of the application: with or without the "4K" tier. */
  function ScaleFor(resolution: string, withFourK: bool): Option<nat> {
    if withFourK then Encoding.ScaleHeightWith4K(resolution) else Encoding.ScaleHeight(resolution)
  }

  /** Each report, in order, goes through `_update_job_progress`, which looks the job up by id. */
  function ApplyReports(jobs: seq<Job>, id: string, reports: seq<real>): (r: seq<Job>)
    ensures SameIds(r, jobs)
    decreases |reports|
  {
    if reports == [] then jobs
    else SetProgressFirst(ApplyReports(jobs, id, reports[..|reports| - 1]), id, reports[|reports| - 1])
  }

  /** The reports arrive while the encoder runs, which happens only in progress mode and after a clean start. */
  function Streamed(jobs: seq<Job>, id: string, plan: Encoding.Plan, env: Environment): (r: seq<Job>)
    requires plan.progressPipe ==> Encoding.ProgressMode(env.duration)
    ensures SameIds(r, jobs)
  {
    if plan.progressPipe && env.launchError.None? then
      ApplyReports(jobs, id, Progress.Reports(env.progressLines, env.duration.value))
    else jobs
  }

  /** The progress reports the run produces (none unless the encoder streams them). */
  function ReportsOf(plan: Encoding.Plan, env: Environment): seq<real>
    requires plan.progressPipe ==> Encoding.ProgressMode(env.duration)
  {
    if plan.progressPipe && env.launchError.None? then Progress.Reports(env.progressLines, env.duration.value)
    else []
  }

  /**
   * The last critical section: the job fails with the encoder's message or
   * for want of an output file, or completes with the output's name and size.
   */
  function Settle(jobs: seq<Job>, i: nat, output: string, plan: Encoding.Plan, env: Environment): (r: Run)
    requires i < |jobs|
    ensures |r.jobs| == |jobs|
  {
    match Encoding.EncoderFailure(plan.progressPipe, env.launchError, env.exitCode)
    case Some(message) => Run(FailAt(jobs, i, message), Failed(message), Some(plan))
    case None =>
      if !env.outputExists then Run(FailAt(jobs, i, NoOutputMessage), Failed(NoOutputMessage), Some(plan))
      else Run(CompleteAt(jobs, i, output, env.outputBytes), Completed(output, env.outputBytes), Some(plan))
  }

  /** `process_job(job_id)` with no other event in between its critical sections. */
  function RunJob(jobs: seq<Job>, id: string, env: Environment, withFourK: bool): (r: Run)
    ensures |r.jobs| == |jobs|
  {
    var c := ClaimSection(jobs, id, env.ffmpegAvailable);
    match c.index
    case None =>
      Run(c.jobs, if FirstIndex(jobs, id).None? then NotFound else Failed(NoFfmpegMessage), None)
    case Some(i) =>
      var job := jobs[i];
      var output := Paths.ConvertedName(job.filename);
      if !env.inputExists then
        var message := MissingInputMessage(job.filename);
        Run(FailAt(c.jobs, i, message), Failed(message), None)
      else
        var plan := Encoding.PlanFor(job.filename, output, ScaleFor(job.resolution, withFourK),
                                     job.quality, env.duration);
        Settle(Streamed(StartedAt(c.jobs, i), id, plan, env), i, output, plan, env)
  }

  // ---------------------------------------------------------------- properties

  /** While the job stays where it was found, the reports leave only the last one as its progress. */
  lemma {:induction false} ApplyReportsAt(jobs: seq<Job>, id: string, reports: seq<real>, i: nat)
    requires FirstIndex(jobs, id) == Some(i)
    ensures ApplyReports(jobs, id, reports)
            == if reports == [] then jobs else jobs[i := jobs[i].(progress := reports[|reports| - 1])]
    decreases |reports|
  {
    if reports != [] {
      var earlier := reports[..|reports| - 1];
      ApplyReportsAt(jobs, id, earlier, i);
      FirstIndexSameIds(jobs, ApplyReports(jobs, id, earlier), id);
    }
  }

  /** The progress the job is left with when the encoder has finished, successfully or not. */
  lemma StreamedAt(jobs: seq<Job>, id: string, plan: Encoding.Plan, env: Environment, i: nat)
    requires plan.progressPipe ==> Encoding.ProgressMode(env.duration)
    requires FirstIndex(jobs, id) == Some(i)
    ensures Streamed(jobs, id, plan, env)
            == jobs[i := jobs[i].(progress := Progress.LastOr(ReportsOf(plan, env), jobs[i].progress))]
  {
    var reports := ReportsOf(plan, env);
    if plan.progressPipe && env.launchError.None? {
      ApplyReportsAt(jobs, id, reports, i);
    }
    if reports == [] {
      assert jobs[i := jobs[i].(progress := jobs[i].progress)] == jobs;
    }
  }

  /**
   * The last critical section writes only the job at `i`: it is left in
   * Error with the failure's message, or Complete at 100 percent with the
   * output's name and size label, and every other job is as it was.
   */
  lemma SettleWrites(jobs: seq<Job>, i: nat, output: string, plan: Encoding.Plan, env: Environment)
    requires i < |jobs|
    ensures var r := Settle(jobs, i, output, plan, env);
      && SameIds(r.jobs, jobs) && r.outcome != NotFound && r.plan == Some(plan)
      && (forall k :: 0 <= k < |jobs| && k != i ==> r.jobs[k] == jobs[k])
      && (r.outcome.Failed? ==>
            r.jobs[i] == jobs[i].(status := Error, errorMessage := Some(r.outcome.message)))
      && (r.outcome.Completed? ==>
            && r.outcome == Completed(output, env.outputBytes)
            && r.jobs[i] == jobs[i].(status := Complete, progress := 100.0, convertedFilename := output,
                                     convertedSize := Some(Sizes.SizeLabelOf(env.outputBytes))))
  {
  }

  /** An id that is not in the list: nothing is written and the encoder is never started. */
  lemma RunJobAbsent(jobs: seq<Job>, id: string, env: Environment, withFourK: bool)
    requires FirstIndex(jobs, id).None?
    ensures RunJob(jobs, id, env, withFourK) == Run(jobs, NotFound, None)
  {
  }

  /**
   * Without ffmpeg the claimed job fails with the server error and nothing
   * else changes: it is never marked Processing and its progress stays.
   */
  lemma RunJobWithoutFfmpeg(jobs: seq<Job>, id: string, env: Environment, withFourK: bool)
    requires FirstIndex(jobs, id).Some? && !env.ffmpegAvailable
    ensures var i := FirstIndex(jobs, id).value;
      var r := RunJob(jobs, id, env, withFourK);
      && r.jobs == jobs[i := jobs[i].(status := Error, errorMessage := Some(NoFfmpegMessage))]
      && r.outcome == Failed(NoFfmpegMessage) && r.plan == None
  {
  }

  /**
   * Only the claimed job is written: every other job, and every id, is as
   * before the run. (Sequentially the cached index always names the claimed job.)
   */
  lemma RunJobFrame(jobs: seq<Job>, id: string, env: Environment, withFourK: bool)
    ensures var r := RunJob(jobs, id, env, withFourK);
      && SameIds(r.jobs, jobs)
      && (r.outcome != NotFound ==> FirstIndex(jobs, id).Some?)
      && forall k :: 0 <= k < |jobs| && Some(k) != FirstIndex(jobs, id) ==> r.jobs[k] == jobs[k]
  {
    var c := ClaimSection(jobs, id, env.ffmpegAvailable);
    if c.index.Some? {
      var i := c.index.value;
      var job := jobs[i];
      if env.inputExists {
        var plan := Encoding.PlanFor(job.filename, Paths.ConvertedName(job.filename),
                                     ScaleFor(job.resolution, withFourK), job.quality, env.duration);
        var started := StartedAt(c.jobs, i);
        FirstIndexSameIds(jobs, started, id);
        StreamedAt(started, id, plan, env, i);
        SettleWrites(Streamed(started, id, plan, env), i, Paths.ConvertedName(job.filename), plan, env);
      }
    }
  }

  /**
   * A run completes exactly when the job is found, ffmpeg is installed, the
   * input exists, the encoder raises nothing and the output exists; the job
   * is then Complete at 100 percent and names `converted_<stem>.mp4` and its size.
   */
  lemma RunJobCompletes(jobs: seq<Job>, id: string, env: Environment, withFourK: bool)
    ensures var r := RunJob(jobs, id, env, withFourK);
      r.outcome.Completed? <==>
        && FirstIndex(jobs, id).Some? && env.ffmpegAvailable && env.inputExists
        && Encoding.EncoderFailure(Encoding.ProgressMode(env.duration), env.launchError, env.exitCode).None?
        && env.outputExists
    ensures var r := RunJob(jobs, id, env, withFourK);
      r.outcome.Completed? ==>
        var i := FirstIndex(jobs, id).value;
        && r.outcome == Completed(Paths.ConvertedName(jobs[i].filename), env.outputBytes)
        && r.jobs[i] == jobs[i].(status := Complete, progress := 100.0,
                                 convertedFilename := Paths.ConvertedName(jobs[i].filename),
                                 convertedSize := Some(Sizes.SizeLabelOf(env.outputBytes)))
  {
    var c := ClaimSection(jobs, id, env.ffmpegAvailable);
    if c.index.Some? && env.inputExists {
      var i := c.index.value;
      var job := jobs[i];
      var plan := Encoding.PlanFor(job.filename, Paths.ConvertedName(job.filename),
                                   ScaleFor(job.resolution, withFourK), job.quality, env.duration);
      var started := StartedAt(c.jobs, i);
      FirstIndexSameIds(jobs, started, id);
      StreamedAt(started, id, plan, env, i);
      SettleWrites(Streamed(started, id, plan, env), i, Paths.ConvertedName(job.filename), plan, env);
    }
  }

  /**
   * A failed run leaves the job in Error with the exception's text; the
   * failure write keeps its progress (5 for a missing input, otherwise 10 or
   * the last report) and its output fields.
   */
  lemma RunJobFails(jobs: seq<Job>, id: string, env: Environment, withFourK: bool)
    ensures var r := RunJob(jobs, id, env, withFourK);
      r.outcome.Failed? ==>
        var i := FirstIndex(jobs, id).value;
        && r.jobs[i].status == Error && r.jobs[i].errorMessage == Some(r.outcome.message)
        && r.jobs[i].convertedFilename == jobs[i].convertedFilename
        && r.jobs[i].convertedSize == jobs[i].convertedSize
        && r.jobs[i].progress == (if !env.ffmpegAvailable then jobs[i].progress
                                  else if !env.inputExists then 5.0
                                  else Progress.LastOr(ReportsOf(r.plan.value, env), 10.0))
  {
    var c := ClaimSection(jobs, id, env.ffmpegAvailable);
    if c.index.Some? && env.inputExists {
      var i := c.index.value;
      var job := jobs[i];
      var plan := Encoding.PlanFor(job.filename, Paths.ConvertedName(job.filename),
                                   ScaleFor(job.resolution, withFourK), job.quality, env.duration);
      var started := StartedAt(c.jobs, i);
      FirstIndexSameIds(jobs, started, id);
      StreamedAt(started, id, plan, env, i);
      SettleWrites(Streamed(started, id, plan, env), i, Paths.ConvertedName(job.filename), plan, env);
    }
  }

  /**
   * In progress mode the exit status is never read: an encoder that starts
   * and leaves an output behind completes the job whatever status it exits with.
   */
  lemma StreamingIgnoresExitStatus(jobs: seq<Job>, id: string, env: Environment, withFourK: bool)
    requires FirstIndex(jobs, id).Some? && env.ffmpegAvailable && env.inputExists
    requires Encoding.ProgressMode(env.duration) && env.launchError.None? && env.outputExists
    ensures RunJob(jobs, id, env, withFourK).outcome.Completed?
    ensures RunJob(jobs, id, env.(exitCode := 1), withFourK).outcome.Completed?
  {
    RunJobCompletes(jobs, id, env, withFourK);
    RunJobCompletes(jobs, id, env.(exitCode := 1), withFourK);
  }

  /** A run keeps every job consistent: percentages in range, completions named, failures explained. */
  lemma RunJobConsistent(jobs: seq<Job>, id: string, env: Environment, withFourK: bool)
    requires AllConsistent(jobs)
    ensures AllConsistent(RunJob(jobs, id, env, withFourK).jobs)
  {
    var r := RunJob(jobs, id, env, withFourK);
    RunJobFrame(jobs, id, env, withFourK);
    RunJobCompletes(jobs, id, env, withFourK);
    RunJobFails(jobs, id, env, withFourK);
    if r.outcome.Failed? && env.ffmpegAvailable && env.inputExists {
      var reports := ReportsOf(r.plan.value, env);
      if reports != [] {
        Progress.ReportsRising(env.progressLines, env.duration.value);
        assert 0.01 <= reports[|reports| - 1] <= 99.99;
      }
    }
    forall k | 0 <= k < |r.jobs| ensures Consistent(r.jobs[k]) {
      if Some(k) != FirstIndex(jobs, id) {
        assert r.jobs[k] == jobs[k];
      }
    }
  }
}
