/**
 * The `AppState` of the video_to_mp4 application: the job list, the help
 * popovers, the two-step upload (stage the files, then confirm or cancel)
 * and the one-step upload, and the worker's critical sections with the
 * resolution table that includes "4K".
 */
module VideoToMp4 {
  import opened Optional
  import opened Jobs
  import opened Uploads
  import Paths
  import Sizes
  import Encoding
  import Progress
  import Worker

  /** One entry of `staged_files`: the upload's own name, the name it was stored under, and its size. */
  datatype StagedItem = StagedItem(originalName: string, storedName: string, size: nat)

  const ResolutionOptions: seq<string> := ["Original", "4K", "1080p", "720p", "480p"]
  const QualityOptions: seq<string> := ["Standard", "High", "Maximum"]

  // ---------------------------------------------------------------- handle_upload, per file

  /**
   * One pass of `handle_upload`'s loop. A failed read is reported under the
   * name "unknown" (the name is only known once the read succeeds); then the
   * extension is checked, then the file is written, and only then is the job made.
   */
  function Admit(a: Arrival, resolution: string, quality: string): Admission
  {
    match a.read
    case ReadFailed(reason) => Rejected(Failed("unknown", reason))
    case Bytes(size) =>
      if !Paths.IsAllowed(a.name) then Rejected(InvalidType(a.name, Paths.Extension(a.name)))
      else if a.writeError.Some? then Rejected(Failed(a.name, a.writeError.value))
      else
        Accepted(NewJob(JobId(a.jobNumber), Paths.StoredName(a.name, a.tag), size, a.uploadedAt,
                        resolution, quality))
  }

  /**
   * A file becomes a job exactly when it is read, has an allowed extension and
   * is written; the job is fresh, carries the selection, the drawn id and the
   * stored name, and its size label is that of the bytes read. A failed read is
   * reported under "unknown", a refused extension with the lower-cased suffix.
   */
  lemma AdmitSound(a: Arrival, resolution: string, quality: string)
    ensures var r := Admit(a, resolution, quality);
      && (r.Accepted? <==> a.read.Bytes? && Paths.IsAllowed(a.name) && a.writeError.None?)
      && (r.Accepted? ==>
            && IsFresh(r.job, resolution, quality) && Consistent(r.job)
            && r.job.id == JobId(a.jobNumber) && r.job.uploadedAt == a.uploadedAt
            && r.job.filename == Paths.StoredName(a.name, a.tag)
            && r.job.size == Sizes.SizeLabelOf(a.read.size))
      && (a.read.ReadFailed? ==> r == Rejected(Failed("unknown", a.read.reason)))
      && (a.read.Bytes? && !Paths.IsAllowed(a.name) ==>
            r == Rejected(InvalidType(a.name, Paths.Extension(a.name))))
  {
  }

  /**
   * The body of `handle_upload`'s `try` block for one file: the read, the
   * extension check, the write, then the job record with its size label.
   */
  method AdmitFile(a: Arrival, resolution: string, quality: string) returns (r: Admission)
    ensures r == Admit(a, resolution, quality)
  {
    match a.read {
      case ReadFailed(reason) =>
        return Rejected(Failed("unknown", reason));
      case Bytes(size) =>
        if !Paths.IsAllowed(a.name) {
          return Rejected(InvalidType(a.name, Paths.Extension(a.name)));
        }
        if a.writeError.Some? {
          return Rejected(Failed(a.name, a.writeError.value));
        }
        var sizeLabel := Sizes.FormatSize(size);
        r := Accepted(Job(JobId(a.jobNumber), Paths.StoredName(a.name, a.tag), sizeLabel, Queued, 0.0,
                          a.uploadedAt, resolution, quality, "", None, None));
    }
  }

  /** The jobs created and the errors collected by `handle_upload` over `arrivals`, in order. */
  datatype Batch = Batch(created: seq<Job>, errors: seq<UploadError>)

  /** One more file through the loop: its job is added, or its error. */
  function Next(b: Batch, admission: Admission): Batch {
    match admission
    case Accepted(job) => Batch(b.created + [job], b.errors)
    case Rejected(e) => Batch(b.created, b.errors + [e])
  }

  function AdmitAll(arrivals: seq<Arrival>, resolution: string, quality: string): Batch
    decreases |arrivals|
  {
    if arrivals == [] then Batch([], [])
    else
      Next(AdmitAll(arrivals[..|arrivals| - 1], resolution, quality),
           Admit(arrivals[|arrivals| - 1], resolution, quality))
  }

  /** `AdmitAll` over one more file. */
  lemma AdmitAllStep(arrivals: seq<Arrival>, i: nat, resolution: string, quality: string)
    requires i < |arrivals|
    ensures AdmitAll(arrivals[..i + 1], resolution, quality)
      == Next(AdmitAll(arrivals[..i], resolution, quality), Admit(arrivals[i], resolution, quality))
  {
    assert arrivals[..i + 1][..i] == arrivals[..i];
  }

  /** Each file yields exactly one job or one error, and every job made is fresh and consistent. */
  lemma {:induction false} AdmitAllAccounts(arrivals: seq<Arrival>, resolution: string, quality: string)
    ensures var b := AdmitAll(arrivals, resolution, quality);
      && |b.created| + |b.errors| == |arrivals|
      && forall k :: 0 <= k < |b.created| ==>
           IsFresh(b.created[k], resolution, quality) && Consistent(b.created[k])
    decreases |arrivals|
  {
    if arrivals != [] {
      AdmitAllAccounts(arrivals[..|arrivals| - 1], resolution, quality);
      AdmittedFresh(arrivals[|arrivals| - 1], resolution, quality);
    }
  }

  /** The job a file yields, if any, is fresh and consistent. */
  lemma AdmittedFresh(a: Arrival, resolution: string, quality: string)
    ensures Admit(a, resolution, quality).Accepted? ==>
      IsFresh(Admit(a, resolution, quality).job, resolution, quality)
      && Consistent(Admit(a, resolution, quality).job)
  {
    AdmitSound(a, resolution, quality);
  }

  /** A batch whose files are all rejected creates nothing. */
  lemma {:induction false} AdmitAllNoneAllowed(arrivals: seq<Arrival>, resolution: string, quality: string)
    requires forall k :: 0 <= k < |arrivals| ==> !Paths.IsAllowed(arrivals[k].name)
    ensures AdmitAll(arrivals, resolution, quality).created == []
    decreases |arrivals|
  {
    if arrivals != [] {
      AdmitAllNoneAllowed(arrivals[..|arrivals| - 1], resolution, quality);
    }
  }

  /**
   * After an upload the new jobs stand at the front, the last file's first,
   * each fresh with the selection made at the time; the jobs that were there
   * follow, unchanged and in their order.
   */
  lemma UploadShape(jobs: seq<Job>, arrivals: seq<Arrival>, resolution: string, quality: string)
    ensures var created := AdmitAll(arrivals, resolution, quality).created;
      var r := InsertedAtFront(jobs, created);
      && |r| == |jobs| + |created| && r[|created|..] == jobs
      && (forall k :: 0 <= k < |created| ==> r[k] == created[|created| - 1 - k])
      && forall k :: 0 <= k < |created| ==> IsFresh(r[k], resolution, quality)
  {
    var created := AdmitAll(arrivals, resolution, quality).created;
    InsertedAtFrontShape(jobs, created);
    AdmitAllAccounts(arrivals, resolution, quality);
  }

  // ---------------------------------------------------------------- open_confirm / confirm_upload

  datatype Staging = Staged(item: StagedItem) | NotStaged(error: UploadError)

  /** One pass of `open_confirm`'s loop: `handle_upload`'s checks, ending in a staged item instead of a job. */
  function Stage(a: Arrival): (r: Staging)
    ensures r.Staged? <==> a.read.Bytes? && Paths.IsAllowed(a.name) && a.writeError.None?
    ensures r.Staged? ==> r.item == StagedItem(a.name, Paths.StoredName(a.name, a.tag), a.read.size)
  {
    match a.read
    case ReadFailed(reason) => NotStaged(Failed("unknown", reason))
    case Bytes(size) =>
      if !Paths.IsAllowed(a.name) then NotStaged(InvalidType(a.name, Paths.Extension(a.name)))
      else if a.writeError.Some? then NotStaged(Failed(a.name, a.writeError.value))
      else Staged(StagedItem(a.name, Paths.StoredName(a.name, a.tag), size))
  }

  /** The body of `open_confirm`'s `try` block for one file. */
  method StageFile(a: Arrival) returns (r: Staging)
    ensures r == Stage(a)
  {
    match a.read {
      case ReadFailed(reason) =>
        return NotStaged(Failed("unknown", reason));
      case Bytes(size) =>
        if !Paths.IsAllowed(a.name) {
          return NotStaged(InvalidType(a.name, Paths.Extension(a.name)));
        }
        if a.writeError.Some? {
          return NotStaged(Failed(a.name, a.writeError.value));
        }
        r := Staged(StagedItem(a.name, Paths.StoredName(a.name, a.tag), size));
    }
  }

  datatype StagedBatch = StagedBatch(items: seq<StagedItem>, errors: seq<UploadError>)

  /** One more file through `open_confirm`'s loop: its item is added, or its error. */
  function NextStaged(b: StagedBatch, staging: Staging): StagedBatch {
    match staging
    case Staged(item) => StagedBatch(b.items + [item], b.errors)
    case NotStaged(e) => StagedBatch(b.items, b.errors + [e])
  }

  function StageAll(arrivals: seq<Arrival>): StagedBatch
    decreases |arrivals|
  {
    if arrivals == [] then StagedBatch([], [])
    else NextStaged(StageAll(arrivals[..|arrivals| - 1]), Stage(arrivals[|arrivals| - 1]))
  }

  /** `StageAll` over one more file. */
  lemma StageAllStep(arrivals: seq<Arrival>, i: nat)
    requires i < |arrivals|
    ensures StageAll(arrivals[..i + 1]) == NextStaged(StageAll(arrivals[..i]), Stage(arrivals[i]))
  {
    assert arrivals[..i + 1][..i] == arrivals[..i];
  }

  function OriginalNames(items: seq<StagedItem>): (names: seq<string>)
    ensures |names| == |items| && forall k :: 0 <= k < |items| ==> names[k] == items[k].originalName
  {
    seq(|items|, k requires 0 <= k < |items| => items[k].originalName)
  }

  /** One more staged item adds its name at the end. */
  lemma OriginalNamesStep(items: seq<StagedItem>, item: StagedItem)
    ensures OriginalNames(items + [item]) == OriginalNames(items) + [item.originalName]
  {
    assert forall k :: 0 <= k < |items| ==> (items + [item])[k] == items[k];
  }

  /** The stored files `close_confirm` unlinks: those staged items that name one. */
  function StoredFiles(items: seq<StagedItem>): seq<string>
    decreases |items|
  {
    if items == [] then []
    else
      var last := items[|items| - 1];
      StoredFiles(items[..|items| - 1]) + (if last.storedName != "" then [last.storedName] else [])
  }

  /**
   * The jobs `confirm_upload` creates from the staged items, in order: one per
   * item that names a stored file, each with its own draw from `stamps`.
   */
  function ConfirmedJobs(items: seq<StagedItem>, stamps: seq<Stamp>, resolution: string, quality: string): seq<Job>
    requires |stamps| == |items|
    decreases |items|
  {
    if items == [] then []
    else
      var n := |items| - 1;
      var earlier := ConfirmedJobs(items[..n], stamps[..n], resolution, quality);
      if items[n].storedName == "" then earlier
      else earlier + [NewJob(JobId(stamps[n].jobNumber), items[n].storedName, items[n].size,
                             stamps[n].uploadedAt, resolution, quality)]
  }

  function CountNamed(items: seq<StagedItem>): nat
    decreases |items|
  {
    if items == [] then 0
    else CountNamed(items[..|items| - 1]) + (if items[|items| - 1].storedName != "" then 1 else 0)
  }

  /**
   * `confirm_upload` makes exactly one job per staged item that names a stored
   * file, that job stores that file, and every job is fresh.
   */
  lemma {:induction false} ConfirmedJobsCount(items: seq<StagedItem>, stamps: seq<Stamp>,
                                              resolution: string, quality: string)
    requires |stamps| == |items|
    ensures var jobs := ConfirmedJobs(items, stamps, resolution, quality);
      && |jobs| == CountNamed(items) && |jobs| == |StoredFiles(items)|
      && forall k :: 0 <= k < |jobs| ==>
           jobs[k].filename == StoredFiles(items)[k] && IsFresh(jobs[k], resolution, quality)
    decreases |items|
  {
    if items != [] {
      var n := |items| - 1;
      ConfirmedJobsCount(items[..n], stamps[..n], resolution, quality);
    }
  }

  /** The stamps of the files that get staged, in order. */
  function StagedStamps(arrivals: seq<Arrival>): (stamps: seq<Stamp>)
    ensures |stamps| == |StageAll(arrivals).items|
    decreases |arrivals|
  {
    if arrivals == [] then []
    else
      var a := arrivals[|arrivals| - 1];
      StagedStamps(arrivals[..|arrivals| - 1])
        + (if Stage(a).Staged? then [Stamp(a.jobNumber, a.uploadedAt)] else [])
  }

  /**
   * Staging files and confirming them makes the same jobs, in the same order,
   * as uploading them directly with the same draws, and turns away the same files.
   */
  lemma {:induction false} StageThenConfirm(arrivals: seq<Arrival>, resolution: string, quality: string)
    ensures ConfirmedJobs(StageAll(arrivals).items, StagedStamps(arrivals), resolution, quality)
            == AdmitAll(arrivals, resolution, quality).created
    ensures StageAll(arrivals).errors == AdmitAll(arrivals, resolution, quality).errors
    decreases |arrivals|
  {
    if arrivals != [] {
      var n := |arrivals| - 1;
      var a := arrivals[n];
      StageThenConfirm(arrivals[..n], resolution, quality);
      var items := StageAll(arrivals).items;
      var stamps := StagedStamps(arrivals);
      if Stage(a).Staged? {
        var m := |items| - 1;
        assert items[..m] == StageAll(arrivals[..n]).items;
        assert stamps[..m] == StagedStamps(arrivals[..n]);
        var stored := Paths.StoredName(a.name, a.tag);
        assert items[m] == StagedItem(a.name, stored, a.read.size);
        assert |stored| > 0;
        assert stamps[m] == Stamp(a.jobNumber, a.uploadedAt);
        assert Admit(a, resolution, quality)
               == Accepted(NewJob(JobId(a.jobNumber), stored, a.read.size, a.uploadedAt, resolution, quality));
      } else {
        assert items == StageAll(arrivals[..n]).items;
        assert stamps == StagedStamps(arrivals[..n]);
        assert Admit(a, resolution, quality) == Rejected(Stage(a).error);
      }
    }
  }

  // ---------------------------------------------------------------- the upload loops

  /**
   * `handle_upload`'s loop over the files, on the job list it starts from:
   * each admitted file's job goes to the front and its id is dispatched, each
   * turned-away file adds its error.
   */
  method UploadBatch(jobs: seq<Job>, arrivals: seq<Arrival>, resolution: string, quality: string)
    returns (newJobs: seq<Job>, dispatched: seq<string>, errors: seq<UploadError>)
    ensures var b := AdmitAll(arrivals, resolution, quality);
      && newJobs == InsertedAtFront(jobs, b.created)
      && dispatched == Ids(b.created) && errors == b.errors
  {
    newJobs, dispatched, errors := jobs, [], [];
    ghost var b := Batch([], []);
    var i := 0;
    while i < |arrivals|
      invariant 0 <= i <= |arrivals|
      invariant b == AdmitAll(arrivals[..i], resolution, quality) && errors == b.errors
      invariant newJobs == InsertedAtFront(jobs, b.created) && dispatched == Ids(b.created)
    {
      var admission := AdmitFile(arrivals[i], resolution, quality);
      ghost var next := Next(b, admission);
      assert next == AdmitAll(arrivals[..i + 1], resolution, quality) by {
        AdmitAllStep(arrivals, i, resolution, quality);
      }
      match admission {
        case Rejected(e) =>
          errors := errors + [e];
        case Accepted(job) =>
          assert InsertedAtFront(jobs, next.created) == [job] + newJobs
            && Ids(next.created) == dispatched + [job.id] by {
            InsertedAtFrontStep(jobs, b.created, job);
            IdsStep(b.created, job);
          }
          newJobs := [job] + newJobs;
          dispatched := dispatched + [job.id];
      }
      b := next;
      i := i + 1;
    }
    assert arrivals[..i] == arrivals;
  }

  /**
   * `open_confirm`'s loop over the files: each stageable file's name joins
   * the pending names and its item the staged items; each other file adds its error.
   */
  method StageBatch(arrivals: seq<Arrival>)
    returns (names: seq<string>, items: seq<StagedItem>, errors: seq<UploadError>)
    ensures items == StageAll(arrivals).items && errors == StageAll(arrivals).errors
    ensures names == OriginalNames(items)
  {
    names, items, errors := [], [], [];
    ghost var b := StagedBatch([], []);
    var i := 0;
    while i < |arrivals|
      invariant 0 <= i <= |arrivals|
      invariant b == StageAll(arrivals[..i]) && items == b.items && errors == b.errors
      invariant names == OriginalNames(items)
    {
      var staging := StageFile(arrivals[i]);
      ghost var next := NextStaged(b, staging);
      assert next == StageAll(arrivals[..i + 1]) by {
        StageAllStep(arrivals, i);
      }
      match staging {
        case NotStaged(e) =>
          errors := errors + [e];
        case Staged(item) =>
          OriginalNamesStep(items, item);
          names := names + [item.originalName];
          items := items + [item];
      }
      b := next;
      i := i + 1;
    }
    assert arrivals[..i] == arrivals;
  }

  /**
   * `confirm_upload`'s loop over the staged items, on the job list it starts
   * from: each item that names a stored file becomes a job at the front, with
   * its own draw, and its id is dispatched.
   */
  method ConfirmBatch(jobs: seq<Job>, staged: seq<StagedItem>, stamps: seq<Stamp>, resolution: string, quality: string)
    returns (newJobs: seq<Job>, dispatched: seq<string>)
    requires |stamps| == |staged|
    ensures var created := ConfirmedJobs(staged, stamps, resolution, quality);
      newJobs == InsertedAtFront(jobs, created) && dispatched == Ids(created)
  {
    newJobs, dispatched := jobs, [];
    ghost var created: seq<Job> := [];
    var i := 0;
    while i < |staged|
      invariant 0 <= i <= |staged|
      invariant created == ConfirmedJobs(staged[..i], stamps[..i], resolution, quality)
      invariant newJobs == InsertedAtFront(jobs, created) && dispatched == Ids(created)
    {
      var item := staged[i];
      if item.storedName != "" {
        var sizeLabel := Sizes.FormatSize(item.size);
        var job := Job(JobId(stamps[i].jobNumber), item.storedName, sizeLabel, Queued, 0.0,
                       stamps[i].uploadedAt, resolution, quality, "", None, None);
        assert created + [job] == ConfirmedJobs(staged[..i + 1], stamps[..i + 1], resolution, quality) by {
          assert staged[..i + 1][..i] == staged[..i];
          assert stamps[..i + 1][..i] == stamps[..i];
        }
        assert InsertedAtFront(jobs, created + [job]) == [job] + newJobs
          && Ids(created + [job]) == dispatched + [job.id] by {
          InsertedAtFrontStep(jobs, created, job);
          IdsStep(created, job);
        }
        newJobs := [job] + newJobs;
        dispatched := dispatched + [job.id];
        created := created + [job];
      } else {
        assert created == ConfirmedJobs(staged[..i + 1], stamps[..i + 1], resolution, quality) by {
          assert staged[..i + 1][..i] == staged[..i];
          assert stamps[..i + 1][..i] == stamps[..i];
        }
      }
      i := i + 1;
    }
    assert staged[..i] == staged;
    assert stamps[..i] == stamps;
  }

  // ---------------------------------------------------------------- the state

  class AppState {
    var isUploading: bool
    var showResolutionHelp: bool
    var showQualityHelp: bool
    var showConfirmDialog: bool
    var pendingFiles: seq<string>
    var stagedFiles: seq<StagedItem>
    var selectedResolution: string
    var selectedQuality: string
    var recentJobs: seq<Job>

    /** At most one help popover is open, and the pending names are those of the staged files. */
    predicate Valid()
      reads this
    {
      && !(showResolutionHelp && showQualityHelp)
      && pendingFiles == OriginalNames(stagedFiles)
    }

    /** The help popovers are as they were. */
    twostate predicate HelpKept()
      reads this
    {
      showResolutionHelp == old(showResolutionHelp) && showQualityHelp == old(showQualityHelp)
    }

    /** The upload flag, the dialog and the staging are as they were. */
    twostate predicate StagingKept()
      reads this
    {
      && isUploading == old(isUploading) && showConfirmDialog == old(showConfirmDialog)
      && pendingFiles == old(pendingFiles) && stagedFiles == old(stagedFiles)
    }

    /** The resolution and quality selection is as it was. */
    twostate predicate SelectionKept()
      reads this
    {
      selectedResolution == old(selectedResolution) && selectedQuality == old(selectedQuality)
    }

    /** Only the job list may have changed. */
    twostate predicate OnlyJobsChanged()
      reads this
    {
      HelpKept() && StagingKept() && SelectionKept()
    }

    constructor()
      ensures Valid()
      ensures !isUploading && !showResolutionHelp && !showQualityHelp && !showConfirmDialog
      ensures pendingFiles == [] && stagedFiles == [] && recentJobs == []
      ensures selectedResolution == "Original" && selectedQuality == "High"
    {
      isUploading := false;
      showResolutionHelp := false;
      showQualityHelp := false;
      showConfirmDialog := false;
      pendingFiles := [];
      stagedFiles := [];
      selectedResolution := "Original";
      selectedQuality := "High";
      recentJobs := [];
    }

    method SetResolution(resolution: string)
      requires Valid()
      modifies this
      ensures Valid()
      ensures selectedResolution == resolution
      ensures selectedQuality == old(selectedQuality) && HelpKept() && StagingKept()
      ensures recentJobs == old(recentJobs)
    {
      selectedResolution := resolution;
    }

    method SetQuality(quality: string)
      requires Valid()
      modifies this
      ensures Valid()
      ensures selectedQuality == quality
      ensures selectedResolution == old(selectedResolution) && HelpKept() && StagingKept()
      ensures recentJobs == old(recentJobs)
    {
      selectedQuality := quality;
    }

    // ------------------------------------------------------------ help popovers

    /** Opening one popover closes the other; closing it leaves the other as it was. */
    method ToggleResolutionHelp()
      requires Valid()
      modifies this
      ensures Valid()
      ensures showResolutionHelp == !old(showResolutionHelp)
      ensures showQualityHelp == (old(showQualityHelp) && !showResolutionHelp)
      ensures StagingKept() && SelectionKept()
      ensures recentJobs == old(recentJobs)
    {
      showResolutionHelp := !showResolutionHelp;
      if showResolutionHelp {
        showQualityHelp := false;
      }
    }

    method ToggleQualityHelp()
      requires Valid()
      modifies this
      ensures Valid()
      ensures showQualityHelp == !old(showQualityHelp)
      ensures showResolutionHelp == (old(showResolutionHelp) && !showQualityHelp)
      ensures StagingKept() && SelectionKept()
      ensures recentJobs == old(recentJobs)
    {
      showQualityHelp := !showQualityHelp;
      if showQualityHelp {
        showResolutionHelp := false;
      }
    }

    method CloseHelp()
      requires Valid()
      modifies this
      ensures Valid() && !showResolutionHelp && !showQualityHelp
      ensures StagingKept() && SelectionKept() && recentJobs == old(recentJobs)
    {
      showResolutionHelp := false;
      showQualityHelp := false;
    }

    // ------------------------------------------------------------ two-step upload

    /**
     * `open_confirm`: with no files nothing changes; otherwise the previous
     * staging is dropped, the acceptable files are stored and staged, and the
     * dialog opens if anything was staged. Returns the per-file errors.
     */
    method OpenConfirm(arrivals: seq<Arrival>) returns (errors: seq<UploadError>)
      requires Valid()
      modifies this
      ensures Valid()
      ensures arrivals == [] ==> StagingKept() && errors == []
      ensures arrivals != [] ==>
        && stagedFiles == StageAll(arrivals).items && errors == StageAll(arrivals).errors
        && showConfirmDialog == (old(showConfirmDialog) || stagedFiles != [])
      ensures isUploading == old(isUploading) && HelpKept() && SelectionKept()
      ensures recentJobs == old(recentJobs)
    {
      errors := [];
      if arrivals == [] {
        return;
      }
      var names, items;
      names, items, errors := StageBatch(arrivals);
      pendingFiles := names;
      stagedFiles := items;
      assert pendingFiles == OriginalNames(stagedFiles);
      if stagedFiles != [] {
        showConfirmDialog := true;
      }
    }

    /** `close_confirm`: the dialog closes, the staged files are unlinked (returned here) and forgotten. */
    method CloseConfirm() returns (deleted: seq<string>)
      requires Valid()
      modifies this
      ensures Valid()
      ensures deleted == StoredFiles(old(stagedFiles))
      ensures !showConfirmDialog && pendingFiles == [] && stagedFiles == []
      ensures isUploading == old(isUploading) && HelpKept() && SelectionKept() && recentJobs == old(recentJobs)
    {
      showConfirmDialog := false;
      deleted := [];
      var i := 0;
      while i < |stagedFiles|
        invariant 0 <= i <= |stagedFiles|
        invariant deleted == StoredFiles(stagedFiles[..i])
      {
        assert stagedFiles[..i + 1][..i] == stagedFiles[..i];
        if stagedFiles[i].storedName != "" {
          deleted := deleted + [stagedFiles[i].storedName];
        }
        i := i + 1;
      }
      assert stagedFiles[..i] == stagedFiles;
      pendingFiles := [];
      stagedFiles := [];
    }

    /**
     * `confirm_upload`: the dialog closes and the staging is emptied; each
     * staged item that names a stored file becomes a queued job at the front,
     * with the selection of the moment. Returns the ids handed to `process_job`.
     */
    method ConfirmUpload(stamps: seq<Stamp>) returns (dispatched: seq<string>)
      requires Valid() && |stamps| == |stagedFiles|
      modifies this
      ensures Valid()
      ensures var created := ConfirmedJobs(old(stagedFiles), stamps, selectedResolution, selectedQuality);
        recentJobs == InsertedAtFront(old(recentJobs), created) && dispatched == Ids(created)
      ensures !showConfirmDialog && pendingFiles == [] && stagedFiles == []
      ensures isUploading == old(isUploading) && HelpKept() && SelectionKept()
    {
      showConfirmDialog := false;
      var staged := stagedFiles;
      pendingFiles := [];
      stagedFiles := [];
      dispatched := [];
      if staged == [] {
        return;
      }
      var jobs;
      jobs, dispatched := ConfirmBatch(recentJobs, staged, stamps, selectedResolution, selectedQuality);
      recentJobs := jobs;
    }

    // ------------------------------------------------------------ one-step upload

    /**
     * `handle_upload`: every acceptable file is stored and becomes a queued
     * job at the front. Returns the ids handed to `process_job` and the
     * per-file errors.
     */
    method HandleUpload(arrivals: seq<Arrival>) returns (dispatched: seq<string>, errors: seq<UploadError>)
      requires Valid()
      modifies this
      ensures Valid()
      ensures var b := AdmitAll(arrivals, selectedResolution, selectedQuality);
        && recentJobs == InsertedAtFront(old(recentJobs), b.created)
        && dispatched == Ids(b.created) && errors == b.errors
      ensures !isUploading && HelpKept() && SelectionKept()
      ensures showConfirmDialog == old(showConfirmDialog)
      ensures pendingFiles == old(pendingFiles) && stagedFiles == old(stagedFiles)
    {
      isUploading := true;
      var jobs;
      jobs, dispatched, errors := UploadBatch(recentJobs, arrivals, selectedResolution, selectedQuality);
      recentJobs := jobs;
      isUploading := false;
    }

    // ------------------------------------------------------------ job list events

    /** `remove_job`: every job with the id leaves the list; the first one's files are unlinked (returned here). */
    method RemoveJob(id: string) returns (deleted: seq<string>)
      requires Valid()
      modifies this
      ensures Valid()
      ensures recentJobs == RemoveById(old(recentJobs), id)
      ensures deleted == FilesToDelete(old(recentJobs), id)
      ensures OnlyJobsChanged()
    {
      deleted := FilesToDelete(recentJobs, id);
      recentJobs := RemoveById(recentJobs, id);
    }

    /** `retry_job`: the first job with the id is reset and dispatched again, whatever its status. */
    method RetryJob(id: string) returns (dispatched: bool)
      requires Valid()
      modifies this
      ensures Valid()
      ensures recentJobs == RetryFirst(old(recentJobs), id)
      ensures dispatched <==> FirstIndex(old(recentJobs), id).Some?
      ensures OnlyJobsChanged()
    {
      dispatched := false;
      var i := 0;
      while i < |recentJobs|
        invariant 0 <= i <= |recentJobs| && recentJobs == old(recentJobs)
        invariant forall k :: 0 <= k < i ==> recentJobs[k].id != id
      {
        if recentJobs[i].id == id {
          recentJobs := recentJobs[i := recentJobs[i].(status := Queued, progress := 0.0, errorMessage := None)];
          dispatched := true;
          return;
        }
        i := i + 1;
      }
    }

    /** `_update_job_progress`: the first job with the id takes the new progress. */
    method UpdateJobProgress(id: string, progress: real)
      requires Valid()
      modifies this
      ensures Valid()
      ensures recentJobs == SetProgressFirst(old(recentJobs), id, progress)
      ensures OnlyJobsChanged()
    {
      var i := 0;
      while i < |recentJobs|
        invariant 0 <= i <= |recentJobs| && recentJobs == old(recentJobs)
        invariant forall k :: 0 <= k < i ==> recentJobs[k].id != id
      {
        if recentJobs[i].id == id {
          recentJobs := recentJobs[i := recentJobs[i].(progress := progress)];
          return;
        }
        i := i + 1;
      }
    }

    // ------------------------------------------------------------ process_job's critical sections

    /**
     * The first critical section: the index of the first job with the id,
     * when there is one and ffmpeg is installed; that job is then Processing at 5.
     */
    method ClaimJob(id: string, ffmpegAvailable: bool) returns (claimed: Option<nat>)
      requires Valid()
      modifies this
      ensures Valid()
      ensures var c := Worker.ClaimSection(old(recentJobs), id, ffmpegAvailable);
        recentJobs == c.jobs && claimed == c.index
      ensures OnlyJobsChanged()
    {
      claimed := IndexOf(recentJobs, id);
      if claimed.None? {
        return;
      }
      var i := claimed.value;
      if !ffmpegAvailable {
        recentJobs := recentJobs[i := recentJobs[i].(status := Error, errorMessage := Some(Worker.NoFfmpegMessage))];
        return None;
      }
      recentJobs := recentJobs[i := recentJobs[i].(status := Processing, progress := 5.0)];
    }

    /**
     * The later sections write through the index the claim returned, which
     * other events may have shifted meanwhile; an index past the end raises
     * and writes nothing (`ok` is false).
     */
    method MarkStarted(idx: nat) returns (ok: bool)
      requires Valid()
      modifies this
      ensures Valid()
      ensures ok <==> idx < |old(recentJobs)|
      ensures recentJobs == if ok then StartedAt(old(recentJobs), idx) else old(recentJobs)
      ensures OnlyJobsChanged()
    {
      ok := idx < |recentJobs|;
      if ok {
        recentJobs := recentJobs[idx := recentJobs[idx].(progress := 10.0)];
      }
    }

    method CompleteJob(idx: nat, output: string, outputBytes: nat) returns (ok: bool)
      requires Valid()
      modifies this
      ensures Valid()
      ensures ok <==> idx < |old(recentJobs)|
      ensures recentJobs == if ok then CompleteAt(old(recentJobs), idx, output, outputBytes) else old(recentJobs)
      ensures OnlyJobsChanged()
    {
      ok := idx < |recentJobs|;
      if ok {
        var sizeLabel := Sizes.FormatSize(outputBytes);
        recentJobs := recentJobs[idx := recentJobs[idx].(status := Complete, progress := 100.0,
                                                         convertedFilename := output,
                                                         convertedSize := Some(sizeLabel))];
      }
    }

    method FailJob(idx: nat, message: string) returns (ok: bool)
      requires Valid()
      modifies this
      ensures Valid()
      ensures ok <==> idx < |old(recentJobs)|
      ensures recentJobs == if ok then FailAt(old(recentJobs), idx, message) else old(recentJobs)
      ensures OnlyJobsChanged()
    {
      ok := idx < |recentJobs|;
      if ok {
        recentJobs := recentJobs[idx := recentJobs[idx].(status := Error, errorMessage := Some(message))];
      }
    }

    /** `process_job`'s read loop: each progress report goes through `_update_job_progress` as it arrives. */
    method StreamReports(id: string, reports: seq<real>)
      requires Valid()
      modifies this
      ensures Valid()
      ensures recentJobs == Worker.ApplyReports(old(recentJobs), id, reports)
      ensures OnlyJobsChanged()
    {
      var k := 0;
      while k < |reports|
        invariant 0 <= k <= |reports|
        invariant recentJobs == Worker.ApplyReports(old(recentJobs), id, reports[..k])
        invariant Valid() && OnlyJobsChanged()
      {
        assert reports[..k + 1][..k] == reports[..k];
        UpdateJobProgress(id, reports[k]);
        k := k + 1;
      }
      assert reports[..k] == reports;
    }

    /** `process_job` run with nothing interleaved, section after section. */
    method ProcessJob(id: string, env: Worker.Environment)
      requires Valid()
      modifies this
      ensures Valid()
      ensures recentJobs == Worker.RunJob(old(recentJobs), id, env, true).jobs
      ensures OnlyJobsChanged()
    {
      var claimed := ClaimJob(id, env.ffmpegAvailable);
      if claimed.None? {
        return;
      }
      var i := claimed.value;
      var job := recentJobs[i];
      var input := job.filename;
      var output := Paths.ConvertedName(input);
      var ok;
      if !env.inputExists {
        ok := FailJob(i, Worker.MissingInputMessage(input));
        return;
      }
      var plan := Encoding.PlanFor(input, output, Encoding.ScaleHeightWith4K(job.resolution),
                                   job.quality, env.duration);
      ok := MarkStarted(i);
      if plan.progressPipe && env.launchError.None? {
        var reports := Progress.StreamProgress(env.progressLines, env.duration.value);
        StreamReports(id, reports);
      }
      SettleJob(i, output, plan, env);
    }

    /** The last critical section of `process_job`: fail or complete the job at `idx`. */
    method SettleJob(idx: nat, output: string, plan: Encoding.Plan, env: Worker.Environment)
      requires idx < |recentJobs|
      requires Valid()
      modifies this
      ensures Valid()
      ensures recentJobs == Worker.Settle(old(recentJobs), idx, output, plan, env).jobs
      ensures OnlyJobsChanged()
    {
      var ok;
      var failure := Encoding.EncoderFailure(plan.progressPipe, env.launchError, env.exitCode);
      if failure.Some? {
        ok := FailJob(idx, failure.value);
      } else if !env.outputExists {
        ok := FailJob(idx, Worker.NoOutputMessage);
      } else {
        ok := CompleteJob(idx, output, env.outputBytes);
      }
    }
  }
}
