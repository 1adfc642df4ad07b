# Video converter job engine, in Dafny

This project models the in-memory job engine of two Reflex applications that
convert uploaded videos to MP4 with ffmpeg, and proves properties of it:

- `video_to_mp4` (`video_to_mp4/states/app_state.py`);
- its near twin `reflex_video_converter` (`reflex_video_converter/states/app_state.py`).

Each application's `AppState` keeps `recent_jobs`, a list of `FileJob`
records, newest first. Its event handlers act on that list:

- uploads insert queued jobs at the front;
- `remove_job` filters the list by id;
- `retry_job` resets the first job with an id;
- `_update_job_progress` rewrites the first job's progress;
- `process_job` claims a job and walks it through Processing (5), started (10), then Complete (100) or Error, in short critical sections.

`video_to_mp4` adds a two-step upload: `open_confirm` stages the files, and then `confirm_upload` or `close_confirm` finishes it. It also has two help popovers and a "4K" resolution tier. `reflex_video_converter` instead keeps a 100 GB storage quota:

- uploads are checked against the quota and charged to it;
- completed conversions are charged with no check;
- the quota indicator shows the remaining space, the usage percentage and a colour.

Layout, one module per file:

| file | module | what it holds |
|---|---|---|
| `option.dfy` | `Optional` | `Option` |
| `text.dfy` | `Text` | decimal numerals, digit runs, ASCII lower-casing, `rfind` |
| `paths.dfy` | `Paths` | `Path.stem` / `Path.suffix`, the extension allow-list, the stored and converted file names |
| `sizes.dfy` | `Sizes` | `_format_size`'s unit loop |
| `jobs.dfy` | `Jobs` | the `FileJob` record and the list operations both copies share, as functions |
| `encoding.dfy` | `Encoding` | the resolution and quality tables, what is handed to `run_ffmpeg`, when it raises |
| `progress.dfy` | `Progress` | the `out_time_ms=` matcher, the progress filter loop of `run_ffmpeg`, `_parse_ffmpeg_time` |
| `worker.dfy` | `Worker` | `process_job` run section by section with nothing in between (`RunJob`) |
| `uploads.dfy` | `Uploads` | what an upload handler sees of one file; job ids |
| `video_to_mp4.dfy` | `VideoToMp4` | the first application's `AppState` class and its upload specifications |
| `reflex_converter.dfy` | `ReflexConverter` | the second application's `AppState` class with the quota |

How the pieces fit:

- Each event handler is a method of an `AppState` class. The method changes the fields the handler changes.
- Its `ensures` ties the new state to a specification function of the old state, e.g. `RemoveById`, `RetryFirst`, `InsertedAtFront` or `Worker.RunJob`.
- The properties the source promises are lemmas about those functions.
- Each `async with self:` block of `process_job` is one method (`ClaimJob`, `MarkStarted`, `CompleteJob`, `FailJob`). The later blocks take the cached index as a parameter, as the source does.
- `SettleJob` chooses between the last two blocks, as `Worker.Settle` does.
- `ProcessJob` runs the blocks in order and is proved equal to `Worker.RunJob`.

Where the code and its own description disagree, the model follows the code:

- The cached index is not required to be in range. An index past the end raises `IndexError` in the source; here the block writes nothing and returns `ok == false`.
- In progress mode `run_ffmpeg` never looks at the encoder's exit status. Such a run completes whenever an output file exists.
- The first copy reports a failed read under the name "unknown"; the second uses the upload's own name.

## Model

| member | source | states |
|---|---|---|
| Text.Decimal | video_to_mp4/states/app_state.py:339 | `f"{n}"` is a non-empty digit string with no leading zero |
| Text.ValueOfDecimal | video_to_mp4/states/app_state.py:339 | reading back a rendered number gives the number |
| Text.DecimalInjective | video_to_mp4/states/app_state.py:339 | two numbers render the same exactly when they are equal |
| Text.DigitPrefix | video_to_mp4/states/app_state.py:454 | `\d+` takes the longest digit prefix: a prefix of digits followed by a non-digit or the end |
| Text.LastIndexOf | video_to_mp4/states/app_state.py:329-330 | the last occurrence of the character, and none after it, or -1 |
| Paths.Name | video_to_mp4/states/app_state.py:329-330 | the final path component holds no '/' |
| Paths.NameIsLastComponent | video_to_mp4/states/app_state.py:329-330 | the name is the suffix of the path after its last '/', or the whole path when it has none |
| Paths.SuffixDot | video_to_mp4/states/app_state.py:329-330 | a suffix dot is a '.' strictly inside the name, neither its first nor its last character; otherwise -1 |
| Paths.SuffixDotIsLast | video_to_mp4/states/app_state.py:329-330 | the suffix dot is the last '.' of the name; -1 exactly when no dot lies strictly inside the name or the name ends with a dot |
| Paths.StemSuffixOfJoin | video_to_mp4/states/app_state.py:329-330 | `stem.ext` splits back into `stem` and `.ext` |
| Paths.AcceptedIff | video_to_mp4/states/app_state.py:331-333 | a `stem.ext` name is accepted exactly when `ext` lower-cased is in `allowed_extensions` |
| Paths.NoInnerDotRejected | video_to_mp4/states/app_state.py:331-333 | a name with no dot strictly inside it (".mp4", "video", "video.") has no suffix and is rejected |
| Paths.EmptySuffixRejected | video_to_mp4/states/app_state.py:331-333 | an empty suffix is never an allowed extension |
| Paths.StoredNameAccepted | video_to_mp4/states/app_state.py:334 | the stored name `stem_tag.ext` keeps the lower-cased extension, has stem `stem_tag`, and is itself accepted |
| Paths.StoredNameParts | video_to_mp4/states/app_state.py:329-334 | the stored name `stem_tag.ext` has the original's lower-cased suffix and stem `stem_tag` |
| Paths.SuffixParts | video_to_mp4/states/app_state.py:329-330 | a non-empty suffix is a dot and a non-empty extension free of dots and slashes |
| Paths.ConvertedNameOfStored | video_to_mp4/states/app_state.py:392 | the output of a stored upload is `converted_<stem>_<tag>.mp4` |
| Paths.LowerIdempotent | video_to_mp4/states/app_state.py:330 | lower-casing twice is lower-casing once |
| Sizes.UnitIndexFrom | video_to_mp4/states/app_state.py:194-199 | the chosen unit lies between the starting one and PB, and its amount is below 1024 unless it is PB |
| Sizes.SizeLabelExact | video_to_mp4/states/app_state.py:194-199 | amount × 1024^unit equals the byte count, and the unit is the one picked |
| Sizes.SizeLabelInRange | video_to_mp4/states/app_state.py:194-199 | the amount is below 1024 unless the unit is PB, and at least 1 unless it is B |
| Sizes.UnitIndexFromSkips | video_to_mp4/states/app_state.py:194-199 | every unit skipped had an amount of at least 1024 |
| Sizes.FormatSize | video_to_mp4/states/app_state.py:194-199 | the dividing loop picks the label `SizeLabelOf` specifies |
| Jobs.Ids | video_to_mp4/states/app_state.py:355 | the ids dispatched are the created jobs' ids, in order |
| Jobs.FirstIndex | video_to_mp4/states/app_state.py:371-375 | the index found holds the id and no earlier job does; None means no job does |
| Jobs.IndexOf | video_to_mp4/states/app_state.py:371-375 | the `enumerate` search loop returns `FirstIndex` |
| Jobs.FirstIndexSameIds | video_to_mp4/states/app_state.py:46-51 | rewriting fields other than ids does not move the first match |
| Jobs.RemoveByIdAppend | video_to_mp4/states/app_state.py:181 | removal works piecewise, so the kept jobs keep their relative order |
| Jobs.RemoveByIdCounts | video_to_mp4/states/app_state.py:181 | every job with the id is dropped and every other job is kept as often as it occurred |
| Jobs.RemoveByIdLeavesNone | video_to_mp4/states/app_state.py:181 | no job with the id survives, duplicates included |
| Jobs.RemoveByIdAbsent | video_to_mp4/states/app_state.py:181 | removing an absent id changes nothing |
| Jobs.RemoveByIdIdempotent | video_to_mp4/states/app_state.py:170-181 | removing twice is removing once |
| Jobs.RemoveByIdIgnoresUpdate | video_to_mp4/states/app_state.py:181 | rewriting a job that keeps the id does not change what removal leaves |
| Jobs.RemoveByIdConsistent | video_to_mp4/states/app_state.py:181 | removal keeps every job consistent |
| Jobs.FilesToDelete | video_to_mp4/states/app_state.py:171-179 | nothing is unlinked for an absent id; only non-empty names are unlinked |
| Jobs.FilesToDeleteOfFirst | video_to_mp4/states/app_state.py:171-179 | for the first job with the id, exactly its non-empty upload name and then its non-empty converted name are unlinked |
| Jobs.RetryFirstIdempotent | video_to_mp4/states/app_state.py:184-192 | retrying twice is retrying once |
| Jobs.RemoveAfterRetry | video_to_mp4/states/app_state.py:170-192 | removing a retried job leaves what removing it directly leaves |
| Jobs.RetryFirstConsistent | video_to_mp4/states/app_state.py:184-192 | a retry keeps every job consistent, whatever the job's status was |
| Jobs.LateProgressBreaksComplete | video_to_mp4/states/app_state.py:46-51 | a progress update arriving after completion leaves a Complete job below 100 (no status guard) |
| Jobs.StaleIndexAfterInsert | video_to_mp4/states/app_state.py:353 | after an insert at index 0, a completion written through the cached index lands on the wrong job |
| Jobs.InsertedAtFrontStep | video_to_mp4/states/app_state.py:353 | one more `insert(0, job)` puts the job in front of the list built so far |
| Jobs.InsertedAtFrontShape | video_to_mp4/states/app_state.py:353 | the newest insertion comes first and the existing jobs follow, unchanged and in order |
| Jobs.InsertedAtFrontConsistent | video_to_mp4/states/app_state.py:353 | inserting consistent jobs keeps the list consistent |
| Encoding.ScaleHeightWith4K | video_to_mp4/states/app_state.py:399-406 | exactly "4K", "1080p", "720p" and "480p" scale, to 2160 and to the number the tier names |
| Encoding.ScaleHeight | reflex_video_converter/states/app_state.py:193-198 | exactly "1080p", "720p" and "480p" scale, to the number the tier names |
| Encoding.ScaleTablesDifferOnlyIn4K | reflex_video_converter/states/app_state.py:193-198 | the two copies' tables agree on every tier except "4K" |
| Encoding.RateControlFor | video_to_mp4/states/app_state.py:407-417 | every quality gets a valid x264 preset and CRF; unknown qualities get (23, medium) |
| Encoding.QualityTiersOrdered | video_to_mp4/states/app_state.py:407-417 | Standard (28, fast) < default (23, medium) < High (18, slow) < Maximum (15, veryslow): CRF falls and the preset slows |
| Encoding.PlanFor | video_to_mp4/states/app_state.py:422-435 | libx264 with aac; progress is piped exactly when the duration is known and positive |
| Encoding.ExitStatusReadOnlyWithoutProgress | video_to_mp4/states/app_state.py:484-506 | a started encoder that exits non-zero raises only when progress is not piped |
| Progress.StripStart | video_to_mp4/states/app_state.py:494 | the result is a suffix of the line that does not start with whitespace, and everything removed before it is whitespace |
| Progress.StripEnd | video_to_mp4/states/app_state.py:494 | the result is a prefix of the line that does not end with whitespace, and everything removed after it is whitespace |
| Progress.StripStartSpaces | video_to_mp4/states/app_state.py:494 | leading whitespace before a text that starts with a non-space is removed exactly |
| Progress.StripEndSpaces | video_to_mp4/states/app_state.py:494 | trailing whitespace (such as the line's newline) after a text that ends with a non-space is removed exactly |
| Progress.StripSurrounded | video_to_mp4/states/app_state.py:494 | whitespace on both sides of a text with non-space ends is removed exactly |
| Progress.StripKeeps | video_to_mp4/states/app_state.py:494 | a line without surrounding whitespace is left as it is |
| Progress.OutTimeRoundTrip | video_to_mp4/states/app_state.py:489-495 | an `out_time_ms=<n>` line with any whitespace before it and after it (the newline `readline` keeps) reads back as n |
| Progress.OutTimeLineReads | video_to_mp4/states/app_state.py:454 | an `out_time_ms=<n>` line with nothing around it reads back as n |
| Progress.HalfwayIsFifty | video_to_mp4/states/app_state.py:498-500 | `out_time_ms=15000000` on a 30 s input is 50 percent |
| Progress.Percent | video_to_mp4/states/app_state.py:498-500 | the percentage is clamped to [0, 99.99] and is exact below the cap |
| Progress.ReportsRising | video_to_mp4/states/app_state.py:487-503 | every report lies in [0.01, 99.99] and exceeds the previous one by at least 0.01 |
| Progress.RisingBoundsCount | video_to_mp4/states/app_state.py:487-503 | the k-th report is at least 0.01·(k+1), so a run reports at most 9999 times |
| Progress.StreamProgress | video_to_mp4/states/app_state.py:487-503 | the reading loop with `last_percent` emits exactly `Reports`, which are rising |
| Progress.FractionBelowOne | video_to_mp4/states/app_state.py:453 | the optional fraction of the seconds field lies in [0, 1) |
| Progress.SecondsBounds | video_to_mp4/states/app_state.py:453 | the seconds field reads as its whole part plus less than one |
| Progress.ClockRoundTrip | video_to_mp4/states/app_state.py:457-462 | `time=H:M:S` reads back as H·3600 + M·60 + S |
| Progress.MatchAtStart | video_to_mp4/states/app_state.py:458 | `search` reports a match at the very start of the line |
| Worker.ClaimSection | video_to_mp4/states/app_state.py:370-389 | the job claimed is the first with the id; without ffmpeg it fails with the server error and is not claimed |
| Worker.ApplyReports | video_to_mp4/states/app_state.py:423-426 | progress callbacks never change any job's id |
| Worker.Streamed | video_to_mp4/states/app_state.py:422-435 | the streamed reports never change any job's id |
| Worker.RunJob | video_to_mp4/states/app_state.py:368-450 | a run never changes the list's length |
| Worker.ApplyReportsAt | video_to_mp4/states/app_state.py:46-51 | while the job stays where it was found, its progress ends at the last report |
| Worker.RunJobAbsent | video_to_mp4/states/app_state.py:376-377 | an absent id writes nothing and never starts the encoder |
| Worker.RunJobWithoutFfmpeg | video_to_mp4/states/app_state.py:378-383 | without ffmpeg only status and message change; Processing is never set |
| Worker.RunJobFrame | video_to_mp4/states/app_state.py:368-450 | only the claimed job is written; ids and all other jobs are unchanged |
| Worker.SettleWrites | video_to_mp4/states/app_state.py:436-450 | the last section writes only the claimed job: Error with the message, or Complete at 100 with the output's name and size label |
| Worker.RunJobCompletes | video_to_mp4/states/app_state.py:436-445 | a run completes exactly when the job is found, ffmpeg exists, the input exists, the encoder raises nothing and the output exists; the job is then Complete at 100 and names `converted_<stem>.mp4` and its size |
| Worker.RunJobFails | video_to_mp4/states/app_state.py:446-450 | a failed run leaves Error with the exception text, keeps the output fields, and leaves progress at 5, 10 or the last report |
| Worker.StreamingIgnoresExitStatus | video_to_mp4/states/app_state.py:484-504 | in progress mode a non-zero exit still completes the job |
| Worker.RunJobConsistent | video_to_mp4/states/app_state.py:368-450 | a run keeps every job consistent |
| Uploads.JobId | video_to_mp4/states/app_state.py:339 | a job id is "job_" followed by digits |
| Uploads.JobIdInjective | video_to_mp4/states/app_state.py:339 | ids collide only when the drawn numbers do |
| VideoToMp4.AdmitSound | video_to_mp4/states/app_state.py:325-358 | a file becomes a job exactly when it is read, allowed and written; the job is fresh with the selection, id, stored name and size; a failed read is reported as "unknown" |
| VideoToMp4.AdmitFile | video_to_mp4/states/app_state.py:327-353 | one pass of the loop computes `Admit` |
| VideoToMp4.AdmitAllStep | video_to_mp4/states/app_state.py:325-358 | the batch over one more file adds that file's job or error |
| VideoToMp4.AdmitAllAccounts | video_to_mp4/states/app_state.py:325-358 | each file yields one job or one error, and every job is fresh and consistent |
| VideoToMp4.AdmitAllNoneAllowed | video_to_mp4/states/app_state.py:331-333 | a batch of disallowed files creates no job |
| VideoToMp4.UploadShape | video_to_mp4/states/app_state.py:340-353 | after an upload the new jobs stand at the front, last file first, fresh with the selection; the old jobs follow in order |
| VideoToMp4.Stage | video_to_mp4/states/app_state.py:89-111 | a file is staged exactly when it is read, allowed and written, under its stored name and size |
| VideoToMp4.StageFile | video_to_mp4/states/app_state.py:90-108 | one pass of `open_confirm`'s loop computes `Stage` |
| VideoToMp4.StageAllStep | video_to_mp4/states/app_state.py:88-111 | the staging over one more file adds that file's item or error |
| VideoToMp4.OriginalNames | video_to_mp4/states/app_state.py:101 | `pending_files` lists the staged items' own names, in order |
| VideoToMp4.ConfirmedJobsCount | video_to_mp4/states/app_state.py:141-163 | `confirm_upload` makes exactly one fresh job per staged item with a stored name, storing that name |
| VideoToMp4.StagedStamps | video_to_mp4/states/app_state.py:131-163 | there is one draw per staged item |
| VideoToMp4.StageThenConfirm | video_to_mp4/states/app_state.py:79-167 | staging then confirming creates the same jobs in the same order as `handle_upload` with the same draws, and turns away the same files |
| VideoToMp4.UploadBatch | video_to_mp4/states/app_state.py:325-358 | the loop leaves the jobs `InsertedAtFront` and the ids and errors `AdmitAll` specifies |
| VideoToMp4.StageBatch | video_to_mp4/states/app_state.py:88-111 | the loop leaves the items and errors `StageAll` specifies, with the names pending |
| VideoToMp4.AppState.constructor | video_to_mp4/states/app_state.py:33-44 | nothing uploading, no popover or dialog, nothing staged, no jobs, "Original" / "High" |
| VideoToMp4.AppState.SetResolution | video_to_mp4/states/app_state.py:53-55 | only the resolution changes |
| VideoToMp4.AppState.SetQuality | video_to_mp4/states/app_state.py:57-59 | only the quality changes |
| VideoToMp4.AppState.ToggleResolutionHelp | video_to_mp4/states/app_state.py:61-66 | the popover flips, opening it closes the other, and the two are never both open |
| VideoToMp4.AppState.ToggleQualityHelp | video_to_mp4/states/app_state.py:67-72 | the popover flips, opening it closes the other, and the two are never both open |
| VideoToMp4.AppState.CloseHelp | video_to_mp4/states/app_state.py:73-76 | both popovers close |
| VideoToMp4.AppState.OpenConfirm | video_to_mp4/states/app_state.py:78-116 | no files change nothing; otherwise the staging is replaced by `StageAll`, and the dialog opens if anything was staged |
| VideoToMp4.AppState.CloseConfirm | video_to_mp4/states/app_state.py:118-128 | the dialog closes, the staged stored files are unlinked, and the staging empties |
| VideoToMp4.AppState.ConfirmUpload | video_to_mp4/states/app_state.py:130-167 | the dialog always closes and the staging always empties; `ConfirmedJobs` go to the front and their ids are dispatched |
| VideoToMp4.ConfirmBatch | video_to_mp4/states/app_state.py:141-163 | the loop puts the `ConfirmedJobs` at the front, newest first, and dispatches their ids |
| VideoToMp4.AppState.HandleUpload | video_to_mp4/states/app_state.py:308-365 | the accepted files' jobs go to the front and their ids are dispatched; errors are collected; `is_uploading` ends false |
| VideoToMp4.AppState.RemoveJob | video_to_mp4/states/app_state.py:169-181 | the list becomes `RemoveById`, the first job's files are unlinked, and nothing else changes |
| VideoToMp4.AppState.RetryJob | video_to_mp4/states/app_state.py:183-192 | the list becomes `RetryFirst`; the job is dispatched exactly when the id is present |
| VideoToMp4.AppState.UpdateJobProgress | video_to_mp4/states/app_state.py:46-51 | the list becomes `SetProgressFirst` |
| VideoToMp4.AppState.ClaimJob | video_to_mp4/states/app_state.py:370-389 | the first critical section computes `ClaimSection` |
| VideoToMp4.AppState.MarkStarted | video_to_mp4/states/app_state.py:418-419 | progress 10 through the cached index, or nothing when the index is stale |
| VideoToMp4.AppState.CompleteJob | video_to_mp4/states/app_state.py:439-445 | Complete, 100, output name and size through the cached index, or nothing when the index is stale |
| VideoToMp4.AppState.FailJob | video_to_mp4/states/app_state.py:448-450 | Error with the message through the cached index, or nothing when the index is stale |
| VideoToMp4.AppState.SettleJob | video_to_mp4/states/app_state.py:436-450 | the job fails or completes as `Worker.Settle` specifies; nothing but the list changes |
| VideoToMp4.AppState.StreamReports | video_to_mp4/states/app_state.py:423-426 | each report goes through `_update_job_progress` in order |
| VideoToMp4.AppState.ProcessJob | video_to_mp4/states/app_state.py:368-450 | run with nothing in between, the sections leave the list `Worker.RunJob` specifies, with the 4K table |
| ReflexConverter.Gb | reflex_video_converter/states/app_state.py:126 | a size in GB is never negative, and is zero only for zero bytes |
| ReflexConverter.Admit | reflex_video_converter/states/app_state.py:114-152 | an accepted file was read and fits in the space left |
| ReflexConverter.AdmitSound | reflex_video_converter/states/app_state.py:114-152 | a file becomes a job exactly when it is read, allowed, fits and is written; "Not enough capacity" exactly when it is allowed and does not fit; a failed read is reported under the file's name |
| ReflexConverter.AdmitFile | reflex_video_converter/states/app_state.py:115-149 | one pass of the loop computes `Admit` |
| ReflexConverter.AdmitAllStep | reflex_video_converter/states/app_state.py:114-152 | the batch over one more file adds its job and its size, or its error |
| ReflexConverter.AdmitAllAccounts | reflex_video_converter/states/app_state.py:114-152 | one job or one error per file; space in use only grows and never passes the maximum through uploads; jobs are fresh and consistent |
| ReflexConverter.UploadOne | reflex_video_converter/states/app_state.py:120-132 | a single file is charged exactly its size when it becomes a job, and nothing when turned away |
| ReflexConverter.AdmitAllWhenFull | reflex_video_converter/states/app_state.py:126-129 | on a full store no non-empty file is accepted and nothing is charged |
| ReflexConverter.UploadBatch | reflex_video_converter/states/app_state.py:114-152 | the loop leaves the jobs, ids, errors and space in use `AdmitAll` specifies |
| ReflexConverter.ColorForMonotone | reflex_video_converter/states/app_state.py:89-96 | higher usage never shows a calmer colour |
| ReflexConverter.Charged | reflex_video_converter/states/app_state.py:238 | a run never frees space |
| ReflexConverter.ConversionOverfills | reflex_video_converter/states/app_state.py:228-238 | a conversion that completes on a full store takes the space in use past the maximum |
| ReflexConverter.AppState.RemainingCapacityGb | reflex_video_converter/states/app_state.py:81-83 | negative exactly when over the maximum, zero exactly when at it |
| ReflexConverter.AppState.UsagePercentage | reflex_video_converter/states/app_state.py:85-87 | above 100 exactly when over the maximum; the percentage and the remaining GB add up to 100 |
| ReflexConverter.AppState.UsageColor | reflex_video_converter/states/app_state.py:89-96 | red above 90 GB used, amber above 75 GB up to 90, indigo otherwise |
| ReflexConverter.AppState.constructor | reflex_video_converter/states/app_state.py:31-39 | no space used, nothing uploading, no jobs, "Original" / "High" |
| ReflexConverter.AppState.SetResolution | reflex_video_converter/states/app_state.py:48-50 | only the resolution changes |
| ReflexConverter.AppState.SetQuality | reflex_video_converter/states/app_state.py:52-54 | only the quality changes |
| ReflexConverter.AppState.HandleUpload | reflex_video_converter/states/app_state.py:105-159 | jobs, ids, errors and space in use as `AdmitAll` specifies; a store within its maximum stays within it |
| ReflexConverter.AppState.RemoveJob | reflex_video_converter/states/app_state.py:56-68 | the list becomes `RemoveById`; the space in use is not given back |
| ReflexConverter.AppState.RetryJob | reflex_video_converter/states/app_state.py:70-79 | the list becomes `RetryFirst`; nothing else changes |
| ReflexConverter.AppState.UpdateJobProgress | reflex_video_converter/states/app_state.py:41-46 | the list becomes `SetProgressFirst` |
| ReflexConverter.AppState.ClaimJob | reflex_video_converter/states/app_state.py:163-183 | the first critical section computes `ClaimSection` |
| ReflexConverter.AppState.MarkStarted | reflex_video_converter/states/app_state.py:210-211 | progress 10 through the cached index, or nothing when the index is stale |
| ReflexConverter.AppState.CompleteJob | reflex_video_converter/states/app_state.py:231-238 | Complete, 100, output name and size, plus the output's GB charged, or nothing when the index is stale |
| ReflexConverter.AppState.FailJob | reflex_video_converter/states/app_state.py:241-243 | Error with the message, with the space in use unchanged |
| ReflexConverter.AppState.SettleJob | reflex_video_converter/states/app_state.py:228-243 | the job fails or completes as `Worker.Settle` specifies, and only a completion charges its output's GB |
| ReflexConverter.AppState.StreamReports | reflex_video_converter/states/app_state.py:214-218 | each report goes through `_update_job_progress` in order |
| ReflexConverter.AppState.ProcessJob | reflex_video_converter/states/app_state.py:161-243 | the list `Worker.RunJob` specifies without 4K; a completed run charges its output's GB, and no other run charges anything |

## Left out

- The UI component files and page modules: they only lay out state.
- `_read_upload_file` (video_to_mp4/states/app_state.py:201-306), which sniffs the payload. Each file arrives already read: its name plus either a byte count or the read's exception text.
- The filesystem:
  - directory creation and listing;
  - writes, which become an optional exception text per file;
  - existence checks, which become booleans;
  - unlinks, which are returned as lists of names.
- ffmpeg, `ffmpeg.probe`, `shutil.which` and the subprocess pipes. They become an `Environment`:
  - ffmpeg available or not;
  - input exists or not;
  - the probed duration;
  - a launch exception;
  - the exit status;
  - the lines written on the progress pipe;
  - whether the output exists, and its size.
- `get_media_duration`: its result is the `Environment`'s duration.
- Concurrency: the background task, `asyncio.to_thread` and `run_coroutine_threadsafe`.
  - Each `async with self:` block is one atomic method.
  - `ProcessJob` runs the blocks back to back, so no event comes in between.
  - What an event in between does is shown by `Jobs.StaleIndexAfterInsert` and `Jobs.LateProgressBreaksComplete`.
- The upload loops build the new list and space figure locally, then store them. The source writes `recent_jobs` and `used_capacity_gb` file by file; nothing else runs during the handler, so the result is the same.
- `random.randint` and `datetime.now()`: the draws and the `%H:%M` time arrive as fields of each file (`Arrival`) or as `Stamp`s.
- Toasts and logging, and the text of the error messages. Errors are kept as data (`UploadError`), not as the formatted strings; "Failed to stage" and "Failed to upload" are both `Failed`.
- Sizes.FormatSize: `%.1f` formatting is not modelled. A size is a `SizeLabel(amount, unit)` holding the exact amount.
- VideoToMp4.AppState.UpdateJobProgress: `round(progress, 2)` is not applied; the progress is stored unrounded.
- ReflexConverter.AppState.UpdateJobProgress: `round(progress, 2)` (reflex_video_converter/states/app_state.py:45) is not applied either; the progress is stored unrounded.
- Floating point: every amount, percentage and GB value is an exact `real`.
- Text handling is ASCII only:
  - `str.lower()`;
  - `str.strip()` whitespace (ASCII and Latin-1 spaces);
  - `\d` digits.
- Decoding the pipe's bytes as UTF-8 is not modelled; the lines arrive as strings.
- `converted_filename` is `""` in one copy and `None` in the other; both are modelled as `""`, because the code only tests it for truth.
- Path handling: only `Path.name`, `.stem` and `.suffix` of a plain file name. The upload directory prefix is dropped.
