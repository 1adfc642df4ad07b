/**
 * What both `handle_upload` handlers (and `open_confirm`) see of one
 * uploaded file, and the ways a file can be turned away. Reading the
 * payload, the random draws, the clock and the file write happen outside
 * the model; their results arrive with the file.
 */
module Uploads {
  import opened Optional
  import Text
  import Jobs

  /** The payload read: its byte count, or the text of the exception reading it raised. */
  datatype ReadResult = Bytes(size: nat) | ReadFailed(reason: string)

  /**
   * One uploaded file: its name, the read, the `random.randint(1000, 9999)`
   * tag for its stored name, the `random.randint(10000, 99999)` number for its
   * job id, the `%H:%M` time of the upload, and the exception (if any) that
   * writing it into the upload directory raises.
   */
  datatype Arrival = Arrival(
    name: string,
    read: ReadResult,
    tag: nat,
    jobNumber: nat,
    uploadedAt: string,
    writeError: Option<string>)

  /** The job number and `%H:%M` time drawn for one job `confirm_upload` creates. */
  datatype Stamp = Stamp(jobNumber: nat, uploadedAt: string)

  /** The per-file errors the handlers collect and later show. */
  datatype UploadError =
    | InvalidType(filename: string, extension: string)
    | NotEnoughCapacity(filename: string)
    | Failed(filename: string, reason: string)

  /** What one pass of an upload loop makes of a file: a job, or an error. */
  datatype Admission = Accepted(job: Jobs.Job) | Rejected(error: UploadError)

  /** `f"job_{n}"`. */
  function JobId(n: nat): (id: string)
    ensures |id| > 4 && id[..4] == "job_" && Text.AllDigits(id[4..])
  {
    var id := "job_" + Text.Decimal(n);
    assert id[4..] == Text.Decimal(n);
    id
  }

  /** Different draws give different ids, so ids collide only when the draws do. */
  lemma JobIdInjective(m: nat, n: nat)
    requires JobId(m) == JobId(n)
    ensures m == n
  {
    assert JobId(m)[4..] == Text.Decimal(m);
    assert JobId(n)[4..] == Text.Decimal(n);
    Text.DecimalInjective(m, n);
  }
}
