/** The job entity and its database row. */
module Jobs {
  import opened Wrappers
  import opened Timestamps

  type JobId = string
  type Token = string

  datatype Directory = Results | Trash

  /** A transcript path: one of the two directories the service uses, and a file name. */
  datatype Path = Path(directory: Directory, name: string)

  datatype JobStatus = Queued | Claimed | Processing | Done | Failed {
    predicate IsTerminal() { Done? || Failed? }
    predicate IsActive() { Claimed? || Processing? }

    function Value(): string {
      match this
      case Queued => "queued"
      case Claimed => "claimed"
      case Processing => "processing"
      case Done => "done"
      case Failed => "failed"
    }

    static function Parse(s: string): Option<JobStatus> {
      if s == "queued" then Some(Queued)
      else if s == "claimed" then Some(Claimed)
      else if s == "processing" then Some(Processing)
      else if s == "done" then Some(Done)
      else if s == "failed" then Some(Failed)
      else None
    }
  }

  datatype JobError = JobError(code: string, message: string, retryable: bool)

  datatype Job = Job(
    jobId: JobId, videoUrl: string, status: JobStatus, attempt: nat, createdAt: Instant,
    startedAt: Option<Instant>, finishedAt: Option<Instant>,
    leaseToken: Option<Token>, leaseExpiresAt: Option<Instant>, nextRetryAt: Option<Instant>,
    transcriptPath: Option<Path>, error: Option<JobError>, ackedAt: Option<Instant>)

  /** One row of the `jobs` table: times are text, NULL is None. */
  datatype Row = Row(
    jobId: string, videoUrl: string, status: string, attempt: nat,
    leaseToken: Option<string>, leaseExpiresAt: Option<string>, nextRetryAt: Option<string>,
    createdAt: string, startedAt: Option<string>, finishedAt: Option<string>,
    transcriptPath: Option<Path>,
    errorCode: Option<string>, errorMessage: Option<string>, errorRetryable: Option<int>,
    ackedAt: Option<string>)

  function NewJob(jobId: JobId, videoUrl: string, createdAt: Instant): Job {
    Job(jobId, videoUrl, Queued, 0, createdAt, None, None, None, None, None, None, None, None)
  }

  function TextOf(t: Option<Instant>): Option<string> {
    if t.None? then None else Some(Text(t.value))
  }

  function ToRow(job: Job): Row {
    Row(job.jobId, job.videoUrl, job.status.Value(), job.attempt,
        job.leaseToken, TextOf(job.leaseExpiresAt), TextOf(job.nextRetryAt),
        Text(job.createdAt), TextOf(job.startedAt), TextOf(job.finishedAt),
        job.transcriptPath,
        if job.error.None? then None else Some(job.error.value.code),
        if job.error.None? then None else Some(job.error.value.message),
        if job.error.None? then None else Some(if job.error.value.retryable then 1 else 0),
        TextOf(job.ackedAt))
  }

  /** A nullable time column: NULL and the empty text are both Some(None); None is the ValueError. */
  function TimeColumn(s: Option<string>): Option<Option<Instant>> {
    if s.None? || s.value == "" then Some(None)
    else
      var t := Parse(s.value);
      if t.None? then None else Some(t)
  }

  function ErrorColumns(code: Option<string>, message: Option<string>, retryable: Option<int>)
    : Option<Option<JobError>>
  {
    if code.None? then Some(None)
    else if message.None? then None
    else Some(Some(JobError(code.value, message.value, retryable.Some? && retryable.value != 0)))
  }

  /** None when a column does not parse (the source raises ValueError). */
  function FromRow(row: Row): Option<Job> {
    var status, created := JobStatus.Parse(row.status), Parse(row.createdAt);
    var error := ErrorColumns(row.errorCode, row.errorMessage, row.errorRetryable);
    var started, finished := TimeColumn(row.startedAt), TimeColumn(row.finishedAt);
    var expires, retry, acked := TimeColumn(row.leaseExpiresAt), TimeColumn(row.nextRetryAt), TimeColumn(row.ackedAt);
    if status.None? || created.None? || error.None? || started.None? || finished.None?
       || expires.None? || retry.None? || acked.None? then None
    else Some(Job(row.jobId, row.videoUrl, status.value, row.attempt, created.value,
                  started.value, finished.value, row.leaseToken, expires.value, retry.value,
                  row.transcriptPath, error.value, acked.value))
  }

  lemma TimeColumnOfText(t: Option<Instant>)
    ensures TimeColumn(TextOf(t)) == Some(t)
  {
    if t.Some? {
      TextOrder(t.value, t.value);
    }
  }

  /** The columns of a row, one by one. */
  lemma RowColumns(job: Job)
    ensures var row := ToRow(job);
      && row.jobId == job.jobId && row.videoUrl == job.videoUrl && row.attempt == job.attempt
      && row.status == (match job.status case Queued => "queued" case Claimed => "claimed"
                                         case Processing => "processing" case Done => "done" case Failed => "failed")
      && row.leaseToken == job.leaseToken && row.transcriptPath == job.transcriptPath
      && row.createdAt == Text(job.createdAt)
      && (job.leaseExpiresAt.Some? ==> row.leaseExpiresAt == Some(Text(job.leaseExpiresAt.value)))
      && (job.nextRetryAt.Some? ==> row.nextRetryAt == Some(Text(job.nextRetryAt.value)))
      && (job.startedAt.Some? ==> row.startedAt == Some(Text(job.startedAt.value)))
      && (job.finishedAt.Some? ==> row.finishedAt == Some(Text(job.finishedAt.value)))
      && (job.ackedAt.Some? ==> row.ackedAt == Some(Text(job.ackedAt.value)))
      && (row.leaseExpiresAt.None? <==> job.leaseExpiresAt.None?) && (row.nextRetryAt.None? <==> job.nextRetryAt.None?)
      && (row.startedAt.None? <==> job.startedAt.None?) && (row.finishedAt.None? <==> job.finishedAt.None?)
      && (row.ackedAt.None? <==> job.ackedAt.None?)
      && (job.error.Some? ==>
            && row.errorCode == Some(job.error.value.code) && row.errorMessage == Some(job.error.value.message)
            && row.errorRetryable == Some(if job.error.value.retryable then 1 else 0))
      && (job.error.None? ==> row.errorCode.None? && row.errorMessage.None? && row.errorRetryable.None?)
  {
    hide Text;
  }

  /** `Job.from_row(job.to_row()) == job`, whatever the job holds. */
  lemma RoundTrip(job: Job)
    ensures FromRow(ToRow(job)) == Some(job)
  {
    hide Text, Parse;
    TimeColumnOfText(job.startedAt);
    TimeColumnOfText(job.finishedAt);
    TimeColumnOfText(job.leaseExpiresAt);
    TimeColumnOfText(job.nextRetryAt);
    TimeColumnOfText(job.ackedAt);
    TextOrder(job.createdAt, job.createdAt);
  }
}
