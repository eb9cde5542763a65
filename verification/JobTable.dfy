/** What each SQL statement of the job store means, on jobs whose times are instants.

    Every statement is one guarded UPDATE; it returns the new table and whether a row changed. */
module JobTable {
  import opened Wrappers
  import opened Timestamps
  import opened Jobs

  type Table = map<JobId, Job>

  datatype Update = Update(table: Table, hit: bool)

  ghost predicate WellKeyed(t: Table) {
    forall j | j in t :: t[j].jobId == j
  }

  // ---------- claim ----------

  predicate Eligible(job: Job, now: Instant) {
    job.status.Queued? && (job.nextRetryAt.None? || job.nextRetryAt.value <= now)
  }

  /** ORDER BY: never-deferred jobs first, then COALESCE(next_retry_at, created_at), then created_at. */
  predicate Precedes(a: Job, b: Job) {
    var da, db := if a.nextRetryAt.None? then 0 else 1, if b.nextRetryAt.None? then 0 else 1;
    var ka := if a.nextRetryAt.Some? then a.nextRetryAt.value else a.createdAt;
    var kb := if b.nextRetryAt.Some? then b.nextRetryAt.value else b.createdAt;
    da < db || (da == db && (ka < kb || (ka == kb && a.createdAt < b.createdAt)))
  }

  /** The rows LIMIT 1 may return; ties are the database's choice. */
  ghost predicate IsPick(t: Table, now: Instant, j: JobId) {
    && j in t
    && Eligible(t[j], now)
    && forall k | k in t && Eligible(t[k], now) :: !Precedes(t[k], t[j])
  }

  function Claim(t: Table, j: JobId, token: Token, expires: Instant): Table
    requires j in t
  {
    t[j := t[j].(status := Claimed, leaseToken := Some(token), leaseExpiresAt := Some(expires),
                 attempt := t[j].attempt + 1)]
  }

  // ---------- transitions guarded by the lease ----------

  predicate Carries(t: Table, j: JobId, token: Token) {
    j in t && t[j].leaseToken == Some(token)
  }

  function MarkProcessing(t: Table, j: JobId, token: Token, now: Instant): Update {
    if Carries(t, j, token) && t[j].status.Claimed?
    then Update(t[j := t[j].(status := Processing, startedAt := Some(now))], true)
    else Update(t, false)
  }

  function MarkDone(t: Table, j: JobId, token: Token, path: Path, now: Instant): Update {
    if Carries(t, j, token) && t[j].status.Processing?
    then Update(t[j := t[j].(status := Done, finishedAt := Some(now), transcriptPath := Some(path),
                             leaseToken := None, leaseExpiresAt := None)], true)
    else Update(t, false)
  }

  function MarkFailed(t: Table, j: JobId, token: Token, error: JobError, now: Instant): Update {
    if Carries(t, j, token) && t[j].status.IsActive()
    then Update(t[j := t[j].(status := Failed, finishedAt := Some(now), error := Some(error),
                             leaseToken := None, leaseExpiresAt := None)], true)
    else Update(t, false)
  }

  function DeferRetry(t: Table, j: JobId, token: Token, nextRetryAt: Instant): Update {
    if Carries(t, j, token) && t[j].status.IsActive()
    then Update(t[j := t[j].(status := Queued, leaseToken := None, leaseExpiresAt := None,
                             nextRetryAt := Some(nextRetryAt))], true)
    else Update(t, false)
  }

  // ---------- reclaim ----------

  predicate Expired(job: Job, now: Instant) {
    job.status.IsActive() && job.leaseExpiresAt.Some? && job.leaseExpiresAt.value < now
  }

  function Released(job: Job): Job {
    job.(status := Queued, leaseToken := None, leaseExpiresAt := None)
  }

  function ReclaimExpired(t: Table, now: Instant): Table {
    map j | j in t :: if Expired(t[j], now) then Released(t[j]) else t[j]
  }

  function ExpiredJobs(t: Table, now: Instant): set<JobId> {
    set j | j in t && Expired(t[j], now)
  }

  // ---------- ack ----------

  function MarkAcked(t: Table, j: JobId, now: Instant): Update {
    if j in t && t[j].status.Done? && t[j].ackedAt.None?
    then Update(t[j := t[j].(ackedAt := Some(now))], true)
    else Update(t, false)
  }

  function UpdateTranscriptPath(t: Table, j: JobId, path: Path): Update {
    if j in t then Update(t[j := t[j].(transcriptPath := Some(path))], true) else Update(t, false)
  }
}
