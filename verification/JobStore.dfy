/** The job store: a table of text rows changed only by guarded UPDATEs.

    The rows hold what SQLite holds, and every guard compares text. The ghost field `jobs` is the
    same table with times as instants; each method is proved to act on it as the statement's
    meaning in JobTable, so the textual comparisons decide as the real timestamps would. */
module JobStore {
  import opened Wrappers
  import opened Timestamps
  import opened Jobs
  import opened JobTable

  // ---------- the WHERE and ORDER BY clauses, on text ----------

  predicate TextEligible(row: Row, now: string) {
    row.status == "queued" && (row.nextRetryAt.None? || TextAtMost(row.nextRetryAt.value, now))
  }

  predicate TextPrecedes(a: Row, b: Row) {
    var da, db := if a.nextRetryAt.None? then 0 else 1, if b.nextRetryAt.None? then 0 else 1;
    var ka := if a.nextRetryAt.Some? then a.nextRetryAt.value else a.createdAt;
    var kb := if b.nextRetryAt.Some? then b.nextRetryAt.value else b.createdAt;
    da < db || (da == db && (TextLess(ka, kb) || (ka == kb && TextLess(a.createdAt, b.createdAt))))
  }

  predicate TextExpired(row: Row, now: string) {
    && (row.status == "claimed" || row.status == "processing")
    && row.leaseExpiresAt.Some?
    && TextLess(row.leaseExpiresAt.value, now)
  }

  function TextReleased(row: Row): Row {
    row.(status := "queued", leaseToken := None, leaseExpiresAt := None)
  }

  lemma StatusText(job: Job)
    ensures forall s: JobStatus :: ToRow(job).status == s.Value() <==> job.status == s
    ensures Queued.Value() == "queued" && Claimed.Value() == "claimed" && Processing.Value() == "processing"
    ensures Done.Value() == "done" && JobStatus.Failed.Value() == "failed"
  {
    hide Text;
    assert ToRow(job).status == job.status.Value();
    StatusValues();
    forall s: JobStatus ensures job.status.Value() == s.Value() <==> job.status == s {
      assert JobStatus.Parse(job.status.Value()) == Some(job.status);
    }
  }

  /** Each value names one status. */
  lemma StatusValues()
    ensures forall s: JobStatus :: JobStatus.Parse(s.Value()) == Some(s)
  {
  }

  lemma TextEligibleIsEligible(job: Job, now: Instant)
    ensures TextEligible(ToRow(job), Text(now)) <==> Eligible(job, now)
  {
    hide Text, JobStatus.Value;
    StatusText(job);
    if job.nextRetryAt.Some? {
      TextOrder(job.nextRetryAt.value, now);
    }
  }

  lemma TextPrecedesIsPrecedes(a: Job, b: Job)
    ensures TextPrecedes(ToRow(a), ToRow(b)) <==> Precedes(a, b)
  {
    hide Text;
    var ka := if a.nextRetryAt.Some? then a.nextRetryAt.value else a.createdAt;
    var kb := if b.nextRetryAt.Some? then b.nextRetryAt.value else b.createdAt;
    TextOrder(ka, kb);
    TextOrder(a.createdAt, b.createdAt);
  }

  lemma TextExpiredIsExpired(job: Job, now: Instant)
    ensures TextExpired(ToRow(job), Text(now)) <==> Expired(job, now)
  {
    hide Text, JobStatus.Value;
    StatusText(job);
    if job.leaseExpiresAt.Some? {
      TextOrder(job.leaseExpiresAt.value, now);
    }
  }

  /** ORDER BY ... LIMIT 1 over a non-empty result always has a first row. */
  lemma FirstExists(t: Table, among: set<JobId>) returns (j: JobId)
    requires among != {} && among <= t.Keys
    ensures j in among && forall k | k in among :: !Precedes(t[k], t[j])
    decreases |among|
  {
    var i :| i in among;
    if among == {i} {
      j := i;
    } else {
      var rest := among - {i};
      assert among == rest + {i};
      var f := FirstExists(t, rest);
      j := if Precedes(t[i], t[f]) then i else f;
    }
  }

  /** The text rows say what the jobs say. */
  ghost predicate Encodes(rows: map<string, Row>, jobs: Table) {
    && rows.Keys == jobs.Keys
    && WellKeyed(jobs)
    && forall j | j in jobs :: rows[j] == ToRow(jobs[j])
  }

  lemma TextSelectsTheSame(rows: map<string, Row>, jobs: Table, now: Instant)
    requires Encodes(rows, jobs)
    ensures forall j | j in jobs :: TextEligible(rows[j], Text(now)) <==> Eligible(jobs[j], now)
    ensures forall j, k | j in jobs && k in jobs :: TextPrecedes(rows[j], rows[k]) <==> Precedes(jobs[j], jobs[k])
  {
    hide Text, TextEligible, TextPrecedes, Eligible, Precedes, ToRow;
    forall j | j in jobs ensures TextEligible(rows[j], Text(now)) <==> Eligible(jobs[j], now) {
      TextEligibleIsEligible(jobs[j], now);
    }
    forall j, k | j in jobs && k in jobs ensures TextPrecedes(rows[j], rows[k]) <==> Precedes(jobs[j], jobs[k]) {
      TextPrecedesIsPrecedes(jobs[j], jobs[k]);
    }
  }

  lemma AttemptOfRow(job: Job)
    ensures ToRow(job).attempt == job.attempt
  {
  }

  lemma ClaimedRow(job: Job, token: Token, expires: Instant)
    ensures ToRow(job.(status := Claimed, leaseToken := Some(token), leaseExpiresAt := Some(expires),
                       attempt := job.attempt + 1))
         == ToRow(job).(status := "claimed", leaseToken := Some(token), leaseExpiresAt := Some(Text(expires)),
                        attempt := job.attempt + 1)
  {
    hide Text;
  }

  // ---------- the claim order, said of two rows ----------

  /** Queued, and never deferred or deferred until no later than now. */
  ghost predicate IsDue(job: Job, now: Instant) {
    job.status == Queued && (job.nextRetryAt.Some? ==> job.nextRetryAt.value <= now)
  }

  /** What a claimed row owes to every other row that was due: rows never deferred come first and oldest
      first, then deferred rows by their retry time, the older row first among equals. */
  ghost predicate NotAfter(c: Job, k: Job) {
    && (k.nextRetryAt.None? ==> c.nextRetryAt.None? && c.createdAt <= k.createdAt)
    && (c.nextRetryAt.Some? ==>
          && k.nextRetryAt.Some?
          && c.nextRetryAt.value <= k.nextRetryAt.value
          && (c.nextRetryAt == k.nextRetryAt ==> c.createdAt <= k.createdAt))
  }

  /** Claimed or processing, under a lease that ended before now. */
  ghost predicate LeaseIsOver(job: Job, now: Instant) {
    (job.status == Claimed || job.status == Processing) && job.leaseExpiresAt.Some? && job.leaseExpiresAt.value < now
  }

  lemma DueIsEligible(t: Table, now: Instant)
    ensures forall j | j in t :: IsDue(t[j], now) <==> Eligible(t[j], now)
  {
  }

  lemma PickIsFirst(t: Table, now: Instant, j: JobId)
    requires IsPick(t, now, j)
    ensures IsDue(t[j], now) && forall k | k in t && IsDue(t[k], now) :: NotAfter(t[j], t[k])
  {
    hide Precedes, NotAfter;
    DueIsEligible(t, now);
    forall k | k in t && IsDue(t[k], now) ensures NotAfter(t[j], t[k]) {
      NotPrecededIsFirst(t[j], t[k]);
    }
  }

  lemma NotPrecededIsFirst(c: Job, k: Job)
    requires !Precedes(k, c)
    ensures NotAfter(c, k)
  {
  }

  lemma ReleasedRow(job: Job)
    ensures TextReleased(ToRow(job)) == ToRow(Released(job))
  {
    hide Text;
    StatusText(job);
  }

  lemma ReleasedInFields(t: Table, now: Instant)
    ensures ExpiredJobs(t, now) == set j | j in t && LeaseIsOver(t[j], now)
    ensures JobTable.ReclaimExpired(t, now).Keys == t.Keys
    ensures forall j | j in t ::
      JobTable.ReclaimExpired(t, now)[j]
      == if LeaseIsOver(t[j], now) then t[j].(status := Queued, leaseToken := None, leaseExpiresAt := None) else t[j]
  {
    forall j | j in t ensures Expired(t[j], now) <==> LeaseIsOver(t[j], now) {
    }
  }

  class JobStore {
    var rows: map<string, Row>
    ghost var jobs: Table

    ghost predicate Valid()
      reads this
    {
      Encodes(rows, jobs)
    }

    constructor ()
      ensures Valid() && jobs == map[]
    {
      rows, jobs := map[], map[];
    }

    /** INSERT; false stands for the IntegrityError of a duplicate primary key. */
    method Submit(jobId: JobId, videoUrl: string, now: Instant) returns (ok: bool)
      requires Valid()
      modifies this
      ensures Valid()
      ensures ok == (jobId !in old(jobs))
      ensures jobs == if ok then old(jobs)[jobId := NewJob(jobId, videoUrl, now)] else old(jobs)
      ensures ok ==> var job := jobs[jobId];
        && job.jobId == jobId && job.videoUrl == videoUrl && job.createdAt == now
        && job.status == Queued && job.attempt == 0
        && job.leaseToken.None? && job.leaseExpiresAt.None? && job.nextRetryAt.None?
        && job.startedAt.None? && job.finishedAt.None?
        && job.transcriptPath.None? && job.error.None? && job.ackedAt.None?
    {
      ok := jobId !in rows;
      if ok {
        rows := rows[jobId := Row(jobId, videoUrl, "queued", 0, None, None, None, Text(now), None, None,
                                  None, None, None, None, None)];
        jobs := jobs[jobId := NewJob(jobId, videoUrl, now)];
      }
    }

    /** The claim UPDATE with its subquery; None when no row qualifies. */
    method ClaimUpdate(token: Token, expires: Instant, now: Instant) returns (claimed: Option<JobId>)
      requires Valid()
      modifies this
      ensures Valid()
      ensures claimed.None? ==> jobs == old(jobs) && forall j | j in jobs :: !Eligible(jobs[j], now)
      ensures claimed.Some? ==> IsPick(old(jobs), now, claimed.value)
      ensures claimed.Some? ==> jobs == Claim(old(jobs), claimed.value, token, expires)
      ensures claimed.None? <==> forall j | j in old(jobs) :: !IsDue(old(jobs)[j], now)
      ensures claimed.Some? ==> var j := claimed.value;
        && j in old(jobs) && IsDue(old(jobs)[j], now)
        && jobs == old(jobs)[j := old(jobs)[j].(status := Claimed, leaseToken := Some(token),
                                                leaseExpiresAt := Some(expires),
                                                attempt := old(jobs)[j].attempt + 1)]
        && forall k | k in old(jobs) && IsDue(old(jobs)[k], now) :: NotAfter(old(jobs)[j], old(jobs)[k])
    {
      hide Text, ToRow, TextEligible, TextPrecedes, Precedes, IsDue, NotAfter, Eligible;
      DueIsEligible(jobs, now);
      var nowText := Text(now);
      var candidates := set j | j in rows && TextEligible(rows[j], nowText);
      TextSelectsTheSame(rows, jobs, now);
      if candidates == {} {
        assert forall j | j in jobs :: !Eligible(jobs[j], now) by {
          assert forall j | j in rows :: j !in candidates ==> !TextEligible(rows[j], nowText);
        }
        return None;
      }
      ghost var first := FirstExists(jobs, candidates);
      var j :| j in candidates && forall k | k in candidates :: !TextPrecedes(rows[k], rows[j]);
      PickIsFirst(jobs, now, j);
      ClaimedRow(jobs[j], token, expires);
      AttemptOfRow(jobs[j]);
      rows := rows[j := rows[j].(status := "claimed", leaseToken := Some(token),
                                 leaseExpiresAt := Some(Text(expires)), attempt := rows[j].attempt + 1)];
      jobs := Claim(jobs, j, token, expires);
      claimed := Some(j);
    }

    method MarkProcessing(jobId: JobId, token: Token, now: Instant) returns (hit: bool)
      requires Valid()
      modifies this
      ensures Valid() && Update(jobs, hit) == JobTable.MarkProcessing(old(jobs), jobId, token, now)
      ensures hit <==>
        jobId in old(jobs) && old(jobs)[jobId].status == Claimed && old(jobs)[jobId].leaseToken == Some(token)
      ensures jobs == if hit then old(jobs)[jobId := old(jobs)[jobId].(status := Processing, startedAt := Some(now))]
                      else old(jobs)
    {
      hide Text, JobStatus.Value;
      if jobId in jobs {
        StatusText(jobs[jobId]);
      }
      hit := jobId in rows && rows[jobId].status == "claimed" && rows[jobId].leaseToken == Some(token);
      if hit {
        rows := rows[jobId := rows[jobId].(status := "processing", startedAt := Some(Text(now)))];
      }
      jobs := JobTable.MarkProcessing(jobs, jobId, token, now).table;
    }

    method MarkDone(jobId: JobId, token: Token, path: Path, now: Instant) returns (hit: bool)
      requires Valid()
      modifies this
      ensures Valid() && Update(jobs, hit) == JobTable.MarkDone(old(jobs), jobId, token, path, now)
      ensures hit <==>
        jobId in old(jobs) && old(jobs)[jobId].status == Processing && old(jobs)[jobId].leaseToken == Some(token)
      ensures jobs == if hit then old(jobs)[jobId := old(jobs)[jobId].(status := Done, finishedAt := Some(now),
                                                              transcriptPath := Some(path),
                                                              leaseToken := None, leaseExpiresAt := None)]
                      else old(jobs)
    {
      hide Text, JobStatus.Value;
      if jobId in jobs {
        StatusText(jobs[jobId]);
      }
      hit := jobId in rows && rows[jobId].status == "processing" && rows[jobId].leaseToken == Some(token);
      if hit {
        rows := rows[jobId := rows[jobId].(status := "done", finishedAt := Some(Text(now)),
                                           transcriptPath := Some(path),
                                           leaseToken := None, leaseExpiresAt := None)];
      }
      jobs := JobTable.MarkDone(jobs, jobId, token, path, now).table;
    }

    method MarkFailed(jobId: JobId, token: Token, error: JobError, now: Instant) returns (hit: bool)
      requires Valid()
      modifies this
      ensures Valid() && Update(jobs, hit) == JobTable.MarkFailed(old(jobs), jobId, token, error, now)
      ensures hit <==>
        && jobId in old(jobs) && old(jobs)[jobId].leaseToken == Some(token)
        && (old(jobs)[jobId].status == Claimed || old(jobs)[jobId].status == Processing)
      ensures jobs == if hit then old(jobs)[jobId := old(jobs)[jobId].(status := Failed, finishedAt := Some(now),
                                                              error := Some(error),
                                                              leaseToken := None, leaseExpiresAt := None)]
                      else old(jobs)
    {
      hide Text, JobStatus.Value;
      if jobId in jobs {
        StatusText(jobs[jobId]);
      }
      hit := jobId in rows && (rows[jobId].status == "processing" || rows[jobId].status == "claimed")
             && rows[jobId].leaseToken == Some(token);
      if hit {
        rows := rows[jobId := rows[jobId].(status := "failed", finishedAt := Some(Text(now)),
                                           errorCode := Some(error.code), errorMessage := Some(error.message),
                                           errorRetryable := Some(if error.retryable then 1 else 0),
                                           leaseToken := None, leaseExpiresAt := None)];
      }
      jobs := JobTable.MarkFailed(jobs, jobId, token, error, now).table;
    }

    method DeferRetry(jobId: JobId, token: Token, nextRetryAt: Instant) returns (hit: bool)
      requires Valid()
      modifies this
      ensures Valid() && Update(jobs, hit) == JobTable.DeferRetry(old(jobs), jobId, token, nextRetryAt)
      ensures hit <==>
        && jobId in old(jobs) && old(jobs)[jobId].leaseToken == Some(token)
        && (old(jobs)[jobId].status == Claimed || old(jobs)[jobId].status == Processing)
      ensures jobs == if hit then old(jobs)[jobId := old(jobs)[jobId].(status := Queued, leaseToken := None,
                                                              leaseExpiresAt := None,
                                                              nextRetryAt := Some(nextRetryAt))]
                      else old(jobs)
    {
      hide Text, JobStatus.Value;
      if jobId in jobs {
        StatusText(jobs[jobId]);
      }
      hit := jobId in rows && (rows[jobId].status == "processing" || rows[jobId].status == "claimed")
             && rows[jobId].leaseToken == Some(token);
      if hit {
        rows := rows[jobId := rows[jobId].(status := "queued", leaseToken := None, leaseExpiresAt := None,
                                           nextRetryAt := Some(Text(nextRetryAt)))];
      }
      jobs := JobTable.DeferRetry(jobs, jobId, token, nextRetryAt).table;
    }

    /** One UPDATE over all expired rows; returns how many changed. */
    method ReclaimExpired(now: Instant) returns (n: nat)
      requires Valid()
      modifies this
      ensures Valid() && jobs == JobTable.ReclaimExpired(old(jobs), now)
      ensures n == |ExpiredJobs(old(jobs), now)|
      ensures n == |set j | j in old(jobs) && LeaseIsOver(old(jobs)[j], now)|
      ensures jobs.Keys == old(jobs).Keys
      ensures forall j | j in old(jobs) ::
        jobs[j] == if LeaseIsOver(old(jobs)[j], now)
                   then old(jobs)[j].(status := Queued, leaseToken := None, leaseExpiresAt := None)
                   else old(jobs)[j]
    {
      hide Text, JobStatus.Value, TextExpired, Expired, LeaseIsOver, ToRow, TextReleased;
      ReleasedInFields(jobs, now);
      var nowText := Text(now);
      forall j | j in jobs ensures TextExpired(rows[j], nowText) <==> Expired(jobs[j], now) {
        TextExpiredIsExpired(jobs[j], now);
      }
      var expired := set j | j in rows && TextExpired(rows[j], nowText);
      assert expired == ExpiredJobs(jobs, now);
      n := |expired|;
      rows := map j | j in rows :: if j in expired then TextReleased(rows[j]) else rows[j];
      forall j | j in jobs ensures TextReleased(ToRow(jobs[j])) == ToRow(Released(jobs[j])) {
        ReleasedRow(jobs[j]);
      }
      jobs := JobTable.ReclaimExpired(jobs, now);
    }

    method MarkAcked(jobId: JobId, now: Instant) returns (hit: bool)
      requires Valid()
      modifies this
      ensures Valid() && Update(jobs, hit) == JobTable.MarkAcked(old(jobs), jobId, now)
      ensures hit <==> jobId in old(jobs) && old(jobs)[jobId].status == Done && old(jobs)[jobId].ackedAt.None?
      ensures jobs == if hit then old(jobs)[jobId := old(jobs)[jobId].(ackedAt := Some(now))]
                      else old(jobs)
    {
      hide Text, JobStatus.Value;
      if jobId in jobs {
        StatusText(jobs[jobId]);
      }
      hit := jobId in rows && rows[jobId].status == "done" && rows[jobId].ackedAt.None?;
      if hit {
        rows := rows[jobId := rows[jobId].(ackedAt := Some(Text(now)))];
      }
      jobs := JobTable.MarkAcked(jobs, jobId, now).table;
    }

    method UpdateTranscriptPath(jobId: JobId, path: Path) returns (hit: bool)
      requires Valid()
      modifies this
      ensures Valid() && Update(jobs, hit) == JobTable.UpdateTranscriptPath(old(jobs), jobId, path)
      ensures hit <==> jobId in old(jobs)
      ensures jobs == if hit then old(jobs)[jobId := old(jobs)[jobId].(transcriptPath := Some(path))] else old(jobs)
    {
      hide Text, JobStatus.Value;
      if jobId in jobs {
        StatusText(jobs[jobId]);
      }
      hit := jobId in rows;
      if hit {
        rows := rows[jobId := rows[jobId].(transcriptPath := Some(path))];
      }
      jobs := JobTable.UpdateTranscriptPath(jobs, jobId, path).table;
    }

    method Get(jobId: JobId) returns (job: Option<Job>)
      requires Valid()
      ensures job == if jobId in jobs then Some(jobs[jobId]) else None
    {
      if jobId !in rows {
        return None;
      }
      RoundTrip(jobs[jobId]);
      job := FromRow(rows[jobId]);
    }
  }
}
