/** What every reachable state, and every run, of the service guarantees about the queue. */
module QueueTheorems {
  import opened Wrappers
  import opened Timestamps
  import opened Jobs
  import opened JobTable
  import opened Metrics
  import opened Queue
  import opened QueueInvariant
  import opened Service

  lemma ReachableRow(cfg: Config, s: State, j: JobId)
    requires Reachable(cfg, s) && j in s.w.jobs
    ensures j in s.w.ledgers && RowInv(cfg, s.w.jobs[j], s.w.ledgers[j])
  {
    ReachableInv(cfg, s);
  }

  // ---------- pipeline starts ----------

  lemma {:induction false} AscendingFromOne(starts: seq<int>, k: nat)
    requires k < |starts| && starts[0] >= 1
    requires forall i, m | 0 <= i < m < |starts| :: starts[i] < starts[m]
    ensures starts[k] >= k + 1
  {
    if k > 0 {
      AscendingFromOne(starts, k - 1);
    }
  }

  /** Any interleaving of workers, reclaims, crashes and split claims starts a job's pipeline at most
      max_attempts times, and the starts carry different attempt numbers from 1..max_attempts. */
  lemma PipelineStarts(cfg: Config, s: State, j: JobId)
    requires Reachable(cfg, s) && j in s.w.jobs
    ensures j in s.w.ledgers
    ensures var starts := s.w.ledgers[j].starts;
      && |starts| <= (if cfg.maxAttempts > 0 then cfg.maxAttempts else 0)
      && (forall k | 0 <= k < |starts| :: 1 <= starts[k] <= cfg.maxAttempts)
      && (forall k, m | 0 <= k < m < |starts| :: starts[k] != starts[m])
  {
    ReachableRow(cfg, s, j);
    var starts := s.w.ledgers[j].starts;
    if starts != [] {
      AscendingFromOne(starts, |starts| - 1);
    }
  }

  lemma OnlyMarkProcessingRuns(cfg: Config, w: World, e: Event, i: nat)
    requires Enabled(cfg, w, e) && !PhaseOf(w, i).Running? && PhaseOf(Step(cfg, w, e), i).Running?
    ensures e.MarkProcessing? && e.worker == i && i < |w.workers| && w.workers[i].Holding?
    ensures PhaseOf(Step(cfg, w, e), i).snap == w.workers[i].snap
    ensures JobTable.MarkProcessing(w.jobs, w.workers[i].snap.jobId, TokenOf(w.workers[i].snap), e.at).hit
  {
  }

  /** The record is complete: a worker enters the pipeline only by the step that appends to it, and
      the number appended is the attempt of the row it has just moved to PROCESSING. */
  lemma EnteringThePipeline(cfg: Config, s: State, e: Event, i: nat)
    requires Reachable(cfg, s) && Enabled(cfg, s.w, e)
    requires !PhaseOf(s.w, i).Running? && PhaseOf(Step(cfg, s.w, e), i).Running?
    ensures var w' := Step(cfg, s.w, e);
      var j := PhaseOf(w', i).snap.jobId;
      && e.MarkProcessing? && e.worker == i
      && j in s.w.jobs && j in s.w.ledgers && j in w'.jobs && j in w'.ledgers
      && s.w.jobs[j].status.Claimed? && w'.jobs[j].status.Processing?
      && w'.ledgers[j].starts == s.w.ledgers[j].starts + [w'.jobs[j].attempt]
  {
    ReachableInv(cfg, s);
    hide FileInv, AckInv, ResponseInv, RowInv, FifoInv, MetricsInv, NoLossInv, TokenInv;
    OnlyMarkProcessingRuns(cfg, s.w, e, i);
    assert PhaseInv(cfg, s.w.jobs, s.w.issued, s.w.workers[i]);
    SnapIsCurrent(s.w.jobs, s.w.issued, s.w.workers[i].snap);
  }

  // ---------- attempts, leases, tokens ----------

  /** A job's attempt is at most max(1, max_attempts) plus the times it was reclaimed. */
  lemma AttemptBudget(cfg: Config, s: State, j: JobId)
    requires Reachable(cfg, s) && j in s.w.jobs
    ensures j in s.w.ledgers
    ensures s.w.jobs[j].attempt
         <= (if cfg.maxAttempts > 1 then cfg.maxAttempts else 1) + Reclaims(s.w.ledgers[j].ends)
  {
    ReachableRow(cfg, s, j);
  }

  /** The MAX_ATTEMPTS branch needs reclaims: a worker that sees attempt > max_attempts >= 1 holds a
      job that was reclaimed at least that many times too often. */
  lemma MaxAttemptsBranchNeedsReclaims(cfg: Config, s: State, i: nat)
    requires Reachable(cfg, s) && cfg.maxAttempts >= 1
    requires PhaseOf(s.w, i).HasSnap() && PhaseOf(s.w, i).Snap().attempt > cfg.maxAttempts
    ensures var snap := PhaseOf(s.w, i).Snap();
      snap.jobId in s.w.ledgers && Reclaims(s.w.ledgers[snap.jobId].ends) >= snap.attempt - cfg.maxAttempts
  {
    ReachableInv(cfg, s);
    hide RowInv, FifoInv, MetricsInv, NoLossInv, FileInv, AckInv, ResponseInv;
    assert PhaseInv(cfg, s.w.jobs, s.w.issued, s.w.workers[i]);
    AttemptBudget(cfg, s, PhaseOf(s.w, i).Snap().jobId);
  }

  /** A FAILED row with a retryable error used exactly max_attempts attempts. */
  lemma RetryableFailureIsTheLastAttempt(cfg: Config, s: State, j: JobId)
    requires Reachable(cfg, s) && j in s.w.jobs
    requires s.w.jobs[j].status.Failed? && s.w.jobs[j].error.Some? && s.w.jobs[j].error.value.retryable
    ensures s.w.jobs[j].attempt == cfg.maxAttempts
  {
    ReachableRow(cfg, s, j);
  }

  /** After a refused defer_retry the fall-through mark_failed changes no row. */
  lemma FallThroughChangesNothing(cfg: Config, s: State, e: Event)
    requires Reachable(cfg, s) && Enabled(cfg, s.w, e) && e.MarkFailed?
    requires s.w.workers[e.worker].error.retryable && s.w.workers[e.worker].snap.attempt < cfg.maxAttempts
    ensures Step(cfg, s.w, e).jobs == s.w.jobs
  {
    hide RowInv, FifoInv, MetricsInv, NoLossInv, FileInv, AckInv, ResponseInv, Step, Reachable;
    ReachableInv(cfg, s);
    assert PhaseInv(cfg, s.w.jobs, s.w.issued, s.w.workers[e.worker]);
    FailWithoutLease(cfg, s.w, e);
  }

  lemma FailWithoutLease(cfg: Config, w: World, e: Event)
    requires Enabled(cfg, w, e) && e.MarkFailed?
    requires !Carries(w.jobs, w.workers[e.worker].snap.jobId, TokenOf(w.workers[e.worker].snap))
    ensures Step(cfg, w, e).jobs == w.jobs
  {
  }

  function Finals(ends: seq<LeaseEnd>): nat {
    if ends == [] then 0 else Finals(ends[..|ends| - 1]) + (if ends[|ends| - 1].IsFinal() then 1 else 0)
  }

  lemma {:induction false} EveryEndIsOneOfFour(ends: seq<LeaseEnd>)
    ensures Reclaims(ends) + Defers(ends) + Finals(ends) == |ends|
  {
    if ends != [] {
      EveryEndIsOneOfFour(ends[..|ends| - 1]);
    }
  }

  lemma {:induction false} NoFinalEnds(ends: seq<LeaseEnd>)
    requires forall k | 0 <= k < |ends| :: !ends[k].IsFinal()
    ensures Finals(ends) == 0
  {
    if ends != [] {
      NoFinalEnds(ends[..|ends| - 1]);
    }
  }

  /** Lease accounting: attempt = reclaims + defers + (1 if terminal) + (1 if claimed or processing).
      Every claim opened one lease and every lease but an active one has exactly one end; a completed
      one is the mark of DONE and a given-up one of FAILED. */
  lemma LeaseAccounting(cfg: Config, s: State, j: JobId)
    requires Reachable(cfg, s) && j in s.w.jobs
    ensures j in s.w.ledgers
    ensures var job, ends := s.w.jobs[j], s.w.ledgers[j].ends;
      job.attempt == Reclaims(ends) + Defers(ends) + (if job.status.IsTerminal() then 1 else 0)
                     + (if job.status.IsActive() then 1 else 0)
    ensures var job, led := s.w.jobs[j], s.w.ledgers[j];
      && |led.claims| == job.attempt && |led.ends| == |led.claims| - (if job.status.IsActive() then 1 else 0)
      && (job.status.Done? <==> exists k :: 0 <= k < |led.ends| && led.ends[k].Completed?)
      && (job.status.Failed? <==> exists k :: 0 <= k < |led.ends| && led.ends[k].GaveUp?)
  {
    hide RowInv, Reachable;
    ReachableRow(cfg, s, j);
    RowAccounted(cfg, s.w.jobs[j], s.w.ledgers[j]);
    AccountedSums(s.w.jobs[j], s.w.ledgers[j]);
    AccountedEnds(s.w.jobs[j], s.w.ledgers[j]);
  }

  lemma RowAccounted(cfg: Config, job: Job, led: Ledger)
    requires RowInv(cfg, job, led)
    ensures Accounted(job, led)
  {
  }

  lemma AccountedSums(job: Job, led: Ledger)
    requires Accounted(job, led)
    ensures job.attempt == Reclaims(led.ends) + Defers(led.ends) + (if job.status.IsTerminal() then 1 else 0)
                           + (if job.status.IsActive() then 1 else 0)
  {
    var ends := led.ends;
    EveryEndIsOneOfFour(ends);
    if job.status.IsTerminal() {
      NoFinalEnds(ends[..|ends| - 1]);
    } else {
      NoFinalEnds(ends);
    }
  }

  lemma AccountedEnds(job: Job, led: Ledger)
    requires Accounted(job, led)
    ensures |led.claims| == job.attempt && |led.ends| == |led.claims| - (if job.status.IsActive() then 1 else 0)
    ensures job.status.Done? <==> exists k :: 0 <= k < |led.ends| && led.ends[k].Completed?
    ensures job.status.Failed? <==> exists k :: 0 <= k < |led.ends| && led.ends[k].GaveUp?
  {
  }

  ghost predicate EndedAs(w: World, j: JobId, k: nat, end: LeaseEnd) {
    j in w.ledgers && k < |w.ledgers[j].ends| && w.ledgers[j].ends[k] == end
  }

  lemma LeaseEndStep(cfg: Config, w: World, e: Event, j: JobId, k: nat, end: LeaseEnd)
    requires Enabled(cfg, w, e) && w.jobs.Keys == w.ledgers.Keys && EndedAs(w, j, k, end)
    ensures EndedAs(Step(cfg, w, e), j, k, end)
  {
    hide Step, Enabled;
    if e.Reclaim? {
      ReclaimedEnds(cfg, w, e, j);
    } else {
      EndsPrefix(cfg, w, e, j);
    }
  }

  lemma LedgersFollowJobs(cfg: Config, s: State)
    requires SInv(cfg, s)
    ensures s.w.jobs.Keys == s.w.ledgers.Keys
  {
    hide FileInv, AckInv, ResponseInv, RowInv, TokenInv, PhaseInv, FifoInv, MetricsInv, NoLossInv;
  }

  /** A lease ends once: a recorded end is never rewritten, in any continuation of the run. */
  lemma {:induction false} LeaseEndsAreFinal(cfg: Config, s: State, es: seq<ServiceEvent>, j: JobId, k: nat,
                                             end: LeaseEnd)
    requires SInv(cfg, s) && Run(cfg, s, es).Some? && EndedAs(s.w, j, k, end)
    ensures EndedAs(Run(cfg, s, es).value.w, j, k, end)
  {
    hide SInv, Step, Enabled, AckReady, AckNext, EndedAs;
    if es != [] {
      var n := |es| - 1;
      LeaseEndsAreFinal(cfg, s, es[..n], j, k, end);
      RunKeepsInv(cfg, s, es[..n]);
      var t := Run(cfg, s, es[..n]).value;
      LedgersFollowJobs(cfg, t);
      match es[n]
      case QueueEvent(q) => LeaseEndStep(cfg, t.w, q, j, k, end);
      case AckStep(a, at, fails) =>
        AckKeepsEnds(t, a, at, fails, j, k, end);
      case _ =>
    }
  }

  lemma AckKeepsEnds(s: State, a: AckId, at: Instant, fails: bool, j: JobId, k: nat, end: LeaseEnd)
    requires AckReady(s, a, at) && EndedAs(s.w, j, k, end)
    ensures EndedAs(AckNext(s, a, at, fails).w, j, k, end)
  {
  }

  ghost predicate Retired(w: World, token: Token) {
    token in w.issued && forall j | j in w.jobs :: !Carries(w.jobs, j, token)
  }

  lemma RetiredQueueStep(cfg: Config, w: World, e: Event, token: Token)
    requires Inv(cfg, w) && Enabled(cfg, w, e) && Retired(w, token)
    ensures Retired(Step(cfg, w, e), token)
  {
    hide Inv, Step, Enabled;
    forall j | j in Step(cfg, w, e).jobs ensures !Carries(Step(cfg, w, e).jobs, j, token) {
      NoRevival(cfg, w, e, j, token);
    }
    IssuedGrows(cfg, w, e);
  }

  lemma RetiredAckStep(cfg: Config, s: State, a: AckId, at: Instant, fails: bool, token: Token)
    requires AckReady(s, a, at) && Retired(s.w, token)
    ensures Retired(AckNext(s, a, at, fails).w, token)
  {
  }

  lemma RetiredStep(cfg: Config, s: State, e: ServiceEvent, token: Token)
    requires SInv(cfg, s) && SEnabled(cfg, s, e) && Retired(s.w, token)
    ensures Retired(SStep(cfg, s, e).w, token)
  {
    hide Inv, FileInv, AckInv, ResponseInv, Step, Enabled, AckNext, AckReady, Retired;
    match e
    case QueueEvent(q) => RetiredQueueStep(cfg, s.w, q, token);
    case AckStep(a, at, fails) => RetiredAckStep(cfg, s, a, at, fails, token);
    case _ =>
  }

  lemma {:induction false} RetiredStaysRetired(cfg: Config, s: State, es: seq<ServiceEvent>, token: Token)
    requires SInv(cfg, s) && Retired(s.w, token) && Run(cfg, s, es).Some?
    ensures Retired(Run(cfg, s, es).value.w, token)
  {
    hide SInv, SStep, SEnabled, Retired;
    if es != [] {
      var m := Run(cfg, s, es[..|es| - 1]).value;
      RetiredStaysRetired(cfg, s, es[..|es| - 1], token);
      RunKeepsInv(cfg, s, es[..|es| - 1]);
      RetiredStep(cfg, m, es[|es| - 1], token);
    }
  }

  /** Token retirement: once no row carries a token, nothing done with it ever succeeds or changes a
      row, in any continuation of the run. */
  lemma RetiredForGood(cfg: Config, s: State, es: seq<ServiceEvent>, token: Token,
                       j: JobId, path: Path, error: JobError, at: Instant)
    requires Reachable(cfg, s) && Retired(s.w, token) && Run(cfg, s, es).Some?
    ensures var t := Run(cfg, s, es).value.w.jobs;
      && JobTable.MarkProcessing(t, j, token, at) == Update(t, false)
      && JobTable.MarkDone(t, j, token, path, at) == Update(t, false)
      && JobTable.MarkFailed(t, j, token, error, at) == Update(t, false)
      && JobTable.DeferRetry(t, j, token, at) == Update(t, false)
  {
    hide SInv, Run;
    ReachableInv(cfg, s);
    RetiredStaysRetired(cfg, s, es, token);
  }

  /** Losing a lease retires its token: a row that drops a token leaves no row carrying it. */
  lemma DroppedTokensRetire(cfg: Config, s: State, e: Event, j: JobId, token: Token)
    requires Reachable(cfg, s) && Enabled(cfg, s.w, e)
    requires Carries(s.w.jobs, j, token) && !Carries(Step(cfg, s.w, e).jobs, j, token)
    ensures Retired(Step(cfg, s.w, e), token)
  {
    ReachableInv(cfg, s);
    hide FileInv, AckInv, ResponseInv, RowInv, FifoInv, MetricsInv, NoLossInv, PhaseInv, Step, Enabled;
    assert token in s.w.issued && s.w.issued[token].job == j;
    IssuedGrows(cfg, s.w, e);
    forall k | k in Step(cfg, s.w, e).jobs ensures !Carries(Step(cfg, s.w, e).jobs, k, token) {
      if k != j {
        NoRevival(cfg, s.w, e, k, token);
      }
    }
  }

  // ---------- order and time ----------

  /** First claims are first-in first-out: if A was in the table, created earlier, when B was first
      claimed, then A had been claimed before. */
  lemma FirstClaimsAreFifo(cfg: Config, s: State, i: nat, a: JobId)
    requires Reachable(cfg, s) && i < |s.w.firstClaims|
    requires a in s.w.firstClaims[i].present && a in s.w.jobs && s.w.firstClaims[i].job in s.w.jobs
    requires s.w.jobs[a].createdAt < s.w.jobs[s.w.firstClaims[i].job].createdAt
    ensures exists k :: 0 <= k < i && s.w.firstClaims[k].job == a
  {
    ReachableInv(cfg, s);
    hide FileInv, AckInv, ResponseInv, RowInv, MetricsInv, NoLossInv, TokenInv, PhaseInv;
    assert InOrder(s.w.jobs, s.w.ledgers, i, s.w.firstClaims[i]);
    assert Ranked(s.w.jobs[a], s.w.ledgers[a], s.w.firstClaims);
    assert s.w.firstClaims[s.w.ledgers[a].rank].job == a;
  }

  /** Seconds are seconds of the calendar, and a claim's lease is lease_ttl_seconds of them. */
  lemma SecondsAreSeconds(cfg: Config, w: World, e: Event, d: DateTime)
    requires Enabled(cfg, w, e) && e.ClaimUpdate? && IsDateTime(d) && d.second < 59
    ensures Micros(d.(second := d.second + 1)) == Micros(d) + 1_000_000
    ensures IsInstant(e.granted + cfg.leaseTtlSeconds * 1_000_000)
    ensures e.job in Step(cfg, w, e).jobs
      && Step(cfg, w, e).jobs[e.job].leaseExpiresAt == Some(e.granted + cfg.leaseTtlSeconds * 1_000_000)
  {
  }

  /** Backoff: the claim after a defer reads a clock at least retry_backoff_seconds later than the
      reading taken at the failure; and no lease is reclaimed before its expiry time has passed. */
  lemma BackoffIsRespected(cfg: Config, s: State, j: JobId, k: nat)
    requires Reachable(cfg, s) && j in s.w.jobs && j in s.w.ledgers && k < |s.w.ledgers[j].ends|
    ensures var led := s.w.ledgers[j];
      && k < |led.claims|
      && (led.ends[k].Deferred? && k + 1 < |led.claims| ==>
            led.ends[k].at + cfg.retryBackoffSeconds * 1_000_000 <= led.claims[k + 1].at)
      && (led.ends[k].Deferred? && k + 1 == |led.ends| && s.w.jobs[j].status.Queued? ==>
            s.w.jobs[j].nextRetryAt.Some?
            && s.w.jobs[j].nextRetryAt.value == led.ends[k].at + cfg.retryBackoffSeconds * 1_000_000)
      && (led.ends[k].Reclaimed? ==> led.claims[k].expires < led.ends[k].at)
  {
    ReachableRow(cfg, s, j);
  }

  /** No claim was made at a reading the clock has not reached. */
  ghost predicate ClaimsArePast(w: World) {
    forall j, k | j in w.ledgers && 0 <= k < |w.ledgers[j].claims| :: w.ledgers[j].claims[k].at <= w.clock
  }

  lemma ClaimsStayPast(cfg: Config, w: World, e: Event)
    requires Enabled(cfg, w, e) && ClaimsArePast(w)
    ensures ClaimsArePast(Step(cfg, w, e))
  {
  }

  lemma AckKeepsClaims(s: State, a: AckId, at: Instant, fails: bool)
    requires AckReady(s, a, at) && ClaimsArePast(s.w)
    ensures ClaimsArePast(AckNext(s, a, at, fails).w)
  {
  }

  lemma {:induction false} RunKeepsClaimsPast(cfg: Config, s: State, es: seq<ServiceEvent>)
    requires ClaimsArePast(s.w) && Run(cfg, s, es).Some?
    ensures ClaimsArePast(Run(cfg, s, es).value.w)
  {
    hide Step, Enabled, AckReady, AckNext, ClaimsArePast;
    if es != [] {
      var n := |es| - 1;
      RunKeepsClaimsPast(cfg, s, es[..n]);
      var t := Run(cfg, s, es[..n]).value;
      match es[n]
      case QueueEvent(q) => ClaimsStayPast(cfg, t.w, q);
      case AckStep(a, at, fails) => AckKeepsClaims(t, a, at, fails);
      case _ =>
    }
  }

  lemma ClaimsPast(cfg: Config, s: State)
    requires Reachable(cfg, s)
    ensures ClaimsArePast(s.w)
  {
    var n: nat, clock: Instant, es: seq<ServiceEvent> :| Run(cfg, Start(n, clock), es) == Some(s);
    RunKeepsClaimsPast(cfg, Start(n, clock), es);
  }

  /** A reclaimed job is eligible at once: its leftover next_retry_at is not later than the claim whose
      lease expired, and the clock had reached that claim's reading. */
  lemma ReclaimedIsEligible(cfg: Config, s: State, j: JobId)
    requires Reachable(cfg, s) && j in s.w.jobs && j in s.w.ledgers && s.w.jobs[j].status.Queued?
    requires var led := s.w.ledgers[j]; led.ends != [] && led.ends[|led.ends| - 1].Reclaimed?
    ensures Eligible(s.w.jobs[j], s.w.clock)
    ensures var claims := s.w.ledgers[j].claims;
      claims != [] && forall now: Instant | claims[|claims| - 1].at <= now :: Eligible(s.w.jobs[j], now)
  {
    hide Reachable;
    ReachableRow(cfg, s, j);
    ClaimsPast(cfg, s);
  }

  /** The column next_retry_at is the mark of a job that was ever deferred. */
  ghost predicate DefersShow(w: World) {
    && w.jobs.Keys == w.ledgers.Keys
    && forall j | j in w.jobs :: w.jobs[j].nextRetryAt.Some? <==> Defers(w.ledgers[j].ends) > 0
  }

  lemma DefersOfAppend(ends: seq<LeaseEnd>, end: LeaseEnd)
    ensures Defers(ends + [end]) == Defers(ends) + (if end.Deferred? then 1 else 0)
  {
    assert (ends + [end])[..|ends|] == ends;
  }

  lemma ClaimKeepsDefers(cfg: Config, w: World, e: Event)
    requires DefersShow(w) && Enabled(cfg, w, e) && (e.ClaimUpdate? || e.Submit?)
    ensures DefersShow(Step(cfg, w, e))
  {
    hide Defers;
    assert Defers([]) == 0 by { NoDefers(); }
  }

  lemma NoDefers()
    ensures Defers([]) == 0
  {
  }

  lemma EndKeepsDefers(cfg: Config, w: World, e: Event)
    requires DefersShow(w) && Enabled(cfg, w, e) && (e.MarkDone? || e.MarkFailed?)
    ensures DefersShow(Step(cfg, w, e))
  {
    hide Defers;
    var j := w.workers[e.worker].snap.jobId;
    if j in w.ledgers {
      DefersOfAppend(w.ledgers[j].ends, Completed);
      DefersOfAppend(w.ledgers[j].ends, GaveUp);
    }
  }

  lemma DeferShowsItself(cfg: Config, w: World, e: Event)
    requires DefersShow(w) && Enabled(cfg, w, e) && e.DeferRetry?
    ensures DefersShow(Step(cfg, w, e))
  {
    hide Defers;
    var j := w.workers[e.worker].snap.jobId;
    if j in w.ledgers {
      DefersOfAppend(w.ledgers[j].ends, Deferred(e.at));
    }
  }

  lemma ReclaimKeepsDefers(cfg: Config, w: World, e: Event)
    requires DefersShow(w) && Enabled(cfg, w, e) && e.Reclaim?
    ensures DefersShow(Step(cfg, w, e))
  {
    hide Defers;
    forall j | j in w.ledgers
      ensures Defers(w.ledgers[j].ends + [Reclaimed(e.now)]) == Defers(w.ledgers[j].ends)
    {
      DefersOfAppend(w.ledgers[j].ends, Reclaimed(e.now));
    }
  }

  lemma QueueKeepsDefers(cfg: Config, w: World, e: Event)
    requires DefersShow(w) && Enabled(cfg, w, e)
    ensures DefersShow(Step(cfg, w, e))
  {
    if e.ClaimUpdate? || e.Submit? {
      ClaimKeepsDefers(cfg, w, e);
    } else if e.MarkDone? || e.MarkFailed? {
      EndKeepsDefers(cfg, w, e);
    } else if e.DeferRetry? {
      DeferShowsItself(cfg, w, e);
    } else if e.Reclaim? {
      ReclaimKeepsDefers(cfg, w, e);
    } else {
      OthersKeepDefers(cfg, w, e);
    }
  }

  lemma OthersKeepDefers(cfg: Config, w: World, e: Event)
    requires DefersShow(w) && Enabled(cfg, w, e)
    requires e.Tick? || e.ClaimGet? || e.MarkProcessing? || e.PipelineFails? || e.WriteTranscript? || e.TornWrite?
          || e.CountError? || e.Crash? || e.CounterTick?
    ensures DefersShow(Step(cfg, w, e))
  {
    hide Defers;
  }

  lemma AckKeepsDefers(s: State, a: AckId, at: Instant, fails: bool)
    requires DefersShow(s.w) && AckReady(s, a, at)
    ensures DefersShow(AckNext(s, a, at, fails).w)
  {
    hide Defers, AckNext, AckReady;
    TableAfter(s, a, at, fails);
    LedgersAfter(s, a, at, fails);
  }

  lemma LedgersAfter(s: State, a: AckId, at: Instant, fails: bool)
    requires AckReady(s, a, at)
    ensures AckNext(s, a, at, fails).w.ledgers == s.w.ledgers
  {
  }

  lemma {:induction false} RunKeepsDefers(cfg: Config, s: State, es: seq<ServiceEvent>)
    requires DefersShow(s.w) && Run(cfg, s, es).Some?
    ensures DefersShow(Run(cfg, s, es).value.w)
  {
    hide Step, Enabled, AckReady, AckNext, DefersShow;
    if es != [] {
      var n := |es| - 1;
      RunKeepsDefers(cfg, s, es[..n]);
      var t := Run(cfg, s, es[..n]).value;
      match es[n]
      case QueueEvent(q) => QueueKeepsDefers(cfg, t.w, q);
      case AckStep(a, at, fails) => AckKeepsDefers(t, a, at, fails);
      case _ =>
    }
  }

  /** In every run a job that was ever deferred is claimed only when every queued job was; among those
      never deferred the oldest is claimed, among the deferred the one whose retry time came first. */
  lemma FreshJobsGoFirst(cfg: Config, s: State, e: Event, k: JobId)
    requires Reachable(cfg, s) && Enabled(cfg, s.w, e) && e.ClaimUpdate?
    requires k in s.w.jobs && s.w.jobs[k].status.Queued?
    ensures e.job in s.w.jobs && e.job in s.w.ledgers && k in s.w.ledgers
    ensures var c, q := s.w.jobs[e.job], s.w.jobs[k];
      && (Defers(s.w.ledgers[e.job].ends) > 0 ==> Defers(s.w.ledgers[k].ends) > 0)
      && (Defers(s.w.ledgers[k].ends) == 0 ==> c.createdAt <= q.createdAt)
      && (Defers(s.w.ledgers[e.job].ends) > 0 && q.nextRetryAt.Some? && q.nextRetryAt.value <= e.now ==>
            c.nextRetryAt.Some? && c.nextRetryAt.value <= q.nextRetryAt.value
            && (c.nextRetryAt == q.nextRetryAt ==> c.createdAt <= q.createdAt))
  {
    var n: nat, clock: Instant, es: seq<ServiceEvent> :| Run(cfg, Start(n, clock), es) == Some(s);
    hide Run, Defers;
    RunKeepsDefers(cfg, Start(n, clock), es);
    assert IsPick(s.w.jobs, e.now, e.job);
    assert Eligible(s.w.jobs[e.job], e.now);
  }

  // ---------- what becomes of an error ----------

  /** A failed pipeline's error, or MAX_ATTEMPTS, is what a job is deferred or failed with and counted as. */
  lemma ErrorsAreKept(cfg: Config, w: World, e: Event, i: nat)
    requires Enabled(cfg, w, e) && i < |w.workers| && e.ByWorker(i) && i < |Step(cfg, w, e).workers|
    ensures var p, p' := w.workers[i], Step(cfg, w, e).workers[i];
      && (e.PipelineFails? ==>
            if e.error.retryable && p.snap.attempt < cfg.maxAttempts then p' == Deferring(p.snap, e.error)
            else p' == Failing(p.snap, e.error))
      && (e.DeferRetry? ==> p' == Idle || p' == Failing(p.snap, p.error))
      && (e.MarkFailed? ==> p' == Counting(p.error.code))
  {
  }

  lemma MaxAttemptsInFields(cfg: Config, w: World, e: Event)
    requires Enabled(cfg, w, e) && e.ClaimGet?
    ensures w.workers[e.worker].job in w.jobs && e.worker < |Step(cfg, w, e).workers|
    ensures var job, p' := w.jobs[w.workers[e.worker].job], Step(cfg, w, e).workers[e.worker];
      && (p'.Holding? <==> job.leaseToken.Some? && job.attempt <= cfg.maxAttempts)
      && (p'.Holding? ==> p'.snap == job)
      && (p'.Failing? <==> job.leaseToken.Some? && job.attempt > cfg.maxAttempts)
      && (p'.Failing? ==> p'.snap == job && p'.error.code == "MAX_ATTEMPTS" && !p'.error.retryable
                          && p'.error.message == "Job exceeded " + Decimal(cfg.maxAttempts) + " attempts")
  {
  }

  /** The number in that message, read back. */
  lemma {:induction false} DecimalReads(n: int)
    requires n >= 0
    ensures Number(Decimal(n)) == Some(n)
  {
    DigitIsItsValue(n % 10);
    var s := Decimal(n);
    if n >= 10 {
      DecimalReads(n / 10);
      assert s[..|s| - 1] == Decimal(n / 10);
    } else {
      assert s[..0] == "";
    }
  }

  // ---------- failure counts ----------

  /** Conservation: per code, what was ticked out, what is still counted, what workers still owe and
      what crashes lost add up to the FAILED rows plus the refused mark_failed calls. */
  lemma ErrorCountsAreConserved(cfg: Config, s: State, code: string)
    requires Reachable(cfg, s)
    ensures SumOf(s.w.ticks, code) + CountOf(s.w.counts, code) + Pending(s.w.workers)[code] + s.w.lost[code]
         == |FailedRows(s.w.jobs, code)| + s.w.refused[code]
  {
    ReachableInv(cfg, s);
    hide FileInv, AckInv, ResponseInv, RowsInv, FifoInv, NoLossInv, TokenInv, PhaseInv;
  }

  lemma {:induction false} IdleWorkersOweNothing(workers: seq<Phase>)
    requires forall i | 0 <= i < |workers| :: !workers[i].Counting?
    ensures Pending(workers) == multiset{}
  {
    if workers != [] {
      IdleWorkersOweNothing(workers[..|workers| - 1]);
    }
  }

  /** With no count lost to a crash and none outstanding, and no job ever reclaimed, the counter
      says exactly how many rows are FAILED with each code. */
  lemma CounterIsExact(cfg: Config, s: State, code: string)
    requires Reachable(cfg, s) && NoReclaims(s.w.ledgers) && s.w.lost == multiset{}
    requires forall i | 0 <= i < |s.w.workers| :: !s.w.workers[i].Counting?
    ensures SumOf(s.w.ticks, code) + CountOf(s.w.counts, code) == |FailedRows(s.w.jobs, code)|
  {
    ErrorCountsAreConserved(cfg, s, code);
    IdleWorkersOweNothing(s.w.workers);
    ReachableInv(cfg, s);
    hide FileInv, AckInv, ResponseInv, RowsInv, FifoInv, TokenInv, PhaseInv, MetricsInv;
  }
}
