/** The inductive invariant of the queue, and the proof that every event keeps it. */
module QueueInvariant {
  import opened Wrappers
  import opened Timestamps
  import opened Jobs
  import opened JobTable
  import opened Metrics
  import opened Queue

  // ---------- one row and its history ----------

  function Reclaims(ends: seq<LeaseEnd>): nat {
    if ends == [] then 0
    else Reclaims(ends[..|ends| - 1]) + (if ends[|ends| - 1].Reclaimed? then 1 else 0)
  }

  function Defers(ends: seq<LeaseEnd>): nat {
    if ends == [] then 0
    else Defers(ends[..|ends| - 1]) + (if ends[|ends| - 1].Deferred? then 1 else 0)
  }

  /** Attempts a job may use without any reclaim. */
  function Allowance(cfg: Config): int {
    if cfg.maxAttempts > 1 then cfg.maxAttempts else 1
  }

  /** Every claim opens one lease, every lease but an active one has one end. */
  ghost predicate Accounted(job: Job, led: Ledger) {
    && |led.claims| == job.attempt
    && |led.ends| + (if job.status.IsActive() then 1 else 0) == job.attempt
    && (forall k | 0 <= k < |led.ends| && led.ends[k].IsFinal() :: k == |led.ends| - 1 && job.status.IsTerminal())
    && (job.status.Done? ==> led.ends != [] && led.ends[|led.ends| - 1].Completed?)
    && (job.status.Failed? ==> led.ends != [] && led.ends[|led.ends| - 1].GaveUp?)
    && (job.leaseToken.Some? <==> job.status.IsActive())
    && (job.status.IsActive() ==> job.leaseExpiresAt == Some(led.claims[|led.claims| - 1].expires))
  }

  /** Lease ends and retry times agree with the clock readings that produced them. */
  ghost predicate Timed(cfg: Config, job: Job, led: Ledger) {
    && |led.claims| == job.attempt >= |led.ends|
    && (forall k | 0 <= k < |led.ends| && led.ends[k].Reclaimed? :: led.claims[k].expires < led.ends[k].at)
    && (forall k | 0 <= k < |led.ends| && led.ends[k].Deferred? && k + 1 < |led.claims| ::
          led.ends[k].at + cfg.retryBackoffSeconds * SECOND <= led.claims[k + 1].at)
    && (job.attempt == 0 ==> job.nextRetryAt.None?)
    && (job.status.Queued? && led.ends != [] && led.ends[|led.ends| - 1].Deferred? ==>
          job.nextRetryAt.Some?
          && job.nextRetryAt.value == led.ends[|led.ends| - 1].at + cfg.retryBackoffSeconds * SECOND)
    && (job.nextRetryAt.Some? && job.attempt > 0
        && (job.status.IsActive() || (led.ends != [] && led.ends[|led.ends| - 1].Reclaimed?)) ==>
          job.nextRetryAt.value <= led.claims[|led.claims| - 1].at)
  }

  /** Pipeline starts carry ascending attempt numbers, each within the limit. */
  ghost predicate StartsBounded(cfg: Config, job: Job, led: Ledger) {
    && (forall k | 0 <= k < |led.starts| :: 1 <= led.starts[k] <= cfg.maxAttempts && led.starts[k] <= job.attempt)
    && (forall k, m | 0 <= k < m < |led.starts| :: led.starts[k] < led.starts[m])
    && (job.status.Claimed? ==> forall k | 0 <= k < |led.starts| :: led.starts[k] < job.attempt)
  }

  ghost predicate WithinBudget(cfg: Config, job: Job, led: Ledger) {
    && job.attempt + (if job.status.Queued? then 1 else 0) <= Allowance(cfg) + Reclaims(led.ends)
    && (job.status.Failed? <==> job.error.Some?)
    && (job.status.Failed? && job.error.value.retryable ==> job.attempt == cfg.maxAttempts)
    && (job.ackedAt.Some? ==> job.status.Done?)
  }

  ghost predicate RowInv(cfg: Config, job: Job, led: Ledger) {
    Accounted(job, led) && Timed(cfg, job, led) && StartsBounded(cfg, job, led) && WithinBudget(cfg, job, led)
  }

  ghost predicate RowsInv(cfg: Config, jobs: Table, ledgers: map<JobId, Ledger>) {
    jobs.Keys == ledgers.Keys && forall j | j in jobs :: RowInv(cfg, jobs[j], ledgers[j])
  }

  // ---------- tokens ----------

  /** A token names one lease: one job, one attempt. */
  ghost predicate TokenInv(jobs: Table, issued: map<Token, Lease>) {
    && (forall j | j in jobs && jobs[j].leaseToken.Some? ::
          && jobs[j].leaseToken.value in issued
          && issued[jobs[j].leaseToken.value].job == j
          && issued[jobs[j].leaseToken.value].attempt == jobs[j].attempt)
    && (forall t | t in issued :: issued[t].job in jobs && 1 <= issued[t].attempt <= jobs[issued[t].job].attempt)
  }

  /** What a worker believes about its lease is what the token stands for. */
  ghost predicate SnapInv(jobs: Table, issued: map<Token, Lease>, snap: Job) {
    && snap.jobId in jobs
    && snap.leaseToken.Some?
    && snap.leaseToken.value in issued
    && issued[snap.leaseToken.value].job == snap.jobId
    && issued[snap.leaseToken.value].attempt == snap.attempt
  }

  ghost predicate PhaseInv(cfg: Config, jobs: Table, issued: map<Token, Lease>, p: Phase) {
    && (p.Fetching? ==> p.job in jobs && p.token in issued)
    && (p.HasSnap() ==> SnapInv(jobs, issued, p.Snap()))
    && (p.Holding? || p.Running? || p.Written? || p.Deferring? ==> p.Snap().attempt <= cfg.maxAttempts)
    && (p.Deferring? ==> p.snap.attempt < cfg.maxAttempts && p.error.retryable)
    && (p.Failing? && p.error.retryable ==>
          p.snap.attempt == cfg.maxAttempts || !Carries(jobs, p.snap.jobId, TokenOf(p.snap)))
  }

  // ---------- first claims ----------

  /** A claimed job has its place in the list of first claims. */
  ghost predicate Ranked(job: Job, led: Ledger, firstClaims: seq<FirstClaim>) {
    job.attempt > 0 ==> led.rank < |firstClaims| && firstClaims[led.rank].job == job.jobId
  }

  /** An entry belongs to a claimed job, and every job then in the table with an earlier
      creation time had been claimed before. */
  ghost predicate InOrder(jobs: Table, ledgers: map<JobId, Ledger>, i: nat, c: FirstClaim) {
    && c.job in jobs && c.job in ledgers
    && jobs[c.job].attempt > 0 && ledgers[c.job].rank == i
    && c.present <= jobs.Keys
    && forall a | a in c.present && a in jobs && a in ledgers && jobs[a].createdAt < jobs[c.job].createdAt ::
         jobs[a].attempt > 0 && ledgers[a].rank < i
  }

  ghost predicate FifoInv(jobs: Table, ledgers: map<JobId, Ledger>, firstClaims: seq<FirstClaim>)
    requires jobs.Keys == ledgers.Keys
  {
    && (forall j | j in jobs :: Ranked(jobs[j], ledgers[j], firstClaims))
    && (forall i | 0 <= i < |firstClaims| :: InOrder(jobs, ledgers, i, firstClaims[i]))
  }

  // ---------- failure counts ----------

  function FailedRows(jobs: Table, code: string): set<JobId> {
    set j | j in jobs && jobs[j].status.Failed? && jobs[j].error.Some? && jobs[j].error.value.code == code
  }

  /** The code a worker has failed a job with but not counted yet. */
  function Owed(p: Phase): multiset<string> {
    if p.Counting? then multiset{p.code} else multiset{}
  }

  function Pending(workers: seq<Phase>): multiset<string> {
    if workers == [] then multiset{}
    else Pending(workers[..|workers| - 1]) + Owed(workers[|workers| - 1])
  }

  ghost predicate MetricsInv(w: World) {
    && (forall c :: CountOf(w.counts, c) + SumOf(w.ticks, c) == w.counted[c])
    && (forall c :: w.counted[c] + Pending(w.workers)[c] + w.lost[c] == |FailedRows(w.jobs, c)| + w.refused[c])
  }

  // ---------- no lease is lost when nothing is reclaimed ----------

  ghost predicate NoReclaims(ledgers: map<JobId, Ledger>) {
    forall j | j in ledgers :: Reclaims(ledgers[j].ends) == 0
  }

  ghost predicate OwnsLease(jobs: Table, issued: map<Token, Lease>, i: nat, p: Phase) {
    && (p.Fetching? ==> Carries(jobs, p.job, p.token) && jobs[p.job].status.Claimed?
                        && p.token in issued && issued[p.token].worker == i)
    && (p.HasSnap() ==>
          && p.Snap().leaseToken.Some?
          && Carries(jobs, p.Snap().jobId, TokenOf(p.Snap()))
          && TokenOf(p.Snap()) in issued && issued[TokenOf(p.Snap())].worker == i
          && (p.Holding? ==> jobs[p.snap.jobId].status.Claimed?)
          && (p.Running? || p.Written? ==> jobs[p.Snap().jobId].status.Processing?))
  }

  ghost predicate NoLossInv(w: World) {
    NoReclaims(w.ledgers) ==>
      && w.refused == multiset{}
      && forall i | 0 <= i < |w.workers| :: OwnsLease(w.jobs, w.issued, i, w.workers[i])
  }

  // ---------- the whole invariant ----------

  ghost predicate Inv(cfg: Config, w: World) {
    && WellKeyed(w.jobs)
    && RowsInv(cfg, w.jobs, w.ledgers)
    && TokenInv(w.jobs, w.issued)
    && (forall i | 0 <= i < |w.workers| :: PhaseInv(cfg, w.jobs, w.issued, w.workers[i]))
    && FifoInv(w.jobs, w.ledgers, w.firstClaims)
    && MetricsInv(w)
    && NoLossInv(w)
  }

  // ---------- rows: one lemma per statement ----------

  lemma ClaimKeepsRow(cfg: Config, job: Job, led: Ledger, token: Token, g: Grant, rank: nat)
    requires RowInv(cfg, job, led) && Eligible(job, g.at)
    ensures RowInv(cfg, job.(status := Claimed, leaseToken := Some(token), leaseExpiresAt := Some(g.expires),
                             attempt := job.attempt + 1),
                   led.(claims := led.claims + [g], rank := rank))
  {
  }

  lemma StartKeepsRow(cfg: Config, job: Job, led: Ledger, now: Instant)
    requires RowInv(cfg, job, led) && job.status.Claimed? && job.attempt <= cfg.maxAttempts
    ensures RowInv(cfg, job.(status := Processing, startedAt := Some(now)),
                   led.(starts := led.starts + [job.attempt]))
  {
  }

  lemma DoneKeepsRow(cfg: Config, job: Job, led: Ledger, path: Path, now: Instant)
    requires RowInv(cfg, job, led) && job.status.Processing?
    ensures RowInv(cfg, job.(status := Done, finishedAt := Some(now), transcriptPath := Some(path),
                             leaseToken := None, leaseExpiresAt := None),
                   led.(ends := led.ends + [Completed]))
  {
    assert (led.ends + [Completed])[..|led.ends|] == led.ends;
  }

  lemma FailedKeepsRow(cfg: Config, job: Job, led: Ledger, error: JobError, now: Instant)
    requires RowInv(cfg, job, led) && job.status.IsActive()
    requires error.retryable ==> job.attempt == cfg.maxAttempts
    ensures RowInv(cfg, job.(status := JobStatus.Failed, finishedAt := Some(now), error := Some(error),
                             leaseToken := None, leaseExpiresAt := None),
                   led.(ends := led.ends + [GaveUp]))
  {
    assert (led.ends + [GaveUp])[..|led.ends|] == led.ends;
  }

  lemma DeferKeepsRow(cfg: Config, job: Job, led: Ledger, at: Instant)
    requires RowInv(cfg, job, led) && job.status.IsActive() && job.attempt < cfg.maxAttempts
    requires IsInstant(at + cfg.retryBackoffSeconds * SECOND)
    ensures RowInv(cfg, job.(status := Queued, leaseToken := None, leaseExpiresAt := None,
                             nextRetryAt := Some(at + cfg.retryBackoffSeconds * SECOND)),
                   led.(ends := led.ends + [Deferred(at)]))
  {
    var ends := led.ends + [Deferred(at)];
    assert ends[..|led.ends|] == led.ends;
    assert Reclaims(ends) == Reclaims(led.ends);
    var job' := job.(status := Queued, leaseToken := None, leaseExpiresAt := None,
                     nextRetryAt := Some(at + cfg.retryBackoffSeconds * SECOND));
    assert Timed(cfg, job', led.(ends := ends)) by { hide Reclaims, StartsBounded, Accounted; }
  }

  lemma ReclaimKeepsRow(cfg: Config, job: Job, led: Ledger, now: Instant)
    requires RowInv(cfg, job, led) && Expired(job, now)
    ensures RowInv(cfg, Released(job), led.(ends := led.ends + [Reclaimed(now)]))
  {
    hide Accounted, Timed, StartsBounded, WithinBudget, Reclaims;
    var end := Reclaimed(now);
    ReclaimAccounted(cfg, job, led, now);
    ReclaimTimed(cfg, job, led, now);
    ReclaimWithinBudget(cfg, job, led, now);
    assert StartsBounded(cfg, Released(job), led.(ends := led.ends + [end])) by {
      ReclaimKeepsStarts(cfg, job, led, end);
    }
  }

  lemma ReclaimKeepsStarts(cfg: Config, job: Job, led: Ledger, end: LeaseEnd)
    requires StartsBounded(cfg, job, led)
    ensures StartsBounded(cfg, Released(job), led.(ends := led.ends + [end]))
  {
  }

  lemma ReclaimAccounted(cfg: Config, job: Job, led: Ledger, now: Instant)
    requires Accounted(job, led) && job.status.IsActive()
    ensures Accounted(Released(job), led.(ends := led.ends + [Reclaimed(now)]))
  {
  }

  lemma ReclaimTimed(cfg: Config, job: Job, led: Ledger, now: Instant)
    requires Accounted(job, led) && Timed(cfg, job, led) && Expired(job, now)
    ensures Timed(cfg, Released(job), led.(ends := led.ends + [Reclaimed(now)]))
  {
  }

  lemma ReclaimWithinBudget(cfg: Config, job: Job, led: Ledger, now: Instant)
    requires WithinBudget(cfg, job, led) && job.status.IsActive()
    ensures WithinBudget(cfg, Released(job), led.(ends := led.ends + [Reclaimed(now)]))
  {
    assert (led.ends + [Reclaimed(now)])[..|led.ends|] == led.ends;
  }

  // ---------- the table over one step ----------

  /** A row moved on under its current lease, or lost the lease: all but Submit and the claim do this. */
  ghost predicate RowMoves(job: Job, job': Job) {
    && job'.jobId == job.jobId
    && job'.createdAt == job.createdAt
    && job'.attempt == job.attempt
    && (job'.leaseToken == job.leaseToken || job'.leaseToken.None?)
  }

  ghost predicate TableMoves(w: World, w': World)
    requires w.jobs.Keys == w.ledgers.Keys
  {
    && w'.jobs.Keys == w.jobs.Keys == w'.ledgers.Keys
    && (forall j | j in w.jobs :: RowMoves(w.jobs[j], w'.jobs[j]) && w'.ledgers[j].rank == w.ledgers[j].rank)
    && w'.issued == w.issued
    && w'.firstClaims == w.firstClaims
  }

  lemma StartMovesTheTable(cfg: Config, w: World, e: Event)
    requires Enabled(cfg, w, e) && e.MarkProcessing?
    requires w.jobs.Keys == w.ledgers.Keys
    ensures TableMoves(w, Step(cfg, w, e))
  {
  }

  lemma DoneMovesTheTable(cfg: Config, w: World, e: Event)
    requires Enabled(cfg, w, e) && e.MarkDone?
    requires w.jobs.Keys == w.ledgers.Keys
    ensures TableMoves(w, Step(cfg, w, e))
  {
  }

  lemma DeferMovesTheTable(cfg: Config, w: World, e: Event)
    requires Enabled(cfg, w, e) && e.DeferRetry?
    requires w.jobs.Keys == w.ledgers.Keys
    ensures TableMoves(w, Step(cfg, w, e))
  {
  }

  lemma FailMovesTheTable(cfg: Config, w: World, e: Event)
    requires Enabled(cfg, w, e) && e.MarkFailed?
    requires w.jobs.Keys == w.ledgers.Keys
    ensures TableMoves(w, Step(cfg, w, e))
  {
  }

  lemma MostStepsMoveTheTable(cfg: Config, w: World, e: Event)
    requires Enabled(cfg, w, e) && !e.Submit? && !e.ClaimUpdate?
    requires w.jobs.Keys == w.ledgers.Keys
    ensures TableMoves(w, Step(cfg, w, e))
  {
    if e.MarkProcessing? {
      StartMovesTheTable(cfg, w, e);
    } else if e.MarkDone? {
      DoneMovesTheTable(cfg, w, e);
    } else if e.DeferRetry? {
      DeferMovesTheTable(cfg, w, e);
    } else if e.MarkFailed? {
      FailMovesTheTable(cfg, w, e);
    }
  }

  lemma MovesKeepTokens(w: World, w': World)
    requires w.jobs.Keys == w.ledgers.Keys && TableMoves(w, w') && TokenInv(w.jobs, w.issued)
    ensures TokenInv(w'.jobs, w'.issued)
  {
  }

  lemma MovesKeepFifo(w: World, w': World)
    requires w.jobs.Keys == w.ledgers.Keys && TableMoves(w, w') && FifoInv(w.jobs, w.ledgers, w.firstClaims)
    ensures FifoInv(w'.jobs, w'.ledgers, w'.firstClaims)
  {
    forall i | 0 <= i < |w.firstClaims| ensures InOrder(w'.jobs, w'.ledgers, i, w.firstClaims[i]) {
      assert InOrder(w.jobs, w.ledgers, i, w.firstClaims[i]);
    }
  }

  lemma MovesKeepPhase(cfg: Config, w: World, w': World, p: Phase)
    requires w.jobs.Keys == w.ledgers.Keys && TableMoves(w, w') && PhaseInv(cfg, w.jobs, w.issued, p)
    ensures PhaseInv(cfg, w'.jobs, w'.issued, p)
  {
  }

  // ---------- the claim ----------

  lemma ClaimKeepsTokens(t: Table, issued: map<Token, Lease>, j: JobId, token: Token, expires: Instant, i: nat)
    requires TokenInv(t, issued) && j in t && token !in issued
    ensures TokenInv(Claim(t, j, token, expires), issued[token := Lease(j, t[j].attempt + 1, i)])
  {
  }

  lemma ClaimKeepsPhase(cfg: Config, t: Table, issued: map<Token, Lease>, j: JobId, token: Token, expires: Instant,
                        i: nat, p: Phase)
    requires PhaseInv(cfg, t, issued, p) && j in t && token !in issued
    ensures PhaseInv(cfg, Claim(t, j, token, expires), issued[token := Lease(j, t[j].attempt + 1, i)], p)
  {
  }

  /** The pick precedes every other eligible row, so no job created earlier is still unclaimed. */
  lemma PickIsOldest(t: Table, now: Instant, j: JobId, a: JobId)
    requires IsPick(t, now, j) && t[j].nextRetryAt.None?
    requires a in t && t[a].createdAt < t[j].createdAt
    ensures !(t[a].status.Queued? && t[a].nextRetryAt.None?)
  {
    assert t[a].status.Queued? && t[a].nextRetryAt.None? ==> Eligible(t[a], now) && Precedes(t[a], t[j]);
  }

  lemma ClaimKeepsEntry(t: Table, ledgers: map<JobId, Ledger>, i: nat, c: FirstClaim,
                        j: JobId, token: Token, g: Grant, rank: nat)
    requires t.Keys == ledgers.Keys && InOrder(t, ledgers, i, c) && j in t
    ensures InOrder(Claim(t, j, token, g.expires), Granted(ledgers, j, g, t[j].attempt == 0, rank), i, c)
  {
  }

  lemma ClaimMakesEntry(t: Table, ledgers: map<JobId, Ledger>, fc: seq<FirstClaim>,
                        j: JobId, token: Token, g: Grant)
    requires WellKeyed(t) && t.Keys == ledgers.Keys && IsPick(t, g.at, j) && t[j].attempt == 0
    requires forall a | a in t :: Ranked(t[a], ledgers[a], fc)
    requires forall a | a in t && t[a].attempt == 0 :: t[a].status.Queued? && t[a].nextRetryAt.None?
    ensures InOrder(Claim(t, j, token, g.expires), Granted(ledgers, j, g, true, |fc|), |fc|, FirstClaim(j, t.Keys))
  {
    hide Precedes;
    forall a | a in t && t[a].createdAt < t[j].createdAt ensures t[a].attempt > 0 && ledgers[a].rank < |fc| {
      PickIsOldest(t, g.at, j, a);
      assert Ranked(t[a], ledgers[a], fc);
    }
  }

  lemma ClaimKeepsFifo(t: Table, ledgers: map<JobId, Ledger>, fc: seq<FirstClaim>,
                       j: JobId, token: Token, g: Grant)
    requires WellKeyed(t) && t.Keys == ledgers.Keys && FifoInv(t, ledgers, fc) && IsPick(t, g.at, j)
    requires forall a | a in t && t[a].attempt == 0 :: t[a].status.Queued? && t[a].nextRetryAt.None?
    ensures var first := t[j].attempt == 0;
      var ledgers' := Granted(ledgers, j, g, first, |fc|);
      && t.Keys == ledgers'.Keys
      && FifoInv(Claim(t, j, token, g.expires), ledgers',
                 if first then fc + [FirstClaim(j, t.Keys)] else fc)
  {
    hide Precedes, InOrder;
    var first := t[j].attempt == 0;
    var t', ledgers' := Claim(t, j, token, g.expires), Granted(ledgers, j, g, first, |fc|);
    var fc' := if first then fc + [FirstClaim(j, t.Keys)] else fc;
    forall k | k in t' ensures Ranked(t'[k], ledgers'[k], fc') {
      assert Ranked(t[k], ledgers[k], fc);
    }
    forall i | 0 <= i < |fc'| ensures InOrder(t', ledgers', i, fc'[i]) {
      if i < |fc| {
        ClaimKeepsEntry(t, ledgers, i, fc[i], j, token, g, |fc|);
      } else {
        ClaimMakesEntry(t, ledgers, fc, j, token, g);
      }
    }
  }

  // ---------- rows over one step ----------

  /** Holding the token means the worker's copy has the row's attempt number. */
  lemma SnapIsCurrent(jobs: Table, issued: map<Token, Lease>, snap: Job)
    requires TokenInv(jobs, issued) && SnapInv(jobs, issued, snap)
    requires Carries(jobs, snap.jobId, TokenOf(snap))
    ensures snap.attempt == jobs[snap.jobId].attempt
  {
  }

  lemma MarkProcessingKeepsRows(cfg: Config, w: World, e: Event)
    requires Inv(cfg, w) && Enabled(cfg, w, e) && e.MarkProcessing?
    ensures RowsInv(cfg, Step(cfg, w, e).jobs, Step(cfg, w, e).ledgers)
  {
    hide RowInv, TokenInv, FifoInv, MetricsInv, NoLossInv;
    var snap := w.workers[e.worker].snap;
    assert PhaseInv(cfg, w.jobs, w.issued, w.workers[e.worker]);
    if JobTable.MarkProcessing(w.jobs, snap.jobId, TokenOf(snap), e.at).hit {
      SnapIsCurrent(w.jobs, w.issued, snap);
      StartKeepsRow(cfg, w.jobs[snap.jobId], w.ledgers[snap.jobId], e.at);
    }
  }

  lemma MarkDoneKeepsRows(cfg: Config, w: World, e: Event)
    requires Inv(cfg, w) && Enabled(cfg, w, e) && e.MarkDone?
    ensures RowsInv(cfg, Step(cfg, w, e).jobs, Step(cfg, w, e).ledgers)
  {
    hide RowInv, TokenInv, FifoInv, MetricsInv, NoLossInv;
    var j := w.workers[e.worker].snap.jobId;
    if j in w.jobs && w.jobs[j].status.Processing? {
      DoneKeepsRow(cfg, w.jobs[j], w.ledgers[j], TranscriptPath(j), e.at);
    }
  }

  lemma DeferRetryKeepsRows(cfg: Config, w: World, e: Event)
    requires Inv(cfg, w) && Enabled(cfg, w, e) && e.DeferRetry?
    ensures RowsInv(cfg, Step(cfg, w, e).jobs, Step(cfg, w, e).ledgers)
  {
    hide RowInv, TokenInv, FifoInv, MetricsInv, NoLossInv;
    var snap := w.workers[e.worker].snap;
    assert PhaseInv(cfg, w.jobs, w.issued, w.workers[e.worker]);
    if Carries(w.jobs, snap.jobId, TokenOf(snap)) && w.jobs[snap.jobId].status.IsActive() {
      SnapIsCurrent(w.jobs, w.issued, snap);
      DeferKeepsRow(cfg, w.jobs[snap.jobId], w.ledgers[snap.jobId], e.at);
    }
  }

  lemma MarkFailedKeepsRows(cfg: Config, w: World, e: Event)
    requires Inv(cfg, w) && Enabled(cfg, w, e) && e.MarkFailed?
    ensures RowsInv(cfg, Step(cfg, w, e).jobs, Step(cfg, w, e).ledgers)
  {
    hide RowInv, TokenInv, FifoInv, MetricsInv, NoLossInv;
    var snap := w.workers[e.worker].snap;
    assert PhaseInv(cfg, w.jobs, w.issued, w.workers[e.worker]);
    if Carries(w.jobs, snap.jobId, TokenOf(snap)) && w.jobs[snap.jobId].status.IsActive() {
      SnapIsCurrent(w.jobs, w.issued, snap);
      FailedKeepsRow(cfg, w.jobs[snap.jobId], w.ledgers[snap.jobId], w.workers[e.worker].error, e.at);
    }
  }

  lemma ReclaimKeepsRows(cfg: Config, w: World, e: Event)
    requires Inv(cfg, w) && Enabled(cfg, w, e) && e.Reclaim?
    ensures RowsInv(cfg, Step(cfg, w, e).jobs, Step(cfg, w, e).ledgers)
  {
    hide RowInv, TokenInv, FifoInv, MetricsInv, NoLossInv, Expired;
    forall j | j in w.jobs && Expired(w.jobs[j], e.now)
      ensures RowInv(cfg, Released(w.jobs[j]), w.ledgers[j].(ends := w.ledgers[j].ends + [Reclaimed(e.now)]))
    {
      ReclaimKeepsRow(cfg, w.jobs[j], w.ledgers[j], e.now);
    }
  }

  lemma ClaimKeepsRows(cfg: Config, w: World, e: Event)
    requires Inv(cfg, w) && Enabled(cfg, w, e) && e.ClaimUpdate?
    ensures RowsInv(cfg, Step(cfg, w, e).jobs, Step(cfg, w, e).ledgers)
  {
    hide RowInv, TokenInv, FifoInv, MetricsInv, NoLossInv, Precedes;
    var g := Grant(e.now, e.granted + cfg.leaseTtlSeconds * SECOND);
    ClaimKeepsRow(cfg, w.jobs[e.job], w.ledgers[e.job], e.token, g, Step(cfg, w, e).ledgers[e.job].rank);
  }

  lemma QuietSteps(cfg: Config, w: World, e: Event)
    requires Enabled(cfg, w, e)
    requires !e.ClaimUpdate? && !e.MarkProcessing? && !e.MarkDone? && !e.DeferRetry? && !e.MarkFailed?
             && !e.Reclaim? && !e.Submit?
    ensures Step(cfg, w, e).jobs == w.jobs && Step(cfg, w, e).ledgers == w.ledgers
  {
  }

  lemma RowsStep(cfg: Config, w: World, e: Event)
    requires Inv(cfg, w) && Enabled(cfg, w, e)
    ensures RowsInv(cfg, Step(cfg, w, e).jobs, Step(cfg, w, e).ledgers)
  {
    hide RowsInv, Step, Enabled;
    match e
    case ClaimUpdate(_, _, _, _, _) => ClaimKeepsRows(cfg, w, e);
    case MarkProcessing(_, _) => MarkProcessingKeepsRows(cfg, w, e);
    case MarkDone(_, _) => MarkDoneKeepsRows(cfg, w, e);
    case DeferRetry(_, _) => DeferRetryKeepsRows(cfg, w, e);
    case MarkFailed(_, _) => MarkFailedKeepsRows(cfg, w, e);
    case Reclaim(_) => ReclaimKeepsRows(cfg, w, e);
    case Submit(_, _, _) => SubmitKeepsRows(cfg, w, e);
    case _ => QuietSteps(cfg, w, e);
  }

  lemma SubmitKeepsRows(cfg: Config, w: World, e: Event)
    requires Inv(cfg, w) && Enabled(cfg, w, e) && e.Submit?
    ensures RowsInv(cfg, Step(cfg, w, e).jobs, Step(cfg, w, e).ledgers)
  {
    hide TokenInv, FifoInv, MetricsInv, NoLossInv;
    assert RowInv(cfg, NewJob(e.job, e.url, e.at), Ledger([], [], [], 0));
  }

  // ---------- workers over one step ----------

  lemma TokenMeansActive(cfg: Config, w: World, j: JobId)
    requires RowsInv(cfg, w.jobs, w.ledgers) && j in w.jobs
    ensures w.jobs[j].leaseToken.Some? <==> w.jobs[j].status.IsActive()
  {
    assert RowInv(cfg, w.jobs[j], w.ledgers[j]);
  }

  lemma ClaimantKeepsPhase(cfg: Config, w: World, e: Event, i: nat)
    requires Inv(cfg, w) && Enabled(cfg, w, e) && i < |w.workers|
    requires (e.ClaimUpdate? || e.ClaimGet?) && e.worker == i
    ensures PhaseInv(cfg, Step(cfg, w, e).jobs, Step(cfg, w, e).issued, Step(cfg, w, e).workers[i])
  {
    hide RowInv, FifoInv, MetricsInv, NoLossInv, IsPick;
    assert PhaseInv(cfg, w.jobs, w.issued, w.workers[i]);
  }

  lemma ActorKeepsPhase(cfg: Config, w: World, e: Event, i: nat)
    requires Inv(cfg, w) && Enabled(cfg, w, e) && e.ByWorker(i) && i < |w.workers|
    ensures PhaseInv(cfg, Step(cfg, w, e).jobs, Step(cfg, w, e).issued, Step(cfg, w, e).workers[i])
  {
    hide RowInv, FifoInv, MetricsInv, NoLossInv, IsPick;
    if e.ClaimUpdate? || e.ClaimGet? {
      ClaimantKeepsPhase(cfg, w, e, i);
      return;
    }
    assert PhaseInv(cfg, w.jobs, w.issued, w.workers[i]);
    if e.DeferRetry? && Carries(w.jobs, w.workers[i].snap.jobId, TokenOf(w.workers[i].snap)) {
      TokenMeansActive(cfg, w, w.workers[i].snap.jobId);
    }
  }

  lemma NewRowKeepsFifo(t: Table, ledgers: map<JobId, Ledger>, fc: seq<FirstClaim>, job: Job)
    requires t.Keys == ledgers.Keys && job.jobId !in t && job.attempt == 0 && FifoInv(t, ledgers, fc)
    ensures FifoInv(t[job.jobId := job], ledgers[job.jobId := Ledger([], [], [], 0)], fc)
  {
    var t', ledgers' := t[job.jobId := job], ledgers[job.jobId := Ledger([], [], [], 0)];
    forall k | 0 <= k < |fc| ensures InOrder(t', ledgers', k, fc[k]) {
      assert InOrder(t, ledgers, k, fc[k]);
    }
  }

  lemma NewRowKeepsTheRest(cfg: Config, t: Table, issued: map<Token, Lease>, ledgers: map<JobId, Ledger>,
                           fc: seq<FirstClaim>, job: Job, p: Phase)
    requires t.Keys == ledgers.Keys && job.jobId !in t && job.leaseToken.None? && job.attempt == 0
    requires TokenInv(t, issued) && FifoInv(t, ledgers, fc) && PhaseInv(cfg, t, issued, p)
    ensures var t', ledgers' := t[job.jobId := job], ledgers[job.jobId := Ledger([], [], [], 0)];
      TokenInv(t', issued) && FifoInv(t', ledgers', fc) && PhaseInv(cfg, t', issued, p)
  {
    hide FifoInv;
    NewRowKeepsFifo(t, ledgers, fc, job);
  }

  lemma SubmitKeepsTheRest(cfg: Config, w: World, e: Event)
    requires Inv(cfg, w) && Enabled(cfg, w, e) && e.Submit?
    ensures var w' := Step(cfg, w, e);
      && TokenInv(w'.jobs, w'.issued)
      && (forall i | 0 <= i < |w.workers| :: PhaseInv(cfg, w'.jobs, w'.issued, w.workers[i]))
      && w'.jobs.Keys == w'.ledgers.Keys && FifoInv(w'.jobs, w'.ledgers, w'.firstClaims)
  {
    hide RowInv, MetricsInv, NoLossInv, FifoInv, TokenInv, PhaseInv;
    var job := NewJob(e.job, e.url, e.at);
    NewRowKeepsTheRest(cfg, w.jobs, w.issued, w.ledgers, w.firstClaims, job, Idle) by {
      assert PhaseInv(cfg, w.jobs, w.issued, Idle) by { IdleIsFine(cfg, w.jobs, w.issued); }
    }
    forall i | 0 <= i < |w.workers| ensures PhaseInv(cfg, Step(cfg, w, e).jobs, w.issued, w.workers[i]) {
      NewRowKeepsTheRest(cfg, w.jobs, w.issued, w.ledgers, w.firstClaims, job, w.workers[i]);
    }
  }

  lemma IdleIsFine(cfg: Config, t: Table, issued: map<Token, Lease>)
    ensures PhaseInv(cfg, t, issued, Idle)
  {
  }

  lemma UnclaimedRowsAreFresh(cfg: Config, w: World)
    requires RowsInv(cfg, w.jobs, w.ledgers)
    ensures forall a | a in w.jobs && w.jobs[a].attempt == 0 :: w.jobs[a].status.Queued? && w.jobs[a].nextRetryAt.None?
  {
    forall a | a in w.jobs && w.jobs[a].attempt == 0 ensures w.jobs[a].status.Queued? && w.jobs[a].nextRetryAt.None? {
      assert RowInv(cfg, w.jobs[a], w.ledgers[a]);
    }
  }

  lemma ClaimKeepsTheRest(cfg: Config, w: World, e: Event)
    requires Inv(cfg, w) && Enabled(cfg, w, e) && e.ClaimUpdate?
    ensures var w' := Step(cfg, w, e);
      && TokenInv(w'.jobs, w'.issued)
      && (forall i | 0 <= i < |w.workers| :: PhaseInv(cfg, w'.jobs, w'.issued, w.workers[i]))
      && w'.jobs.Keys == w'.ledgers.Keys && FifoInv(w'.jobs, w'.ledgers, w'.firstClaims)
  {
    hide RowsInv, MetricsInv, NoLossInv, Precedes, TokenInv, PhaseInv, FifoInv;
    var g := Grant(e.now, e.granted + cfg.leaseTtlSeconds * SECOND);
    assert w.jobs.Keys == w.ledgers.Keys by { UnfoldRows(cfg, w); }
    UnclaimedRowsAreFresh(cfg, w);
    ClaimKeepsTokens(w.jobs, w.issued, e.job, e.token, g.expires, e.worker);
    ClaimKeepsFifo(w.jobs, w.ledgers, w.firstClaims, e.job, e.token, g);
    forall i | 0 <= i < |w.workers|
      ensures PhaseInv(cfg, Step(cfg, w, e).jobs, Step(cfg, w, e).issued, w.workers[i])
    {
      ClaimKeepsPhase(cfg, w.jobs, w.issued, e.job, e.token, g.expires, e.worker, w.workers[i]);
    }
  }

  lemma UnfoldRows(cfg: Config, w: World)
    requires RowsInv(cfg, w.jobs, w.ledgers)
    ensures w.jobs.Keys == w.ledgers.Keys
  {
  }

  lemma OthersKeepPhase(cfg: Config, w: World, e: Event, i: nat)
    requires Enabled(cfg, w, e) && !e.ByWorker(i) && i < |w.workers|
    ensures |Step(cfg, w, e).workers| == |w.workers| && Step(cfg, w, e).workers[i] == w.workers[i]
  {
  }

  lemma RestStep(cfg: Config, w: World, e: Event)
    requires Inv(cfg, w) && Enabled(cfg, w, e)
    ensures var w' := Step(cfg, w, e);
      && TokenInv(w'.jobs, w'.issued)
      && (forall i | 0 <= i < |w.workers| :: PhaseInv(cfg, w'.jobs, w'.issued, w.workers[i]))
      && w'.jobs.Keys == w'.ledgers.Keys && FifoInv(w'.jobs, w'.ledgers, w'.firstClaims)
  {
    hide RowsInv, MetricsInv, NoLossInv, TokenInv, PhaseInv, FifoInv, Step, Enabled;
    if e.Submit? {
      SubmitKeepsTheRest(cfg, w, e);
    } else if e.ClaimUpdate? {
      ClaimKeepsTheRest(cfg, w, e);
    } else {
      var w' := Step(cfg, w, e);
      UnfoldRows(cfg, w);
      MostStepsMoveTheTable(cfg, w, e);
      MovesKeepTokens(w, w');
      MovesKeepFifo(w, w');
      forall i | 0 <= i < |w.workers| ensures PhaseInv(cfg, w'.jobs, w'.issued, w.workers[i]) {
        MovesKeepPhase(cfg, w, w', w.workers[i]);
      }
    }
  }

  lemma PhasesStep(cfg: Config, w: World, e: Event)
    requires Inv(cfg, w) && Enabled(cfg, w, e)
    ensures var w' := Step(cfg, w, e);
      && |w'.workers| == |w.workers|
      && forall i | 0 <= i < |w'.workers| :: PhaseInv(cfg, w'.jobs, w'.issued, w'.workers[i])
  {
    hide Inv, PhaseInv, Step, Enabled, Event.ByWorker;
    var w' := Step(cfg, w, e);
    RestStep(cfg, w, e);
    SameNumberOfWorkers(cfg, w, e);
    forall i | 0 <= i < |w.workers| ensures PhaseInv(cfg, w'.jobs, w'.issued, w'.workers[i]) {
      if e.ByWorker(i) {
        ActorKeepsPhase(cfg, w, e, i);
      } else {
        OthersKeepPhase(cfg, w, e, i);
      }
    }
  }

  lemma SameNumberOfWorkers(cfg: Config, w: World, e: Event)
    requires Enabled(cfg, w, e)
    ensures |Step(cfg, w, e).workers| == |w.workers|
  {
  }

  lemma KeyedStep(cfg: Config, w: World, e: Event)
    requires WellKeyed(w.jobs) && Enabled(cfg, w, e)
    ensures WellKeyed(Step(cfg, w, e).jobs)
    ensures w.jobs.Keys <= Step(cfg, w, e).jobs.Keys
  {
    if e.MarkProcessing? || e.MarkDone? || e.DeferRetry? || e.MarkFailed? {
      LeaseStepKeyed(cfg, w, e);
    }
  }

  lemma LeaseStepKeyed(cfg: Config, w: World, e: Event)
    requires WellKeyed(w.jobs) && Enabled(cfg, w, e)
    requires e.MarkProcessing? || e.MarkDone? || e.DeferRetry? || e.MarkFailed?
    ensures WellKeyed(Step(cfg, w, e).jobs) && Step(cfg, w, e).jobs.Keys == w.jobs.Keys
  {
  }

  /** A row never takes back a token it stopped carrying. */
  lemma NoRevival(cfg: Config, w: World, e: Event, j: JobId, token: Token)
    requires Inv(cfg, w) && Enabled(cfg, w, e)
    requires token in w.issued && !Carries(w.jobs, j, token)
    ensures !Carries(Step(cfg, w, e).jobs, j, token)
    ensures token in Step(cfg, w, e).issued
  {
    hide RowInv, TokenInv, PhaseInv, FifoInv, MetricsInv, NoLossInv;
    if !e.Submit? && !e.ClaimUpdate? {
      hide Step, Enabled;
      MostStepsMoveTheTable(cfg, w, e);
    }
  }

  // ---------- failure counts over one step ----------

  lemma PendingLast(workers: seq<Phase>)
    requires workers != []
    ensures Pending(workers) == Pending(workers[..|workers| - 1]) + Owed(workers[|workers| - 1])
  {
  }

  lemma {:induction false} PendingUpdate(workers: seq<Phase>, i: nat, p: Phase)
    requires i < |workers|
    ensures Pending(workers[i := p]) + Owed(workers[i]) == Pending(workers) + Owed(p)
  {
    hide Pending, Owed;
    var n := |workers| - 1;
    PendingLast(workers);
    PendingLast(workers[i := p]);
    if i == n {
      assert workers[i := p][..n] == workers[..n];
    } else {
      assert workers[i := p][..n] == workers[..n][i := p];
      PendingUpdate(workers[..n], i, p);
      var old', new', o := Pending(workers[..n]), Pending(workers[..n][i := p]), Owed(workers[n]);
      assert Pending(workers) == old' + o && Pending(workers[i := p]) == new' + o;
      assert (new' + o) + Owed(workers[i]) == (new' + Owed(workers[i])) + o;
      assert (old' + o) + Owed(p) == (old' + Owed(p)) + o;
    }
  }

  function FailureCode(job: Job): Option<string> {
    if job.status.Failed? && job.error.Some? then Some(job.error.value.code) else None
  }

  /** Only mark_failed turns a row FAILED, and nothing turns it back or changes its error. */
  lemma FailuresStay(cfg: Config, w: World, e: Event, j: JobId)
    requires Inv(cfg, w) && Enabled(cfg, w, e) && !e.MarkFailed? && j in Step(cfg, w, e).jobs
    ensures FailureCode(Step(cfg, w, e).jobs[j]) == if j in w.jobs then FailureCode(w.jobs[j]) else None
  {
    hide Inv;
    assert j in w.jobs ==> (w.jobs[j].status.Failed? <==> w.jobs[j].error.Some?) by { ErrorMeansFailed(cfg, w); }
    if e.MarkProcessing? || e.MarkDone? || e.DeferRetry? {
      LeaseStepsKeepFailures(cfg, w, e, j);
    }
  }

  lemma LeaseStepsKeepFailures(cfg: Config, w: World, e: Event, j: JobId)
    requires Enabled(cfg, w, e) && (e.MarkProcessing? || e.MarkDone? || e.DeferRetry?) && j in Step(cfg, w, e).jobs
    requires j in w.jobs ==> (w.jobs[j].status.Failed? <==> w.jobs[j].error.Some?)
    ensures j in w.jobs && FailureCode(Step(cfg, w, e).jobs[j]) == FailureCode(w.jobs[j])
  {
  }

  lemma ErrorMeansFailed(cfg: Config, w: World)
    requires Inv(cfg, w)
    ensures forall j | j in w.jobs :: w.jobs[j].status.Failed? <==> w.jobs[j].error.Some?
  {
    forall j | j in w.jobs ensures w.jobs[j].status.Failed? <==> w.jobs[j].error.Some? {
      assert RowInv(cfg, w.jobs[j], w.ledgers[j]);
    }
  }

  lemma SameFailedRows(t: Table, t': Table, code: string)
    requires t.Keys <= t'.Keys
    requires forall j | j in t' :: FailureCode(t'[j]) == if j in t then FailureCode(t[j]) else None
    ensures FailedRows(t', code) == FailedRows(t, code)
  {
    assert forall j | j in t' :: (j in FailedRows(t', code) <==> FailureCode(t'[j]) == Some(code));
    assert forall j | j in t :: (j in FailedRows(t, code) <==> FailureCode(t[j]) == Some(code));
  }

  /** mark_failed adds one FAILED row or one refused call, and its worker owes one count. */
  lemma MarkFailedIsOwed(cfg: Config, w: World, e: Event, code: string)
    requires Inv(cfg, w) && Enabled(cfg, w, e) && e.MarkFailed?
    ensures var w' := Step(cfg, w, e);
      |FailedRows(w'.jobs, code)| + w'.refused[code]
      == |FailedRows(w.jobs, code)| + w.refused[code] + (if w.workers[e.worker].error.code == code then 1 else 0)
  {
    hide Inv, FailedRows, JobTable.MarkFailed;
    var snap, error := w.workers[e.worker].snap, w.workers[e.worker].error;
    FailedRowsAfter(w.jobs, snap.jobId, TokenOf(snap), error, e.at, code);
  }

  /** One mark_failed adds the row to those failed with its code, if it hits. */
  lemma FailedRowsAfter(t: Table, j: JobId, token: Token, error: JobError, at: Instant, code: string)
    ensures var u := JobTable.MarkFailed(t, j, token, error, at);
      |FailedRows(u.table, code)| == |FailedRows(t, code)| + (if u.hit && error.code == code then 1 else 0)
  {
    var u := JobTable.MarkFailed(t, j, token, error, at);
    if u.hit && error.code == code {
      assert j !in FailedRows(t, code);
      assert FailedRows(u.table, code) == FailedRows(t, code) + {j};
    } else {
      assert FailedRows(u.table, code) == FailedRows(t, code);
    }
  }

  lemma FailedRowsStep(cfg: Config, w: World, e: Event, c: string)
    requires Inv(cfg, w) && Enabled(cfg, w, e)
    ensures var w' := Step(cfg, w, e);
      |FailedRows(w'.jobs, c)| + w'.refused[c] == |FailedRows(w.jobs, c)| + w.refused[c]
        + (if e.MarkFailed? && w.workers[e.worker].error.code == c then 1 else 0)
  {
    hide RowsInv, TokenInv, PhaseInv, FifoInv, MetricsInv, NoLossInv, FailedRows, FailureCode;
    var w' := Step(cfg, w, e);
    if e.MarkFailed? {
      MarkFailedIsOwed(cfg, w, e, c);
    } else {
      KeyedStep(cfg, w, e);
      forall j | j in w'.jobs ensures FailureCode(w'.jobs[j]) == if j in w.jobs then FailureCode(w.jobs[j]) else None {
        FailuresStay(cfg, w, e, j);
      }
      SameFailedRows(w.jobs, w'.jobs, c);
      OnlyMarkFailedIsRefused(cfg, w, e);
    }
  }

  lemma OnlyMarkFailedIsRefused(cfg: Config, w: World, e: Event)
    requires Enabled(cfg, w, e) && !e.MarkFailed?
    ensures Step(cfg, w, e).refused == w.refused
  {
  }

  lemma MetricsStep(cfg: Config, w: World, e: Event)
    requires Inv(cfg, w) && Enabled(cfg, w, e)
    ensures MetricsInv(Step(cfg, w, e))
  {
    hide Step, Enabled, FailedRows, RowsInv, TokenInv, PhaseInv, FifoInv, NoLossInv;
    var w' := Step(cfg, w, e);
    forall c ensures w'.counted[c] + Pending(w'.workers)[c] + w'.lost[c] == |FailedRows(w'.jobs, c)| + w'.refused[c] {
      FailedRowsStep(cfg, w, e, c);
      OwedStep(cfg, w, e, c);
    }
    forall c ensures CountOf(w'.counts, c) + SumOf(w'.ticks, c) == w'.counted[c] {
      CountsStep(cfg, w, e, c);
    }
  }

  lemma CountsStep(cfg: Config, w: World, e: Event, c: string)
    requires Enabled(cfg, w, e) && CountOf(w.counts, c) + SumOf(w.ticks, c) == w.counted[c]
    ensures CountOf(Step(cfg, w, e).counts, c) + SumOf(Step(cfg, w, e).ticks, c) == Step(cfg, w, e).counted[c]
  {
    if e.CounterTick? {
      assert (w.ticks + [w.counts])[..|w.ticks|] == w.ticks;
    }
  }

  predicate HasActor(e: Event) {
    !e.Tick? && !e.Submit? && !e.Reclaim? && !e.CounterTick?
  }

  lemma ActorReplaced(cfg: Config, w: World, e: Event)
    requires Enabled(cfg, w, e)
    ensures !HasActor(e) ==> Step(cfg, w, e).workers == w.workers
    ensures HasActor(e) ==>
      e.worker < |w.workers| && |Step(cfg, w, e).workers| == |w.workers|
      && Step(cfg, w, e).workers == w.workers[e.worker := Step(cfg, w, e).workers[e.worker]]
  {
  }

  lemma ActorOwes(cfg: Config, w: World, e: Event, c: string)
    requires Enabled(cfg, w, e) && HasActor(e) && e.worker < |w.workers| == |Step(cfg, w, e).workers|
    ensures var w' := Step(cfg, w, e);
      w'.counted[c] + w'.lost[c] + Owed(w'.workers[e.worker])[c]
      == w.counted[c] + w.lost[c] + Owed(w.workers[e.worker])[c]
         + (if e.MarkFailed? && w.workers[e.worker].error.code == c then 1 else 0)
  {
    hide Step, Enabled;
    if e.MarkFailed? {
      FailureIsOwed(cfg, w, e);
    } else if e.CountError? || e.Crash? {
      if e.Crash? {
        DebtIsLost(cfg, w, e);
      } else {
        DebtIsSettled(cfg, w, e);
      }
      var w' := Step(cfg, w, e);
      assert (w'.counted + w'.lost)[c] == (w.counted + w.lost + Owed(w.workers[e.worker]))[c];
    } else {
      MostActorsOweNothing(cfg, w, e);
    }
  }

  lemma FailureIsOwed(cfg: Config, w: World, e: Event)
    requires Enabled(cfg, w, e) && e.MarkFailed? && e.worker < |w.workers|
    ensures var w' := Step(cfg, w, e);
      && w'.counted == w.counted && w'.lost == w.lost && |w'.workers| == |w.workers| && w.workers[e.worker].Failing?
      && Owed(w.workers[e.worker]) == multiset{}
      && Owed(w'.workers[e.worker]) == multiset{w.workers[e.worker].error.code}
  {
  }

  lemma DebtIsLost(cfg: Config, w: World, e: Event)
    requires Enabled(cfg, w, e) && e.Crash? && e.worker < |w.workers|
    ensures var w' := Step(cfg, w, e);
      && |w'.workers| == |w.workers| && Owed(w'.workers[e.worker]) == multiset{}
      && w'.counted + w'.lost == w.counted + w.lost + Owed(w.workers[e.worker])
  {
  }

  lemma DebtIsSettled(cfg: Config, w: World, e: Event)
    requires Enabled(cfg, w, e) && e.CountError? && e.worker < |w.workers|
    ensures var w' := Step(cfg, w, e);
      && |w'.workers| == |w.workers| && Owed(w'.workers[e.worker]) == multiset{}
      && w'.counted + w'.lost == w.counted + w.lost + Owed(w.workers[e.worker])
  {
  }

  lemma MostActorsOweNothing(cfg: Config, w: World, e: Event)
    requires Enabled(cfg, w, e) && HasActor(e) && e.worker < |w.workers| == |Step(cfg, w, e).workers|
    requires !e.MarkFailed? && !e.CountError? && !e.Crash?
    ensures var w' := Step(cfg, w, e);
      w'.counted == w.counted && w'.lost == w.lost
      && !w.workers[e.worker].Counting? && !w'.workers[e.worker].Counting?
  {
  }

  lemma OwedStep(cfg: Config, w: World, e: Event, c: string)
    requires Enabled(cfg, w, e)
    ensures var w' := Step(cfg, w, e);
      w'.counted[c] + Pending(w'.workers)[c] + w'.lost[c]
      == w.counted[c] + Pending(w.workers)[c] + w.lost[c]
         + (if e.MarkFailed? && w.workers[e.worker].error.code == c then 1 else 0)
  {
    ActorReplaced(cfg, w, e);
    if HasActor(e) {
      hide Step, Owed;
      var w' := Step(cfg, w, e);
      ActorOwes(cfg, w, e, c);
      PendingUpdate(w.workers, e.worker, w'.workers[e.worker]);
      assert (Pending(w'.workers) + Owed(w.workers[e.worker]))[c]
          == (Pending(w.workers) + Owed(w'.workers[e.worker]))[c];
    }
  }

  // ---------- leases over one step, when nothing is reclaimed ----------

  lemma HistoryGrows(cfg: Config, w: World, e: Event)
    requires Inv(cfg, w) && Enabled(cfg, w, e) && NoReclaims(Step(cfg, w, e).ledgers)
    ensures NoReclaims(w.ledgers)
  {
    hide RowInv, TokenInv, PhaseInv, FifoInv, MetricsInv, NoLossInv;
    var w' := Step(cfg, w, e);
    forall j | j in w.ledgers ensures Reclaims(w.ledgers[j].ends) == 0 {
      EndsGrow(cfg, w, e, j);
    }
  }

  /** One event ends at most one lease of a job, and rewrites no end. */
  lemma EndsPrefix(cfg: Config, w: World, e: Event, j: JobId)
    requires Enabled(cfg, w, e) && j in w.ledgers && w.jobs.Keys == w.ledgers.Keys && !e.Reclaim?
    ensures j in Step(cfg, w, e).ledgers
    ensures var ends, ends' := w.ledgers[j].ends, Step(cfg, w, e).ledgers[j].ends;
      ends' == ends || (|ends'| == |ends| + 1 && ends' == ends + [ends'[|ends|]])
  {
  }

  lemma ReclaimedEnds(cfg: Config, w: World, e: Event, j: JobId)
    requires Enabled(cfg, w, e) && j in w.ledgers && w.jobs.Keys == w.ledgers.Keys && e.Reclaim?
    ensures j in Step(cfg, w, e).ledgers
    ensures Step(cfg, w, e).ledgers[j].ends
         == w.ledgers[j].ends + (if Expired(w.jobs[j], e.now) then [Reclaimed(e.now)] else [])
  {
  }

  lemma EndsGrow(cfg: Config, w: World, e: Event, j: JobId)
    requires Enabled(cfg, w, e) && j in w.ledgers && w.jobs.Keys == w.ledgers.Keys
    ensures j in Step(cfg, w, e).ledgers
    ensures Reclaims(w.ledgers[j].ends) <= Reclaims(Step(cfg, w, e).ledgers[j].ends)
    ensures e.Reclaim? && Expired(w.jobs[j], e.now) ==> 0 < Reclaims(Step(cfg, w, e).ledgers[j].ends)
  {
    hide Step, Enabled;
    if e.Reclaim? {
      ReclaimedEnds(cfg, w, e, j);
    } else {
      EndsPrefix(cfg, w, e, j);
    }
    var ends, ends' := w.ledgers[j].ends, Step(cfg, w, e).ledgers[j].ends;
    if ends' != ends {
      assert ends'[..|ends|] == ends;
    }
  }

  lemma ForeignTokenMisses(cfg: Config, w: World, e: Event, j: JobId, token: Token)
    requires Enabled(cfg, w, e) && (e.MarkProcessing? || e.MarkDone? || e.DeferRetry? || e.MarkFailed?)
    requires Carries(w.jobs, j, token) && TokenOf(w.workers[e.worker].Snap()) != token
    ensures j in Step(cfg, w, e).jobs && Step(cfg, w, e).jobs[j] == w.jobs[j]
  {
  }

  lemma NobodyElseTouches(cfg: Config, w: World, e: Event, j: JobId)
    requires Enabled(cfg, w, e) && !(e.MarkProcessing? || e.MarkDone? || e.DeferRetry? || e.MarkFailed?)
    requires j in w.jobs && !w.jobs[j].status.Queued? && !(e.Reclaim? && Expired(w.jobs[j], e.now))
    ensures j in Step(cfg, w, e).jobs && Step(cfg, w, e).jobs[j] == w.jobs[j]
  {
  }

  /** Without reclaims, only its owner touches a leased row. */
  lemma OwnedRowUntouched(cfg: Config, w: World, e: Event, j: JobId, token: Token, k: nat)
    requires Inv(cfg, w) && NoReclaims(w.ledgers)
    requires Enabled(cfg, w, e) && NoReclaims(Step(cfg, w, e).ledgers) && !e.ByWorker(k)
    requires Carries(w.jobs, j, token) && token in w.issued && w.issued[token].worker == k
    ensures j in Step(cfg, w, e).jobs && Step(cfg, w, e).jobs[j] == w.jobs[j]
  {
    hide RowInv, TokenInv, PhaseInv, FifoInv, MetricsInv, Reclaims, Step;
    TokenMeansActive(cfg, w, j);
    EndsGrow(cfg, w, e, j);
    if e.MarkProcessing? || e.MarkDone? || e.DeferRetry? || e.MarkFailed? {
      assert OwnsLease(w.jobs, w.issued, e.worker, w.workers[e.worker]);
      ForeignTokenMisses(cfg, w, e, j, token);
    } else {
      NobodyElseTouches(cfg, w, e, j);
    }
  }

  lemma OthersKeepLease(cfg: Config, w: World, e: Event, k: nat)
    requires Inv(cfg, w) && NoReclaims(w.ledgers) && k < |w.workers|
    requires Enabled(cfg, w, e) && NoReclaims(Step(cfg, w, e).ledgers) && !e.ByWorker(k)
    ensures OwnsLease(Step(cfg, w, e).jobs, Step(cfg, w, e).issued, k, w.workers[k])
  {
    hide RowInv, TokenInv, PhaseInv, FifoInv, MetricsInv, Step, Enabled, NoReclaims;
    var p := w.workers[k];
    assert OwnsLease(w.jobs, w.issued, k, p);
    IssuedGrows(cfg, w, e);
    if p.Fetching? {
      OwnedRowUntouched(cfg, w, e, p.job, p.token, k);
    } else if p.HasSnap() {
      OwnedRowUntouched(cfg, w, e, p.Snap().jobId, TokenOf(p.Snap()), k);
    }
  }

  lemma IssuedGrows(cfg: Config, w: World, e: Event)
    requires Enabled(cfg, w, e)
    ensures forall t | t in w.issued :: t in Step(cfg, w, e).issued && Step(cfg, w, e).issued[t] == w.issued[t]
  {
  }

  lemma ClaimantKeepsLease(cfg: Config, w: World, e: Event, i: nat)
    requires Inv(cfg, w) && NoReclaims(w.ledgers) && (e.ClaimUpdate? || e.ClaimGet?)
    requires Enabled(cfg, w, e) && e.ByWorker(i) && i < |w.workers| == |Step(cfg, w, e).workers|
    ensures OwnsLease(Step(cfg, w, e).jobs, Step(cfg, w, e).issued, i, Step(cfg, w, e).workers[i])
    ensures Step(cfg, w, e).refused == w.refused
  {
    hide TokenInv, PhaseInv, FifoInv, MetricsInv, IsPick, RowInv;
    assert OwnsLease(w.jobs, w.issued, i, w.workers[i]);
  }

  lemma ActorKeepsLease(cfg: Config, w: World, e: Event, i: nat)
    requires Inv(cfg, w) && NoReclaims(w.ledgers)
    requires Enabled(cfg, w, e) && e.ByWorker(i) && i < |w.workers| == |Step(cfg, w, e).workers|
    ensures OwnsLease(Step(cfg, w, e).jobs, Step(cfg, w, e).issued, i, Step(cfg, w, e).workers[i])
    ensures Step(cfg, w, e).refused == w.refused
  {
    hide TokenInv, PhaseInv, FifoInv, MetricsInv, IsPick, RowInv;
    if e.ClaimUpdate? || e.ClaimGet? {
      ClaimantKeepsLease(cfg, w, e, i);
      return;
    }
    assert OwnsLease(w.jobs, w.issued, i, w.workers[i]);
    if w.workers[i].HasSnap() {
      TokenMeansActive(cfg, w, w.workers[i].Snap().jobId);
    }
  }

  lemma NoLossStep(cfg: Config, w: World, e: Event)
    requires Inv(cfg, w) && Enabled(cfg, w, e)
    ensures NoLossInv(Step(cfg, w, e))
  {
    var w' := Step(cfg, w, e);
    if NoReclaims(w'.ledgers) {
      hide Step, Enabled, OwnsLease, NoReclaims, RowsInv, TokenInv, PhaseInv, FifoInv, MetricsInv;
      HistoryGrows(cfg, w, e);
      SameNumberOfWorkers(cfg, w, e);
      forall k | 0 <= k < |w'.workers| ensures OwnsLease(w'.jobs, w'.issued, k, w'.workers[k]) {
        if e.ByWorker(k) {
          ActorKeepsLease(cfg, w, e, k);
        } else {
          OthersKeepPhase(cfg, w, e, k);
          OthersKeepLease(cfg, w, e, k);
        }
      }
      if HasActor(e) {
        ActorReplaced(cfg, w, e);
        ActorKeepsLease(cfg, w, e, e.worker);
      } else {
        OnlyMarkFailedIsRefused(cfg, w, e);
      }
    }
  }

  /** Every event keeps the invariant. */
  lemma InvStep(cfg: Config, w: World, e: Event)
    requires Inv(cfg, w) && Enabled(cfg, w, e)
    ensures Inv(cfg, Step(cfg, w, e))
  {
    assert WellKeyed(w.jobs);
    hide Inv, Step, Enabled, RowsInv, TokenInv, PhaseInv, FifoInv, MetricsInv, NoLossInv;
    KeyedStep(cfg, w, e);
    RowsStep(cfg, w, e);
    RestStep(cfg, w, e);
    PhasesStep(cfg, w, e);
    MetricsStep(cfg, w, e);
    NoLossStep(cfg, w, e);
    Assemble(cfg, Step(cfg, w, e));
  }

  lemma Assemble(cfg: Config, w: World)
    requires WellKeyed(w.jobs) && RowsInv(cfg, w.jobs, w.ledgers) && TokenInv(w.jobs, w.issued)
    requires forall i | 0 <= i < |w.workers| :: PhaseInv(cfg, w.jobs, w.issued, w.workers[i])
    requires w.jobs.Keys == w.ledgers.Keys && FifoInv(w.jobs, w.ledgers, w.firstClaims)
    requires MetricsInv(w) && NoLossInv(w)
    ensures Inv(cfg, w)
  {
  }

  lemma {:induction false} NothingPending(n: nat)
    ensures Pending(seq(n, _ => Idle)) == multiset{}
  {
    if n > 0 {
      NothingPending(n - 1);
      assert seq(n, _ => Idle)[..n - 1] == seq(n - 1, _ => Idle);
    }
  }

  lemma InvInitial(cfg: Config, n: nat, clock: Instant)
    ensures Inv(cfg, Initial(n, clock))
  {
    hide MetricsInv, NoLossInv, FifoInv, PhaseInv, TokenInv, RowsInv;
    MetricsInitial(n, clock);
    NoLossInitial(n, clock);
    RowsInitial(cfg, n, clock);
    forall i | 0 <= i < n ensures PhaseInv(cfg, map[], map[], Initial(n, clock).workers[i]) {
      IdleIsFine(cfg, map[], map[]);
    }
  }

  lemma MetricsInitial(n: nat, clock: Instant)
    ensures MetricsInv(Initial(n, clock))
  {
    NothingPending(n);
    assert forall c :: FailedRows(Initial(n, clock).jobs, c) == {};
  }

  lemma NoLossInitial(n: nat, clock: Instant)
    ensures NoLossInv(Initial(n, clock))
  {
  }

  lemma RowsInitial(cfg: Config, n: nat, clock: Instant)
    ensures var w := Initial(n, clock);
      && RowsInv(cfg, w.jobs, w.ledgers)
      && TokenInv(w.jobs, w.issued)
      && FifoInv(w.jobs, w.ledgers, w.firstClaims)
  {
  }
}
