/** How many claims a run can make: an amortised bound over every interleaving. */
module Draining {
  import opened Wrappers
  import opened Timestamps
  import opened Jobs
  import opened JobTable
  import opened Queue
  import opened QueueInvariant
  import opened Service

  /** Claims a job can still absorb without being reclaimed. */
  function Remaining(cfg: Config, job: Job): nat {
    var left := cfg.maxAttempts - job.attempt;
    if job.status.Queued? then (if left > 1 then left else 1)
    else if job.status.IsActive() then (if left > 0 then left else 0)
    else 0
  }

  ghost function Total(cfg: Config, t: Table): nat
    decreases |t|
  {
    if t == map[] then 0
    else
      var j :| j in t;
      Smaller(t, j);
      Remaining(cfg, t[j]) + Total(cfg, t - {j})
  }

  lemma Smaller(t: Table, j: JobId)
    requires j in t
    ensures |t - {j}| < |t|
  {
    assert (t - {j}).Keys == t.Keys - {j};
  }

  lemma {:induction false} TotalWithout(cfg: Config, t: Table, j: JobId)
    requires j in t
    ensures Total(cfg, t) == Remaining(cfg, t[j]) + Total(cfg, t - {j})
    decreases |t|
  {
    var k :| k in t && Total(cfg, t) == Remaining(cfg, t[k]) + Total(cfg, t - {k});
    if k != j {
      Smaller(t, k);
      Smaller(t, j);
      TotalWithout(cfg, t - {k}, j);
      TotalWithout(cfg, t - {j}, k);
      assert t - {k} - {j} == t - {j} - {k};
    }
  }

  lemma TotalOfInsert(cfg: Config, t: Table, j: JobId, job: Job)
    requires j !in t
    ensures Total(cfg, t[j := job]) == Total(cfg, t) + Remaining(cfg, job)
  {
    TotalWithout(cfg, t[j := job], j);
    assert t[j := job] - {j} == t;
  }

  lemma TotalOfUpdate(cfg: Config, t: Table, j: JobId, job: Job)
    requires j in t
    ensures Total(cfg, t[j := job]) + Remaining(cfg, t[j]) == Total(cfg, t) + Remaining(cfg, job)
  {
    TotalWithout(cfg, t[j := job], j);
    TotalWithout(cfg, t, j);
    assert t[j := job] - {j} == t - {j};
  }

  /** If only the jobs in `raised` gain, and each gains at most one, the total gains at most |raised|. */
  lemma {:induction false} TotalRaisedBy(cfg: Config, t: Table, t': Table, raised: set<JobId>)
    requires t.Keys == t'.Keys && raised <= t.Keys
    requires forall j | j in t :: Remaining(cfg, t'[j]) <= Remaining(cfg, t[j]) + (if j in raised then 1 else 0)
    ensures Total(cfg, t') <= Total(cfg, t) + |raised|
    decreases |t|
  {
    if t != map[] {
      var j :| j in t;
      TotalWithout(cfg, t, j);
      TotalWithout(cfg, t', j);
      Smaller(t, j);
      TotalRaisedBy(cfg, t - {j}, t' - {j}, raised - {j});
    } else {
      assert t' == map[];
    }
  }

  // ---------- one event ----------

  lemma ClaimUsesOne(cfg: Config, job: Job, token: Token, expires: Instant)
    requires job.status.Queued?
    ensures Remaining(cfg, job.(status := Claimed, leaseToken := Some(token), leaseExpiresAt := Some(expires),
                                attempt := job.attempt + 1)) + 1 == Remaining(cfg, job)
  {
  }

  lemma DeferGainsNothing(cfg: Config, w: World, e: Event, j: JobId)
    requires Inv(cfg, w) && Enabled(cfg, w, e) && e.DeferRetry? && j in w.jobs
    ensures j in Step(cfg, w, e).jobs && Remaining(cfg, Step(cfg, w, e).jobs[j]) <= Remaining(cfg, w.jobs[j])
  {
    hide RowsInv, FifoInv, MetricsInv, NoLossInv, TokenInv;
    var snap := w.workers[e.worker].snap;
    assert PhaseInv(cfg, w.jobs, w.issued, w.workers[e.worker]);
    if Carries(w.jobs, snap.jobId, TokenOf(snap)) {
      SnapIsCurrent(w.jobs, w.issued, snap);
    }
  }

  lemma RunAndEndGainNothing(cfg: Config, w: World, e: Event, j: JobId)
    requires Enabled(cfg, w, e) && (e.MarkProcessing? || e.MarkDone? || e.MarkFailed?) && j in w.jobs
    ensures j in Step(cfg, w, e).jobs && Remaining(cfg, Step(cfg, w, e).jobs[j]) <= Remaining(cfg, w.jobs[j])
  {
  }

  /** No other event gives a job more to do; a reclaim gives each job it returns at most one. */
  lemma RowGains(cfg: Config, w: World, e: Event, j: JobId)
    requires Inv(cfg, w) && Enabled(cfg, w, e) && !e.ClaimUpdate? && !e.Submit? && j in w.jobs
    ensures j in Step(cfg, w, e).jobs
    ensures Remaining(cfg, Step(cfg, w, e).jobs[j])
         <= Remaining(cfg, w.jobs[j]) + (if e.Reclaim? && Expired(w.jobs[j], e.now) then 1 else 0)
  {
    hide Inv;
    if e.DeferRetry? {
      DeferGainsNothing(cfg, w, e, j);
    } else if e.MarkProcessing? || e.MarkDone? || e.MarkFailed? {
      RunAndEndGainNothing(cfg, w, e, j);
    } else if !e.Reclaim? {
      QuietSteps(cfg, w, e);
    }
  }

  function ClaimsOf(e: ServiceEvent): nat {
    if e.QueueEvent? && e.e.ClaimUpdate? then 1 else 0
  }

  /** What an event may add to the work: a submission one job's allowance, a reclaim one per job returned. */
  ghost function Supplied(cfg: Config, s: State, e: ServiceEvent): nat {
    if e.QueueEvent? && e.e.Submit? then Allowance(cfg)
    else if e.QueueEvent? && e.e.Reclaim? then |ExpiredJobs(s.w.jobs, e.e.now)|
    else 0
  }

  lemma QueueEventPays(cfg: Config, s: State, e: Event)
    requires SInv(cfg, s) && Enabled(cfg, s.w, e)
    ensures ClaimsOf(QueueEvent(e)) + Total(cfg, Step(cfg, s.w, e).jobs)
         <= Total(cfg, s.w.jobs) + Supplied(cfg, s, QueueEvent(e))
  {
    hide Inv, FileInv, AckInv, ResponseInv, Total, Remaining, Precedes;
    var t, t' := s.w.jobs, Step(cfg, s.w, e).jobs;
    if e.Submit? {
      TotalOfInsert(cfg, t, e.job, NewJob(e.job, e.url, e.at));
      NewJobHasAllowance(cfg, e.job, e.url, e.at);
    } else if e.ClaimUpdate? {
      TotalOfUpdate(cfg, t, e.job, t'[e.job]);
      ClaimUsesOne(cfg, t[e.job], e.token, e.granted + cfg.leaseTtlSeconds * SECOND);
    } else {
      hide Step, Enabled;
      MostKeysStay(cfg, s.w, e);
      var raised := if e.Reclaim? then ExpiredJobs(t, e.now) else {};
      forall j | j in t ensures Remaining(cfg, t'[j]) <= Remaining(cfg, t[j]) + (if j in raised then 1 else 0) {
        RowGains(cfg, s.w, e, j);
      }
      TotalRaisedBy(cfg, t, t', raised);
    }
  }

  lemma MostKeysStay(cfg: Config, w: World, e: Event)
    requires Enabled(cfg, w, e) && !e.Submit? && !e.ClaimUpdate?
    ensures Step(cfg, w, e).jobs.Keys == w.jobs.Keys
  {
  }

  lemma NewJobHasAllowance(cfg: Config, j: JobId, url: string, at: Instant)
    ensures Remaining(cfg, NewJob(j, url, at)) == Allowance(cfg)
  {
  }

  lemma AckPays(cfg: Config, s: State, a: AckId, at: Instant, fails: bool)
    requires SInv(cfg, s) && AckReady(s, a, at)
    ensures Total(cfg, AckNext(s, a, at, fails).w.jobs) <= Total(cfg, s.w.jobs)
  {
    hide SInv, AckNext, Total, AckReady;
    AckEffects(cfg, s, a, at, fails);
    TotalRaisedBy(cfg, s.w.jobs, AckNext(s, a, at, fails).w.jobs, {});
  }

  lemma EventPays(cfg: Config, s: State, e: ServiceEvent)
    requires SInv(cfg, s) && SEnabled(cfg, s, e)
    ensures ClaimsOf(e) + Total(cfg, SStep(cfg, s, e).w.jobs) <= Total(cfg, s.w.jobs) + Supplied(cfg, s, e)
  {
    hide SInv, Total, AckNext, Step, Enabled, AckReady;
    match e
    case QueueEvent(q) => QueueEventPays(cfg, s, q);
    case AckStep(a, at, fails) => AckPays(cfg, s, a, at, fails);
    case _ =>
  }

  // ---------- whole runs ----------

  function Claims(es: seq<ServiceEvent>): nat {
    if es == [] then 0 else Claims(es[..|es| - 1]) + ClaimsOf(es[|es| - 1])
  }

  ghost function Supply(cfg: Config, s: State, es: seq<ServiceEvent>): nat
    requires Run(cfg, s, es).Some?
  {
    if es == [] then 0
    else
      var n := |es| - 1;
      Supply(cfg, s, es[..n]) + Supplied(cfg, Run(cfg, s, es[..n]).value, es[n])
  }

  /** In every run the claims made, plus the work left at the end, are at most the work there was at
      the start, plus max(1, max_attempts) per submission, plus one per reclaimed job. */
  lemma {:induction false} ClaimsAreBounded(cfg: Config, s: State, es: seq<ServiceEvent>)
    requires SInv(cfg, s) && Run(cfg, s, es).Some?
    ensures Claims(es) + Total(cfg, Run(cfg, s, es).value.w.jobs) <= Total(cfg, s.w.jobs) + Supply(cfg, s, es)
  {
    if es != [] {
      hide SInv, SStep, SEnabled, Total, Supplied;
      var n := |es| - 1;
      ClaimsAreBounded(cfg, s, es[..n]);
      RunKeepsInv(cfg, s, es[..n]);
      EventPays(cfg, Run(cfg, s, es[..n]).value, es[n]);
    }
  }

  lemma {:induction false} NoSupply(cfg: Config, s: State, es: seq<ServiceEvent>)
    requires Run(cfg, s, es).Some?
    requires forall e | e in es :: !(e.QueueEvent? && (e.e.Submit? || e.e.Reclaim?))
    ensures Supply(cfg, s, es) == 0
  {
    if es != [] {
      hide SStep, SEnabled;
      NoSupply(cfg, s, es[..|es| - 1]);
      assert es[|es| - 1] in es;
    }
  }

  lemma TerminalNeedsNone(cfg: Config, job: Job)
    requires job.status.IsTerminal()
    ensures Remaining(cfg, job) == 0
  {
  }

  lemma {:induction false} TotalOfQueued(cfg: Config, t: Table)
    requires forall j | j in t :: t[j].status.Queued? || t[j].status.IsTerminal()
    ensures Total(cfg, t) == Total(cfg, map j | j in t && t[j].status.Queued? :: t[j])
    decreases |t|
  {
    hide Remaining;
    var q := map j | j in t && t[j].status.Queued? :: t[j];
    if t == map[] {
      assert q == map[];
    } else {
      var j :| j in t;
      var q' := map k | k in t - {j} && (t - {j})[k].status.Queued? :: (t - {j})[k];
      TotalWithout(cfg, t, j);
      Smaller(t, j);
      TotalOfQueued(cfg, t - {j});
      if t[j].status.Queued? {
        TotalWithout(cfg, q, j);
        assert q - {j} == q';
      } else {
        TerminalNeedsNone(cfg, t[j]);
        assert q == q';
      }
    }
  }

  /** The budget in numbers: what a queued job, a submit and a reclaim add. */
  lemma BudgetInFields(cfg: Config, t: Table, j: JobId, s: State, e: Event)
    requires j in t && t[j].status == Queued
    ensures Total(cfg, map[]) == 0
    ensures Total(cfg, t)
         == Total(cfg, t - {j}) + (if cfg.maxAttempts - t[j].attempt > 1 then cfg.maxAttempts - t[j].attempt else 1)
    ensures Supplied(cfg, s, QueueEvent(e)) ==
      (if e.Submit? then (if cfg.maxAttempts > 1 then cfg.maxAttempts else 1)
       else if e.Reclaim? then
         |set k | k in s.w.jobs && (s.w.jobs[k].status == Claimed || s.w.jobs[k].status == Processing)
                  && s.w.jobs[k].leaseExpiresAt.Some? && s.w.jobs[k].leaseExpiresAt.value < e.now|
       else 0)
  {
    TotalWithout(cfg, t, j);
    if e.Reclaim? {
      assert ExpiredJobs(s.w.jobs, e.now)
          == set k | k in s.w.jobs && (s.w.jobs[k].status == Claimed || s.w.jobs[k].status == Processing)
                     && s.w.jobs[k].leaseExpiresAt.Some? && s.w.jobs[k].leaseExpiresAt.value < e.now;
    }
  }

  /** Draining terminates: with no lease lost and nothing submitted, any number of workers make, for
      any pipeline outcomes, at most the sum over the queued jobs of max(1, max_attempts - attempt)
      claims, and process_one returns True only after a claim. */
  lemma DrainingTerminates(cfg: Config, s: State, es: seq<ServiceEvent>)
    requires Reachable(cfg, s) && Run(cfg, s, es).Some?
    requires forall j | j in s.w.jobs :: s.w.jobs[j].status.Queued? || s.w.jobs[j].status.IsTerminal()
    requires forall e | e in es :: !(e.QueueEvent? && (e.e.Submit? || e.e.Reclaim?))
    ensures Claims(es) <= Total(cfg, map j | j in s.w.jobs && s.w.jobs[j].status.Queued? :: s.w.jobs[j])
  {
    ReachableInv(cfg, s);
    hide SInv, Total, Run;
    ClaimsAreBounded(cfg, s, es);
    NoSupply(cfg, s, es);
    TotalOfQueued(cfg, s.w.jobs);
  }
}
