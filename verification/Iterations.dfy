/** What one iteration of a worker does, and what many of them add up to: the specification of
    process_one in terms of the steps it takes. */
module Iterations {
  import opened Wrappers
  import opened Timestamps
  import opened Jobs
  import opened JobTable
  import opened Queue
  import opened Service
  import opened Runtime
  import Draining

  /** What the pipeline did: returned a text, raised PipelineError, or raised something else. */
  datatype PipelineResult =
    | Transcript
    | PipelineError(code: string, message: string, retryable: bool)
    | OtherError(description: string)

  /** Whether process_one returned, or an exception ended the iteration. */
  datatype Iteration = Returned(processed: bool) | Raised

  /** How write_text ended: done, OSError with the file there, or OSError before the file was there. */
  datatype Write = Complete | Torn | NotOpened

  /** Where a database exception or a cancellation can end an iteration. */
  datatype Place = InClaim | InGet | InMarkProcessing | InMarkDone | InDefer | InMarkFailed | AfterMarkFailed

  /** What the surroundings answer during one iteration. */
  datatype Answers = Answers(result: PipelineResult, write: Write, dies: Place -> bool)

  /** datetime + timedelta raises OverflowError outside the years 1 to 9999. */
  predicate OutOfRange(t: Instant, seconds: int) {
    !IsInstant(t + seconds * SECOND)
  }

  /** One turn of the claim loop: the token it draws and the answers it gets. */
  datatype Turn = Turn(token: Token, answers: Answers)

  function ClaimsIn(es: seq<Event>): nat {
    if es == [] then 0
    else ClaimsIn(es[..|es| - 1]) + (if es[|es| - 1].ClaimUpdate? then 1 else 0)
  }

  lemma {:induction false} ClaimsInAppend(es: seq<Event>, more: seq<Event>)
    ensures ClaimsIn(es + more) == ClaimsIn(es) + ClaimsIn(more)
  {
    if more == [] {
      assert es + more == es;
    } else {
      var n := |more| - 1;
      ClaimsInAppend(es, more[..n]);
      assert (es + more)[..|es + more| - 1] == es + more[..n];
    }
  }

  lemma {:induction false} NoClaimsIn(es: seq<Event>)
    requires forall e | e in es :: !e.ClaimUpdate?
    ensures ClaimsIn(es) == 0
  {
    if es != [] {
      assert es[|es| - 1] in es;
      NoClaimsIn(es[..|es| - 1]);
    }
  }

  lemma {:induction false} OwnClaimsAreClaims(es: seq<ServiceEvent>, i: nat)
    ensures ClaimsIn(Own(es, i)) <= Draining.Claims(es)
  {
    if es != [] {
      var n := |es| - 1;
      OwnClaimsAreClaims(es[..n], i);
      var e := es[n];
      ClaimsInAppend(Own(es[..n], i), if e.QueueEvent? && e.e.ByWorker(i) then [e.e] else []);
    }
  }

  // ---------- what one iteration does, step by step ----------

  /** The error of a failed pipeline: a PipelineError's own, anything else transient and retryable. */
  predicate ErrorOf(error: JobError, result: PipelineResult) {
    match result
    case Transcript => false
    case PipelineError(code, message, retryable) =>
      error.code == code && error.message == message && error.retryable == retryable
    case OtherError(description) =>
      error.code == "PIPELINE_TRANSIENT" && error.message == description && error.retryable
  }

  /** mark_failed, then the counter. */
  predicate FailShape(es: seq<Event>, dies: Place -> bool, since: Instant, raised: bool) {
    if dies(InMarkFailed) then raised && |es| == 1 && es[0].Crash?
    else
      && |es| == 2 && es[0].MarkFailed? && since <= es[0].at
      && (if dies(AfterMarkFailed) then raised && es[1].Crash? else !raised && es[1].CountError?)
  }

  /** A retryable error below max_attempts: defer, and fail only if the defer was refused. Else: fail. */
  predicate HandleShape(es: seq<Event>, job: Job, error: JobError, cfg: Config, dies: Place -> bool,
                        since: Instant, raised: bool) {
    if error.retryable && job.attempt < cfg.maxAttempts then
      if dies(InDefer) then raised && |es| == 1 && es[0].Crash?
      else
        || (raised && |es| == 1 && es[0].Crash?) // the date of the retry is out of range
        || (es != [] && es[0].DeferRetry? && since <= es[0].at
            && (if |es| == 1 then !raised else FailShape(es[1..], dies, since, raised)))
    else FailShape(es, dies, since, raised)
  }

  /** From the moment the pipeline has answered. */
  predicate PipelineShape(es: seq<Event>, job: Job, o: Answers, cfg: Config, since: Instant, raised: bool) {
    if !o.result.Transcript? then
      && es != [] && es[0].PipelineFails? && ErrorOf(es[0].error, o.result)
      && HandleShape(es[1..], job, es[0].error, cfg, o.dies, since, raised)
    else if o.write.Complete? then
      && |es| == 2 && es[0].WriteTranscript?
      && (if o.dies(InMarkDone) then raised && es[1].Crash? else !raised && es[1].MarkDone? && since <= es[1].at)
    else
      raised && |es| == 1 && (if o.write.Torn? then es[0].TornWrite? else es[0].Crash?)
  }

  /** From the moment the job has been fetched, with its lease. */
  predicate HeldShape(es: seq<Event>, job: Job, o: Answers, cfg: Config, since: Instant, raised: bool) {
    if job.attempt > cfg.maxAttempts then FailShape(es, o.dies, since, raised)
    else if o.dies(InMarkProcessing) then raised && |es| == 1 && es[0].Crash?
    else
      && es != [] && es[0].MarkProcessing? && since <= es[0].at
      && (if |es| == 1 then !raised else PipelineShape(es[1..], job, o, cfg, since, raised))
  }

  /** From the moment the claim UPDATE has hit. */
  predicate ClaimedShape(es: seq<Event>, job: Job, o: Answers, cfg: Config, since: Instant, raised: bool) {
    if o.dies(InGet) then raised && |es| == 1 && es[0].Crash?
    else
      && es != [] && es[0].ClaimGet?
      && (if job.leaseToken.None? then raised && |es| == 1
          else HeldShape(es[1..], job, o, cfg, since, raised))
  }

  /** One iteration on the row `job` that claim returned: True after one claim, False after none. */
  predicate IterationOf(es: seq<Event>, job: Job, o: Answers, cfg: Config, since: Instant, r: Iteration) {
    if o.dies(InClaim) then es == [] && r.Raised?
    else if es == [] then r != Returned(true)
    else
      && es[0].ClaimUpdate? && since <= es[0].granted <= es[0].now && r != Returned(false)
      && ClaimedShape(es[1..], job, o, cfg, since, r.Raised?)
  }

  /** The fifth thing done was a defer, and it was not the last. */
  predicate WentOnAfterDefer(es: seq<Event>) {
    |es| > 5 && es[4].DeferRetry?
  }

  /** The worker claimed a job and fetched it, and no more. */
  predicate OnlyFetched(es: seq<Event>) {
    |es| == 2 && es[0].ClaimUpdate? && es[1].ClaimGet?
  }

  // ---------- earlier bounds on the readings ----------

  lemma HandleEarlier(es: seq<Event>, job: Job, error: JobError, cfg: Config, dies: Place -> bool,
                      since: Instant, earlier: Instant, raised: bool)
    requires HandleShape(es, job, error, cfg, dies, since, raised) && earlier <= since
    ensures HandleShape(es, job, error, cfg, dies, earlier, raised)
  {
  }

  lemma PipelineEarlier(es: seq<Event>, job: Job, o: Answers, cfg: Config, since: Instant, earlier: Instant,
                        raised: bool)
    requires PipelineShape(es, job, o, cfg, since, raised) && earlier <= since
    ensures PipelineShape(es, job, o, cfg, earlier, raised)
  {
    hide HandleShape;
    if !o.result.Transcript? {
      HandleEarlier(es[1..], job, es[0].error, cfg, o.dies, since, earlier, raised);
    }
  }

  lemma HeldEarlier(es: seq<Event>, job: Job, o: Answers, cfg: Config, since: Instant, earlier: Instant,
                    raised: bool)
    requires HeldShape(es, job, o, cfg, since, raised) && earlier <= since
    ensures HeldShape(es, job, o, cfg, earlier, raised)
  {
    hide PipelineShape;
    if job.attempt <= cfg.maxAttempts && !o.dies(InMarkProcessing) && |es| > 1 {
      PipelineEarlier(es[1..], job, o, cfg, since, earlier, raised);
    }
  }

  lemma ClaimedEarlier(es: seq<Event>, job: Job, o: Answers, cfg: Config, since: Instant, earlier: Instant,
                       raised: bool)
    requires ClaimedShape(es, job, o, cfg, since, raised) && earlier <= since
    ensures ClaimedShape(es, job, o, cfg, earlier, raised)
  {
    hide HeldShape;
    if !o.dies(InGet) && job.leaseToken.Some? {
      HeldEarlier(es[1..], job, o, cfg, since, earlier, raised);
    }
  }

  lemma IterationEarlier(es: seq<Event>, job: Job, o: Answers, cfg: Config, since: Instant, earlier: Instant,
                         r: Iteration)
    requires IterationOf(es, job, o, cfg, since, r) && earlier <= since
    ensures IterationOf(es, job, o, cfg, earlier, r)
  {
    hide ClaimedShape;
    if es != [] {
      ClaimedEarlier(es[1..], job, o, cfg, since, earlier, r.Raised?);
    }
  }

  // ---------- one claim per iteration ----------

  predicate NoClaim(es: seq<Event>) {
    forall e | e in es :: !e.ClaimUpdate?
  }

  lemma NoClaimAfter(e: Event, es: seq<Event>)
    requires es != [] && es[0] == e && !e.ClaimUpdate? && NoClaim(es[1..])
    ensures NoClaim(es)
  {
    assert es == [e] + es[1..];
  }

  lemma HandleClaimsNothing(es: seq<Event>, job: Job, error: JobError, cfg: Config, dies: Place -> bool,
                            since: Instant, raised: bool)
    requires HandleShape(es, job, error, cfg, dies, since, raised)
    ensures NoClaim(es)
  {
    if |es| > 1 && es[0].DeferRetry? {
      NoClaimAfter(es[0], es);
    }
  }

  lemma PipelineClaimsNothing(es: seq<Event>, job: Job, o: Answers, cfg: Config, since: Instant, raised: bool)
    requires PipelineShape(es, job, o, cfg, since, raised)
    ensures NoClaim(es)
  {
    if !o.result.Transcript? {
      hide HandleShape;
      HandleClaimsNothing(es[1..], job, es[0].error, cfg, o.dies, since, raised);
      NoClaimAfter(es[0], es);
    }
  }

  lemma HeldClaimsNothing(es: seq<Event>, job: Job, o: Answers, cfg: Config, since: Instant, raised: bool)
    requires HeldShape(es, job, o, cfg, since, raised)
    ensures NoClaim(es)
  {
    hide PipelineShape;
    if job.attempt <= cfg.maxAttempts && !o.dies(InMarkProcessing) && |es| > 1 {
      PipelineClaimsNothing(es[1..], job, o, cfg, since, raised);
      NoClaimAfter(es[0], es);
    }
  }

  lemma ClaimedClaimsNothing(es: seq<Event>, job: Job, o: Answers, cfg: Config, since: Instant, raised: bool)
    requires ClaimedShape(es, job, o, cfg, since, raised)
    ensures NoClaim(es)
  {
    hide HeldShape;
    if !o.dies(InGet) && job.leaseToken.Some? {
      HeldClaimsNothing(es[1..], job, o, cfg, since, raised);
      NoClaimAfter(es[0], es);
    }
  }

  lemma ClaimsOfIteration(es: seq<Event>, job: Job, o: Answers, cfg: Config, since: Instant, r: Iteration)
    requires IterationOf(es, job, o, cfg, since, r)
    ensures ClaimsIn(es) == if es == [] then 0 else 1
    ensures (r == Returned(true) ==> es != []) && (r == Returned(false) ==> es == [])
  {
    hide ClaimedShape;
    if es != [] {
      var first: seq<Event> := [es[0]];
      assert es == first + es[1..] && first[..0] == [];
      ClaimsInAppend(first, es[1..]);
      ClaimedClaimsNothing(es[1..], job, o, cfg, since, r.Raised?);
      NoClaimsIn(es[1..]);
    }
  }

  // ---------- many turns ----------

  /** All the turns' events, one after the other. */
  function Flat(parts: seq<seq<Event>>): seq<Event> {
    if parts == [] then [] else Flat(parts[..|parts| - 1]) + parts[|parts| - 1]
  }

  lemma FlatAppend(parts: seq<seq<Event>>, es: seq<Event>)
    ensures Flat(parts + [es]) == Flat(parts) + es
  {
    assert (parts + [es])[..|parts|] == parts;
  }

  /** Turns that returned True. */
  function Busy(results: seq<Iteration>): nat {
    if results == [] then 0
    else Busy(results[..|results| - 1]) + (if results[|results| - 1] == Returned(true) then 1 else 0)
  }

  /** Turns that an exception ended. */
  function Broken(results: seq<Iteration>): nat {
    if results == [] then 0
    else Broken(results[..|results| - 1]) + (if results[|results| - 1].Raised? then 1 else 0)
  }

  /** Every turn was one iteration, on the row that its claim returned. */
  ghost predicate TurnsTaken(parts: seq<seq<Event>>, jobs: seq<Job>, turns: seq<Turn>, cfg: Config, since: Instant,
                             results: seq<Iteration>) {
    && |parts| == |jobs| == |results| <= |turns|
    && forall k | 0 <= k < |results| :: IterationOf(parts[k], jobs[k], turns[k].answers, cfg, since, results[k])
  }

  /** At some reading up to `clock`, adding this many seconds left the years 1 to 9999. */
  ghost predicate OverflowedBy(clock: Instant, seconds: int) {
    exists t: Instant :: t <= clock && OutOfRange(t, seconds)
  }

  /** Why an iteration may raise: a database exception or cancellation, a failing write, or an
      OverflowError for a date out of range. */
  ghost predicate ExcusedBy(cfg: Config, o: Answers, clock: Instant) {
    || (exists p :: o.dies(p))
    || (o.result.Transcript? && !o.write.Complete?)
    || OverflowedBy(clock, cfg.leaseTtlSeconds)
    || OverflowedBy(clock, cfg.retryBackoffSeconds)
  }

  /** Why an iteration that did these things may have raised: with nothing done, before or in its claim;
      else for any stated answer, or because it lost its lease right after the claim. */
  ghost predicate ReasonFor(cfg: Config, es: seq<Event>, o: Answers, clock: Instant) {
    if es == [] then o.dies(InClaim) || OverflowedBy(clock, cfg.leaseTtlSeconds)
    else ExcusedBy(cfg, o, clock) || OnlyFetched(es)
  }

  /** Every queued job waits for a time after this reading. */
  ghost predicate Waiting(jobs: Table, now: Instant) {
    forall j | j in jobs && jobs[j].status.Queued? ::
      jobs[j].nextRetryAt.Some? && now < jobs[j].nextRetryAt.value
  }

  /** Every broken turn has a reason. */
  ghost predicate BrokenWithReason(cfg: Config, parts: seq<seq<Event>>, turns: seq<Turn>, results: seq<Iteration>,
                                   clock: Instant)
    requires |parts| == |results| <= |turns|
  {
    forall k | 0 <= k < |results| && results[k].Raised? ::
      ReasonFor(cfg, parts[k], turns[k].answers, clock)
  }

  lemma StillBroken(cfg: Config, parts: seq<seq<Event>>, turns: seq<Turn>, results: seq<Iteration>,
                    clock: Instant, later: Instant)
    requires |parts| == |results| <= |turns| && BrokenWithReason(cfg, parts, turns, results, clock) && clock <= later
    ensures BrokenWithReason(cfg, parts, turns, results, later)
  {
  }

  /** Busy turns claimed once, idle ones never, broken ones at most once. */
  lemma {:induction false} ClaimsOfTurns(parts: seq<seq<Event>>, jobs: seq<Job>, turns: seq<Turn>, cfg: Config,
                                         since: Instant, results: seq<Iteration>)
    requires TurnsTaken(parts, jobs, turns, cfg, since, results)
    ensures Busy(results) <= ClaimsIn(Flat(parts)) <= Busy(results) + Broken(results)
  {
    if parts != [] {
      hide IterationOf;
      var n := |parts| - 1;
      ClaimsOfTurns(parts[..n], jobs[..n], turns, cfg, since, results[..n]);
      ClaimsInAppend(Flat(parts[..n]), parts[n]);
      ClaimsOfIteration(parts[n], jobs[n], turns[n].answers, cfg, since, results[n]);
    }
  }
}
