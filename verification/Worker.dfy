/** process_one as the code runs it, with everybody else acting at every await. */
module Worker {
  import opened Wrappers
  import opened Timestamps
  import opened Jobs
  import opened JobTable
  import JobStore
  import Metrics
  import opened Queue
  import opened Service
  import opened Runtime
  import opened Iterations
  import Draining

  function ErrorFromException(exc: PipelineResult): JobError
    requires !exc.Transcript?
  {
    match exc
    case PipelineError(code, message, retryable) => JobError(code, message, retryable)
    case OtherError(description) => JobError("PIPELINE_TRANSIENT", description, true)
  }

  class Worker {
    const rt: Runtime
    const id: nat
    /** The lease tokens this worker has yet to draw: random, so nobody else's. */
    ghost var unused: set<Token>

    constructor (rt: Runtime, id: nat, ghost tokens: set<Token>)
      ensures this.rt == rt && this.id == id && unused == tokens
    {
      this.rt := rt;
      this.id := id;
      unused := tokens;
    }

    ghost predicate At(p: Phase)
      reads this`unused, rt`state
    {
      rt.At(id, p) && unused !! rt.state.w.issued.Keys
    }

    /** Since `past`, this worker did exactly these things. */
    ghost predicate Did(past: seq<ServiceEvent>, es: seq<Event>)
      reads rt`past
    {
      Own(rt.past, id) == Own(past, id) + es
    }

    /** The job table just before the last event of a run. */
    ghost function TableBefore(past: seq<ServiceEvent>): Table {
      if past == [] then map[]
      else
        var before := Run(rt.cfg, Start(rt.workers, rt.began), past[..|past| - 1]);
        if before.Some? then before.value.w.jobs else map[]
    }

    ghost predicate Holds(t: Table, job: Job) {
      && job.jobId in t && t[job.jobId].leaseToken == job.leaseToken
      && (t[job.jobId].status == Claimed || t[job.jobId].status == Processing)
    }

    /** The run has just come to this worker's defer, and the job's lease was gone. */
    ghost predicate RefusedAt(past: seq<ServiceEvent>, job: Job) {
      && past != [] && past[|past| - 1].QueueEvent? && past[|past| - 1].e.DeferRetry?
      && past[|past| - 1].e.worker == id && !Holds(TableBefore(past), job)
    }

    ghost predicate RefusedSince(start: seq<ServiceEvent>, job: Job)
      reads rt`past
    {
      exists past :: start <= past <= rt.past && RefusedAt(past, job)
    }

    /** The run has just come to this worker's get, and this was the row. */
    ghost predicate FetchedAt(past: seq<ServiceEvent>, jobId: JobId, job: Job) {
      && past != [] && past[|past| - 1] == QueueEvent(Event.ClaimGet(id))
      && jobId in TableBefore(past) && TableBefore(past)[jobId] == job
    }

    ghost predicate FetchedSince(start: seq<ServiceEvent>, jobId: JobId, job: Job)
      reads rt`past
    {
      exists past :: start <= past <= rt.past && FetchedAt(past, jobId, job)
    }

    ghost predicate DidFail(past: seq<ServiceEvent>, dies: Place -> bool, since: Instant, raised: bool)
      reads rt`past
    {
      exists es: seq<Event> :: Did(past, es) && FailShape(es, dies, since, raised)
    }

    ghost predicate DidHandle(past: seq<ServiceEvent>, job: Job, error: JobError, dies: Place -> bool,
                              since: Instant, raised: bool)
      reads rt`past
    {
      exists es: seq<Event> ::
        && Did(past, es)
        && HandleShape(es, job, error, rt.cfg, dies, since, raised)
        && (|es| > 1 && es[0].DeferRetry? ==> RefusedSince(past, job))
    }

    ghost predicate DidPipeline(past: seq<ServiceEvent>, job: Job, o: Answers, since: Instant, raised: bool)
      reads rt`past
    {
      exists es: seq<Event> ::
        && Did(past, es)
        && PipelineShape(es, job, o, rt.cfg, since, raised)
        && (|es| > 2 && es[1].DeferRetry? ==> RefusedSince(past, job))
    }

    ghost predicate DidHeld(past: seq<ServiceEvent>, job: Job, o: Answers, since: Instant, raised: bool)
      reads rt`past
    {
      exists es: seq<Event> ::
        && Did(past, es)
        && HeldShape(es, job, o, rt.cfg, since, raised)
        && (|es| > 3 && es[2].DeferRetry? ==> RefusedSince(past, job))
    }

    ghost predicate DidClaimed(past: seq<ServiceEvent>, jobId: JobId, job: Job, o: Answers, since: Instant,
                               raised: bool)
      reads rt`past
    {
      exists es: seq<Event> ::
        && Did(past, es)
        && ClaimedShape(es, job, o, rt.cfg, since, raised)
        && (|es| > 4 && es[3].DeferRetry? ==> RefusedSince(past, job))
        && (!o.dies(InGet) ==> FetchedSince(past, jobId, job))
    }

    ghost predicate Overflowed(seconds: int)
      reads rt`clock
    {
      OverflowedBy(rt.clock, seconds)
    }

    ghost predicate Excused(o: Answers)
      reads rt`clock
    {
      ExcusedBy(rt.cfg, o, rt.clock)
    }

    ghost predicate LeaseGone(j: JobId)
      reads rt.store
    {
      j in rt.store.jobs && rt.store.jobs[j].leaseToken.None?
    }

    /** This worker's own events since `past` are one iteration on the row its claim fetched; a job is
        failed after a defer only if the defer was refused; and it raised only with a reason. */
    ghost predicate Iterated(past: seq<ServiceEvent>, es: seq<Event>, job: Job, o: Answers, since: Instant,
                             r: Iteration)
      reads rt, rt.store
    {
      && Did(past, es)
      && IterationOf(es, job, o, rt.cfg, since, r)
      && (es != [] && !o.dies(InGet) ==> FetchedSince(past, es[0].job, job))
      && (WentOnAfterDefer(es) ==> RefusedSince(past, job))
      && (r.Raised? ==> ReasonFor(rt.cfg, es, o, rt.clock))
      && (r.Raised? && !Excused(o) ==> OnlyFetched(es) && LeaseGone(es[0].job))
    }

    ghost predicate AllWait(now: Instant)
      reads rt.store
    {
      Waiting(rt.store.jobs, now)
    }

    /** When the run had come this far, every queued job waited for a time after this reading. */
    ghost predicate WaitedAt(past: seq<ServiceEvent>, now: Instant) {
      var s := Run(rt.cfg, Start(rt.workers, rt.began), past);
      s.Some? && Waiting(s.value.w.jobs, now)
    }

    /** After this turn the run had come to `past`, where this worker had done what its turns say. */
    ghost predicate TurnEnded(past: seq<ServiceEvent>, start: seq<ServiceEvent>, parts: seq<seq<Event>>) {
      start <= past && Own(past, id) == Own(start, id) + Flat(parts)
    }

    /** The turns followed each other: the run so far and the reading of each, and what each idle turn saw. */
    ghost predicate TurnsSeen(pasts: seq<seq<ServiceEvent>>, readings: seq<Instant>, results: seq<Iteration>,
                              start: seq<ServiceEvent>, parts: seq<seq<Event>>)
      requires |pasts| == |readings| == |results| == |parts|
    {
      && (forall k | 0 <= k < |pasts| :: TurnEnded(pasts[k], start, parts[..k + 1]))
      && (forall k, m | 0 <= k < m < |pasts| :: pasts[k] <= pasts[m] && readings[k] <= readings[m])
      && (forall k | 0 <= k < |pasts| && results[k] == Returned(false) :: WaitedAt(pasts[k], readings[k]))
    }

    lemma WaitingNow(now: Instant)
      requires rt.Valid() && AllWait(now)
      ensures WaitedAt(rt.past, now)
    {
      hide Waiting;
      rt.TheRunSoFar();
    }

    lemma TurnSeen(pasts: seq<seq<ServiceEvent>>, readings: seq<Instant>, results: seq<Iteration>,
                   start: seq<ServiceEvent>, parts: seq<seq<Event>>,
                   past: seq<ServiceEvent>, now: Instant, r: Iteration, es: seq<Event>)
      requires |pasts| == |readings| == |results| == |parts| && TurnsSeen(pasts, readings, results, start, parts)
      requires TurnEnded(past, start, parts + [es]) && (r == Returned(false) ==> WaitedAt(past, now))
      requires pasts != [] ==> pasts[|pasts| - 1] <= past && readings[|readings| - 1] <= now
      ensures TurnsSeen(pasts + [past], readings + [now], results + [r], start, parts + [es])
    {
      hide WaitedAt, TurnEnded;
      var n, parts' := |pasts|, parts + [es];
      forall k | 0 <= k < n + 1 ensures TurnEnded((pasts + [past])[k], start, parts'[..k + 1]) {
        if k < n {
          assert parts'[..k + 1] == parts[..k + 1];
        } else {
          assert parts'[..k + 1] == parts';
        }
      }
      forall k | 0 <= k < n ensures pasts[k] <= past && readings[k] <= now {
        if k < n - 1 {
          assert pasts[k] <= pasts[n - 1] && readings[k] <= readings[n - 1];
        }
      }
    }

    lemma ClaimStep(s: State, e: Event)
      requires e.ClaimUpdate? && e.worker == id && PhaseOf(s.w, id).Idle? && id < |s.w.workers|
      requires e.token !in s.w.issued && e.granted <= e.now <= s.w.clock && IsPick(s.w.jobs, e.now, e.job)
      requires IsInstant(e.granted + rt.cfg.leaseTtlSeconds * SECOND)
      ensures SEnabled(rt.cfg, s, QueueEvent(e))
      ensures var w' := SStep(rt.cfg, s, QueueEvent(e)).w;
        && w' == s.w.(jobs := Claim(s.w.jobs, e.job, e.token, e.granted + rt.cfg.leaseTtlSeconds * SECOND),
                      workers := s.w.workers[id := Fetching(e.job, e.token)],
                      issued := w'.issued, ledgers := w'.ledgers, firstClaims := w'.firstClaims)
        && w'.issued.Keys == s.w.issued.Keys + {e.token}
    {
    }

    lemma WriteStep(s: State, job: Job, write: Write)
      requires PhaseOf(s.w, id) == Running(job)
      ensures var e := if write.Complete? then Event.WriteTranscript(id)
                       else if write.Torn? then TornWrite(id) else Crash(id);
        && e.ByWorker(id) && SEnabled(rt.cfg, s, QueueEvent(e))
        && SStep(rt.cfg, s, QueueEvent(e)).w
           == s.w.(files := if write.NotOpened? then s.w.files else s.w.files + {TranscriptPath(job.jobId)},
                   workers := s.w.workers[id := if write.Complete? then Written(job) else Idle])
    {
    }

    lemma DeferStep(s: State, at: Instant, job: Job, error: JobError)
      requires at <= s.w.clock && PhaseOf(s.w, id) == Deferring(job, error) && job.leaseToken.Some?
      requires !OutOfRange(at, rt.cfg.retryBackoffSeconds)
      ensures SEnabled(rt.cfg, s, QueueEvent(Event.DeferRetry(id, at)))
      ensures var w' := SStep(rt.cfg, s, QueueEvent(Event.DeferRetry(id, at))).w;
        var u := JobTable.DeferRetry(s.w.jobs, job.jobId, job.leaseToken.value,
                                     at + rt.cfg.retryBackoffSeconds * SECOND);
        && w' == s.w.(jobs := u.table, workers := s.w.workers[id := if u.hit then Idle else Failing(job, error)],
                      ledgers := w'.ledgers)
    {
    }

    lemma FailStep(s: State, at: Instant, job: Job, error: JobError)
      requires at <= s.w.clock && PhaseOf(s.w, id) == Failing(job, error) && job.leaseToken.Some?
      ensures SEnabled(rt.cfg, s, QueueEvent(Event.MarkFailed(id, at)))
      ensures var w' := SStep(rt.cfg, s, QueueEvent(Event.MarkFailed(id, at))).w;
        && w' == s.w.(jobs := JobTable.MarkFailed(s.w.jobs, job.jobId, job.leaseToken.value, error, at).table,
                      workers := s.w.workers[id := Counting(error.code)],
                      ledgers := w'.ledgers, refused := w'.refused)
    {
    }

    /** The claim UPDATE with its readings made. None: every queued row waits for a later time. */
    method ClaimStatement(token: Token, granted: Instant, now: Instant) returns (claimed: Option<JobId>)
      requires rt.Valid() && At(Idle) && token in unused && granted <= now <= rt.clock
      requires !OutOfRange(granted, rt.cfg.leaseTtlSeconds)
      modifies this`unused, rt, rt.store, rt.counter
      ensures rt.Valid() && old(rt.past) <= rt.past && rt.clock == old(rt.clock)
      ensures unused == if claimed.Some? then old(unused) - {token} else old(unused)
      ensures claimed.None? ==> At(Idle) && rt.past == old(rt.past)
      ensures claimed.None? ==> forall j | j in rt.store.jobs :: !Eligible(rt.store.jobs[j], now)
      ensures claimed.Some? ==>
        At(Fetching(claimed.value, token))
        && Did(old(rt.past), [Event.ClaimUpdate(id, claimed.value, token, granted, now)])
        && claimed.value in rt.store.jobs
        && IsInstant(granted + rt.cfg.leaseTtlSeconds * 1_000_000)
        && rt.store.jobs[claimed.value].leaseExpiresAt == Some(granted + rt.cfg.leaseTtlSeconds * 1_000_000)
    {
      hide JobStore.Encodes, Runtime.Traced, Metrics.ErrorRateCounter.Valid;
      hide Eligible, IsPick, Claim, SStep, SEnabled, Step, Enabled;
      claimed := rt.store.ClaimUpdate(token, granted + rt.cfg.leaseTtlSeconds * SECOND, now);
      if claimed.Some? {
        ClaimStep(rt.state, Event.ClaimUpdate(id, claimed.value, token, granted, now));
        rt.Record(QueueEvent(Event.ClaimUpdate(id, claimed.value, token, granted, now)));
        unused := unused - {token};
      }
    }

    /** claim up to its UPDATE: the expiry from one reading, the row from a later one. */
    method ClaimUpdate(token: Token) returns (claimed: Option<JobId>, raised: bool, now: Instant)
      requires rt.Valid() && At(Idle) && token in unused
      modifies this`unused, rt, rt.store, rt.counter
      ensures rt.Valid() && old(rt.past) <= rt.past && old(rt.clock) <= now <= rt.clock
      ensures old(unused) - {token} <= unused <= old(unused)
      ensures raised ==> claimed.None? && Overflowed(rt.cfg.leaseTtlSeconds)
      ensures claimed.None? ==> At(Idle) && Did(old(rt.past), [])
      ensures claimed.None? && !raised ==> forall j | j in rt.store.jobs :: !Eligible(rt.store.jobs[j], now)
      ensures claimed.Some? ==>
        At(Fetching(claimed.value, token))
        && exists granted :: old(rt.clock) <= granted <= now
             && Did(old(rt.past), [Event.ClaimUpdate(id, claimed.value, token, granted, now)])
    {
      hide JobStore.Encodes, Runtime.Traced, Metrics.ErrorRateCounter.Valid, Own, Eligible;
      var granted := rt.clock;
      rt.Others(id, unused);
      now := rt.clock;
      rt.Others(id, unused);
      if OutOfRange(granted, rt.cfg.leaseTtlSeconds) {
        return None, true, now; // OverflowError
      }
      claimed := ClaimStatement(token, granted, now);
      raised := false;
    }

    /** claim's get: the row as it is now, which may already be under another lease. */
    method ClaimGet(jobId: JobId, token: Token) returns (job: Job)
      requires rt.Valid() && At(Fetching(jobId, token))
      modifies rt, rt.store, rt.counter
      ensures rt.Valid() && old(rt.past) <= rt.past && old(rt.clock) <= rt.clock
      ensures Did(old(rt.past), [Event.ClaimGet(id)])
      ensures At(AfterClaim(rt.cfg, job))
      ensures jobId in rt.store.jobs && rt.store.jobs[jobId] == job && job.jobId == jobId
      ensures FetchedSince(old(rt.past), jobId, job)
    {
      hide Runtime.Traced, Metrics.ErrorRateCounter.Valid, Precedes, Jobs.ToRow;
      rt.Others(id, unused);
      FetchedJobExists(jobId, token);
      rt.TheRunSoFar();
      ghost var before := rt.past;
      var found := rt.store.Get(jobId);
      job := found.value;
      rt.Record(QueueEvent(Event.ClaimGet(id)));
      assert rt.past[..|rt.past| - 1] == before;
      assert FetchedAt(rt.past, jobId, job);
    }

    lemma FetchedJobExists(jobId: JobId, token: Token)
      requires rt.Traced() && At(Fetching(jobId, token))
      ensures jobId in rt.state.w.jobs
    {
      rt.Invariant();
    }

    method MarkProcessing(job: Job) returns (moved: bool)
      requires rt.Valid() && At(Holding(job)) && job.leaseToken.Some?
      modifies rt, rt.store, rt.counter
      ensures rt.Valid() && old(rt.past) <= rt.past && old(rt.clock) <= rt.clock
      ensures exists at :: old(rt.clock) <= at <= rt.clock && Did(old(rt.past), [Event.MarkProcessing(id, at)])
      ensures At(if moved then Running(job) else Idle)
    {
      hide JobStore.Encodes, Runtime.Traced, Metrics.ErrorRateCounter.Valid, JobTable.MarkProcessing;
      rt.Others(id, unused);
      var now := rt.clock;
      rt.Others(id, unused);
      moved := rt.store.MarkProcessing(job.jobId, job.leaseToken.value, now);
      rt.Record(QueueEvent(Event.MarkProcessing(id, now)));
    }

    method MarkDone(job: Job, path: Path) returns (done: bool)
      requires rt.Valid() && At(Written(job)) && job.leaseToken.Some? && path == TranscriptPath(job.jobId)
      modifies rt, rt.store, rt.counter
      ensures rt.Valid() && old(rt.past) <= rt.past && old(rt.clock) <= rt.clock
      ensures exists at :: old(rt.clock) <= at <= rt.clock && Did(old(rt.past), [Event.MarkDone(id, at)])
      ensures At(Idle)
    {
      hide JobStore.Encodes, Runtime.Traced, Metrics.ErrorRateCounter.Valid, JobTable.MarkDone;
      rt.Others(id, unused);
      var now := rt.clock;
      rt.Others(id, unused);
      done := rt.store.MarkDone(job.jobId, job.leaseToken.value, path, now);
      rt.Record(QueueEvent(Event.MarkDone(id, now)));
    }

    method MarkFailed(job: Job, error: JobError)
      requires rt.Valid() && At(Failing(job, error)) && job.leaseToken.Some?
      modifies rt, rt.store, rt.counter
      ensures rt.Valid() && old(rt.past) <= rt.past && old(rt.clock) <= rt.clock
      ensures exists at :: old(rt.clock) <= at <= rt.clock && Did(old(rt.past), [Event.MarkFailed(id, at)])
      ensures At(Counting(error.code))
    {
      hide JobStore.Encodes, Runtime.Traced, Metrics.ErrorRateCounter.Valid, JobTable.MarkFailed;
      rt.Others(id, unused);
      var now := rt.clock;
      rt.Others(id, unused);
      FailStep(rt.state, now, job, error);
      hide SStep, SEnabled;
      var ignored := rt.store.MarkFailed(job.jobId, job.leaseToken.value, error, now);
      rt.Record(QueueEvent(Event.MarkFailed(id, now)));
    }

    method CountError(code: string)
      requires rt.Valid() && At(Counting(code))
      modifies rt, rt.store, rt.counter
      ensures rt.Valid() && old(rt.past) <= rt.past && old(rt.clock) <= rt.clock
      ensures Did(old(rt.past), [Event.CountError(id)])
      ensures At(Idle)
    {
      hide JobStore.Encodes, Runtime.Traced, Metrics.ErrorRateCounter.Valid, Precedes;
      rt.Others(id, unused);
      rt.counter.Increment(code);
      rt.Record(QueueEvent(Event.CountError(id)));
    }

    /** Write the transcript; a failing write may still have created the file. */
    method WriteTranscript(job: Job, path: Path, write: Write)
      requires rt.Valid() && At(Running(job)) && path == TranscriptPath(job.jobId)
      modifies rt, rt.store, rt.counter
      ensures rt.Valid() && old(rt.past) <= rt.past && old(rt.clock) <= rt.clock
      ensures Did(old(rt.past), [if write.Complete? then Event.WriteTranscript(id)
                                 else if write.Torn? then TornWrite(id)
                                 else Crash(id)])
      ensures At(if write.Complete? then Written(job) else Idle)
      ensures rt.store.jobs == TableBefore(rt.past)
    {
      hide JobStore.Encodes, Runtime.Traced, Metrics.ErrorRateCounter.Valid, SStep, SEnabled, TranscriptPath;
      rt.Others(id, unused);
      WriteStep(rt.state, job, write);
      rt.TheRunSoFar();
      ghost var before := rt.past;
      if !write.NotOpened? {
        rt.disk := rt.disk + {path};
      }
      rt.Record(QueueEvent(if write.Complete? then Event.WriteTranscript(id)
                           else if write.Torn? then TornWrite(id)
                           else Crash(id)));
      assert rt.past[..|rt.past| - 1] == before;
    }

    /** An exception ends the iteration; the row keeps its lease until it is reclaimed. */
    method Die()
      requires rt.Valid() && id < |rt.state.w.workers| && unused !! rt.state.w.issued.Keys
      modifies rt, rt.store, rt.counter
      ensures rt.Valid() && old(rt.past) <= rt.past && Did(old(rt.past), [Crash(id)]) && At(Idle)
      ensures rt.store.jobs == old(rt.store.jobs) && rt.clock == old(rt.clock)
    {
      hide JobStore.Encodes, Runtime.Traced, Metrics.ErrorRateCounter.Valid, Precedes;
      rt.Record(QueueEvent(Crash(id)));
    }

    method DeferRetry(job: Job, error: JobError) returns (deferred: bool, raised: bool)
      requires rt.Valid() && At(Deferring(job, error)) && job.leaseToken.Some?
      modifies rt, rt.store, rt.counter
      ensures rt.Valid() && old(rt.past) <= rt.past && old(rt.clock) <= rt.clock
      ensures raised ==> Did(old(rt.past), [Crash(id)]) && Overflowed(rt.cfg.retryBackoffSeconds)
      ensures !raised ==> exists at :: old(rt.clock) <= at <= rt.clock && Did(old(rt.past), [Event.DeferRetry(id, at)])
      ensures At(if deferred || raised then Idle else Failing(job, error))
      ensures !raised ==> deferred == Holds(TableBefore(rt.past), job)
      ensures !raised && !deferred ==> RefusedSince(old(rt.past), job)
      ensures deferred ==> exists at :: old(rt.clock) <= at <= rt.clock && Deferred(TableBefore(rt.past), job, at)
    {
      hide JobStore.Encodes, Runtime.Traced, Metrics.ErrorRateCounter.Valid, JobTable.DeferRetry, SStep, SEnabled;
      var now := rt.clock;
      rt.Others(id, unused);
      if OutOfRange(now, rt.cfg.retryBackoffSeconds) {
        Die(); // OverflowError
        return false, true;
      }
      DeferStep(rt.state, now, job, error);
      rt.TheRunSoFar();
      ghost var before := rt.past;
      deferred := rt.store.DeferRetry(job.jobId, job.leaseToken.value,
                                      now + rt.cfg.retryBackoffSeconds * SECOND);
      raised := false;
      rt.Record(QueueEvent(Event.DeferRetry(id, now)));
      assert rt.past[..|rt.past| - 1] == before;
      assert !deferred ==> RefusedAt(rt.past, job);
      assert deferred ==> Deferred(TableBefore(rt.past), job, now);
    }

    /** Only this row changed: queued again, with the backoff after this reading. */
    ghost predicate Deferred(was: Table, job: Job, at: Instant)
      reads rt.store
    {
      && job.jobId in was
      && IsInstant(at + rt.cfg.retryBackoffSeconds * 1_000_000)
      && rt.store.jobs == was[job.jobId := was[job.jobId].(status := Queued, leaseToken := None, leaseExpiresAt := None,
                                           nextRetryAt := Some(at + rt.cfg.retryBackoffSeconds * 1_000_000))]
    }

    method PipelineFailed(job: Job, error: JobError)
      requires rt.Valid() && At(Running(job))
      modifies rt, rt.store, rt.counter
      ensures rt.Valid() && old(rt.past) <= rt.past && old(rt.clock) <= rt.clock
      ensures Did(old(rt.past), [PipelineFails(id, error)])
      ensures At(AfterPipelineError(rt.cfg, job, error))
    {
      hide JobStore.Encodes, Runtime.Traced, Metrics.ErrorRateCounter.Valid, Precedes;
      rt.Others(id, unused);
      rt.Record(QueueEvent(PipelineFails(id, error)));
    }

    lemma DidOne(past: seq<ServiceEvent>, e: Event, between: seq<ServiceEvent>, more: seq<Event>)
      requires Own(between, id) == Own(past, id) + [e] && Did(between, more)
      ensures Did(past, [e] + more) && ([e] + more)[1..] == more
    {
      DidMore(past, [e], between, more);
    }

    lemma RefusedEarlier(past: seq<ServiceEvent>, between: seq<ServiceEvent>, job: Job)
      requires past <= between && RefusedSince(between, job)
      ensures RefusedSince(past, job)
    {
    }

    lemma FailAfterDefer(past: seq<ServiceEvent>, at: Instant, between: seq<ServiceEvent>, job: Job, error: JobError,
                         dies: Place -> bool, since: Instant, mid: Instant, raised: bool)
      requires Own(between, id) == Own(past, id) + [Event.DeferRetry(id, at)] && since <= at && since <= mid
      requires DidFail(between, dies, mid, raised) && RefusedSince(past, job)
      requires error.retryable && job.attempt < rt.cfg.maxAttempts && !dies(InDefer)
      ensures DidHandle(past, job, error, dies, since, raised)
    {
      hide Own;
      var more: seq<Event> :| Did(between, more) && FailShape(more, dies, mid, raised);
      DidOne(past, Event.DeferRetry(id, at), between, more);
    }

    lemma HandledOnce(past: seq<ServiceEvent>, e: Event, job: Job, error: JobError, dies: Place -> bool,
                      since: Instant, raised: bool)
      requires Did(past, [e]) && HandleShape([e], job, error, rt.cfg, dies, since, raised)
      ensures DidHandle(past, job, error, dies, since, raised)
    {
    }

    lemma FailIsHandling(past: seq<ServiceEvent>, job: Job, error: JobError, dies: Place -> bool, since: Instant,
                         raised: bool)
      requires DidFail(past, dies, since, raised) && !(error.retryable && job.attempt < rt.cfg.maxAttempts)
      ensures DidHandle(past, job, error, dies, since, raised)
    {
    }

    lemma HandledAfterFailure(past: seq<ServiceEvent>, error: JobError, between: seq<ServiceEvent>, job: Job,
                              o: Answers, since: Instant, mid: Instant, raised: bool)
      requires Own(between, id) == Own(past, id) + [PipelineFails(id, error)] && since <= mid && past <= between
      requires DidHandle(between, job, error, o.dies, mid, raised) && !o.result.Transcript? && ErrorOf(error, o.result)
      ensures DidPipeline(past, job, o, since, raised)
    {
      hide Own, HandleShape, RefusedSince;
      var more: seq<Event> :| Did(between, more) && HandleShape(more, job, error, rt.cfg, o.dies, mid, raised)
        && (|more| > 1 && more[0].DeferRetry? ==> RefusedSince(between, job));
      DidOne(past, PipelineFails(id, error), between, more);
      HandleEarlier(more, job, error, rt.cfg, o.dies, mid, since, raised);
      if RefusedSince(between, job) {
        RefusedEarlier(past, between, job);
      }
    }

    lemma PipelineAfterStart(past: seq<ServiceEvent>, at: Instant, between: seq<ServiceEvent>, job: Job,
                             o: Answers, since: Instant, mid: Instant, raised: bool)
      requires Own(between, id) == Own(past, id) + [Event.MarkProcessing(id, at)] && past <= between
      requires since <= at && since <= mid && DidPipeline(between, job, o, mid, raised)
      requires job.attempt <= rt.cfg.maxAttempts && !o.dies(InMarkProcessing)
      ensures DidHeld(past, job, o, since, raised)
    {
      hide Own, PipelineShape, RefusedSince;
      var more: seq<Event> :| Did(between, more) && PipelineShape(more, job, o, rt.cfg, mid, raised)
        && (|more| > 2 && more[1].DeferRetry? ==> RefusedSince(between, job));
      PipelineIsNotEmpty(more, job, o, mid, raised);
      DidOne(past, Event.MarkProcessing(id, at), between, more);
      PipelineEarlier(more, job, o, rt.cfg, mid, since, raised);
      if RefusedSince(between, job) {
        RefusedEarlier(past, between, job);
      }
    }

    lemma PipelineIsNotEmpty(es: seq<Event>, job: Job, o: Answers, since: Instant, raised: bool)
      requires PipelineShape(es, job, o, rt.cfg, since, raised)
      ensures es != []
    {
    }

    lemma HeldOnce(past: seq<ServiceEvent>, e: Event, job: Job, o: Answers, since: Instant, raised: bool)
      requires Did(past, [e]) && HeldShape([e], job, o, rt.cfg, since, raised)
      ensures DidHeld(past, job, o, since, raised)
    {
    }

    lemma FailIsHeld(past: seq<ServiceEvent>, job: Job, o: Answers, since: Instant, raised: bool)
      requires DidFail(past, o.dies, since, raised) && job.attempt > rt.cfg.maxAttempts
      ensures DidHeld(past, job, o, since, raised)
    {
    }

    lemma HeldAfterGet(past: seq<ServiceEvent>, between: seq<ServiceEvent>, jobId: JobId, job: Job, o: Answers,
                       since: Instant, mid: Instant, raised: bool)
      requires Own(between, id) == Own(past, id) + [Event.ClaimGet(id)] && past <= between && since <= mid
      requires DidHeld(between, job, o, mid, raised) && !o.dies(InGet) && job.leaseToken.Some?
      requires FetchedSince(past, jobId, job)
      ensures DidClaimed(past, jobId, job, o, since, raised)
    {
      hide Own, HeldShape, RefusedSince, FetchedSince;
      var more: seq<Event> :| Did(between, more) && HeldShape(more, job, o, rt.cfg, mid, raised)
        && (|more| > 3 && more[2].DeferRetry? ==> RefusedSince(between, job));
      DidOne(past, Event.ClaimGet(id), between, more);
      HeldEarlier(more, job, o, rt.cfg, mid, since, raised);
      if RefusedSince(between, job) {
        RefusedEarlier(past, between, job);
      }
    }

    lemma ClaimedOnce(past: seq<ServiceEvent>, e: Event, jobId: JobId, job: Job, o: Answers, since: Instant,
                      raised: bool)
      requires Did(past, [e]) && ClaimedShape([e], job, o, rt.cfg, since, raised)
      requires !o.dies(InGet) ==> FetchedSince(past, jobId, job)
      ensures DidClaimed(past, jobId, job, o, since, raised)
    {
    }

    /** A claim and what was done with it are one iteration. */
    lemma IterationAfterClaim(past: seq<ServiceEvent>, e: Event, between: seq<ServiceEvent>, job: Job, o: Answers,
                              since: Instant, mid: Instant, r: Iteration)
      returns (es: seq<Event>)
      requires Own(between, id) == Own(past, id) + [e] && past <= between && since <= mid
      requires e.ClaimUpdate? && since <= e.granted <= e.now && r != Returned(false) && !o.dies(InClaim)
      requires DidClaimed(between, e.job, job, o, mid, r.Raised?)
      requires r.Raised? ==> Excused(o) || (LeaseGone(e.job) && Did(between, [Event.ClaimGet(id)]))
      ensures Iterated(past, es, job, o, since, r)
    {
      hide Own, ClaimedShape, RefusedSince, FetchedSince, ExcusedBy, LeaseGone;
      var more: seq<Event> :| Did(between, more) && ClaimedShape(more, job, o, rt.cfg, mid, r.Raised?)
        && (|more| > 4 && more[3].DeferRetry? ==> RefusedSince(between, job))
        && (!o.dies(InGet) ==> FetchedSince(between, e.job, job));
      DidOne(past, e, between, more);
      es := [e] + more;
      ClaimedEarlier(more, job, o, rt.cfg, mid, since, r.Raised?);
      if RefusedSince(between, job) {
        RefusedEarlier(past, between, job);
      }
      if !o.dies(InGet) {
        FetchedEarlier(past, between, e.job, job);
      }
      if r.Raised? && !Excused(o) {
        SameDoing(between, more, [Event.ClaimGet(id)]);
      }
    }

    lemma FetchedEarlier(past: seq<ServiceEvent>, between: seq<ServiceEvent>, jobId: JobId, job: Job)
      requires past <= between && FetchedSince(between, jobId, job)
      ensures FetchedSince(past, jobId, job)
    {
    }

    lemma SameDoing(past: seq<ServiceEvent>, es: seq<Event>, fs: seq<Event>)
      requires Did(past, es) && Did(past, fs)
      ensures es == fs
    {
      var start := Own(past, id);
      assert (start + es)[|start|..] == es && (start + fs)[|start|..] == fs;
    }

    lemma DidMore(past: seq<ServiceEvent>, es: seq<Event>, between: seq<ServiceEvent>, more: seq<Event>)
      requires Own(between, id) == Own(past, id) + es && Did(between, more)
      ensures Did(past, es + more)
    {
      assert Own(past, id) + es + more == Own(past, id) + (es + more);
    }

    /** mark_failed, then the counter: the code is counted whether or not the row changed. */
    method FailAndCount(job: Job, error: JobError, dies: Place -> bool) returns (raised: bool)
      requires rt.Valid() && At(Failing(job, error)) && job.leaseToken.Some?
      modifies rt, rt.store, rt.counter
      ensures rt.Valid() && old(rt.past) <= rt.past && old(rt.clock) <= rt.clock && At(Idle)
      ensures DidFail(old(rt.past), dies, old(rt.clock), raised)
      ensures raised == (dies(InMarkFailed) || dies(AfterMarkFailed))
    {
      hide Runtime.Valid, Own;
      ghost var start, since := rt.past, rt.clock;
      if dies(InMarkFailed) {
        Die();
        assert FailShape([Crash(id)], dies, since, true);
        return true;
      }
      MarkFailed(job, error);
      ghost var at :| since <= at <= rt.clock && Did(start, [Event.MarkFailed(id, at)]);
      ghost var between := rt.past;
      raised := dies(AfterMarkFailed);
      if raised {
        Die();
      } else {
        CountError(error.code);
      }
      ghost var last := if raised then Crash(id) else Event.CountError(id);
      DidOne(start, Event.MarkFailed(id, at), between, [last]);
      assert FailShape([Event.MarkFailed(id, at)] + [last], dies, since, raised);
    }

    /** Retryable and attempt < max_attempts: defer with backoff. Anything else, or a lost lease: FAILED. */
    method HandlePipelineFailure(job: Job, error: JobError, dies: Place -> bool) returns (raised: bool)
      requires rt.Valid() && At(AfterPipelineError(rt.cfg, job, error)) && job.leaseToken.Some?
      modifies rt, rt.store, rt.counter
      ensures rt.Valid() && old(rt.past) <= rt.past && old(rt.clock) <= rt.clock && At(Idle)
      ensures DidHandle(old(rt.past), job, error, dies, old(rt.clock), raised)
      ensures raised ==> (exists p :: dies(p)) || Overflowed(rt.cfg.retryBackoffSeconds)
    {
      hide Runtime.Valid, Own, DidHandle, DidFail, Deferred, Holds;
      ghost var start, since := rt.past, rt.clock;
      if error.retryable && job.attempt < rt.cfg.maxAttempts {
        if dies(InDefer) {
          Die();
          HandledOnce(start, Crash(id), job, error, dies, since, true);
          return true;
        }
        var deferred;
        deferred, raised := DeferRetry(job, error);
        if raised {
          HandledOnce(start, Crash(id), job, error, dies, since, true);
          return;
        }
        ghost var at :| since <= at <= rt.clock && Did(start, [Event.DeferRetry(id, at)]);
        if deferred {
          HandledOnce(start, Event.DeferRetry(id, at), job, error, dies, since, false);
          return;
        }
        ghost var between, mid := rt.past, rt.clock;
        raised := FailAndCount(job, error, dies);
        FailAfterDefer(start, at, between, job, error, dies, since, mid, raised);
        return;
      }
      raised := FailAndCount(job, error, dies);
      FailIsHandling(start, job, error, dies, since, raised);
    }

    /** One iteration. It follows the transition system's program for worker `id`, whatever the others
        do in between; it claims exactly one job when it returns True and none when it returns False,
        and then every queued job waits for a time after the reading `now`, made during the call.
        `es` are its own steps and `job` is the row its claim fetched. */
    method ProcessOne(token: Token, o: Answers)
      returns (r: Iteration, now: Instant, ghost es: seq<Event>, ghost job: Job)
      requires rt.Valid() && At(Idle) && token in unused
      modifies this`unused, rt, rt.store, rt.counter
      ensures rt.Valid() && old(rt.past) <= rt.past && old(rt.clock) <= now <= rt.clock && At(Idle)
      ensures old(unused) - {token} <= unused <= old(unused)
      ensures Iterated(old(rt.past), es, job, o, old(rt.clock), r)
      ensures r == Returned(false) ==> AllWait(now)
    {
      hide Runtime.Valid, Own, DidClaimed, ClaimedShape;
      ghost var start, since := rt.past, rt.clock;
      es, job := [], Unfetched();
      if o.dies(InClaim) {
        assert Did(start, []);
        return Raised, rt.clock, es, job;
      }
      var claimed, overflow;
      claimed, overflow, now := ClaimUpdate(token);
      if claimed.None? {
        assert Did(start, []);
        return if overflow then Raised else Returned(false), now, es, job;
      }
      ghost var granted :| since <= granted <= now
        && Did(start, [Event.ClaimUpdate(id, claimed.value, token, granted, now)]);
      ghost var claim := Event.ClaimUpdate(id, claimed.value, token, granted, now);
      ghost var between, mid := rt.past, rt.clock;
      r, job := WorkOn(claimed.value, token, o);
      es := IterationAfterClaim(start, claim, between, job, o, since, mid, r);
    }

    /** A row for the iterations that fetch none. */
    ghost function Unfetched(): Job {
      NewJob("", "", 0)
    }

    /** The loop of one worker, for as many turns as it gets before it is stopped: each turn is one
        iteration, whatever the others do. Its busy turns are paid for by the work there was and the work
        that submits and reclaims brought; so all but that many turns are broken by an exception with a
        reason, or idle, having seen every queued job wait. */
    method ClaimLoop(turns: seq<Turn>)
      returns (results: seq<Iteration>, readings: seq<Instant>,
               ghost parts: seq<seq<Event>>, ghost jobs: seq<Job>, ghost pasts: seq<seq<ServiceEvent>>)
      requires rt.Valid() && At(Idle)
      requires forall k | 0 <= k < |turns| :: turns[k].token in unused
      requires forall k, m | 0 <= k < m < |turns| :: turns[k].token != turns[m].token
      modifies this`unused, rt, rt.store, rt.counter
      ensures rt.Valid() && At(Idle) && old(rt.past) <= rt.past && old(rt.clock) <= rt.clock
      ensures |turns| == |results| == |readings| == |parts| == |jobs| == |pasts|
      ensures TurnsTaken(parts, jobs, turns, rt.cfg, old(rt.clock), results)
      ensures TurnsSeen(pasts, readings, results, old(rt.past), parts)
      ensures forall k | 0 <= k < |turns| :: old(rt.clock) <= readings[k] <= rt.clock
      ensures turns != [] ==> pasts[|turns| - 1] == rt.past
      ensures Did(old(rt.past), Flat(parts))
      ensures BrokenWithReason(rt.cfg, parts, turns, results, rt.clock)
      ensures Busy(results) <= ClaimsIn(Flat(parts)) <= Busy(results) + Broken(results)
      ensures Paid(Busy(results))
      ensures (forall e | e in rt.past[|old(rt.past)|..] :: !(e.QueueEvent? && (e.e.Submit? || e.e.Reclaim?))) ==>
        Busy(results) <= Draining.Total(rt.cfg, old(rt.store.jobs))
      ensures results != [] && results[|results| - 1] == Returned(false) ==> AllWait(readings[|results| - 1])
    {
      hide Runtime.Valid, Own, ClaimsIn, Flat, Busy, Broken, TurnsTaken, BrokenWithReason, TurnsSeen, AllWait;
      hide WaitedAt, Worker.At, Paid, Draining.Total, TurnEnded;
      results, readings, parts, jobs, pasts := [], [], [], [], [];
      NoTurns(turns);
      for i := 0 to |turns|
        invariant rt.Valid() && At(Idle) && old(rt.past) <= rt.past && old(rt.clock) <= rt.clock
        invariant forall k | i <= k < |turns| :: turns[k].token in unused
        invariant |results| == |readings| == |parts| == |jobs| == |pasts| == i
        invariant TurnsTaken(parts, jobs, turns, rt.cfg, old(rt.clock), results)
        invariant BrokenWithReason(rt.cfg, parts, turns, results, rt.clock)
        invariant TurnsSeen(pasts, readings, results, old(rt.past), parts)
        invariant forall k | 0 <= k < i :: old(rt.clock) <= readings[k] <= rt.clock
        invariant TurnEnded(rt.past, old(rt.past), parts)
        invariant i > 0 ==> pasts[i - 1] == rt.past
        invariant i > 0 && results[i - 1] == Returned(false) ==> AllWait(readings[i - 1])
      {
        var r, now;
        ghost var es, job;
        r, now, es, job := TakeTurn(turns, results, parts, jobs, old(rt.past), old(rt.clock));
        TurnSeen(pasts, readings, results, old(rt.past), parts, rt.past, now, r, es);
        results, readings, parts, jobs, pasts :=
          results + [r], readings + [now], parts + [es], jobs + [job], pasts + [rt.past];
      }
      TurnsDid(old(rt.past), parts);
      ClaimsOfTurns(parts, jobs, turns, rt.cfg, old(rt.clock), results);
      ClaimsInAppend(Own(old(rt.past), id), Flat(parts));
      TurnsArePaid(Busy(results));
    }

    lemma NoTurns(turns: seq<Turn>)
      ensures TurnsTaken([], [], turns, rt.cfg, rt.clock, []) && BrokenWithReason(rt.cfg, [], turns, [], rt.clock)
      ensures TurnsSeen([], [], [], rt.past, []) && TurnEnded(rt.past, rt.past, [])
    {
    }

    lemma TurnsDid(start: seq<ServiceEvent>, parts: seq<seq<Event>>)
      requires TurnEnded(rt.past, start, parts)
      ensures Did(start, Flat(parts))
    {
    }

    /** The next turn of a loop that began at `start` and `since`. */
    method TakeTurn(turns: seq<Turn>, results: seq<Iteration>, ghost parts: seq<seq<Event>>,
                    ghost jobs: seq<Job>, ghost start: seq<ServiceEvent>, ghost since: Instant)
      returns (r: Iteration, now: Instant, ghost es: seq<Event>, ghost job: Job)
      requires rt.Valid() && At(Idle) && start <= rt.past && since <= rt.clock
      requires |results| < |turns| && turns[|results|].token in unused
      requires TurnsTaken(parts, jobs, turns, rt.cfg, since, results)
      requires BrokenWithReason(rt.cfg, parts, turns, results, rt.clock)
      requires TurnEnded(rt.past, start, parts)
      modifies this`unused, rt, rt.store, rt.counter
      ensures rt.Valid() && At(Idle) && old(rt.past) <= rt.past && old(rt.clock) <= now <= rt.clock
      ensures old(unused) - {turns[|results|].token} <= unused
      ensures TurnsTaken(parts + [es], jobs + [job], turns, rt.cfg, since, results + [r])
      ensures BrokenWithReason(rt.cfg, parts + [es], turns, results + [r], rt.clock)
      ensures TurnEnded(rt.past, start, parts + [es])
      ensures r == Returned(false) ==> AllWait(now) && WaitedAt(rt.past, now)
    {
      hide Runtime.Valid, Own, Flat, IterationOf, Iterated, AllWait, WaitedAt, ReasonFor;
      ghost var past, earlier := rt.past, rt.clock;
      var turn := turns[|results|];
      r, now, es, job := ProcessOne(turn.token, turn.answers);
      TurnTaken(past, es, job, turn.answers, earlier, since, r);
      DidMore(start, Flat(parts), past, es);
      FlatAppend(parts, es);
      StillBroken(rt.cfg, parts, turns, results, earlier, rt.clock);
      if r == Returned(false) {
        WaitingNow(now);
      }
    }

    lemma TurnTaken(past: seq<ServiceEvent>, es: seq<Event>, job: Job, o: Answers, since: Instant, earlier: Instant,
                    r: Iteration)
      requires Iterated(past, es, job, o, since, r) && earlier <= since
      ensures Did(past, es) && IterationOf(es, job, o, rt.cfg, earlier, r)
      ensures r.Raised? ==> ReasonFor(rt.cfg, es, o, rt.clock)
    {
      hide IterationOf;
      IterationEarlier(es, job, o, rt.cfg, since, earlier, r);
    }

    /** This many claims and the work left are covered by the work there was and what was supplied. */
    twostate predicate Paid(worked: nat)
      reads rt, rt.store
    {
      && old(rt.past) <= rt.past
      && var during := rt.past[|old(rt.past)|..];
        && Run(rt.cfg, old(rt.state), during) == Some(rt.state)
        && worked + Draining.Total(rt.cfg, rt.store.jobs)
           <= Draining.Total(rt.cfg, old(rt.store.jobs)) + Draining.Supply(rt.cfg, old(rt.state), during)
    }

    twostate lemma TurnsArePaid(worked: nat)
      requires old(rt.Valid()) && rt.Valid() && old(rt.past) <= rt.past
      requires ClaimsIn(Own(rt.past, id)) >= ClaimsIn(Own(old(rt.past), id)) + worked
      ensures Paid(worked)
      ensures (forall e | e in rt.past[|old(rt.past)|..] :: !(e.QueueEvent? && (e.e.Submit? || e.e.Reclaim?))) ==>
        worked <= Draining.Total(rt.cfg, old(rt.store.jobs))
    {
      hide SStep, SEnabled, JobStore.Encodes, Metrics.ErrorRateCounter.Valid, Own, ClaimsIn;
      hide Draining.Total, Draining.Supply, Draining.Claims, Reachable;
      var before, during := old(rt.past), rt.past[|old(rt.past)|..];
      assert rt.past == before + during;
      RunAppend(rt.cfg, Start(rt.workers, rt.began), before, during);
      OwnAppend(before, during, id);
      ClaimsInAppend(Own(before, id), Own(during, id));
      OwnClaimsAreClaims(during, id);
      InvariantThen();
      Draining.ClaimsAreBounded(rt.cfg, old(rt.state), during);
      if forall e | e in during :: !(e.QueueEvent? && (e.e.Submit? || e.e.Reclaim?)) {
        Draining.NoSupply(rt.cfg, old(rt.state), during);
      }
    }

    twostate lemma InvariantThen()
      requires old(rt.Traced())
      ensures SInv(rt.cfg, old(rt.state))
    {
      hide Run, SInv;
      ReachableInv(rt.cfg, old(rt.state));
    }

    /** The rest of the iteration, once the claim UPDATE has hit. */
    method WorkOn(jobId: JobId, token: Token, o: Answers) returns (r: Iteration, ghost fetched: Job)
      requires rt.Valid() && At(Fetching(jobId, token))
      modifies rt, rt.store, rt.counter
      ensures rt.Valid() && old(rt.past) <= rt.past && old(rt.clock) <= rt.clock && At(Idle)
      ensures r != Returned(false) && DidClaimed(old(rt.past), jobId, fetched, o, old(rt.clock), r.Raised?)
      ensures r.Raised? ==> Excused(o) || (LeaseGone(jobId) && Did(old(rt.past), [Event.ClaimGet(id)]))
    {
      hide Runtime.Valid, Own, DidClaimed, DidHeld, DidFail, HeldShape, FetchedSince, FetchedAt;
      ghost var start, since := rt.past, rt.clock;
      if o.dies(InGet) {
        Die();
        ClaimedOnce(start, Crash(id), jobId, Unfetched(), o, since, true);
        return Raised, Unfetched();
      }
      var job := ClaimGet(jobId, token);
      ghost var seen := WasFetched(start, jobId, job);
      fetched := job;
      if job.leaseToken.None? {
        ClaimedOnce(start, Event.ClaimGet(id), jobId, job, o, since, true);
        return Raised, job; // AssertionError: claim must populate lease_token
      }
      ghost var between, mid := rt.past, rt.clock;
      if job.attempt > rt.cfg.maxAttempts {
        var raised := FailAndCount(job, MaxAttemptsError(rt.cfg), o.dies);
        r := if raised then Raised else Returned(true);
        FailIsHeld(between, job, o, mid, raised);
      } else {
        r := Process(job, o);
      }
      StillFetched(start, seen, jobId, job);
      HeldAfterGet(start, between, jobId, job, o, since, mid, r.Raised?);
    }

    lemma WasFetched(start: seq<ServiceEvent>, jobId: JobId, job: Job) returns (past: seq<ServiceEvent>)
      requires FetchedSince(start, jobId, job)
      ensures start <= past <= rt.past && FetchedAt(past, jobId, job)
    {
      past :| start <= past <= rt.past && FetchedAt(past, jobId, job);
    }

    lemma StillFetched(start: seq<ServiceEvent>, past: seq<ServiceEvent>, jobId: JobId, job: Job)
      requires start <= past <= rt.past && FetchedAt(past, jobId, job)
      ensures FetchedSince(start, jobId, job)
    {
    }

    method Process(job: Job, o: Answers) returns (r: Iteration)
      requires rt.Valid() && At(Holding(job)) && job.leaseToken.Some? && job.attempt <= rt.cfg.maxAttempts
      modifies rt, rt.store, rt.counter
      ensures rt.Valid() && old(rt.past) <= rt.past && old(rt.clock) <= rt.clock && At(Idle)
      ensures r != Returned(false) && DidHeld(old(rt.past), job, o, old(rt.clock), r.Raised?)
      ensures r.Raised? ==> Excused(o)
    {
      hide Runtime.Valid, Own, DidHeld, DidPipeline, PipelineShape;
      ghost var start, since := rt.past, rt.clock;
      if o.dies(InMarkProcessing) {
        Die();
        HeldOnce(start, Crash(id), job, o, since, true);
        return Raised;
      }
      var moved := MarkProcessing(job);
      ghost var at :| since <= at <= rt.clock && Did(start, [Event.MarkProcessing(id, at)]);
      if !moved {
        HeldOnce(start, Event.MarkProcessing(id, at), job, o, since, false);
        return Returned(true);
      }
      ghost var between, mid := rt.past, rt.clock;
      if !o.result.Transcript? {
        r := Failure(job, o);
      } else {
        r := Success(job, o);
      }
      PipelineAfterStart(start, at, between, job, o, since, mid, r.Raised?);
    }

    method Failure(job: Job, o: Answers) returns (r: Iteration)
      requires rt.Valid() && At(Running(job)) && job.leaseToken.Some? && !o.result.Transcript?
      modifies rt, rt.store, rt.counter
      ensures rt.Valid() && old(rt.past) <= rt.past && old(rt.clock) <= rt.clock && At(Idle)
      ensures r != Returned(false) && DidPipeline(old(rt.past), job, o, old(rt.clock), r.Raised?)
      ensures r.Raised? ==> Excused(o)
    {
      hide Runtime.Valid, Runtime.At, Own, DidPipeline, DidHandle;
      ghost var start, since := rt.past, rt.clock;
      var error := ErrorFromException(o.result);
      PipelineFailed(job, error);
      ghost var between, mid := rt.past, rt.clock;
      var raised := HandlePipelineFailure(job, error, o.dies);
      r := if raised then Raised else Returned(true);
      HandledAfterFailure(start, error, between, job, o, since, mid, raised);
    }

    method Success(job: Job, o: Answers) returns (r: Iteration)
      requires rt.Valid() && At(Running(job)) && job.leaseToken.Some? && o.result.Transcript?
      modifies rt, rt.store, rt.counter
      ensures rt.Valid() && old(rt.past) <= rt.past && old(rt.clock) <= rt.clock && At(Idle)
      ensures r != Returned(false) && DidPipeline(old(rt.past), job, o, old(rt.clock), r.Raised?)
      ensures r.Raised? ==> Excused(o)
    {
      hide Runtime.Valid, Own, DidPipeline, RefusedSince;
      ghost var start, since := rt.past, rt.clock;
      var path := TranscriptPath(job.jobId);
      WriteTranscript(job, path, o.write);
      if !o.write.Complete? {
        WroteOrNot(start, [if o.write.Torn? then TornWrite(id) else Crash(id)], job, o, since, true);
        return Raised;
      }
      ghost var between, mid := rt.past, rt.clock;
      ghost var last;
      if o.dies(InMarkDone) {
        Die();
        r, last := Raised, Crash(id);
      } else {
        var done := MarkDone(job, path);
        ghost var at :| mid <= at <= rt.clock && Did(between, [Event.MarkDone(id, at)]);
        r, last := Returned(true), Event.MarkDone(id, at);
      }
      DidOne(start, Event.WriteTranscript(id), between, [last]);
      WroteOrNot(start, [Event.WriteTranscript(id)] + [last], job, o, since, r.Raised?);
    }

    lemma WroteOrNot(past: seq<ServiceEvent>, es: seq<Event>, job: Job, o: Answers, since: Instant, raised: bool)
      requires Did(past, es) && PipelineShape(es, job, o, rt.cfg, since, raised) && o.result.Transcript?
      ensures DidPipeline(past, job, o, since, raised)
    {
    }

    /** One reclaim pass: afterwards no lease is past `now`, and `n` jobs were released. */
    method ReclaimOnce() returns (n: nat, now: Instant)
      requires rt.Valid()
      modifies rt, rt.store, rt.counter
      ensures rt.Valid() && old(rt.past) < rt.past && rt.past[|rt.past| - 1] == QueueEvent(Reclaim(now))
      ensures old(rt.clock) <= now <= rt.clock
      ensures forall j |
        j in rt.store.jobs && (rt.store.jobs[j].status == Claimed || rt.store.jobs[j].status == Processing) ::
        rt.store.jobs[j].leaseExpiresAt.Some? ==> now <= rt.store.jobs[j].leaseExpiresAt.value
      ensures n == |set j | j in TableBefore(rt.past) && JobStore.LeaseIsOver(TableBefore(rt.past)[j], now)|
      ensures rt.store.jobs.Keys == TableBefore(rt.past).Keys
      ensures forall j | j in rt.store.jobs :: var was := TableBefore(rt.past)[j];
        rt.store.jobs[j] == if JobStore.LeaseIsOver(was, now)
                            then was.(status := Queued, leaseToken := None, leaseExpiresAt := None) else was
    {
      hide JobStore.Encodes, Metrics.ErrorRateCounter.Valid, Run, Start, JobStore.LeaseIsOver, Expired, Released;
      now := rt.clock;
      rt.Others(id, unused);
      ghost var before := rt.past;
      n := rt.store.ReclaimExpired(now);
      rt.Record(QueueEvent(Reclaim(now)));
      assert rt.past[..|rt.past| - 1] == before;
      NoneIsOver(TableBefore(rt.past), rt.store.jobs, now);
    }

    lemma NoneIsOver(was: Table, jobs: Table, now: Instant)
      requires jobs.Keys == was.Keys
      requires forall j | j in jobs :: jobs[j] == if JobStore.LeaseIsOver(was[j], now)
                 then was[j].(status := Queued, leaseToken := None, leaseExpiresAt := None) else was[j]
      ensures forall j | j in jobs && (jobs[j].status == Claimed || jobs[j].status == Processing) ::
        jobs[j].leaseExpiresAt.Some? ==> now <= jobs[j].leaseExpiresAt.value
    {
    }
  }
}
