/** The job queue with N workers, as a transition system.

    One event is one atomic step: one SQL statement, one file write, one counter update. Workers
    interleave freely, the clock only moves forward, and a reading used by a statement may have been
    taken at any earlier moment. `claim` is two steps, the UPDATE and a later `get`, so the job a
    worker holds may already carry somebody else's lease. */
module Queue {
  import opened Wrappers
  import opened Timestamps
  import opened Jobs
  import opened JobTable
  import opened Metrics

  const SECOND: int := 1_000_000

  datatype Config = Config(maxAttempts: int, leaseTtlSeconds: int, retryBackoffSeconds: int)

  predicate IsInstant(t: int) {
    0 <= t < DAYS * MICROS_PER_DAY
  }

  // ---------- workers ----------

  /** Where a worker is inside process_one, with its local variables. */
  datatype Phase =
    | Idle
    | Fetching(job: JobId, token: Token)         // claim's UPDATE done, its get pending
    | Holding(snap: Job)                         // mark_processing next
    | Running(snap: Job)                         // inside the pipeline
    | Written(snap: Job)                         // transcript written, mark_done next
    | Deferring(snap: Job, error: JobError)      // defer_retry next
    | Failing(snap: Job, error: JobError)        // mark_failed next
    | Counting(code: string)                     // counter increment next
  {
    predicate HasSnap() { Holding? || Running? || Written? || Deferring? || Failing? }

    function Snap(): Job
      requires HasSnap()
    {
      match this
      case Holding(s) => s
      case Running(s) => s
      case Written(s) => s
      case Deferring(s, _) => s
      case Failing(s, _) => s
    }
  }

  // ---------- history ----------

  datatype Lease = Lease(job: JobId, attempt: nat, worker: nat)
  datatype Grant = Grant(at: Instant, expires: Instant)

  datatype LeaseEnd = Completed | GaveUp | Deferred(at: Instant) | Reclaimed(at: Instant) {
    predicate IsFinal() { Completed? || GaveUp? }
  }

  /** What happened to one job: claims[k] opened attempt k+1 and ends[k] closed it;
      `starts` lists the attempt number of every pipeline start. */
  datatype Ledger = Ledger(claims: seq<Grant>, ends: seq<LeaseEnd>, starts: seq<int>, rank: nat)

  /** A first claim, with the jobs that were in the table at that moment. */
  datatype FirstClaim = FirstClaim(job: JobId, present: set<JobId>)

  datatype World = World(
    clock: Instant, jobs: Table, files: set<Path>, workers: seq<Phase>,
    counts: Counts, ticks: seq<Counts>,
    // history
    issued: map<Token, Lease>, ledgers: map<JobId, Ledger>, firstClaims: seq<FirstClaim>,
    counted: multiset<string>, refused: multiset<string>, lost: multiset<string>)

  // ---------- events ----------

  datatype Event =
    | Tick(now: Instant)
    | Submit(job: JobId, url: string, at: Instant)
    | ClaimUpdate(worker: nat, job: JobId, token: Token, granted: Instant, now: Instant)
    | ClaimGet(worker: nat)
    | MarkProcessing(worker: nat, at: Instant)
    | PipelineFails(worker: nat, error: JobError)
    | WriteTranscript(worker: nat)
    | TornWrite(worker: nat)
    | MarkDone(worker: nat, at: Instant)
    | DeferRetry(worker: nat, at: Instant)
    | MarkFailed(worker: nat, at: Instant)
    | CountError(worker: nat)
    | Crash(worker: nat)
    | Reclaim(now: Instant)
    | CounterTick
  {
    predicate ByWorker(i: nat) {
      !Tick? && !Submit? && !Reclaim? && !CounterTick? && worker == i
    }
  }

  function TranscriptPath(j: JobId): Path {
    Path(Results, j + ".md")
  }

  function Decimal(n: int): string
    decreases n < 0, if n < 0 then -n else n
  {
    if n < 0 then "-" + Decimal(-n)
    else if n < 10 then [Digit(n)]
    else Decimal(n / 10) + [Digit(n % 10)]
  }

  function MaxAttemptsError(cfg: Config): JobError {
    JobError("MAX_ATTEMPTS", "Job exceeded " + Decimal(cfg.maxAttempts) + " attempts", false)
  }

  function PhaseOf(w: World, i: nat): Phase {
    if i < |w.workers| then w.workers[i] else Idle
  }

  ghost predicate Enabled(cfg: Config, w: World, e: Event) {
    match e
    case Tick(now) => w.clock <= now
    case Submit(j, _, at) => j !in w.jobs && at <= w.clock
    case ClaimUpdate(i, j, token, granted, now) =>
      && i < |w.workers| && w.workers[i].Idle?
      && token !in w.issued
      && granted <= now <= w.clock
      && IsInstant(granted + cfg.leaseTtlSeconds * SECOND)
      && IsPick(w.jobs, now, j)
    case ClaimGet(i) => PhaseOf(w, i).Fetching? && PhaseOf(w, i).job in w.jobs
    case MarkProcessing(i, at) => PhaseOf(w, i).Holding? && at <= w.clock
    case PipelineFails(i, _) => PhaseOf(w, i).Running?
    case WriteTranscript(i) => PhaseOf(w, i).Running?
    case TornWrite(i) => PhaseOf(w, i).Running?
    case MarkDone(i, at) => PhaseOf(w, i).Written? && at <= w.clock
    case DeferRetry(i, at) =>
      PhaseOf(w, i).Deferring? && at <= w.clock && IsInstant(at + cfg.retryBackoffSeconds * SECOND)
    case MarkFailed(i, at) => PhaseOf(w, i).Failing? && at <= w.clock
    case CountError(i) => PhaseOf(w, i).Counting?
    case Crash(i) => i < |w.workers|
    case Reclaim(now) => now <= w.clock
    case CounterTick => true
  }

  ghost function Ended(ledgers: map<JobId, Ledger>, j: JobId, end: LeaseEnd): map<JobId, Ledger> {
    if j in ledgers then ledgers[j := ledgers[j].(ends := ledgers[j].ends + [end])] else ledgers
  }

  ghost function Started(ledgers: map<JobId, Ledger>, j: JobId, attempt: int): map<JobId, Ledger> {
    if j in ledgers then ledgers[j := ledgers[j].(starts := ledgers[j].starts + [attempt])] else ledgers
  }

  ghost function Granted(ledgers: map<JobId, Ledger>, j: JobId, g: Grant, first: bool, rank: nat): map<JobId, Ledger> {
    if j in ledgers
    then ledgers[j := ledgers[j].(claims := ledgers[j].claims + [g], rank := if first then rank else ledgers[j].rank)]
    else ledgers
  }

  /** What process_one does with the job `claim` returned. */
  function AfterClaim(cfg: Config, job: Job): Phase {
    if job.leaseToken.None? then Idle // the assertion on lease_token fails; the iteration is over
    else if job.attempt > cfg.maxAttempts then Failing(job, MaxAttemptsError(cfg))
    else Holding(job)
  }

  function AfterPipelineError(cfg: Config, job: Job, error: JobError): Phase {
    if error.retryable && job.attempt < cfg.maxAttempts then Deferring(job, error) else Failing(job, error)
  }

  function TokenOf(job: Job): Token {
    if job.leaseToken.Some? then job.leaseToken.value else ""
  }

  ghost function Step(cfg: Config, w: World, e: Event): World
    requires Enabled(cfg, w, e)
  {
    match e
    case Tick(now) => w.(clock := now)
    case Submit(j, url, at) =>
      w.(jobs := w.jobs[j := NewJob(j, url, at)], ledgers := w.ledgers[j := Ledger([], [], [], 0)])
    case ClaimUpdate(i, j, token, granted, now) => StepClaim(cfg, w, i, j, token, granted, now)
    case ClaimGet(i) =>
      w.(workers := w.workers[i := AfterClaim(cfg, w.jobs[w.workers[i].job])])
    case MarkProcessing(i, at) =>
      var snap := w.workers[i].snap;
      var u := JobTable.MarkProcessing(w.jobs, snap.jobId, TokenOf(snap), at);
      w.(jobs := u.table, workers := w.workers[i := if u.hit then Running(snap) else Idle],
         ledgers := if u.hit then Started(w.ledgers, snap.jobId, snap.attempt) else w.ledgers)
    case PipelineFails(i, error) =>
      w.(workers := w.workers[i := AfterPipelineError(cfg, w.workers[i].snap, error)])
    case WriteTranscript(i) =>
      w.(files := w.files + {TranscriptPath(w.workers[i].snap.jobId)},
         workers := w.workers[i := Written(w.workers[i].snap)])
    case TornWrite(i) => // the write raises OSError after the file was created
      w.(files := w.files + {TranscriptPath(w.workers[i].snap.jobId)}, workers := w.workers[i := Idle])
    case MarkDone(i, at) =>
      var snap := w.workers[i].snap;
      var u := JobTable.MarkDone(w.jobs, snap.jobId, TokenOf(snap), TranscriptPath(snap.jobId), at);
      w.(jobs := u.table, workers := w.workers[i := Idle],
         ledgers := if u.hit then Ended(w.ledgers, snap.jobId, Completed) else w.ledgers)
    case DeferRetry(i, at) =>
      var snap, error := w.workers[i].snap, w.workers[i].error;
      var u := JobTable.DeferRetry(w.jobs, snap.jobId, TokenOf(snap), at + cfg.retryBackoffSeconds * SECOND);
      w.(jobs := u.table, workers := w.workers[i := if u.hit then Idle else Failing(snap, error)],
         ledgers := if u.hit then Ended(w.ledgers, snap.jobId, Deferred(at)) else w.ledgers)
    case MarkFailed(i, at) =>
      var snap, error := w.workers[i].snap, w.workers[i].error;
      var u := JobTable.MarkFailed(w.jobs, snap.jobId, TokenOf(snap), error, at);
      w.(jobs := u.table, workers := w.workers[i := Counting(error.code)],
         ledgers := if u.hit then Ended(w.ledgers, snap.jobId, GaveUp) else w.ledgers,
         refused := if u.hit then w.refused else w.refused + multiset{error.code})
    case CountError(i) =>
      var code := w.workers[i].code;
      w.(workers := w.workers[i := Idle], counts := Incremented(w.counts, code),
         counted := w.counted + multiset{code})
    case Crash(i) =>
      w.(workers := w.workers[i := Idle],
         lost := if w.workers[i].Counting? then w.lost + multiset{w.workers[i].code} else w.lost)
    case Reclaim(now) =>
      w.(jobs := JobTable.ReclaimExpired(w.jobs, now),
         ledgers := map j | j in w.ledgers :: if j in w.jobs && Expired(w.jobs[j], now)
                                              then w.ledgers[j].(ends := w.ledgers[j].ends + [Reclaimed(now)])
                                              else w.ledgers[j])
    case CounterTick => w.(counts := map[], ticks := w.ticks + [w.counts])
  }

  ghost function StepClaim(cfg: Config, w: World, i: nat, j: JobId, token: Token, granted: Instant, now: Instant): World
    requires Enabled(cfg, w, ClaimUpdate(i, j, token, granted, now))
  {
    var expires: Instant := granted + cfg.leaseTtlSeconds * SECOND;
    var attempt := w.jobs[j].attempt + 1;
    w.(jobs := Claim(w.jobs, j, token, expires),
       workers := w.workers[i := Fetching(j, token)],
       issued := w.issued[token := Lease(j, attempt, i)],
       ledgers := Granted(w.ledgers, j, Grant(now, expires), attempt == 1, |w.firstClaims|),
       firstClaims := if attempt == 1 then w.firstClaims + [FirstClaim(j, w.jobs.Keys)] else w.firstClaims)
  }

  ghost function Initial(n: nat, clock: Instant): World {
    World(clock, map[], {}, seq(n, _ => Idle), map[], [], map[], map[], [], multiset{}, multiset{}, multiset{})
  }
}
