/** The whole service: the queue, plus any number of concurrent ack requests.

    An ack interleaves the database and the file system one operation at a time, and may be cut off
    by a fault after any of them. Queue events and ack steps interleave freely. */
module Service {
  import opened Wrappers
  import opened Timestamps
  import opened Jobs
  import opened JobTable
  import opened Queue
  import opened QueueInvariant

  type AckId = nat

  /** What an ack request does next. */
  datatype AckPc =
    | Mark        // UPDATE ... SET acked_at
    | Fetch       // mark_acked's get
    | InTrash     // is the recorded file already in the trash?
    | Source      // move_to_trash: does the source exist?
    | Discover    // move_to_trash: source gone, is the canonical file in the trash?
    | Rename      // move_to_trash: Path.replace
    | UpdatePath  // UPDATE ... SET transcript_path
    | Refresh     // get again
    | Respond

  datatype Ack = Ack(pc: AckPc, job: JobId, newly: bool, snap: Option<Job>, destination: Option<Path>)

  datatype Response =
    | NotFound
    | NotDone
    | Unavailable
    | Accepted(job: JobId, ackedAt: Option<Instant>, alreadyAcked: bool, transcriptMoved: bool, path: Option<Path>)

  datatype State = State(w: World, acks: map<AckId, Ack>, responses: map<AckId, Response>,
                         winners: map<JobId, AckId>) // history: who set acked_at

  datatype ServiceEvent =
    | QueueEvent(e: Event)
    | AckBegin(a: AckId, job: JobId)
    | AckStep(a: AckId, at: Instant, renameFails: bool)
    | AckFault(a: AckId)

  function TrashPath(j: JobId): Path {
    Path(Trash, j + ".md")
  }

  function InTrashNow(path: Option<Path>, files: set<Path>): bool {
    path.Some? && path.value.directory.Trash? && path.value in files
  }

  /** Where move_to_trash would put a file. */
  function Destination(source: Path): Path {
    Path(Trash, source.name)
  }

  ghost predicate AckReady(s: State, a: AckId, at: Instant) {
    && a in s.acks && at <= s.w.clock && s.acks[a].job in s.w.jobs
    && (s.acks[a].pc.InTrash? || s.acks[a].pc.Respond? ==> s.acks[a].snap.Some?)
    && (s.acks[a].pc.Source? || s.acks[a].pc.Discover? || s.acks[a].pc.Rename? ==>
          s.acks[a].snap.Some? && s.acks[a].snap.value.transcriptPath.Some?)
    && (s.acks[a].pc.UpdatePath? ==> s.acks[a].destination.Some?)
  }

  ghost predicate SEnabled(cfg: Config, s: State, e: ServiceEvent) {
    match e
    case QueueEvent(q) => Enabled(cfg, s.w, q)
    case AckBegin(a, _) => a !in s.acks && a !in s.responses
    case AckStep(a, at, _) => AckReady(s, a, at)
    case AckFault(a) => a in s.acks || a !in s.responses // the pre-flight get may raise too
  }

  ghost function SStep(cfg: Config, s: State, e: ServiceEvent): State
    requires SEnabled(cfg, s, e)
  {
    match e
    case QueueEvent(q) => s.(w := Step(cfg, s.w, q))
    case AckBegin(a, j) => // the pre-flight get
      if j !in s.w.jobs then s.(responses := s.responses[a := NotFound])
      else if !s.w.jobs[j].status.Done? then s.(responses := s.responses[a := NotDone])
      else s.(acks := s.acks[a := Ack(Mark, j, false, None, None)])
    case AckStep(a, at, fails) => AckNext(s, a, at, fails)
    case AckFault(a) => s.(acks := s.acks - {a}, responses := s.responses[a := Unavailable])
  }

  function To(s: State, a: AckId, ack: Ack): State {
    s.(acks := s.acks[a := ack])
  }

  ghost function AckNext(s: State, a: AckId, at: Instant, fails: bool): State
    requires AckReady(s, a, at)
  {
    var ack := s.acks[a];
    match ack.pc
    case Mark =>
      var u := MarkAcked(s.w.jobs, ack.job, at);
      To(s, a, ack.(pc := Fetch, newly := u.hit))
        .(w := s.w.(jobs := u.table), winners := if u.hit then s.winners[ack.job := a] else s.winners)
    case Fetch => To(s, a, ack.(pc := InTrash, snap := Some(s.w.jobs[ack.job])))
    case InTrash =>
      var path := ack.snap.value.transcriptPath;
      if InTrashNow(path, s.w.files) then To(s, a, ack.(pc := Respond, destination := path))
      else if path.None? then To(s, a, ack.(pc := Respond, destination := None))
      else To(s, a, ack.(pc := Source))
    case Source =>
      var path := ack.snap.value.transcriptPath.value;
      if path !in s.w.files then To(s, a, ack.(pc := Discover))
      else if path == Destination(path) then To(s, a, ack.(pc := UpdatePath, destination := Some(path)))
      else To(s, a, ack.(pc := Rename))
    case Discover =>
      var path := ack.snap.value.transcriptPath.value;
      if Destination(path) in s.w.files && Destination(path) != path
      then To(s, a, ack.(pc := UpdatePath, destination := Some(Destination(path))))
      else To(s, a, ack.(pc := Respond, destination := None))
    case Rename =>
      var path := ack.snap.value.transcriptPath.value;
      if fails || path !in s.w.files then To(s, a, ack.(pc := Respond, destination := None))
      else To(s, a, ack.(pc := UpdatePath, destination := Some(Destination(path))))
             .(w := s.w.(files := s.w.files - {path} + {Destination(path)}))
    case UpdatePath =>
      To(s, a, ack.(pc := Refresh))
        .(w := s.w.(jobs := UpdateTranscriptPath(s.w.jobs, ack.job, ack.destination.value).table))
    case Refresh => To(s, a, ack.(pc := Respond, snap := Some(s.w.jobs[ack.job])))
    case Respond =>
      var job := ack.snap.value;
      s.(acks := s.acks - {a},
         responses := s.responses[a := Accepted(job.jobId, job.ackedAt, !ack.newly,
                                                InTrashNow(job.transcriptPath, s.w.files),
                                                if ack.destination.Some? then ack.destination else job.transcriptPath)])
  }

  ghost function Start(n: nat, clock: Instant): State {
    State(Initial(n, clock), map[], map[], map[])
  }

  // ---------- runs ----------

  /** The state a sequence of events leads to; None if some event was not enabled. */
  ghost function Run(cfg: Config, s: State, es: seq<ServiceEvent>): Option<State> {
    if es == [] then Some(s)
    else
      match Run(cfg, s, es[..|es| - 1])
      case None => None
      case Some(t) => if SEnabled(cfg, t, es[|es| - 1]) then Some(SStep(cfg, t, es[|es| - 1])) else None
  }

  lemma {:induction false} RunAppend(cfg: Config, s: State, es: seq<ServiceEvent>, more: seq<ServiceEvent>)
    requires Run(cfg, s, es).Some?
    ensures Run(cfg, s, es + more) == Run(cfg, Run(cfg, s, es).value, more)
  {
    hide SStep, SEnabled;
    if more == [] {
      assert es + more == es;
    } else {
      var n := |more| - 1;
      RunAppend(cfg, s, es, more[..n]);
      assert (es + more)[..|es + more| - 1] == es + more[..n];
    }
  }

  /** How often ack a met a fault: cut off, or its rename refused. */
  function FaultsOf(es: seq<ServiceEvent>, a: AckId): nat {
    if es == [] then 0
    else FaultsOf(es[..|es| - 1], a) + (if IsFault(es[|es| - 1], a) then 1 else 0)
  }

  predicate IsFault(e: ServiceEvent, a: AckId) {
    (e.AckFault? && e.a == a) || (e.AckStep? && e.a == a && e.renameFails)
  }

  ghost predicate Reachable(cfg: Config, s: State) {
    exists n: nat, clock: Instant, es: seq<ServiceEvent> :: Run(cfg, Start(n, clock), es) == Some(s)
  }

  // ---------- invariant ----------

  /** A DONE job's transcript is where the row says, or in the trash under the same name. */
  ghost predicate TranscriptKept(w: World, j: JobId)
    requires j in w.jobs
  {
    w.jobs[j].status.Done? ==>
      && (w.jobs[j].transcriptPath == Some(TranscriptPath(j)) || w.jobs[j].transcriptPath == Some(TrashPath(j)))
      && (w.jobs[j].transcriptPath == Some(TrashPath(j)) ==> TrashPath(j) in w.files)
      && (TranscriptPath(j) in w.files || TrashPath(j) in w.files)
  }

  /** A worker about to call mark_done has its transcript on disk, unless the job is DONE already. */
  ghost predicate WrittenKept(w: World, i: nat)
    requires i < |w.workers| && w.workers[i].Written?
  {
    var j := w.workers[i].snap.jobId;
    j in w.jobs && (!w.jobs[j].status.Done? ==> TranscriptPath(j) in w.files)
  }

  ghost predicate FileInv(w: World) {
    && (forall j | j in w.jobs :: TranscriptKept(w, j))
    && (forall i | 0 <= i < |w.workers| && w.workers[i].Written? :: WrittenKept(w, i))
  }

  ghost predicate SnapOfDone(w: World, j: JobId, snap: Job)
    requires j in w.jobs
  {
    && snap.jobId == j
    && snap.ackedAt.Some? && snap.ackedAt == w.jobs[j].ackedAt
    && (snap.transcriptPath == Some(TranscriptPath(j)) || snap.transcriptPath == Some(TrashPath(j)))
    && (snap.transcriptPath == Some(TrashPath(j)) ==> TrashPath(j) in w.files)
  }

  ghost predicate AckInv(w: World, winners: map<JobId, AckId>, a: AckId, ack: Ack) {
    && ack.job in w.jobs && w.jobs[ack.job].status.Done?
    && (ack.pc.Mark? ==> !ack.newly && ack.snap.None?)
    && (!ack.pc.Mark? ==> w.jobs[ack.job].ackedAt.Some?)
    && (ack.newly ==> ack.job in winners && winners[ack.job] == a)
    && (!ack.pc.Mark? && !ack.pc.Fetch? ==> ack.snap.Some?)
    && (ack.snap.Some? ==> SnapOfDone(w, ack.job, ack.snap.value))
    && (ack.pc.Rename? ==> ack.snap.value.transcriptPath == Some(TranscriptPath(ack.job)))
    && (ack.pc.UpdatePath? || ack.pc.Refresh? ==> ack.destination == Some(TrashPath(ack.job)))
    && (ack.destination.Some? ==> ack.destination == Some(TrashPath(ack.job)) && TrashPath(ack.job) in w.files)
  }

  ghost predicate ResponseInv(w: World, winners: map<JobId, AckId>, a: AckId, r: Response) {
    r.Accepted? ==>
      && r.job in w.jobs && w.jobs[r.job].status.Done?
      && r.ackedAt.Some? && w.jobs[r.job].ackedAt == r.ackedAt
      && (!r.alreadyAcked ==> r.job in winners && winners[r.job] == a)
      && (r.transcriptMoved ==> TrashPath(r.job) in w.files)
  }

  ghost predicate WinnersInv(s: State) {
    forall j | j in s.winners :: j in s.w.jobs && s.w.jobs[j].ackedAt.Some?
  }

  ghost predicate SInv(cfg: Config, s: State) {
    && Inv(cfg, s.w)
    && FileInv(s.w)
    && (forall a | a in s.acks :: AckInv(s.w, s.winners, a, s.acks[a]))
    && (forall a | a in s.responses :: ResponseInv(s.w, s.winners, a, s.responses[a]))
    && WinnersInv(s)
  }

  // ---------- queue events ----------

  /** DONE is absorbing: no queue event changes a DONE row, and none removes a file. */
  lemma DoneIsAbsorbing(cfg: Config, w: World, e: Event, j: JobId)
    requires Inv(cfg, w) && Enabled(cfg, w, e) && j in w.jobs && w.jobs[j].status.Done?
    ensures j in Step(cfg, w, e).jobs && Step(cfg, w, e).jobs[j] == w.jobs[j]
  {
    hide RowInv, TokenInv, PhaseInv, FifoInv, MetricsInv, NoLossInv;
    if e.MarkProcessing? || e.MarkDone? || e.DeferRetry? || e.MarkFailed? {
    } else {
      NobodyElseTouches(cfg, w, e, j);
    }
  }

  lemma FilesGrow(cfg: Config, w: World, e: Event)
    requires Enabled(cfg, w, e)
    ensures w.files <= Step(cfg, w, e).files
  {
  }

  lemma SameNames(j: JobId, k: JobId)
    requires TranscriptPath(j) == TranscriptPath(k) || TrashPath(j) == TrashPath(k)
    ensures j == k
  {
    assert (j + ".md")[..|j + ".md"| - 3] == j && (k + ".md")[..|k + ".md"| - 3] == k;
  }

  lemma OnlyMarkDoneFinishes(cfg: Config, w: World, e: Event, j: JobId)
    requires Enabled(cfg, w, e) && j in Step(cfg, w, e).jobs && Step(cfg, w, e).jobs[j].status.Done?
    requires !(j in w.jobs && w.jobs[j].status.Done?)
    ensures e.MarkDone? && j == w.workers[e.worker].snap.jobId && j in w.jobs
    ensures Step(cfg, w, e).jobs[j].transcriptPath == Some(TranscriptPath(j))
  {
  }

  lemma QueueKeepsTranscripts(cfg: Config, w: World, e: Event, j: JobId)
    requires Inv(cfg, w) && FileInv(w) && Enabled(cfg, w, e) && j in Step(cfg, w, e).jobs
    ensures TranscriptKept(Step(cfg, w, e), j)
  {
    hide Inv;
    FilesGrow(cfg, w, e);
    if j in w.jobs && w.jobs[j].status.Done? {
      hide Step;
      assert TranscriptKept(w, j);
      DoneIsAbsorbing(cfg, w, e, j);
    } else if Step(cfg, w, e).jobs[j].status.Done? {
      OnlyMarkDoneFinishes(cfg, w, e, j);
      hide Step;
      assert WrittenKept(w, e.worker);
    }
  }

  lemma QueueKeepsWritten(cfg: Config, w: World, e: Event, i: nat)
    requires Inv(cfg, w) && FileInv(w) && Enabled(cfg, w, e) && i < |Step(cfg, w, e).workers|
    requires Step(cfg, w, e).workers[i].Written?
    ensures WrittenKept(Step(cfg, w, e), i)
  {
    hide RowInv, TokenInv, FifoInv, MetricsInv, NoLossInv;
    var w' := Step(cfg, w, e);
    SameNumberOfWorkers(cfg, w, e);
    KeyedStep(cfg, w, e);
    FilesGrow(cfg, w, e);
    if e.ByWorker(i) {
      assert PhaseInv(cfg, w.jobs, w.issued, w.workers[i]);
      OnlyTheWriteLeadsToWritten(cfg, w, e, i);
    } else {
      OthersKeepPhase(cfg, w, e, i);
      var j := w.workers[i].snap.jobId;
      if w.jobs[j].status.Done? {
        DoneIsAbsorbing(cfg, w, e, j);
      }
    }
  }

  lemma OnlyTheWriteLeadsToWritten(cfg: Config, w: World, e: Event, i: nat)
    requires Enabled(cfg, w, e) && e.ByWorker(i) && i < |Step(cfg, w, e).workers|
    requires Step(cfg, w, e).workers[i].Written?
    ensures e.WriteTranscript? && w.workers[i].HasSnap()
    ensures Step(cfg, w, e).workers[i].snap == w.workers[i].Snap()
    ensures TranscriptPath(w.workers[i].Snap().jobId) in Step(cfg, w, e).files
  {
  }

  lemma QueueKeepsFiles(cfg: Config, w: World, e: Event)
    requires Inv(cfg, w) && FileInv(w) && Enabled(cfg, w, e)
    ensures FileInv(Step(cfg, w, e))
  {
    hide Inv, Step, Enabled, TranscriptKept;
    var w' := Step(cfg, w, e);
    forall j | j in w'.jobs ensures TranscriptKept(w', j) {
      QueueKeepsTranscripts(cfg, w, e, j);
    }
    hide FileInv;
    forall i | 0 <= i < |w'.workers| && w'.workers[i].Written? ensures WrittenKept(w', i) {
      QueueKeepsWritten(cfg, w, e, i);
    }
    AssembleFiles(w');
  }

  lemma AssembleFiles(w: World)
    requires forall j | j in w.jobs :: TranscriptKept(w, j)
    requires forall i | 0 <= i < |w.workers| && w.workers[i].Written? :: WrittenKept(w, i)
    ensures FileInv(w)
  {
  }

  /** What acks rely on: DONE rows as they were, and no transcript gone from the trash. */
  ghost predicate AckSafe(w: World, w': World) {
    && (forall j | j in w.jobs && w.jobs[j].status.Done? ::
          j in w'.jobs && w'.jobs[j].status.Done?
          && (w.jobs[j].ackedAt.Some? ==> w'.jobs[j].ackedAt == w.jobs[j].ackedAt))
    && (forall j | TrashPath(j) in w.files :: TrashPath(j) in w'.files)
  }

  lemma SafeForAck(w: World, w': World, winners: map<JobId, AckId>, a: AckId, ack: Ack)
    requires AckSafe(w, w') && AckInv(w, winners, a, ack)
    ensures AckInv(w', winners, a, ack)
  {
  }

  lemma SafeForResponse(w: World, w': World, winners: map<JobId, AckId>, a: AckId, r: Response)
    requires AckSafe(w, w') && ResponseInv(w, winners, a, r)
    ensures ResponseInv(w', winners, a, r)
  {
  }

  lemma QueueIsAckSafe(cfg: Config, w: World, e: Event)
    requires Inv(cfg, w) && Enabled(cfg, w, e)
    ensures AckSafe(w, Step(cfg, w, e))
  {
    FilesGrow(cfg, w, e);
    forall j | j in w.jobs && w.jobs[j].status.Done?
      ensures j in Step(cfg, w, e).jobs && Step(cfg, w, e).jobs[j] == w.jobs[j]
    {
      DoneIsAbsorbing(cfg, w, e, j);
    }
    hide Inv, Step, Enabled;
  }

  lemma QueueEventStep(cfg: Config, s: State, e: Event)
    requires SInv(cfg, s) && Enabled(cfg, s.w, e)
    ensures SInv(cfg, s.(w := Step(cfg, s.w, e)))
  {
    hide Inv, Step, Enabled, FileInv, AckInv, ResponseInv;
    var w' := Step(cfg, s.w, e);
    InvStep(cfg, s.w, e);
    QueueKeepsFiles(cfg, s.w, e);
    QueueIsAckSafe(cfg, s.w, e);
    forall a | a in s.acks ensures AckInv(w', s.winners, a, s.acks[a]) {
      SafeForAck(s.w, w', s.winners, a, s.acks[a]);
    }
    forall a | a in s.responses ensures ResponseInv(w', s.winners, a, s.responses[a]) {
      SafeForResponse(s.w, w', s.winners, a, s.responses[a]);
    }
    forall j | j in s.winners ensures j in w'.jobs && w'.jobs[j].ackedAt.Some? {
      AckedMeansDone(cfg, s.w, j);
    }
  }

  lemma AckedMeansDone(cfg: Config, w: World, j: JobId)
    requires Inv(cfg, w) && j in w.jobs && w.jobs[j].ackedAt.Some?
    ensures w.jobs[j].status.Done?
  {
    assert RowInv(cfg, w.jobs[j], w.ledgers[j]);
  }

  // ---------- ack events ----------

  /** The queue's invariant does not look at acked_at, transcript_path or the files of a DONE job. */
  ghost predicate AckTouch(job: Job, job': Job) {
    job.status.Done? && job' == job.(ackedAt := job'.ackedAt, transcriptPath := job'.transcriptPath)
  }

  ghost predicate OnlyAckTouches(w: World, w': World) {
    && w' == w.(jobs := w'.jobs, files := w'.files)
    && w'.jobs.Keys == w.jobs.Keys
    && forall j | j in w.jobs :: w'.jobs[j] == w.jobs[j] || AckTouch(w.jobs[j], w'.jobs[j])
  }

  lemma TouchKeepsRows(cfg: Config, w: World, w': World)
    requires OnlyAckTouches(w, w') && RowsInv(cfg, w.jobs, w.ledgers)
    ensures RowsInv(cfg, w'.jobs, w'.ledgers)
  {
    hide RowInv;
    forall j | j in w.jobs ensures RowInv(cfg, w'.jobs[j], w'.ledgers[j]) {
      assert RowInv(cfg, w.jobs[j], w.ledgers[j]);
      if w'.jobs[j] != w.jobs[j] {
        TouchKeepsRow(cfg, w.jobs[j], w'.jobs[j], w.ledgers[j]);
      }
    }
  }

  lemma TouchKeepsRow(cfg: Config, job: Job, job': Job, led: Ledger)
    requires RowInv(cfg, job, led) && AckTouch(job, job')
    ensures RowInv(cfg, job', led)
  {
  }

  lemma TouchMovesTable(w: World, w': World)
    requires OnlyAckTouches(w, w') && w.jobs.Keys == w.ledgers.Keys
    ensures TableMoves(w, w')
  {
  }

  lemma TouchKeepsMetrics(w: World, w': World)
    requires OnlyAckTouches(w, w') && MetricsInv(w)
    ensures MetricsInv(w')
  {
    hide FailedRows;
    forall c ensures FailedRows(w'.jobs, c) == FailedRows(w.jobs, c) {
      SameFailedRows(w.jobs, w'.jobs, c);
    }
  }

  lemma TouchKeepsLeases(w: World, w': World)
    requires OnlyAckTouches(w, w') && NoLossInv(w)
    ensures NoLossInv(w')
  {
    hide NoReclaims;
    if NoReclaims(w.ledgers) {
      forall i | 0 <= i < |w.workers| ensures OwnsLease(w'.jobs, w'.issued, i, w'.workers[i]) {
        assert OwnsLease(w.jobs, w.issued, i, w.workers[i]);
      }
    }
  }

  lemma AckTouchKeepsInv(cfg: Config, w: World, w': World)
    requires Inv(cfg, w) && OnlyAckTouches(w, w')
    ensures Inv(cfg, w')
  {
    assert WellKeyed(w'.jobs);
    hide RowsInv, TokenInv, PhaseInv, FifoInv, MetricsInv, NoLossInv, TableMoves, OnlyAckTouches, WellKeyed;
    UnfoldRows(cfg, w);
    TouchKeepsRows(cfg, w, w');
    TouchMovesTable(w, w');
    MovesKeepTokens(w, w');
    MovesKeepFifo(w, w');
    forall i | 0 <= i < |w.workers| ensures PhaseInv(cfg, w'.jobs, w'.issued, w.workers[i]) {
      MovesKeepPhase(cfg, w, w', w.workers[i]);
    }
    TouchKeepsMetrics(w, w');
    TouchKeepsLeases(w, w');
    UnfoldTouch(w, w');
  }

  lemma UnfoldTouch(w: World, w': World)
    requires OnlyAckTouches(w, w')
    ensures w' == w.(jobs := w'.jobs, files := w'.files) && w'.jobs.Keys == w.jobs.Keys
  {
  }

  lemma TableAfter(s: State, b: AckId, at: Instant, fails: bool)
    requires AckReady(s, b, at)
    ensures b in s.acks && (s.acks[b].pc.UpdatePath? ==> s.acks[b].destination.Some?)
    ensures AckNext(s, b, at, fails).w.jobs ==
      (if s.acks[b].pc.Mark? then MarkAcked(s.w.jobs, s.acks[b].job, at).table
       else if s.acks[b].pc.UpdatePath?
       then UpdateTranscriptPath(s.w.jobs, s.acks[b].job, s.acks[b].destination.value).table
       else s.w.jobs)
  {
  }

  lemma WinnersAfter(s: State, a: AckId, at: Instant, fails: bool)
    requires AckReady(s, a, at)
    ensures a in s.acks && AckNext(s, a, at, fails).winners ==
      (if s.acks[a].pc.Mark? && MarkAcked(s.w.jobs, s.acks[a].job, at).hit then s.winners[s.acks[a].job := a]
       else s.winners)
  {
  }

  lemma AfterRename(s: State, a: AckId, at: Instant, fails: bool)
    requires AckReady(s, a, at) && s.acks[a].pc.Rename?
    ensures a in s.acks && s.acks[a].snap.Some? && s.acks[a].snap.value.transcriptPath.Some?
    ensures var ack := s.acks[a];
      var path := ack.snap.value.transcriptPath.value;
      AckNext(s, a, at, fails) ==
        if fails || path !in s.w.files then To(s, a, ack.(pc := Respond, destination := None))
        else To(s, a, ack.(pc := UpdatePath, destination := Some(Destination(path))))
               .(w := s.w.(files := s.w.files - {path} + {Destination(path)}))
  {
  }

  lemma AfterDiscover(s: State, a: AckId, at: Instant, fails: bool)
    requires AckReady(s, a, at) && s.acks[a].pc.Discover?
    ensures a in s.acks && s.acks[a].snap.Some? && s.acks[a].snap.value.transcriptPath.Some?
    ensures var ack := s.acks[a];
      var path := ack.snap.value.transcriptPath.value;
      AckNext(s, a, at, fails) ==
        if Destination(path) in s.w.files && Destination(path) != path
        then To(s, a, ack.(pc := UpdatePath, destination := Some(Destination(path))))
        else To(s, a, ack.(pc := Respond, destination := None))
  {
  }

  lemma MarkEffects(cfg: Config, s: State, a: AckId, at: Instant, fails: bool)
    requires SInv(cfg, s) && AckReady(s, a, at) && s.acks[a].pc.Mark?
    ensures var w' := AckNext(s, a, at, fails).w; OnlyAckTouches(s.w, w') && AckSafe(s.w, w') && FileInv(w')
  {
    hide Inv, ResponseInv;
    assert AckInv(s.w, s.winners, a, s.acks[a]);
    var w' := AckNext(s, a, at, fails).w;
    forall j | j in w'.jobs ensures TranscriptKept(w', j) {
      assert TranscriptKept(s.w, j);
    }
    forall i | 0 <= i < |w'.workers| && w'.workers[i].Written? ensures WrittenKept(w', i) {
      assert WrittenKept(s.w, i);
    }
  }

  lemma RenameEffects(cfg: Config, s: State, a: AckId, at: Instant, fails: bool)
    requires SInv(cfg, s) && AckReady(s, a, at) && s.acks[a].pc.Rename?
    ensures var w' := AckNext(s, a, at, fails).w; OnlyAckTouches(s.w, w') && AckSafe(s.w, w') && FileInv(w')
  {
    hide Inv, ResponseInv, AckNext, AckReady;
    AfterRename(s, a, at, fails);
    var k := s.acks[a].job;
    assert AckInv(s.w, s.winners, a, s.acks[a]);
    var w' := AckNext(s, a, at, fails).w;
    forall j | j in w'.jobs ensures TranscriptKept(w', j) {
      assert TranscriptKept(s.w, j);
      if j != k && TranscriptPath(j) == TranscriptPath(k) { SameNames(j, k); }
    }
    forall i | 0 <= i < |w'.workers| && w'.workers[i].Written? ensures WrittenKept(w', i) {
      assert WrittenKept(s.w, i);
      var j := w'.workers[i].snap.jobId;
      if j != k && TranscriptPath(j) == TranscriptPath(k) { SameNames(j, k); }
    }
  }

  lemma UpdatePathEffects(cfg: Config, s: State, a: AckId, at: Instant, fails: bool)
    requires SInv(cfg, s) && AckReady(s, a, at) && s.acks[a].pc.UpdatePath?
    ensures var w' := AckNext(s, a, at, fails).w; OnlyAckTouches(s.w, w') && AckSafe(s.w, w') && FileInv(w')
  {
    hide Inv, ResponseInv;
    assert AckInv(s.w, s.winners, a, s.acks[a]);
    var w' := AckNext(s, a, at, fails).w;
    forall j | j in w'.jobs ensures TranscriptKept(w', j) {
      assert TranscriptKept(s.w, j);
    }
    forall i | 0 <= i < |w'.workers| && w'.workers[i].Written? ensures WrittenKept(w', i) {
      assert WrittenKept(s.w, i);
    }
  }

  lemma AckEffects(cfg: Config, s: State, a: AckId, at: Instant, fails: bool)
    requires SInv(cfg, s) && AckReady(s, a, at)
    ensures var w' := AckNext(s, a, at, fails).w; OnlyAckTouches(s.w, w') && AckSafe(s.w, w') && FileInv(w')
  {
    hide AckInv, Inv, ResponseInv;
    match s.acks[a].pc
    case Mark => MarkEffects(cfg, s, a, at, fails);
    case Rename => RenameEffects(cfg, s, a, at, fails);
    case UpdatePath => UpdatePathEffects(cfg, s, a, at, fails);
    case _ =>
  }

  /** acked_at is set once: a second winner would need it to be NULL again. */
  lemma OneWinner(cfg: Config, s: State, a: AckId, at: Instant, fails: bool, j: JobId)
    requires SInv(cfg, s) && AckReady(s, a, at)
    ensures var s' := AckNext(s, a, at, fails);
      && (j in s.winners ==> j in s'.winners && s'.winners[j] == s.winners[j])
      && (j in s'.winners && j !in s.winners ==> s.acks[a].pc.Mark? && s'.winners[j] == a && j == s.acks[a].job)
      && (j in s'.winners ==> j in s'.w.jobs && s'.w.jobs[j].ackedAt.Some?)
  {
    hide Inv, ResponseInv, FileInv, OnlyAckTouches, SnapOfDone, AckNext, AckReady;
    WinnersAfter(s, a, at, fails);
    TableAfter(s, a, at, fails);
    AckEffects(cfg, s, a, at, fails);
    assert AckInv(s.w, s.winners, a, s.acks[a]);
  }

  lemma Keyed(cfg: Config, w: World)
    requires Inv(cfg, w)
    ensures WellKeyed(w.jobs)
  {
  }

  /** What an ack's own step needs to know. */
  ghost predicate OwnFacts(s: State, a: AckId) {
    && a in s.acks
    && AckInv(s.w, s.winners, a, s.acks[a])
    && TranscriptKept(s.w, s.acks[a].job)
    && s.w.jobs[s.acks[a].job].jobId == s.acks[a].job
  }

  lemma PathFacts(j: JobId)
    ensures TranscriptPath(j).directory.Results? && TrashPath(j).directory.Trash?
    ensures Destination(TranscriptPath(j)) == Destination(TrashPath(j)) == TrashPath(j)
  {
  }

  lemma ReadStep(cfg: Config, s: State, a: AckId, at: Instant, fails: bool)
    requires AckReady(s, a, at) && OwnFacts(s, a)
    requires s.acks[a].pc.Mark? || s.acks[a].pc.Fetch? || s.acks[a].pc.Refresh?
    ensures var s' := AckNext(s, a, at, fails); a in s'.acks && AckInv(s'.w, s'.winners, a, s'.acks[a])
  {
    hide TranscriptPath, TrashPath;
    PathFacts(s.acks[a].job);
  }

  lemma InTrashStep(s: State, a: AckId, at: Instant, fails: bool)
    requires AckReady(s, a, at) && OwnFacts(s, a) && s.acks[a].pc.InTrash?
    ensures var s' := AckNext(s, a, at, fails); a in s'.acks && AckInv(s'.w, s'.winners, a, s'.acks[a])
  {
    hide TranscriptPath, TrashPath;
    PathFacts(s.acks[a].job);
  }

  lemma SourceStep(s: State, a: AckId, at: Instant, fails: bool)
    requires AckReady(s, a, at) && OwnFacts(s, a) && s.acks[a].pc.Source?
    ensures var s' := AckNext(s, a, at, fails); a in s'.acks && AckInv(s'.w, s'.winners, a, s'.acks[a])
  {
    hide TranscriptPath, TrashPath;
    PathFacts(s.acks[a].job);
  }

  lemma DiscoverStep(s: State, a: AckId, at: Instant, fails: bool)
    requires AckReady(s, a, at) && OwnFacts(s, a) && s.acks[a].pc.Discover?
    ensures var s' := AckNext(s, a, at, fails); a in s'.acks && AckInv(s'.w, s'.winners, a, s'.acks[a])
  {
    hide TranscriptPath, TrashPath;
    PathFacts(s.acks[a].job);
  }

  lemma RenameStep(cfg: Config, s: State, a: AckId, at: Instant, fails: bool)
    requires AckReady(s, a, at) && (s.acks[a].pc.Rename?) && OwnFacts(s, a)
    ensures var s' := AckNext(s, a, at, fails); a in s'.acks && AckInv(s'.w, s'.winners, a, s'.acks[a])
  {
    hide TranscriptPath, TrashPath, AckNext, AckReady;
    AfterRename(s, a, at, fails);
    PathFacts(s.acks[a].job);
  }

  lemma UpdatePathStep(cfg: Config, s: State, a: AckId, at: Instant, fails: bool)
    requires AckReady(s, a, at) && (s.acks[a].pc.UpdatePath?) && OwnFacts(s, a)
    ensures var s' := AckNext(s, a, at, fails); a in s'.acks && AckInv(s'.w, s'.winners, a, s'.acks[a])
  {
    hide TranscriptPath, TrashPath;
    PathFacts(s.acks[a].job);
  }

  lemma OwnAckStep(cfg: Config, s: State, a: AckId, at: Instant, fails: bool)
    requires SInv(cfg, s) && AckReady(s, a, at) && !s.acks[a].pc.Respond?
    ensures var s' := AckNext(s, a, at, fails); a in s'.acks && AckInv(s'.w, s'.winners, a, s'.acks[a])
  {
    Keyed(cfg, s.w);
    hide Inv, ResponseInv, AckNext, AckInv;
    var pc := s.acks[a].pc;
    assert AckInv(s.w, s.winners, a, s.acks[a]);
    assert OwnFacts(s, a);
    hide SInv;
    match pc
    case Rename => RenameStep(cfg, s, a, at, fails);
    case UpdatePath => UpdatePathStep(cfg, s, a, at, fails);
    case InTrash => InTrashStep(s, a, at, fails);
    case Source => SourceStep(s, a, at, fails);
    case Discover => DiscoverStep(s, a, at, fails);
    case _ => ReadStep(cfg, s, a, at, fails);
  }

  lemma RespondStep(cfg: Config, s: State, a: AckId, at: Instant, fails: bool)
    requires SInv(cfg, s) && AckReady(s, a, at) && s.acks[a].pc.Respond?
    ensures var s' := AckNext(s, a, at, fails);
      a in s'.responses && ResponseInv(s'.w, s'.winners, a, s'.responses[a])
  {
    hide Inv;
    assert AckInv(s.w, s.winners, a, s.acks[a]);
  }

  lemma OtherAcksStep(cfg: Config, s: State, a: AckId, at: Instant, fails: bool, b: AckId)
    requires SInv(cfg, s) && AckReady(s, a, at) && b in s.acks
    ensures AckInv(AckNext(s, a, at, fails).w, AckNext(s, a, at, fails).winners, b, s.acks[b])
  {
    hide Inv, FileInv, ResponseInv, AckNext, OnlyAckTouches;
    var s' := AckNext(s, a, at, fails);
    AckEffects(cfg, s, a, at, fails);
    SafeForAck(s.w, s'.w, s.winners, b, s.acks[b]);
    OneWinner(cfg, s, a, at, fails, s.acks[b].job);
  }

  lemma OldResponsesStep(cfg: Config, s: State, a: AckId, at: Instant, fails: bool, b: AckId)
    requires SInv(cfg, s) && AckReady(s, a, at) && b in s.responses
    ensures ResponseInv(AckNext(s, a, at, fails).w, AckNext(s, a, at, fails).winners, b, s.responses[b])
  {
    hide Inv, FileInv, AckInv, AckNext, OnlyAckTouches;
    var s' := AckNext(s, a, at, fails);
    AckEffects(cfg, s, a, at, fails);
    SafeForResponse(s.w, s'.w, s.winners, b, s.responses[b]);
    if s.responses[b].Accepted? {
      OneWinner(cfg, s, a, at, fails, s.responses[b].job);
    }
  }

  lemma AckEventStep(cfg: Config, s: State, a: AckId, at: Instant, fails: bool)
    requires SInv(cfg, s) && AckReady(s, a, at)
    ensures SInv(cfg, AckNext(s, a, at, fails))
  {
    hide Inv, FileInv, AckInv, ResponseInv, AckNext, OnlyAckTouches, AckSafe;
    var s' := AckNext(s, a, at, fails);
    AckEffects(cfg, s, a, at, fails);
    AckTouchKeepsInv(cfg, s.w, s'.w);
    AckNextFrame(s, a, at, fails);
    forall b | b in s'.acks ensures AckInv(s'.w, s'.winners, b, s'.acks[b]) {
      if b == a {
        OwnAckStep(cfg, s, a, at, fails);
      } else {
        OtherAcksStep(cfg, s, a, at, fails, b);
      }
    }
    forall b | b in s'.responses ensures ResponseInv(s'.w, s'.winners, b, s'.responses[b]) {
      if b == a && s.acks[a].pc.Respond? {
        RespondStep(cfg, s, a, at, fails);
      } else {
        OldResponsesStep(cfg, s, a, at, fails, b);
      }
    }
    forall j | j in s'.winners ensures j in s'.w.jobs && s'.w.jobs[j].ackedAt.Some? {
      OneWinner(cfg, s, a, at, fails, j);
    }
  }

  lemma AckNextFrame(s: State, a: AckId, at: Instant, fails: bool)
    requires AckReady(s, a, at)
    ensures var s' := AckNext(s, a, at, fails);
      && (forall b | b in s'.acks && b != a :: b in s.acks && s'.acks[b] == s.acks[b])
      && (a in s'.acks <==> !s.acks[a].pc.Respond?)
      && (forall b | b in s'.responses && b != a :: b in s.responses && s'.responses[b] == s.responses[b])
      && (a in s'.responses && !s.acks[a].pc.Respond? ==> a in s.responses && s'.responses[a] == s.responses[a])
  {
    hide AckNext, AckReady;
    OwnEntries(s, a, at, fails);
  }

  /** A step touches only its own ack and response. */
  lemma OwnEntries(s: State, a: AckId, at: Instant, fails: bool)
    requires AckReady(s, a, at)
    ensures a in s.acks
    ensures var s' := AckNext(s, a, at, fails);
      if s.acks[a].pc.Respond?
      then s'.acks == s.acks - {a} && a in s'.responses && s'.responses == s.responses[a := s'.responses[a]]
      else a in s'.acks && s'.acks == s.acks[a := s'.acks[a]] && s'.responses == s.responses
  {
  }

  lemma BeginStep(cfg: Config, s: State, a: AckId, j: JobId)
    requires SInv(cfg, s) && SEnabled(cfg, s, AckBegin(a, j))
    ensures SInv(cfg, SStep(cfg, s, AckBegin(a, j)))
  {
    hide Inv, FileInv, AckInv, ResponseInv, AckNext, AckReady, Step, Enabled;
    var s' := SStep(cfg, s, AckBegin(a, j));
    if j in s.w.jobs && s.w.jobs[j].status.Done? {
      FreshAck(s.w, s.winners, a, j);
    } else {
      Refusal(s.w, s.winners, a, s'.responses[a]);
    }
  }

  lemma FreshAck(w: World, winners: map<JobId, AckId>, a: AckId, j: JobId)
    requires j in w.jobs && w.jobs[j].status.Done?
    ensures AckInv(w, winners, a, Ack(Mark, j, false, None, None))
  {
  }

  lemma Refusal(w: World, winners: map<JobId, AckId>, a: AckId, r: Response)
    requires !r.Accepted?
    ensures ResponseInv(w, winners, a, r)
  {
  }

  lemma FaultStep(cfg: Config, s: State, a: AckId)
    requires SInv(cfg, s) && SEnabled(cfg, s, AckFault(a))
    ensures SInv(cfg, SStep(cfg, s, AckFault(a)))
  {
    hide Inv, FileInv, AckInv;
  }

  lemma SInvStep(cfg: Config, s: State, e: ServiceEvent)
    requires SInv(cfg, s) && SEnabled(cfg, s, e)
    ensures SInv(cfg, SStep(cfg, s, e))
  {
    hide SInv, AckNext, Step, Enabled, AckReady;
    match e
    case QueueEvent(q) => QueueEventStep(cfg, s, q);
    case AckStep(a, at, fails) => AckEventStep(cfg, s, a, at, fails);
    case AckBegin(a, j) => BeginStep(cfg, s, a, j);
    case AckFault(a) => FaultStep(cfg, s, a);
  }

  lemma {:induction false} RunKeepsInv(cfg: Config, s: State, es: seq<ServiceEvent>)
    requires SInv(cfg, s) && Run(cfg, s, es).Some?
    ensures SInv(cfg, Run(cfg, s, es).value)
  {
    hide SInv, SStep, SEnabled;
    if es != [] {
      RunKeepsInv(cfg, s, es[..|es| - 1]);
      SInvStep(cfg, Run(cfg, s, es[..|es| - 1]).value, es[|es| - 1]);
    }
  }

  lemma ReachableInv(cfg: Config, s: State)
    requires Reachable(cfg, s)
    ensures SInv(cfg, s)
  {
    var n: nat, clock: Instant, es: seq<ServiceEvent> :| Run(cfg, Start(n, clock), es) == Some(s);
    InvInitial(cfg, n, clock);
    assert SInv(cfg, Start(n, clock)) by { hide Inv; }
    RunKeepsInv(cfg, Start(n, clock), es);
  }
}
