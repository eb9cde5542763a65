/** What every reachable state, and every run, of the service guarantees about acks and transcripts. */
module AckTheorems {
  import opened Wrappers
  import opened Timestamps
  import opened Jobs
  import opened JobTable
  import opened Queue
  import opened QueueInvariant
  import opened Service

  // ---------- transcripts are never lost ----------

  /** In every reachable state a DONE job has a file at its recorded path or at trash/basename(path):
      under faults between any two ack steps, concurrent acks and stale worker writes. */
  lemma TranscriptIsNeverLost(cfg: Config, s: State, j: JobId)
    requires Reachable(cfg, s) && j in s.w.jobs && s.w.jobs[j].status.Done?
    ensures s.w.jobs[j].transcriptPath.Some?
    ensures var path := s.w.jobs[j].transcriptPath.value;
      path.name == j + ".md" && (path in s.w.files || Destination(path) in s.w.files)
  {
    ReachableInv(cfg, s);
    hide Inv, AckInv, ResponseInv;
    assert TranscriptKept(s.w, j);
  }

  datatype Result = Ok(path: Path) | JobNotFound | JobFailed | NotReady | TranscriptMissing

  /** The outcome table of GET /jobs/{id}/result. */
  function GetResult(jobs: Table, files: set<Path>, j: JobId): Result {
    if j !in jobs then JobNotFound
    else if jobs[j].status.Failed? then JobFailed
    else if !jobs[j].status.Done? then NotReady
    else if jobs[j].transcriptPath.None? then TranscriptMissing
    else if jobs[j].transcriptPath.value !in files then TranscriptMissing
    else Ok(jobs[j].transcriptPath.value)
  }

  /** TRANSCRIPT_MISSING appears exactly while an ack has moved the file and the path has not followed. */
  lemma MissingExactlyWhileHalfMoved(cfg: Config, s: State, j: JobId)
    requires Reachable(cfg, s)
    ensures GetResult(s.w.jobs, s.w.files, j).TranscriptMissing? <==>
      && j in s.w.jobs && s.w.jobs[j].status.Done?
      && s.w.jobs[j].transcriptPath == Some(TranscriptPath(j))
      && TranscriptPath(j) !in s.w.files && TrashPath(j) in s.w.files
  {
    ReachableInv(cfg, s);
    hide Inv, AckInv, ResponseInv;
    if j in s.w.jobs {
      assert TranscriptKept(s.w, j);
    }
  }

  // ---------- acknowledged once ----------

  /** Over any number of concurrent and failing acks of one job: all accepted responses carry the same
      acked_at, which is the row's, and at most one of them says it was the first. */
  lemma AcksAgree(cfg: Config, s: State, a: AckId, b: AckId)
    requires Reachable(cfg, s) && a in s.responses && b in s.responses
    requires s.responses[a].Accepted? && s.responses[b].Accepted? && s.responses[a].job == s.responses[b].job
    ensures s.responses[a].ackedAt.Some? && s.responses[a].ackedAt == s.responses[b].ackedAt
    ensures s.responses[a].job in s.w.jobs && s.responses[a].ackedAt == s.w.jobs[s.responses[a].job].ackedAt
    ensures !s.responses[a].alreadyAcked && !s.responses[b].alreadyAcked ==> a == b
  {
    ReachableInv(cfg, s);
    hide Inv, FileInv, AckInv;
    assert ResponseInv(s.w, s.winners, a, s.responses[a]);
    assert ResponseInv(s.w, s.winners, b, s.responses[b]);
  }

  lemma AckedAckStep(cfg: Config, s: State, a: AckId, at: Instant, fails: bool, j: JobId)
    requires SInv(cfg, s) && AckReady(s, a, at)
    requires j in s.w.jobs && s.w.jobs[j].ackedAt.Some?
    ensures var w' := AckNext(s, a, at, fails).w; j in w'.jobs && w'.jobs[j].ackedAt == s.w.jobs[j].ackedAt
  {
    AckedRow(cfg, s, j);
    AckEffects(cfg, s, a, at, fails);
    hide SInv, AckNext, AckReady, OnlyAckTouches;
  }

  lemma AckedStep(cfg: Config, s: State, e: ServiceEvent, j: JobId)
    requires SInv(cfg, s) && SEnabled(cfg, s, e)
    requires j in s.w.jobs && s.w.jobs[j].ackedAt.Some?
    ensures j in SStep(cfg, s, e).w.jobs && SStep(cfg, s, e).w.jobs[j].ackedAt == s.w.jobs[j].ackedAt
  {
    hide Inv, FileInv, AckInv, ResponseInv, Step, Enabled, AckNext, AckReady;
    match e
    case QueueEvent(q) =>
      AckedRow(cfg, s, j);
      DoneIsAbsorbing(cfg, s.w, q, j);
    case AckStep(a, at, fails) => AckedAckStep(cfg, s, a, at, fails, j);
    case _ =>
  }

  lemma AckedRow(cfg: Config, s: State, j: JobId)
    requires SInv(cfg, s) && j in s.w.jobs && s.w.jobs[j].ackedAt.Some?
    ensures s.w.jobs[j].status.Done?
  {
    hide Inv, FileInv, AckInv, ResponseInv;
    AckedMeansDone(cfg, s.w, j);
  }

  /** acked_at, once set, never changes. */
  lemma {:induction false} AckedAtIsForever(cfg: Config, s: State, es: seq<ServiceEvent>, j: JobId)
    requires SInv(cfg, s) && Run(cfg, s, es).Some? && j in s.w.jobs && s.w.jobs[j].ackedAt.Some?
    ensures j in Run(cfg, s, es).value.w.jobs
    ensures Run(cfg, s, es).value.w.jobs[j].ackedAt == s.w.jobs[j].ackedAt
  {
    if es != [] {
      hide SInv, SStep, SEnabled;
      var n := |es| - 1;
      AckedAtIsForever(cfg, s, es[..n], j);
      RunKeepsInv(cfg, s, es[..n]);
      AckedStep(cfg, Run(cfg, s, es[..n]).value, es[n], j);
    }
  }

  lemma FinishedStep(cfg: Config, s: State, e: ServiceEvent, j: JobId)
    requires SInv(cfg, s) && SEnabled(cfg, s, e) && j in s.w.jobs && s.w.jobs[j].status.Done?
    ensures var w' := SStep(cfg, s, e).w;
      j in w'.jobs && w'.jobs[j].status.Done? && (TrashPath(j) in s.w.files ==> TrashPath(j) in w'.files)
  {
    hide Inv, FileInv, AckInv, ResponseInv, Step, Enabled, AckNext, AckReady, OnlyAckTouches;
    match e
    case QueueEvent(q) => QueueIsAckSafe(cfg, s.w, q);
    case AckStep(a, at, fails) => AckEffects(cfg, s, a, at, fails);
    case _ =>
  }

  /** A DONE job stays DONE, and a trashed transcript stays in the trash, whatever happens next. */
  lemma {:induction false} FinishedIsForever(cfg: Config, s: State, es: seq<ServiceEvent>, j: JobId)
    requires SInv(cfg, s) && Run(cfg, s, es).Some? && j in s.w.jobs && s.w.jobs[j].status.Done?
    ensures var w' := Run(cfg, s, es).value.w;
      j in w'.jobs && w'.jobs[j].status.Done? && (TrashPath(j) in s.w.files ==> TrashPath(j) in w'.files)
  {
    if es != [] {
      hide SInv, SStep, SEnabled;
      var n := |es| - 1;
      FinishedIsForever(cfg, s, es[..n], j);
      RunKeepsInv(cfg, s, es[..n]);
      FinishedStep(cfg, Run(cfg, s, es[..n]).value, es[n], j);
    }
  }

  /** Someone who read a DONE row earlier finds the file where that row said, or in the trash. */
  lemma MovedIfGone(cfg: Config, s: State, es: seq<ServiceEvent>, j: JobId)
    requires Reachable(cfg, s) && Run(cfg, s, es).Some? && j in s.w.jobs && s.w.jobs[j].status.Done?
    ensures var t := Run(cfg, s, es).value.w;
      j in t.jobs && t.jobs[j].status.Done?
      && s.w.jobs[j].transcriptPath.Some? && s.w.jobs[j].transcriptPath.value.name == j + ".md"
      && (s.w.jobs[j].transcriptPath.value !in t.files ==>
            s.w.jobs[j].transcriptPath == Some(TranscriptPath(j)) && TrashPath(j) in t.files)
  {
    ReachableInv(cfg, s);
    FinishedIsForever(cfg, s, es, j);
    RunKeepsInv(cfg, s, es);
    hide Run, Inv, AckInv, ResponseInv;
    assert TranscriptKept(s.w, j);
    assert TranscriptKept(Run(cfg, s, es).value.w, j);
  }

  // ---------- convergence ----------

  function Left(pc: AckPc): nat {
    match pc
    case Mark => 8
    case Fetch => 7
    case InTrash => 6
    case Source => 5
    case Discover => 4
    case Rename => 3
    case UpdatePath => 2
    case Refresh => 1
    case Respond => 0
  }

  lemma AckIsReady(cfg: Config, s: State, a: AckId, at: Instant)
    requires SInv(cfg, s) && a in s.acks && at <= s.w.clock
    ensures AckReady(s, a, at)
  {
    hide Inv, FileInv, ResponseInv;
    assert AckInv(s.w, s.winners, a, s.acks[a]);
  }

  /** What an ack that runs alone knows at each point is still true. */
  ghost predicate Undisturbed(s: State, a: AckId) {
    && a in s.acks && s.acks[a].job in s.w.jobs
    && var ack, row := s.acks[a], s.w.jobs[s.acks[a].job];
      && (ack.pc.InTrash? || ack.pc.Source? || ack.pc.Discover? || ack.pc.Rename? ==> ack.snap == Some(row))
      && (ack.pc.Source? || ack.pc.Discover? || ack.pc.Rename? ==> row.transcriptPath == Some(TranscriptPath(ack.job)))
      && (ack.pc.Rename? ==> TranscriptPath(ack.job) in s.w.files)
      && (ack.pc.Discover? ==> TranscriptPath(ack.job) !in s.w.files)
      && (ack.pc.Refresh? || ack.pc.Respond? ==> row.transcriptPath == Some(TrashPath(ack.job)))
      && (ack.pc.Respond? ==> ack.snap.Some? && ack.snap.value.transcriptPath == Some(TrashPath(ack.job))
                              && ack.destination == Some(TrashPath(ack.job)))
  }

  ghost predicate UndisturbedAfter(s: State, s': State, a: AckId)
    requires a in s.acks
  {
    && Undisturbed(s', a)
    && s'.acks[a].job == s.acks[a].job
    && Left(s'.acks[a].pc) < Left(s.acks[a].pc)
    && s'.w.clock == s.w.clock
  }

  lemma AloneUntilLook(s: State, a: AckId, at: Instant)
    requires OwnFacts(s, a) && AckReady(s, a, at) && Undisturbed(s, a)
    requires s.acks[a].pc.Mark? || s.acks[a].pc.Fetch? || s.acks[a].pc.InTrash?
    ensures UndisturbedAfter(s, AckNext(s, a, at, false), a)
  {
    hide TranscriptPath, TrashPath;
    PathFacts(s.acks[a].job);
  }

  lemma AloneInMove(s: State, a: AckId, at: Instant)
    requires OwnFacts(s, a) && AckReady(s, a, at) && Undisturbed(s, a)
    requires s.acks[a].pc.Source? || s.acks[a].pc.Discover? || s.acks[a].pc.Rename?
    ensures UndisturbedAfter(s, AckNext(s, a, at, false), a)
  {
    hide TranscriptPath, TrashPath;
    PathFacts(s.acks[a].job);
  }

  lemma AloneAfterMove(s: State, a: AckId, at: Instant)
    requires OwnFacts(s, a) && AckReady(s, a, at) && Undisturbed(s, a)
    requires s.acks[a].pc.UpdatePath? || s.acks[a].pc.Refresh?
    ensures UndisturbedAfter(s, AckNext(s, a, at, false), a)
  {
    hide TranscriptPath, TrashPath;
    PathFacts(s.acks[a].job);
  }

  lemma OwnFactsOf(cfg: Config, s: State, a: AckId)
    requires SInv(cfg, s) && a in s.acks
    ensures OwnFacts(s, a)
  {
    Keyed(cfg, s.w);
    hide Inv, ResponseInv;
    assert AckInv(s.w, s.winners, a, s.acks[a]);
  }

  lemma UndisturbedStep(cfg: Config, s: State, a: AckId, at: Instant)
    requires SInv(cfg, s) && AckReady(s, a, at) && Undisturbed(s, a) && !s.acks[a].pc.Respond?
    ensures UndisturbedAfter(s, AckNext(s, a, at, false), a)
  {
    OwnFactsOf(cfg, s, a);
    hide SInv, AckNext, OwnFacts;
    if s.acks[a].pc.Mark? || s.acks[a].pc.Fetch? || s.acks[a].pc.InTrash? {
      AloneUntilLook(s, a, at);
    } else if s.acks[a].pc.UpdatePath? || s.acks[a].pc.Refresh? {
      AloneAfterMove(s, a, at);
    } else {
      AloneInMove(s, a, at);
    }
  }

  ghost predicate Converged(s: State, a: AckId, j: JobId) {
    && a in s.responses && s.responses[a].Accepted? && s.responses[a].job == j
    && s.responses[a].transcriptMoved && s.responses[a].path == Some(TrashPath(j))
    && j in s.w.jobs && s.w.jobs[j].transcriptPath == Some(TrashPath(j)) && TrashPath(j) in s.w.files
    && GetResult(s.w.jobs, s.w.files, j) == Ok(TrashPath(j))
  }

  lemma LastStep(cfg: Config, s: State, a: AckId, at: Instant)
    requires SInv(cfg, s) && AckReady(s, a, at) && Undisturbed(s, a) && s.acks[a].pc.Respond?
    ensures Converged(AckNext(s, a, at, false), a, s.acks[a].job)
  {
    hide Inv, ResponseInv, TranscriptPath, TrashPath;
    PathFacts(s.acks[a].job);
    assert AckInv(s.w, s.winners, a, s.acks[a]);
    assert TranscriptKept(s.w, s.acks[a].job);
  }

  /** A run in which only ack `a` moves, without faults, from `es` on. */
  lemma {:induction false} FinishAlone(cfg: Config, s0: State, es: seq<ServiceEvent>, a: AckId, j: JobId, at: Instant)
    returns (rest: seq<ServiceEvent>)
    requires SInv(cfg, s0) && Run(cfg, s0, es).Some?
    requires var s := Run(cfg, s0, es).value; Undisturbed(s, a) && s.acks[a].job == j && at <= s.w.clock
    ensures forall e | e in rest :: e == AckStep(a, at, false)
    ensures |rest| <= Left(Run(cfg, s0, es).value.acks[a].pc) + 1
    ensures Run(cfg, s0, es + rest).Some? && Converged(Run(cfg, s0, es + rest).value, a, j)
    decreases Left(Run(cfg, s0, es).value.acks[a].pc)
  {
    hide SInv, AckNext, AckReady, Converged;
    var s := Run(cfg, s0, es).value;
    var step := AckStep(a, at, false);
    RunKeepsInv(cfg, s0, es);
    AckIsReady(cfg, s, a, at);
    assert (es + [step])[..|es|] == es;
    if s.acks[a].pc.Respond? {
      LastStep(cfg, s, a, at);
      rest := [step];
    } else {
      UndisturbedStep(cfg, s, a, at);
      var more := FinishAlone(cfg, s0, es + [step], a, j, at);
      rest := [step] + more;
      assert es + rest == es + [step] + more;
    }
  }

  /** Convergence: from any reachable state, one ack of a DONE job that meets no fault and no
      interference ends with the file in the trash, the row pointing at it, transcript_moved true
      and GET .../result serving it again, whatever earlier acks left behind. */
  lemma AckConverges(cfg: Config, s: State, a: AckId, j: JobId, at: Instant)
    returns (es: seq<ServiceEvent>)
    requires Reachable(cfg, s) && j in s.w.jobs && s.w.jobs[j].status.Done?
    requires a !in s.acks && a !in s.responses && at <= s.w.clock
    ensures 1 <= |es| <= 10 && es[..1] == [AckBegin(a, j)] && forall e | e in es[1..] :: e == AckStep(a, at, false)
    ensures Run(cfg, s, es).Some? && Converged(Run(cfg, s, es).value, a, j)
  {
    ReachableInv(cfg, s);
    var begin := [AckBegin(a, j)];
    BeginAlone(cfg, s, a, j);
    hide SInv, Converged, Undisturbed, Reachable, Run;
    var rest := FinishAlone(cfg, s, begin, a, j, at);
    es := begin + rest;
    assert es[1..] == rest;
  }

  lemma BeginAlone(cfg: Config, s: State, a: AckId, j: JobId)
    requires j in s.w.jobs && s.w.jobs[j].status.Done? && a !in s.acks && a !in s.responses
    ensures Run(cfg, s, [AckBegin(a, j)]).Some?
    ensures var t := Run(cfg, s, [AckBegin(a, j)]).value;
      Undisturbed(t, a) && t.acks[a].job == j && t.acks[a].pc.Mark? && t.w == s.w
  {
    var begin := [AckBegin(a, j)];
    assert begin[..0] == [];
    assert Run(cfg, s, []) == Some(s);
  }

  /** Nothing but ack a happens. */
  predicate Alone(es: seq<ServiceEvent>, a: AckId) {
    forall e | e in es :: (e.AckBegin? || e.AckStep? || e.AckFault?) && e.a == a
  }

  /** Where an ack that runs alone and meets no fault can be. */
  ghost predicate AloneInv(cfg: Config, s: State, t: State, a: AckId) {
    && SInv(cfg, t)
    && (a in t.acks ==> a !in t.responses && Undisturbed(t, a))
    && (a !in t.acks && a !in t.responses ==> t == s)
    && (a in t.responses && t.responses[a].Accepted? ==> Converged(t, a, t.responses[a].job))
  }

  lemma AloneBegins(cfg: Config, s: State, t: State, a: AckId, j: JobId)
    requires AloneInv(cfg, s, t, a) && SEnabled(cfg, t, AckBegin(a, j))
    ensures AloneInv(cfg, s, SStep(cfg, t, AckBegin(a, j)), a)
  {
    hide SInv, Converged, AckNext, AckReady, Step, Enabled;
    SInvStep(cfg, t, AckBegin(a, j));
  }

  lemma AloneResponds(cfg: Config, s: State, t: State, a: AckId, at: Instant)
    requires AloneInv(cfg, s, t, a) && a in t.acks && AckReady(t, a, at) && t.acks[a].pc.Respond?
    ensures AloneInv(cfg, s, AckNext(t, a, at, false), a)
  {
    hide SInv, Undisturbed, AckNext, AckReady, GetResult, SStep;
    AckEventStep(cfg, t, a, at, false);
    AckNextFrame(t, a, at, false);
    LastStep(cfg, t, a, at);
  }

  lemma AloneMoves(cfg: Config, s: State, t: State, a: AckId, at: Instant)
    requires AloneInv(cfg, s, t, a) && a in t.acks && AckReady(t, a, at) && !t.acks[a].pc.Respond?
    ensures AloneInv(cfg, s, AckNext(t, a, at, false), a)
  {
    hide SInv, AckNext, AckReady, Converged, Undisturbed, SStep;
    AckEventStep(cfg, t, a, at, false);
    AckNextFrame(t, a, at, false);
    UndisturbedStep(cfg, t, a, at);
  }

  lemma AloneStep(cfg: Config, s: State, t: State, a: AckId, e: ServiceEvent)
    requires AloneInv(cfg, s, t, a) && SEnabled(cfg, t, e) && Alone([e], a) && !IsFault(e, a)
    ensures AloneInv(cfg, s, SStep(cfg, t, e), a)
  {
    assert e in [e];
    hide AloneInv, AckNext, AckReady;
    if e.AckBegin? {
      AloneBegins(cfg, s, t, a, e.job);
    } else {
      assert e.AckStep?;
      if t.acks[a].pc.Respond? {
        AloneResponds(cfg, s, t, a, e.at);
      } else {
        AloneMoves(cfg, s, t, a, e.at);
      }
    }
  }

  lemma {:induction false} AloneRun(cfg: Config, s: State, es: seq<ServiceEvent>, a: AckId)
    requires SInv(cfg, s) && a !in s.acks && a !in s.responses
    requires Run(cfg, s, es).Some? && Alone(es, a) && FaultsOf(es, a) == 0
    ensures AloneInv(cfg, s, Run(cfg, s, es).value, a)
  {
    hide SStep, SEnabled, SInv;
    if es != [] {
      var n := |es| - 1;
      AloneRun(cfg, s, es[..n], a);
      hide AloneInv;
      assert es[n] in es;
      AloneStep(cfg, s, Run(cfg, s, es[..n]).value, a, es[n]);
    }
  }
}
