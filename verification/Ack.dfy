/** GET /jobs/{id}/result and POST /jobs/{id}/ack as the code runs them, with everybody else acting at
    every await and between any two file operations. */
module Ack {
  import opened Wrappers
  import opened Timestamps
  import opened Jobs
  import JobStore
  import Metrics
  import opened Queue
  import QueueInvariant
  import opened Service
  import opened AckTheorems
  import opened AckRaces
  import opened Runtime

  /** `moved` is true iff this call performed the rename; `destination` is where the file then lives. */
  datatype MoveOutcome = MoveOutcome(moved: bool, destination: Option<Path>)

  /** The five database statements of an ack. */
  datatype Statement = PreFlightGet | AckUpdate | AckedGet | PathUpdate | RefreshGet

  class AckEndpoint {
    const rt: Runtime
    const a: AckId

    ghost predicate At(ack: Ack)
      reads rt`state
    {
      a in rt.state.acks && rt.state.acks[a] == ack && a !in rt.state.responses
    }

    /** Serves the request without any fault so far. */
    ghost predicate Since(past: seq<ServiceEvent>)
      reads rt`past
    {
      past <= rt.past && FaultsOf(rt.past, a) == FaultsOf(past, a)
    }

    constructor (rt: Runtime, a: AckId)
      ensures this.rt == rt && this.a == a
    {
      this.rt := rt;
      this.a := a;
    }

    lemma JobExists(ack: Ack)
      requires rt.Traced() && At(ack)
      ensures ack.job in rt.state.w.jobs && rt.state.w.jobs[ack.job].status == Done
      ensures ack.snap.Some? ==>
        ack.snap.value.jobId == ack.job && ack.snap.value.ackedAt == rt.state.w.jobs[ack.job].ackedAt
    {
      rt.Invariant();
      OwnFactsOf(rt.cfg, rt.state, a);
      AckIsReady(rt.cfg, rt.state, a, rt.state.w.clock);
    }

    ghost method Record(e: ServiceEvent)
      requires rt.Traced() && SEnabled(rt.cfg, rt.state, e)
      modifies rt`state, rt`past
      ensures rt.Traced() && rt.state == SStep(rt.cfg, old(rt.state), e) && rt.past == old(rt.past) + [e]
      ensures FaultsOf(rt.past, a) == FaultsOf(old(rt.past), a) + (if IsFault(e, a) then 1 else 0)
    {
      hide SStep, SEnabled, Runtime.Traced;
      rt.Record(e);
      assert rt.past[..|rt.past| - 1] == old(rt.past);
    }

    /** The pre-flight get: 404, 409, or go on. */
    method PreFlight(jobId: JobId) returns (refusal: Option<Response>)
      requires rt.Valid() && a !in rt.state.acks && a !in rt.state.responses
      modifies rt, rt.store, rt.counter
      ensures rt.Valid() && old(rt.clock) <= rt.clock && Since(old(rt.past))
      ensures refusal.None? ==> At(Service.Ack(Mark, jobId, false, None, None))
      ensures refusal.Some? ==>
        && a in rt.state.responses && rt.state.responses[a] == refusal.value && a !in rt.state.acks
        && (refusal.value.NotFound? || refusal.value.NotDone?)
      ensures refusal == Some(NotFound) <==> jobId !in rt.store.jobs
      ensures refusal == Some(NotDone) <==> jobId in rt.store.jobs && !rt.store.jobs[jobId].status.Done?
    {
      hide JobStore.Encodes, Runtime.Traced, Metrics.ErrorRateCounter.Valid, FaultsOf;
      rt.OthersAck(a);
      var pre := rt.store.Get(jobId);
      Record(AckBegin(a, jobId));
      refusal := if pre.None? then Some(NotFound)
                 else if !pre.value.status.Done? then Some(NotDone)
                 else None;
    }

    /** The UPDATE of mark_acked. */
    method MarkAcked(jobId: JobId) returns (newly: bool)
      requires rt.Valid() && At(Service.Ack(Mark, jobId, false, None, None))
      modifies rt, rt.store, rt.counter
      ensures rt.Valid() && old(rt.clock) <= rt.clock && Since(old(rt.past))
      ensures At(Service.Ack(Fetch, jobId, newly, None, None))
      ensures jobId in rt.store.jobs
      ensures newly ==> exists t :: rt.store.jobs[jobId].ackedAt == Some(t) && old(rt.clock) <= t <= rt.clock
      ensures MarkedAt(rt.past, jobId, newly)
    {
      hide JobStore.Encodes, Runtime.Traced, Metrics.ErrorRateCounter.Valid, FaultsOf;
      var now := rt.clock;
      rt.OthersAck(a);
      JobExists(Service.Ack(Mark, jobId, false, None, None));
      rt.TheRunSoFar();
      ghost var before := rt.past;
      newly := rt.store.MarkAcked(jobId, now);
      Record(AckStep(a, now, false));
      assert rt.past[..|rt.past| - 1] == before;
    }

    /** The run has just come to this ack's UPDATE, which set acked_at if and only if nobody had. */
    ghost predicate MarkedAt(past: seq<ServiceEvent>, jobId: JobId, newly: bool) {
      && past != [] && past[|past| - 1].AckStep? && past[|past| - 1].a == a
      && var before := Run(rt.cfg, Start(rt.workers, rt.began), past[..|past| - 1]);
         && before.Some? && a in before.value.acks && before.value.acks[a].pc.Mark?
         && jobId in before.value.w.jobs && before.value.w.jobs[jobId].status == Done
         && (newly <==> before.value.w.jobs[jobId].ackedAt.None?)
    }

    ghost predicate MarkedSince(start: seq<ServiceEvent>, jobId: JobId, newly: bool)
      reads rt`past
    {
      exists past :: start <= past <= rt.past && MarkedAt(past, jobId, newly)
    }

    /** mark_acked's get. */
    method FetchJob(jobId: JobId, newly: bool) returns (job: Job)
      requires rt.Valid() && At(Service.Ack(Fetch, jobId, newly, None, None))
      modifies rt, rt.store, rt.counter
      ensures rt.Valid() && old(rt.clock) <= rt.clock && Since(old(rt.past))
      ensures At(Service.Ack(InTrash, jobId, newly, Some(job), None))
      ensures old(jobId in rt.store.jobs && rt.store.jobs[jobId].ackedAt.Some?) ==>
        job.ackedAt == old(rt.store.jobs[jobId].ackedAt)
    {
      hide JobStore.Encodes, Metrics.ErrorRateCounter.Valid, FaultsOf, Run;
      rt.OthersAck(a);
      if old(jobId in rt.store.jobs && rt.store.jobs[jobId].ackedAt.Some?) {
        AckedAtStays(jobId);
      }
      JobExists(Service.Ack(Fetch, jobId, newly, None, None));
      var found := rt.store.Get(jobId);
      job := found.value;
      Record(AckStep(a, rt.clock, false));
    }

    twostate lemma AckedAtStays(jobId: JobId)
      requires old(rt.Valid()) && rt.Valid() && old(rt.past) <= rt.past
      requires old(jobId in rt.store.jobs && rt.store.jobs[jobId].ackedAt.Some?)
      ensures jobId in rt.store.jobs && rt.store.jobs[jobId].ackedAt == old(rt.store.jobs[jobId].ackedAt)
    {
      hide SStep, SEnabled, JobStore.Encodes, Metrics.ErrorRateCounter.Valid, SInv;
      RunSince();
      ReachableInv(rt.cfg, old(rt.state));
      AckedAtIsForever(rt.cfg, old(rt.state), rt.past[|old(rt.past)|..], jobId);
    }

    method CurrentlyInTrash(jobId: JobId, newly: bool, job: Job) returns (inTrash: bool)
      requires rt.Valid() && At(Service.Ack(InTrash, jobId, newly, Some(job), None))
      modifies rt, rt.store, rt.counter
      ensures rt.Valid() && old(rt.clock) <= rt.clock && Since(old(rt.past))
      ensures inTrash == InTrashNow(job.transcriptPath, rt.disk)
      ensures inTrash <==>
        job.transcriptPath.Some? && job.transcriptPath.value.directory == Trash && job.transcriptPath.value in rt.disk
      ensures At(if inTrash then Service.Ack(Respond, jobId, newly, Some(job), job.transcriptPath)
                 else Service.Ack(if job.transcriptPath.None? then Respond else Source, jobId, newly, Some(job), None))
    {
      hide JobStore.Encodes, Runtime.Traced, Metrics.ErrorRateCounter.Valid, FaultsOf;
      rt.OthersAck(a);
      JobExists(Service.Ack(InTrash, jobId, newly, Some(job), None));
      inTrash := job.transcriptPath.Some? && job.transcriptPath.value.directory.Trash?
                 && job.transcriptPath.value in rt.disk;
      Record(AckStep(a, rt.clock, false));
    }

    /** The source is gone: find the canonical file in the trash, if an earlier move put it there. */
    method Discover(ghost ack: Ack, path: Path) returns (outcome: MoveOutcome)
      requires rt.Valid() && At(ack) && ack.pc.Discover? && ack.destination.None?
      requires ack.snap.Some? && ack.snap.value.transcriptPath == Some(path)
      modifies rt, rt.store, rt.counter
      ensures rt.Valid() && old(rt.clock) <= rt.clock && Since(old(rt.past))
      ensures At(ack.(pc := if outcome.destination.Some? then UpdatePath else Respond,
                      destination := outcome.destination))
      ensures !outcome.moved
      ensures outcome.destination == if Destination(path) in rt.disk && Destination(path) != path
                                     then Some(Destination(path)) else None
    {
      hide JobStore.Encodes, Runtime.Traced, Metrics.ErrorRateCounter.Valid, FaultsOf, AckNext;
      rt.OthersAck(a);
      JobExists(ack);
      AfterDiscover(rt.state, a, rt.clock, false);
      var canonical := Path(Trash, path.name);
      outcome := MoveOutcome(false, if canonical in rt.disk && canonical != path then Some(canonical) else None);
      Record(AckStep(a, rt.clock, false));
    }

    /** Path.replace. It fails if the source has disappeared, or for any other OSError (`refused`). */
    method Rename(ghost ack: Ack, path: Path, refused: bool) returns (outcome: MoveOutcome)
      requires rt.Valid() && At(ack) && ack.pc.Rename? && ack.destination.None?
      requires ack.snap.Some? && ack.snap.value.transcriptPath == Some(path) && path != Destination(path)
      modifies rt, rt.store, rt.counter
      ensures rt.Valid() && old(rt.clock) <= rt.clock && old(rt.past) <= rt.past
      ensures !refused ==> Since(old(rt.past))
      ensures At(ack.(pc := if outcome.destination.Some? then UpdatePath else Respond,
                      destination := outcome.destination))
      ensures outcome.moved == outcome.destination.Some?
      ensures outcome.moved ==>
        outcome.destination == Some(Destination(path)) && Destination(path) in rt.disk && path !in rt.disk
    {
      hide JobStore.Encodes, Runtime.Traced, Metrics.ErrorRateCounter.Valid, FaultsOf;
      rt.OthersAck(a);
      JobExists(ack);
      if refused || path !in rt.disk {
        outcome := MoveOutcome(false, None);
      } else {
        rt.disk := rt.disk - {path} + {Path(Trash, path.name)};
        outcome := MoveOutcome(true, Some(Path(Trash, path.name)));
      }
      Record(AckStep(a, rt.clock, refused));
    }

    /** Does the source exist, and is it the destination itself? Returns what is left to do. */
    method LookAtSource(ghost ack: Ack, path: Path) returns (next: AckPc)
      requires rt.Valid() && At(ack) && ack.pc.Source? && ack.destination.None?
      requires ack.snap.Some? && ack.snap.value.transcriptPath == Some(path)
      modifies rt, rt.store, rt.counter
      ensures rt.Valid() && old(rt.clock) <= rt.clock && Since(old(rt.past))
      ensures next == if path !in rt.disk then AckPc.Discover
                      else if path == Destination(path) then UpdatePath
                      else AckPc.Rename
      ensures At(ack.(pc := next, destination := if next.UpdatePath? then Some(path) else None))
    {
      hide JobStore.Encodes, Runtime.Traced, Metrics.ErrorRateCounter.Valid, FaultsOf;
      rt.OthersAck(a);
      JobExists(ack);
      next := if path !in rt.disk then AckPc.Discover
              else if path == Path(Trash, path.name) then UpdatePath
              else AckPc.Rename;
      Record(AckStep(a, rt.clock, false));
    }

    /** The file is at the destination named in the outcome when this returns, whoever moved it; a
        rename by this call also means the source is gone. */
    method MoveToTrash(ghost ack: Ack, source: Option<Path>, refused: bool) returns (outcome: MoveOutcome)
      requires rt.Valid() && At(ack) && ack.destination.None?
      requires ack.snap.Some? && ack.snap.value.transcriptPath == source
      requires ack.pc == if source.None? then Respond else Source
      modifies rt, rt.store, rt.counter
      ensures rt.Valid() && old(rt.clock) <= rt.clock && old(rt.past) <= rt.past
      ensures !refused ==> Since(old(rt.past))
      ensures At(ack.(pc := if outcome.destination.Some? then UpdatePath else Respond,
                      destination := outcome.destination))
      ensures outcome.destination.Some? ==>
        && source.Some?
        && outcome.destination == Some(Path(Trash, source.value.name))
        && outcome.destination.value in rt.disk
      ensures outcome.moved ==>
        outcome.destination.Some? && source.value !in rt.disk
    {
      hide Runtime.Valid, FaultsOf;
      if source.None? {
        return MoveOutcome(false, None);
      }
      var next := LookAtSource(ack, source.value);
      if next.Discover? {
        outcome := Discover(ack.(pc := next), source.value);
      } else if next.UpdatePath? {
        outcome := MoveOutcome(false, source);
      } else {
        outcome := Rename(ack.(pc := next), source.value, refused);
      }
    }

    method UpdateTranscriptPath(ghost ack: Ack, jobId: JobId, path: Path)
      requires rt.Valid() && At(ack) && ack.job == jobId && ack.pc.UpdatePath? && ack.destination == Some(path)
      modifies rt, rt.store, rt.counter
      ensures rt.Valid() && old(rt.clock) <= rt.clock && Since(old(rt.past)) && At(ack.(pc := Refresh))
    {
      hide JobStore.Encodes, Runtime.Traced, Metrics.ErrorRateCounter.Valid, FaultsOf;
      rt.OthersAck(a);
      JobExists(ack);
      var ignored := rt.store.UpdateTranscriptPath(jobId, path);
      Record(AckStep(a, rt.clock, false));
    }

    /** `await store.get(job_id) or job`: no job row is ever deleted. */
    method RefreshJob(ghost ack: Ack, jobId: JobId) returns (job: Job)
      requires rt.Valid() && At(ack) && ack.job == jobId && ack.pc.Refresh?
      modifies rt, rt.store, rt.counter
      ensures rt.Valid() && old(rt.clock) <= rt.clock && Since(old(rt.past))
      ensures At(ack.(pc := Respond, snap := Some(job)))
      ensures ack.snap.Some? ==> job.ackedAt == ack.snap.value.ackedAt
    {
      hide JobStore.Encodes, Runtime.Traced, Metrics.ErrorRateCounter.Valid, FaultsOf;
      rt.OthersAck(a);
      JobExists(ack);
      var found := rt.store.Get(jobId);
      job := found.value;
      Record(AckStep(a, rt.clock, false));
    }

    /** transcript_moved is what the file system shows now. */
    method Reply(ghost ack: Ack, job: Job, newly: bool, destination: Option<Path>) returns (r: Response)
      requires rt.Valid() && At(ack) && ack == Service.Ack(Respond, ack.job, newly, Some(job), destination)
      modifies rt, rt.store, rt.counter
      ensures rt.Valid() && old(rt.clock) <= rt.clock && Since(old(rt.past)) && Answered(r) && Honest(ack.job, r)
      ensures r.Accepted? && r.job == ack.job && r.alreadyAcked == !newly && r.ackedAt == job.ackedAt
      ensures r.transcriptMoved <==>
        job.transcriptPath.Some? && job.transcriptPath.value.directory == Trash && job.transcriptPath.value in rt.disk
      ensures r.path == if destination.Some? then destination else job.transcriptPath
    {
      hide JobStore.Encodes, Runtime.Traced, Metrics.ErrorRateCounter.Valid, FaultsOf;
      rt.OthersAck(a);
      JobExists(ack);
      var movedNow := job.transcriptPath.Some? && job.transcriptPath.value.directory.Trash?
                      && job.transcriptPath.value in rt.disk;
      r := Accepted(job.jobId, job.ackedAt, !newly, movedNow,
                    if destination.Some? then destination else job.transcriptPath);
      Record(AckStep(a, rt.clock, false));
      ResponseHolds(r);
    }

    /** A database exception ends the request with 503. */
    method DatabaseError() returns (r: Response)
      requires rt.Valid() && (a in rt.state.acks || a !in rt.state.responses)
      modifies rt, rt.store, rt.counter
      ensures rt.Valid() && old(rt.clock) <= rt.clock && old(rt.past) <= rt.past && Answered(r) && r.Unavailable?
    {
      hide JobStore.Encodes, Runtime.Traced, Metrics.ErrorRateCounter.Valid, FaultsOf;
      rt.OthersAck(a);
      Record(AckFault(a));
      r := Unavailable;
    }

    ghost predicate Answered(r: Response)
      reads rt`state
    {
      a !in rt.state.acks && a in rt.state.responses && rt.state.responses[a] == r
    }

    /** What the response says is so, and stays so while nobody deletes a trashed file. */
    lemma ResponseHolds(r: Response)
      requires rt.Traced() && Answered(r) && r.Accepted?
      ensures r.job in rt.state.w.jobs && rt.state.w.jobs[r.job].status.Done?
      ensures r.ackedAt.Some? && rt.state.w.jobs[r.job].ackedAt == r.ackedAt
      ensures r.transcriptMoved ==> TrashPath(r.job) in rt.state.w.files
    {
      rt.Invariant();
      hide QueueInvariant.Inv, FileInv, AckInv;
      assert ResponseInv(rt.state.w, rt.state.winners, a, r);
    }

    ghost predicate Honest(jobId: JobId, r: Response)
      reads rt, rt.store
    {
      && (r.NotFound? ==> jobId !in rt.store.jobs)
      && (r.NotDone? ==> jobId in rt.store.jobs && !rt.store.jobs[jobId].status.Done?)
      && (r.Accepted? ==>
            && r.job == jobId && jobId in rt.store.jobs && rt.store.jobs[jobId].status.Done?
            && r.ackedAt.Some? && rt.store.jobs[jobId].ackedAt == r.ackedAt
            && (r.transcriptMoved ==> TrashPath(jobId) in rt.disk))
    }

    /** Everything that happened since, as one run from the old state. */
    twostate predicate Ran()
      reads rt`state, rt`past
    {
      && old(rt.past) <= rt.past
      && Run(rt.cfg, old(rt.state), rt.past[|old(rt.past)|..]) == Some(rt.state)
    }

    twostate lemma RunSince()
      requires old(rt.Traced()) && rt.Traced() && old(rt.past) <= rt.past
      ensures Ran()
    {
      hide SStep, SEnabled;
      var before, during := old(rt.past), rt.past[|old(rt.past)|..];
      assert rt.past == before + during;
      RunAppend(rt.cfg, Start(rt.workers, rt.began), before, during);
    }

    /** In the run so far this ack's rename was neither refused nor overtaken. */
    twostate predicate RenameHeld()
      requires Ran()
      reads rt`state, rt`past
    {
      !LostRename(rt.cfg, old(rt.state), rt.past[|old(rt.past)|..], a)
    }

    twostate lemma Outcome(r: Response)
      requires old(rt.Traced()) && Ran() && Answered(r) && r.Accepted?
      requires old(a !in rt.state.acks && a !in rt.state.responses)
      ensures r.transcriptMoved <==> RenameHeld()
      ensures Converged(rt.state, a, r.job) <==> RenameHeld()
    {
      hide Run, SStep, SEnabled, Converged, LostRename;
      ConvergesUnlessRenameLost(rt.cfg, old(rt.state), rt.past[|old(rt.past)|..], a);
    }

    /** The endpoint. `raises` says which database statement raises, `refused` whether the rename is
        refused. Whatever the others do, the request follows the transition system's program, so what is
        proved of every run holds of its response; an accepted ack has converged, and says so, if and
        only if its rename was neither refused nor overtaken. The first ack's acked_at is a reading it made. */
    method AckJob(jobId: JobId, raises: Statement -> bool, refused: bool) returns (r: Response)
      requires rt.Valid() && a !in rt.state.acks && a !in rt.state.responses
      modifies rt, rt.store, rt.counter
      ensures rt.Valid() && old(rt.clock) <= rt.clock && old(rt.past) <= rt.past && Answered(r) && Honest(jobId, r)
      ensures r.Accepted? ==> MarkedSince(old(rt.past), jobId, !r.alreadyAcked)
      ensures r.Accepted? && !r.alreadyAcked ==>
        exists t :: r.ackedAt == Some(t) && old(rt.clock) <= t <= rt.clock
      ensures r.Unavailable? ==> exists q :: raises(q)
      ensures (forall q :: !raises(q)) && !refused ==> Since(old(rt.past))
      ensures Ran() && (r.Accepted? ==>
        (r.transcriptMoved <==> RenameHeld()) && (Converged(rt.state, a, jobId) <==> RenameHeld()))
    {
      hide MarkedAt, Runtime.Valid, FaultsOf, Converged, RenameHeld, Ran;
      r := Serve(jobId, raises, refused);
      ValidIsTraced();
      RunSince();
      if r.Accepted? {
        Outcome(r);
      }
    }

    twostate lemma ValidIsTraced()
      ensures old(rt.Valid()) ==> old(rt.Traced())
      ensures rt.Valid() ==> rt.Traced()
    {
    }

    method Serve(jobId: JobId, raises: Statement -> bool, refused: bool) returns (r: Response)
      requires rt.Valid() && a !in rt.state.acks && a !in rt.state.responses
      modifies rt, rt.store, rt.counter
      ensures rt.Valid() && old(rt.clock) <= rt.clock && old(rt.past) <= rt.past && Answered(r) && Honest(jobId, r)
      ensures r.Accepted? ==> MarkedSince(old(rt.past), jobId, !r.alreadyAcked)
      ensures r.Accepted? && !r.alreadyAcked ==>
        exists t :: r.ackedAt == Some(t) && old(rt.clock) <= t <= rt.clock
      ensures r.Unavailable? ==> exists q :: raises(q)
      ensures (forall q :: !raises(q)) && !refused ==> Since(old(rt.past))
    {
      hide Runtime.Valid, FaultsOf, MarkedAt;
      if raises(PreFlightGet) {
        r := DatabaseError();
        return;
      }
      var refusal := PreFlight(jobId);
      if refusal.Some? {
        return refusal.value;
      }
      if raises(AckUpdate) {
        r := DatabaseError();
        return;
      }
      var newly := MarkAcked(jobId);
      ghost var marked := rt.past;
      if raises(AckedGet) {
        r := DatabaseError();
        return;
      }
      var job := FetchJob(jobId, newly);
      r := MoveAndReply(jobId, newly, job, raises, refused);
      assert old(rt.past) <= marked <= rt.past;
    }

    /** Everything from the in-trash check on. */
    method MoveAndReply(jobId: JobId, newly: bool, fetched: Job, raises: Statement -> bool, refused: bool)
      returns (r: Response)
      requires rt.Valid() && At(Service.Ack(InTrash, jobId, newly, Some(fetched), None))
      modifies rt, rt.store, rt.counter
      ensures rt.Valid() && old(rt.clock) <= rt.clock && old(rt.past) <= rt.past && Answered(r) && Honest(jobId, r)
      ensures r.Accepted? || r.Unavailable?
      ensures r.Accepted? ==> r.alreadyAcked == !newly && r.ackedAt == fetched.ackedAt
      ensures r.Unavailable? ==> exists q :: raises(q)
      ensures (forall q :: !raises(q)) && !refused ==> Since(old(rt.past))
    {
      hide Runtime.Valid, FaultsOf;
      var job := fetched;
      var inTrash := CurrentlyInTrash(jobId, newly, job);
      if inTrash {
        r := Reply(rt.state.acks[a], job, newly, job.transcriptPath);
        return;
      }
      var outcome := MoveToTrash(rt.state.acks[a], job.transcriptPath, refused);
      if outcome.destination.Some? {
        if raises(PathUpdate) {
          r := DatabaseError();
          return;
        }
        UpdateTranscriptPath(rt.state.acks[a], jobId, outcome.destination.value);
        if raises(RefreshGet) {
          r := DatabaseError();
          return;
        }
        job := RefreshJob(rt.state.acks[a], jobId);
      }
      r := Reply(rt.state.acks[a], job, newly, outcome.destination);
    }
  }

  class ResultEndpoint {
    const rt: Runtime

    constructor (rt: Runtime)
      ensures this.rt == rt
    {
      this.rt := rt;
    }

    /** The row read before was DONE: its transcript was moved, if it is no longer where the row said. */
    twostate lemma RowReadEarlier(jobId: JobId)
      requires old(rt.Valid()) && rt.Valid() && old(rt.past) <= rt.past
      requires old(jobId in rt.store.jobs && rt.store.jobs[jobId].status.Done?)
      ensures jobId in rt.store.jobs && rt.store.jobs[jobId].status.Done?
      ensures var path := old(rt.store.jobs[jobId].transcriptPath);
        && path.Some? && path.value.name == jobId + ".md"
        && (path.value !in rt.disk ==> path == Some(TranscriptPath(jobId)) && TrashPath(jobId) in rt.disk)
    {
      hide SStep, SEnabled, JobStore.Encodes, Metrics.ErrorRateCounter.Valid;
      ghost var before, during := old(rt.past), rt.past[|old(rt.past)|..];
      assert rt.past == before + during;
      RunAppend(rt.cfg, Start(rt.workers, rt.began), before, during);
      MovedIfGone(rt.cfg, old(rt.state), during, jobId);
    }

    /** The row and the file are looked at separately. When the file is reported missing, the transcript
        is nevertheless in the trash, so asking again after the ack can succeed. */
    method ServeResult(jobId: JobId) returns (r: Result)
      requires rt.Valid()
      modifies rt, rt.store, rt.counter
      ensures rt.Valid() && old(rt.clock) <= rt.clock && old(rt.past) <= rt.past
      ensures r == GetResult(old(rt.store.jobs), rt.disk, jobId)
      ensures r.Ok? ==> old(rt.store.jobs[jobId].transcriptPath) == Some(r.path)
      ensures r.TranscriptMissing? <==>
        && old(jobId in rt.store.jobs && rt.store.jobs[jobId].status == Done)
        && old(rt.store.jobs[jobId].transcriptPath).Some?
        && old(rt.store.jobs[jobId].transcriptPath).value !in rt.disk
      ensures r.Ok? ==> r.path in rt.disk && r.path.name == jobId + ".md"
      ensures r.Ok? || r.TranscriptMissing? ==> jobId in rt.store.jobs && rt.store.jobs[jobId].status.Done?
      ensures r.TranscriptMissing? ==> TranscriptPath(jobId) !in rt.disk && TrashPath(jobId) in rt.disk
      ensures r.JobNotFound? <==> old(jobId !in rt.store.jobs)
      ensures r.JobFailed? <==> old(jobId in rt.store.jobs && rt.store.jobs[jobId].status.Failed?)
      ensures r.NotReady? <==> old(jobId in rt.store.jobs && !rt.store.jobs[jobId].status.IsTerminal())
    {
      hide JobStore.Encodes, Runtime.Traced, Metrics.ErrorRateCounter.Valid;
      var job := rt.store.Get(jobId);
      rt.Await();
      if job.None? {
        return JobNotFound;
      }
      if job.value.status.Failed? {
        return JobFailed;
      }
      if !job.value.status.Done? {
        return NotReady;
      }
      RowReadEarlier(jobId);
      if job.value.transcriptPath.None? {
        return TranscriptMissing;
      }
      var path := job.value.transcriptPath.value;
      r := if path in rt.disk then Ok(path) else TranscriptMissing;
    }
  }
}
