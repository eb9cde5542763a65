/** When an accepted ack leaves its transcript in the trash, under any interference and any faults. */
module AckRaces {
  import opened Wrappers
  import opened Timestamps
  import opened Jobs
  import opened Queue
  import opened QueueInvariant
  import opened Service
  import opened AckTheorems

  // ---------- the guard of the failing branch ----------

  /** Ack a is at its rename, and the rename is refused or its source has disappeared. */
  ghost predicate RenameFailsAt(s: State, e: ServiceEvent, a: AckId) {
    && e.AckStep? && e.a == a
    && a in s.acks && s.acks[a].pc.Rename? && s.acks[a].snap.Some? && s.acks[a].snap.value.transcriptPath.Some?
    && (e.renameFails || s.acks[a].snap.value.transcriptPath.value !in s.w.files)
  }

  ghost predicate LostRename(cfg: Config, s: State, es: seq<ServiceEvent>, a: AckId)
    requires Run(cfg, s, es).Some?
  {
    es != []
    && (LostRename(cfg, s, es[..|es| - 1], a)
        || RenameFailsAt(Run(cfg, s, es[..|es| - 1]).value, es[|es| - 1], a))
  }

  // ---------- what an ack knows on the way ----------

  /** Where a running ack stands; `lost` says its rename has failed. */
  ghost predicate Course(w: World, ack: Ack, lost: bool) {
    && ack.job in w.jobs
    && (lost ==> ack.pc.Respond? && ack.destination.None?
                 && ack.snap.Some? && ack.snap.value.transcriptPath == Some(TranscriptPath(ack.job)))
    && (ack.pc.Respond? && !lost ==> ack.snap.Some? && ack.snap.value.transcriptPath == Some(TrashPath(ack.job)))
    && (ack.pc.Source? || ack.pc.Discover? ==>
          ack.snap.Some? && ack.snap.value.transcriptPath == Some(TranscriptPath(ack.job)))
    && (ack.pc.Discover? ==> TrashPath(ack.job) in w.files)
    && (ack.pc.Refresh? ==> w.jobs[ack.job].transcriptPath == Some(TrashPath(ack.job)))
    && (ack.snap.Some? && ack.snap.value.transcriptPath == Some(TrashPath(ack.job)) ==>
          w.jobs[ack.job].transcriptPath == Some(TrashPath(ack.job)))
  }

  /** The response tells the outcome: moved, and the row and the result agree, unless the rename failed. */
  ghost predicate Told(s: State, a: AckId, lost: bool)
    requires a in s.responses
  {
    s.responses[a].Accepted? ==>
      (if lost then !s.responses[a].transcriptMoved && s.responses[a].path == Some(TranscriptPath(s.responses[a].job))
       else Converged(s, a, s.responses[a].job))
  }

  ghost predicate OnCourse(s: State, a: AckId, lost: bool) {
    && (a in s.acks ==> a !in s.responses && Course(s.w, s.acks[a], lost))
    && (a !in s.acks && a !in s.responses ==> !lost)
    && (a in s.responses ==> Told(s, a, lost))
  }

  // ---------- the ack's own steps ----------

  lemma ReadOnCourse(s: State, a: AckId, at: Instant, fails: bool)
    requires OwnFacts(s, a) && AckReady(s, a, at) && Course(s.w, s.acks[a], false)
    requires s.acks[a].pc.Mark? || s.acks[a].pc.Fetch? || s.acks[a].pc.InTrash?
    ensures var s' := AckNext(s, a, at, fails); a in s'.acks && Course(s'.w, s'.acks[a], false)
  {
    hide TranscriptPath, TrashPath;
    PathFacts(s.acks[a].job);
  }

  lemma MoveOnCourse(s: State, a: AckId, at: Instant, fails: bool)
    requires OwnFacts(s, a) && AckReady(s, a, at) && Course(s.w, s.acks[a], false)
    requires s.acks[a].pc.Source? || s.acks[a].pc.Discover? || s.acks[a].pc.Rename?
    ensures var s' := AckNext(s, a, at, fails);
      a in s'.acks && Course(s'.w, s'.acks[a], RenameFailsAt(s, AckStep(a, at, fails), a))
  {
    hide TranscriptPath, TrashPath;
    PathFacts(s.acks[a].job);
  }

  lemma UpdateOnCourse(s: State, a: AckId, at: Instant, fails: bool)
    requires OwnFacts(s, a) && AckReady(s, a, at) && Course(s.w, s.acks[a], false)
    requires s.acks[a].pc.UpdatePath? || s.acks[a].pc.Refresh?
    ensures var s' := AckNext(s, a, at, fails); a in s'.acks && Course(s'.w, s'.acks[a], false)
  {
    hide TranscriptPath, TrashPath;
    PathFacts(s.acks[a].job);
  }

  lemma RespondOnCourse(s: State, a: AckId, at: Instant, fails: bool, lost: bool)
    requires OwnFacts(s, a) && AckReady(s, a, at) && Course(s.w, s.acks[a], lost) && s.acks[a].pc.Respond?
    ensures var s' := AckNext(s, a, at, fails); a in s'.responses && Told(s', a, lost)
  {
    hide TranscriptPath, TrashPath;
    PathFacts(s.acks[a].job);
  }

  lemma OwnStepOnCourse(cfg: Config, s: State, a: AckId, at: Instant, fails: bool, lost: bool)
    requires SInv(cfg, s) && AckReady(s, a, at) && a in s.acks && OnCourse(s, a, lost)
    ensures OnCourse(AckNext(s, a, at, fails), a, lost || RenameFailsAt(s, AckStep(a, at, fails), a))
  {
    hide SInv, AckNext, Course, Told, OwnFacts, AckReady;
    OwnFactsOf(cfg, s, a);
    AckNextFrame(s, a, at, fails);
    if s.acks[a].pc.Respond? {
      RespondOnCourse(s, a, at, fails, lost);
    } else {
      LostMeansRespond(s.w, s.acks[a], lost);
      if s.acks[a].pc.Mark? || s.acks[a].pc.Fetch? || s.acks[a].pc.InTrash? {
        ReadOnCourse(s, a, at, fails);
      } else if s.acks[a].pc.UpdatePath? || s.acks[a].pc.Refresh? {
        UpdateOnCourse(s, a, at, fails);
      } else {
        MoveOnCourse(s, a, at, fails);
      }
    }
  }

  lemma LostMeansRespond(w: World, ack: Ack, lost: bool)
    requires Course(w, ack, lost) && !ack.pc.Respond?
    ensures !lost
  {
  }

  // ---------- everybody else's steps ----------

  /** What the others leave alone for job j. */
  ghost predicate Kept(w: World, w': World, j: JobId) {
    && (j in w.jobs && w.jobs[j].status.Done? ==> j in w'.jobs && w'.jobs[j].status.Done?)
    && (j in w.jobs && w.jobs[j].status.Done? && w.jobs[j].transcriptPath == Some(TrashPath(j)) ==>
          w'.jobs[j].transcriptPath == Some(TrashPath(j)))
    && (TrashPath(j) in w.files ==> TrashPath(j) in w'.files)
  }

  lemma QueueKeeps(cfg: Config, s: State, e: Event, j: JobId)
    requires SInv(cfg, s) && Enabled(cfg, s.w, e)
    ensures Kept(s.w, Step(cfg, s.w, e), j)
  {
    hide Inv, FileInv, AckInv, ResponseInv, Step, Enabled, TrashPath;
    FilesGrow(cfg, s.w, e);
    if j in s.w.jobs {
      QueueKeepsRows(cfg, s.w, e);
      if s.w.jobs[j].status.Done? {
        DoneIsAbsorbing(cfg, s.w, e, j);
      }
    }
  }

  lemma QueueKeepsRows(cfg: Config, w: World, e: Event)
    requires Inv(cfg, w) && Enabled(cfg, w, e)
    ensures w.jobs.Keys <= Step(cfg, w, e).jobs.Keys
  {
    hide RowsInv, TokenInv, PhaseInv, FifoInv, MetricsInv, NoLossInv;
    KeyedStep(cfg, w, e);
  }

  /** UPDATE ... SET transcript_path only ever writes the trash path. */
  lemma TrashPathStays(cfg: Config, s: State, b: AckId, at: Instant, fails: bool, j: JobId)
    requires AckReady(s, b, at) && AckInv(s.w, s.winners, b, s.acks[b])
    requires j in s.w.jobs && s.w.jobs[j].transcriptPath == Some(TrashPath(j))
    ensures var w' := AckNext(s, b, at, fails).w;
      j in w'.jobs && w'.jobs[j].transcriptPath == Some(TrashPath(j))
  {
    hide SnapOfDone, TrashPath, TranscriptPath, AckNext, AckReady;
    TableAfter(s, b, at, fails);
  }

  lemma AckKeeps(cfg: Config, s: State, b: AckId, at: Instant, fails: bool, j: JobId)
    requires SInv(cfg, s) && AckReady(s, b, at)
    ensures Kept(s.w, AckNext(s, b, at, fails).w, j)
  {
    hide Inv, FileInv, AckInv, ResponseInv, WinnersInv, OnlyAckTouches, AckNext, AckReady, TrashPath;
    AckEffects(cfg, s, b, at, fails);
    TableAfter(s, b, at, fails);
    assert AckInv(s.w, s.winners, b, s.acks[b]);
    if j in s.w.jobs && s.w.jobs[j].transcriptPath == Some(TrashPath(j)) {
      TrashPathStays(cfg, s, b, at, fails, j);
    }
  }

  lemma StayOnCourse(s: State, s': State, a: AckId, lost: bool)
    requires OnCourse(s, a, lost)
    requires (a in s'.acks <==> a in s.acks) && (a in s.acks ==> s'.acks[a] == s.acks[a])
    requires (a in s'.responses <==> a in s.responses) && (a in s.responses ==> s'.responses[a] == s.responses[a])
    requires forall j :: Kept(s.w, s'.w, j)
    requires a in s.acks ==> s.acks[a].job in s.w.jobs && s.w.jobs[s.acks[a].job].status.Done?
    requires a in s.responses && s.responses[a].Accepted? ==>
      s.responses[a].job in s.w.jobs && s.w.jobs[s.responses[a].job].status.Done?
    ensures OnCourse(s', a, lost)
  {
    hide TrashPath, TranscriptPath;
    if a in s.acks {
      assert Kept(s.w, s'.w, s.acks[a].job);
    }
    if a in s.responses && s.responses[a].Accepted? {
      assert Kept(s.w, s'.w, s.responses[a].job);
    }
  }

  lemma OthersOnCourse(cfg: Config, s: State, e: ServiceEvent, a: AckId, lost: bool)
    requires SInv(cfg, s) && SEnabled(cfg, s, e) && OnCourse(s, a, lost)
    requires e.AckStep? || e.AckBegin? || e.AckFault? ==> e.a != a
    ensures OnCourse(SStep(cfg, s, e), a, lost)
  {
    hide SInv, Step, Enabled, AckReady, AckNext, OnCourse, Kept;
    var s' := SStep(cfg, s, e);
    forall j ensures Kept(s.w, s'.w, j) {
      match e
      case QueueEvent(q) => QueueKeeps(cfg, s, q, j);
      case AckStep(b, at, fails) => AckKeeps(cfg, s, b, at, fails, j);
      case AckBegin(_, _) => KeptByNothing(s.w, j);
      case AckFault(_) => KeptByNothing(s.w, j);
    }
    if e.AckStep? {
      AckNextFrame(s, e.a, e.at, e.renameFails);
      OtherEntries(s, e.a, e.at, e.renameFails, a);
    }
    DoneJobs(cfg, s, a);
    StayOnCourse(s, s', a, lost);
  }

  lemma KeptByNothing(w: World, j: JobId)
    ensures Kept(w, w, j)
  {
  }

  lemma OtherEntries(s: State, b: AckId, at: Instant, fails: bool, a: AckId)
    requires AckReady(s, b, at) && a != b
    ensures var s' := AckNext(s, b, at, fails);
      && (a in s'.acks <==> a in s.acks) && (a in s.acks ==> s'.acks[a] == s.acks[a])
      && (a in s'.responses <==> a in s.responses) && (a in s.responses ==> s'.responses[a] == s.responses[a])
  {
    hide AckNext, AckReady;
    OwnEntries(s, b, at, fails);
  }

  lemma DoneJobs(cfg: Config, s: State, a: AckId)
    requires SInv(cfg, s)
    ensures a in s.acks ==> s.acks[a].job in s.w.jobs && s.w.jobs[s.acks[a].job].status.Done?
    ensures a in s.responses && s.responses[a].Accepted? ==>
      s.responses[a].job in s.w.jobs && s.w.jobs[s.responses[a].job].status.Done?
  {
    hide Inv, FileInv, SnapOfDone;
    if a in s.acks {
      assert AckInv(s.w, s.winners, a, s.acks[a]);
    }
    if a in s.responses {
      assert ResponseInv(s.w, s.winners, a, s.responses[a]);
    }
  }

  // ---------- whole runs ----------

  lemma BeginOrFault(cfg: Config, s: State, e: ServiceEvent, a: AckId, lost: bool)
    requires SInv(cfg, s) && SEnabled(cfg, s, e) && OnCourse(s, a, lost)
    requires (e.AckBegin? || e.AckFault?) && e.a == a
    ensures OnCourse(SStep(cfg, s, e), a, lost)
  {
    hide SInv, Step, Enabled, AckReady, AckNext, TrashPath, TranscriptPath, Converged;
  }

  lemma StepOnCourse(cfg: Config, s: State, e: ServiceEvent, a: AckId, lost: bool)
    requires SInv(cfg, s) && SEnabled(cfg, s, e) && OnCourse(s, a, lost)
    ensures OnCourse(SStep(cfg, s, e), a, lost || RenameFailsAt(s, e, a))
  {
    hide SInv, Step, Enabled, AckReady, AckNext, OnCourse;
    if (e.AckBegin? || e.AckFault?) && e.a == a {
      BeginOrFault(cfg, s, e, a, lost);
    } else if e.AckStep? && e.a == a {
      StepsOfA(cfg, s, a, e.at, e.renameFails, lost);
    } else {
      OthersOnCourse(cfg, s, e, a, lost);
    }
  }

  lemma StepsOfA(cfg: Config, s: State, a: AckId, at: Instant, fails: bool, lost: bool)
    requires SInv(cfg, s) && AckReady(s, a, at) && OnCourse(s, a, lost)
    ensures OnCourse(AckNext(s, a, at, fails), a, lost || RenameFailsAt(s, AckStep(a, at, fails), a))
  {
    hide SInv, AckNext, OnCourse, RenameFailsAt;
    assert a in s.acks;
    OwnStepOnCourse(cfg, s, a, at, fails, lost);
  }

  lemma {:induction false} RunOnCourse(cfg: Config, s: State, es: seq<ServiceEvent>, a: AckId)
    requires SInv(cfg, s) && a !in s.acks && a !in s.responses && Run(cfg, s, es).Some?
    ensures OnCourse(Run(cfg, s, es).value, a, LostRename(cfg, s, es, a))
  {
    if es == [] {
      hide SInv;
    } else {
      hide SInv, SStep, SEnabled, OnCourse, RenameFailsAt;
      var n := |es| - 1;
      RunOnCourse(cfg, s, es[..n], a);
      RunKeepsInv(cfg, s, es[..n]);
      StepOnCourse(cfg, Run(cfg, s, es[..n]).value, es[n], a, LostRename(cfg, s, es[..n], a));
    }
  }

  /** The exact condition for convergence: under any interference and any faults, an accepted ack has
      left the transcript in the trash, the row pointing at it and the result served, if and only if its
      rename was neither refused nor overtaken. transcript_moved says which. */
  lemma ConvergesUnlessRenameLost(cfg: Config, s: State, es: seq<ServiceEvent>, a: AckId)
    requires Reachable(cfg, s) && a !in s.acks && a !in s.responses && Run(cfg, s, es).Some?
    requires a in Run(cfg, s, es).value.responses && Run(cfg, s, es).value.responses[a].Accepted?
    ensures var t := Run(cfg, s, es).value;
      && (t.responses[a].transcriptMoved <==> !LostRename(cfg, s, es, a))
      && (Converged(t, a, t.responses[a].job) <==> !LostRename(cfg, s, es, a))
      && t.responses[a].path
         == Some(Path(if LostRename(cfg, s, es, a) then Results else Trash, t.responses[a].job + ".md"))
  {
    ReachableInv(cfg, s);
    hide SInv, Run, Reachable, LostRename;
    RunOnCourse(cfg, s, es, a);
  }

  lemma AloneStepLosesNothing(cfg: Config, s: State, t: State, e: ServiceEvent, a: AckId)
    requires AloneInv(cfg, s, t, a) && SEnabled(cfg, t, e) && Alone([e], a) && !IsFault(e, a)
    ensures !RenameFailsAt(t, e, a)
  {
    hide Converged, AckNext, Step, Enabled, Inv, FileInv, ResponseInv, TranscriptPath, TrashPath;
    assert e in [e];
    if a in t.acks {
      assert AckInv(t.w, t.winners, a, t.acks[a]);
    }
  }

  /** An ack that runs alone and meets no fault loses no rename, so it converges. */
  lemma {:induction false} AloneLosesNothing(cfg: Config, s: State, es: seq<ServiceEvent>, a: AckId)
    requires SInv(cfg, s) && a !in s.acks && a !in s.responses
    requires Run(cfg, s, es).Some? && Alone(es, a) && FaultsOf(es, a) == 0
    ensures !LostRename(cfg, s, es, a)
  {
    hide SStep, SEnabled, SInv, AloneInv, RenameFailsAt;
    if es != [] {
      var n := |es| - 1;
      assert es[n] in es;
      AloneLosesNothing(cfg, s, es[..n], a);
      AloneRun(cfg, s, es[..n], a);
      AloneStepLosesNothing(cfg, s, Run(cfg, s, es[..n]).value, es[n], a);
    }
  }

  // ---------- a run in which the rename is lost without any fault ----------

  lemma OneMore(cfg: Config, s: State, es: seq<ServiceEvent>, t: State, e: ServiceEvent)
    requires Run(cfg, s, es) == Some(t) && SEnabled(cfg, t, e)
    ensures Run(cfg, s, es + [e]) == Some(SStep(cfg, t, e))
  {
    hide SEnabled, SStep;
    assert (es + [e])[..|es|] == es;
  }

  /** Job j is DONE and its transcript still lies in results. */
  ghost predicate Unmoved(w: World, j: JobId) {
    && j in w.jobs && w.jobs[j].status.Done? && w.jobs[j].transcriptPath == Some(TranscriptPath(j))
    && TranscriptPath(j) in w.files
  }

  /** From s, ack a alone has come to this point, on a job that is still unmoved. */
  ghost predicate Halted(s: State, t: State, a: AckId, j: JobId, pc: AckPc) {
    && a in t.acks && t.acks[a].pc == pc && t.acks[a].job == j && t.acks == s.acks[a := t.acks[a]]
    && t.responses == s.responses && t.w.clock == s.w.clock && Unmoved(t.w, j)
    && (pc.InTrash? || pc.Source? || pc.Rename? ==>
          t.acks[a].snap.Some? && t.acks[a].snap.value.transcriptPath == Some(TranscriptPath(j)))
  }

  lemma HaltedNext(s: State, t: State, a: AckId, j: JobId, at: Instant, pc: AckPc)
    requires Halted(s, t, a, j, pc) && at <= s.w.clock && (pc.Mark? || pc.Fetch? || pc.InTrash? || pc.Source?)
    ensures AckReady(t, a, at)
    ensures Halted(s, AckNext(t, a, at, false), a, j,
                   match pc case Mark => Fetch case Fetch => InTrash case InTrash => Source case _ => Rename)
  {
    hide TranscriptPath, TrashPath;
    PathFacts(j);
  }

  /** One more step of ack a, without fault. */
  lemma HaltedRun(cfg: Config, s: State, es: seq<ServiceEvent>, a: AckId, j: JobId, at: Instant, pc: AckPc)
    returns (longer: seq<ServiceEvent>)
    requires Run(cfg, s, es).Some? && Halted(s, Run(cfg, s, es).value, a, j, pc) && at <= s.w.clock
    requires pc.Mark? || pc.Fetch? || pc.InTrash? || pc.Source?
    ensures longer == es + [AckStep(a, at, false)] && Run(cfg, s, longer).Some?
    ensures Halted(s, Run(cfg, s, longer).value, a, j,
                   match pc case Mark => Fetch case Fetch => InTrash case InTrash => Source case _ => Rename)
  {
    hide AckNext, AckReady, Halted;
    var t := Run(cfg, s, es).value;
    HaltedNext(s, t, a, j, at, pc);
    longer := es + [AckStep(a, at, false)];
    OneMore(cfg, s, es, t, AckStep(a, at, false));
  }

  lemma HaltedBegins(cfg: Config, s: State, a: AckId, j: JobId)
    requires Unmoved(s.w, j) && a !in s.acks && a !in s.responses
    ensures Run(cfg, s, [AckBegin(a, j)]).Some? && Halted(s, Run(cfg, s, [AckBegin(a, j)]).value, a, j, Mark)
  {
    hide TranscriptPath, TrashPath;
    assert [AckBegin(a, j)][..0] == [];
    assert Run(cfg, s, []) == Some(s);
  }

  /** An ack of an unmoved job comes as far as its rename. */
  lemma ReachRename(cfg: Config, s: State, a: AckId, j: JobId, at: Instant) returns (es: seq<ServiceEvent>)
    requires Unmoved(s.w, j) && a !in s.acks && a !in s.responses && at <= s.w.clock
    ensures Run(cfg, s, es).Some? && Halted(s, Run(cfg, s, es).value, a, j, Rename)
    ensures forall e | e in es :: e == AckBegin(a, j) || e == AckStep(a, at, false)
  {
    HaltedBegins(cfg, s, a, j);
    hide Run, Halted, Unmoved;
    es := [AckBegin(a, j)];
    es := HaltedRun(cfg, s, es, a, j, at, Mark);
    es := HaltedRun(cfg, s, es, a, j, at, Fetch);
    es := HaltedRun(cfg, s, es, a, j, at, InTrash);
    es := HaltedRun(cfg, s, es, a, j, at, Source);
  }

  /** The end of the race: b renames, a finds its source gone and answers. */
  lemma LoserAnswers(cfg: Config, t: State, a: AckId, b: AckId, j: JobId, at: Instant)
    requires a != b && a in t.acks && b in t.acks && at <= t.w.clock && Unmoved(t.w, j)
    requires t.acks[a].pc.Rename? && t.acks[b].pc.Rename? && t.acks[a].job == t.acks[b].job == j
    requires t.acks[a].snap.Some? && t.acks[a].snap.value.transcriptPath == Some(TranscriptPath(j))
    requires t.acks[b].snap.Some? && t.acks[b].snap.value.transcriptPath == Some(TranscriptPath(j))
    ensures var end := Run(cfg, t, [AckStep(b, at, false), AckStep(a, at, false), AckStep(a, at, false)]);
      end.Some? && a in end.value.responses && end.value.responses[a].Accepted?
      && !end.value.responses[a].transcriptMoved
  {
    hide TranscriptPath, TrashPath;
    PathFacts(j);
    var eb, ea := AckStep(b, at, false), AckStep(a, at, false);
    assert Run(cfg, t, []) == Some(t);
    assert AckReady(t, b, at);
    OneMore(cfg, t, [], t, eb);
    var t1 := AckNext(t, b, at, false);
    assert TranscriptPath(j) !in t1.w.files;
    assert AckReady(t1, a, at);
    OneMore(cfg, t, [eb], t1, ea);
    var t2 := AckNext(t1, a, at, false);
    assert t2.acks[a].pc.Respond?;
    assert AckReady(t2, a, at);
    OneMore(cfg, t, [eb, ea], t2, ea);
    assert [] + [eb] == [eb] && [eb] + [ea] == [eb, ea] && [eb, ea] + [ea] == [eb, ea, ea];
  }

  lemma {:induction false} NoFaults(es: seq<ServiceEvent>, a: AckId)
    requires forall e | e in es :: !IsFault(e, a)
    ensures FaultsOf(es, a) == 0
  {
    if es != [] {
      NoFaults(es[..|es| - 1], a);
      assert es[|es| - 1] in es;
    }
  }

  /** Two acks of one unmoved job that meet no fault can overtake each other: the slower one is accepted
      and answers transcript_moved false. */
  lemma SlowerAckIsTold(cfg: Config, s: State, j: JobId, a: AckId, b: AckId, at: Instant)
    returns (es: seq<ServiceEvent>)
    requires Unmoved(s.w, j) && a != b && at <= s.w.clock
    requires a !in s.acks && a !in s.responses && b !in s.acks && b !in s.responses
    ensures Run(cfg, s, es).Some? && FaultsOf(es, a) == FaultsOf(es, b) == 0
    ensures forall e | e in es :: (e.AckBegin? || e.AckStep?) && (e.a == a || e.a == b)
    ensures var t := Run(cfg, s, es).value;
      a in t.responses && t.responses[a].Accepted? && !t.responses[a].transcriptMoved
  {
    hide Run;
    var first := ReachRename(cfg, s, a, j, at);
    var s1 := Run(cfg, s, first).value;
    var second := ReachRename(cfg, s1, b, j, at);
    var s2 := Run(cfg, s1, second).value;
    LoserAnswers(cfg, s2, a, b, j, at);
    var last := [AckStep(b, at, false), AckStep(a, at, false), AckStep(a, at, false)];
    RunAppend(cfg, s, first, second);
    RunAppend(cfg, s, first + second, last);
    es := first + second + last;
    NoFaults(es, a);
    NoFaults(es, b);
  }

  lemma QueueRun(cfg: Config, s: State, es: seq<ServiceEvent>, w: World, e: Event)
    requires Run(cfg, s, es) == Some(State(w, map[], map[], map[])) && Enabled(cfg, w, e)
    ensures Run(cfg, s, es + [QueueEvent(e)]) == Some(State(Step(cfg, w, e), map[], map[], map[]))
  {
    hide Run, Enabled, Step;
    OneMore(cfg, s, es, State(w, map[], map[], map[]), QueueEvent(e));
  }

  /** The only worker has come to this point with job j, which still is as it saw it. */
  ghost predicate Working(cfg: Config, es: seq<ServiceEvent>, w: World, j: JobId, p: Phase) {
    && Run(cfg, Start(1, 0), es) == Some(State(w, map[], map[], map[]))
    && w.clock == 0 && |w.workers| == 1 && w.workers[0] == p && j in w.jobs
  }

  lemma WorkerClaims(cfg: Config, j: JobId, url: string) returns (es: seq<ServiceEvent>, w: World, job: Job)
    requires cfg.maxAttempts >= 1 && IsInstant(cfg.leaseTtlSeconds * SECOND)
    ensures Working(cfg, es, w, j, Holding(job))
    ensures w.jobs[j] == job && job.jobId == j && job.status.Claimed? && job.leaseToken == Some("t")
  {
    hide Run, TranscriptPath;
    var s := Start(1, 0);
    RunOfNothing(cfg, s);
    var e1, e2, e3 := Event.Submit(j, url, 0), Event.ClaimUpdate(0, j, "t", 0, 0), Event.ClaimGet(0);
    QueueRun(cfg, s, [], s.w, e1);
    var w1 := Step(cfg, s.w, e1);
    QueueRun(cfg, s, [] + [QueueEvent(e1)], w1, e2);
    var w2 := Step(cfg, w1, e2);
    QueueRun(cfg, s, [] + [QueueEvent(e1)] + [QueueEvent(e2)], w2, e3);
    es, w, job := [] + [QueueEvent(e1)] + [QueueEvent(e2)] + [QueueEvent(e3)], Step(cfg, w2, e3), w2.jobs[j];
  }

  lemma RunOfNothing(cfg: Config, s: State)
    ensures Run(cfg, s, []) == Some(s)
  {
  }

  lemma WorkerFinishes(cfg: Config, es: seq<ServiceEvent>, w: World, j: JobId, job: Job) returns (s: State)
    requires Working(cfg, es, w, j, Holding(job))
    requires w.jobs[j] == job && job.jobId == j && job.status.Claimed? && job.leaseToken == Some("t")
    ensures Reachable(cfg, s) && Unmoved(s.w, j) && s.acks == map[] && s.responses == map[]
  {
    hide Run, TranscriptPath;
    var begin := Start(1, 0);
    var e1, e2, e3 := Event.MarkProcessing(0, 0), Event.WriteTranscript(0), Event.MarkDone(0, 0);
    QueueRun(cfg, begin, es, w, e1);
    var w1 := Step(cfg, w, e1);
    QueueRun(cfg, begin, es + [QueueEvent(e1)], w1, e2);
    var w2 := Step(cfg, w1, e2);
    QueueRun(cfg, begin, es + [QueueEvent(e1)] + [QueueEvent(e2)], w2, e3);
    s := State(Step(cfg, w2, e3), map[], map[], map[]);
  }

  /** Such a job is reachable: one worker takes one submitted job to DONE. */
  lemma UnmovedIsReachable(cfg: Config, j: JobId, url: string) returns (s: State)
    requires cfg.maxAttempts >= 1 && IsInstant(cfg.leaseTtlSeconds * SECOND)
    ensures Reachable(cfg, s) && Unmoved(s.w, j) && s.acks == map[] && s.responses == map[]
  {
    hide Working, Unmoved, Reachable;
    var es, w, job := WorkerClaims(cfg, j, url);
    s := WorkerFinishes(cfg, es, w, j, job);
  }
}
