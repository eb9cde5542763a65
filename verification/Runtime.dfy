/** The running process: the real job table, disk, clock and counter, tied to the transition system.

    The ghost field `past` is the run of the transition system so far. Code that runs on a Runtime
    records each atomic action as one event, and calls an `Others` method wherever it awaits, so its
    contract holds under any interleaving with other workers, reclaims, acks and crashes. */
module Runtime {
  import opened Wrappers
  import opened Timestamps
  import opened Jobs
  import opened JobStore
  import opened Metrics
  import opened Queue
  import opened Service

  /** What worker i itself did in a run, in order. */
  function Own(es: seq<ServiceEvent>, i: nat): seq<Event> {
    if es == [] then []
    else
      var e := es[|es| - 1];
      Own(es[..|es| - 1], i) + (if e.QueueEvent? && e.e.ByWorker(i) then [e.e] else [])
  }

  lemma {:induction false} OwnAppend(es: seq<ServiceEvent>, more: seq<ServiceEvent>, i: nat)
    ensures Own(es + more, i) == Own(es, i) + Own(more, i)
  {
    if more == [] {
      assert es + more == es;
    } else {
      var n := |more| - 1;
      OwnAppend(es, more[..n], i);
      assert (es + more)[..|es + more| - 1] == es + more[..n];
    }
  }

  class Runtime {
    const cfg: Config
    const store: JobStore
    const counter: ErrorRateCounter
    var disk: set<Path>
    var clock: Instant
    ghost const workers: nat
    ghost const began: Instant
    ghost var state: State
    ghost var past: seq<ServiceEvent>

    ghost predicate Traced()
      reads this`state, this`past
    {
      Run(cfg, Start(workers, began), past) == Some(state)
    }

    ghost predicate Valid()
      reads this, store, counter
    {
      && store.Valid() && counter.Valid()
      && Traced()
      && store.jobs == state.w.jobs
      && disk == state.w.files
      && clock == state.w.clock
      && counter.counts == state.w.counts
    }

    ghost predicate At(i: nat, p: Phase)
      reads this`state
    {
      i < |state.w.workers| && state.w.workers[i] == p
    }

    constructor (cfg: Config, ghost workers: nat, now: Instant)
      ensures Valid() && fresh(store) && fresh(counter) && past == [] && this.cfg == cfg
      ensures |state.w.workers| == workers && forall i | 0 <= i < workers :: At(i, Idle)
    {
      this.cfg := cfg;
      store := new JobStore();
      counter := new ErrorRateCounter();
      disk := {};
      clock := now;
      this.workers := workers;
      began := now;
      state := Start(workers, now);
      past := [];
    }

    lemma Invariant()
      requires Traced()
      ensures SInv(cfg, state) && Reachable(cfg, state)
    {
      ReachableInv(cfg, state);
    }

    lemma TheRunSoFar()
      requires Traced()
      ensures Run(cfg, Start(workers, began), past) == Some(state)
    {
    }

    ghost method Record(e: ServiceEvent)
      requires Traced() && SEnabled(cfg, state, e)
      modifies this`state, this`past
      ensures Traced() && state == SStep(cfg, old(state), e) && past == old(past) + [e]
      ensures forall i: nat :: Own(past, i) == Own(old(past), i)
                + (if e.QueueEvent? && e.e.ByWorker(i) then [e.e] else [])
    {
      state := SStep(cfg, state, e);
      past := past + [e];
      assert past[..|past| - 1] == old(past);
    }

    /** Anything others do while worker i waits: its place in process_one and the tokens it draws stay
        its own. */
    method Others(ghost i: nat, ghost drawn: set<Token>)
      requires Valid()
      modifies this, store, counter
      ensures Valid() && old(past) <= past && old(clock) <= clock
      ensures Own(past, i) == Own(old(past), i)
      ensures |state.w.workers| == |old(state.w.workers)|
      ensures i < |state.w.workers| ==> state.w.workers[i] == old(state.w.workers)[i]
      ensures drawn !! old(state.w.issued).Keys ==> drawn !! state.w.issued.Keys
    {
    }

    /** Anything others do while ack request a waits. */
    method OthersAck(ghost a: AckId)
      requires Valid()
      modifies this, store, counter
      ensures Valid() && old(past) <= past && old(clock) <= clock
      ensures a in state.acks <==> a in old(state.acks)
      ensures a in state.acks ==> state.acks[a] == old(state.acks)[a]
      ensures a in state.responses <==> a in old(state.responses)
      ensures FaultsOf(past, a) == FaultsOf(old(past), a)
    {
    }

    /** Anything at all. */
    method Await()
      requires Valid()
      modifies this, store, counter
      ensures Valid() && old(past) <= past && old(clock) <= clock
    {
    }

    /** JobStore.submit with a given id; false stands for the IntegrityError. `before` is the run at the
        moment of the INSERT: it succeeds if and only if the id was free then. */
    method Submit(jobId: JobId, videoUrl: string)
      returns (ok: bool, now: Instant, ghost before: seq<ServiceEvent>)
      requires Valid()
      modifies this, store, counter
      ensures Valid() && old(past) <= before && old(clock) <= now <= clock
      ensures past == before + if ok then [QueueEvent(Event.Submit(jobId, videoUrl, now))] else []
      ensures var earlier := Run(cfg, Start(workers, began), before);
        earlier.Some? && (ok <==> jobId !in earlier.value.w.jobs)
      ensures jobId in store.jobs
      ensures ok ==> store.jobs[jobId] == NewJob(jobId, videoUrl, now)
      ensures ok ==> store.jobs[jobId].videoUrl == videoUrl && store.jobs[jobId].createdAt == now
                     && store.jobs[jobId].status == Queued && store.jobs[jobId].attempt == 0
    {
      hide Encodes, ErrorRateCounter.Valid, Run, Start;
      now := clock;
      Await();
      before := past;
      ok := store.Submit(jobId, videoUrl, now);
      if ok {
        Record(QueueEvent(Event.Submit(jobId, videoUrl, now)));
      }
    }

    /** One beat of the error-rate loop. */
    method TickCounter() returns (snapshot: Counts)
      requires Valid()
      modifies this, store, counter
      ensures Valid() && old(past) <= past
      ensures past == old(past) + [QueueEvent(CounterTick)]
      ensures state.w.ticks == old(state.w.ticks) + [snapshot] && snapshot == old(counter.counts)
    {
      hide Encodes, Traced, ErrorRateCounter.Valid;
      snapshot := counter.Tick();
      Record(QueueEvent(CounterTick));
    }
  }
}
