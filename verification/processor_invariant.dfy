/**
 Token conservation for the dispatcher / worker pool. Every worker that has
 announced readiness and not yet finished a job accounts for exactly one of:
 its token in the readiness channel, the token the dispatcher holds, a job in
 the handoff queue, or the job it is running. Hence the channel never needs
 more than `MaxWorkers` slots and a write-back never waits for room.
 */
module ProcessorInvariant {
  import opened Options
  import opened JobModel
  import opened JobRepository
  import opened Counting
  import opened JobProcessor

  predicate IsRunning(p: WorkerPhase) { p.Running? }

  /** Announced and not yet done: waiting for a job or running one. */
  predicate IsEngaged(p: WorkerPhase) { p.Waiting? || p.Running? }

  function HeldTokens(s: State): nat {
    if s.dispatcher.Leasing? then 1 else 0
  }

  /** Tokens in the channel, the token the dispatcher holds, queued jobs and
      jobs being processed. */
  function Claimed(s: State): nat {
    |s.ready| + HeldTokens(s) + |s.handoff| + Count(s.workers, IsRunning)
  }

  ghost predicate Inv(s: State) {
    && |s.workers| == MaxWorkers
    && (forall w :: w in s.ready ==> w in s.workers)
    && (s.dispatcher.Leasing? ==> s.dispatcher.worker in s.workers)
    && (!s.cancelled ==> Claimed(s) == Count(s.workers, IsEngaged))
    && Claimed(s) <= MaxWorkers
    && (!s.cancelled ==> s.dispatcher != Halted)
    && (forall w :: w in s.workers && s.workers[w].Running? ==> s.workers[w].startedAt <= s.now)
    && (forall w :: w in s.workers && s.workers[w].Running? && s.workers[w].renewer.Live? ==>
          s.workers[w].startedAt + HeartbeatPulseDelay <= s.workers[w].renewer.pulseDue)
  }

  /** Both counts after overwriting one worker's phase. */
  lemma CountsAfter(m: map<WorkerId, WorkerPhase>, w: WorkerId, p: WorkerPhase)
    requires w in m
    ensures Count(m[w := p], IsRunning) + (if m[w].Running? then 1 else 0)
         == Count(m, IsRunning) + (if p.Running? then 1 else 0)
    ensures Count(m[w := p], IsEngaged) + (if IsEngaged(m[w]) then 1 else 0)
         == Count(m, IsEngaged) + (if IsEngaged(p) then 1 else 0)
  {
    CountUpdate(m, w, p, IsRunning);
    CountUpdate(m, w, p, IsEngaged);
  }

  lemma StartEstablishesInv(store: Table, now: int, ids: set<WorkerId>)
    requires |ids| == MaxWorkers
    ensures Inv(Start(store, now, ids))
  {
  }

  lemma ShutdownPreservesInv(s: State)
    requires Inv(s) && !s.cancelled
    ensures Inv(s.(cancelled := true))
  {
  }

  lemma ReadTokenPreservesInv(s: State, w: WorkerId)
    requires Inv(s) && ReadToken(s, w).Some?
    ensures Inv(ReadToken(s, w).value)
  {
    assert |ReadToken(s, w).value.ready| == |s.ready| - 1;
  }

  lemma AttemptLeasePreservesInv(s: State, o: LeaseOutcome)
    requires Inv(s) && AttemptLease(s, o).Some?
    ensures Inv(AttemptLease(s, o).value)
  {
    var s' := AttemptLease(s, o).value;
    assert s'.workers == s.workers;
    if o.LeasedJob? && !s.cancelled {
      assert |s'.handoff| == |s.handoff| + 1;
    }
  }

  lemma AnnouncePreservesInv(s: State, w: WorkerId)
    requires Inv(s) && Announce(s, w).Some?
    ensures Inv(Announce(s, w).value)
  {
    CountsAfter(s.workers, w, Waiting);
  }

  lemma TakePreservesInv(s: State, w: WorkerId)
    requires Inv(s) && Take(s, w).Some?
    ensures Inv(Take(s, w).value)
  {
    var s' := Take(s, w).value;
    CountsAfter(s.workers, w, s'.workers[w]);
    assert |s'.handoff| == |s.handoff| - 1;
  }

  lemma StartRenewerPreservesInv(s: State, w: WorkerId)
    requires Inv(s) && StartRenewer(s, w).Some?
    ensures Inv(StartRenewer(s, w).value)
  {
    var s' := StartRenewer(s, w).value;
    CountsAfter(s.workers, w, s'.workers[w]);
  }

  lemma PulsePreservesInv(s: State, w: WorkerId, call: CallResult)
    requires Inv(s) && Pulse(s, w, call).Some?
    ensures Inv(Pulse(s, w, call).value)
  {
    var s' := Pulse(s, w, call).value;
    CountsAfter(s.workers, w, s'.workers[w]);
  }

  lemma FinishPreservesInv(s: State, w: WorkerId, body: BodyOutcome, complete: CallResult, fail: CallResult)
    requires Inv(s) && Finish(s, w, body, complete, fail).Some?
    ensures Inv(Finish(s, w, body, complete, fail).value)
  {
    var s' := Finish(s, w, body, complete, fail).value;
    assert s'.workers == s.workers[w := s'.workers[w]];
    CountsAfter(s.workers, w, s'.workers[w]);
  }

  lemma RestartPreservesInv(s: State, w: WorkerId)
    requires Inv(s) && Restart(s, w).Some?
    ensures Inv(Restart(s, w).value)
  {
    CountsAfter(s.workers, w, Starting);
  }

  lemma StopSupervisorPreservesInv(s: State, w: WorkerId)
    requires Inv(s) && StopSupervisor(s, w).Some?
    ensures Inv(StopSupervisor(s, w).value)
  {
    CountsAfter(s.workers, w, Stopped);
  }

  /** Every step keeps the accounting. */
  lemma NextPreservesInv(s: State, e: Event)
    requires Inv(s) && Next(s, e).Some?
    ensures Inv(Next(s, e).value)
  {
    match e
    case ClockAdvanced(_) =>
    case ShutdownRequested => ShutdownPreservesInv(s);
    case TokenRead(w) => ReadTokenPreservesInv(s, w);
    case LeaseReturned(o) => AttemptLeasePreservesInv(s, o);
    case PollElapsed =>
    case DispatcherCancelled =>
    case ReadyAnnounced(w) => AnnouncePreservesInv(s, w);
    case JobTaken(w) => TakePreservesInv(s, w);
    case RenewerStarted(w) => StartRenewerPreservesInv(s, w);
    case PulseFired(w, call) => PulsePreservesInv(s, w, call);
    case JobFinished(w, body, complete, fail) => FinishPreservesInv(s, w, body, complete, fail);
    case RestartElapsed(w) => RestartPreservesInv(s, w);
    case SupervisorCancelled(w) => StopSupervisorPreservesInv(s, w);
  }

  lemma {:induction false} RunPreservesInv(s: State, es: seq<Event>)
    requires Inv(s) && Run(s, es).Some?
    ensures Inv(Run(s, es).value)
    decreases |es|
  {
    if es != [] {
      NextPreservesInv(s, es[0]);
      RunPreservesInv(Next(s, es[0]).value, es[1..]);
    }
  }

  /** The dispatcher's write-back always finds room in the channel. */
  lemma WriteBackNeverBlocks(s: State)
    requires Inv(s) && s.dispatcher.Leasing?
    ensures |s.ready| < MaxWorkers
  {
  }

  /** A worker at the top of its loop can always write its token. */
  lemma AnnounceNeverBlocks(s: State, w: WorkerId)
    requires Inv(s) && !s.cancelled && w in s.workers && s.workers[w] == Starting
    ensures |s.ready| < MaxWorkers
    ensures Announce(s, w).Some?
  {
    CountBelowSize(s.workers, w, IsEngaged);
  }

  /** From start-up, through any run of events, the claimed slots never
      exceed the pool size and neither channel write ever blocks. */
  lemma {:induction false} ReachableStatesAreBounded(store: Table, now: int, ids: set<WorkerId>, es: seq<Event>)
    requires |ids| == MaxWorkers
    requires Run(Start(store, now, ids), es).Some?
    ensures var s := Run(Start(store, now, ids), es).value;
      && |s.ready| + HeldTokens(s) + |s.handoff| + Count(s.workers, IsRunning) <= MaxWorkers
      && (s.dispatcher.Leasing? ==> |s.ready| < MaxWorkers)
      && (forall w :: w in s.workers && s.workers[w] == Starting && !s.cancelled ==> Announce(s, w).Some?)
  {
    StartEstablishesInv(store, now, ids);
    RunPreservesInv(Start(store, now, ids), es);
    var s := Run(Start(store, now, ids), es).value;
    forall w | w in s.workers && s.workers[w] == Starting && !s.cancelled
      ensures Announce(s, w).Some?
    {
      AnnounceNeverBlocks(s, w);
    }
  }

  /** A supervisor that returned stays returned: no step restarts it. */
  lemma StoppedIsFinal(s: State, e: Event, w: WorkerId)
    requires w in s.workers && s.workers[w] == Stopped && Next(s, e).Some?
    ensures w in Next(s, e).value.workers && Next(s, e).value.workers[w] == Stopped
  {
  }

  /** The heartbeat renewer calls `Heartbeat` only after a full pulse delay
      since the job started. */
  lemma PulseOnlyAfterFullDelay(s: State, w: WorkerId, call: CallResult)
    requires Inv(s) && Next(s, PulseFired(w, call)).Some?
    ensures s.now >= s.workers[w].startedAt + HeartbeatPulseDelay
  {
  }

  /** A job that ends before its renewer's delegate ran loses its slot for
      good, although the service keeps running: the await of the cancelled
      renewer throws a cancellation, which the supervisor treats as "stop".
      The accounting still holds, since the slot claims nothing afterwards. */
  lemma UnstartedRenewerEndsSlot(s: State, w: WorkerId, body: BodyOutcome, complete: CallResult, fail: CallResult)
    requires Inv(s) && !s.cancelled && w in s.workers && s.workers[w].Running?
    requires s.workers[w].renewer == Unstarted && body != BodyCancelled
    ensures Finish(s, w, body, complete, fail).Some?
    ensures var s' := Finish(s, w, body, complete, fail).value;
      && !s'.cancelled && s'.workers[w] == Stopped && Inv(s')
  {
    FinishPreservesInv(s, w, body, complete, fail);
  }

  /** The dispatcher's real lease call always yields a step the service can
      take: a store error, "no job" exactly when nothing is eligible, or the
      leased row. The service's table afterwards is exactly the table the
      statement wrote (`written`). */
  method LeaseForHeldToken(s: State, storeFails: bool) returns (o: LeaseOutcome, written: Table, r: State)
    requires Inv(s) && s.dispatcher.Leasing?
    ensures Next(s, LeaseReturned(o)) == Some(r)
    ensures storeFails <==> o == LeaseThrew
    ensures o.NoJob? <==> !storeFails && NoneEligible(s.store, s.now)
    ensures storeFails ==> written == s.store
    ensures r.store == written
    ensures o.LeasedJob? ==> r.store[o.job.id].leasedBy == Some(s.dispatcher.worker)
  {
    if storeFails {
      o := LeaseThrew;
      written := s.store;
    } else {
      var job;
      job, written := TryLease(s.store, s.dispatcher.worker, s.now);
      o := if job.None? then NoJob else LeasedJob(job.value);
    }
    WriteBackNeverBlocks(s);
    r := Next(s, LeaseReturned(o)).value;
  }
}
