/**
 The dispatcher / worker pool of `JobProcessorService`
 (Postgres/PostgresWorker/Job/JobProcessorService.cs) as a transition system
 of atomic steps. Threads, channels and delays are replaced by:
 - a multiset of readiness tokens (the bounded `_workerReadyChannel`),
 - a FIFO of leased jobs (the unbounded `_jobChannel`),
 - the dispatcher's phase, including the token it holds while leasing,
 - one phase per supervised worker slot,
 - the jobs table and an integer clock, advanced by its own step.
 A delay is a phase that a step may leave once the clock reaches its end.
 Cancellation is one flag: once it is set, every blocking wait, channel
 write and delay that takes the token ends in `OperationCanceledException`,
 while the SQL calls (which never receive the token) still run.
 */
module JobProcessor {
  import opened Options
  import opened JobModel
  import opened JobRepository

  /** Capacity of the readiness channel and number of supervisors. */
  const MaxWorkers: nat := 4
  const DispatcherPollDelay: int := 10
  const HeartbeatPulseDelay: int := 30
  const WorkerRestartDelay: int := 5

  /** Whether a repository call returned or threw a (store) exception. */
  datatype CallResult = CallOk | CallThrew

  /** What `TryLeaseJobAsync` did for the dispatcher. */
  datatype LeaseOutcome = LeaseThrew | NoJob | LeasedJob(job: Job)

  /** How the job body ended; `BodyCancelled` is the
      `OperationCanceledException` of a cancelled body. */
  datatype BodyOutcome = BodyOk | BodyThrew | BodyCancelled

  /** How one iteration of `WorkerLoop` ends: it goes round again, it
      throws an ordinary exception, or it throws an
      `OperationCanceledException` (which the supervisor does not restart). */
  datatype LoopExit = NextIteration | Crashed | CancelledOut

  /** The heartbeat renewer task of a running job. `Unstarted`: queued by
      `Task.Run`, its delegate not yet running, so cancelling its token
      cancels the task itself. `Live`: its next `Heartbeat` call is due at
      `pulseDue`. `Faulted`: a heartbeat call threw and the task ended. */
  datatype Renewer = Unstarted | Live(pulseDue: int) | Faulted

  datatype DispatcherPhase =
    | AwaitingToken              // blocked reading the readiness channel
    | Leasing(worker: WorkerId)  // holds `worker`'s token, lease in flight
    | PollDelay(until: int)      // token written back, sleeping
    | Halted                     // loop ended by cancellation

  datatype WorkerPhase =
    | Starting                   // at the top of `WorkerLoop`, about to announce
    | Waiting                    // token written, blocked on the job channel
    | Running(job: Job, startedAt: int, renewer: Renewer)
    | Restarting(until: int)     // crashed; supervisor sleeping before the rerun
    | Stopped                    // supervisor returned

  datatype State = State(
    now: int,
    cancelled: bool,
    store: Table,
    ready: multiset<WorkerId>,
    dispatcher: DispatcherPhase,
    handoff: seq<Job>,
    workers: map<WorkerId, WorkerPhase>
  )

  datatype Event =
    | ClockAdvanced(seconds: nat)
    | ShutdownRequested
    | TokenRead(worker: WorkerId)
    | LeaseReturned(outcome: LeaseOutcome)
    | PollElapsed
    | DispatcherCancelled
    | ReadyAnnounced(worker: WorkerId)
    | JobTaken(worker: WorkerId)
    | RenewerStarted(worker: WorkerId)
    | PulseFired(worker: WorkerId, call: CallResult)
    | JobFinished(worker: WorkerId, body: BodyOutcome, complete: CallResult, fail: CallResult)
    | RestartElapsed(worker: WorkerId)
    | SupervisorCancelled(worker: WorkerId)

  /** `ExecuteAsync`: one dispatcher and `MaxWorkers` supervisors, each slot
      under a fresh identifier (the fresh GUIDs are the parameter `ids`). */
  function Start(store: Table, now: int, ids: set<WorkerId>): (s: State)
    requires |ids| == MaxWorkers
    ensures |s.workers| == MaxWorkers && s.workers.Keys == ids
    ensures forall w :: w in s.workers ==> s.workers[w] == Starting
    ensures s.dispatcher == AwaitingToken && s.ready == multiset{} && s.handoff == []
    ensures !s.cancelled && s.store == store && s.now == now
  {
    var workers := map w | w in ids :: Starting;
    assert workers.Keys == ids;
    State(now, false, store, multiset{}, AwaitingToken, [], workers)
  }

  // ---------------------------------------------------------------------
  // Dispatcher loop

  /** Take one readiness token off the channel; possible exactly when the
      dispatcher is waiting for one, that token is in the channel and the
      service is not shutting down. Nothing but the channel and the
      dispatcher's phase changes. */
  function ReadToken(s: State, w: WorkerId): (r: Option<State>)
    ensures r.Some? <==> s.dispatcher == AwaitingToken && !s.cancelled && w in s.ready
    ensures r.Some? ==> r.value == s.(ready := s.ready - multiset{w}, dispatcher := Leasing(w))
  {
    if s.dispatcher == AwaitingToken && !s.cancelled && w in s.ready then
      Some(s.(ready := s.ready - multiset{w}, dispatcher := Leasing(w)))
    else None
  }

  /** Error and no-job paths: write the same token back, then sleep. The
      write blocks on a full channel (no step) and throws on cancellation,
      which ends the dispatcher and drops the token. */
  function ReturnToken(s: State, w: WorkerId): (r: Option<State>)
    ensures r.Some? <==> s.cancelled || |s.ready| < MaxWorkers
    ensures r.Some? && !s.cancelled ==>
      r.value == s.(ready := s.ready + multiset{w}, dispatcher := PollDelay(s.now + DispatcherPollDelay))
    ensures r.Some? && s.cancelled ==> r.value == s.(dispatcher := Halted)
  {
    if s.cancelled then Some(s.(dispatcher := Halted))
    else if |s.ready| < MaxWorkers then
      Some(s.(ready := s.ready + multiset{w}, dispatcher := PollDelay(s.now + DispatcherPollDelay)))
    else None
  }

  /** The outcome of the lease attempt for the held token. A reported job
      must be one the lease statement can return; "no job" only when no row
      is eligible; a store error at any time. */
  function AttemptLease(s: State, o: LeaseOutcome): (r: Option<State>)
    ensures r.Some? ==> s.dispatcher.Leasing?
    // Error and no-job paths: the held token goes back (or is dropped under
    // cancellation); the table, the queue and every worker are untouched.
    ensures r.Some? && !o.LeasedJob? && !s.cancelled ==>
      r.value == s.(ready := s.ready + multiset{s.dispatcher.worker},
                    dispatcher := PollDelay(s.now + DispatcherPollDelay))
    ensures r.Some? && !o.LeasedJob? && s.cancelled ==> r.value == s.(dispatcher := Halted)
    ensures r.Some? && o.NoJob? ==> NoneEligible(s.store, s.now)
    // Success: the row is leased to the held worker and the job queued; the
    // token is not returned. Under cancellation the queue write throws.
    ensures r.Some? && o.LeasedJob? ==>
      && IsOldestEligible(s.store, s.now, o.job.id)
      && o.job.payload == s.store[o.job.id].payload
    ensures r.Some? && o.LeasedJob? && !s.cancelled ==>
      r.value == s.(store := Lease(s.store, o.job.id, s.dispatcher.worker, s.now),
                    handoff := s.handoff + [o.job], dispatcher := AwaitingToken)
    ensures r.Some? && o.LeasedJob? && s.cancelled ==>
      r.value == s.(store := Lease(s.store, o.job.id, s.dispatcher.worker, s.now), dispatcher := Halted)
    // Enabling: a store error is always possible, "no job" when nothing is
    // eligible, a job when it is an oldest eligible row (the write-back
    // needs room, which `WriteBackNeverBlocks` guarantees).
    ensures (&& s.dispatcher.Leasing? && (s.cancelled || |s.ready| < MaxWorkers)
             && (o.LeaseThrew? || (o.NoJob? && NoneEligible(s.store, s.now)))) ==> r.Some?
    ensures (&& s.dispatcher.Leasing? && o.LeasedJob? && IsOldestEligible(s.store, s.now, o.job.id)
             && o.job.payload == s.store[o.job.id].payload) ==> r.Some?
  {
    if !s.dispatcher.Leasing? then None
    else
      var w := s.dispatcher.worker;
      match o
      case LeaseThrew => ReturnToken(s, w)
      case NoJob => if NoneEligible(s.store, s.now) then ReturnToken(s, w) else None
      case LeasedJob(job) =>
        if IsOldestEligible(s.store, s.now, job.id) && job.payload == s.store[job.id].payload then
          var leased := s.(store := Lease(s.store, job.id, w, s.now));
          if s.cancelled then Some(leased.(dispatcher := Halted))
          else Some(leased.(handoff := s.handoff + [job], dispatcher := AwaitingToken))
        else None
  }

  function WakeFromPoll(s: State): (r: Option<State>)
    ensures r.Some? <==> s.dispatcher.PollDelay? && !s.cancelled && s.now >= s.dispatcher.until
    ensures r.Some? ==> r.value == s.(dispatcher := AwaitingToken)
  {
    if s.dispatcher.PollDelay? && !s.cancelled && s.now >= s.dispatcher.until then
      Some(s.(dispatcher := AwaitingToken))
    else None
  }

  /** A cancelled read or delay ends the dispatcher loop. */
  function HaltDispatcher(s: State): (r: Option<State>)
    ensures r.Some? <==> s.cancelled && (s.dispatcher.AwaitingToken? || s.dispatcher.PollDelay?)
    ensures r.Some? ==> r.value == s.(dispatcher := Halted)
  {
    if s.cancelled && (s.dispatcher.AwaitingToken? || s.dispatcher.PollDelay?) then
      Some(s.(dispatcher := Halted))
    else None
  }

  // ---------------------------------------------------------------------
  // Worker loop, heartbeat and supervisor

  /** Signal readiness: write this worker's own id to the readiness channel. */
  function Announce(s: State, w: WorkerId): (r: Option<State>)
    ensures r.Some? <==> w in s.workers && s.workers[w] == Starting && !s.cancelled && |s.ready| < MaxWorkers
    ensures r.Some? ==> r.value == s.(ready := s.ready + multiset{w}, workers := s.workers[w := Waiting])
  {
    if w in s.workers && s.workers[w] == Starting && !s.cancelled && |s.ready| < MaxWorkers then
      Some(s.(ready := s.ready + multiset{w}, workers := s.workers[w := Waiting]))
    else None
  }

  /** Take the oldest handed-off job and queue its heartbeat renewer. */
  function Take(s: State, w: WorkerId): (r: Option<State>)
    ensures r.Some? <==> w in s.workers && s.workers[w] == Waiting && !s.cancelled && |s.handoff| > 0
    ensures r.Some? ==>
      r.value == s.(handoff := s.handoff[1..],
                    workers := s.workers[w := Running(s.handoff[0], s.now, Unstarted)])
  {
    if w in s.workers && s.workers[w] == Waiting && !s.cancelled && |s.handoff| > 0 then
      Some(s.(handoff := s.handoff[1..], workers := s.workers[w := Running(s.handoff[0], s.now, Unstarted)]))
    else None
  }

  /** The renewer's delegate starts running; its first pulse is a full pulse
      delay away. A token cancelled before this point cancels the task
      instead, so the step needs the service to be running. */
  function StartRenewer(s: State, w: WorkerId): (r: Option<State>)
    ensures r.Some? <==>
      w in s.workers && s.workers[w].Running? && s.workers[w].renewer == Unstarted && !s.cancelled
    ensures r.Some? ==>
      r.value == s.(workers := s.workers[w := s.workers[w].(renewer := Live(s.now + HeartbeatPulseDelay))])
  {
    if w in s.workers && s.workers[w].Running? && s.workers[w].renewer == Unstarted && !s.cancelled then
      Some(s.(workers := s.workers[w := s.workers[w].(renewer := Live(s.now + HeartbeatPulseDelay))]))
    else None
  }

  /** One round of the heartbeat renewer, after a full pulse delay. A store
      error faults the renewer task; it beats no more. */
  function Pulse(s: State, w: WorkerId, call: CallResult): (r: Option<State>)
    ensures r.Some? <==>
      && w in s.workers && s.workers[w].Running? && s.workers[w].renewer.Live?
      && !s.cancelled && s.now >= s.workers[w].renewer.pulseDue
    ensures r.Some? && call == CallOk ==>
      r.value == s.(store := Heartbeat(s.store, s.workers[w].job.id, s.now),
                    workers := s.workers[w := s.workers[w].(renewer := Live(s.now + HeartbeatPulseDelay))])
    ensures r.Some? && call == CallThrew ==>
      r.value == s.(workers := s.workers[w := s.workers[w].(renewer := Faulted)])
  {
    if w in s.workers && s.workers[w].Running? && s.workers[w].renewer.Live?
       && !s.cancelled && s.now >= s.workers[w].renewer.pulseDue then
      var p := s.workers[w];
      match call
      case CallOk =>
        Some(s.(store := Heartbeat(s.store, p.job.id, s.now),
                workers := s.workers[w := p.(renewer := Live(s.now + HeartbeatPulseDelay))]))
      case CallThrew =>
        Some(s.(workers := s.workers[w := p.(renewer := Faulted)]))
    else None
  }

  /** The try / catch / finally around one job. The body succeeding and
      `MarkCompleted` succeeding completes the job; any exception from
      either (a cancelled body included) is caught and `MarkFailed` runs.
      A `MarkFailed` error escapes. The finally block then cancels and
      awaits the heartbeat renewer. The await rethrows the renewer's fault,
      or throws a cancellation when the renewer never started; either
      replaces any exception already escaping. */
  function Finalize(t: Table, id: JobId, now: int, body: BodyOutcome,
                    complete: CallResult, fail: CallResult, renewer: Renewer): (r: (Table, LoopExit))
    ensures OnlyRowChanged(t, r.0, id)
    ensures id in t && body == BodyOk && complete == CallOk ==> r.0[id].status == Completed
    ensures id in t && (body != BodyOk || complete == CallThrew) && fail == CallOk ==>
      r.0[id].status == Failed
    ensures (body != BodyOk || complete == CallThrew) && fail == CallThrew ==> r.0 == t
    // The row is exactly what the statement that ran writes.
    ensures body == BodyOk && complete == CallOk ==> r.0 == MarkCompleted(t, id, now)
    ensures (body != BodyOk || complete == CallThrew) && fail == CallOk ==> r.0 == MarkFailed(t, id, now)
    ensures r.1 == CancelledOut <==> renewer == Unstarted
    ensures r.1 == Crashed <==>
      renewer == Faulted || (renewer.Live? && (body != BodyOk || complete == CallThrew) && fail == CallThrew)
  {
    var succeeded := body == BodyOk && complete == CallOk;
    var table :=
      if succeeded then MarkCompleted(t, id, now)
      else if fail == CallOk then MarkFailed(t, id, now)
      else t;
    var escaping := !succeeded && fail == CallThrew;
    var exit :=
      match renewer
      case Unstarted => CancelledOut
      case Faulted => Crashed
      case Live(_) => if escaping then Crashed else NextIteration;
    (table, exit)
  }

  /** The renewer is awaited only after the job's row has been written:
      its state changes nothing about the table. A faulted renewer turns the
      end of the iteration into a crash, an unstarted one into a
      cancellation. */
  lemma RenewerSurfacesAfterFinalisation(t: Table, id: JobId, now: int, body: BodyOutcome,
                                         complete: CallResult, fail: CallResult, renewer: Renewer)
    ensures Finalize(t, id, now, body, complete, fail, renewer).0 == Finalize(t, id, now, body, complete, fail, Live(now)).0
    ensures Finalize(t, id, now, body, complete, fail, Faulted).1 == Crashed
    ensures Finalize(t, id, now, body, complete, fail, Unstarted).1 == CancelledOut
  {
  }

  /** `WorkerSupervisorLoop` reacting to one end of `WorkerLoop`'s body:
      a cancellation (escaping, or requested so the loops stop) ends the
      supervisor; another exception means a restart after the delay;
      otherwise the worker loop goes round again. */
  function Supervise(exit: LoopExit, cancelled: bool, now: int): (p: WorkerPhase)
    ensures p == Stopped <==> cancelled || exit == CancelledOut
    ensures p == Restarting(now + WorkerRestartDelay) <==> !cancelled && exit == Crashed
    ensures p == Starting <==> !cancelled && exit == NextIteration
  {
    if cancelled then Stopped
    else match exit
      case CancelledOut => Stopped
      case Crashed => Restarting(now + WorkerRestartDelay)
      case NextIteration => Starting
  }

  /** Finish the running job: finalise its row, then hand the loop's exit
      to the supervisor. No other slot, channel or the dispatcher changes. */
  function Finish(s: State, w: WorkerId, body: BodyOutcome, complete: CallResult, fail: CallResult): (r: Option<State>)
    ensures r.Some? <==>
      w in s.workers && s.workers[w].Running? && (body == BodyCancelled ==> s.cancelled)
    ensures r.Some? ==>
      var (t, exit) := Finalize(s.store, s.workers[w].job.id, s.now, body, complete, fail,
                                s.workers[w].renewer);
      r.value == s.(store := t, workers := s.workers[w := Supervise(exit, s.cancelled, s.now)])
  {
    if w in s.workers && s.workers[w].Running? && (body == BodyCancelled ==> s.cancelled) then
      var p := s.workers[w];
      var (t, exit) := Finalize(s.store, p.job.id, s.now, body, complete, fail, p.renewer);
      Some(s.(store := t, workers := s.workers[w := Supervise(exit, s.cancelled, s.now)]))
    else None
  }

  /** The supervisor reruns `WorkerLoop` under the same id after its delay. */
  function Restart(s: State, w: WorkerId): (r: Option<State>)
    ensures r.Some? <==>
      w in s.workers && s.workers[w].Restarting? && !s.cancelled && s.now >= s.workers[w].until
    ensures r.Some? ==> r.value == s.(workers := s.workers[w := Starting])
  {
    if w in s.workers && s.workers[w].Restarting? && !s.cancelled && s.now >= s.workers[w].until then
      Some(s.(workers := s.workers[w := Starting]))
    else None
  }

  /** Cancellation at a wait, a channel write or the restart delay ends the
      supervisor without a restart. */
  function StopSupervisor(s: State, w: WorkerId): (r: Option<State>)
    ensures r.Some? <==>
      && s.cancelled && w in s.workers
      && (s.workers[w].Starting? || s.workers[w].Waiting? || s.workers[w].Restarting?)
    ensures r.Some? ==> r.value == s.(workers := s.workers[w := Stopped])
  {
    if s.cancelled && w in s.workers
       && (s.workers[w].Starting? || s.workers[w].Waiting? || s.workers[w].Restarting?) then
      Some(s.(workers := s.workers[w := Stopped]))
    else None
  }

  /** One atomic step of the whole service, the interleaving of the
      dispatcher, worker, renewer and supervisor loops; `None` when the
      event cannot happen in `s`. Only the clock step moves time, time never
      goes back, the pool keeps its slots and shutdown is never undone. */
  function Next(s: State, e: Event): (r: Option<State>)
    ensures r.Some? ==> r.value.now >= s.now
    ensures r.Some? && !e.ClockAdvanced? ==> r.value.now == s.now
    ensures r.Some? ==> r.value.workers.Keys == s.workers.Keys
    ensures r.Some? && s.cancelled ==> r.value.cancelled
    ensures r.Some? && !e.ShutdownRequested? ==> r.value.cancelled == s.cancelled
  {
    match e
    case ClockAdvanced(seconds) => Some(s.(now := s.now + seconds))
    case ShutdownRequested => if s.cancelled then None else Some(s.(cancelled := true))
    case TokenRead(w) => ReadToken(s, w)
    case LeaseReturned(o) => AttemptLease(s, o)
    case PollElapsed => WakeFromPoll(s)
    case DispatcherCancelled => HaltDispatcher(s)
    case ReadyAnnounced(w) => Announce(s, w)
    case JobTaken(w) => Take(s, w)
    case RenewerStarted(w) => StartRenewer(s, w)
    case PulseFired(w, call) => Pulse(s, w, call)
    case JobFinished(w, body, complete, fail) => Finish(s, w, body, complete, fail)
    case RestartElapsed(w) => Restart(s, w)
    case SupervisorCancelled(w) => StopSupervisor(s, w)
  }

  /** Run a sequence of events; `None` as soon as one cannot happen. */
  function Run(s: State, es: seq<Event>): Option<State>
    decreases |es|
  {
    if es == [] then Some(s)
    else match Next(s, es[0])
      case None => None
      case Some(s') => Run(s', es[1..])
  }
}
