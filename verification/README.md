# Postgres job-queue worker: lease table and dispatcher/worker protocol

This project models the core of a database-backed job-queue worker in Dafny.
Workers lease rows of a shared `jobs` table, run them under a bounded pool,
renew their leases with heartbeats, and record each job as completed or failed.
It has two parts:

- **The lease table** (`JobRepository`). The `jobs` table is a map from job id
  to row. Each of the four SQL statements (lease, heartbeat, mark completed,
  mark failed) is one atomic transition at an explicit instant `now`, in whole
  seconds. The row lock the lease statement takes (`FOR UPDATE SKIP LOCKED`)
  is what makes it one atomic step.
- **The dispatcher/worker pool** (`JobProcessorService`). It is a transition
  system of atomic steps, with no threads. The state holds:
  - a multiset of readiness tokens, modelling the bounded worker-ready channel;
  - a FIFO of leased jobs, modelling the unbounded handoff channel;
  - the dispatcher's phase, including the token it holds while a lease is in
    flight;
  - one phase per supervised worker slot;
  - the table, a clock and a cancellation flag.

Files:
- `options.dfy`: `Option`.
- `job.dfy`: row, status and the `(Id, Payload)` record a lease returns.
- `job_repository.dfy`: the four statements and their single-step properties.
- `lease_history.dfy`: histories of statements. It proves that terminal rows are
  absorbing, that no row returns to `pending`, that a lease is exclusive for its
  whole window, and what two leases at one instant return.
- `counting.dfy`: counting map entries by predicate.
- `job_processor.dfy`: the service's steps: dispatcher, worker, heartbeat,
  finalisation and supervisor.
- `processor_invariant.dfy`: token conservation and its consequences.

The central invariant is token conservation, with `MaxWorkers = 4`:

    tokens in the channel + token held by the dispatcher
      + jobs queued + jobs being processed  <=  MaxWorkers

Before shutdown this sum equals the number of workers that are waiting for a
job or running one. So the dispatcher's token write-back and a worker's
announcement never find the channel full.

Behaviours of the code worth knowing, all reflected in the model:
- Cancellation aborts a running job body, because the token `ct` is passed to
  `ProcessJobAsync` (JobProcessorService.cs:178, 249). The caught exception
  leads to `MarkFailed` (line 197), so the job is marked failed.
- A heartbeat failure is rethrown by the renewer (line 237). It surfaces at
  `await heartbeatTask` (line 202), after the job's row has been written. The
  worker loop then throws, and its supervisor restarts it after 5 seconds
  (lines 130-138).
- If a job ends before the renewer's `Task.Run` delegate has started, cancelling
  its token (line 201) cancels the task itself. The await then throws a
  cancellation, and the supervisor's cancellation handler (lines 123-128) ends
  that slot for good while the service keeps running.
- The lease statement writes `updated_at` along with the lease columns
  (JobRepository.cs:20-24).
- `Heartbeat` has no status condition (JobRepository.cs:44), so it also writes
  `lease_until` on a pending, completed or failed row. This never changes
  whether the row can be selected (`HeartbeatLeavesOtherStatusesAlone`).

## Model

| member | source | states |
|---|---|---|
| JobRepository.Eligible | Postgres/PostgresWorker/Job/JobRepository.cs:30-31 | The selection filter: a pending row is always eligible, a completed or failed row never is, and an eligible leased row has a non-null `lease_until` strictly before `now`. |
| JobRepository.IsOldestEligible | Postgres/PostgresWorker/Job/JobRepository.cs:30-33 | A row `ORDER BY created_at LIMIT 1` may return is eligible, so some row is eligible. No eligible row has a smaller `created_at`, and ties are left open. |
| JobRepository.TryLease | Postgres/PostgresWorker/Job/JobRepository.cs:15-39 | Returns nothing, and leaves the table unchanged, exactly when no row is pending or leased with an expired lease. Otherwise it returns the id and payload of an eligible row that no eligible row predates by `created_at`, and the table with that row leased to the caller. |
| JobRepository.Lease | Postgres/PostgresWorker/Job/JobRepository.cs:18-24 | The lease writes `status = leased`, `leased_by` = the caller, `lease_until = now + 120`, and `heartbeat_at = updated_at = now`. It keeps `created_at` and `payload`, and no other row changes. |
| JobRepository.Heartbeat | Postgres/PostgresWorker/Job/JobRepository.cs:42-45 | Only `lease_until = now + 120` and `heartbeat_at = now` change. Status, holder and `updated_at` are kept, and an unknown id changes nothing. |
| JobRepository.SetStatus | Postgres/PostgresWorker/Job/JobRepository.cs:47-55 | Sets the status and `updated_at = now`, unconditionally. The lease columns, holder and heartbeat stamp are untouched, and so are the other rows. |
| JobRepository.MarkCompleted | Postgres/PostgresWorker/Job/JobRepository.cs:47-50 | The row becomes completed and is no longer selectable. Only that row changes. |
| JobRepository.MarkFailed | Postgres/PostgresWorker/Job/JobRepository.cs:52-55 | The row becomes failed and is no longer selectable. Only that row changes. |
| JobRepository.TerminalNeverSelected | Postgres/PostgresWorker/Job/JobRepository.cs:28-31 | A completed or failed row is never eligible and never chosen, at any instant. |
| JobRepository.LeasedRowEligibleOnlyAfterExpiry | Postgres/PostgresWorker/Job/JobRepository.cs:30-31 | A leased row is eligible if and only if its `lease_until` is strictly before `now`. |
| JobRepository.FreshLeaseExcludesUntilExpiry | Postgres/PostgresWorker/Job/JobRepository.cs:22-31 | A row leased at `t` is eligible at an instant if and only if that instant is after `t + 120`. |
| JobRepository.LeaseRemovesOnlyTheLeasedRow | Postgres/PostgresWorker/Job/JobRepository.cs:18-35 | At the lease instant, the eligible set loses exactly the leased row. |
| JobRepository.HeartbeatExtendsWhoeverHolds | Postgres/PostgresWorker/Job/JobRepository.cs:42-45 | With no holder check, a heartbeat on a leased row keeps its current holder. For two more minutes the row stays away from every other leaser, even when the pulse comes from a previous holder. |
| JobRepository.HeartbeatLeavesOtherStatusesAlone | Postgres/PostgresWorker/Job/JobRepository.cs:42-45 | On a pending, completed or failed row, a heartbeat does not change whether the row is selectable. |
| JobRepository.SetStatusIdempotent | Postgres/PostgresWorker/Job/JobRepository.cs:47-55 | Repeating a terminal update gives the same table as doing it once at the later instant. |
| LeaseHistory.StepKeepsTerminal | Postgres/PostgresWorker/Job/JobRepository.cs:17-55 | No single statement takes a row out of completed/failed, and no lease returns such a row. |
| LeaseHistory.TerminalIsAbsorbing | Postgres/PostgresWorker/Job/JobRepository.cs:17-55 | Through any history of statements, a completed or failed row stays terminal and is never returned by a lease. |
| LeaseHistory.PendingNeverReturns | Postgres/PostgresWorker/Job/JobRepository.cs:17-55 | No history moves a row back to `pending`. The only recovery from an abandoned lease is its expiry. |
| LeaseHistory.LeaseWindowIsExclusive | Postgres/PostgresWorker/Job/JobRepository.cs:17-45 | Take a row leased to `w` at `t0`, then any history run within `[t0, t0 + 120]` that does not finalise it. Throughout, the row stays leased to `w` with `lease_until >= t0 + 120`, and no lease in the history returns it. |
| LeaseHistory.LeaseTwiceAtOneInstant | Postgres/PostgresWorker/Job/JobRepository.cs:25-36 | Two leases at the same instant never return the same id. With exactly one eligible row, the first caller gets it and the second gets nothing. |
| JobProcessor.Start | Postgres/PostgresWorker/Job/JobProcessorService.cs:43-53 | The service starts exactly `MaxWorkers` worker slots with distinct ids, all about to announce, and one dispatcher waiting for a token. Both channels start empty, the service is not cancelled, and the table and clock are the given ones. |
| JobProcessor.ReadToken | Postgres/PostgresWorker/Job/JobProcessorService.cs:70-73 | Possible exactly when the dispatcher is waiting, the token is in the channel and the service is running. The dispatcher then holds that token. Table, queue and workers are unchanged. |
| JobProcessor.ReturnToken | Postgres/PostgresWorker/Job/JobProcessorService.cs:87-101 | The same worker id goes back into the channel before the 10-second poll delay. Under cancellation the dispatcher ends and the token is dropped. Table, queue and workers are untouched. |
| JobProcessor.AttemptLease | Postgres/PostgresWorker/Job/JobProcessorService.cs:82-107 | On a store error, or on "no job" (only when nothing is eligible), the held token goes back and the poll delay starts. Under cancellation the dispatcher halts and drops the token instead. A leased job is an oldest eligible row, leased to the held worker and queued for the workers; the token is not returned, and under cancellation the job is not queued. Every path keeps the workers, and each path changes only the parts it names. It also states when each outcome can happen. |
| JobProcessor.WakeFromPoll | Postgres/PostgresWorker/Job/JobProcessorService.cs:96-101 | The dispatcher resumes reading tokens only once the poll delay has elapsed. |
| JobProcessor.HaltDispatcher | Postgres/PostgresWorker/Job/JobProcessorService.cs:70-100 | Only cancellation ends the dispatcher loop. |
| JobProcessor.Announce | Postgres/PostgresWorker/Job/JobProcessorService.cs:149-152 | Possible exactly when the worker is at the top of its loop, the service is running and the channel has room. The worker's own id is added to the readiness channel and it then waits for a job. Nothing else changes. |
| JobProcessor.Take | Postgres/PostgresWorker/Job/JobProcessorService.cs:154-172 | Possible exactly when a waiting worker finds a queued job and the service is running. It takes the oldest queued job and queues that job's heartbeat renewer. Nothing else changes. |
| JobProcessor.StartRenewer | Postgres/PostgresWorker/Job/JobProcessorService.cs:209-219 | Possible exactly when a running job's renewer is queued and the service is running. The renewer becomes live, with its first pulse a full pulse delay away. Nothing else changes. |
| JobProcessor.Pulse | Postgres/PostgresWorker/Job/JobProcessorService.cs:217-237 | Possible exactly when the renewer is live, its pulse is due and the service is running. On success it renews the running job's lease and schedules the next pulse a full delay later. A store error faults the renewer, which beats no more. Nothing else changes. |
| JobProcessor.Finalize | Postgres/PostgresWorker/Job/JobProcessorService.cs:176-203 | Body success followed by a successful `MarkCompleted` leaves the table exactly as `MarkCompleted` writes it. Any other case leaves it exactly as `MarkFailed` writes it: a failing or cancelled body, or a failing `MarkCompleted`. If `MarkFailed` itself fails, the table is untouched. Only the job's row ever changes. The iteration ends in a cancellation exactly when the renewer never started. Otherwise it crashes exactly when the renewer faulted or `MarkFailed` failed. |
| JobProcessor.RenewerSurfacesAfterFinalisation | Postgres/PostgresWorker/Job/JobProcessorService.cs:199-243 | The renewer's state does not change how the job's row is finalised. A faulted renewer only turns the end of the iteration into a crash, and an unstarted one into a cancellation. |
| JobProcessor.Supervise | Postgres/PostgresWorker/Job/JobProcessorService.cs:117-140 | The supervisor ends exactly when cancellation was requested or a cancellation escaped the loop. After any other exception it sleeps 5 seconds before a restart. Otherwise the worker loop goes round again. |
| JobProcessor.Finish | Postgres/PostgresWorker/Job/JobProcessorService.cs:176-203 | Possible exactly when the slot is running a job (a cancelled body only after shutdown). It applies the finalisation to the table and hands the loop's exit to the supervisor. No other slot, channel or the dispatcher changes. |
| JobProcessor.Restart | Postgres/PostgresWorker/Job/JobProcessorService.cs:130-139 | After the restart delay the same slot reruns its worker loop. |
| JobProcessor.StopSupervisor | Postgres/PostgresWorker/Job/JobProcessorService.cs:117-129 | Only under cancellation does a waiting, starting or restarting slot end, with no restart. |
| JobProcessor.Next | Postgres/PostgresWorker/Job/JobProcessorService.cs:66-243 | One step of the interleaved dispatcher, worker, renewer and supervisor loops. Only the clock step moves time, and time never goes back. The pool keeps its slots, and shutdown is never undone. |
| ProcessorInvariant.StartEstablishesInv | Postgres/PostgresWorker/Job/JobProcessorService.cs:43-53 | The start-up state satisfies token conservation. |
| ProcessorInvariant.NextPreservesInv | Postgres/PostgresWorker/Job/JobProcessorService.cs:66-207 | Every step preserves these facts. Before shutdown, channel tokens + held token + queued jobs + running jobs equals the number of waiting or running workers, and the dispatcher has not halted. That sum never exceeds `MaxWorkers`. Tokens always name pool workers. A live renewer's next pulse is at least a pulse delay after its job started. |
| ProcessorInvariant.RunPreservesInv | Postgres/PostgresWorker/Job/JobProcessorService.cs:66-207 | Token conservation holds after any sequence of steps. |
| ProcessorInvariant.WriteBackNeverBlocks | Postgres/PostgresWorker/Job/JobProcessorService.cs:87-101 | While the dispatcher holds a token, the readiness channel has a free slot, so a write-back never exceeds capacity. |
| ProcessorInvariant.AnnounceNeverBlocks | Postgres/PostgresWorker/Job/JobProcessorService.cs:149-152 | Before shutdown, a worker about to announce always finds room in the readiness channel, so its announcement step can always happen. |
| ProcessorInvariant.ReachableStatesAreBounded | Postgres/PostgresWorker/Job/JobProcessorService.cs:14-18 | In every state reachable from start-up, tokens + held token + queued jobs + running jobs stays at or below `MaxWorkers`, and neither channel write can block. |
| ProcessorInvariant.StoppedIsFinal | Postgres/PostgresWorker/Job/JobProcessorService.cs:123-129 | A supervisor that ended on cancellation is never restarted. |
| ProcessorInvariant.PulseOnlyAfterFullDelay | Postgres/PostgresWorker/Job/JobProcessorService.cs:217-220 | `Heartbeat` is called only once a full pulse delay has passed since the job started. |
| ProcessorInvariant.UnstartedRenewerEndsSlot | Postgres/PostgresWorker/Job/JobProcessorService.cs:117-243 | A job that ends before its renewer started always can finish. Its slot then stops although no shutdown was requested, and token conservation still holds. |
| ProcessorInvariant.LeaseForHeldToken | Postgres/PostgresWorker/Job/JobProcessorService.cs:82-107 | The dispatcher's real lease call always gives a step the service can take. A store error maps to the error path, "no job" happens exactly when nothing is eligible, and a leased row belongs to the held worker. The service's table afterwards is exactly the table the statement wrote, and the old table on a store error. |

## Left out

- Postgres locking and MVCC (`FOR UPDATE SKIP LOCKED`): each statement is one atomic step. This gives every property that row exclusion gives, but no blocking or skipping behaviour is modelled.
- Store errors: a statement that throws is modelled as having no effect. An error reported after the statement committed is not modelled.
- Dapper and connection I/O, dependency-injection scopes, logging, stopwatch timing, `Postgres/PostgresWorker/Program.cs` and `ExecuteAsync`'s final exception handling. These are hosting and wiring only.
- All RabbitMQ and MassTransit programs. They are broker demos built on console and network I/O and share no state with the worker.
- The job body (`ProcessJobAsync`'s random sleep) is a nondeterministic outcome: success, failure or cancellation. The body as written fails only through cancellation. The model also allows a failing body, because the body stands for pluggable business logic.
- Thread scheduling, `Task.Run`, channel internals and `Task.Delay`: steps interleave, and a delay is a phase that ends when the clock reaches its deadline. The durations (10 s poll, 30 s pulse, 5 s restart, 120 s lease) appear only as constants.
- The readiness channel's FIFO order: tokens form a multiset. Only their number and identity matter here.
- A heartbeat call already in flight when the renewer is cancelled (line 201) is not modelled. `HeartbeatAsync` ignores its token (JobRepository.cs:42-45), so such a call can still commit after `MarkCompleted` or `MarkFailed` and rewrite `lease_until` and `heartbeat_at` on a terminal row. In the model, a pulse needs a running job and finishing is one atomic step, so that table state is never reached. By `HeartbeatLeavesOtherStatusesAlone`, such a write would not make the row selectable.
- Time: one integer clock in whole seconds stands for both Postgres `now()` and the process's `Task.Delay` timers. The two clocks are not distinguished, and no clock skew or sub-second ordering is modelled.
- Fresh GUIDs: the start-up worker ids are a parameter, assumed distinct. Job ids are naturals, and `created_at` is a non-null integer, so NULL ordering is not modelled.
- Liveness (that a ready worker eventually gets a job, that an expired job is eventually re-leased): only safety properties are stated.
- JobProcessor.ReturnToken: it has no step while the readiness channel is full, standing in for the blocking write. `WriteBackNeverBlocks` shows that case never arises.
