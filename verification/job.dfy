/**
 The persisted job row and the `(Id, Payload)` record a lease returns
 (Postgres/PostgresWorker/Job/Job.cs). Identifiers are GUIDs in the program;
 here they are natural numbers, since only their equality matters.
 Timestamps are whole seconds on one clock shared by all callers.
 */
module JobModel {
  import opened Options

  type JobId = nat
  type WorkerId = nat

  /** Length of a lease: `now() + interval '2 minutes'`. */
  const LeaseDuration: int := 120

  /** The record `Job(Guid Id, string Payload)` returned by a successful lease. */
  datatype Job = Job(id: JobId, payload: string)

  datatype Status = Pending | Leased | Completed | Failed {
    /** The two states the worker writes when it finishes a job. */
    predicate IsTerminal() {
      this == Completed || this == Failed
    }
  }

  /** One row of the `jobs` table, keyed by its id. Nullable columns are options. */
  datatype Row = Row(
    status: Status,
    leasedBy: Option<WorkerId>,
    leaseUntil: Option<int>,
    heartbeatAt: Option<int>,
    createdAt: int,
    updatedAt: int,
    payload: string
  )
}
