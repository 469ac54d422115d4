/**
 The four SQL statements of `JobRepository`
 (Postgres/PostgresWorker/Job/JobRepository.cs) as transitions of the `jobs`
 table. Each statement is one atomic step evaluated at the instant `now`
 (Postgres `now()`); the row locking that makes the lease atomic
 (`FOR UPDATE SKIP LOCKED`) is what licenses treating it as one step.
 */
module JobRepository {
  import opened Options
  import opened JobModel

  type Table = map<JobId, Row>

  /** The filter of the inner SELECT: pending, or leased with a lease that
      ran out strictly before `now`. A NULL `lease_until` makes the SQL
      comparison unknown, so such a row is not selected. */
  predicate Eligible(row: Row, now: int)
    ensures row.status.IsTerminal() ==> !Eligible(row, now)
    ensures row.status == Pending ==> Eligible(row, now)
    ensures Eligible(row, now) && row.status == Leased ==> row.leaseUntil.Some? && row.leaseUntil.value < now
  {
    || row.status == Pending
    || (row.status == Leased && row.leaseUntil.Some? && row.leaseUntil.value < now)
  }

  function EligibleIds(t: Table, now: int): set<JobId> {
    set k | k in t && Eligible(t[k], now)
  }

  predicate NoneEligible(t: Table, now: int) {
    forall k :: k in t ==> !Eligible(t[k], now)
  }

  /** `id` is a row that `ORDER BY created_at LIMIT 1` may return: eligible,
      and no eligible row was created earlier. Ties are not broken by the
      query, so several ids may qualify. */
  predicate IsOldestEligible(t: Table, now: int, id: JobId)
    ensures IsOldestEligible(t, now, id) ==> id in EligibleIds(t, now) && !NoneEligible(t, now)
  {
    && id in t
    && Eligible(t[id], now)
    && forall k :: k in t && Eligible(t[k], now) ==> t[id].createdAt <= t[k].createdAt
  }

  /** `r` differs from `t` at most in the row `id`; an unknown id changes nothing. */
  predicate OnlyRowChanged(t: Table, r: Table, id: JobId) {
    && r.Keys == t.Keys
    && (forall k :: k in t && k != id ==> r[k] == t[k])
    && (id !in t ==> r == t)
  }

  /** The SET list of the lease UPDATE, applied to the chosen row. */
  function Lease(t: Table, id: JobId, worker: WorkerId, now: int): (r: Table)
    ensures OnlyRowChanged(t, r, id)
    ensures id in t ==>
      && r[id].status == Leased
      && r[id].leasedBy == Some(worker)
      && r[id].leaseUntil == Some(now + LeaseDuration)
      && r[id].heartbeatAt == Some(now)
      && r[id].updatedAt == now
      && r[id].createdAt == t[id].createdAt
      && r[id].payload == t[id].payload
  {
    if id in t then
      t[id := t[id].(status := Leased, leasedBy := Some(worker),
                     leaseUntil := Some(now + LeaseDuration),
                     heartbeatAt := Some(now), updatedAt := now)]
    else t
  }

  /** `TryLeaseJobAsync`: pick one of the oldest eligible rows, lease it to
      `worker`, and return its `(id, payload)`; with no eligible row, return
      nothing and leave the table alone. */
  method TryLease(t: Table, worker: WorkerId, now: int) returns (job: Option<Job>, r: Table)
    ensures job.None? <==> NoneEligible(t, now)
    ensures job.None? ==> r == t
    ensures job.Some? ==>
      && IsOldestEligible(t, now, job.value.id)
      && job.value.payload == t[job.value.id].payload
      && r == Lease(t, job.value.id, worker, now)
  {
    var best: Option<JobId> := None;
    var todo := t.Keys;
    while todo != {}
      invariant todo <= t.Keys
      invariant best.Some? ==> best.value in t && best.value !in todo && Eligible(t[best.value], now)
      invariant best.Some? ==>
        forall k :: k in t && k !in todo && Eligible(t[k], now) ==> t[best.value].createdAt <= t[k].createdAt
      invariant best.None? ==> forall k :: k in t && k !in todo ==> !Eligible(t[k], now)
      decreases todo
    {
      var k :| k in todo;
      if Eligible(t[k], now) && (best.None? || t[k].createdAt < t[best.value].createdAt) {
        best := Some(k);
      }
      todo := todo - {k};
    }
    match best
    case None =>
      job, r := None, t;
    case Some(id) =>
      job, r := Some(Job(id, t[id].payload)), Lease(t, id, worker, now);
  }

  /** `HeartbeatAsync`: push the lease out to `now + 2 minutes` and stamp the
      heartbeat. The statement has no condition on status or holder. */
  function Heartbeat(t: Table, id: JobId, now: int): (r: Table)
    ensures OnlyRowChanged(t, r, id)
    ensures id in t ==>
      && r[id].leaseUntil == Some(now + LeaseDuration)
      && r[id].heartbeatAt == Some(now)
      && r[id].status == t[id].status
      && r[id].leasedBy == t[id].leasedBy
      && r[id].updatedAt == t[id].updatedAt
      && r[id].createdAt == t[id].createdAt
      && r[id].payload == t[id].payload
  {
    if id in t then
      t[id := t[id].(leaseUntil := Some(now + LeaseDuration), heartbeatAt := Some(now))]
    else t
  }

  /** The shared shape of `MarkCompletedAsync` and `MarkFailedAsync`:
      set the status and bump `updated_at`, unconditionally. */
  function SetStatus(t: Table, id: JobId, status: Status, now: int): (r: Table)
    ensures OnlyRowChanged(t, r, id)
    ensures id in t ==>
      && r[id].status == status
      && r[id].updatedAt == now
      && r[id].leasedBy == t[id].leasedBy
      && r[id].leaseUntil == t[id].leaseUntil
      && r[id].heartbeatAt == t[id].heartbeatAt
      && r[id].createdAt == t[id].createdAt
      && r[id].payload == t[id].payload
  {
    if id in t then t[id := t[id].(status := status, updatedAt := now)] else t
  }

  function MarkCompleted(t: Table, id: JobId, now: int): (r: Table)
    ensures OnlyRowChanged(t, r, id)
    ensures id in t ==> r[id].status == Completed && !Eligible(r[id], now)
  {
    SetStatus(t, id, Completed, now)
  }

  function MarkFailed(t: Table, id: JobId, now: int): (r: Table)
    ensures OnlyRowChanged(t, r, id)
    ensures id in t ==> r[id].status == Failed && !Eligible(r[id], now)
  {
    SetStatus(t, id, Failed, now)
  }

  /** Completed and failed rows are outside the selection filter at every
      instant: the query never re-drives a failed job. */
  lemma TerminalNeverSelected(t: Table, id: JobId, now: int)
    requires id in t && t[id].status.IsTerminal()
    ensures id !in EligibleIds(t, now)
    ensures !IsOldestEligible(t, now, id)
  {
  }

  /** A leased row comes back only through expiry: it is eligible exactly
      when its lease ran out strictly before `now`. */
  lemma LeasedRowEligibleOnlyAfterExpiry(row: Row, now: int)
    requires row.status == Leased && row.leaseUntil.Some?
    ensures Eligible(row, now) <==> row.leaseUntil.value < now
  {
  }

  /** A row leased at `now` is not eligible at any instant up to
      `now + 2 minutes`, and is eligible at every later instant. */
  lemma FreshLeaseExcludesUntilExpiry(t: Table, id: JobId, worker: WorkerId, now: int, later: int)
    requires id in t
    ensures Eligible(Lease(t, id, worker, now)[id], later) <==> later > now + LeaseDuration
  {
  }

  /** Leasing one row removes exactly that row from the eligible set at
      the same instant; all others keep their eligibility. */
  lemma LeaseRemovesOnlyTheLeasedRow(t: Table, id: JobId, worker: WorkerId, now: int)
    requires id in t
    ensures EligibleIds(Lease(t, id, worker, now), now) == EligibleIds(t, now) - {id}
  {
  }

  /** With no holder check, a heartbeat for a re-leased row keeps the new
      holder and extends the new holder's lease: whoever issues it (a late
      pulse from the previous holder included) keeps the row away from
      other leasers for another two minutes. */
  lemma HeartbeatExtendsWhoeverHolds(t: Table, id: JobId, holder: WorkerId, now: int, later: int)
    requires id in t && t[id].status == Leased && t[id].leasedBy == Some(holder)
    requires later <= now + LeaseDuration
    ensures Heartbeat(t, id, now)[id].leasedBy == Some(holder)
    ensures !Eligible(Heartbeat(t, id, now)[id], later)
  {
  }

  /** On a row that is not leased, a heartbeat writes the lease columns but
      does not change whether the row can be selected. */
  lemma HeartbeatLeavesOtherStatusesAlone(t: Table, id: JobId, now: int, at: int)
    requires id in t && t[id].status != Leased
    ensures Eligible(Heartbeat(t, id, now)[id], at) == Eligible(t[id], at)
  {
  }

  /** Repeating a terminal update is harmless: the second one only moves
      `updated_at`, and the status stays what it was set to. */
  lemma SetStatusIdempotent(t: Table, id: JobId, status: Status, first: int, second: int)
    ensures SetStatus(SetStatus(t, id, status, first), id, status, second) == SetStatus(t, id, status, second)
  {
  }
}
