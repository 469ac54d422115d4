/**
 Sequences of repository statements against one table. Each step is one of
 the four statements at some instant; the lease step records which row it
 returned. This is where the lease table's safety properties are stated:
 terminal rows stay terminal and are never leased again, no step returns a
 row to `pending`, and a freshly leased row is held by its leaser for the
 whole lease window, whatever else runs meanwhile.
 */
module LeaseHistory {
  import opened Options
  import opened JobModel
  import opened JobRepository

  datatype StoreOp =
    | LeaseOp(worker: WorkerId, leased: Option<JobId>)
    | HeartbeatOp(id: JobId)
    | CompleteOp(id: JobId)
    | FailOp(id: JobId)

  datatype Stamped = Stamped(op: StoreOp, at: int)

  /** `t` becomes `r` by running `op` at instant `now`. */
  predicate StoreStep(t: Table, op: StoreOp, now: int, r: Table) {
    match op
    case LeaseOp(_, None) => NoneEligible(t, now) && r == t
    case LeaseOp(worker, Some(id)) => IsOldestEligible(t, now, id) && r == Lease(t, id, worker, now)
    case HeartbeatOp(id) => r == Heartbeat(t, id, now)
    case CompleteOp(id) => r == MarkCompleted(t, id, now)
    case FailOp(id) => r == MarkFailed(t, id, now)
  }

  /** `ts[i + 1]` is obtained from `ts[i]` by `ops[i]`. */
  predicate History(ts: seq<Table>, ops: seq<Stamped>) {
    && |ts| == |ops| + 1
    && forall i :: 0 <= i < |ops| ==> StoreStep(ts[i], ops[i].op, ops[i].at, ts[i + 1])
  }

  predicate Returns(op: StoreOp, id: JobId) {
    op.LeaseOp? && op.leased == Some(id)
  }

  predicate Finalises(op: StoreOp, id: JobId) {
    op == CompleteOp(id) || op == FailOp(id)
  }

  /** One statement keeps a terminal row terminal and never returns it. */
  lemma StepKeepsTerminal(t: Table, op: StoreOp, now: int, r: Table, id: JobId)
    requires StoreStep(t, op, now, r)
    requires id in t && t[id].status.IsTerminal()
    ensures id in r && r[id].status.IsTerminal()
    ensures !Returns(op, id)
  {
  }

  /** Once completed or failed, a row stays completed or failed through any
      history, and no lease in it ever returns that row. */
  lemma {:induction false} TerminalIsAbsorbing(ts: seq<Table>, ops: seq<Stamped>, id: JobId)
    requires History(ts, ops)
    requires id in ts[0] && ts[0][id].status.IsTerminal()
    ensures forall i :: 0 <= i < |ts| ==> id in ts[i] && ts[i][id].status.IsTerminal()
    ensures forall i :: 0 <= i < |ops| ==> !Returns(ops[i].op, id)
  {
    if |ops| > 0 {
      var n := |ops| - 1;
      TerminalIsAbsorbing(ts[..n + 1], ops[..n], id);
      assert id in ts[n] && ts[n][id].status.IsTerminal();
      StepKeepsTerminal(ts[n], ops[n].op, ops[n].at, ts[n + 1], id);
    }
  }

  /** No statement moves a row back to `pending`: the only way an abandoned
      lease is recovered is by letting it expire. */
  lemma {:induction false} PendingNeverReturns(ts: seq<Table>, ops: seq<Stamped>, id: JobId)
    requires History(ts, ops)
    requires id in ts[0] && ts[0][id].status != Pending
    ensures forall i :: 0 <= i < |ts| ==> id in ts[i] && ts[i][id].status != Pending
  {
    if |ops| > 0 {
      var n := |ops| - 1;
      PendingNeverReturns(ts[..n + 1], ops[..n], id);
      assert id in ts[n] && ts[n][id].status != Pending;
    }
  }

  /** `id` is leased to `worker` until at least `until`. */
  predicate HeldUntil(t: Table, id: JobId, worker: WorkerId, until: int) {
    && id in t
    && t[id].status == Leased
    && t[id].leasedBy == Some(worker)
    && t[id].leaseUntil.Some?
    && t[id].leaseUntil.value >= until
  }

  /** Mutual exclusion over a lease window. A row leased to `worker` at `t0`
      stays leased to `worker` through any history whose statements all run
      within `[t0, t0 + 2 minutes]` and do not finalise it: every lease in
      that history returns some other row (or none), and heartbeats only
      push the expiry further out. */
  lemma {:induction false} LeaseWindowIsExclusive(
    ts: seq<Table>, ops: seq<Stamped>, id: JobId, worker: WorkerId, t0: int)
    requires History(ts, ops)
    requires HeldUntil(ts[0], id, worker, t0 + LeaseDuration)
    requires forall i :: 0 <= i < |ops| ==> t0 <= ops[i].at <= t0 + LeaseDuration
    requires forall i :: 0 <= i < |ops| ==> !Finalises(ops[i].op, id)
    ensures forall i :: 0 <= i < |ts| ==> HeldUntil(ts[i], id, worker, t0 + LeaseDuration)
    ensures forall i :: 0 <= i < |ops| ==> !Returns(ops[i].op, id)
  {
    if |ops| > 0 {
      var n := |ops| - 1;
      LeaseWindowIsExclusive(ts[..n + 1], ops[..n], id, worker, t0);
      assert HeldUntil(ts[n], id, worker, t0 + LeaseDuration);
      assert ops[n].at <= t0 + LeaseDuration && !Finalises(ops[n].op, id);
      assert StoreStep(ts[n], ops[n].op, ops[n].at, ts[n + 1]);
    }
  }

  /** A lease step is the atomic unit: two callers that lease at the same
      instant, one after the other, never get the same row, and when exactly
      one row is eligible the first caller gets it and the second gets
      nothing. */
  method LeaseTwiceAtOneInstant(t: Table, first: WorkerId, second: WorkerId, now: int)
    returns (a: Option<Job>, b: Option<Job>, r: Table)
    ensures a.Some? && b.Some? ==> a.value.id != b.value.id
    ensures |EligibleIds(t, now)| == 1 ==> a.Some? && b.None?
    ensures a.Some? ==> a.value.id in r && r[a.value.id].leasedBy == Some(first)
  {
    var mid: Table;
    a, mid := TryLease(t, first, now);
    b, r := TryLease(mid, second, now);
    if a.Some? {
      LeaseRemovesOnlyTheLeasedRow(t, a.value.id, first, now);
      if |EligibleIds(t, now)| == 1 {
        var only := EligibleIds(t, now);
        assert a.value.id in only;
        assert |only - {a.value.id}| == 0;
        assert only == {a.value.id};
        assert EligibleIds(mid, now) == {};
        forall k | k in mid
          ensures !Eligible(mid[k], now)
        {
          assert k !in EligibleIds(mid, now);
        }
      }
    } else {
      assert EligibleIds(t, now) == {};
    }
  }
}
