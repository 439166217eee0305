/**
The leased work queue that the outbox and the inbox both are: rows claimed under a lease,
an action performed outside the claim transaction, and a result transition that is a
compare-and-set on (status = processing, claimed_by = worker).

Clocks are not part of the state. Each claim brings the caller's own reading of the clock,
so everything proved here holds under arbitrary clock skew between workers.
*/
module LeaseQueue {
  import opened Common
  import opened StatusTriggers

  const BATCH_SIZE: nat := 20

  // A claimed row as the worker remembers it.
  datatype Snap = Snap(id: EventId, attempts: nat)

  // Progress of the worker on the head of its batch.
  datatype Stage = Ready | Succeeded | Raised(retryable: bool)

  datatype Worker = Worker(batch: seq<Snap>, stage: Stage)

  datatype Queue = Queue(rows: map<EventId, Row>, workers: map<WorkerId, Worker>)

  const IDLE := Worker([], Ready)

  function At(q: Queue, w: WorkerId): Worker {
    if w in q.workers then q.workers[w] else IDLE
  }

  // ---- row images written by the repository's UPDATE statements ----

  function Fresh(now: int): Row { Row(Pending, None, None, now, 0, None, None) }

  predicate Due(r: Row, now: int) {
    && (r.status.Pending? || r.status.Failed? || r.status.Processing?)
    && r.availableAt <= now
    && (r.claimedUntil.None? || r.claimedUntil.value <= now)
  }

  function Claimed(r: Row, w: WorkerId, until: int, now: int): Row {
    Updated(r, r.(status := Processing, claimedBy := Some(w), claimedUntil := Some(until), attempts := r.attempts + 1), now)
  }

  function MarkedDone(r: Row, now: int): Row {
    Updated(r, r.(status := Done, claimedBy := None, claimedUntil := None), now)
  }

  function MarkedFailed(r: Row, retryAt: int, now: int): Row {
    Updated(r, r.(status := Failed, claimedBy := None, claimedUntil := None, availableAt := retryAt), now)
  }

  function MarkedDead(r: Row, now: int): Row {
    Updated(r, r.(status := DeadLetter, claimedBy := None, claimedUntil := None), now)
  }

  // The WHERE clause of every mark_* statement.
  predicate Owned(q: Queue, id: EventId, w: WorkerId) {
    id in q.rows && q.rows[id].status.Processing? && q.rows[id].claimedBy == Some(w)
  }

  // ---- transitions of the queue ----

  datatype QStep =
    | Insert(id: EventId, now: int)
    | Claim(w: WorkerId, ids: seq<EventId>, lease: nat, now: int)
    | Act(w: WorkerId, stage: Stage)                 // the external work on the batch head ends
    | Conclude(w: WorkerId, now: int, retryAt: int)  // the result transaction for the batch head
    | Skip(w: WorkerId)                              // that transaction was rolled back; go on
    | Drop(w: WorkerId)                              // crash, stop or raised cycle: batch forgotten

  predicate Enabled(q: Queue, s: QStep) {
    match s
    case Insert(id, now) => id !in q.rows
    case Claim(w, ids, lease, now) =>
      && At(q, w).batch == []
      && |ids| <= BATCH_SIZE
      && (forall i :: 0 <= i < |ids| ==> ids[i] in q.rows && Due(q.rows[ids[i]], now))
      && (forall i, j :: 0 <= i < j < |ids| ==> ids[i] != ids[j])
    case Act(w, stage) => At(q, w).batch != [] && At(q, w).stage.Ready? && !stage.Ready?
    case Conclude(w, now, retryAt) => At(q, w).batch != [] && !At(q, w).stage.Ready?
    case Skip(w) => At(q, w).batch != []
    case Drop(w) => true
  }

  function Head(q: Queue, w: WorkerId): (s: Snap)
    requires At(q, w).batch != []
  {
    At(q, w).batch[0]
  }

  // The row image the result transaction writes when the claim is still held:
  // success, non-retryable failure, retryable failure with or without budget left.
  function Verdict(r: Row, stage: Stage, attempts: nat, maxAttempts: nat, now: int, retryAt: int): Row {
    match stage
    case Ready => r
    case Succeeded => MarkedDone(r, now)
    case Raised(false) => MarkedDead(r, now)
    case Raised(true) => if attempts >= maxAttempts then MarkedDead(r, now) else MarkedFailed(r, retryAt, now)
  }

  function Popped(wk: Worker): Worker
    requires wk.batch != []
  {
    Worker(wk.batch[1..], Ready)
  }

  // The claimed rows as their new owner reads them.
  function ClaimedSnaps(q: Queue, ids: seq<EventId>): seq<Snap>
    requires forall i :: 0 <= i < |ids| ==> ids[i] in q.rows
  {
    seq(|ids|, i requires 0 <= i < |ids| => Snap(ids[i], q.rows[ids[i]].attempts + 1))
  }

  function Apply(q: Queue, s: QStep, maxAttempts: nat): Queue
    requires Enabled(q, s)
  {
    match s
    case Insert(id, now) => q.(rows := q.rows[id := Fresh(now)])
    case Claim(w, ids, lease, now) =>
      var rows := map id | id in q.rows :: if id in ids then Claimed(q.rows[id], w, now + lease, now) else q.rows[id];
      Queue(rows, q.workers[w := Worker(ClaimedSnaps(q, ids), Ready)])
    case Act(w, stage) => q.(workers := q.workers[w := At(q, w).(stage := stage)])
    case Conclude(w, now, retryAt) =>
      var h := Head(q, w);
      var rows := if Owned(q, h.id, w)
                  then q.rows[h.id := Verdict(q.rows[h.id], At(q, w).stage, h.attempts, maxAttempts, now, retryAt)]
                  else q.rows;
      Queue(rows, q.workers[w := Popped(At(q, w))])
    case Skip(w) => q.(workers := q.workers[w := Popped(At(q, w))])
    case Drop(w) => q.(workers := q.workers[w := IDLE])
  }

  function Actor(s: QStep): Option<WorkerId> {
    if s.Insert? then None else Some(s.w)
  }

  // ---- the inductive invariant ----

  predicate RowOk(r: Row) {
    && (r.status.Processing? <==> r.claimedBy.Some?)
    && (r.status.Processing? <==> r.claimedUntil.Some?)
    && (r.status.Processing? ==> r.attempts >= 1)
    && (r.status.Done? <==> r.finishedAt.Some?)
  }

  ghost predicate RowsOk(q: Queue) { forall id :: id in q.rows ==> RowOk(q.rows[id]) }

  // A remembered claim is never ahead of its row, and is exact while the claim is held.
  predicate SnapOk(q: Queue, w: WorkerId, s: Snap) {
    && s.id in q.rows
    && 1 <= s.attempts <= q.rows[s.id].attempts
    && (Owned(q, s.id, w) ==> s.attempts == q.rows[s.id].attempts)
  }

  ghost predicate WorkerOk(q: Queue, w: WorkerId) {
    var wk := At(q, w);
    && (wk.batch == [] ==> wk.stage.Ready?)
    && (forall i :: 0 <= i < |wk.batch| ==> SnapOk(q, w, wk.batch[i]))
    && (forall i, j :: 0 <= i < j < |wk.batch| ==> wk.batch[i].id != wk.batch[j].id)
  }

  ghost predicate QInv(q: Queue) {
    RowsOk(q) && forall w: WorkerId :: WorkerOk(q, w)
  }

  lemma ClaimKeepsQInv(q: Queue, w: WorkerId, ids: seq<EventId>, lease: nat, now: int, maxAttempts: nat)
    requires QInv(q) && Enabled(q, Claim(w, ids, lease, now))
    ensures QInv(Apply(q, Claim(w, ids, lease, now), maxAttempts))
  {
    var q' := Apply(q, Claim(w, ids, lease, now), maxAttempts);
    forall v: WorkerId ensures WorkerOk(q', v) {
      assert WorkerOk(q, v);
      if v == w {
        forall i | 0 <= i < |ids| ensures SnapOk(q', w, At(q', w).batch[i]) {
          assert ids[i] in ids;
        }
      } else {
        assert At(q', v) == At(q, v);
        forall i | 0 <= i < |At(q, v).batch| ensures SnapOk(q', v, At(q, v).batch[i]) {
          assert SnapOk(q, v, At(q, v).batch[i]);
        }
      }
    }
  }

  lemma ConcludeKeepsQInv(q: Queue, s: QStep, maxAttempts: nat)
    requires QInv(q) && s.Conclude? && Enabled(q, s)
    ensures QInv(Apply(q, s, maxAttempts))
  {
    var q' := Apply(q, s, maxAttempts);
    assert WorkerOk(q, s.w);
    forall v: WorkerId ensures WorkerOk(q', v) {
      assert WorkerOk(q, v);
      var old_, new_ := At(q, v).batch, At(q', v).batch;
      var k := if v == s.w then 1 else 0;
      assert new_ == old_[k..];
      forall i | 0 <= i < |new_| ensures SnapOk(q', v, new_[i]) {
        assert SnapOk(q, v, old_[i + k]);
      }
    }
  }

  /** Every transition of the queue keeps the invariant. */
  lemma StepKeepsQInv(q: Queue, s: QStep, maxAttempts: nat)
    requires QInv(q) && Enabled(q, s)
    ensures QInv(Apply(q, s, maxAttempts))
  {
    var q' := Apply(q, s, maxAttempts);
    match s
    case Claim(w, ids, lease, now) => ClaimKeepsQInv(q, w, ids, lease, now, maxAttempts);
    case Conclude(_, _, _) => ConcludeKeepsQInv(q, s, maxAttempts);
    case Insert(id, now) =>
      forall v: WorkerId ensures WorkerOk(q', v) {
        assert WorkerOk(q, v);
        forall i | 0 <= i < |At(q, v).batch| ensures SnapOk(q', v, At(q, v).batch[i]) {
          assert SnapOk(q, v, At(q, v).batch[i]);
        }
      }
    case _ =>
      forall v: WorkerId ensures WorkerOk(q', v) {
        assert WorkerOk(q, v);
        var old_, new_ := At(q, v).batch, At(q', v).batch;
        var k := if v != s.w || s.Act? then 0 else if s.Skip? then 1 else |old_|;
        assert new_ == old_[k..];
        forall i | 0 <= i < |new_| ensures SnapOk(q', v, new_[i]) {
          assert SnapOk(q, v, old_[i + k]);
        }
      }
  }

  // ---- what the queue guarantees ----

  /** The workers refine the trigger machine: no transition makes the trigger raise, so each
      row image a worker intends is the image stored, and every change is an accepted one. */
  lemma WorkersRefineTrigger(q: Queue, s: QStep, maxAttempts: nat, id: EventId)
    requires QInv(q) && Enabled(q, s) && id in q.rows
    ensures id in Apply(q, s, maxAttempts).rows
    ensures Accepted(q.rows[id], Apply(q, s, maxAttempts).rows[id])
    ensures s.Claim? && id in s.ids ==>
              var r := Apply(q, s, maxAttempts).rows[id];
              r.status.Processing? && r.claimedBy == Some(s.w) && r.attempts == q.rows[id].attempts + 1
    ensures s.Conclude? && Owned(q, id, s.w) && Head(q, s.w).id == id ==>
              var r, stage := Apply(q, s, maxAttempts).rows[id], At(q, s.w).stage;
              && (stage.Succeeded? <==> r.status.Done?)
              && (stage.Raised? && stage.retryable && q.rows[id].attempts < maxAttempts <==> r.status.Failed?)
              && (r.status.Done? || r.status.Failed? || r.status.DeadLetter?)
  {
    if s.Conclude? {
      assert WorkerOk(q, s.w);
      assert SnapOk(q, s.w, Head(q, s.w));
    }
    if s.Claim? && id in s.ids {
      var i :| 0 <= i < |s.ids| && s.ids[i] == id;
      assert Due(q.rows[s.ids[i]], s.now);
    }
  }

  /** Every status change is stamped with the clock of the statement that makes it, and a row has a
      finishing time exactly from its success on: the time of that success. */
  lemma StampsExactly(q: Queue, s: QStep, maxAttempts: nat, id: EventId)
    requires QInv(q) && Enabled(q, s) && id in q.rows
    ensures var r, r' := q.rows[id], Apply(q, s, maxAttempts).rows[id];
            && (r'.status != r.status ==> (s.Claim? || s.Conclude?) && r'.updatedAt == Some(s.now))
            && r'.finishedAt == if r'.status.Done? && !r.status.Done? then Some(s.now) else r.finishedAt
  {
    if s.Conclude? {
      assert WorkerOk(q, s.w);
      assert SnapOk(q, s.w, Head(q, s.w));
    }
    if s.Claim? && id in s.ids {
      var i :| 0 <= i < |s.ids| && s.ids[i] == id;
      assert Due(q.rows[s.ids[i]], s.now);
    }
  }

  /** A worker whose claim was lost writes nothing: its result transaction only drops the
      stale entry from its own batch. */
  lemma LostClaimWritesNothing(q: Queue, s: QStep, maxAttempts: nat)
    requires s.Conclude? && Enabled(q, s) && !Owned(q, Head(q, s.w).id, s.w)
    ensures Apply(q, s, maxAttempts).rows == q.rows
    ensures forall v: WorkerId :: v != s.w ==> At(Apply(q, s, maxAttempts), v) == At(q, v)
  {
  }

  /** A claim is exclusive: once another worker has re-claimed a row, everyone who held it
      before has lost it. */
  lemma ReclaimRevokes(q: Queue, s: QStep, maxAttempts: nat, v: WorkerId, id: EventId)
    requires s.Claim? && Enabled(q, s) && id in s.ids && v != s.w
    ensures !Owned(Apply(q, s, maxAttempts), id, v)
  {
    var i :| 0 <= i < |s.ids| && s.ids[i] == id;
    assert Due(q.rows[s.ids[i]], s.now);
  }

  // ---- when a row can be claimed ----

  // Worker v, idle, could claim row id at clock t.
  predicate ClaimableAt(q: Queue, id: EventId, v: WorkerId, lease: nat, t: int) { Enabled(q, Claim(v, [id], lease, t)) }

  /** The claim query, read off the columns: open, available, and under no live lease. */
  lemma ClaimableExactly(q: Queue, id: EventId, v: WorkerId, lease: nat, t: int)
    requires id in q.rows && At(q, v) == IDLE
    ensures var r := q.rows[id];
            ClaimableAt(q, id, v, lease, t) <==>
              !r.status.Done? && !r.status.DeadLetter? && r.availableAt <= t && (r.claimedUntil.Some? ==> r.claimedUntil.value <= t)
  {
    assert [id][0] == id;
  }

  /** A lease excludes every other worker until it has run out, and no longer. */
  lemma LeaseExcludes(q: Queue, id: EventId, w: WorkerId, lease: nat, now: int, maxAttempts: nat, v: WorkerId, l: nat, t: int)
    requires id in q.rows && v != w && At(q, v) == IDLE && Enabled(q, Claim(w, [id], lease, now))
    ensures ClaimableAt(Apply(q, Claim(w, [id], lease, now), maxAttempts), id, v, l, t) <==> now + lease <= t && q.rows[id].availableAt <= t
  {
    assert id in [id] && [id][0] == id;
    ClaimableExactly(Apply(q, Claim(w, [id], lease, now), maxAttempts), id, v, l, t);
  }

  /** A new row can be claimed from its own time on. */
  lemma InsertedClaimable(q: Queue, id: EventId, now: int, maxAttempts: nat, v: WorkerId, l: nat, t: int)
    requires Enabled(q, Insert(id, now)) && At(q, v) == IDLE
    ensures ClaimableAt(Apply(q, Insert(id, now), maxAttempts), id, v, l, t) <==> now <= t
  {
    ClaimableExactly(Apply(q, Insert(id, now), maxAttempts), id, v, l, t);
  }

  /** After its holder concluded it, a row can be claimed again exactly if the failure was retryable, its
      budget is not spent and the backoff has run out. */
  lemma ConcludedClaimable(q: Queue, w: WorkerId, now: int, retryAt: int, maxAttempts: nat, v: WorkerId, l: nat, t: int)
    requires QInv(q) && Enabled(q, Conclude(w, now, retryAt)) && Owned(q, Head(q, w).id, w) && v != w && At(q, v) == IDLE
    ensures ClaimableAt(Apply(q, Conclude(w, now, retryAt), maxAttempts), Head(q, w).id, v, l, t) <==>
              At(q, w).stage == Raised(true) && q.rows[Head(q, w).id].attempts < maxAttempts && retryAt <= t
  {
    assert WorkerOk(q, w);
    assert SnapOk(q, w, Head(q, w));
    ClaimableExactly(Apply(q, Conclude(w, now, retryAt), maxAttempts), Head(q, w).id, v, l, t);
  }

  // ---- runs ----

  function Exec(q: Queue, steps: seq<QStep>, maxAttempts: nat): Option<Queue>
    decreases |steps|
  {
    if steps == [] then Some(q)
    else if !Enabled(q, steps[0]) then None
    else Exec(Apply(q, steps[0], maxAttempts), steps[1..], maxAttempts)
  }

  // The handled failures that put row id back into the retry schedule during a run.
  function Reschedules(q: Queue, steps: seq<QStep>, maxAttempts: nat, id: EventId): nat
    decreases |steps|
  {
    if steps == [] || !Enabled(q, steps[0]) then 0
    else
      var q' := Apply(q, steps[0], maxAttempts);
      (if steps[0].Conclude? && id in q.rows && id in q'.rows && q.rows[id].status.Processing? && q'.rows[id].status.Failed? then 1 else 0)
      + Reschedules(q', steps[1..], maxAttempts, id)
  }

  // How many more times a row can be rescheduled.
  function RetryBudget(q: Queue, maxAttempts: nat, id: EventId): nat {
    var a := if id in q.rows then q.rows[id].attempts else 0;
    if id in q.rows && q.rows[id].status.Processing?
    then (if a < maxAttempts then maxAttempts - a else 0)
    else (if a + 1 < maxAttempts then maxAttempts - 1 - a else 0)
  }

  lemma RetryBudgetStep(q: Queue, s: QStep, maxAttempts: nat, id: EventId)
    requires QInv(q) && Enabled(q, s)
    ensures var q' := Apply(q, s, maxAttempts);
            var rescheduled := s.Conclude? && id in q.rows && id in q'.rows
                               && q.rows[id].status.Processing? && q'.rows[id].status.Failed?;
            RetryBudget(q', maxAttempts, id) + (if rescheduled then 1 else 0) <= RetryBudget(q, maxAttempts, id)
  {
    if s.Conclude? {
      assert WorkerOk(q, s.w);
      assert SnapOk(q, s.w, Head(q, s.w));
    }
    if s.Claim? && id in s.ids {
      var i :| 0 <= i < |s.ids| && s.ids[i] == id;
      assert Due(q.rows[s.ids[i]], s.now);
    }
  }

  /** Over any run, from any reachable queue, a row is rescheduled by handled failures at most
      RetryBudget times; a row not yet claimed has maxAttempts - 1 of them. Claims repeated
      after crashes only use the budget up. */
  lemma {:induction false} RetriesBounded(q: Queue, steps: seq<QStep>, maxAttempts: nat, id: EventId)
    requires QInv(q) && Exec(q, steps, maxAttempts).Some?
    ensures Reschedules(q, steps, maxAttempts, id) <= RetryBudget(q, maxAttempts, id)
    ensures id !in q.rows && maxAttempts >= 1 ==> Reschedules(q, steps, maxAttempts, id) <= maxAttempts - 1
    decreases |steps|
  {
    if steps != [] {
      RetryBudgetStep(q, steps[0], maxAttempts, id);
      StepKeepsQInv(q, steps[0], maxAttempts);
      RetriesBounded(Apply(q, steps[0], maxAttempts), steps[1..], maxAttempts, id);
    }
  }

  // ---- a lease over runs ----

  // No claim of the run reads a clock at or past the given time.
  predicate Before(steps: seq<QStep>, until: int) { forall k :: 0 <= k < |steps| && steps[k].Claim? ==> steps[k].now < until }

  // Worker w concludes row id somewhere in the run.
  predicate ConcludedBy(q: Queue, steps: seq<QStep>, maxAttempts: nat, w: WorkerId, id: EventId)
    decreases |steps|
  {
    && steps != [] && Enabled(q, steps[0])
    && ((steps[0].Conclude? && steps[0].w == w && Head(q, w).id == id)
        || ConcludedBy(Apply(q, steps[0], maxAttempts), steps[1..], maxAttempts, w, id))
  }

  lemma LeaseStep(q: Queue, s: QStep, maxAttempts: nat, id: EventId, w: WorkerId)
    requires Enabled(q, s) && Owned(q, id, w) && q.rows[id].claimedUntil.Some?
    requires s.Claim? ==> s.now < q.rows[id].claimedUntil.value
    requires !(s.Conclude? && s.w == w && Head(q, w).id == id)
    ensures s.Claim? ==> id !in s.ids
    ensures id in Apply(q, s, maxAttempts).rows && Apply(q, s, maxAttempts).rows[id] == q.rows[id]
  {
  }

  lemma BeforeTail(steps: seq<QStep>, until: int)
    requires steps != [] && Before(steps, until)
    ensures Before(steps[1..], until)
  {
    forall k | 0 <= k < |steps| - 1 && steps[1..][k].Claim? ensures steps[1..][k].now < until { assert steps[1..][k] == steps[k + 1]; }
  }

  /** While a lease runs on the clocks of all who claim, nobody but its holder gets the row or changes it:
      until the holder concludes it, no claim takes it and it stays exactly as it was claimed. */
  lemma {:induction false} LeaseHolds(q: Queue, steps: seq<QStep>, maxAttempts: nat, id: EventId, w: WorkerId)
    requires Exec(q, steps, maxAttempts).Some? && Owned(q, id, w) && q.rows[id].claimedUntil.Some?
    requires Before(steps, q.rows[id].claimedUntil.value) && !ConcludedBy(q, steps, maxAttempts, w, id)
    ensures forall k :: 0 <= k < |steps| && steps[k].Claim? ==> id !in steps[k].ids
    ensures var q' := Exec(q, steps, maxAttempts).value; id in q'.rows && q'.rows[id] == q.rows[id]
    decreases |steps|
  {
    if steps != [] {
      LeaseStep(q, steps[0], maxAttempts, id, w);
      BeforeTail(steps, q.rows[id].claimedUntil.value);
      LeaseHolds(Apply(q, steps[0], maxAttempts), steps[1..], maxAttempts, id, w);
      forall k | 0 <= k < |steps| && steps[k].Claim? ensures id !in steps[k].ids {
        if k > 0 { assert steps[1..][k - 1] == steps[k]; }
      }
    }
  }
}
