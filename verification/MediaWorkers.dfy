/**
The media cleanup worker as the loops it is, over shared records and storage. Its methods are
proved to move only along steps of the model, with other workers, users and uploads acting at
every await, and to return exactly the number of records they handled.
*/
module MediaWorkers {
  import opened Common
  import opened MediaCleanup
  import opened MediaTurns

  predicate Mine(w: WorkerId, t: Step) { Sweeps(t) && t.w == w }

  // The transition by which a worker counts a record as handled.
  predicate Handles(s: State, t: Step)
    requires Enabled(s, t)
  {
    match t
    case Finish(w) => In(s, At(s, w).batch[0].media, DeletionPending)
    case Reconcile(w) => In(s, At(s, w).batch[0].media, At(s, w).batch[0].record.state)
    case FailStale(w) => In(s, At(s, w).batch[0].media, Uploading)
    case _ => false
  }

  function HandledBy(s: State, steps: seq<Step>, w: WorkerId): nat
    decreases |steps|
  {
    if steps == [] || !Enabled(s, steps[0]) then 0
    else (if Mine(w, steps[0]) && Handles(s, steps[0]) then 1 else 0) + HandledBy(Apply(s, steps[0]), steps[1..], w)
  }

  lemma {:induction false} HandledSnoc(s: State, steps: seq<Step>, t: Step, w: WorkerId)
    requires Run(s, steps).Some? && Enabled(Run(s, steps).value, t)
    ensures Run(s, steps + [t]) == Some(Apply(Run(s, steps).value, t))
    ensures HandledBy(s, steps + [t], w) == HandledBy(s, steps, w) + (if Mine(w, t) && Handles(Run(s, steps).value, t) then 1 else 0)
    decreases |steps|
  {
    if steps == [] {
      assert steps + [t] == [t] && [t][1..] == [];
    } else {
      HandledSnoc(Apply(s, steps[0]), steps[1..], t, w);
      assert (steps + [t])[1..] == steps[1..] + [t];
    }
  }

  lemma OthersKeepHand(s: State, t: Step, w: WorkerId)
    requires Enabled(s, t) && !Mine(w, t)
    ensures At(Apply(s, t), w) == At(s, w)
  {
  }

  // What the first phase leaves in the worker's hand.
  lemma BeginGoes(s: State, late: set<MediaId>, w: WorkerId)
    requires Working(s, w, ExpirySweep, Untouched) && HandOk(s, late, w)
    ensures var h := At(s, w).batch[0];
            At(Apply(s, Begin(w)), w) ==
              if h.record.held || (h.record.state.Available? && !In(s, h.media, Available))
              then Hand(ExpirySweep, At(s, w).batch[1..], Untouched) else At(s, w).(stage := Removing)
  {
    assert SnapOk(s, ExpirySweep, At(s, w).batch[0]);
  }

  // Available or pending, with its expiry date reached.
  predicate Overdue(r: Record, now: int) {
    (r.state.Available? || r.state.DeletionPending?) && r.expiresAt.Some? && r.expiresAt.value <= now
  }

  class MediaStore {
    var st: State
    ghost var history: seq<Step>

    ghost predicate Valid()
      reads this
    {
      Run(INITIAL, history) == Some(st) && Inv(st, Late())
    }

    // What a late upload has put back.
    ghost function Late(): set<MediaId>
      reads this
    {
      LateRun(INITIAL, {}, history)
    }

    ghost function Count(w: WorkerId): nat
      reads this
    {
      HandledBy(INITIAL, history, w)
    }

    ghost function Done(w: WorkerId): seq<Deed>
      reads this
    {
      Deeds(INITIAL, history, w)
    }

    constructor ()
      ensures Valid() && st == INITIAL && history == []
    {
      st := INITIAL;
      history := [];
    }

    method Take(t: Step)
      requires Valid() && Enabled(st, t)
      modifies this
      ensures Valid() && st == Apply(old(st), t) && history == old(history) + [t]
      ensures forall w: WorkerId :: Count(w) == old(Count(w)) + (if Mine(w, t) && Handles(old(st), t) then 1 else 0)
      ensures forall w: WorkerId :: Done(w) == old(Done(w)) + Doing(old(st), t, w)
    {
      forall w: WorkerId ensures Deeds(INITIAL, history + [t], w) == Deeds(INITIAL, history, w) + Doing(st, t, w) {
        DeedsSnoc(INITIAL, history, t, w);
      }
      forall w: WorkerId
        ensures HandledBy(INITIAL, history + [t], w) == HandledBy(INITIAL, history, w) + (if Mine(w, t) && Handles(st, t) then 1 else 0)
      {
        HandledSnoc(INITIAL, history, t, w);
      }
      HandledSnoc(INITIAL, history, t, 0);
      LateAppend(INITIAL, {}, history, [t]);
      assert [t][1..] == [];
      StepKeepsInv(st, Late(), t);
      st := Apply(st, t);
      history := history + [t];
    }

    /** What everybody else does meanwhile. */
    method Others(me: WorkerId, plan: seq<Step>)
      requires Valid()
      modifies this
      ensures Valid() && old(history) <= history && At(st, me) == At(old(st), me) && Count(me) == old(Count(me)) && Done(me) == old(Done(me))
    {
      for k := 0 to |plan|
        invariant Valid() && old(history) <= history && At(st, me) == At(old(st), me) && Count(me) == old(Count(me)) && Done(me) == old(Done(me))
      {
        if Enabled(st, plan[k]) && !Mine(me, plan[k]) {
          OthersKeepHand(st, plan[k], me);
          Take(plan[k]);
        }
      }
    }
  }

  class MediaCleanupWorker {
    const id: WorkerId
    const d: MediaStore

    constructor (id: WorkerId, d: MediaStore)
      ensures this.id == id && this.d == d
    {
      this.id := id;
      this.d := d;
    }

    // Phase 1: DELETION_PENDING, committed before the object is touched.
    method EnsurePending(env: Surroundings, k: nat) returns (go: bool, ghost x: Deed)
      requires d.Valid() && Working(d.st, id, ExpirySweep, Untouched)
      modifies d
      ensures d.Valid() && old(d.history) <= d.history && d.Count(id) == old(d.Count(id))
      ensures At(d.st, id) == if go then At(old(d.st), id).(stage := Removing) else Hand(ExpirySweep, At(old(d.st), id).batch[1..], Untouched)
      ensures var h := At(old(d.st), id).batch[0]; go ==> !h.record.held && h.media in d.st.records && Dying(d.st.records[h.media])
      ensures var h := At(old(d.st), id).batch[0];
              go == (!h.record.held && (h.record.state.DeletionPending? || (In(old(d.st), h.media, Available) && env.committed(ExpirySweep, k))))
      ensures d.Done(id) == old(d.Done(id)) + [x] && BegunRight(x, At(old(d.st), id).batch[0], env.committed(ExpirySweep, k), go)
    {
      assert HandOk(d.st, d.Late(), id);
      BeginGoes(d.st, d.Late(), id);
      var h := At(d.st, id).batch[0];
      if h.record.state.Available? && !h.record.held && !env.committed(ExpirySweep, k) {
        x := DeedOf(d.st, Skip(id));
        d.Take(Skip(id));
        return false, x;
      }
      assert SnapOk(d.st, ExpirySweep, h);
      go := !h.record.held && (h.record.state.DeletionPending? || In(d.st, h.media, Available));
      x := DeedOf(d.st, Begin(id));
      d.Take(Begin(id));
      assert HandOk(d.st, d.Late(), id);
    }

    // Phase 2: the object, outside any transaction.
    method RemoveObject(env: Surroundings, k: nat) returns (ok: bool, ghost x: Deed)
      requires d.Valid() && Working(d.st, id, ExpirySweep, Removing)
      modifies d
      ensures d.Valid() && old(d.history) <= d.history && d.Count(id) == old(d.Count(id))
      ensures At(d.st, id) == if ok then At(old(d.st), id).(stage := Removed) else Hand(ExpirySweep, At(old(d.st), id).batch[1..], Untouched)
      ensures ok ==> At(d.st, id).batch[0].media !in d.st.objects
      ensures ok == env.storage(ExpirySweep, k).ok
      ensures d.Done(id) == old(d.Done(id)) + [x] && x.snap == At(old(d.st), id).batch[0] && x.act == Removes && (ok ==> !x.there)
    {
      var reply := env.storage(ExpirySweep, k);
      ok := reply.ok;
      x := DeedOf(d.st, Remove(id, reply.applied || ok, ok));
      d.Take(Remove(id, reply.applied || ok, ok));
    }

    // Phase 3: deleted, once the object has been removed.
    method CompleteDeletion(env: Surroundings, k: nat) returns (handled: bool, ghost x: Deed)
      requires d.Valid() && Working(d.st, id, ExpirySweep, Removed)
      modifies d
      ensures d.Valid() && old(d.history) <= d.history
      ensures At(d.st, id) == Hand(ExpirySweep, At(old(d.st), id).batch[1..], Untouched)
      ensures d.Count(id) == old(d.Count(id)) + (if handled then 1 else 0)
      ensures var m := At(old(d.st), id).batch[0].media;
              env.committed(ExpirySweep, k) ==> In(d.st, m, Deleted) && (m in d.st.objects <==> LatelyPut(d.history, m))
      ensures d.Done(id) == old(d.Done(id)) + [x] && x.snap == At(old(d.st), id).batch[0]
      ensures env.committed(ExpirySweep, k) ==> x.act == Finishes && x.after.Some? && x.after.value.state.Deleted?
    {
      if !env.committed(ExpirySweep, k) {
        x := DeedOf(d.st, Skip(id));
        d.Take(Skip(id));
        return false, x;
      }
      var m := At(d.st, id).batch[0].media;
      assert HandOk(d.st, d.Late(), id);
      handled := In(d.st, m, DeletionPending);
      x := DeedOf(d.st, Finish(id));
      d.Take(Finish(id));
      assert RecordOk(d.st, d.Late(), m);
      LateExactly(d.history, m);
    }

    /** Two-phase deletion of the head of the batch: pending first, object second, deleted last. Without
        faults, a record that is not held and that the first phase finds as listed ends deleted, and
        its object is gone unless a late upload has put one there since. */
    method DeleteExpired(env: Surroundings, j: nat) returns (handled: bool, ghost xs: seq<Deed>)
      requires d.Valid() && Working(d.st, id, ExpirySweep, Untouched)
      modifies d
      ensures d.Valid() && old(d.history) <= d.history
      ensures At(d.st, id) == Hand(ExpirySweep, At(old(d.st), id).batch[1..], Untouched)
      ensures d.Count(id) == old(d.Count(id)) + (if handled then 1 else 0)
      ensures var h := At(old(d.st), id).batch[0];
              !h.record.held && (h.record.state.DeletionPending? || In(old(d.st), h.media, Available))
              && env.committed(ExpirySweep, 2 * j) && env.committed(ExpirySweep, 2 * j + 1) && env.storage(ExpirySweep, 2 * j).ok ==>
                In(d.st, h.media, Deleted) && (h.media in d.st.objects <==> LatelyPut(d.history, h.media))
      ensures d.Done(id) == old(d.Done(id)) + xs && ExpiredRight(env, j, At(old(d.st), id).batch[0], xs)
    {
      var go;
      ghost var x, rest;
      ghost var h := At(d.st, id).batch[0];
      go, x := EnsurePending(env, 2 * j);
      if go {
        handled, rest := FinishPending(env, j);
      } else {
        handled, rest := false, [];
      }
      xs := [x] + rest;
      ExpiredInTwo(env, j, h, x, rest);
    }

    // What follows the pending mark.
    method FinishPending(env: Surroundings, j: nat) returns (handled: bool, ghost xs: seq<Deed>)
      requires d.Valid() && Working(d.st, id, ExpirySweep, Removing)
      modifies d
      ensures d.Valid() && old(d.history) <= d.history
      ensures At(d.st, id) == Hand(ExpirySweep, At(old(d.st), id).batch[1..], Untouched)
      ensures d.Count(id) == old(d.Count(id)) + (if handled then 1 else 0)
      ensures var m := At(old(d.st), id).batch[0].media;
              env.committed(ExpirySweep, 2 * j + 1) && env.storage(ExpirySweep, 2 * j).ok ==>
                In(d.st, m, Deleted) && (m in d.st.objects <==> LatelyPut(d.history, m))
      ensures d.Done(id) == old(d.Done(id)) + xs && FinishedRight(env, j, At(old(d.st), id).batch[0], xs)
    {
      var ok;
      ghost var x, y;
      d.Others(id, env.others(ExpirySweep, 2 * j));
      ok, x := RemoveObject(env, 2 * j);
      if !ok { return false, [x]; }
      d.Others(id, env.others(ExpirySweep, 2 * j + 1));
      handled, y := CompleteDeletion(env, 2 * j + 1);
      xs := [x, y];
    }

    // The second transaction of reconciliation: deleted or failed by the state listed.
    method ReconcileMissing(env: Surroundings, k: nat) returns (handled: bool, ghost x: Deed)
      requires d.Valid() && Working(d.st, id, MissingSweep, Missing)
      modifies d
      ensures d.Valid() && old(d.history) <= d.history
      ensures At(d.st, id) == Hand(MissingSweep, At(old(d.st), id).batch[1..], Untouched)
      ensures d.Count(id) == old(d.Count(id)) + (if handled then 1 else 0)
      ensures var h := At(old(d.st), id).batch[0]; env.committed(MissingSweep, k) ==> !In(d.st, h.media, h.record.state)
      ensures d.Done(id) == old(d.Done(id)) + [x] && x.snap == At(old(d.st), id).batch[0]
      ensures var h := At(old(d.st), id).batch[0];
              env.committed(MissingSweep, k) ==>
                x.act == Reconciles && Moves(x, h.record.state, if h.record.state.DeletionPending? || h.record.state.Expired? then Deleted else Failed)
    {
      if !env.committed(MissingSweep, k) {
        x := DeedOf(d.st, Skip(id));
        d.Take(Skip(id));
        return false, x;
      }
      var h := At(d.st, id).batch[0];
      assert HandOk(d.st, d.Late(), id) && SnapOk(d.st, MissingSweep, h);
      handled := In(d.st, h.media, h.record.state);
      x := DeedOf(d.st, Reconcile(id));
      d.Take(Reconcile(id));
    }

    /** Missing-object reconciliation of the head of the batch: without faults, a record whose object is
        missing leaves the state it was listed in. */
    method CheckObjectPresence(env: Surroundings, k: nat) returns (handled: bool, ghost xs: seq<Deed>)
      requires d.Valid() && Working(d.st, id, MissingSweep, Untouched)
      modifies d
      ensures d.Valid() && old(d.history) <= d.history
      ensures At(d.st, id) == Hand(MissingSweep, At(old(d.st), id).batch[1..], Untouched)
      ensures d.Count(id) == old(d.Count(id)) + (if handled then 1 else 0)
      ensures var h := At(old(d.st), id).batch[0];
              h.media !in old(d.st).objects && env.storage(MissingSweep, k).ok && env.committed(MissingSweep, k) ==>
                !In(d.st, h.media, h.record.state)
      ensures d.Done(id) == old(d.Done(id)) + xs && ReconciledRight(env, k, At(old(d.st), id).batch[0], xs)
    {
      var h := At(d.st, id).batch[0];
      if !env.storage(MissingSweep, k).ok {
        xs := [DeedOf(d.st, Skip(id))];
        d.Take(Skip(id));
        return false, xs;
      }
      var present := h.media in d.st.objects;
      ghost var x := DeedOf(d.st, Check(id));
      ghost var y;
      d.Take(Check(id));
      if present { return false, [x]; }
      d.Others(id, env.others(MissingSweep, k));
      handled, y := ReconcileMissing(env, k);
      xs := [x, y];
    }

    // A stale upload: the object first, whatever storage answers, then the guarded transition.
    method FailStaleUpload(env: Surroundings, k: nat) returns (handled: bool, ghost xs: seq<Deed>)
      requires d.Valid() && Working(d.st, id, StaleSweep, Untouched)
      modifies d
      ensures d.Valid() && old(d.history) <= d.history
      ensures At(d.st, id) == Hand(StaleSweep, At(old(d.st), id).batch[1..], Untouched)
      ensures d.Count(id) == old(d.Count(id)) + (if handled then 1 else 0)
      ensures env.committed(StaleSweep, k) ==> !In(d.st, At(old(d.st), id).batch[0].media, Uploading)
      ensures d.Done(id) == old(d.Done(id)) + xs && ClearedRight(env, k, At(old(d.st), id).batch[0], xs)
    {
      ghost var x := DeedOf(d.st, RemoveStale(id, env.storage(StaleSweep, k).applied));
      ghost var y;
      d.Take(RemoveStale(id, env.storage(StaleSweep, k).applied));
      d.Others(id, env.others(StaleSweep, k));
      handled, y := FailCleared(env, k);
      xs := [x, y];
    }

    // Its guarded transition.
    method FailCleared(env: Surroundings, k: nat) returns (handled: bool, ghost x: Deed)
      requires d.Valid() && Working(d.st, id, StaleSweep, Removed)
      modifies d
      ensures d.Valid() && old(d.history) <= d.history
      ensures At(d.st, id) == Hand(StaleSweep, At(old(d.st), id).batch[1..], Untouched)
      ensures d.Count(id) == old(d.Count(id)) + (if handled then 1 else 0)
      ensures env.committed(StaleSweep, k) ==> !In(d.st, At(old(d.st), id).batch[0].media, Uploading)
      ensures d.Done(id) == old(d.Done(id)) + [x] && x.snap == At(old(d.st), id).batch[0]
      ensures env.committed(StaleSweep, k) ==> x.act == Fails && Moves(x, Uploading, Failed)
    {
      if !env.committed(StaleSweep, k) {
        x := DeedOf(d.st, Skip(id));
        d.Take(Skip(id));
        return false, x;
      }
      var h := At(d.st, id).batch[0];
      assert HandOk(d.st, d.Late(), id) && SnapOk(d.st, StaleSweep, h);
      handled := In(d.st, h.media, Uploading);
      x := DeedOf(d.st, FailStale(id));
      d.Take(FailStale(id));
    }

    // SELECT ... LIMIT batch_size.
    method Select(limit: nat, sweep: Sweep, candidates: seq<MediaId>, now: int) returns (ids: seq<MediaId>)
      ensures |ids| <= limit && forall i, j :: 0 <= i < j < |ids| ==> ids[i] != ids[j]
      ensures forall i :: 0 <= i < |ids| ==> ids[i] in candidates && ids[i] in d.st.records && Listed(sweep, d.st.records[ids[i]], now)
      ensures |ids| == limit || forall c :: c in candidates && c in d.st.records && Listed(sweep, d.st.records[c], now) ==> c in ids
      ensures sweep.ExpirySweep? ==> forall i :: 0 <= i < |ids| ==> Overdue(d.st.records[ids[i]], now)
      ensures sweep.ExpirySweep? ==> |ids| == limit || forall c :: c in candidates && c in d.st.records && Overdue(d.st.records[c], now) ==> c in ids
    {
      ids := [];
      for k := 0 to |candidates|
        invariant |ids| <= limit && forall i, j :: 0 <= i < j < |ids| ==> ids[i] != ids[j]
        invariant forall i :: 0 <= i < |ids| ==> ids[i] in candidates && ids[i] in d.st.records && Listed(sweep, d.st.records[ids[i]], now)
        invariant |ids| == limit || forall c :: c in candidates[..k] && c in d.st.records && Listed(sweep, d.st.records[c], now) ==> c in ids
      {
        var c := candidates[k];
        if |ids| < limit && c in d.st.records && Listed(sweep, d.st.records[c], now) && c !in ids {
          ids := ids + [c];
        }
      }
      assert candidates[..|candidates|] == candidates;
    }

    // The k-th record of a sweep.
    method SweepHead(sweep: Sweep, env: Surroundings, k: nat) returns (handled: bool, ghost xs: seq<Deed>)
      requires d.Valid() && Working(d.st, id, sweep, Untouched)
      modifies d
      ensures d.Valid() && old(d.history) <= d.history
      ensures At(d.st, id) == Hand(sweep, At(old(d.st), id).batch[1..], Untouched)
      ensures d.Count(id) == old(d.Count(id)) + (if handled then 1 else 0)
      ensures d.Done(id) == old(d.Done(id)) + xs && DoneRight(sweep, env, k, At(old(d.st), id).batch[0], xs)
    {
      match sweep {
        case ExpirySweep => handled, xs := DeleteExpired(env, k);
        case StaleSweep => handled, xs := FailStaleUpload(env, k);
        case MissingSweep => handled, xs := CheckObjectPresence(env, k);
      }
    }

    // The listing of a sweep.
    method ListBatch(sweep: Sweep, env: Surroundings) returns (ghost listed: seq<Snap>)
      requires d.Valid() && At(d.st, id).batch == []
      modifies d
      ensures d.Valid() && old(d.history) <= d.history && At(d.st, id) == Hand(sweep, listed, Untouched)
      ensures d.Count(id) == old(d.Count(id)) && d.Done(id) == old(d.Done(id))
      ensures |listed| <= env.batchSize
      ensures forall i :: 0 <= i < |listed| ==> listed[i].media in old(d.st).records && listed[i].record == old(d.st).records[listed[i].media]
                                                && Listed(sweep, listed[i].record, env.now)
      ensures |listed| == env.batchSize || forall c :: c in env.candidates(sweep) && c in old(d.st).records && Listed(sweep, old(d.st).records[c], env.now) ==>
                exists i :: 0 <= i < |listed| && listed[i].media == c
    {
      var ids := Select(env.batchSize, sweep, env.candidates(sweep), env.now);
      d.Take(List(id, sweep, ids, env.now));
      listed := At(d.st, id).batch;
      assert forall i :: 0 <= i < |ids| ==> listed[i].media == ids[i];
    }

    /** One sweep over a listed batch, until it is done or a stop is requested: every record it gets to is
        done right by. */
    method SweepBatch(sweep: Sweep, env: Surroundings) returns (handled: nat, ghost log: Log)
      requires d.Valid() && At(d.st, id).batch == []
      modifies d
      ensures d.Valid() && old(d.history) <= d.history && At(d.st, id).batch == []
      ensures d.Count(id) == old(d.Count(id)) + handled
      ensures d.Done(id) == old(d.Done(id)) + Flat(log.turns) && log.sweep == sweep && LogRight(env, log)
      ensures |log.listed| == env.batchSize || forall c :: c in env.candidates(sweep) && c in old(d.st).records && Listed(sweep, old(d.st).records[c], env.now) ==>
                exists i :: 0 <= i < |log.listed| && log.listed[i].media == c
      ensures (forall k :: !env.stopped(sweep, k)) ==> |log.turns| == |log.listed|
    {
      ghost var listed := ListBatch(sweep, env);
      ghost var turns;
      handled, turns := SweepAll(sweep, env);
      log := Log(sweep, listed, turns);
    }

    method SweepAll(sweep: Sweep, env: Surroundings) returns (handled: nat, ghost turns: seq<seq<Deed>>)
      requires d.Valid() && At(d.st, id).sweep == sweep && At(d.st, id).stage.Untouched?
      modifies d
      ensures d.Valid() && old(d.history) <= d.history && At(d.st, id).batch == []
      ensures d.Count(id) == old(d.Count(id)) + handled
      ensures d.Done(id) == old(d.Done(id)) + Flat(turns) && AllDoneRight(sweep, env, At(old(d.st), id).batch, turns)
      ensures (forall k :: !env.stopped(sweep, k)) ==> |turns| == |At(old(d.st), id).batch|
    {
      handled, turns := 0, [];
      ghost var listed := At(d.st, id).batch;
      var k := 0;
      while At(d.st, id).batch != []
        invariant d.Valid() && old(d.history) <= d.history
        invariant At(d.st, id).sweep == sweep && At(d.st, id).stage.Untouched?
        invariant d.Count(id) == old(d.Count(id)) + handled
        invariant d.Done(id) == old(d.Done(id)) + Flat(turns) && AllDoneRight(sweep, env, listed, turns)
        invariant k == |turns| && At(d.st, id).batch == listed[k..]
        decreases |At(d.st, id).batch|
      {
        if env.stopped(sweep, k) {
          d.Take(Crash(id));
          return;
        }
        var ok;
        ok, turns := SweepNext(sweep, env, k, listed, old(d.Done(id)), turns);
        if ok { handled := handled + 1; }
        k := k + 1;
      }
    }

    method SweepNext(sweep: Sweep, env: Surroundings, k: nat, ghost listed: seq<Snap>, ghost base: seq<Deed>, ghost turns: seq<seq<Deed>>)
      returns (handled: bool, ghost more: seq<seq<Deed>>)
      requires d.Valid() && Working(d.st, id, sweep, Untouched)
      requires k == |turns| < |listed| && At(d.st, id).batch[0] == listed[k]
      requires d.Done(id) == base + Flat(turns) && AllDoneRight(sweep, env, listed, turns)
      modifies d
      ensures d.Valid() && old(d.history) <= d.history
      ensures At(d.st, id) == Hand(sweep, At(old(d.st), id).batch[1..], Untouched)
      ensures d.Count(id) == old(d.Count(id)) + (if handled then 1 else 0)
      ensures d.Done(id) == base + Flat(more) && AllDoneRight(sweep, env, listed, more) && |more| == k + 1
    {
      ghost var xs;
      handled, xs := SweepHead(sweep, env, k);
      more := turns + [xs];
      FlatSnoc(base, turns, xs);
      d.Others(id, env.others(sweep, 2 * k));
    }

    method SweepInto(sweep: Sweep, env: Surroundings, ghost base: seq<Deed>, ghost logs: seq<Log>) returns (handled: nat, ghost more: seq<Log>)
      requires d.Valid() && At(d.st, id).batch == []
      requires CycleRight(env, logs) && |logs| < 3 && sweep == [ExpirySweep, StaleSweep, MissingSweep][|logs|]
      requires d.Done(id) == base + DeedsOf(logs)
      modifies d
      ensures d.Valid() && old(d.history) <= d.history && At(d.st, id).batch == []
      ensures d.Count(id) == old(d.Count(id)) + handled
      ensures d.Done(id) == base + DeedsOf(more) && CycleRight(env, more) && |more| == |logs| + 1
      ensures Exhaustive(logs) && (forall s, k :: !env.stopped(s, k)) ==> Exhaustive(more)
    {
      ghost var log;
      handled, log := SweepBatch(sweep, env);
      DeedsOfSnoc(base, logs, log);
      more := logs + [log];
    }

    /** One cycle of the three record sweeps, in order, with a stop honoured between them. It returns the
        number of records it handled, and every listed record it gets to is done right by. */
    method RunOnce(env: Surroundings) returns (handled: nat, ghost logs: seq<Log>)
      requires d.Valid() && At(d.st, id).batch == []
      modifies d
      ensures d.Valid() && old(d.history) <= d.history && At(d.st, id).batch == []
      ensures handled == d.Count(id) - old(d.Count(id))
      ensures d.Done(id) == old(d.Done(id)) + DeedsOf(logs) && CycleRight(env, logs)
      ensures (forall s, k :: !env.stopped(s, k)) ==> |logs| == 3 && Exhaustive(logs)
    {
      logs := [];
      ghost var base := d.Done(id);
      assert base + DeedsOf([]) == base;
      var n;
      handled, logs := SweepInto(ExpirySweep, env, base, logs);
      if env.stopped(ExpirySweep, env.batchSize) { return; }
      n, logs := SweepInto(StaleSweep, env, base, logs);
      handled := handled + n;
      if env.stopped(StaleSweep, env.batchSize) { return; }
      n, logs := SweepInto(MissingSweep, env, base, logs);
      handled := handled + n;
    }
  }
}
