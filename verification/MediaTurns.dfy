/**
What a sweep owes each listed record. The deeds of a worker are its steps on the head of its batch,
each with the record before and after it and whether the object is in storage then; a turn is the
deeds that one listed record got.
*/
module MediaTurns {
  import opened Common
  import opened MediaCleanup

  // One storage call: did it take effect, and was it reported as a success?
  datatype Reply = Reply(applied: bool, ok: bool)

  datatype Surroundings = Surroundings(
    now: int,
    batchSize: nat,                     // media_cleanup_batch_size
    candidates: Sweep -> seq<MediaId>,
    storage: (Sweep, nat) -> Reply,
    committed: (Sweep, nat) -> bool,
    others: (Sweep, nat) -> seq<Step>,
    stopped: (Sweep, nat) -> bool
  )

  datatype Act = Begins | Removes | Finishes | Checks | Reconciles | Clears | Fails | Skips

  datatype Deed = Deed(act: Act, snap: Snap, before: Option<Record>, after: Option<Record>, there: bool)

  function ActOf(t: Step): Option<Act> {
    match t
    case Begin(_) => Some(Begins)
    case Remove(_, _, _) => Some(Removes)
    case Finish(_) => Some(Finishes)
    case Check(_) => Some(Checks)
    case Reconcile(_) => Some(Reconciles)
    case RemoveStale(_, _) => Some(Clears)
    case FailStale(_) => Some(Fails)
    case Skip(_) => Some(Skips)
    case _ => None
  }

  function Find(s: State, m: MediaId): Option<Record> { if m in s.records then Some(s.records[m]) else None }

  function DeedOf(s: State, t: Step): Deed
    requires Enabled(s, t) && ActOf(t).Some?
  {
    var h := At(s, t.w).batch[0];
    Deed(ActOf(t).value, h, Find(s, h.media), Find(Apply(s, t), h.media), h.media in Apply(s, t).objects)
  }

  function Doing(s: State, t: Step, w: WorkerId): seq<Deed>
    requires Enabled(s, t)
  {
    if ActOf(t).Some? && t.w == w then [DeedOf(s, t)] else []
  }

  // The deeds of worker w during a run, in order.
  function Deeds(s: State, steps: seq<Step>, w: WorkerId): seq<Deed>
    decreases |steps|
  {
    if steps == [] || !Enabled(s, steps[0]) then []
    else Doing(s, steps[0], w) + Deeds(Apply(s, steps[0]), steps[1..], w)
  }

  lemma {:induction false} DeedsSnoc(s: State, steps: seq<Step>, t: Step, w: WorkerId)
    requires Run(s, steps).Some? && Enabled(Run(s, steps).value, t)
    ensures Deeds(s, steps + [t], w) == Deeds(s, steps, w) + Doing(Run(s, steps).value, t, w)
    decreases |steps|
  {
    if steps == [] {
      assert steps + [t] == [t] && [t][1..] == [];
    } else {
      DeedsSnoc(Apply(s, steps[0]), steps[1..], t, w);
      assert (steps + [t])[0] == steps[0] && (steps + [t])[1..] == steps[1..] + [t];
    }
  }

  // ---- what a turn has to come to ----

  // The record as it was but in another state, if it was in the one expected.
  predicate Moves(x: Deed, from: Lifecycle, to: Lifecycle) {
    x.before.Some? && x.after == Some(if x.before.value.state == from then x.before.value.(state := to) else x.before.value)
  }

  predicate LeftAsItWas(xs: seq<Deed>, h: Snap) { |xs| == 1 && xs[0].snap == h && xs[0].after == xs[0].before }

  // Phase 1 of an expired record: pending, unless it is held, no longer as listed, or not committed.
  predicate BegunRight(x: Deed, h: Snap, committed: bool, go: bool) {
    && x.snap == h && x.before.Some?
    && (go <==> !h.record.held && (h.record.state.DeletionPending? || (x.before.value.state.Available? && committed)))
    && (if go && h.record.state.Available? then Moves(x, Available, DeletionPending) else x.after == x.before)
  }

  // Phases 2 and 3: object gone, deleted, as far as storage and the transaction go along.
  predicate FinishedRight(env: Surroundings, k: nat, h: Snap, xs: seq<Deed>) {
    && |xs| == (if env.storage(ExpirySweep, 2 * k).ok then 2 else 1)
    && xs[0].snap == h && xs[0].act == Removes && (env.storage(ExpirySweep, 2 * k).ok ==> !xs[0].there)
    && (|xs| == 2 && env.committed(ExpirySweep, 2 * k + 1) ==>
          xs[1].snap == h && xs[1].act == Finishes && xs[1].after.Some? && xs[1].after.value.state.Deleted?)
  }

  predicate ExpiredRight(env: Surroundings, k: nat, h: Snap, xs: seq<Deed>) {
    && |xs| >= 1 && BegunRight(xs[0], h, env.committed(ExpirySweep, 2 * k), |xs| > 1)
    && (|xs| > 1 ==> FinishedRight(env, k, h, xs[1..]))
  }

  lemma ExpiredInTwo(env: Surroundings, k: nat, h: Snap, x: Deed, rest: seq<Deed>)
    requires BegunRight(x, h, env.committed(ExpirySweep, 2 * k), rest != [])
    requires rest != [] ==> FinishedRight(env, k, h, rest)
    ensures ExpiredRight(env, k, h, [x] + rest)
  {
    assert ([x] + rest)[1..] == rest;
  }

  // The object first, then failed if it is still uploading.
  predicate ClearedRight(env: Surroundings, k: nat, h: Snap, xs: seq<Deed>) {
    && |xs| == 2 && xs[0].snap == h && xs[1].snap == h
    && xs[0].act == Clears && (env.storage(StaleSweep, k).applied ==> !xs[0].there)
    && (env.committed(StaleSweep, k) ==> xs[1].act == Fails && Moves(xs[1], Uploading, Failed))
  }

  // Left alone if the object is there; else its deletion completed, or failed.
  predicate ReconciledRight(env: Surroundings, k: nat, h: Snap, xs: seq<Deed>) {
    if !env.storage(MissingSweep, k).ok then LeftAsItWas(xs, h)
    else
      && |xs| >= 1 && xs[0].snap == h && xs[0].act == Checks && |xs| == (if xs[0].there then 1 else 2)
      && (|xs| == 2 && env.committed(MissingSweep, k) ==>
            && xs[1].snap == h && xs[1].act == Reconciles
            && Moves(xs[1], h.record.state, if h.record.state.DeletionPending? || h.record.state.Expired? then Deleted else Failed))
  }

  predicate DoneRight(sweep: Sweep, env: Surroundings, k: nat, h: Snap, xs: seq<Deed>) {
    match sweep
    case ExpirySweep => ExpiredRight(env, k, h, xs)
    case StaleSweep => ClearedRight(env, k, h, xs)
    case MissingSweep => ReconciledRight(env, k, h, xs)
  }

  // The listed records of one sweep in order, as far as it got.
  predicate AllDoneRight(sweep: Sweep, env: Surroundings, listed: seq<Snap>, turns: seq<seq<Deed>>) {
    |turns| <= |listed| && forall k :: 0 <= k < |turns| ==> DoneRight(sweep, env, k, listed[k], turns[k])
  }

  function Flat(turns: seq<seq<Deed>>): seq<Deed> {
    if turns == [] then [] else Flat(turns[..|turns| - 1]) + turns[|turns| - 1]
  }

  lemma FlatSnoc(base: seq<Deed>, turns: seq<seq<Deed>>, xs: seq<Deed>)
    ensures base + Flat(turns + [xs]) == (base + Flat(turns)) + xs
  {
    assert (turns + [xs])[..|turns|] == turns;
  }

  // What one sweep listed and did.
  datatype Log = Log(sweep: Sweep, listed: seq<Snap>, turns: seq<seq<Deed>>)

  predicate LogRight(env: Surroundings, log: Log) { AllDoneRight(log.sweep, env, log.listed, log.turns) }

  // The three sweeps of a cycle, in order, as far as it got.
  predicate CycleRight(env: Surroundings, logs: seq<Log>) {
    && |logs| <= 3
    && (|logs| > 0 ==> logs[0].sweep == ExpirySweep && LogRight(env, logs[0]))
    && (|logs| > 1 ==> logs[1].sweep == StaleSweep && LogRight(env, logs[1]))
    && (|logs| > 2 ==> logs[2].sweep == MissingSweep && LogRight(env, logs[2]))
  }

  // Every sweep of it got to every record it listed.
  predicate Exhaustive(logs: seq<Log>) { forall i :: 0 <= i < |logs| ==> |logs[i].turns| == |logs[i].listed| }

  function DeedsOf(logs: seq<Log>): seq<Deed> {
    if logs == [] then [] else DeedsOf(logs[..|logs| - 1]) + Flat(logs[|logs| - 1].turns)
  }

  lemma DeedsOfSnoc(base: seq<Deed>, logs: seq<Log>, log: Log)
    ensures base + DeedsOf(logs + [log]) == (base + DeedsOf(logs)) + Flat(log.turns)
  {
    assert (logs + [log])[..|logs|] == logs;
  }
}
