/** What two-phase media deletion guarantees over all interleavings, and what the sweeps finish. */
module MediaSafety {
  import opened Common
  import opened MediaCleanup

  predicate Reachable(steps: seq<Step>) { Run(INITIAL, steps).Some? }

  function After(steps: seq<Step>): State
    requires Reachable(steps)
  {
    Run(INITIAL, steps).value
  }

  function Late(steps: seq<Step>): set<MediaId> { LateRun(INITIAL, {}, steps) }

  lemma Invariant(steps: seq<Step>)
    requires Reachable(steps)
    ensures Inv(After(steps), Late(steps))
  {
    RunKeepsInv(INITIAL, {}, steps);
  }

  /** The expiry path takes an object away only when its record is durably deletion_pending, or is
      deleted and a late upload had put an object there again, although the worker goes by a
      snapshot listed earlier. */
  lemma ExpiryRemovesOnlyPending(steps: seq<Step>, t: Step)
    requires Reachable(steps) && Enabled(After(steps), t) && t.Remove?
    ensures var s := After(steps);
            var m := MediaCleanup.At(s, t.w).batch[0].media;
            && m in s.records && Dying(s.records[m])
            && (m in s.objects && s.records[m].state.Deleted? ==> LatelyPut(steps, m))
            && (forall x :: x in s.objects && x !in Apply(s, t).objects ==> x == m)
  {
    Invariant(steps);
    var s := After(steps);
    assert HandOk(s, Late(steps), t.w);
    var m := MediaCleanup.At(s, t.w).batch[0].media;
    assert RecordOk(s, Late(steps), m);
    LateExactly(steps, m);
  }

  lemma SweepTakesObject(s: State, late: set<MediaId>, t: Step, m: MediaId)
    requires Inv(s, late) && Enabled(s, t) && Sweeps(t) && In(s, m, Available) && m in s.objects
    ensures In(Apply(s, t), m, Available) && m !in Apply(s, t).objects <==>
              t.RemoveStale? && t.applied && MediaCleanup.At(s, t.w).batch[0].media == m
  {
    assert HandOk(s, late, t.w);
  }

  lemma OtherTakesObject(s: State, t: Step, m: MediaId)
    requires Enabled(s, t) && !Sweeps(t) && In(s, m, Available) && m in s.objects
    ensures In(Apply(s, t), m, Available) && m !in Apply(s, t).objects <==> t == UserDeleteRolledBack(m, true)
  {
  }

  /** Exactly two kinds of step leave an available record without its object: a user deletion that is
      rolled back after its storage call, and the removal of a sweep that listed the record as a
      stale upload. */
  lemma AvailableLosesObject(steps: seq<Step>, t: Step, m: MediaId)
    requires Reachable(steps) && Enabled(After(steps), t) && In(After(steps), m, Available) && m in After(steps).objects
    ensures var s := After(steps);
            In(Apply(s, t), m, Available) && m !in Apply(s, t).objects <==>
              t == UserDeleteRolledBack(m, true) || (t.RemoveStale? && t.applied && MediaCleanup.At(s, t.w).batch[0].media == m)
  {
    Invariant(steps);
    if Sweeps(t) { SweepTakesObject(After(steps), Late(steps), t, m); } else { OtherTakesObject(After(steps), t, m); }
  }

  /** Over every run each record has exactly one transition to deleted if it is deleted and none
      otherwise, and the object of a deleted record is absent unless a late upload put one there
      that nobody has removed since. */
  lemma DeletedOnceAndGone(steps: seq<Step>, m: MediaId)
    requires Run(INITIAL, steps).Some? && m in Run(INITIAL, steps).value.records
    ensures var s := Run(INITIAL, steps).value;
            && s.deletions[m] == (if s.records[m].state.Deleted? then 1 else 0)
            && (s.records[m].state.Deleted? ==> (m in s.objects <==> LatelyPut(steps, m)))
  {
    Invariant(steps);
    assert RecordOk(After(steps), Late(steps), m);
    LateExactly(steps, m);
  }

  /** The exception is real: a URL that outlived the deletion brings the object back. */
  lemma LateUploadRevives(m: MediaId) returns (steps: seq<Step>)
    ensures Reachable(steps) && In(After(steps), m, Deleted) && m in After(steps).objects
  {
    steps := Went([], Register(m, Record(Available, None, false), true));
    steps := Went(steps, UserDelete(m));
    steps := Went(steps, LatePut(m));
  }

  lemma {:induction false} DyingLater(s: State, late: set<MediaId>, steps: seq<Step>, m: MediaId)
    requires Inv(s, late) && Run(s, steps).Some? && m in s.records && Dying(s.records[m])
    ensures var s' := Run(s, steps).value;
            && m in s'.records && Dying(s'.records[m])
            && (s.records[m].state.Deleted? ==> s'.records[m] == s.records[m].(held := s'.records[m].held))
            && (Gone(s, late, m) ==> Gone(s', LateRun(s, late, steps), m))
    decreases |steps|
  {
    if steps != [] {
      RecordsStep(s, late, steps[0], m);
      assert Later(s.records[m], Apply(s, steps[0]).records[m]);
      StepKeepsInv(s, late, steps[0]);
      DyingLater(Apply(s, steps[0]), LateAfter(s, late, steps[0]), steps[1..], m);
    }
  }

  /** Deletion is final: once started it can only be completed, and once completed the record stays
      deleted. An object that was absent then is there later exactly if a late upload put it there. */
  lemma DeletionNeverReverts(steps: seq<Step>, more: seq<Step>, m: MediaId)
    requires Reachable(steps) && Run(After(steps), more).Some? && m in After(steps).records && Dying(After(steps).records[m])
    ensures Reachable(steps + more)
    ensures var s, s' := After(steps), After(steps + more);
            && m in s'.records && Dying(s'.records[m])
            && (s.records[m].state.Deleted? ==> s'.records[m].state.Deleted?)
            && (m !in s.objects ==> (m in s'.objects <==> LatelyPut(steps + more, m)))
  {
    RunAppend(INITIAL, steps, more);
    LateAppend(INITIAL, {}, steps, more);
    Invariant(steps);
    Invariant(steps + more);
    DyingLater(After(steps), Late(steps), more, m);
    LateExactly(steps + more, m);
  }

  // ---- what the sweeps finish ----

  predicate SweepsOnly(steps: seq<Step>) { forall k :: 0 <= k < |steps| ==> Sweeps(steps[k]) }

  // Started, and neither held nor still in storage under a hold.
  predicate Finishable(s: State, m: MediaId) { In(s, m, DeletionPending) && (!s.records[m].held || m !in s.objects) }

  function DeletedAt(s: State, m: MediaId): map<MediaId, Record>
    requires m in s.records
  {
    s.records[m := s.records[m].(state := Deleted)]
  }

  lemma Two(s: State, a: Step, b: Step)
    requires Enabled(s, a) && Enabled(Apply(s, a), b)
    ensures Run(s, [a, b]) == Some(Apply(Apply(s, a), b))
  {
    assert [a, b][1..] == [b] && [b][1..] == [];
    assert Run(Apply(s, a), [b]) == Some(Apply(Apply(s, a), b));
  }

  lemma FinishMissing(s: State, m: MediaId, w: WorkerId, now: int)
    requires (In(s, m, DeletionPending) || In(s, m, Expired)) && m !in s.objects && MediaCleanup.At(s, w).batch == []
    ensures var s1 := Apply(s, List(w, MissingSweep, [m], now));
            && Enabled(s, List(w, MissingSweep, [m], now)) && Run(s1, [Check(w), Reconcile(w)]).Some?
            && var s' := Run(s1, [Check(w), Reconcile(w)]).value;
            s'.records == DeletedAt(s, m) && s'.objects == s.objects && MediaCleanup.At(s', w).batch == []
  {
    assert [m][0] == m;
    var s1 := Apply(s, List(w, MissingSweep, [m], now));
    assert MediaCleanup.At(s1, w) == Hand(MissingSweep, [Snap(m, s.records[m])], Untouched);
    Two(s1, Check(w), Reconcile(w));
  }

  lemma BeginPending(s: State, m: MediaId, w: WorkerId, now: int)
    requires (In(s, m, DeletionPending) || In(s, m, Available)) && !s.records[m].held && Due(s.records[m], now) && MediaCleanup.At(s, w).batch == []
    ensures Enabled(s, List(w, ExpirySweep, [m], now)) && Enabled(Apply(s, List(w, ExpirySweep, [m], now)), Begin(w))
    ensures var s2 := Apply(Apply(s, List(w, ExpirySweep, [m], now)), Begin(w));
            && MediaCleanup.At(s2, w) == Hand(ExpirySweep, [Snap(m, s.records[m])], Removing)
            && s2.records == s.records[m := s.records[m].(state := DeletionPending)] && s2.objects == s.objects
  {
    assert [m][0] == m;
    var s1 := Apply(s, List(w, ExpirySweep, [m], now));
    assert MediaCleanup.At(s1, w) == Hand(ExpirySweep, [Snap(m, s.records[m])], Untouched);
  }

  lemma RemoveAndFinish(s: State, w: WorkerId, h: Snap)
    requires MediaCleanup.At(s, w) == Hand(ExpirySweep, [h], Removing) && In(s, h.media, DeletionPending)
    ensures Run(s, [Remove(w, true, true), Finish(w)]).Some?
    ensures var s' := Run(s, [Remove(w, true, true), Finish(w)]).value;
            s'.records == DeletedAt(s, h.media) && s'.objects == s.objects - {h.media} && MediaCleanup.At(s', w).batch == []
  {
    Two(s, Remove(w, true, true), Finish(w));
  }

  lemma FinishExpired(s: State, m: MediaId, w: WorkerId, now: int)
    requires (In(s, m, DeletionPending) || In(s, m, Available)) && !s.records[m].held && Due(s.records[m], now) && MediaCleanup.At(s, w).batch == []
    ensures Enabled(s, List(w, ExpirySweep, [m], now))
    ensures var s1 := Apply(s, List(w, ExpirySweep, [m], now));
            && Enabled(s1, Begin(w))
            && var s2 := Apply(s1, Begin(w));
            && Run(s2, [Remove(w, true, true), Finish(w)]).Some?
            && var s' := Run(s2, [Remove(w, true, true), Finish(w)]).value;
            s'.records == DeletedAt(s, m) && s'.objects == s.objects - {m} && MediaCleanup.At(s', w).batch == []
  {
    BeginPending(s, m, w, now);
    var s2 := Apply(Apply(s, List(w, ExpirySweep, [m], now)), Begin(w));
    RemoveAndFinish(s2, w, Snap(m, s.records[m]));
    assert DeletedAt(s2, m) == DeletedAt(s, m);
  }

  // One fault-free sweep by an idle worker completes one deletion and touches nothing else.
  lemma FinishByMissing(s: State, m: MediaId, w: WorkerId, now: int) returns (steps: seq<Step>)
    requires (In(s, m, DeletionPending) || In(s, m, Expired)) && m !in s.objects && MediaCleanup.At(s, w).batch == []
    ensures SweepsOnly(steps) && ListsBy(steps, now) && Run(s, steps).Some?
    ensures var s' := Run(s, steps).value;
            s'.records == DeletedAt(s, m) && s'.objects == s.objects - {m} && MediaCleanup.At(s', w).batch == []
  {
    FinishMissing(s, m, w, now);
    steps := [List(w, MissingSweep, [m], now)] + [Check(w), Reconcile(w)];
    assert steps[1..] == [Check(w), Reconcile(w)];
  }

  lemma FinishByExpiry(s: State, m: MediaId, w: WorkerId, now: int) returns (steps: seq<Step>)
    requires (In(s, m, DeletionPending) || In(s, m, Available)) && !s.records[m].held && Due(s.records[m], now) && MediaCleanup.At(s, w).batch == []
    ensures SweepsOnly(steps) && ListsBy(steps, now) && Run(s, steps).Some?
    ensures var s' := Run(s, steps).value;
            s'.records == DeletedAt(s, m) && s'.objects == s.objects - {m} && MediaCleanup.At(s', w).batch == []
  {
    FinishExpired(s, m, w, now);
    var rest := [Remove(w, true, true), Finish(w)];
    var tail := [Begin(w)] + rest;
    steps := [List(w, ExpirySweep, [m], now)] + tail;
    assert tail[1..] == rest && steps[1..] == tail;
    assert Run(Apply(s, steps[0]), tail) == Run(Apply(Apply(s, steps[0]), Begin(w)), rest);
  }

  lemma FinishOne(s: State, m: MediaId, w: WorkerId, now: int) returns (steps: seq<Step>)
    requires Finishable(s, m) && MediaCleanup.At(s, w).batch == [] && Due(s.records[m], now)
    ensures SweepsOnly(steps) && ListsBy(steps, now) && Run(s, steps).Some?
    ensures var s' := Run(s, steps).value;
            s'.records == DeletedAt(s, m) && s'.objects == s.objects - {m} && MediaCleanup.At(s', w).batch == []
  {
    if m !in s.objects {
      steps := FinishByMissing(s, m, w, now);
    } else {
      steps := FinishByExpiry(s, m, w, now);
    }
  }

  function Unfinished(s: State): set<MediaId> { set m | m in s.records && Finishable(s, m) }

  // What finishing everything makes of a state.
  predicate AllFinished(s: State, s': State) {
    && Unfinished(s') == {} && s'.records.Keys == s.records.Keys
    && (forall m :: m in s.records ==> s'.records[m] == if Finishable(s, m) then s.records[m].(state := Deleted) else s.records[m])
    && s'.objects == s.objects - Unfinished(s)
  }

  lemma OneFewer(s: State, m: MediaId, s1: State)
    requires Finishable(s, m) && s1.records == DeletedAt(s, m) && s1.objects == s.objects - {m}
    ensures forall x :: Finishable(s1, x) <==> Finishable(s, x) && x != m
    ensures Unfinished(s1) == Unfinished(s) - {m} && |Unfinished(s1)| < |Unfinished(s)|
  {
    assert m in Unfinished(s);
    assert Unfinished(s1) == Unfinished(s) - {m};
  }

  lemma OneThenAll(s: State, m: MediaId, s1: State, s': State)
    requires Finishable(s, m) && s1.records == DeletedAt(s, m) && s1.objects == s.objects - {m} && AllFinished(s1, s')
    ensures AllFinished(s, s')
  {
    OneFewer(s, m, s1);
    forall x | x in s.records ensures s'.records[x] == if Finishable(s, x) then s.records[x].(state := Deleted) else s.records[x] {
      assert x in s1.records;
    }
    assert s'.objects == s.objects - Unfinished(s);
  }

  /** Repeated fault-free sweeps finish every started deletion that is not held back, each sweep
      leaving one fewer; records that are not being deleted come out as they were. */
  lemma {:induction false} SweepsFinishAll(s: State, w: WorkerId, now: int) returns (steps: seq<Step>)
    requires MediaCleanup.At(s, w).batch == []
    requires forall m :: m in s.records && s.records[m].state.DeletionPending? ==> Due(s.records[m], now)
    ensures SweepsOnly(steps) && ListsBy(steps, now) && Run(s, steps).Some? && AllFinished(s, Run(s, steps).value)
    decreases |Unfinished(s)|
  {
    if Unfinished(s) == {} {
      steps := [];
      assert forall m :: Finishable(s, m) ==> m in Unfinished(s);
    } else {
      var m :| m in Unfinished(s);
      var first := FinishOne(s, m, w, now);
      var s1 := Run(s, first).value;
      OneFewer(s, m, s1);
      var rest := SweepsFinishAll(s1, w, now);
      RunAppend(s, first, rest);
      OneThenAll(s, m, s1, Run(s1, rest).value);
      steps := first + rest;
    }
  }

  // ---- exactly which records the sweeps can delete, and from when on ----

  // Every listing of the run reads a clock up to T.
  predicate ListsBy(steps: seq<Step>, T: int) { forall k :: 0 <= k < |steps| && steps[k].List? ==> steps[k].now <= T }

  // Not due at any clock up to T, or held.
  predicate Protected(r: Record, T: int) { r.held || r.expiresAt.None? || r.expiresAt.value > T }

  // Kept from deletion by its object: pending under a hold or too early, or expired.
  predicate Barred(s: State, m: MediaId, T: int) {
    && m in s.records && m in s.objects
    && ((s.records[m].state.DeletionPending? && Protected(s.records[m], T)) || s.records[m].state.Expired?)
  }

  // Kept from deletion by its record: not due, held, or not at that point of its life.
  predicate Spared(s: State, m: MediaId, T: int) {
    && m in s.records
    && var r := s.records[m];
    && !Dying(r) && !r.state.Expired? && (r.state.Available? ==> Protected(r, T))
  }

  // No worker is past the hold check of m, has found its object missing, or has it for a stale upload.
  predicate Harmless(s: State, w: WorkerId, m: MediaId) {
    var h := MediaCleanup.At(s, w);
    forall i :: 0 <= i < |h.batch| && h.batch[i].media == m ==>
      && (h.sweep.ExpirySweep? ==> h.batch[i].record.held)
      && (i == 0 ==> h.stage.Untouched?)
      && !h.sweep.StaleSweep?
  }

  // No worker takes m for due and free, or for something whose absence completes a deletion.
  predicate Sparing(s: State, w: WorkerId, m: MediaId) {
    var h := MediaCleanup.At(s, w);
    forall i :: 0 <= i < |h.batch| && h.batch[i].media == m ==>
      && (h.sweep.ExpirySweep? ==> h.batch[i].record.held && (i == 0 ==> h.stage.Untouched?))
      && (h.sweep.MissingSweep? ==> !h.batch[i].record.state.DeletionPending? && !h.batch[i].record.state.Expired?)
  }

  lemma BarredStep(s: State, late: set<MediaId>, t: Step, m: MediaId, T: int)
    requires Inv(s, late) && Enabled(s, t) && Sweeps(t) && Barred(s, m, T) && forall w: WorkerId :: Harmless(s, w, m)
    ensures Barred(Apply(s, t), m, T)
  {
    assert HandOk(s, late, t.w) && Harmless(s, t.w, m);
  }

  // What a sweep step makes of its worker's hand.
  lemma HandShape(s: State, t: Step, w: WorkerId)
    requires Enabled(s, t) && Sweeps(t) && t.w == w && !t.List? && !t.Crash?
    ensures var h, h' := MediaCleanup.At(s, w), MediaCleanup.At(Apply(s, t), w);
            && h.batch != [] && h'.sweep == h.sweep
            && (h'.batch == h.batch || (h'.batch == h.batch[1..] && h'.stage.Untouched?))
            && (t.Begin? && h.batch[0].record.held ==> h'.batch == h.batch[1..] && h'.stage.Untouched?)
  {
  }

  lemma ListShape(s: State, t: Step)
    requires Enabled(s, t) && t.List?
    ensures var h' := MediaCleanup.At(Apply(s, t), t.w);
            && h'.stage.Untouched? && h'.sweep == t.sweep && |h'.batch| == |t.ids|
            && forall i :: 0 <= i < |h'.batch| ==>
                 h'.batch[i].media in s.records && h'.batch[i].record == s.records[h'.batch[i].media] && Listed(t.sweep, h'.batch[i].record, t.now)
  {
    var h' := MediaCleanup.At(Apply(s, t), t.w);
    assert forall i :: 0 <= i < |h'.batch| ==> h'.batch[i] == Snap(t.ids[i], s.records[t.ids[i]]);
  }

  lemma HarmlessStep(s: State, t: Step, m: MediaId, w: WorkerId)
    requires Enabled(s, t) && Sweeps(t) && Harmless(s, w, m) && m in s.objects && m in s.records && !s.records[m].state.Uploading?
    requires t.List? && t.sweep.ExpirySweep? && m in t.ids ==> s.records[m].held
    ensures Harmless(Apply(s, t), w, m)
  {
    if t.w == w && !t.List? && !t.Crash? {
      HandShape(s, t, w);
      var h, h' := MediaCleanup.At(s, w), MediaCleanup.At(Apply(s, t), w);
      if h'.batch != h.batch { assert forall i :: 0 <= i < |h'.batch| ==> h'.batch[i] == h.batch[i + 1]; }
    } else if t.w == w && t.List? {
      ListShape(s, t);
      var h' := MediaCleanup.At(Apply(s, t), w);
      assert forall i :: 0 <= i < |h'.batch| ==> h'.batch[i].media == t.ids[i];
    } else if t.w != w {
      assert MediaCleanup.At(Apply(s, t), w) == MediaCleanup.At(s, w);
    }
  }

  lemma SparedStep(s: State, late: set<MediaId>, t: Step, m: MediaId, T: int)
    requires Inv(s, late) && Enabled(s, t) && Sweeps(t) && Spared(s, m, T) && forall w: WorkerId :: Sparing(s, w, m)
    ensures Spared(Apply(s, t), m, T)
  {
    assert HandOk(s, late, t.w) && Sparing(s, t.w, m);
  }

  lemma SparingStep(s: State, t: Step, m: MediaId, w: WorkerId, T: int)
    requires Enabled(s, t) && Sweeps(t) && Spared(s, m, T) && Sparing(s, w, m) && (t.List? ==> t.now <= T)
    ensures Sparing(Apply(s, t), w, m)
  {
    if t.w == w && !t.List? && !t.Crash? {
      HandShape(s, t, w);
      var h, h' := MediaCleanup.At(s, w), MediaCleanup.At(Apply(s, t), w);
      if h.batch[0].media == m && h.sweep.ExpirySweep? { assert h.batch[0].record.held && h.stage.Untouched?; }
      if h'.batch != h.batch { assert forall i :: 0 <= i < |h'.batch| ==> h'.batch[i] == h.batch[i + 1]; }
    } else if t.w == w && t.List? {
      ListShape(s, t);
    } else if t.w != w {
      assert MediaCleanup.At(Apply(s, t), w) == MediaCleanup.At(s, w);
    }
  }

  lemma SweepsTail(steps: seq<Step>, T: int)
    requires steps != [] && SweepsOnly(steps) && ListsBy(steps, T)
    ensures Sweeps(steps[0]) && SweepsOnly(steps[1..]) && ListsBy(steps[1..], T)
  {
    forall k | 0 <= k < |steps| - 1 ensures Sweeps(steps[1..][k]) && (steps[1..][k].List? ==> steps[1..][k].now <= T) {
      assert steps[1..][k] == steps[k + 1];
    }
  }

  lemma {:induction false} BarredForever(s: State, late: set<MediaId>, steps: seq<Step>, m: MediaId, T: int)
    requires Inv(s, late) && Run(s, steps).Some? && SweepsOnly(steps) && ListsBy(steps, T)
    requires Barred(s, m, T) && forall w: WorkerId :: Harmless(s, w, m)
    ensures Barred(Run(s, steps).value, m, T)
    decreases |steps|
  {
    if steps != [] {
      SweepsTail(steps, T);
      BarredStep(s, late, steps[0], m, T);
      ListedDue(s, steps[0]);
      forall w: WorkerId ensures Harmless(Apply(s, steps[0]), w, m) { HarmlessStep(s, steps[0], m, w); }
      StepKeepsInv(s, late, steps[0]);
      BarredForever(Apply(s, steps[0]), LateAfter(s, late, steps[0]), steps[1..], m, T);
    }
  }

  lemma {:induction false} SparedForever(s: State, late: set<MediaId>, steps: seq<Step>, m: MediaId, T: int)
    requires Inv(s, late) && Run(s, steps).Some? && SweepsOnly(steps) && ListsBy(steps, T)
    requires Spared(s, m, T) && forall w: WorkerId :: Sparing(s, w, m)
    ensures Spared(Run(s, steps).value, m, T)
    decreases |steps|
  {
    if steps != [] {
      SweepsTail(steps, T);
      SparedStep(s, late, steps[0], m, T);
      forall w: WorkerId ensures Sparing(Apply(s, steps[0]), w, m) { SparingStep(s, steps[0], m, w, T); }
      StepKeepsInv(s, late, steps[0]);
      SparedForever(Apply(s, steps[0]), LateAfter(s, late, steps[0]), steps[1..], m, T);
    }
  }

  /** An expiry sweep lists a record only once the clock it reads has reached the expiry date. */
  lemma ListedDue(s: State, t: Step)
    requires Enabled(s, t)
    ensures t.List? && t.sweep.ExpirySweep? ==>
              forall m :: m in t.ids ==> m in s.records && s.records[m].expiresAt.Some? && s.records[m].expiresAt.value <= t.now
                                         && (s.records[m].state.Available? || s.records[m].state.DeletionPending?)
  {
    if t.List? && t.sweep.ExpirySweep? {
      forall m | m in t.ids
        ensures m in s.records && s.records[m].expiresAt.Some? && s.records[m].expiresAt.value <= t.now
                && (s.records[m].state.Available? || s.records[m].state.DeletionPending?)
      {
        var i :| 0 <= i < |t.ids| && t.ids[i] == m;
        assert Listed(t.sweep, s.records[t.ids[i]], t.now);
      }
    }
  }

  ghost predicate CanReach(s: State, m: MediaId, state: Lifecycle, T: int) {
    exists steps :: SweepsOnly(steps) && ListsBy(steps, T) && Run(s, steps).Some? && In(Run(s, steps).value, m, state)
  }

  // Sweeps reading clocks up to T can delete m.
  ghost predicate CanFinish(s: State, m: MediaId, T: int) { CanReach(s, m, Deleted, T) }

  ghost predicate Quiet(s: State) { forall w: WorkerId :: MediaCleanup.At(s, w).batch == [] }

  // What the sweeps can take to deleted by T, read off the record and the storage.
  predicate Deletable(s: State, m: MediaId, T: int) {
    && m in s.records
    && var r := s.records[m];
    match r.state
    case Deleted => true
    case DeletionPending => m !in s.objects || (!r.held && r.expiresAt.Some? && r.expiresAt.value <= T)
    case Expired => m !in s.objects
    case Available => !r.held && r.expiresAt.Some? && r.expiresAt.value <= T
    case _ => false
  }

  /** Which records the workers can delete, and from when on: with no sweep in progress, sweeps whose
      listings read clocks up to T can take a record to deleted if and only if it is pending and
      without object or due by T and not held, expired without object, or available, due by T and
      not held. */
  lemma SweepsDeleteExactly(steps: seq<Step>, m: MediaId, T: int)
    requires Reachable(steps) && m in After(steps).records && Quiet(After(steps))
    ensures CanFinish(After(steps), m, T) <==> Deletable(After(steps), m, T)
  {
    Invariant(steps);
    var s := After(steps);
    assert RecordOk(s, Late(steps), m);
    if Deletable(s, m, T) {
      var sweeps := [];
      if !s.records[m].state.Deleted? {
        if s.records[m].state.Expired? || (s.records[m].state.DeletionPending? && m !in s.objects) {
          sweeps := FinishByMissing(s, m, 0, T);
        } else {
          sweeps := FinishByExpiry(s, m, 0, T);
        }
      }
      assert SweepsOnly(sweeps) && ListsBy(sweeps, T) && In(Run(s, sweeps).value, m, Deleted);
    } else {
      forall more | SweepsOnly(more) && ListsBy(more, T) && Run(s, more).Some? ensures !In(Run(s, more).value, m, Deleted) {
        if Barred(s, m, T) { BarredForever(s, Late(steps), more, m, T); } else { SparedForever(s, Late(steps), more, m, T); }
      }
    }
  }

  /** For a started deletion: sweeps can complete it by T if and only if its object is already gone, or the
      record is due and not held. A hold set after the deletion started keeps it pending for as long
      as it lasts. */
  lemma SweepsFinishExactly(steps: seq<Step>, m: MediaId, T: int)
    requires Reachable(steps) && In(After(steps), m, DeletionPending) && Quiet(After(steps))
    ensures var s := After(steps);
            CanFinish(s, m, T) <==> m !in s.objects || (!s.records[m].held && s.records[m].expiresAt.Some? && s.records[m].expiresAt.value <= T)
  {
    SweepsDeleteExactly(steps, m, T);
  }

  // ---- what keeps a record and its object ----

  predicate Offered(s: State, m: MediaId) { In(s, m, Available) && m in s.objects }

  predicate TakesAway(t: Step, m: MediaId) { t == UserDelete(m) || t == UserDeleteRolledBack(m, true) }

  lemma OfferedStep(s: State, late: set<MediaId>, t: Step, m: MediaId)
    requires Inv(s, late) && Enabled(s, t) && Offered(s, m) && !TakesAway(t, m) && forall w: WorkerId :: Harmless(s, w, m)
    ensures Offered(Apply(s, t), m)
    ensures Apply(s, t).records[m] == if t.Hold? && t.m == m then s.records[m].(held := t.held) else s.records[m]
  {
    if Sweeps(t) { assert HandOk(s, late, t.w) && Harmless(s, t.w, m); }
  }

  lemma HandsStayHarmless(s: State, t: Step, m: MediaId)
    requires Enabled(s, t) && Offered(s, m) && forall w: WorkerId :: Harmless(s, w, m)
    requires t.List? && t.sweep.ExpirySweep? && m in t.ids ==> s.records[m].held
    ensures forall w: WorkerId :: Harmless(Apply(s, t), w, m)
  {
    forall w: WorkerId ensures Harmless(Apply(s, t), w, m) {
      assert Harmless(s, w, m);
      if Sweeps(t) { HarmlessStep(s, t, m, w); } else { assert MediaCleanup.At(Apply(s, t), w) == MediaCleanup.At(s, w); }
    }
  }

  lemma {:induction false} HeldStays(s: State, late: set<MediaId>, steps: seq<Step>, m: MediaId)
    requires Inv(s, late) && Run(s, steps).Some? && Offered(s, m) && s.records[m].held && forall w: WorkerId :: Harmless(s, w, m)
    requires forall k :: 0 <= k < |steps| ==> steps[k] != Hold(m, false)
    ensures Offered(Run(s, steps).value, m) && Run(s, steps).value.records[m] == s.records[m]
    decreases |steps|
  {
    if steps != [] {
      OfferedStep(s, late, steps[0], m);
      HandsStayHarmless(s, steps[0], m);
      StepKeepsInv(s, late, steps[0]);
      forall k | 0 <= k < |steps| - 1 ensures steps[1..][k] != Hold(m, false) { assert steps[1..][k] == steps[k + 1]; }
      HeldStays(Apply(s, steps[0]), LateAfter(s, late, steps[0]), steps[1..], m);
    }
  }

  /** A hold protects: an available record that is held while no sweep is in progress keeps its state and
      its object through anything workers, users and uploads do, until the hold is lifted. */
  lemma HoldProtects(steps: seq<Step>, more: seq<Step>, m: MediaId)
    requires Reachable(steps) && Quiet(After(steps)) && Offered(After(steps), m) && After(steps).records[m].held
    requires Run(After(steps), more).Some? && forall k :: 0 <= k < |more| ==> more[k] != Hold(m, false)
    ensures Offered(Run(After(steps), more).value, m) && Run(After(steps), more).value.records[m] == After(steps).records[m]
  {
    Invariant(steps);
    HeldStays(After(steps), Late(steps), more, m);
  }

  lemma {:induction false} NotDueStays(s: State, late: set<MediaId>, steps: seq<Step>, m: MediaId, T: int)
    requires Inv(s, late) && Run(s, steps).Some? && Offered(s, m) && forall w: WorkerId :: Harmless(s, w, m)
    requires (s.records[m].expiresAt.Some? ==> s.records[m].expiresAt.value > T) && ListsBy(steps, T)
    requires forall k :: 0 <= k < |steps| ==> !TakesAway(steps[k], m)
    ensures Offered(Run(s, steps).value, m) && Run(s, steps).value.records[m].expiresAt == s.records[m].expiresAt
    decreases |steps|
  {
    if steps != [] {
      OfferedStep(s, late, steps[0], m);
      ListedDue(s, steps[0]);
      HandsStayHarmless(s, steps[0], m);
      StepKeepsInv(s, late, steps[0]);
      forall k | 0 <= k < |steps| - 1
        ensures !TakesAway(steps[1..][k], m) && (steps[1..][k].List? ==> steps[1..][k].now <= T)
      {
        assert steps[1..][k] == steps[k + 1];
      }
      NotDueStays(Apply(s, steps[0]), LateAfter(s, late, steps[0]), steps[1..], m, T);
    }
  }

  /** Nothing expires early: an available record with its object, while no sweep is in progress, stays so
      through anything that happens, except a user deletion, for as long as the sweeps read clocks
      before its expiry date; for ever if it has none. */
  lemma NothingExpiresEarly(steps: seq<Step>, more: seq<Step>, m: MediaId, T: int)
    requires Reachable(steps) && Quiet(After(steps)) && Offered(After(steps), m) && Run(After(steps), more).Some?
    requires After(steps).records[m].expiresAt.Some? ==> After(steps).records[m].expiresAt.value > T
    requires ListsBy(more, T) && forall k :: 0 <= k < |more| ==> !TakesAway(more[k], m)
    ensures Offered(Run(After(steps), more).value, m)
  {
    Invariant(steps);
    NotDueStays(After(steps), Late(steps), more, m, T);
  }

  /** The expiry date set when the upload is completed is the one the sweeps go by. */
  lemma CompletionDates(s: State, m: MediaId, e: Option<int>)
    requires In(s, m, Uploading) && m in s.objects
    ensures Run(s, [Complete(m, e), Verify(m)]).Some?
    ensures var s' := Run(s, [Complete(m, e), Verify(m)]).value;
            Offered(s', m) && s'.records[m] == s.records[m].(state := Available, expiresAt := e)
  {
    Two(s, Complete(m, e), Verify(m));
  }

  lemma Went(steps: seq<Step>, t: Step) returns (more: seq<Step>)
    requires Reachable(steps) && Enabled(After(steps), t)
    ensures more == steps + [t] && Reachable(more) && After(more) == Apply(After(steps), t)
  {
    RunAppend(INITIAL, steps, [t]);
    assert [t][1..] == [];
    more := steps + [t];
  }

  // The run up to the crash: the deletion has started and nobody works on it.
  lemma CrashedDeletion(m: MediaId) returns (steps: seq<Step>)
    ensures Reachable(steps) && After(steps).records == map[m := Record(DeletionPending, Some(0), false)]
    ensures m in After(steps).objects && Quiet(After(steps))
  {
    steps := Went([], Register(m, Record(Available, Some(0), false), true));
    assert [m][0] == m;
    steps := Went(steps, List(0, ExpirySweep, [m], 0));
    steps := Went(steps, Begin(0));
    steps := Went(steps, Crash(0));
  }

  /** Such a record: a worker starts the deletion and crashes, then a hold is set. */
  lemma HoldStrandsDeletion(m: MediaId) returns (steps: seq<Step>)
    ensures Reachable(steps) && In(After(steps), m, DeletionPending) && After(steps).records[m].held && m in After(steps).objects
    ensures forall T :: !CanFinish(After(steps), m, T)
  {
    var crashed := CrashedDeletion(m);
    steps := Went(crashed, Hold(m, true));
    assert forall w: WorkerId :: MediaCleanup.At(After(steps), w) == MediaCleanup.At(After(crashed), w);
    forall T ensures !CanFinish(After(steps), m, T) { SweepsFinishExactly(steps, m, T); }
  }

  // ---- a user deletion that fails ----

  lemma MissingListed(s: State, m: MediaId, T: int)
    requires In(s, m, Available) && m !in s.objects && MediaCleanup.At(s, 0).batch == []
    ensures var l := List(0, MissingSweep, [m], T);
            && Enabled(s, l) && Run(Apply(s, l), [Check(0), Reconcile(0)]).Some?
            && In(Run(Apply(s, l), [Check(0), Reconcile(0)]).value, m, Failed)
  {
    assert [m][0] == m;
    var s1 := Apply(s, List(0, MissingSweep, [m], T));
    assert MediaCleanup.At(s1, 0) == Hand(MissingSweep, [Snap(m, s.records[m])], Untouched);
    Two(s1, Check(0), Reconcile(0));
  }

  lemma MissingFails(s: State, m: MediaId, T: int)
    requires In(s, m, Available) && m !in s.objects && MediaCleanup.At(s, 0).batch == []
    ensures CanReach(s, m, Failed, T)
  {
    MissingListed(s, m, T);
    var steps := [List(0, MissingSweep, [m], T)] + [Check(0), Reconcile(0)];
    assert steps[1..] == [Check(0), Reconcile(0)] && SweepsOnly(steps) && ListsBy(steps, T);
  }

  /** A user deletion that fails leaves the record in the state it was in: pending exactly if it was
      pending before. An available record it took the object of can then be deleted by sweeps
      exactly once it is due and not held, and can be failed as missing at any time, so the deletion
      the user asked for is not left for the workers to complete. */
  lemma FailedUserDeletion(steps: seq<Step>, m: MediaId, removed: bool, T: int)
    requires Reachable(steps) && Enabled(After(steps), UserDeleteRolledBack(m, removed))
    ensures var s, s' := After(steps), Apply(After(steps), UserDeleteRolledBack(m, removed));
            && (In(s', m, DeletionPending) <==> In(s, m, DeletionPending))
            && (Quiet(s) ==> (CanFinish(s', m, T) <==> Deletable(s', m, T)))
            && (In(s, m, Available) && removed ==>
                  && In(s', m, Available) && m !in s'.objects
                  && (Quiet(s) ==>
                        && CanReach(s', m, Failed, T)
                        && (CanFinish(s', m, T) <==> s.records[m].expiresAt.Some? && s.records[m].expiresAt.value <= T)))
  {
    var more := Went(steps, UserDeleteRolledBack(m, removed));
    var s' := After(more);
    assert forall w: WorkerId :: MediaCleanup.At(s', w) == MediaCleanup.At(After(steps), w);
    if Quiet(After(steps)) {
      SweepsDeleteExactly(more, m, T);
      if In(s', m, Available) && removed { MissingFails(s', m, T); }
    }
  }

  /** It happens to any available record: one request whose transaction is undone after the storage
      call, and the object is gone while the record still offers it. Before its expiry date, and
      without one for ever, it is not deleted by the workers. */
  lemma FailedDeletionLosesObject(m: MediaId, e: Option<int>) returns (steps: seq<Step>)
    ensures Reachable(steps) && In(After(steps), m, Available) && m !in After(steps).objects
    ensures forall T :: CanReach(After(steps), m, Failed, T) && (CanFinish(After(steps), m, T) <==> e.Some? && e.value <= T)
  {
    var before := Went([], Register(m, Record(Available, e, false), true));
    steps := Went(before, UserDeleteRolledBack(m, true));
    forall T ensures CanReach(After(steps), m, Failed, T) && (CanFinish(After(steps), m, T) <==> e.Some? && e.value <= T) {
      FailedUserDeletion(before, m, true, T);
    }
  }
}
