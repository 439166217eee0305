/**
Media deletion as a step relation: records and their objects, the sweeps of any number of cleanup
workers working from snapshots they listed earlier, user deletions, and the upload side. Database
transactions and storage calls are separate steps, so a crash may fall between any two.
*/
module MediaCleanup {
  import opened Common

  type MediaId = nat

  datatype Lifecycle = Initiated | Uploading | Uploaded | Validating | Available | Failed | Expired | DeletionPending | Deleted

  // held: legal_hold class, or a preservation flag in the metadata.
  datatype Record = Record(state: Lifecycle, expiresAt: Option<int>, held: bool)

  datatype Sweep = ExpirySweep | StaleSweep | MissingSweep
  datatype Snap = Snap(media: MediaId, record: Record)

  // Progress on the first snapshot of the batch.
  datatype Stage = Untouched | Removing | Removed | Missing

  datatype Hand = Hand(sweep: Sweep, batch: seq<Snap>, stage: Stage)
  const IDLE := Hand(ExpirySweep, [], Untouched)

  datatype State = State(
    records: map<MediaId, Record>,
    objects: set<MediaId>,            // whose object is in storage
    deletions: multiset<MediaId>,     // committed transitions to deleted, each with its audit event
    hands: map<WorkerId, Hand>
  )

  const INITIAL := State(map[], {}, multiset{}, map[])

  datatype Step =
    // the upload side
    | Register(m: MediaId, record: Record, stored: bool)
    | ClientPut(m: MediaId)
    | LatePut(m: MediaId)                               // through a presigned URL that outlived the upload
    | Complete(m: MediaId, expiresAt: Option<int>)
    | Verify(m: MediaId)
    | Abort(m: MediaId, removed: bool)
    // operators and users
    | Hold(m: MediaId, held: bool)
    | UserDelete(m: MediaId)
    | UserDeleteRolledBack(m: MediaId, removed: bool)   // storage or commit failed: the transaction is undone
    // the cleanup workers
    | List(w: WorkerId, sweep: Sweep, ids: seq<MediaId>, now: int)
    | Begin(w: WorkerId)
    | Remove(w: WorkerId, applied: bool, ok: bool)
    | Finish(w: WorkerId)
    | Check(w: WorkerId)
    | Reconcile(w: WorkerId)
    | RemoveStale(w: WorkerId, applied: bool)
    | FailStale(w: WorkerId)
    | Skip(w: WorkerId)
    | Crash(w: WorkerId)
    | RemoveOrphan(m: MediaId)

  function At(s: State, w: WorkerId): Hand { if w in s.hands then s.hands[w] else IDLE }

  predicate Due(r: Record, now: int) { r.expiresAt.Some? && r.expiresAt.value <= now }

  // list_expired, list_stale_uploads, list_for_reconciliation (age of the row left open).
  predicate Listed(sweep: Sweep, r: Record, now: int) {
    match sweep
    case ExpirySweep => (r.state.Available? || r.state.DeletionPending?) && Due(r, now)
    case StaleSweep => r.state.Uploading?
    case MissingSweep => r.state.Uploaded? || r.state.Validating? || r.state.Available? || r.state.Expired? || r.state.DeletionPending?
  }

  predicate Working(s: State, w: WorkerId, sweep: Sweep, stage: Stage) {
    At(s, w).batch != [] && At(s, w).sweep == sweep && At(s, w).stage == stage
  }

  predicate In(s: State, m: MediaId, state: Lifecycle) { m in s.records && s.records[m].state == state }

  predicate Enabled(s: State, t: Step) {
    match t
    case Register(m, r, stored) => m !in s.records && !r.state.DeletionPending? && !r.state.Deleted?
    case ClientPut(m) => In(s, m, Uploading)
    case LatePut(m) => m in s.records && !In(s, m, Uploading)
    case Complete(m, _) => In(s, m, Uploading) && m in s.objects
    case Verify(m) => In(s, m, Uploaded)
    case Abort(m, _) => In(s, m, Uploading)
    case Hold(m, _) => m in s.records
    case UserDelete(m) => m in s.records && !s.records[m].state.Deleted? && !s.records[m].held
    case UserDeleteRolledBack(m, _) => m in s.records && !s.records[m].state.Deleted? && !s.records[m].held
    case List(w, sweep, ids, now) =>
      At(s, w).batch == [] && forall i :: 0 <= i < |ids| ==> ids[i] in s.records && Listed(sweep, s.records[ids[i]], now)
    case Begin(w) => Working(s, w, ExpirySweep, Untouched)
    case Remove(w, applied, ok) => Working(s, w, ExpirySweep, Removing) && (ok ==> applied)
    case Finish(w) => Working(s, w, ExpirySweep, Removed)
    case Check(w) => Working(s, w, MissingSweep, Untouched)
    case Reconcile(w) => Working(s, w, MissingSweep, Missing)
    case RemoveStale(w, _) => Working(s, w, StaleSweep, Untouched)
    case FailStale(w) => Working(s, w, StaleSweep, Removed)
    case Skip(w) => At(s, w).batch != []
    case Crash(w) => true
    case RemoveOrphan(m) => In(s, m, Failed) || In(s, m, Deleted)
  }

  function Popped(s: State, w: WorkerId): map<WorkerId, Hand>
    requires At(s, w).batch != []
  {
    s.hands[w := Hand(At(s, w).sweep, At(s, w).batch[1..], Untouched)]
  }

  function Staged(s: State, w: WorkerId, stage: Stage): map<WorkerId, Hand> { s.hands[w := At(s, w).(stage := stage)] }

  // update_state_unscoped: UPDATE ... WHERE lifecycle_state = from.
  function Moved(s: State, m: MediaId, from: Lifecycle, to: Lifecycle): State {
    if In(s, m, from)
    then s.(records := s.records[m := s.records[m].(state := to)],
            deletions := if to.Deleted? then s.deletions + multiset{m} else s.deletions)
    else s
  }

  function Without(s: State, m: MediaId, removed: bool): set<MediaId> { if removed then s.objects - {m} else s.objects }

  function Apply(s: State, t: Step): State
    requires Enabled(s, t)
  {
    match t
    case Register(m, r, stored) => s.(records := s.records[m := r], objects := if stored then s.objects + {m} else s.objects - {m})
    case ClientPut(m) => s.(objects := s.objects + {m})
    case LatePut(m) => s.(objects := s.objects + {m})
    case Complete(m, e) => s.(records := s.records[m := s.records[m].(state := Uploaded, expiresAt := e)])
    case Verify(m) => Moved(s, m, Uploaded, Available)
    case Abort(m, removed) => Moved(s, m, Uploading, Failed).(objects := Without(s, m, removed))
    case Hold(m, held) => s.(records := s.records[m := s.records[m].(held := held)])
    case UserDelete(m) => Moved(s, m, s.records[m].state, Deleted).(objects := Without(s, m, true))
    case UserDeleteRolledBack(m, removed) => s.(objects := Without(s, m, removed))
    case List(w, sweep, ids, now) =>
      s.(hands := s.hands[w := Hand(sweep, seq(|ids|, i requires 0 <= i < |ids| => Snap(ids[i], s.records[ids[i]])), Untouched)])
    case Begin(w) =>
      var h := At(s, w).batch[0];
      if h.record.held then s.(hands := Popped(s, w))
      else if h.record.state.DeletionPending? then s.(hands := Staged(s, w, Removing))
      else if !In(s, h.media, Available) then s.(hands := Popped(s, w))
      else Moved(s, h.media, Available, DeletionPending).(hands := Staged(s, w, Removing))
    case Remove(w, applied, ok) =>
      s.(objects := Without(s, At(s, w).batch[0].media, applied), hands := if ok then Staged(s, w, Removed) else Popped(s, w))
    case Finish(w) => Moved(s, At(s, w).batch[0].media, DeletionPending, Deleted).(hands := Popped(s, w))
    case Check(w) => s.(hands := if At(s, w).batch[0].media in s.objects then Popped(s, w) else Staged(s, w, Missing))
    case Reconcile(w) =>
      var h := At(s, w).batch[0];
      var to := if h.record.state.DeletionPending? || h.record.state.Expired? then Deleted else Failed;
      Moved(s, h.media, h.record.state, to).(hands := Popped(s, w))
    case RemoveStale(w, applied) => s.(objects := Without(s, At(s, w).batch[0].media, applied), hands := Staged(s, w, Removed))
    case FailStale(w) => Moved(s, At(s, w).batch[0].media, Uploading, Failed).(hands := Popped(s, w))
    case Skip(w) => s.(hands := Popped(s, w))
    case Crash(w) => s.(hands := s.hands[w := IDLE])
    case RemoveOrphan(m) => s.(objects := Without(s, m, true))
  }

  function Run(s: State, steps: seq<Step>): Option<State>
    decreases |steps|
  {
    if steps == [] then Some(s)
    else if !Enabled(s, steps[0]) then None
    else Run(Apply(s, steps[0]), steps[1..])
  }

  lemma {:induction false} RunAppend(s: State, a: seq<Step>, b: seq<Step>)
    requires Run(s, a).Some?
    ensures Run(s, a + b) == Run(Run(s, a).value, b)
    decreases |a|
  {
    if a == [] {
      assert a + b == b;
    } else {
      assert (a + b)[0] == a[0] && (a + b)[1..] == a[1..] + b;
      RunAppend(Apply(s, a[0]), a[1..], b);
    }
  }

  lemma {:induction false} RunSplit(s: State, a: seq<Step>, b: seq<Step>)
    requires Run(s, a + b).Some?
    ensures Run(s, a).Some? && Run(Run(s, a).value, b) == Run(s, a + b)
    decreases |a|
  {
    if a == [] {
      assert a + b == b;
    } else {
      assert (a + b)[0] == a[0] && (a + b)[1..] == a[1..] + b;
      RunSplit(Apply(s, a[0]), a[1..], b);
    }
  }

  // ---- late uploads ----

  // The media whose object a late upload put there, one step on.
  function LateAfter(s: State, late: set<MediaId>, t: Step): set<MediaId>
    requires Enabled(s, t)
  {
    (if t.LatePut? then late + {t.m} else late) * Apply(s, t).objects
  }

  function LateRun(s: State, late: set<MediaId>, steps: seq<Step>): set<MediaId>
    decreases |steps|
  {
    if steps == [] || !Enabled(s, steps[0]) then late
    else LateRun(Apply(s, steps[0]), LateAfter(s, late, steps[0]), steps[1..])
  }

  lemma {:induction false} LateAppend(s: State, late: set<MediaId>, a: seq<Step>, b: seq<Step>)
    requires Run(s, a).Some?
    ensures LateRun(s, late, a + b) == LateRun(Run(s, a).value, LateRun(s, late, a), b)
    decreases |a|
  {
    if a == [] {
      assert a + b == b;
    } else {
      assert (a + b)[0] == a[0] && (a + b)[1..] == a[1..] + b;
      LateAppend(Apply(s, a[0]), LateAfter(s, late, a[0]), a[1..], b);
    }
  }

  // What is in storage after the first j steps.
  function Stored(steps: seq<Step>, j: nat): set<MediaId>
    requires j <= |steps|
  {
    if Run(INITIAL, steps[..j]).Some? then Run(INITIAL, steps[..j]).value.objects else {}
  }

  // Some late upload of m has not been removed since.
  predicate LatelyPut(steps: seq<Step>, m: MediaId) {
    exists k :: 0 <= k < |steps| && steps[k] == LatePut(m) && forall j :: k < j <= |steps| ==> m in Stored(steps, j)
  }

  lemma LatelyPutSnoc(steps: seq<Step>, t: Step, m: MediaId)
    ensures LatelyPut(steps + [t], m) <==> (t == LatePut(m) || LatelyPut(steps, m)) && m in Stored(steps + [t], |steps| + 1)
  {
    var more := steps + [t];
    assert forall j :: 0 <= j <= |steps| ==> more[..j] == steps[..j];
    assert forall j :: 0 <= j <= |steps| ==> Stored(more, j) == Stored(steps, j);
    if m in Stored(more, |more|) {
      if t == LatePut(m) {
        assert more[|steps|] == LatePut(m);
      } else if LatelyPut(steps, m) {
        var k :| 0 <= k < |steps| && steps[k] == LatePut(m) && forall j :: k < j <= |steps| ==> m in Stored(steps, j);
        assert more[k] == LatePut(m);
      }
    }
  }

  // The set carried along a run says just that.
  lemma {:induction false} LateExactly(steps: seq<Step>, m: MediaId)
    requires Run(INITIAL, steps).Some?
    ensures m in LateRun(INITIAL, {}, steps) <==> LatelyPut(steps, m)
    decreases |steps|
  {
    if steps != [] {
      var n := |steps| - 1;
      var p, t := steps[..n], steps[n];
      assert steps == p + [t] && [t][1..] == [] && steps[..|steps|] == steps;
      RunSplit(INITIAL, p, [t]);
      LateAppend(INITIAL, {}, p, [t]);
      LateExactly(p, m);
      LatelyPutSnoc(p, t, m);
    }
  }

  // ---- the invariant ----

  // Past the upload: a record never becomes uploading again, and its expiry is fixed.
  predicate Settled(r: Record) { !r.state.Initiated? && !r.state.Uploading? }

  predicate Dying(r: Record) { r.state.DeletionPending? || r.state.Deleted? }

  // Absent, unless a late upload put it back.
  predicate Gone(s: State, late: set<MediaId>, m: MediaId) { m in s.objects ==> m in late }

  predicate RecordOk(s: State, late: set<MediaId>, m: MediaId)
    requires m in s.records
  {
    var r := s.records[m];
    && s.deletions[m] == (if r.state.Deleted? then 1 else 0)
    && (r.state.Deleted? ==> Gone(s, late, m))
    && (r.state.DeletionPending? ==> r.expiresAt.Some?)
  }

  // A snapshot may be out of date, but the lifecycle never runs backwards.
  predicate SnapOk(s: State, sweep: Sweep, h: Snap) {
    && h.media in s.records
    && (sweep.ExpirySweep? ==> (h.record.state.Available? || h.record.state.DeletionPending?) && h.record.expiresAt.Some?)
    && (sweep.MissingSweep? ==> Listed(MissingSweep, h.record, 0))
    && (!sweep.StaleSweep? ==> Settled(s.records[h.media]) && s.records[h.media].expiresAt == h.record.expiresAt)
    && (h.record.state.DeletionPending? ==> Dying(s.records[h.media]))
  }

  predicate HandOk(s: State, late: set<MediaId>, w: WorkerId) {
    var h := At(s, w);
    && (forall i :: 0 <= i < |h.batch| ==> SnapOk(s, h.sweep, h.batch[i]))
    && (h.batch == [] ==> h.stage.Untouched?)
    && (h.stage.Removing? ==> h.sweep.ExpirySweep?)
    && (h.stage.Missing? ==> h.sweep.MissingSweep? && Gone(s, late, h.batch[0].media))
    && (h.sweep.ExpirySweep? && !h.stage.Untouched? ==> Dying(s.records[h.batch[0].media]))
    && (h.sweep.ExpirySweep? && h.stage.Removed? ==> Gone(s, late, h.batch[0].media))
  }

  ghost predicate Inv(s: State, late: set<MediaId>) {
    && late <= s.objects
    && (forall m :: m in s.records ==> RecordOk(s, late, m))
    && (forall w: WorkerId :: HandOk(s, late, w))
    && (forall m :: m in s.deletions ==> m in s.records)
  }

  // What no step undoes.
  predicate Later(r: Record, r': Record) {
    && (Settled(r) ==> Settled(r') && r'.expiresAt == r.expiresAt)
    && (Dying(r) ==> Dying(r'))
    && (r.state.Deleted? ==> r'.state == r.state)
  }

  // What a step keeps of one record and its object.
  predicate RecordKept(s: State, late: set<MediaId>, t: Step, m: MediaId)
    requires Enabled(s, t) && m in s.records
  {
    var s', late' := Apply(s, t), LateAfter(s, late, t);
    && m in s'.records && Later(s.records[m], s'.records[m]) && RecordOk(s', late', m)
    && (Settled(s.records[m]) && Gone(s, late, m) ==> Gone(s', late', m))
  }

  lemma UploadSide(s: State, late: set<MediaId>, t: Step, m: MediaId)
    requires Inv(s, late) && Enabled(s, t) && !Sweeps(t) && m in s.records
    ensures RecordKept(s, late, t, m)
  {
    assert RecordOk(s, late, m);
  }

  lemma FirstPhase(s: State, late: set<MediaId>, t: Step, m: MediaId)
    requires Inv(s, late) && Enabled(s, t) && (t.Begin? || t.Finish?) && m in s.records
    ensures RecordKept(s, late, t, m)
  {
    assert RecordOk(s, late, m) && HandOk(s, late, t.w);
    assert SnapOk(s, At(s, t.w).sweep, At(s, t.w).batch[0]);
  }

  lemma ReconcilePhase(s: State, late: set<MediaId>, t: Step, m: MediaId)
    requires Inv(s, late) && Enabled(s, t) && t.Reconcile? && m in s.records
    ensures RecordKept(s, late, t, m)
  {
    assert RecordOk(s, late, m) && HandOk(s, late, t.w);
    assert SnapOk(s, At(s, t.w).sweep, At(s, t.w).batch[0]);
  }

  lemma RemovalPhase(s: State, late: set<MediaId>, t: Step, m: MediaId)
    requires Inv(s, late) && Enabled(s, t) && Sweeps(t) && !t.Begin? && !t.Finish? && !t.Reconcile? && m in s.records
    ensures RecordKept(s, late, t, m)
  {
    assert RecordOk(s, late, m);
  }

  lemma RecordsStep(s: State, late: set<MediaId>, t: Step, m: MediaId)
    requires Inv(s, late) && Enabled(s, t) && m in s.records
    ensures RecordKept(s, late, t, m)
  {
    if !Sweeps(t) {
      UploadSide(s, late, t, m);
    } else if t.Begin? || t.Finish? {
      FirstPhase(s, late, t, m);
    } else if t.Reconcile? {
      ReconcilePhase(s, late, t, m);
    } else {
      RemovalPhase(s, late, t, m);
    }
  }

  lemma SnapLater(s: State, late: set<MediaId>, t: Step, sweep: Sweep, h: Snap)
    requires Inv(s, late) && Enabled(s, t) && SnapOk(s, sweep, h)
    ensures SnapOk(Apply(s, t), sweep, h)
  {
    RecordsStep(s, late, t, h.media);
  }

  predicate Sweeps(t: Step) {
    t.List? || t.Begin? || t.Remove? || t.Finish? || t.Check? || t.Reconcile? || t.RemoveStale? || t.FailStale? || t.Skip? || t.Crash?
  }

  lemma SnapsLater(s: State, late: set<MediaId>, t: Step, w: WorkerId)
    requires Inv(s, late) && Enabled(s, t)
    ensures var h := At(s, w); forall i :: 0 <= i < |h.batch| ==> SnapOk(Apply(s, t), h.sweep, h.batch[i])
  {
    assert HandOk(s, late, w);
    forall i | 0 <= i < |At(s, w).batch| ensures SnapOk(Apply(s, t), At(s, w).sweep, At(s, w).batch[i]) {
      SnapLater(s, late, t, At(s, w).sweep, At(s, w).batch[i]);
    }
  }

  lemma SameHand(s: State, late: set<MediaId>, t: Step, w: WorkerId)
    requires Inv(s, late) && Enabled(s, t) && At(Apply(s, t), w) == At(s, w)
    ensures HandOk(Apply(s, t), LateAfter(s, late, t), w)
  {
    assert HandOk(s, late, w);
    SnapsLater(s, late, t, w);
    if At(s, w).batch != [] { RecordsStep(s, late, t, At(s, w).batch[0].media); }
  }

  lemma ListedHand(s: State, late: set<MediaId>, t: Step)
    requires Inv(s, late) && Enabled(s, t) && t.List?
    ensures HandOk(Apply(s, t), LateAfter(s, late, t), t.w)
  {
    forall i | 0 <= i < |t.ids| ensures SnapOk(Apply(s, t), t.sweep, At(Apply(s, t), t.w).batch[i]) {
      assert RecordOk(s, late, t.ids[i]);
    }
  }

  lemma OwnHand(s: State, late: set<MediaId>, t: Step)
    requires Inv(s, late) && Enabled(s, t) && Sweeps(t) && !t.List?
    ensures HandOk(Apply(s, t), LateAfter(s, late, t), t.w)
  {
    var h, h' := At(s, t.w), At(Apply(s, t), t.w);
    assert HandOk(s, late, t.w);
    SnapsLater(s, late, t, t.w);
    if !t.Crash? {
      assert h'.sweep == h.sweep && (h'.batch == h.batch || (h'.batch == h.batch[1..] && h'.stage.Untouched?));
      RecordsStep(s, late, t, h.batch[0].media);
    }
  }

  lemma HandsStep(s: State, late: set<MediaId>, t: Step, w: WorkerId)
    requires Inv(s, late) && Enabled(s, t)
    ensures HandOk(Apply(s, t), LateAfter(s, late, t), w)
  {
    if !Sweeps(t) || t.w != w {
      assert At(Apply(s, t), w) == At(s, w);
      SameHand(s, late, t, w);
    } else if t.List? {
      ListedHand(s, late, t);
    } else {
      OwnHand(s, late, t);
    }
  }

  lemma NewRecord(s: State, late: set<MediaId>, t: Step, m: MediaId)
    requires Inv(s, late) && Enabled(s, t) && m in Apply(s, t).records && m !in s.records
    ensures RecordOk(Apply(s, t), LateAfter(s, late, t), m)
  {
  }

  lemma NoOtherDeletions(s: State, t: Step)
    requires Enabled(s, t) && forall m :: m in s.deletions ==> m in s.records
    ensures forall m :: m in Apply(s, t).deletions ==> m in Apply(s, t).records
  {
  }

  /** Every step of the workers, the users and the upload side keeps the invariant, late uploads
      included: what they put back is what the late set names. */
  lemma StepKeepsInv(s: State, late: set<MediaId>, t: Step)
    requires Inv(s, late) && Enabled(s, t)
    ensures Inv(Apply(s, t), LateAfter(s, late, t))
  {
    var s', late' := Apply(s, t), LateAfter(s, late, t);
    forall m | m in s'.records ensures RecordOk(s', late', m) {
      if m in s.records { RecordsStep(s, late, t, m); } else { NewRecord(s, late, t, m); }
    }
    NoOtherDeletions(s, t);
    forall w: WorkerId ensures HandOk(s', late', w) {
      HandsStep(s, late, t, w);
    }
  }

  lemma {:induction false} RunKeepsInv(s: State, late: set<MediaId>, steps: seq<Step>)
    requires Inv(s, late) && Run(s, steps).Some?
    ensures Inv(Run(s, steps).value, LateRun(s, late, steps))
    decreases |steps|
  {
    if steps != [] {
      StepKeepsInv(s, late, steps[0]);
      RunKeepsInv(Apply(s, steps[0]), LateAfter(s, late, steps[0]), steps[1..]);
    }
  }
}
