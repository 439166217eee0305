/** From every reachable state a fault-free worker brings every reference to its end. */
module EvidenceRecovery {
  import opened Common
  import opened EvidenceStates
  import opened Evidence
  import opened EvidenceSafety

  // No fault, no expiry, and every lease as configured.
  predicate Sound(lease: nat, t: Step) {
    && !t.Abandon? && !t.Crash? && !t.ExpireAbandoned?
    && (t.Claim? || t.Recover? ==> t.lease == lease)
  }

  predicate FaultFree(lease: nat, steps: seq<Step>) { forall k :: 0 <= k < |steps| ==> Sound(lease, steps[k]) }

  // The checkpoint a reference is finalized from: its own, or what the extractor delivers.
  function Final(m: Metadata, c: Checkpoint): Checkpoint {
    if Current(m).Uploading? && m.recovery.Recorded? then m.recovery.checkpoint else c
  }

  // Where a reference ends up when the extractor delivers c.
  predicate Settled(cfg: Config, s: Evidence.State, s': Evidence.State, r: RefId, c: Checkpoint)
    requires r in s.rows
  {
    var m := s.rows[r];
    && r in s'.rows
    && (if m.request.None? || !cfg.accepts(m.request.value, Final(m, c)) then Current(s'.rows[r]).TerminalFailure?
        else
          var p := IdOf(m.request.value, Final(m, c));
          && Resume(cfg, s'.rows[r]) == Package(p)
          && (if cfg.linkAccepted then Current(s'.rows[r]).Finalized? && (p, r) in s'.links else Current(s'.rows[r]).Uploading?))
  }

  ghost predicate Settles(cfg: Config, s: Evidence.State, r: RefId, c: Checkpoint, lease: nat)
    requires r in s.rows
  {
    exists steps :: FaultFree(lease, steps) && Run(cfg, s, steps).Some? && Settled(cfg, s, Run(cfg, s, steps).value, r, c)
  }

  // One more step in front.
  lemma StepThenSettles(cfg: Config, s: Evidence.State, t: Step, r: RefId, c: Checkpoint, lease: nat)
    requires r in s.rows && Enabled(cfg, s, t) && FaultFree(lease, [t]) && r in Next(cfg, s, t).rows
    requires Next(cfg, s, t).rows[r].request == s.rows[r].request && Final(Next(cfg, s, t).rows[r], c) == Final(s.rows[r], c)
    requires Settles(cfg, Next(cfg, s, t), r, c, lease)
    ensures Settles(cfg, s, r, c, lease)
  {
    var s1 := Next(cfg, s, t);
    var rest :| FaultFree(lease, rest) && Run(cfg, s1, rest).Some? && Settled(cfg, s1, Run(cfg, s1, rest).value, r, c);
    var steps := [t] + rest;
    assert steps[1..] == rest && FaultFree(lease, [t]) && [t][0] == t;
    assert Run(cfg, s, steps) == Run(cfg, Next(cfg, s, t), rest);
    assert FaultFree(lease, steps);
  }

  lemma OneStepSettles(cfg: Config, s: Evidence.State, t: Step, r: RefId, c: Checkpoint, lease: nat)
    requires r in s.rows && Enabled(cfg, s, t) && FaultFree(lease, [t]) && Settled(cfg, s, Next(cfg, s, t), r, c)
    ensures Settles(cfg, s, r, c, lease)
  {
    assert [t][1..] == [] && [t][0] == t;
    assert Run(cfg, s, [t]) == Some(Next(cfg, s, t));
  }

  // Later than every timestamp on the row.
  predicate After(m: Metadata, now: int) {
    (m.leaseUntil.Some? ==> m.leaseUntil.value <= now) && (m.retryAt.Some? ==> m.retryAt.value <= now)
  }

  lemma UploadingSettles(cfg: Config, s: Evidence.State, r: RefId, c: Checkpoint, w: WorkerId, lease: nat, now: int)
    requires Inv(cfg, s) && r in s.rows && Current(s.rows[r]).Uploading?
    requires Hand(s, w) == [] && After(s.rows[r], now)
    ensures Settles(cfg, s, r, c, lease)
  {
    assert RowOk(cfg, s.rows[r]);
    if Resume(cfg, s.rows[r]).Package? { PackageIsNew(cfg, s, r); }
    OneStepSettles(cfg, s, Recover(w, r, now, lease), r, c, lease);
  }

  // The worker holds the reference at the head of its batch, checkpoint written.
  lemma UploadedSettles(cfg: Config, s: Evidence.State, r: RefId, c: Checkpoint, w: WorkerId, lease: nat)
    requires Inv(cfg, s) && r in s.rows && Current(s.rows[r]).Uploading? && s.rows[r].owner == Some(w)
    requires Hand(s, w) != [] && Hand(s, w)[0] == Snap(r, s.rows[r])
    ensures Settles(cfg, s, r, c, lease)
  {
    assert RowOk(cfg, s.rows[r]);
    if Resume(cfg, s.rows[r]).Package? { PackageIsNew(cfg, s, r); }
    if Build(cfg, s.rows[r]).Package? && !cfg.linkAccepted {
      assert Run(cfg, s, []) == Some(s) && FaultFree(lease, []) && Settled(cfg, s, s, r, c);
    } else {
      OneStepSettles(cfg, s, Step.Finalize(w), r, c, lease);
    }
  }

  lemma ClaimedSettles(cfg: Config, s: Evidence.State, r: RefId, c: Checkpoint, w: WorkerId, lease: nat)
    requires Inv(cfg, s) && r in s.rows && s.rows[r].state == Some(Extracting) && s.rows[r].owner == Some(w)
    requires Hand(s, w) != [] && Hand(s, w)[0] == Snap(r, s.rows[r]) && IntegrityOk(c.artifact)
    ensures Settles(cfg, s, r, c, lease)
  {
    if s.rows[r].request.None? {
      OneStepSettles(cfg, s, Conclude(w, Fatal), r, c, lease);
    } else {
      StepKeepsInv(cfg, s, Upload(w, c));
      UploadedSettles(cfg, Next(cfg, s, Upload(w, c)), r, c, w, lease);
      StepThenSettles(cfg, s, Upload(w, c), r, c, lease);
    }
  }

  lemma QueuedSettles(cfg: Config, s: Evidence.State, r: RefId, c: Checkpoint, w: WorkerId, lease: nat, now: int)
    requires Inv(cfg, s) && r in s.rows && Current(s.rows[r]).Queued?
    requires Hand(s, w) == [] && After(s.rows[r], now) && IntegrityOk(c.artifact)
    ensures Settles(cfg, s, r, c, lease)
  {
    var t := Claim(w, [r], now, lease);
    assert [r][0] == r;
    StepKeepsInv(cfg, s, t);
    assert Hand(Next(cfg, s, t), w)[0] == Snap(r, Next(cfg, s, t).rows[r]);
    ClaimedSettles(cfg, Next(cfg, s, t), r, c, w, lease);
    StepThenSettles(cfg, s, t, r, c, lease);
  }

  lemma RetryableSettles(cfg: Config, s: Evidence.State, r: RefId, c: Checkpoint, w: WorkerId, lease: nat, now: int)
    requires Inv(cfg, s) && r in s.rows && Current(s.rows[r]).RetryableFailure?
    requires Hand(s, w) == [] && After(s.rows[r], now) && IntegrityOk(c.artifact)
    ensures Settles(cfg, s, r, c, lease)
  {
    var t := PromoteRetries(w, [r], now);
    assert [r][0] == r;
    StepKeepsInv(cfg, s, t);
    QueuedSettles(cfg, Next(cfg, s, t), r, c, w, lease, now);
    StepThenSettles(cfg, s, t, r, c, lease);
  }

  lemma RequestedSettles(cfg: Config, s: Evidence.State, r: RefId, c: Checkpoint, w: WorkerId, lease: nat, now: int)
    requires Inv(cfg, s) && r in s.rows && Current(s.rows[r]).Requested?
    requires Hand(s, w) == [] && After(s.rows[r], now) && IntegrityOk(c.artifact)
    ensures Settles(cfg, s, r, c, lease)
  {
    var t := QueuePending(w, [r]);
    assert [r][0] == r;
    StepKeepsInv(cfg, s, t);
    QueuedSettles(cfg, Next(cfg, s, t), r, c, w, lease, now);
    StepThenSettles(cfg, s, t, r, c, lease);
  }

  lemma ExtractingSettles(cfg: Config, s: Evidence.State, r: RefId, c: Checkpoint, w: WorkerId, lease: nat, now: int)
    requires Inv(cfg, s) && r in s.rows && Current(s.rows[r]).Extracting?
    requires Hand(s, w) == [] && After(s.rows[r], now) && IntegrityOk(c.artifact)
    ensures Settles(cfg, s, r, c, lease)
  {
    var t := Recover(w, r, now, lease);
    assert RowOk(cfg, s.rows[r]);
    StepKeepsInv(cfg, s, t);
    RetryableSettles(cfg, Next(cfg, s, t), r, c, w, lease, now + lease);
    StepThenSettles(cfg, s, t, r, c, lease);
  }

  /** From every reachable state, with any idle worker, any configured lease, a late enough clock and
      an extractor that delivers, a fault-free schedule takes a reference where its request, its
      checkpoint and the builder determine: dead-lettered if the request is missing or the builder
      refuses, else finalized with the package they build if the store accepts the link row, and
      uploading if it does not. */
  lemma FaultFreeWorkerSettles(cfg: Config, steps: seq<Step>, r: RefId, c: Checkpoint, w: WorkerId, lease: nat, now: int)
    requires Reachable(cfg, steps) && IntegrityOk(c.artifact)
    requires var s := At(cfg, steps); r in s.rows && !IsTerminal(Current(s.rows[r])) && Hand(s, w) == [] && After(s.rows[r], now)
    ensures Settles(cfg, At(cfg, steps), r, c, lease)
  {
    var s := At(cfg, steps);
    RunKeepsInv(cfg, INITIAL, steps);
    match Current(s.rows[r])
    case Requested => RequestedSettles(cfg, s, r, c, w, lease, now);
    case Queued => QueuedSettles(cfg, s, r, c, w, lease, now);
    case Extracting => ExtractingSettles(cfg, s, r, c, w, lease, now);
    case Uploading => UploadingSettles(cfg, s, r, c, w, lease, now);
    case RetryableFailure => RetryableSettles(cfg, s, r, c, w, lease, now);
  }

  // ---- exactly when a reference can be finalized ----

  // A checkpoint the reference can still be finalized from.
  predicate Deliverable(cfg: Config, m: Metadata, c: Checkpoint) {
    && m.request.Some? && IntegrityOk(c.artifact) && cfg.accepts(m.request.value, c)
    && (Current(m).Uploading? ==> m.recovery == Recorded(c))
  }

  ghost predicate CanBeFinalized(cfg: Config, s: Evidence.State, r: RefId) {
    exists steps :: Run(cfg, s, steps).Some? && r in Run(cfg, s, steps).value.rows && Current(Run(cfg, s, steps).value.rows[r]).Finalized?
  }

  lemma RequestStep(cfg: Config, s: Evidence.State, t: Step, r: RefId)
    requires Inv(cfg, s) && Enabled(cfg, s, t) && r in s.rows
    ensures r in Next(cfg, s, t).rows && Next(cfg, s, t).rows[r].request == s.rows[r].request
  {
    if t.Upload? || t.Finalize? || t.Conclude? { HeadWrites(cfg, s, t); }
  }

  lemma {:induction false} RequestKept(cfg: Config, s: Evidence.State, steps: seq<Step>, r: RefId)
    requires Inv(cfg, s) && Run(cfg, s, steps).Some? && r in s.rows
    ensures Inv(cfg, Run(cfg, s, steps).value)
    ensures r in Run(cfg, s, steps).value.rows && Run(cfg, s, steps).value.rows[r].request == s.rows[r].request
    decreases |steps|
  {
    if steps != [] {
      RequestStep(cfg, s, steps[0], r);
      StepKeepsInv(cfg, s, steps[0]);
      RequestKept(cfg, Next(cfg, s, steps[0]), steps[1..], r);
    }
  }

  lemma FinalizedWasDeliverable(cfg: Config, s: Evidence.State, steps: seq<Step>, r: RefId)
    requires Inv(cfg, s) && Run(cfg, s, steps).Some? && r in s.rows
    requires r in Run(cfg, s, steps).value.rows && Current(Run(cfg, s, steps).value.rows[r]).Finalized?
    ensures cfg.linkAccepted && exists c :: Deliverable(cfg, s.rows[r], c)
  {
    RequestKept(cfg, s, steps, r);
    var m := Run(cfg, s, steps).value.rows[r];
    assert RowOk(cfg, m) && RowOk(cfg, s.rows[r]);
    if Current(s.rows[r]).Uploading? { UploadedNeverReextracted(cfg, s, steps, r); }
    assert Deliverable(cfg, s.rows[r], m.recovery.checkpoint);
  }

  lemma SomeIdle(hands: map<WorkerId, seq<Snap>>) returns (w: WorkerId)
    ensures w !in hands
  {
    w := Above(hands.Keys);
  }

  lemma {:induction false} Above(ids: set<WorkerId>) returns (w: WorkerId)
    ensures forall i :: i in ids ==> i < w
  {
    w := 0;
    if ids != {} {
      var i :| i in ids;
      var v := Above(ids - {i});
      w := if v > i then v else i + 1;
      forall j | j in ids ensures j < w { assert j == i || j in ids - {i}; }
    }
  }

  // A clock reading past every timestamp on the row.
  function Late(m: Metadata): int {
    var a := if m.leaseUntil.Some? then m.leaseUntil.value else 0;
    var b := if m.retryAt.Some? then m.retryAt.value else 0;
    if a < b then b else a
  }

  /** From every reachable state a reference that is not closed can be finalized if and only if the
      store accepts the link row and there is an intact checkpoint, its own once it has one, that
      the builder accepts together with its request. */
  lemma FinalizedExactly(cfg: Config, steps: seq<Step>, r: RefId)
    requires Reachable(cfg, steps) && r in At(cfg, steps).rows && !IsTerminal(Current(At(cfg, steps).rows[r]))
    ensures CanBeFinalized(cfg, At(cfg, steps), r) <==> cfg.linkAccepted && exists c :: Deliverable(cfg, At(cfg, steps).rows[r], c)
  {
    var s := At(cfg, steps);
    RunKeepsInv(cfg, INITIAL, steps);
    if cfg.linkAccepted && exists c :: Deliverable(cfg, s.rows[r], c) {
      var c :| Deliverable(cfg, s.rows[r], c);
      var w := SomeIdle(s.hands);
      FaultFreeWorkerSettles(cfg, steps, r, c, w, 0, Late(s.rows[r]));
      var more :| FaultFree(0, more) && Run(cfg, s, more).Some? && Settled(cfg, s, Run(cfg, s, more).value, r, c);
      assert Final(s.rows[r], c) == c;
    }
    forall more | Run(cfg, s, more).Some? && r in Run(cfg, s, more).value.rows && Current(Run(cfg, s, more).value.rows[r]).Finalized?
      ensures cfg.linkAccepted && exists c :: Deliverable(cfg, s.rows[r], c)
    {
      FinalizedWasDeliverable(cfg, s, more, r);
    }
  }

  // ---- the store that rejects the link row ----

  lemma UnlinkableStep(cfg: Config, s: Evidence.State, t: Step, r: RefId)
    requires Inv(cfg, s) && Enabled(cfg, s, t) && Unlinkable(cfg, s, r)
    ensures Unlinkable(cfg, Next(cfg, s, t), r)
  {
    UploadingStep(cfg, s, t, r);
    if t.Upload? || t.Finalize? || t.Conclude? { assert SnapOk(cfg, s, t.w, 0); }
  }

  /** Such a reference stays uploading in every run. */
  lemma {:induction false} UnlinkableForever(cfg: Config, s: Evidence.State, steps: seq<Step>, r: RefId)
    requires Inv(cfg, s) && Run(cfg, s, steps).Some? && Unlinkable(cfg, s, r)
    ensures Unlinkable(cfg, Run(cfg, s, steps).value, r)
    decreases |steps|
  {
    if steps != [] {
      UnlinkableStep(cfg, s, steps[0], r);
      StepKeepsInv(cfg, s, steps[0]);
      UnlinkableForever(cfg, Next(cfg, s, steps[0]), steps[1..], r);
    }
  }

  lemma Went(cfg: Config, steps: seq<Step>, t: Step) returns (more: seq<Step>)
    requires Reachable(cfg, steps) && Enabled(cfg, At(cfg, steps), t)
    ensures more == steps + [t] && Reachable(cfg, more) && At(cfg, more) == Next(cfg, At(cfg, steps), t)
  {
    RunAppend(cfg, INITIAL, steps, [t]);
    assert [t][1..] == [];
    more := steps + [t];
  }

  /** Where the session rejects the link row, any request that is extracted and accepted gets there:
      the reference is enqueued, claimed and uploaded, and never finalized. */
  lemma RejectedLinkStrands(cfg: Config, d: Document, c: Checkpoint) returns (steps: seq<Step>)
    requires !cfg.linkAccepted && IntegrityOk(c.artifact) && cfg.accepts(d, c)
    ensures Reachable(cfg, steps) && Unlinkable(cfg, At(cfg, steps), d.ref)
    ensures forall more :: Run(cfg, At(cfg, steps), more).Some? ==> Unlinkable(cfg, Run(cfg, At(cfg, steps), more).value, d.ref)
  {
    var ids := [d.ref];
    assert ids[0] == d.ref;
    steps := Went(cfg, [], Create(d.ref, Some(d), true));
    steps := Went(cfg, steps, QueuePending(0, ids));
    steps := Went(cfg, steps, Claim(0, ids, 0, 0));
    assert Hand(At(cfg, steps), 0)[0].ref == d.ref;
    steps := Went(cfg, steps, Upload(0, c));
    RunKeepsInv(cfg, INITIAL, steps);
    forall more | Run(cfg, At(cfg, steps), more).Some? ensures Unlinkable(cfg, Run(cfg, At(cfg, steps), more).value, d.ref) {
      UnlinkableForever(cfg, At(cfg, steps), more, d.ref);
    }
  }
}
