/** What the evidence pipeline guarantees over all runs: crashes, stale workers and recovery included. */
module EvidenceSafety {
  import opened Common
  import opened EvidenceStates
  import opened Evidence

  // What a run makes of the empty store.
  function At(cfg: Config, steps: seq<Step>): Evidence.State
    requires Reachable(cfg, steps)
  {
    Run(cfg, INITIAL, steps).value
  }

  /** One package per reference, one reference per package: a reference has a package if and only
      if it is finalized, the package is the one its checkpoint builds, and no package row is
      without its reference. */
  lemma OnePackagePerRef(cfg: Config, steps: seq<Step>)
    requires Reachable(cfg, steps)
    ensures var s := At(cfg, steps);
            && (forall r :: r in s.rows ==> (Current(s.rows[r]).Finalized? <==> exists p :: (p, r) in s.links))
            && (forall p, q, r :: (p, r) in s.links && (q, r) in s.links ==> p == q)
            && (forall p, q, r :: (p, r) in s.links && (p, q) in s.links ==> r == q)
            && (forall p :: p in s.packages <==> exists r :: (p, r) in s.links)
            && (forall p, r :: (p, r) in s.links ==> p.ref == r && r in s.rows && Resume(cfg, s.rows[r]) == Package(p))
            && (s.packages != {} ==> cfg.linkAccepted)
  {
    RunKeepsInv(cfg, INITIAL, steps);
    var s := At(cfg, steps);
    forall r | r in s.rows ensures Current(s.rows[r]).Finalized? <==> exists p :: (p, r) in s.links {
      assert RowOk(cfg, s.rows[r]);
    }
    forall p, r | (p, r) in s.links ensures p.ref == r && r in s.rows && Resume(cfg, s.rows[r]) == Package(p) && cfg.linkAccepted {
      assert RowOk(cfg, s.rows[r]) && Tied(r, s.rows[r]);
    }
  }

  // What a worker's guarded write makes of the row at the head of its batch.
  function HeadImage(cfg: Config, s: Evidence.State, t: Step): Metadata
    requires Enabled(cfg, s, t) && (t.Upload? || t.Finalize? || t.Conclude?)
  {
    var m := Hand(s, t.w)[0].row;
    if t.Upload? then Uploaded(m, t.checkpoint)
    else if t.Conclude? then
      if t.verdict.Retryable? && m.attempts < cfg.maxAttempts then Retried(m, t.verdict.retryAt) else Buried(m)
    else if Build(cfg, m).Package? then Filed(m, Build(cfg, m).id) else Buried(m)
  }

  lemma HeadWrites(cfg: Config, s: Evidence.State, t: Step)
    requires Inv(cfg, s) && Enabled(cfg, s, t) && (t.Upload? || t.Finalize? || t.Conclude?)
    ensures var h := Hand(s, t.w)[0];
            && h.ref in s.rows && Working(h.row)
            && Next(cfg, s, t).rows == if s.rows[h.ref] == h.row then s.rows[h.ref := HeadImage(cfg, s, t)] else s.rows
  {
    assert SnapOk(cfg, s, t.w, 0);
  }

  // ---- terminal rows, uploading rows ----

  lemma TerminalStep(cfg: Config, s: Evidence.State, t: Step, r: RefId)
    requires Inv(cfg, s) && Enabled(cfg, s, t) && r in s.rows && IsTerminal(Current(s.rows[r]))
    ensures r in Next(cfg, s, t).rows && Next(cfg, s, t).rows[r] == s.rows[r]
  {
    if t.Upload? || t.Finalize? || t.Conclude? { HeadWrites(cfg, s, t); }
  }

  /** Finalized, terminal failure and expired are never left: the whole row stays as it is. */
  lemma {:induction false} ClosedForever(cfg: Config, s: Evidence.State, steps: seq<Step>, r: RefId)
    requires Inv(cfg, s) && Run(cfg, s, steps).Some? && r in s.rows && IsTerminal(Current(s.rows[r]))
    ensures r in Run(cfg, s, steps).value.rows && Run(cfg, s, steps).value.rows[r] == s.rows[r]
    decreases |steps|
  {
    if steps != [] {
      TerminalStep(cfg, s, steps[0], r);
      StepKeepsInv(cfg, s, steps[0]);
      ClosedForever(cfg, Next(cfg, s, steps[0]), steps[1..], r);
    }
  }

  // Whether a step hands r out for extraction.
  predicate Extracts(t: Step, r: RefId) { t.Claim? && r in t.ids }

  // An uploaded row goes on with its checkpoint and its request, or stays.
  predicate GoesOn(m: Metadata, m': Metadata) {
    && (Current(m').Uploading? || Current(m').Finalized? || Current(m').TerminalFailure?)
    && m'.recovery == m.recovery && m'.request == m.request
  }

  lemma UploadingHead(cfg: Config, s: Evidence.State, t: Step, r: RefId)
    requires Inv(cfg, s) && Enabled(cfg, s, t) && Guarded(t) && r in s.rows && Current(s.rows[r]).Uploading?
    ensures r in Next(cfg, s, t).rows && GoesOn(s.rows[r], Next(cfg, s, t).rows[r])
  {
    HeadWrites(cfg, s, t);
  }

  lemma UploadingElsewhere(cfg: Config, s: Evidence.State, t: Step, r: RefId)
    requires Enabled(cfg, s, t) && !Guarded(t) && r in s.rows && Current(s.rows[r]).Uploading?
    ensures !Extracts(t, r) && r in Next(cfg, s, t).rows && GoesOn(s.rows[r], Next(cfg, s, t).rows[r])
  {
  }

  lemma UploadingStep(cfg: Config, s: Evidence.State, t: Step, r: RefId)
    requires Inv(cfg, s) && Enabled(cfg, s, t) && r in s.rows && Current(s.rows[r]).Uploading?
    ensures !Extracts(t, r) && r in Next(cfg, s, t).rows && GoesOn(s.rows[r], Next(cfg, s, t).rows[r])
  {
    assert RowOk(cfg, s.rows[r]);
    if Guarded(t) { UploadingHead(cfg, s, t, r); } else { UploadingElsewhere(cfg, s, t, r); }
  }

  /** Once uploaded, never extracted again: from its checkpoint a reference only goes on to
      finalized or terminal failure, with the same checkpoint, in every run. */
  lemma {:induction false} UploadedNeverReextracted(cfg: Config, s: Evidence.State, steps: seq<Step>, r: RefId)
    requires Inv(cfg, s) && Run(cfg, s, steps).Some? && r in s.rows && Current(s.rows[r]).Uploading?
    ensures forall k :: 0 <= k < |steps| ==> !Extracts(steps[k], r)
    ensures var s' := Run(cfg, s, steps).value;
            && r in s'.rows && s'.rows[r].recovery == s.rows[r].recovery && s'.rows[r].request == s.rows[r].request
            && (Current(s'.rows[r]).Uploading? || Current(s'.rows[r]).Finalized? || Current(s'.rows[r]).TerminalFailure?)
    decreases |steps|
  {
    if steps != [] {
      var s' := Next(cfg, s, steps[0]);
      UploadingStep(cfg, s, steps[0], r);
      StepKeepsInv(cfg, s, steps[0]);
      if Current(s'.rows[r]).Uploading? {
        UploadedNeverReextracted(cfg, s', steps[1..], r);
      } else {
        ClosedForever(cfg, s', steps[1..], r);
        TerminalNotExtracted(cfg, s', steps[1..], r);
      }
      forall k | 0 <= k < |steps| ensures !Extracts(steps[k], r) {
        if k > 0 { assert steps[k] == steps[1..][k - 1]; }
      }
    }
  }

  lemma {:induction false} TerminalNotExtracted(cfg: Config, s: Evidence.State, steps: seq<Step>, r: RefId)
    requires Inv(cfg, s) && Run(cfg, s, steps).Some? && r in s.rows && IsTerminal(Current(s.rows[r]))
    ensures forall k :: 0 <= k < |steps| ==> !Extracts(steps[k], r)
    decreases |steps|
  {
    if steps != [] {
      TerminalStep(cfg, s, steps[0], r);
      StepKeepsInv(cfg, s, steps[0]);
      TerminalNotExtracted(cfg, Next(cfg, s, steps[0]), steps[1..], r);
      forall k | 0 <= k < |steps| ensures !Extracts(steps[k], r) {
        if k > 0 { assert steps[k] == steps[1..][k - 1]; }
      }
    }
  }

  /** The checkpoint invariant: every durably uploading reference can be resumed. Its recovery never
      takes the missing-checkpoint, missing-request, invalid or integrity branch, and never meets its
      package in the store: it dead-letters exactly what the builder refuses, and finalizes exactly
      what the builder accepts, provided the store accepts the link row. */
  lemma CheckpointResumes(cfg: Config, steps: seq<Step>, w: WorkerId, r: RefId, now: int, lease: nat)
    requires Reachable(cfg, steps)
    requires r in At(cfg, steps).rows && Current(At(cfg, steps).rows[r]).Uploading?
    ensures var s := At(cfg, steps);
            && s.rows[r].leaseUntil.Some?
            && (Resume(cfg, s.rows[r]).Refused? || Resume(cfg, s.rows[r]).Package?)
            && (Hand(s, w) == [] && s.rows[r].leaseUntil.value <= now ==>
                  var t := Recover(w, r, now, lease);
                  && Enabled(cfg, s, t)
                  && var s' := Next(cfg, s, t);
                  && (Current(s'.rows[r]).Finalized? <==> Resume(cfg, s.rows[r]).Package? && cfg.linkAccepted)
                  && (Current(s'.rows[r]).TerminalFailure? <==> Resume(cfg, s.rows[r]).Refused?)
                  && (Current(s'.rows[r]).Uploading? ==> s' == s)
                  && (Current(s'.rows[r]).Finalized? ==> (Resume(cfg, s.rows[r]).id, r) in s'.links))
  {
    RunKeepsInv(cfg, INITIAL, steps);
    assert RowOk(cfg, At(cfg, steps).rows[r]);
    if Resume(cfg, At(cfg, steps).rows[r]).Package? { PackageIsNew(cfg, At(cfg, steps), r); }
  }

  // ---- lost claims ----

  /** The guard on state and owner detects every change: it lets a worker write exactly when the
      row still is the snapshot the worker holds. So a worker that lost its claim changes nothing,
      and one that kept it overwrites nothing of anybody else with its whole-metadata write. */
  lemma GuardDetectsEveryChange(cfg: Config, steps: seq<Step>, t: Step)
    requires Reachable(cfg, steps) && Enabled(cfg, At(cfg, steps), t) && (t.Upload? || t.Finalize? || t.Conclude?)
    ensures var s := At(cfg, steps);
            var s' := Next(cfg, s, t);
            var h := Hand(s, t.w)[0];
            && h.ref in s.rows
            && (s.rows[h.ref] == h.row <==> s'.rows != s.rows)
            && (s.rows[h.ref] != h.row ==> s'.packages == s.packages && s'.links == s.links)
            && (forall r :: r in s.rows && r != h.ref ==> s'.rows[r] == s.rows[r])
  {
    RunKeepsInv(cfg, INITIAL, steps);
    var s := At(cfg, steps);
    assert SnapOk(cfg, s, t.w, 0);
    var h := Hand(s, t.w)[0];
    if s.rows[h.ref] == h.row {
      assert Current(Next(cfg, s, t).rows[h.ref]) != Current(h.row);
    }
  }

  /** Recovery by one worker revokes the claim of another: whatever the first one computed, none
      of its later steps on that snapshot has an effect. */
  lemma RecoveryRevokes(cfg: Config, s: Evidence.State, t: Step, w: WorkerId, i: nat)
    requires Inv(cfg, s) && Enabled(cfg, s, t) && t.Recover? && t.w != w && i < |Hand(s, w)| && Hand(s, w)[i].ref == t.r
    requires Next(cfg, s, t) != s
    ensures var s' := Next(cfg, s, t);
            && Hand(s', w) == Hand(s, w)
            && !Owned(s', t.r, w, Extracting) && !Owned(s', t.r, w, Uploading) && s'.rows[t.r] != Hand(s, w)[i].row
  {
    assert SnapOk(cfg, s, w, i);
  }

  // At clock t, an idle worker can promote the reference and then claim it.
  predicate Reclaimable(cfg: Config, s: Evidence.State, r: RefId, v: WorkerId, t: int) {
    && Enabled(cfg, s, PromoteRetries(v, [r], t))
    && Enabled(cfg, Next(cfg, s, PromoteRetries(v, [r], t)), Claim(v, [r], t, 0))
  }

  /** When a reference whose extraction crashed is worked on again: not at once, as the recovery means
      it to be, but exactly when the recovery's own lease has run out, which stays on the row. */
  lemma RecoveredClaimable(cfg: Config, s: Evidence.State, w: WorkerId, r: RefId, now: int, lease: nat, v: WorkerId, t: int)
    requires Inv(cfg, s) && Enabled(cfg, s, Recover(w, r, now, lease)) && Current(s.rows[r]).Extracting? && Hand(s, v) == []
    ensures Reclaimable(cfg, Next(cfg, s, Recover(w, r, now, lease)), r, v, t) <==> now + lease <= t
  {
    assert RowOk(cfg, s.rows[r]);
    var s' := Next(cfg, s, Recover(w, r, now, lease));
    assert [r][0] == r && s'.rows[r].retryAt == None;
    assert Next(cfg, s', PromoteRetries(v, [r], t)).rows[r].leaseUntil == Some(now + lease);
  }

  /** A retry after a handled failure waits for its backoff and for the lease of the claim that failed, which
      the transition leaves on the row: the reference is worked on again exactly when both have run out. */
  lemma RetriedClaimable(cfg: Config, s: Evidence.State, w: WorkerId, retryAt: int, v: WorkerId, t: int)
    requires Inv(cfg, s) && Enabled(cfg, s, Conclude(w, Retryable(retryAt))) && v != w && Hand(s, v) == []
    requires var h := Hand(s, w)[0]; Owned(s, h.ref, w, Extracting) && h.row.attempts < cfg.maxAttempts
    ensures var h := Hand(s, w)[0];
            h.row.leaseUntil.Some?
            && (Reclaimable(cfg, Next(cfg, s, Conclude(w, Retryable(retryAt))), h.ref, v, t) <==> retryAt <= t && h.row.leaseUntil.value <= t)
  {
    assert SnapOk(cfg, s, w, 0);
    var r, s' := Hand(s, w)[0].ref, Next(cfg, s, Conclude(w, Retryable(retryAt)));
    assert [r][0] == r && s'.rows[r].retryAt == Some(retryAt) && s'.rows[r].leaseUntil == Hand(s, w)[0].row.leaseUntil;
    if Enabled(cfg, s', PromoteRetries(v, [r], t)) {
      assert Next(cfg, s', PromoteRetries(v, [r], t)).rows[r].leaseUntil == s'.rows[r].leaseUntil;
    }
  }

  // ---- the lease ----

  /** A claim lasts for its lease: another worker can recover the reference from the moment the lease has run
      out and not before. */
  lemma ClaimExcludes(cfg: Config, s: Evidence.State, w: WorkerId, r: RefId, now: int, lease: nat, v: WorkerId, t: int, l: nat)
    requires Enabled(cfg, s, Claim(w, [r], now, lease)) && v != w && Hand(s, v) == []
    ensures Enabled(cfg, Next(cfg, s, Claim(w, [r], now, lease)), Recover(v, r, t, l)) <==> now + lease <= t
  {
    assert [r][0] == r && r in [r];
  }

  // Worker w acts on r somewhere in the run.
  predicate ActsOn(cfg: Config, s: Evidence.State, steps: seq<Step>, w: WorkerId, r: RefId)
    decreases |steps|
  {
    && steps != [] && Enabled(cfg, s, steps[0])
    && ((Guarded(steps[0]) && steps[0].w == w && Hand(s, w)[0].ref == r) || ActsOn(cfg, Next(cfg, s, steps[0]), steps[1..], w, r))
  }

  // No recovery of the run reads a clock at or past the given time.
  predicate RecoversBefore(steps: seq<Step>, until: int) { forall k :: 0 <= k < |steps| && steps[k].Recover? ==> steps[k].now < until }

  // Neither handed out nor recovered.
  predicate LeftAlone(t: Step, r: RefId) { !(t.Claim? && r in t.ids) && !(t.Recover? && t.r == r) }

  lemma LeasedStep(cfg: Config, s: Evidence.State, t: Step, r: RefId, w: WorkerId)
    requires Inv(cfg, s) && Enabled(cfg, s, t) && r in s.rows && Working(s.rows[r]) && s.rows[r].owner == Some(w)
    requires !(Guarded(t) && t.w == w && Hand(s, w)[0].ref == r)
    requires t.Recover? && s.rows[r].leaseUntil.Some? ==> t.now < s.rows[r].leaseUntil.value
    ensures LeftAlone(t, r) && r in Next(cfg, s, t).rows && Next(cfg, s, t).rows[r] == s.rows[r]
  {
    assert RowOk(cfg, s.rows[r]);
    if Guarded(t) { HeadWrites(cfg, s, t); assert SnapOk(cfg, s, t.w, 0); }
  }

  /** While a lease runs on the clocks of all who recover, the reference is its holder's alone: until the
      holder acts on it, it is neither handed out nor recovered and its row stays as it was. */
  lemma {:induction false} LeaseHolds(cfg: Config, s: Evidence.State, steps: seq<Step>, r: RefId, w: WorkerId)
    requires Inv(cfg, s) && Run(cfg, s, steps).Some? && r in s.rows && Working(s.rows[r]) && s.rows[r].owner == Some(w)
    requires s.rows[r].leaseUntil.Some? ==> RecoversBefore(steps, s.rows[r].leaseUntil.value)
    requires !ActsOn(cfg, s, steps, w, r)
    ensures forall k :: 0 <= k < |steps| ==> LeftAlone(steps[k], r)
    ensures r in Run(cfg, s, steps).value.rows && Run(cfg, s, steps).value.rows[r] == s.rows[r]
    decreases |steps|
  {
    if steps != [] {
      LeasedStep(cfg, s, steps[0], r, w);
      StepKeepsInv(cfg, s, steps[0]);
      forall k | 0 <= k < |steps| - 1 ensures steps[1..][k] == steps[k + 1] {}
      LeaseHolds(cfg, Next(cfg, s, steps[0]), steps[1..], r, w);
      forall k | 0 <= k < |steps| ensures LeftAlone(steps[k], r) {
        if k > 0 { assert steps[1..][k - 1] == steps[k]; }
      }
    }
  }

  // ---- the workers and the table ----

  // The transitions the workers use, each with the event of the table it realizes.
  function EventOf(from: EvidenceStates.State, to: EvidenceStates.State): Event {
    match to
    case Queued => if from.RetryableFailure? then Event.Retry else Event.Queue
    case Extracting => Event.StartExtracting
    case Uploading => Event.ExtractionComplete
    case Finalized => Event.Finalize
    case RetryableFailure => Event.Fail
    case TerminalFailure => Event.GiveUp
    case _ => Event.Expire
  }

  predicate Used(from: EvidenceStates.State, to: EvidenceStates.State) {
    && Applies(from, EventOf(from, to), Some(from)) && EventTarget(EventOf(from, to)) == to
    && (from.Extracting? || from.Uploading? ==> !to.Expired?)
    && (from.Uploading? ==> !to.RetryableFailure?)
  }

  predicate Kept(s: Evidence.State, s': Evidence.State, r: RefId) {
    r in s.rows && r in s'.rows && (Current(s'.rows[r]) == Current(s.rows[r]) || Used(Current(s.rows[r]), Current(s'.rows[r])))
  }

  lemma BulkUses(cfg: Config, s: Evidence.State, t: Step, r: RefId)
    requires Enabled(cfg, s, t) && r in s.rows
    requires t.Create? || t.QueuePending? || t.ExpireAbandoned? || t.PromoteRetries? || t.Claim? || t.Abandon? || t.Crash?
    ensures Kept(s, Next(cfg, s, t), r)
  {
    if !t.Create? && !t.Abandon? && !t.Crash? && r in t.ids {
      var i :| 0 <= i < |t.ids| && t.ids[i] == r;
    }
  }

  lemma HeadImageUsed(cfg: Config, s: Evidence.State, t: Step)
    requires Enabled(cfg, s, t) && (t.Upload? || t.Finalize? || t.Conclude?)
    ensures Used(Current(Hand(s, t.w)[0].row), Current(HeadImage(cfg, s, t)))
  {
  }

  lemma HeadUses(cfg: Config, s: Evidence.State, t: Step, r: RefId)
    requires Inv(cfg, s) && Enabled(cfg, s, t) && r in s.rows && (t.Upload? || t.Finalize? || t.Conclude?)
    ensures Kept(s, Next(cfg, s, t), r)
  {
    HeadWrites(cfg, s, t);
    HeadImageUsed(cfg, s, t);
    assert r in Next(cfg, s, t).rows;
  }

  lemma RecoveryUses(cfg: Config, s: Evidence.State, t: Step, r: RefId)
    requires Enabled(cfg, s, t) && r in s.rows && t.Recover?
    ensures Kept(s, Next(cfg, s, t), r)
  {
  }

  lemma EveryStepUses(cfg: Config, s: Evidence.State, t: Step, r: RefId)
    requires Inv(cfg, s) && Enabled(cfg, s, t) && r in s.rows
    ensures Kept(s, Next(cfg, s, t), r)
  {
    if t.Upload? || t.Finalize? || t.Conclude? {
      HeadUses(cfg, s, t, r);
    } else if t.Recover? {
      RecoveryUses(cfg, s, t, r);
    } else {
      BulkUses(cfg, s, t, r);
    }
  }

  /** Every state change a worker commits is a transition the table declares; of the declared
      ones, a reference being extracted or uploaded is never expired, and an uploaded one never
      made retryable. */
  lemma WorkersFollowTable(cfg: Config, s: Evidence.State, t: Step, r: RefId)
    requires Inv(cfg, s) && Enabled(cfg, s, t) && r in s.rows
    ensures r in Next(cfg, s, t).rows
    ensures var from, to := Current(s.rows[r]), Current(Next(cfg, s, t).rows[r]);
            from != to ==>
              && (exists e :: Applies(from, e, Some(from)) && EventTarget(e) == to)
              && (Working(s.rows[r]) ==> !to.Expired?)
              && (from.Uploading? ==> !to.RetryableFailure?)
  {
    EveryStepUses(cfg, s, t, r);
    var from, to := Current(s.rows[r]), Current(Next(cfg, s, t).rows[r]);
    if from != to {
      assert Applies(from, EventOf(from, to), Some(from));
    }
  }

  // ---- the retry budget ----

  // Whether step t schedules a retry of r after a handled failure (recoveries are not handled).
  predicate Retries(cfg: Config, s: Evidence.State, t: Step, r: RefId)
    requires Enabled(cfg, s, t)
  {
    t.Conclude? && Hand(s, t.w)[0].ref == r && Owned(s, r, t.w, Extracting) && Current(Next(cfg, s, t).rows[r]).RetryableFailure?
  }

  function RetryCount(cfg: Config, s: Evidence.State, steps: seq<Step>, r: RefId): nat
    requires Run(cfg, s, steps).Some?
    decreases |steps|
  {
    if steps == [] then 0
    else (if Retries(cfg, s, steps[0], r) then 1 else 0) + RetryCount(cfg, Next(cfg, s, steps[0]), steps[1..], r)
  }

  // Handled retries a row can still have.
  function Budget(max: nat, m: Metadata): nat {
    var spent := m.attempts + (if Current(m).Extracting? then 0 else 1);
    if spent < max then max - spent else 0
  }

  lemma BudgetStep(cfg: Config, s: Evidence.State, t: Step, r: RefId)
    requires Inv(cfg, s) && Enabled(cfg, s, t) && r in s.rows
    ensures r in Next(cfg, s, t).rows
    ensures Budget(cfg.maxAttempts, Next(cfg, s, t).rows[r]) + (if Retries(cfg, s, t, r) then 1 else 0) <= Budget(cfg.maxAttempts, s.rows[r])
  {
    if t.Upload? || t.Finalize? || t.Conclude? { HeadWrites(cfg, s, t); }
  }

  /** Over any run a reference is retried after handled failures fewer than maxAttempts times. */
  lemma {:induction false} RetriesBounded(cfg: Config, s: Evidence.State, steps: seq<Step>, r: RefId)
    requires Inv(cfg, s) && Run(cfg, s, steps).Some? && r in s.rows
    ensures RetryCount(cfg, s, steps, r) <= Budget(cfg.maxAttempts, s.rows[r])
    ensures !Current(s.rows[r]).Extracting? && cfg.maxAttempts > 0 ==> RetryCount(cfg, s, steps, r) < cfg.maxAttempts
    decreases |steps|
  {
    if steps != [] {
      BudgetStep(cfg, s, steps[0], r);
      StepKeepsInv(cfg, s, steps[0]);
      RetriesBounded(cfg, Next(cfg, s, steps[0]), steps[1..], r);
    }
  }
}
