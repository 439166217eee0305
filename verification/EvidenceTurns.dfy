/**
What a cycle owes each claimed reference. The deeds of a worker are its steps on the references in
its hand, each with what it left on the row while the claim was held; a turn is the deeds that one
claimed reference got, and what they have to come to is read off the request and the extraction.
*/
module EvidenceTurns {
  import opened Common
  import opened EvidenceStates
  import opened Evidence

  // What the pipeline meets while processing one claimed reference.
  datatype Extraction =
    | LookupFailed | Unresolved | Raised | Cancelled | SourceGone | Corrupt | ExtractionFailed
    | Produced(segment: nat, artifact: Artifact)

  datatype Surroundings = Surroundings(
    now: int,
    lease: nat,
    batchSize: nat,                  // evidence_worker_batch_size
    candidates: nat -> seq<RefId>,
    abandoned: RefId -> bool,        // created before the cutoff
    extraction: nat -> Extraction,
    delay: nat -> nat,
    others: nat -> seq<Step>,
    committed: nat -> bool,          // does the k-th transaction commit?
    stopped: nat -> bool
  )

  // Worker w still has r to finish.
  predicate Holds(s: Evidence.State, r: RefId, w: WorkerId) { Owned(s, r, w, Extracting) || Owned(s, r, w, Uploading) }

  // One step on the head of the batch: the snapshot it went by, whether the claim was held, the row it
  // left, and whether the row's package is linked then.
  datatype Deed = Deed(snap: Snap, held: bool, after: Option<Metadata>, filed: bool)

  predicate Acts(t: Step) { t.Upload? || t.Finalize? || t.Conclude? || t.Abandon? }

  function DeedOf(cfg: Config, s: Evidence.State, t: Step): Deed
    requires Enabled(cfg, s, t) && Acts(t)
  {
    var h, s' := Hand(s, t.w)[0], Next(cfg, s, t);
    var after := if h.ref in s'.rows then Some(s'.rows[h.ref]) else None;
    Deed(h, Holds(s, h.ref, t.w), after, after.Some? && after.value.packageId.Some? && (after.value.packageId.value, h.ref) in s'.links)
  }

  function Doing(cfg: Config, s: Evidence.State, t: Step, w: WorkerId): seq<Deed>
    requires Enabled(cfg, s, t)
  {
    if Acts(t) && t.w == w then [DeedOf(cfg, s, t)] else []
  }

  // The deeds of worker w during a run, in order.
  function Deeds(cfg: Config, s: Evidence.State, steps: seq<Step>, w: WorkerId): seq<Deed>
    decreases |steps|
  {
    if steps == [] || !Enabled(cfg, s, steps[0]) then []
    else Doing(cfg, s, steps[0], w) + Deeds(cfg, Next(cfg, s, steps[0]), steps[1..], w)
  }

  lemma {:induction false} DeedsSnoc(cfg: Config, s: Evidence.State, steps: seq<Step>, t: Step, w: WorkerId)
    requires Run(cfg, s, steps).Some? && Enabled(cfg, Run(cfg, s, steps).value, t)
    ensures Deeds(cfg, s, steps + [t], w) == Deeds(cfg, s, steps, w) + Doing(cfg, Run(cfg, s, steps).value, t, w)
    decreases |steps|
  {
    if steps == [] {
      assert steps + [t] == [t] && [t][1..] == [];
    } else {
      DeedsSnoc(cfg, Next(cfg, s, steps[0]), steps[1..], t, w);
      assert (steps + [t])[0] == steps[0] && (steps + [t])[1..] == steps[1..] + [t];
    }
  }

  // ---- what a turn has to come to ----

  datatype Duty = GiveItUp | TryAgain | Deliver(checkpoint: Checkpoint) | LeaveIt

  // A storage reference and the 64 hex digits of a SHA-256 sum.
  predicate Intact(a: Artifact) {
    && a.mediaPath.Some? && |a.mediaPath.value| > 0
    && a.checksum.Some? && |a.checksum.value| == 64
    && forall c :: c in a.checksum.value ==> c in "0123456789abcdef"
  }

  lemma IntactPassesGate(a: Artifact)
    ensures Intact(a) <==> IntegrityOk(a)
  {
    forall c: char ensures c in "0123456789abcdef" <==> '0' <= c <= '9' || 'a' <= c <= 'f' { HexDigit(c); }
  }

  lemma HexDigit(c: char)
    ensures c in "0123456789abcdef" <==> '0' <= c <= '9' || 'a' <= c <= 'f'
  {
    var hex := "0123456789abcdef";
    if '0' <= c <= '9' { assert hex[c as int - '0' as int] == c; }
    if 'a' <= c <= 'f' { assert hex[c as int - 'a' as int + 10] == c; }
  }

  // By the request, the resolution, the extraction and the integrity gate.
  function DutyOf(row: Metadata, x: Extraction): Duty {
    if row.request.None? then GiveItUp
    else
      match x
      case LookupFailed => TryAgain
      case Unresolved => GiveItUp
      case Raised => TryAgain
      case Cancelled => LeaveIt
      case SourceGone => GiveItUp
      case Corrupt => GiveItUp
      case ExtractionFailed => TryAgain
      case Produced(segment, artifact) => if Intact(artifact) then Deliver(Checkpoint(segment, artifact)) else TryAgain
  }

  // Dead-lettered, or due again after the backoff while there is budget.
  predicate FailedRight(cfg: Config, x: Deed, fatal: bool, retryAt: int) {
    x.held ==>
      && x.after.Some? && x.after.value.recovery == x.snap.row.recovery
      && (if fatal || x.snap.row.attempts >= cfg.maxAttempts then Current(x.after.value).TerminalFailure?
          else Current(x.after.value).RetryableFailure? && x.after.value.retryAt == Some(retryAt))
  }

  // The checkpoint written, under the same claim.
  predicate Checkpointed(x: Deed, c: Checkpoint) {
    x.held ==>
      && x.after.Some? && Current(x.after.value).Uploading? && x.after.value.recovery == Recorded(c)
      && x.after.value.owner == x.snap.row.owner && x.after.value.request == x.snap.row.request
  }

  // Filed with the package that the request and the artifact name, dead-lettered if the builder refuses, or
  // left uploading if the session rejects the link row; with its checkpoint in any case.
  predicate FiledRight(cfg: Config, x: Deed, d: Document, c: Checkpoint) {
    x.held ==>
      && x.after.Some? && x.after.value.recovery == Recorded(c)
      && (if !cfg.accepts(d, c) then Current(x.after.value).TerminalFailure?
          else if cfg.linkAccepted then
            && Current(x.after.value).Finalized? && x.filed
            && x.after.value.packageId == Some(PackageId(d.ref, c.artifact.extraction, c.artifact.partial))
          else Current(x.after.value).Uploading? && x.after.value.packageId.None?)
  }

  predicate FailedTurn(cfg: Config, h: Snap, xs: seq<Deed>, fatal: bool, retryAt: int) {
    |xs| == 1 && xs[0].snap == h && FailedRight(cfg, xs[0], fatal, retryAt)
  }

  // The upload, and if it kept the claim the filing that goes by the uploaded row.
  predicate DeliveredTurn(cfg: Config, h: Snap, xs: seq<Deed>, c: Checkpoint, filing: bool) {
    && |xs| >= 1 && xs[0].snap == h && Checkpointed(xs[0], c)
    && if xs[0].held
       then |xs| == 2 && xs[1].snap == Snap(h.ref, xs[0].after.value) && (filing && h.row.request.Some? ==> FiledRight(cfg, xs[1], h.row.request.value, c))
       else |xs| == 1
  }

  // The k-th claimed reference got what was due to it, as far as its transactions committed.
  predicate DoneRight(cfg: Config, env: Surroundings, k: nat, h: Snap, xs: seq<Deed>) {
    match DutyOf(h.row, env.extraction(k))
    case GiveItUp => env.committed(2 * k) ==> FailedTurn(cfg, h, xs, true, 0)
    case TryAgain => env.committed(2 * k) ==> FailedTurn(cfg, h, xs, false, env.now + env.delay(2 * k))
    case Deliver(c) => env.committed(2 * k) ==> DeliveredTurn(cfg, h, xs, c, env.committed(2 * k + 1))
    case LeaveIt => |xs| == 1 && xs[0].snap == h && (xs[0].held ==> xs[0].after == Some(h.row))
  }

  // The claimed references in order, as far as the cycle got.
  predicate AllDoneRight(cfg: Config, env: Surroundings, batch: seq<Snap>, turns: seq<seq<Deed>>) {
    |turns| <= |batch| && forall k :: 0 <= k < |turns| ==> DoneRight(cfg, env, k, batch[k], turns[k])
  }

  function Flat(turns: seq<seq<Deed>>): seq<Deed> {
    if turns == [] then [] else Flat(turns[..|turns| - 1]) + turns[|turns| - 1]
  }

  lemma FlatSnoc(base: seq<Deed>, turns: seq<seq<Deed>>, xs: seq<Deed>)
    ensures base + Flat(turns + [xs]) == (base + Flat(turns)) + xs
  {
    assert (turns + [xs])[..|turns|] == turns;
  }

  // ---- recovery ----

  // A moment of the run: so many steps had been taken, and led to this state.
  datatype Moment = Moment(steps: nat, state: Evidence.State)

  predicate Was(cfg: Config, history: seq<Step>, m: Moment) { m.steps <= |history| && Run(cfg, INITIAL, history[..m.steps]) == Some(m.state) }

  // A crashed claim whose lease has run out, and that is not stuck for its link row.
  predicate Recoverable(cfg: Config, s: Evidence.State, r: RefId, now: int) {
    && r in s.rows && (Current(s.rows[r]).Extracting? || Current(s.rows[r]).Uploading?)
    && s.rows[r].leaseUntil.Some? && s.rows[r].leaseUntil.value <= now && !Unlinkable(cfg, s, r)
  }

  // The recovery sweep: the references it listed and when, and the moments it came to each of them.
  datatype RecoverySweep = RecoverySweep(listed: seq<RefId>, at: Moment, visits: seq<Moment>)

  predicate VisitRight(cfg: Config, history: seq<Step>, w: WorkerId, env: Surroundings, k: nat, r: RefId, m: Moment) {
    && Was(cfg, history, m)
    && (env.committed(k) && Recoverable(cfg, m.state, r, env.now) ==> m.steps < |history| && history[m.steps] == Recover(w, r, env.now, env.lease))
  }

  // Everything recoverable is listed unless the batch is full, and recovered when its turn comes if it still is.
  predicate RecoveryRight(cfg: Config, history: seq<Step>, w: WorkerId, env: Surroundings, x: RecoverySweep) {
    && Was(cfg, history, x.at) && |x.visits| <= |x.listed|
    && (|x.listed| >= env.batchSize || forall c :: c in env.candidates(2) && Recoverable(cfg, x.at.state, c, env.now) ==> c in x.listed)
    && forall k :: 0 <= k < |x.visits| ==> VisitRight(cfg, history, w, env, k, x.listed[k], x.visits[k])
  }

  lemma VisitStays(cfg: Config, history: seq<Step>, more: seq<Step>, w: WorkerId, env: Surroundings, k: nat, r: RefId, m: Moment)
    requires VisitRight(cfg, history, w, env, k, r, m) && history <= more
    ensures VisitRight(cfg, more, w, env, k, r, m)
  {
    assert more[..m.steps] == history[..m.steps];
  }

  lemma RecoveryMore(cfg: Config, earlier: seq<Step>, history: seq<Step>, w: WorkerId, env: Surroundings, x: RecoverySweep, m: Moment)
    requires |x.visits| < |x.listed| && earlier <= history && RecoveryRight(cfg, earlier, w, env, x)
    requires VisitRight(cfg, history, w, env, |x.visits|, x.listed[|x.visits|], m)
    ensures RecoveryRight(cfg, history, w, env, x.(visits := x.visits + [m]))
  {
    RecoveryStays(cfg, earlier, history, w, env, x);
    var y := x.(visits := x.visits + [m]);
    forall k | 0 <= k < |y.visits| ensures VisitRight(cfg, history, w, env, k, y.listed[k], y.visits[k]) {
      if k < |x.visits| { assert VisitRight(cfg, history, w, env, k, x.listed[k], x.visits[k]); }
    }
  }

  lemma RecoveryStays(cfg: Config, history: seq<Step>, more: seq<Step>, w: WorkerId, env: Surroundings, x: RecoverySweep)
    requires RecoveryRight(cfg, history, w, env, x) && history <= more
    ensures RecoveryRight(cfg, more, w, env, x)
  {
    assert more[..x.at.steps] == history[..x.at.steps];
    forall k | 0 <= k < |x.visits| ensures VisitRight(cfg, more, w, env, k, x.listed[k], x.visits[k]) {
      VisitStays(cfg, history, more, w, env, k, x.listed[k], x.visits[k]);
    }
  }
}
