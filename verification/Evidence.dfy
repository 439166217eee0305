/**
The evidence pipeline as a step relation: references with their durable metadata, packages and
their links, and the snapshots the workers hold in memory. A step is one committed transaction
of the work store, or the loss of a worker's memory. Every write of a worker is a whole-metadata
write computed from its snapshot and guarded by state and owner.
*/
module Evidence {
  import opened Common
  import opened EvidenceStates

  datatype Config = Config(
    maxAttempts: nat,
    linkAccepted: bool,                        // does the session take the link row save_finalized adds?
    accepts: (Document, Checkpoint) -> bool    // does the package builder accept, or raise its ValueError?
  )

  // A claimed reference as the worker read it.
  datatype Snap = Snap(ref: RefId, row: Metadata)

  datatype State = State(
    rows: map<RefId, Metadata>,
    packages: set<PackageId>,
    links: set<(PackageId, RefId)>,
    hands: map<WorkerId, seq<Snap>>
  )

  const INITIAL := State(map[], {}, {}, map[])

  datatype Verdict = Retryable(retryAt: int) | Fatal

  datatype Step =
    | Create(r: RefId, request: Option<Document>, recorded: bool)
    | QueuePending(w: WorkerId, ids: seq<RefId>)
    | ExpireAbandoned(w: WorkerId, ids: seq<RefId>)
    | Recover(w: WorkerId, r: RefId, now: int, lease: nat)
    | PromoteRetries(w: WorkerId, ids: seq<RefId>, now: int)
    | Claim(w: WorkerId, ids: seq<RefId>, now: int, lease: nat)
    | Upload(w: WorkerId, checkpoint: Checkpoint)
    | Finalize(w: WorkerId)
    | Conclude(w: WorkerId, verdict: Verdict)
    | Abandon(w: WorkerId)
    | Crash(w: WorkerId)

  function Hand(s: State, w: WorkerId): seq<Snap> { if w in s.hands then s.hands[w] else [] }

  predicate Working(m: Metadata) { Current(m).Extracting? || Current(m).Uploading? }

  predicate Owned(s: State, r: RefId, w: WorkerId, from: EvidenceStates.State) {
    r in s.rows && s.rows[r].state == Some(from) && s.rows[r].owner == Some(w)
  }

  predicate Stale(m: Metadata, now: int) { Working(m) && m.leaseUntil.Some? && m.leaseUntil.value <= now }

  predicate Pending(m: Metadata) { Current(m).Requested? }
  predicate Expirable(m: Metadata) { m.state == Some(Requested) || m.state == Some(Queued) }
  predicate Promotable(m: Metadata, now: int) { Current(m).RetryableFailure? && (m.retryAt.None? || m.retryAt.value <= now) }
  predicate Claimable(m: Metadata, now: int) { Current(m).Queued? && (m.leaseUntil.None? || m.leaseUntil.value <= now) }

  predicate Distinct(ids: seq<RefId>) { forall i, j :: 0 <= i < j < |ids| ==> ids[i] != ids[j] }

  function Claimed(m: Metadata, w: WorkerId, until: int): Metadata {
    m.(state := Some(Extracting), owner := Some(w), leaseUntil := Some(until), attempts := m.attempts + 1)
  }

  function ClaimedBatch(rows: map<RefId, Metadata>, ids: seq<RefId>, w: WorkerId, until: int): seq<Snap>
    requires forall i :: 0 <= i < |ids| ==> ids[i] in rows
  {
    seq(|ids|, i requires 0 <= i < |ids| => Snap(ids[i], Claimed(rows[ids[i]], w, until)))
  }

  // What resuming from a checkpoint comes to, by the branches of _finalize_from_checkpoint.
  datatype Resumption = CheckpointMissing | RequestMissing | CheckpointInvalid | IntegrityFailed | Refused | Package(id: PackageId)

  function Resume(cfg: Config, m: Metadata): Resumption {
    if m.recovery.Absent? then CheckpointMissing
    else if m.request.None? then RequestMissing
    else if m.recovery.Malformed? then CheckpointInvalid
    else if !IntegrityOk(m.recovery.checkpoint.artifact) then IntegrityFailed
    else Build(cfg, m)
  }

  function Build(cfg: Config, m: Metadata): Resumption
    requires m.request.Some? && m.recovery.Recorded?
  {
    if cfg.accepts(m.request.value, m.recovery.checkpoint) then Package(IdOf(m.request.value, m.recovery.checkpoint)) else Refused
  }

  // _package_id, before the hash: the identity inside the request, the extraction and its status.
  function IdOf(d: Document, c: Checkpoint): PackageId {
    PackageId(d.ref, c.artifact.extraction, c.artifact.partial)
  }

  function Uploaded(m: Metadata, c: Checkpoint): Metadata { Moved(m, Uploading).(recovery := Recorded(c)) }
  // save_finalized writes the state itself, past the state service.
  function Filed(m: Metadata, p: PackageId): Metadata { m.(state := Some(Finalized), packageId := Some(p)) }
  function Retried(m: Metadata, at: int): Metadata { Moved(m, RetryableFailure).(retryAt := Some(at)) }
  function Buried(m: Metadata): Metadata { Moved(m, TerminalFailure) }

  // lock_stale: the row re-claimed under its lock.
  function Locked(m: Metadata, w: WorkerId, until: int): Metadata { m.(owner := Some(w), leaseUntil := Some(until)) }

  predicate Started(s: State, w: WorkerId, from: EvidenceStates.State) { Hand(s, w) != [] && Hand(s, w)[0].row.state == Some(from) }

  predicate Enabled(cfg: Config, s: State, t: Step) {
    match t
    // The linkage stores a request on the row of the reference it names.
    case Create(r, request, _) => r !in s.rows && (request.Some? ==> request.value.ref == r)
    case QueuePending(w, ids) => Distinct(ids) && forall i :: 0 <= i < |ids| ==> ids[i] in s.rows && Pending(s.rows[ids[i]])
    case ExpireAbandoned(w, ids) => Distinct(ids) && forall i :: 0 <= i < |ids| ==> ids[i] in s.rows && Expirable(s.rows[ids[i]])
    case PromoteRetries(w, ids, now) => Distinct(ids) && forall i :: 0 <= i < |ids| ==> ids[i] in s.rows && Promotable(s.rows[ids[i]], now)
    case Claim(w, ids, now, _) =>
      Hand(s, w) == [] && Distinct(ids) && forall i :: 0 <= i < |ids| ==> ids[i] in s.rows && Claimable(s.rows[ids[i]], now)
    case Recover(w, r, now, _) => Hand(s, w) == [] && r in s.rows && Stale(s.rows[r], now)
    case Upload(w, c) => Started(s, w, Extracting) && Hand(s, w)[0].row.request.Some? && IntegrityOk(c.artifact)
    case Finalize(w) =>
      && Started(s, w, Uploading) && Hand(s, w)[0].row.request.Some? && Hand(s, w)[0].row.recovery.Recorded?
      && (Owned(s, Hand(s, w)[0].ref, w, Uploading) && Build(cfg, Hand(s, w)[0].row).Package? ==>
            cfg.linkAccepted && Build(cfg, Hand(s, w)[0].row).id !in s.packages)   // else the transaction raises
    case Conclude(w, v) => Started(s, w, Extracting) && (Hand(s, w)[0].row.request.None? ==> v.Fatal?)
    case Abandon(w) => Hand(s, w) != []
    case Crash(w) => true
  }

  function Mapped(rows: map<RefId, Metadata>, ids: seq<RefId>, f: Metadata -> Metadata): map<RefId, Metadata> {
    map r | r in rows :: if r in ids then f(rows[r]) else rows[r]
  }

  function Rest(s: State, w: WorkerId): map<WorkerId, seq<Snap>>
    requires Hand(s, w) != []
  {
    s.hands[w := Hand(s, w)[1..]]
  }

  // A finalized reference, its package row and their link, in one transaction.
  function Finished(s: State, r: RefId, m: Metadata, p: PackageId): State {
    s.(rows := s.rows[r := Filed(m, p)], packages := s.packages + {p}, links := s.links + {(p, r)})
  }

  // Recovery of one stale claim. The transition of the locked row reaches the table ahead of its own
  // guarded UPDATE, which then matches nothing, so its updates (retry_at, no lease) never do.
  function Recovered(cfg: Config, s: State, w: WorkerId, r: RefId, now: int, lease: nat): State
    requires r in s.rows
  {
    var locked := Locked(s.rows[r], w, now + lease);
    if Current(locked).Uploading? then
      match Resume(cfg, locked)
      case Package(p) => if p in s.packages || !cfg.linkAccepted then s else Finished(s, r, locked, p)   // raises, rolls back
      case _ => s.(rows := s.rows[r := Buried(locked)])
    else s.(rows := s.rows[r := Moved(locked, RetryableFailure)])
  }

  function Next(cfg: Config, s: State, t: Step): State
    requires Enabled(cfg, s, t)
  {
    match t
    case Create(r, request, recorded) =>
      s.(rows := s.rows[r := Metadata(if recorded then Some(Requested) else None, None, None, None, 0, None, Absent, request, None)])
    case QueuePending(w, ids) => s.(rows := Mapped(s.rows, ids, (m: Metadata) => m.(state := Some(Queued))))
    case ExpireAbandoned(w, ids) => s.(rows := Mapped(s.rows, ids, (m: Metadata) => m.(state := Some(Expired))))
    case PromoteRetries(w, ids, now) => s.(rows := Mapped(s.rows, ids, (m: Metadata) => m.(state := Some(Queued), retryAt := None)))
    case Claim(w, ids, now, lease) =>
      s.(rows := Mapped(s.rows, ids, (m: Metadata) => Claimed(m, w, now + lease)),
         hands := s.hands[w := ClaimedBatch(s.rows, ids, w, now + lease)])
    case Recover(w, r, now, lease) => Recovered(cfg, s, w, r, now, lease)
    case Upload(w, c) =>
      var h := Hand(s, w)[0];
      if Owned(s, h.ref, w, Extracting)
      then s.(rows := s.rows[h.ref := Uploaded(h.row, c)], hands := s.hands[w := [Snap(h.ref, Uploaded(h.row, c))] + Hand(s, w)[1..]])
      else s.(hands := Rest(s, w))
    case Finalize(w) =>
      var h := Hand(s, w)[0];
      var after := s.(hands := Rest(s, w));
      if !Owned(s, h.ref, w, Uploading) then after
      else if Build(cfg, h.row).Package? then Finished(after, h.ref, h.row, Build(cfg, h.row).id)
      else after.(rows := s.rows[h.ref := Buried(h.row)])
    case Conclude(w, v) =>
      var h := Hand(s, w)[0];
      var after := s.(hands := Rest(s, w));
      if !Owned(s, h.ref, w, Extracting) then after
      else if v.Retryable? && h.row.attempts < cfg.maxAttempts then after.(rows := s.rows[h.ref := Retried(h.row, v.retryAt)])
      else after.(rows := s.rows[h.ref := Buried(h.row)])
    case Abandon(w) => s.(hands := Rest(s, w))
    case Crash(w) => s.(hands := s.hands[w := []])
  }

  function Run(cfg: Config, s: State, steps: seq<Step>): Option<State>
    decreases |steps|
  {
    if steps == [] then Some(s)
    else if !Enabled(cfg, s, steps[0]) then None
    else Run(cfg, Next(cfg, s, steps[0]), steps[1..])
  }

  lemma {:induction false} RunAppend(cfg: Config, s: State, a: seq<Step>, b: seq<Step>)
    requires Run(cfg, s, a).Some?
    ensures Run(cfg, s, a + b) == Run(cfg, Run(cfg, s, a).value, b)
    decreases |a|
  {
    if a == [] {
      assert a + b == b;
    } else {
      assert (a + b)[0] == a[0] && (a + b)[1..] == a[1..] + b;
      RunAppend(cfg, Next(cfg, s, a[0]), a[1..], b);
    }
  }

  // ---- the invariant ----

  // A row being worked on has an owner and a lease; an uploading one can be resumed; exactly the
  // finalized ones name a package, which is the one their checkpoint builds.
  predicate RowOk(cfg: Config, m: Metadata) {
    && (Working(m) ==> m.owner.Some? && m.leaseUntil.Some?)
    && (Current(m).Uploading? || Current(m).Finalized? ==>
          m.request.Some? && m.recovery.Recorded? && IntegrityOk(m.recovery.checkpoint.artifact))
    && (Current(m).Finalized? <==> m.packageId.Some?)
    && (Current(m).Finalized? ==> cfg.linkAccepted && Build(cfg, m) == Package(m.packageId.value))
    && (m.retryAt.Some? ==> Current(m).RetryableFailure?)
  }

  // The request on a row is the row's own.
  predicate Tied(r: RefId, m: Metadata) { m.request.Some? ==> m.request.value.ref == r }

  ghost predicate RowsInv(cfg: Config, s: State) { forall r :: r in s.rows ==> RowOk(cfg, s.rows[r]) && Tied(r, s.rows[r]) }

  ghost predicate PackageInv(s: State) {
    && (forall p, r :: (p, r) in s.links ==> r in s.rows && s.rows[r].packageId == Some(p) && p in s.packages)
    && (forall r :: r in s.rows && s.rows[r].packageId.Some? ==> (s.rows[r].packageId.value, r) in s.links)
    && (forall p :: p in s.packages ==> exists r :: (p, r) in s.links)
    && (forall p, r, q :: (p, r) in s.links && (p, q) in s.links ==> r == q)
  }

  // A snapshot in a worker's hand. While the worker still owns the row being worked on, the
  // snapshot is the row.
  predicate SnapOk(cfg: Config, s: State, w: WorkerId, i: nat)
    requires i < |Hand(s, w)|
  {
    var h := Hand(s, w)[i];
    && h.ref in s.rows && h.row.owner == Some(w) && RowOk(cfg, h.row) && Tied(h.ref, h.row)
    && (if Current(h.row).Uploading? then i == 0 else Current(h.row).Extracting?)
    && (Working(s.rows[h.ref]) && s.rows[h.ref].owner == Some(w) ==> s.rows[h.ref] == h.row)
    && (forall j :: 0 <= j < i ==> Hand(s, w)[j].ref != h.ref)
  }

  ghost predicate HandInv(cfg: Config, s: State) {
    forall w: WorkerId, i: nat :: i < |Hand(s, w)| ==> SnapOk(cfg, s, w, i)
  }

  ghost predicate Inv(cfg: Config, s: State) { RowsInv(cfg, s) && PackageInv(s) && HandInv(cfg, s) }

  predicate Guarded(t: Step) { t.Upload? || t.Finalize? || t.Conclude? }

  lemma HeadRows(cfg: Config, s: State, t: Step, r: RefId)
    requires Inv(cfg, s) && Enabled(cfg, s, t) && Guarded(t) && r in Next(cfg, s, t).rows
    ensures RowOk(cfg, Next(cfg, s, t).rows[r]) && Tied(r, Next(cfg, s, t).rows[r])
  {
    assert SnapOk(cfg, s, t.w, 0);
    assert r in s.rows && RowOk(cfg, s.rows[r]) && Tied(r, s.rows[r]);
  }

  lemma ResumedRows(cfg: Config, s: State, t: Step)
    requires Inv(cfg, s) && Enabled(cfg, s, t) && t.Recover? && Current(s.rows[t.r]).Uploading?
    ensures RowOk(cfg, Next(cfg, s, t).rows[t.r]) && Tied(t.r, Next(cfg, s, t).rows[t.r])
    ensures forall r :: r in Next(cfg, s, t).rows && r != t.r ==> r in s.rows && Next(cfg, s, t).rows[r] == s.rows[r]
  {
    assert RowOk(cfg, s.rows[t.r]) && Tied(t.r, s.rows[t.r]);
  }

  lemma RequeuedRows(cfg: Config, s: State, t: Step)
    requires Inv(cfg, s) && Enabled(cfg, s, t) && t.Recover? && !Current(s.rows[t.r]).Uploading?
    ensures RowOk(cfg, Next(cfg, s, t).rows[t.r]) && Tied(t.r, Next(cfg, s, t).rows[t.r])
    ensures forall r :: r in Next(cfg, s, t).rows && r != t.r ==> r in s.rows && Next(cfg, s, t).rows[r] == s.rows[r]
  {
    assert RowOk(cfg, s.rows[t.r]) && Tied(t.r, s.rows[t.r]);
  }

  lemma RecoveredRows(cfg: Config, s: State, t: Step, r: RefId)
    requires Inv(cfg, s) && Enabled(cfg, s, t) && t.Recover? && r in Next(cfg, s, t).rows
    ensures RowOk(cfg, Next(cfg, s, t).rows[r]) && Tied(r, Next(cfg, s, t).rows[r])
  {
    if Current(s.rows[t.r]).Uploading? { ResumedRows(cfg, s, t); } else { RequeuedRows(cfg, s, t); }
    assert r != t.r ==> RowOk(cfg, s.rows[r]) && Tied(r, s.rows[r]);
  }

  lemma OtherRows(cfg: Config, s: State, t: Step, r: RefId)
    requires Inv(cfg, s) && Enabled(cfg, s, t) && !Guarded(t) && !t.Recover? && r in Next(cfg, s, t).rows
    ensures RowOk(cfg, Next(cfg, s, t).rows[r]) && Tied(r, Next(cfg, s, t).rows[r])
  {
    assert r in s.rows ==> RowOk(cfg, s.rows[r]) && Tied(r, s.rows[r]);
  }

  lemma RowsStep(cfg: Config, s: State, t: Step)
    requires Inv(cfg, s) && Enabled(cfg, s, t)
    ensures RowsInv(cfg, Next(cfg, s, t))
  {
    forall r | r in Next(cfg, s, t).rows ensures RowOk(cfg, Next(cfg, s, t).rows[r]) && Tied(r, Next(cfg, s, t).rows[r]) {
      if Guarded(t) { HeadRows(cfg, s, t, r); } else if t.Recover? { RecoveredRows(cfg, s, t, r); } else { OtherRows(cfg, s, t, r); }
    }
  }

  // The rows a step may write: everything else about it is memory.
  predicate Files(cfg: Config, s: State, t: Step, r: RefId, p: PackageId)
    requires Enabled(cfg, s, t)
  {
    || (t.Finalize? && Owned(s, Hand(s, t.w)[0].ref, t.w, Uploading) && r == Hand(s, t.w)[0].ref && Build(cfg, Hand(s, t.w)[0].row) == Package(p))
    || (t.Recover? && r == t.r && Current(s.rows[r]).Uploading? && Resume(cfg, s.rows[r]) == Package(p) && p !in s.packages && cfg.linkAccepted)
  }

  lemma FiledRow(cfg: Config, s: State, t: Step, r: RefId, p: PackageId)
    requires Inv(cfg, s) && Enabled(cfg, s, t) && Files(cfg, s, t, r, p)
    ensures var s' := Next(cfg, s, t);
            && p !in s.packages && r in s.rows && s.rows[r].packageId.None?
            && s'.rows == s.rows[r := s'.rows[r]] && s'.rows[r].packageId == Some(p)
            && s'.packages == s.packages + {p} && s'.links == s.links + {(p, r)}
  {
    if t.Finalize? { assert SnapOk(cfg, s, t.w, 0); }
  }

  predicate SamePackages(s: State, s': State) {
    && s'.packages == s.packages && s'.links == s.links
    && (forall r :: r in s.rows ==> r in s'.rows && s'.rows[r].packageId == s.rows[r].packageId)
    && (forall r :: r in s'.rows && r !in s.rows ==> s'.rows[r].packageId.None?)
  }

  lemma UnfiledHead(cfg: Config, s: State, t: Step)
    requires Inv(cfg, s) && Enabled(cfg, s, t) && Guarded(t) && forall r, p :: !Files(cfg, s, t, r, p)
    ensures SamePackages(s, Next(cfg, s, t))
  {
    assert SnapOk(cfg, s, t.w, 0);
    if t.Finalize? {
      var h := Hand(s, t.w)[0];
      if Build(cfg, h.row).Package? { assert !Files(cfg, s, t, h.ref, Build(cfg, h.row).id); }
    }
  }

  lemma UnfiledRecovery(cfg: Config, s: State, t: Step)
    requires Inv(cfg, s) && Enabled(cfg, s, t) && t.Recover? && forall r, p :: !Files(cfg, s, t, r, p)
    ensures SamePackages(s, Next(cfg, s, t))
  {
    assert Current(s.rows[t.r]).Uploading? && Resume(cfg, s.rows[t.r]).Package? ==> !Files(cfg, s, t, t.r, Resume(cfg, s.rows[t.r]).id);
  }

  lemma UnfiledBulk(cfg: Config, s: State, t: Step)
    requires Enabled(cfg, s, t) && !Guarded(t) && !t.Recover?
    ensures SamePackages(s, Next(cfg, s, t))
  {
  }

  lemma UnfiledRows(cfg: Config, s: State, t: Step)
    requires Inv(cfg, s) && Enabled(cfg, s, t) && forall r, p :: !Files(cfg, s, t, r, p)
    ensures SamePackages(s, Next(cfg, s, t))
  {
    if Guarded(t) { UnfiledHead(cfg, s, t); } else if t.Recover? { UnfiledRecovery(cfg, s, t); } else { UnfiledBulk(cfg, s, t); }
  }

  lemma OneMorePackage(s: State, s': State, r: RefId, p: PackageId)
    requires PackageInv(s) && p !in s.packages && r in s.rows && s.rows[r].packageId.None?
    requires r in s'.rows && s'.rows == s.rows[r := s'.rows[r]] && s'.rows[r].packageId == Some(p)
    requires s'.packages == s.packages + {p} && s'.links == s.links + {(p, r)}
    ensures PackageInv(s')
  {
    forall q | q in s'.packages ensures exists x :: (q, x) in s'.links {
      if q == p { assert (q, r) in s'.links; } else { var x :| (q, x) in s.links; assert (q, x) in s'.links; }
    }
  }

  lemma NoMorePackages(s: State, s': State)
    requires PackageInv(s) && SamePackages(s, s')
    ensures PackageInv(s')
  {
    assert forall q :: q in s'.packages ==> exists x :: (q, x) in s'.links;
  }

  lemma PackagesStep(cfg: Config, s: State, t: Step)
    requires Inv(cfg, s) && Enabled(cfg, s, t)
    ensures PackageInv(Next(cfg, s, t))
  {
    if r: RefId, p: PackageId :| Files(cfg, s, t, r, p) {
      FiledRow(cfg, s, t, r, p);
      OneMorePackage(s, Next(cfg, s, t), r, p);
    } else {
      UnfiledRows(cfg, s, t);
      NoMorePackages(s, Next(cfg, s, t));
    }
  }

  // A worker's step, seen from a row another worker owns or nobody owns: untouched, taken over,
  // or no longer worked on.
  lemma RowsOfOthers(cfg: Config, s: State, t: Step, w: WorkerId, r: RefId)
    requires Inv(cfg, s) && Enabled(cfg, s, t) && r in s.rows
    requires t.Create? || t.w != w || t.QueuePending? || t.ExpireAbandoned? || t.PromoteRetries?
    ensures var s' := Next(cfg, s, t);
            && r in s'.rows
            && (Working(s'.rows[r]) && s'.rows[r].owner == Some(w) ==> s'.rows[r] == s.rows[r])
  {
    if t.Upload? || t.Finalize? || t.Conclude? { assert SnapOk(cfg, s, t.w, 0); }
  }

  // A step of another worker leaves the snapshots valid.
  lemma OthersSnapshots(cfg: Config, s: State, t: Step, w: WorkerId, i: nat)
    requires Inv(cfg, s) && Enabled(cfg, s, t) && i < |Hand(s, w)|
    requires t.Create? || t.w != w || t.QueuePending? || t.ExpireAbandoned? || t.PromoteRetries?
    requires Hand(Next(cfg, s, t), w) == Hand(s, w)
    ensures SnapOk(cfg, Next(cfg, s, t), w, i)
  {
    assert SnapOk(cfg, s, w, i);
    RowsOfOthers(cfg, s, t, w, Hand(s, w)[i].ref);
  }

  lemma ClaimedSnapshots(cfg: Config, s: State, t: Step, i: nat)
    requires Inv(cfg, s) && Enabled(cfg, s, t) && t.Claim? && i < |Hand(Next(cfg, s, t), t.w)|
    ensures SnapOk(cfg, Next(cfg, s, t), t.w, i)
  {
    assert RowOk(cfg, s.rows[t.ids[i]]) && Tied(t.ids[i], s.rows[t.ids[i]]);
  }

  lemma HeadSnapshots(cfg: Config, s: State, t: Step, i: nat)
    requires Inv(cfg, s) && Enabled(cfg, s, t) && (Guarded(t) || t.Abandon?)
    requires i < |Hand(Next(cfg, s, t), t.w)|
    ensures SnapOk(cfg, Next(cfg, s, t), t.w, i)
  {
    assert SnapOk(cfg, s, t.w, 0);
    if |Hand(Next(cfg, s, t), t.w)| == |Hand(s, t.w)| {
      assert SnapOk(cfg, s, t.w, i);
    } else {
      assert SnapOk(cfg, s, t.w, i + 1);
      assert Hand(Next(cfg, s, t), t.w) == Hand(s, t.w)[1..];
    }
  }

  /** Every step of every worker keeps the invariant. */
  lemma StepKeepsInv(cfg: Config, s: State, t: Step)
    requires Inv(cfg, s) && Enabled(cfg, s, t)
    ensures Inv(cfg, Next(cfg, s, t))
  {
    RowsStep(cfg, s, t);
    PackagesStep(cfg, s, t);
    var s' := Next(cfg, s, t);
    forall w: WorkerId, i: nat | i < |Hand(s', w)| ensures SnapOk(cfg, s', w, i) {
      if t.Create? || t.w != w || t.QueuePending? || t.ExpireAbandoned? || t.PromoteRetries? {
        assert Hand(s', w) == Hand(s, w);
        OthersSnapshots(cfg, s, t, w, i);
      } else if t.Claim? {
        ClaimedSnapshots(cfg, s, t, i);
      } else if Guarded(t) || t.Abandon? {
        HeadSnapshots(cfg, s, t, i);
      }
    }
  }

  lemma {:induction false} RunKeepsInv(cfg: Config, s: State, steps: seq<Step>)
    requires Inv(cfg, s) && Run(cfg, s, steps).Some?
    ensures Inv(cfg, Run(cfg, s, steps).value)
    decreases |steps|
  {
    if steps != [] {
      StepKeepsInv(cfg, s, steps[0]);
      RunKeepsInv(cfg, Next(cfg, s, steps[0]), steps[1..]);
    }
  }

  predicate Reachable(cfg: Config, steps: seq<Step>) { Run(cfg, INITIAL, steps).Some? }

  // A package names the finalized reference it belongs to.
  lemma PackageNamesOwner(cfg: Config, s: State, p: PackageId)
    requires Inv(cfg, s) && p in s.packages
    ensures (p, p.ref) in s.links && p.ref in s.rows && Current(s.rows[p.ref]).Finalized?
  {
    var r :| (p, r) in s.links;
    assert RowOk(cfg, s.rows[r]) && Tied(r, s.rows[r]);
  }

  /** The package of an uploading reference is always new: its identity names the reference, and the
      references that packages name are finalized. */
  lemma PackageIsNew(cfg: Config, s: State, r: RefId)
    requires Inv(cfg, s) && r in s.rows && Current(s.rows[r]).Uploading? && Resume(cfg, s.rows[r]).Package?
    ensures Resume(cfg, s.rows[r]).id !in s.packages
  {
    assert Tied(r, s.rows[r]);
    forall p | p in s.packages ensures p.ref in s.rows && Current(s.rows[p.ref]).Finalized? { PackageNamesOwner(cfg, s, p); }
  }

  // Uploaded, accepted by the builder, and every finalize transaction raises.
  predicate Unlinkable(cfg: Config, s: State, r: RefId) {
    !cfg.linkAccepted && r in s.rows && Current(s.rows[r]).Uploading? && Resume(cfg, s.rows[r]).Package?
  }
}
