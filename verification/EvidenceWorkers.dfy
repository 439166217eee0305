/**
The evidence worker as the program it is, over a shared store: sessions on the durable rows,
references held as objects that the state service rewrites in place, and a cycle of five phases.
Its methods are proved to change the store only by steps of the protocol, with any other
workers running while it waits.
*/
module EvidenceWorkers {
  import opened Common
  import opened EvidenceStates
  import opened Evidence
  import opened EvidenceSafety
  import opened EvidenceTurns

  predicate Mine(w: WorkerId, t: Step) { !t.Create? && t.w == w }

  // How many references a step handles for its worker, as run_once counts them. Of the recoveries
  // only a finalizing one counts: the others fail at their own guard.
  function Handled(cfg: Config, s: Evidence.State, t: Step): nat
    requires Enabled(cfg, s, t)
  {
    match t
    case QueuePending(_, ids) => |ids|
    case ExpireAbandoned(_, ids) => |ids|
    case Recover(_, r, _, _) => if Current(Next(cfg, s, t).rows[r]).Finalized? then 1 else 0
    case Finalize(w) => if Owned(s, Hand(s, w)[0].ref, w, Uploading) then 1 else 0
    case Conclude(w, _) => if Owned(s, Hand(s, w)[0].ref, w, Extracting) then 1 else 0
    case _ => 0
  }

  function HandledBy(cfg: Config, s: Evidence.State, steps: seq<Step>, w: WorkerId): nat
    decreases |steps|
  {
    if steps == [] || !Enabled(cfg, s, steps[0]) then 0
    else (if Mine(w, steps[0]) then Handled(cfg, s, steps[0]) else 0) + HandledBy(cfg, Next(cfg, s, steps[0]), steps[1..], w)
  }

  lemma {:induction false} HandledSnoc(cfg: Config, s: Evidence.State, steps: seq<Step>, t: Step, w: WorkerId)
    requires Run(cfg, s, steps).Some? && Enabled(cfg, Run(cfg, s, steps).value, t)
    ensures Run(cfg, s, steps + [t]) == Some(Next(cfg, Run(cfg, s, steps).value, t))
    ensures HandledBy(cfg, s, steps + [t], w) == HandledBy(cfg, s, steps, w) + (if Mine(w, t) then Handled(cfg, Run(cfg, s, steps).value, t) else 0)
    decreases |steps|
  {
    if steps == [] {
      assert steps + [t] == [t] && [t][1..] == [];
    } else {
      HandledSnoc(cfg, Next(cfg, s, steps[0]), steps[1..], t, w);
      assert (steps + [t])[1..] == steps[1..] + [t];
    }
  }

  datatype Phase = Enqueuing | Expiring | Promoting | Claiming

  // The phases of its cycle a worker has carried out, in order.
  function Phases(steps: seq<Step>, w: WorkerId): seq<Phase> {
    if steps == [] then []
    else
      var last := steps[|steps| - 1];
      Phases(steps[..|steps| - 1], w) + (if Mine(w, last) then PhaseOf(last) else [])
  }

  function PhaseOf(t: Step): seq<Phase> {
    match t
    case QueuePending(_, _) => [Enqueuing]
    case ExpireAbandoned(_, _) => [Expiring]
    case PromoteRetries(_, _, _) => [Promoting]
    case Claim(_, _, _, _) => [Claiming]
    case _ => []
  }

  // The row a recovery leaves behind, and whether it counts, by the state it found.
  lemma ResumedRow(cfg: Config, s: Evidence.State, t: Step)
    requires Inv(cfg, s) && Enabled(cfg, s, t) && t.Recover? && Current(s.rows[t.r]).Uploading?
    ensures var m := Locked(s.rows[t.r], t.w, t.now + t.lease);
            && RowOk(cfg, m) && Resume(cfg, m) == Resume(cfg, s.rows[t.r])
            && match Resume(cfg, m)
               case Package(p) =>
                 p !in s.packages && cfg.linkAccepted ==>
                   Recovered(cfg, s, t.w, t.r, t.now, t.lease).rows == s.rows[t.r := Filed(m, p)] && Handled(cfg, s, t) == 1
               case Refused => Recovered(cfg, s, t.w, t.r, t.now, t.lease).rows == s.rows[t.r := Buried(m)] && Handled(cfg, s, t) == 0
               case _ => false
  {
    assert RowOk(cfg, s.rows[t.r]);
  }

  lemma RequeuedRow(cfg: Config, s: Evidence.State, t: Step)
    requires Enabled(cfg, s, t) && t.Recover? && Current(s.rows[t.r]).Extracting?
    ensures var m := Locked(s.rows[t.r], t.w, t.now + t.lease);
            && Recovered(cfg, s, t.w, t.r, t.now, t.lease).rows == s.rows[t.r := Moved(m, RetryableFailure)]
            && Handled(cfg, s, t) == 0
  {
  }

  lemma OthersKeepHand(cfg: Config, s: Evidence.State, t: Step, w: WorkerId)
    requires Enabled(cfg, s, t) && !Mine(w, t)
    ensures Hand(Next(cfg, s, t), w) == Hand(s, w)
  {
  }

  // With w's snapshot at the head, holding r means holding exactly that.
  lemma HeldAsSnapped(cfg: Config, s: Evidence.State, w: WorkerId)
    requires Inv(cfg, s) && Hand(s, w) != []
    ensures var h := Hand(s, w)[0];
            && h.ref in s.rows && RowOk(cfg, h.row) && Working(h.row)
            && (Holds(s, h.ref, w) <==> s.rows[h.ref] == h.row) && (Holds(s, h.ref, w) ==> Owned(s, h.ref, w, Current(h.row)))
  {
    assert SnapOk(cfg, s, w, 0);
  }

  // Concluding or finalizing the head settles it: written or lost, the worker holds it no more.
  lemma ConcludedReleases(cfg: Config, s: Evidence.State, t: Step)
    requires Inv(cfg, s) && Enabled(cfg, s, t) && (t.Conclude? || t.Finalize?)
    ensures var h := Hand(s, t.w)[0];
            && h.ref in s.rows && Hand(Next(cfg, s, t), t.w) == Hand(s, t.w)[1..] && !Holds(Next(cfg, s, t), h.ref, t.w)
            && Next(cfg, s, t).rows == (if Holds(s, h.ref, t.w) then s.rows[h.ref := HeadImage(cfg, s, t)] else s.rows)
            && Handled(cfg, s, t) == (if Holds(s, h.ref, t.w) then 1 else 0)
  {
    HeldAsSnapped(cfg, s, t.w);
    HeadWrites(cfg, s, t);
  }

  // The statements of a failure transaction come to the step that concludes the head.
  lemma ConclusionCommits(cfg: Config, s: Evidence.State, t: Step, handled: bool, rows: map<RefId, Metadata>)
    requires Inv(cfg, s) && Enabled(cfg, s, t) && t.Conclude?
    requires var h := Hand(s, t.w)[0];
             && handled == Owned(s, h.ref, t.w, Extracting)
             && rows == if !handled then s.rows
                        else s.rows[h.ref := if t.verdict.Fatal? || h.row.attempts >= cfg.maxAttempts then Buried(h.row) else Retried(h.row, t.verdict.retryAt)]
    ensures rows == Next(cfg, s, t).rows && Handled(cfg, s, t) == (if handled then 1 else 0)
    ensures Hand(Next(cfg, s, t), t.w) == Hand(s, t.w)[1..] && !Holds(Next(cfg, s, t), Hand(s, t.w)[0].ref, t.w)
  {
    ConcludedReleases(cfg, s, t);
    HeldAsSnapped(cfg, s, t.w);
  }

  // So do those of the finalizing transaction.
  lemma FilingCommits(cfg: Config, s: Evidence.State, t: Step, handled: bool, rows: map<RefId, Metadata>)
    requires Inv(cfg, s) && Enabled(cfg, s, t) && t.Finalize?
    requires var h := Hand(s, t.w)[0];
             && handled == Owned(s, h.ref, t.w, Uploading)
             && rows == if !handled then s.rows
                        else s.rows[h.ref := if Build(cfg, h.row).Package? then Filed(h.row, Build(cfg, h.row).id) else Buried(h.row)]
    ensures rows == Next(cfg, s, t).rows && Handled(cfg, s, t) == (if handled then 1 else 0)
    ensures Hand(Next(cfg, s, t), t.w) == Hand(s, t.w)[1..] && !Holds(Next(cfg, s, t), Hand(s, t.w)[0].ref, t.w)
  {
    ConcludedReleases(cfg, s, t);
    HeldAsSnapped(cfg, s, t.w);
  }

  // So does losing the claim at the upload; keeping it puts the uploaded row at the head.
  lemma UploadedHead(cfg: Config, s: Evidence.State, t: Step)
    requires Inv(cfg, s) && Enabled(cfg, s, t) && t.Upload?
    ensures var h := Hand(s, t.w)[0];
            && h.ref in s.rows
            && (if Holds(s, h.ref, t.w)
                then Hand(Next(cfg, s, t), t.w) == [Snap(h.ref, Uploaded(h.row, t.checkpoint))] + Hand(s, t.w)[1..]
                else Hand(Next(cfg, s, t), t.w) == Hand(s, t.w)[1..] && !Holds(Next(cfg, s, t), h.ref, t.w))
  {
    HeldAsSnapped(cfg, s, t.w);
  }

  // What the steps on the head leave, in the terms of what a turn owes.
  lemma ConcludeDeed(cfg: Config, s: Evidence.State, t: Step, retryAt: int)
    requires Inv(cfg, s) && Enabled(cfg, s, t) && t.Conclude? && (t.verdict.Retryable? ==> t.verdict.retryAt == retryAt)
    ensures FailedRight(cfg, DeedOf(cfg, s, t), t.verdict.Fatal?, retryAt)
  {
    HeldAsSnapped(cfg, s, t.w);
    HeadWrites(cfg, s, t);
  }

  lemma UploadDeed(cfg: Config, s: Evidence.State, t: Step)
    requires Inv(cfg, s) && Enabled(cfg, s, t) && t.Upload?
    ensures var x := DeedOf(cfg, s, t);
            Checkpointed(x, t.checkpoint) && (x.held ==> x.after == Some(Uploaded(Hand(s, t.w)[0].row, t.checkpoint)))
  {
    HeldAsSnapped(cfg, s, t.w);
    HeadWrites(cfg, s, t);
  }

  lemma FinalizeDeed(cfg: Config, s: Evidence.State, t: Step)
    requires Inv(cfg, s) && Enabled(cfg, s, t) && t.Finalize?
    ensures var m := Hand(s, t.w)[0].row; FiledRight(cfg, DeedOf(cfg, s, t), m.request.value, m.recovery.checkpoint)
  {
    HeldAsSnapped(cfg, s, t.w);
    HeadWrites(cfg, s, t);
  }

  lemma AbandonDeed(cfg: Config, s: Evidence.State, t: Step)
    requires Inv(cfg, s) && Enabled(cfg, s, t) && t.Abandon?
    ensures var x := DeedOf(cfg, s, t); x.held ==> x.after == Some(Hand(s, t.w)[0].row) && x.after.value.packageId.None?
  {
    HeldAsSnapped(cfg, s, t.w);
  }

  // The step just taken.
  ghost function Last(history: seq<Step>): Step { if history == [] then Crash(0) else history[|history| - 1] }

  class EvidenceStore {
    const cfg: Config
    var st: Evidence.State
    ghost var history: seq<Step>

    ghost predicate Valid()
      reads this
    {
      Run(cfg, INITIAL, history) == Some(st) && Inv(cfg, st)
    }

    constructor (cfg: Config)
      ensures Valid() && st == INITIAL && history == [] && this.cfg == cfg
    {
      this.cfg := cfg;
      st := INITIAL;
      history := [];
    }

    ghost function Count(w: WorkerId): nat
      reads this
    {
      HandledBy(cfg, INITIAL, history, w)
    }

    ghost function Cycle(w: WorkerId): seq<Phase>
      reads this
    {
      Phases(history, w)
    }

    ghost function Done(w: WorkerId): seq<Deed>
      reads this
    {
      Deeds(cfg, INITIAL, history, w)
    }

    method Take(t: Step)
      requires Valid() && Enabled(cfg, st, t)
      modifies this
      ensures Valid() && st == Next(cfg, old(st), t) && history == old(history) + [t]
      ensures forall w: WorkerId :: Count(w) == old(Count(w)) + (if Mine(w, t) then Handled(cfg, old(st), t) else 0)
      ensures forall w: WorkerId :: Cycle(w) == old(Cycle(w)) + (if Mine(w, t) then PhaseOf(t) else [])
      ensures forall w: WorkerId :: Done(w) == old(Done(w)) + Doing(cfg, old(st), t, w)
    {
      assert (history + [t])[..|history|] == history;
      forall w: WorkerId
        ensures Deeds(cfg, INITIAL, history + [t], w) == Deeds(cfg, INITIAL, history, w) + Doing(cfg, st, t, w)
      {
        DeedsSnoc(cfg, INITIAL, history, t, w);
      }
      forall w: WorkerId
        ensures HandledBy(cfg, INITIAL, history + [t], w) == HandledBy(cfg, INITIAL, history, w) + (if Mine(w, t) then Handled(cfg, st, t) else 0)
      {
        HandledSnoc(cfg, INITIAL, history, t, w);
      }
      HandledSnoc(cfg, INITIAL, history, t, 0);
      StepKeepsInv(cfg, st, t);
      st := Next(cfg, st, t);
      history := history + [t];
    }

    /** What the other workers, and whoever creates references, do meanwhile. */
    method Others(me: WorkerId, plan: seq<Step>)
      requires Valid()
      modifies this
      ensures Valid() && old(history) <= history
      ensures Hand(st, me) == Hand(old(st), me) && Count(me) == old(Count(me)) && Cycle(me) == old(Cycle(me)) && Done(me) == old(Done(me))
    {
      for k := 0 to |plan|
        invariant Valid() && old(history) <= history
        invariant Hand(st, me) == Hand(old(st), me) && Count(me) == old(Count(me)) && Cycle(me) == old(Cycle(me)) && Done(me) == old(Done(me))
      {
        if Enabled(cfg, st, plan[k]) && !Mine(me, plan[k]) {
          OthersKeepHand(cfg, st, plan[k], me);
          Take(plan[k]);
        }
      }
    }
  }

  // What the guarded UPDATE looks for.
  predicate Matches(rows: map<RefId, Metadata>, r: RefId, from: EvidenceStates.State, w: WorkerId) {
    r in rows && rows[r].state == Some(from) && rows[r].owner == Some(w)
  }

  /** One transaction of the work store. attached is the reference lock_stale returned: its in-memory
      metadata reaches the row ahead of the next statement, and at the commit. */
  class Session {
    const linkAccepted: bool
    var attached: EvidenceRefModel?
    var rows: map<RefId, Metadata>
    var packages: set<PackageId>
    var links: set<(PackageId, RefId)>

    constructor (cfg: Config, s: Evidence.State)
      ensures linkAccepted == cfg.linkAccepted && attached == null && rows == s.rows && packages == s.packages && links == s.links
    {
      linkAccepted := cfg.linkAccepted;
      attached := null;
      rows := s.rows;
      packages := s.packages;
      links := s.links;
    }

    function Flushed(): map<RefId, Metadata>
      reads this, attached
    {
      if attached == null then rows else rows[attached.refId := attached.metadata]
    }

    method LockStale(r: RefId, w: WorkerId, now: int, lease: nat) returns (locked: EvidenceRefModel?)
      requires attached == null
      modifies this`attached
      ensures locked == null <==> !(r in rows && Stale(rows[r], now))
      ensures attached == locked
      ensures locked != null ==> fresh(locked) && locked.refId == r && locked.metadata == Locked(rows[r], w, now + lease)
    {
      locked := null;
      if r in rows && Stale(rows[r], now) {
        locked := new EvidenceRefModel(r, rows[r].(owner := Some(w), leaseUntil := Some(now + lease)));
        attached := locked;
      }
    }

    /** The guarded whole-metadata UPDATE, behind the flush. */
    method PersistTransition(ref: EvidenceRefModel, from: EvidenceStates.State, to: EvidenceStates.State, w: WorkerId, updates: Metadata -> Metadata)
      returns (ok: bool)
      modifies this`rows, ref
      ensures var before := old(Flushed());
              && ok == Matches(before, ref.refId, from, w)
              && rows == if ok then before[ref.refId := ref.metadata] else before
      ensures ref.metadata == if ok then updates(old(ref.metadata)).(state := Some(to)) else old(ref.metadata)
    {
      rows := Flushed();
      var metadata := updates(ref.metadata).(state := Some(to));
      ok := Matches(rows, ref.refId, from, w);
      if ok {
        rows := rows[ref.refId := metadata];
        ref.metadata := metadata;
      }
    }

    /** Guarded transition, package row and link. Err is what raises after the guard, a link row the
        session rejects or a package key taken, and rolls the transaction back. */
    method SaveFinalized(ref: EvidenceRefModel, w: WorkerId, p: PackageId) returns (r: Result<bool, ()>)
      modifies this, ref
      ensures attached == old(attached)
      ensures var before := old(Flushed());
              var owned := Matches(before, ref.refId, Uploading, w);
              && (r == Ok(false) <==> !owned)
              && (r.Err? <==> owned && (p in old(packages) || !linkAccepted))
              && (r == Ok(true) ==> rows == before[ref.refId := ref.metadata] && ref.metadata == Filed(old(ref.metadata), p)
                                    && packages == old(packages) + {p} && links == old(links) + {(p, ref.refId)})
              && (r == Ok(false) ==> rows == before && ref.metadata == old(ref.metadata) && packages == old(packages) && links == old(links))
    {
      rows := Flushed();
      var metadata := ref.metadata.(packageId := Some(p), state := Some(Finalized));
      if !Matches(rows, ref.refId, Uploading, w) {
        return Ok(false);
      }
      if p in packages || !linkAccepted {
        return Err(());
      }
      rows := rows[ref.refId := metadata];
      packages := packages + {p};
      links := links + {(p, ref.refId)};
      ref.metadata := metadata;
      return Ok(true);
    }

    // What is pending reaches the rows with the commit.
    method Commit()
      modifies this`rows
      ensures rows == old(Flushed())
    {
      rows := Flushed();
    }
  }

  class EvidenceWorker {
    const id: WorkerId
    const d: EvidenceStore
    const service: EvidenceStateService

    constructor (id: WorkerId, d: EvidenceStore)
      ensures this.id == id && this.d == d
    {
      this.id := id;
      this.d := d;
      service := new EvidenceStateService();
    }

    // EXTRACTING/UPLOADING -> TERMINAL_FAILURE. Of a locked row the new state is flushed ahead of its
    // own guard, which then fails.
    method MarkTerminal(session: Session, ref: EvidenceRefModel) returns (ok: bool)
      requires Working(ref.metadata) && (session.attached == null || session.attached == ref)
      modifies session`rows, ref
      ensures var m, before := old(ref.metadata), old(session.rows);
              if session.attached == null
              then ok == Matches(before, ref.refId, Current(m), id) && session.rows == if ok then before[ref.refId := Buried(m)] else before
              else !ok && session.rows == before[ref.refId := Buried(m)] && ref.metadata == Buried(m)
    {
      var state := Current(ref.metadata);
      var result := service.Apply(ref, GiveUp, Some(state));
      assert result.Ok? && result.value.applied;
      ok := session.PersistTransition(ref, state, TerminalFailure, id, (m: Metadata) => m);
    }

    // EXTRACTING -> RETRYABLE_FAILURE, or TERMINAL_FAILURE when the budget is exhausted.
    method MarkRetryable(session: Session, ref: EvidenceRefModel, now: int, delay: nat) returns (ok: bool)
      requires Current(ref.metadata).Extracting? && session.attached == null
      modifies session`rows, ref
      ensures var m, before := old(ref.metadata), old(session.rows);
              && ok == Matches(before, ref.refId, Extracting, id)
              && session.rows == if !ok then before
                                 else before[ref.refId := if m.attempts < d.cfg.maxAttempts then Retried(m, now + delay) else Buried(m)]
    {
      if ref.metadata.attempts >= d.cfg.maxAttempts {
        ok := MarkTerminal(session, ref);
        return;
      }
      var result := service.Apply(ref, Fail, Some(Extracting));
      assert result.Ok? && result.value.applied;
      ok := session.PersistTransition(ref, Extracting, RetryableFailure, id, (m: Metadata) => m.(retryAt := Some(now + delay)));
    }

    // Builds the package and files it with the finalized state, in the given transaction.
    method FinalizePackage(session: Session, ref: EvidenceRefModel) returns (r: Result<bool, ()>)
      requires ref.metadata.state == Some(Uploading) && ref.metadata.request.Some? && ref.metadata.recovery.Recorded?
      requires session.attached == null || (session.attached == ref && ref.metadata.owner == Some(id))
      modifies session, ref
      ensures session.attached == old(session.attached)
      ensures var m, before, built := old(ref.metadata), old(session.rows), Build(d.cfg, old(ref.metadata));
              var owned := session.attached == ref || Matches(before, ref.refId, Uploading, id);
              && (r.Err? <==> owned && built.Package? && (built.id in old(session.packages) || !session.linkAccepted))
              && (r.Ok? ==>
                    && r.value == (owned && (built.Package? || session.attached == null))
                    && session.rows == (if !owned then before else before[ref.refId := if built.Package? then Filed(m, built.id) else Buried(m)])
                    && (session.attached == ref ==> session.rows[ref.refId] == ref.metadata)
                    && session.packages == (if owned && built.Package? then old(session.packages) + {built.id} else old(session.packages))
                    && session.links == (if owned && built.Package? then old(session.links) + {(built.id, ref.refId)} else old(session.links)))
    {
      if !d.cfg.accepts(ref.metadata.request.value, ref.metadata.recovery.checkpoint) {
        var ok := MarkTerminal(session, ref);
        return Ok(ok);
      }
      r := session.SaveFinalized(ref, id, IdOf(ref.metadata.request.value, ref.metadata.recovery.checkpoint));
    }

    // Resumes a crashed-after-upload reference. The branches for a missing or damaged checkpoint
    // are proved dead: the invariant leaves the builder's verdict alone to decide.
    method FinalizeFromCheckpoint(session: Session, ref: EvidenceRefModel) returns (r: Result<bool, ()>)
      requires RowOk(d.cfg, ref.metadata) && ref.metadata.state == Some(Uploading)
      requires session.attached == ref && ref.metadata.owner == Some(id)
      modifies session, ref
      ensures session.attached == old(session.attached)
      ensures r.Ok? ==> ref.refId in session.rows && session.rows[ref.refId] == ref.metadata
      ensures match Resume(d.cfg, old(ref.metadata))
              case Package(p) =>
                && (r.Err? <==> p in old(session.packages) || !session.linkAccepted)
                && (r.Ok? ==> r.value && session.rows == old(session.rows)[ref.refId := Filed(old(ref.metadata), p)]
                              && session.packages == old(session.packages) + {p} && session.links == old(session.links) + {(p, ref.refId)})
              case Refused =>
                && r == Ok(false) && session.packages == old(session.packages) && session.links == old(session.links)
                && session.rows == old(session.rows)[ref.refId := Buried(old(ref.metadata))]
              case _ => false
    {
      assert ref.metadata.recovery.Recorded? && ref.metadata.request.Some? && IntegrityOk(ref.metadata.recovery.checkpoint.artifact);
      r := FinalizePackage(session, ref);
    }

    // COMMIT of a recovery transaction.
    method CommitRecovery(session: Session, locked: EvidenceRefModel, t: Step, moved: bool)
      requires d.Valid() && t.Recover? && t.w == id && Enabled(d.cfg, d.st, t)
      requires session.attached == locked && locked.refId in session.rows && session.rows[locked.refId] == locked.metadata
      requires session.rows == Recovered(d.cfg, d.st, id, t.r, t.now, t.lease).rows
      requires moved <==> Handled(d.cfg, d.st, t) == 1
      modifies d, session`rows
      ensures d.Valid() && old(d.history) <= d.history && d.Done(id) == old(d.Done(id)) && Hand(d.st, id) == [] && d.st.rows == session.rows == old(session.rows)
      ensures d.Count(id) == old(d.Count(id)) + (if moved then 1 else 0) && d.Cycle(id) == old(d.Cycle(id))
      ensures d.history == old(d.history) + [t]
    {
      session.Commit();
      assert session.rows == old(session.rows);
      d.Take(t);
    }

    // The crashed-after-upload case of a recovery transaction.
    method ResumeStale(session: Session, locked: EvidenceRefModel, ghost row: Metadata, t: Step) returns (handled: bool)
      requires d.Valid() && t.Recover? && t.w == id && Enabled(d.cfg, d.st, t)
      requires row == d.st.rows[t.r] && Current(row).Uploading? && session.linkAccepted == d.cfg.linkAccepted
      requires session.attached == locked && locked.refId == t.r && locked.metadata == Locked(row, id, t.now + t.lease)
      requires session.rows == d.st.rows && session.packages == d.st.packages && session.links == d.st.links
      modifies d, session, locked
      ensures d.Valid() && old(d.history) <= d.history && d.Done(id) == old(d.Done(id)) && Hand(d.st, id) == []
      ensures d.Count(id) == old(d.Count(id)) + (if handled then 1 else 0) && d.Cycle(id) == old(d.Cycle(id))
      ensures t.r in d.st.rows && (!Working(d.st.rows[t.r]) || Unlinkable(d.cfg, d.st, t.r))
      ensures d.history == if Unlinkable(d.cfg, old(d.st), t.r) then old(d.history) else old(d.history) + [t]
    {
      ResumedRow(d.cfg, d.st, t);
      if Resume(d.cfg, row).Package? { PackageIsNew(d.cfg, d.st, t.r); }
      var filed := FinalizeFromCheckpoint(session, locked);
      if filed.Err? {
        return false;
      }
      handled := filed.value;
      CommitRecovery(session, locked, t, handled);
    }

    method Requeue(session: Session, locked: EvidenceRefModel, now: int) returns (ok: bool)
      requires session.attached == locked && Current(locked.metadata).Extracting?
      modifies session`rows, locked
      ensures !ok && locked.metadata == Moved(old(locked.metadata), RetryableFailure)
      ensures session.rows == old(session.rows)[locked.refId := locked.metadata]
    {
      var result := service.Apply(locked, Fail, Some(Extracting));
      assert result.Ok? && result.value.applied;
      ok := session.PersistTransition(locked, Extracting, RetryableFailure, id, (m: Metadata) => m.(retryAt := Some(now), leaseUntil := None));
    }

    // The crashed-mid-extraction case: back to RETRYABLE_FAILURE, under the recovery's lease.
    method RequeueStale(session: Session, locked: EvidenceRefModel, ghost row: Metadata, t: Step) returns (handled: bool)
      requires d.Valid() && t.Recover? && t.w == id && Enabled(d.cfg, d.st, t)
      requires row == d.st.rows[t.r] && Current(row).Extracting?
      requires session.attached == locked && locked.refId == t.r && locked.metadata == Locked(row, id, t.now + t.lease)
      requires session.rows == d.st.rows
      modifies d, session`rows, locked
      ensures d.Valid() && old(d.history) <= d.history && d.Done(id) == old(d.Done(id)) && Hand(d.st, id) == []
      ensures d.Count(id) == old(d.Count(id)) + (if handled then 1 else 0) && d.Cycle(id) == old(d.Cycle(id))
      ensures t.r in d.st.rows && !Working(d.st.rows[t.r]) && d.history == old(d.history) + [t]
    {
      RequeuedRow(d.cfg, d.st, t);
      handled := Requeue(session, locked, t.now);
      CommitRecovery(session, locked, t, handled);
    }

    /** Recovery of one stale claim, in one transaction under the row lock: once it commits the row is
        not stale any more, unless it only waits for a link row the session rejects. */
    method RecoverStale(r: RefId, env: Surroundings, k: nat) returns (handled: bool)
      requires d.Valid() && Hand(d.st, id) == []
      modifies d
      ensures d.Valid() && old(d.history) <= d.history && d.Done(id) == old(d.Done(id)) && Hand(d.st, id) == []
      ensures d.Count(id) == old(d.Count(id)) + (if handled then 1 else 0) && d.Cycle(id) == old(d.Cycle(id))
      ensures env.committed(k) && r in d.st.rows ==> !Stale(d.st.rows[r], env.now) || Unlinkable(d.cfg, d.st, r)
      ensures d.history == if env.committed(k) && Recoverable(d.cfg, old(d.st), r, env.now) then old(d.history) + [Recover(id, r, env.now, env.lease)]
                           else old(d.history)
    {
      handled := false;
      if !env.committed(k) { return; }
      var session := new Session(d.cfg, d.st);
      var locked := session.LockStale(r, id, env.now, env.lease);
      if locked == null { return; }
      var t := Recover(id, r, env.now, env.lease);
      if Current(locked.metadata).Uploading? {
        handled := ResumeStale(session, locked, d.st.rows[r], t);
      } else {
        handled := RequeueStale(session, locked, d.st.rows[r], t);
      }
    }

    // The head is left to its lease.
    method AbandonHead() returns (ghost x: Deed)
      requires d.Valid() && Hand(d.st, id) != []
      modifies d
      ensures d.Valid() && old(d.history) <= d.history && Hand(d.st, id) == Hand(old(d.st), id)[1..] && d.st.rows == old(d.st).rows
      ensures d.Count(id) == old(d.Count(id)) && d.Cycle(id) == old(d.Cycle(id)) && d.Done(id) == old(d.Done(id)) + [x]
      ensures x.snap == Hand(old(d.st), id)[0] && x.held == Holds(old(d.st), x.snap.ref, id)
      ensures x.held ==> x.after == Some(x.snap.row) && x.snap.row.packageId.None?
    {
      AbandonDeed(d.cfg, d.st, Abandon(id));
      x := DeedOf(d.cfg, d.st, Abandon(id));
      d.Take(Abandon(id));
    }

    // One failure transaction for the head of the batch.
    method FailHead(ref: EvidenceRefModel, fatal: bool, env: Surroundings, k: nat) returns (handled: bool, ghost x: Deed)
      requires d.Valid() && Hand(d.st, id) != [] && Hand(d.st, id)[0] == Snap(ref.refId, ref.metadata)
      requires ref.metadata.state == Some(Extracting) && (ref.metadata.request.None? ==> fatal)
      modifies d, ref
      ensures d.Valid() && old(d.history) <= d.history && Hand(d.st, id) == Hand(old(d.st), id)[1..]
      ensures d.Count(id) == old(d.Count(id)) + (if handled then 1 else 0) && d.Cycle(id) == old(d.Cycle(id))
      ensures env.committed(k) ==> !Holds(d.st, ref.refId, id)
      ensures d.Done(id) == old(d.Done(id)) + [x] && x.snap == Hand(old(d.st), id)[0]
      ensures env.committed(k) ==> FailedRight(d.cfg, x, fatal, env.now + env.delay(k))
    {
      handled := false;
      if !env.committed(k) {
        x := AbandonHead();
        return;
      }
      var t := Conclude(id, if fatal then Fatal else Retryable(env.now + env.delay(k)));
      ghost var rows;
      handled, rows := FailInSession(ref, fatal, env.now, env.delay(k));
      ConclusionCommits(d.cfg, d.st, t, handled, rows);
      ConcludeDeed(d.cfg, d.st, t, env.now + env.delay(k));
      x := DeedOf(d.cfg, d.st, t);
      d.Take(t);
    }

    // The statements of that transaction; they come to what the protocol step says.
    method FailInSession(ref: EvidenceRefModel, fatal: bool, now: int, delay: nat) returns (handled: bool, ghost rows: map<RefId, Metadata>)
      requires ref.metadata.state == Some(Extracting)
      modifies ref
      ensures handled == Owned(d.st, ref.refId, id, Extracting)
      ensures var m := old(ref.metadata);
              rows == if !handled then d.st.rows
                      else d.st.rows[ref.refId := if fatal || m.attempts >= d.cfg.maxAttempts then Buried(m) else Retried(m, now + delay)]
    {
      var session := new Session(d.cfg, d.st);
      if fatal {
        handled := MarkTerminal(session, ref);
      } else {
        handled := MarkRetryable(session, ref, now, delay);
      }
      rows := session.rows;
    }

    // The upload checkpoint: EXTRACTING -> UPLOADING with the recovery record.
    method UploadHead(ref: EvidenceRefModel, c: Checkpoint, env: Surroundings, k: nat) returns (ok: bool, ghost x: Deed)
      requires d.Valid() && Hand(d.st, id) != [] && Hand(d.st, id)[0] == Snap(ref.refId, ref.metadata)
      requires ref.metadata.state == Some(Extracting) && ref.metadata.request.Some? && IntegrityOk(c.artifact)
      modifies d, ref
      ensures d.Valid() && old(d.history) <= d.history && d.Count(id) == old(d.Count(id)) && d.Cycle(id) == old(d.Cycle(id))
      ensures ok ==> Hand(d.st, id) == [Snap(ref.refId, ref.metadata)] + Hand(old(d.st), id)[1..]
                     && ref.metadata == Uploaded(old(ref.metadata), c)
      ensures !ok ==> Hand(d.st, id) == Hand(old(d.st), id)[1..]
      ensures env.committed(k) && !ok ==> !Holds(d.st, ref.refId, id)
      ensures d.Done(id) == old(d.Done(id)) + [x] && x.snap == Hand(old(d.st), id)[0]
      ensures env.committed(k) ==> Checkpointed(x, c) && (ok <==> x.held)
      ensures ok ==> x.after == Some(ref.metadata)
    {
      if !env.committed(k) {
        x := AbandonHead();
        return false, x;
      }
      HeldAsSnapped(d.cfg, d.st, id);
      UploadedHead(d.cfg, d.st, Upload(id, c));
      ghost var rows;
      ok, rows := UploadInSession(ref, c);
      assert rows == Next(d.cfg, d.st, Upload(id, c)).rows;
      UploadDeed(d.cfg, d.st, Upload(id, c));
      x := DeedOf(d.cfg, d.st, Upload(id, c));
      d.Take(Upload(id, c));
    }

    method UploadInSession(ref: EvidenceRefModel, c: Checkpoint) returns (ok: bool, ghost rows: map<RefId, Metadata>)
      requires ref.metadata.state == Some(Extracting)
      modifies ref
      ensures ok == Owned(d.st, ref.refId, id, Extracting)
      ensures rows == if ok then d.st.rows[ref.refId := Uploaded(old(ref.metadata), c)] else d.st.rows
      ensures ok ==> ref.metadata == Uploaded(old(ref.metadata), c)
    {
      var session := new Session(d.cfg, d.st);
      var result := service.Apply(ref, ExtractionComplete, Some(Extracting));
      assert result.Ok? && result.value.applied;
      ok := session.PersistTransition(ref, Extracting, Uploading, id, (m: Metadata) => m.(recovery := Recorded(c)));
      rows := session.rows;
    }

    method FinalizeHead(ref: EvidenceRefModel, env: Surroundings, k: nat) returns (handled: bool, ghost x: Deed)
      requires d.Valid() && Hand(d.st, id) != [] && Hand(d.st, id)[0] == Snap(ref.refId, ref.metadata)
      requires ref.metadata.state == Some(Uploading) && ref.metadata.request.Some? && ref.metadata.recovery.Recorded?
      modifies d, ref
      ensures d.Valid() && old(d.history) <= d.history && Hand(d.st, id) == Hand(old(d.st), id)[1..]
      ensures d.Count(id) == old(d.Count(id)) + (if handled then 1 else 0) && d.Cycle(id) == old(d.Cycle(id))
      ensures env.committed(k) ==> !Holds(d.st, ref.refId, id) || Unlinkable(d.cfg, d.st, ref.refId)
      ensures d.Done(id) == old(d.Done(id)) + [x] && x.snap == Hand(old(d.st), id)[0]
      ensures env.committed(k) ==> FiledRight(d.cfg, x, x.snap.row.request.value, x.snap.row.recovery.checkpoint)
    {
      if !env.committed(k) {
        x := AbandonHead();
        return false, x;
      }
      HeldAsSnapped(d.cfg, d.st, id);
      if Holds(d.st, ref.refId, id) && Build(d.cfg, ref.metadata).Package? { PackageIsNew(d.cfg, d.st, ref.refId); }
      var filed;
      ghost var rows;
      filed, rows := FinalizeInSession(ref);
      if filed.Err? {
        x := AbandonHead();
        return false, x;
      }
      handled := filed.value;
      x := CommitFiling(handled, rows);
    }

    // COMMIT of the finalizing transaction.
    method CommitFiling(handled: bool, ghost rows: map<RefId, Metadata>) returns (ghost x: Deed)
      requires d.Valid() && Enabled(d.cfg, d.st, Step.Finalize(id))
      requires var h := Hand(d.st, id)[0];
               && handled == Owned(d.st, h.ref, id, Uploading)
               && rows == if !handled then d.st.rows
                          else d.st.rows[h.ref := if Build(d.cfg, h.row).Package? then Filed(h.row, Build(d.cfg, h.row).id) else Buried(h.row)]
      modifies d
      ensures d.Valid() && old(d.history) <= d.history && Hand(d.st, id) == Hand(old(d.st), id)[1..] && d.st.rows == rows
      ensures d.Count(id) == old(d.Count(id)) + (if handled then 1 else 0) && d.Cycle(id) == old(d.Cycle(id))
      ensures !Holds(d.st, Hand(old(d.st), id)[0].ref, id)
      ensures d.Done(id) == old(d.Done(id)) + [x] && x.snap == Hand(old(d.st), id)[0]
      ensures FiledRight(d.cfg, x, x.snap.row.request.value, x.snap.row.recovery.checkpoint)
    {
      var t := Step.Finalize(id);
      FilingCommits(d.cfg, d.st, t, handled, rows);
      FinalizeDeed(d.cfg, d.st, t);
      x := DeedOf(d.cfg, d.st, t);
      d.Take(t);
    }

    method FinalizeInSession(ref: EvidenceRefModel) returns (r: Result<bool, ()>, ghost rows: map<RefId, Metadata>)
      requires ref.metadata.state == Some(Uploading) && ref.metadata.request.Some? && ref.metadata.recovery.Recorded?
      modifies ref
      ensures var m := old(ref.metadata);
              var owned, built := Owned(d.st, ref.refId, id, Uploading), Build(d.cfg, m);
              && (r.Err? <==> owned && built.Package? && (built.id in d.st.packages || !d.cfg.linkAccepted))
              && (r.Ok? ==> r.value == owned)
              && (r.Ok? ==> rows == if !owned then d.st.rows
                                    else d.st.rows[ref.refId := if built.Package? then Filed(m, built.id) else Buried(m)])
    {
      var session := new Session(d.cfg, d.st);
      r := FinalizePackage(session, ref);
      rows := session.rows;
    }

    // The last two stages, for an artifact that passed the integrity gate.
    method DeliverHead(ref: EvidenceRefModel, c: Checkpoint, env: Surroundings, k: nat) returns (handled: bool, ghost xs: seq<Deed>)
      requires d.Valid() && Hand(d.st, id) != [] && Hand(d.st, id)[0] == Snap(ref.refId, ref.metadata)
      requires ref.metadata.state == Some(Extracting) && ref.metadata.request.Some? && IntegrityOk(c.artifact)
      modifies d, ref
      ensures d.Valid() && old(d.history) <= d.history && Hand(d.st, id) == Hand(old(d.st), id)[1..]
      ensures d.Count(id) == old(d.Count(id)) + (if handled then 1 else 0) && d.Cycle(id) == old(d.Cycle(id))
      ensures env.committed(2 * k) && env.committed(2 * k + 1) ==> !Holds(d.st, ref.refId, id) || Unlinkable(d.cfg, d.st, ref.refId)
      ensures d.Done(id) == old(d.Done(id)) + xs
      ensures env.committed(2 * k) ==> DeliveredTurn(d.cfg, Hand(old(d.st), id)[0], xs, c, env.committed(2 * k + 1))
    {
      var ok;
      ghost var x, y;
      ok, x := UploadHead(ref, c, env, 2 * k);
      if !ok { return false, [x]; }
      d.Others(id, env.others(2 * k + 1));
      handled, y := FinalizeHead(ref, env, 2 * k + 1);
      xs := [x, y];
    }

    /** One claimed reference through the pipeline: resolve, extract, check, upload, finalize. The
        reference gets what its request and its extraction call for, as far as the transactions
        commit: dead-lettered, due again, or checkpointed and filed. If they do and the extraction is
        not cancelled, the worker is done with it: it has concluded it or lost it, unless the session
        rejects the link row. */
    method ProcessClaimed(env: Surroundings, k: nat) returns (handled: bool, ghost xs: seq<Deed>)
      requires d.Valid() && Hand(d.st, id) != [] && Hand(d.st, id)[0].row.state == Some(Extracting)
      modifies d
      ensures d.Valid() && old(d.history) <= d.history && Hand(d.st, id) == Hand(old(d.st), id)[1..]
      ensures d.Count(id) == old(d.Count(id)) + (if handled then 1 else 0) && d.Cycle(id) == old(d.Cycle(id))
      ensures var h := Hand(old(d.st), id)[0];
              env.committed(2 * k) && env.committed(2 * k + 1) && (h.row.request.None? || !env.extraction(k).Cancelled?) ==>
                !Holds(d.st, h.ref, id) || Unlinkable(d.cfg, d.st, h.ref)
      ensures d.Done(id) == old(d.Done(id)) + xs && DoneRight(d.cfg, env, k, Hand(old(d.st), id)[0], xs)
    {
      var h := Hand(d.st, id)[0];
      var ref := new EvidenceRefModel(h.ref, h.row);
      if ref.metadata.request.None? {
        handled, xs := FailTurn(ref, true, env, k);
        return;
      }
      d.Others(id, env.others(2 * k));
      handled, xs := ProcessExtraction(ref, env, k);
    }

    method FailTurn(ref: EvidenceRefModel, fatal: bool, env: Surroundings, k: nat) returns (handled: bool, ghost xs: seq<Deed>)
      requires d.Valid() && Hand(d.st, id) != [] && Hand(d.st, id)[0] == Snap(ref.refId, ref.metadata)
      requires ref.metadata.state == Some(Extracting) && (ref.metadata.request.None? ==> fatal)
      modifies d, ref
      ensures d.Valid() && old(d.history) <= d.history && Hand(d.st, id) == Hand(old(d.st), id)[1..]
      ensures d.Count(id) == old(d.Count(id)) + (if handled then 1 else 0) && d.Cycle(id) == old(d.Cycle(id))
      ensures env.committed(2 * k) ==> !Holds(d.st, ref.refId, id)
      ensures d.Done(id) == old(d.Done(id)) + xs
      ensures env.committed(2 * k) ==> FailedTurn(d.cfg, Hand(old(d.st), id)[0], xs, fatal, env.now + env.delay(2 * k))
    {
      ghost var x;
      handled, x := FailHead(ref, fatal, env, 2 * k);
      xs := [x];
    }

    // By how the resolution and the extraction went.
    method ProcessExtraction(ref: EvidenceRefModel, env: Surroundings, k: nat) returns (handled: bool, ghost xs: seq<Deed>)
      requires d.Valid() && Hand(d.st, id) != [] && Hand(d.st, id)[0] == Snap(ref.refId, ref.metadata)
      requires ref.metadata.state == Some(Extracting) && ref.metadata.request.Some?
      modifies d, ref
      ensures d.Valid() && old(d.history) <= d.history && Hand(d.st, id) == Hand(old(d.st), id)[1..]
      ensures d.Count(id) == old(d.Count(id)) + (if handled then 1 else 0) && d.Cycle(id) == old(d.Cycle(id))
      ensures env.committed(2 * k) && env.committed(2 * k + 1) && !env.extraction(k).Cancelled? ==>
                !Holds(d.st, ref.refId, id) || Unlinkable(d.cfg, d.st, ref.refId)
      ensures d.Done(id) == old(d.Done(id)) + xs && DoneRight(d.cfg, env, k, Hand(old(d.st), id)[0], xs)
    {
      match env.extraction(k) {
        case LookupFailed => handled, xs := FailTurn(ref, false, env, k);
        case Unresolved => handled, xs := FailTurn(ref, true, env, k);
        case Raised => handled, xs := FailTurn(ref, false, env, k);
        case Cancelled =>
          ghost var x := AbandonHead();
          handled, xs := false, [x];
        case SourceGone => handled, xs := FailTurn(ref, true, env, k);
        case Corrupt => handled, xs := FailTurn(ref, true, env, k);
        case ExtractionFailed => handled, xs := FailTurn(ref, false, env, k);
        case Produced(segment, artifact) =>
          IntactPassesGate(artifact);
          if IntegrityOk(artifact) {
            handled, xs := DeliverHead(ref, Checkpoint(segment, artifact), env, k);
          } else {
            handled, xs := FailTurn(ref, false, env, k);
          }
      }
    }

    // SELECT ... FOR UPDATE SKIP LOCKED LIMIT batch_size: distinct rows satisfying the predicate.
    method Select(limit: nat, candidates: seq<RefId>, matches: (RefId, Metadata) -> bool) returns (ids: seq<RefId>)
      ensures |ids| <= limit && Distinct(ids)
      ensures forall i :: 0 <= i < |ids| ==> ids[i] in candidates && ids[i] in d.st.rows && matches(ids[i], d.st.rows[ids[i]])
      ensures |ids| == limit || forall c :: c in candidates && c in d.st.rows && matches(c, d.st.rows[c]) ==> c in ids
    {
      ids := [];
      for k := 0 to |candidates|
        invariant |ids| <= limit && Distinct(ids)
        invariant forall i :: 0 <= i < |ids| ==> ids[i] in candidates && ids[i] in d.st.rows && matches(ids[i], d.st.rows[ids[i]])
        invariant |ids| == limit || forall c :: c in candidates[..k] && c in d.st.rows && matches(c, d.st.rows[c]) ==> c in ids
      {
        var c := candidates[k];
        if |ids| < limit && c in d.st.rows && matches(c, d.st.rows[c]) && c !in ids {
          ids := ids + [c];
        }
      }
      assert candidates[..|candidates|] == candidates;
    }

    method Enqueue(env: Surroundings) returns (n: nat)
      requires d.Valid()
      modifies d
      ensures d.Valid() && old(d.history) <= d.history && d.Done(id) == old(d.Done(id)) && Hand(d.st, id) == Hand(old(d.st), id)
      ensures d.Count(id) == old(d.Count(id)) + n
      ensures d.Cycle(id) == old(d.Cycle(id)) + [Enqueuing]
      ensures n < env.batchSize ==> forall c :: c in env.candidates(0) && c in d.st.rows ==> d.st.rows[c].state != None && d.st.rows[c].state != Some(Requested)
    {
      var queued := Select(env.batchSize, env.candidates(0), (r: RefId, m: Metadata) => Pending(m));
      d.Take(QueuePending(id, queued));
      n := |queued|;
    }

    // Abandoned references only, and all of them unless the batch is full.
    method ExpireOld(env: Surroundings) returns (n: nat)
      requires d.Valid()
      modifies d
      ensures d.Valid() && old(d.history) <= d.history && d.Done(id) == old(d.Done(id)) && Hand(d.st, id) == Hand(old(d.st), id)
      ensures d.Count(id) == old(d.Count(id)) + n
      ensures d.Cycle(id) == old(d.Cycle(id)) + [Expiring]
      ensures n < env.batchSize ==> forall c :: c in env.candidates(1) && c in d.st.rows && env.abandoned(c) ==>
                d.st.rows[c].state != Some(Requested) && d.st.rows[c].state != Some(Queued)
      ensures var t := Last(d.history); t.ExpireAbandoned? && t.w == id && |t.ids| == n && forall i :: 0 <= i < n ==> env.abandoned(t.ids[i])
    {
      d.Others(id, env.others(0));
      var expired := Select(env.batchSize, env.candidates(1), (r: RefId, m: Metadata) => Expirable(m) && env.abandoned(r));
      d.Take(ExpireAbandoned(id, expired));
      n := |expired|;
    }

    method ListStale(env: Surroundings) returns (stale: seq<RefId>, ghost at: Moment)
      requires d.Valid() && Hand(d.st, id) == []
      modifies d
      ensures d.Valid() && old(d.history) <= d.history && d.Done(id) == old(d.Done(id)) && Hand(d.st, id) == []
      ensures d.Count(id) == old(d.Count(id)) && d.Cycle(id) == old(d.Cycle(id))
      ensures RecoveryRight(d.cfg, d.history, id, env, RecoverySweep(stale, at, []))
    {
      d.Others(id, env.others(1));
      stale := Select(env.batchSize, env.candidates(2), (r: RefId, m: Metadata) => Stale(m, env.now));
      at := Moment(|d.history|, d.st);
      assert d.history[..|d.history|] == d.history;
    }

    // Every stale claim listed is visited in turn, and recovered if it still is one.
    method RecoverAll(env: Surroundings) returns (n: nat, k: nat, ghost x: RecoverySweep)
      requires d.Valid() && Hand(d.st, id) == []
      modifies d
      ensures d.Valid() && old(d.history) <= d.history && d.Done(id) == old(d.Done(id)) && Hand(d.st, id) == []
      ensures d.Count(id) == old(d.Count(id)) + n
      ensures d.Cycle(id) == old(d.Cycle(id))
      ensures RecoveryRight(d.cfg, d.history, id, env, x) && ((forall i :: !env.stopped(i)) ==> |x.visits| == |x.listed|)
    {
      var stale;
      ghost var at;
      stale, at := ListStale(env);
      k, n := 0, 0;
      x := RecoverySweep(stale, at, []);
      while k < |stale| && !env.stopped(2 + k)
        invariant d.Valid() && old(d.history) <= d.history && Hand(d.st, id) == [] && d.Done(id) == old(d.Done(id))
        invariant d.Count(id) == old(d.Count(id)) + n && d.Cycle(id) == old(d.Cycle(id))
        invariant x.listed == stale && k == |x.visits| <= |stale| && RecoveryRight(d.cfg, d.history, id, env, x)
      {
        var ok;
        ok, x := RecoverNext(env, stale[k], k, x);
        if ok { n := n + 1; }
        k := k + 1;
      }
    }

    method RecoverNext(env: Surroundings, r: RefId, k: nat, ghost x: RecoverySweep) returns (handled: bool, ghost y: RecoverySweep)
      requires d.Valid() && Hand(d.st, id) == []
      requires k == |x.visits| < |x.listed| && x.listed[k] == r && RecoveryRight(d.cfg, d.history, id, env, x)
      modifies d
      ensures d.Valid() && old(d.history) <= d.history && d.Done(id) == old(d.Done(id)) && Hand(d.st, id) == []
      ensures d.Count(id) == old(d.Count(id)) + (if handled then 1 else 0) && d.Cycle(id) == old(d.Cycle(id))
      ensures y.listed == x.listed && |y.visits| == k + 1 && RecoveryRight(d.cfg, d.history, id, env, y)
    {
      d.Others(id, env.others(2 + k));
      ghost var before, m := d.history, Moment(|d.history|, d.st);
      handled := RecoverStale(r, env, k);
      assert d.history[..m.steps] == before;
      y := x.(visits := x.visits + [m]);
      RecoveryMore(d.cfg, old(d.history), d.history, id, env, x, m);
    }

    method Promote(env: Surroundings, k: nat)
      requires d.Valid()
      modifies d
      ensures d.Valid() && old(d.history) <= d.history && d.Done(id) == old(d.Done(id)) && Hand(d.st, id) == Hand(old(d.st), id)
      ensures d.Count(id) == old(d.Count(id))
      ensures d.Cycle(id) == old(d.Cycle(id)) + [Promoting]
      ensures var t := Last(d.history);
              && t.PromoteRetries? && t.w == id && t.now == env.now
              && (|t.ids| < env.batchSize ==> forall c :: c in env.candidates(3) && c in d.st.rows && d.st.rows[c].state == Some(RetryableFailure) ==>
                    d.st.rows[c].retryAt.Some? && d.st.rows[c].retryAt.value > env.now)
    {
      d.Others(id, env.others(2 + k));
      var due := Select(env.batchSize, env.candidates(3), (r: RefId, m: Metadata) => Promotable(m, env.now));
      d.Take(PromoteRetries(id, due, env.now));
    }

    method ClaimQueued(env: Surroundings, k: nat)
      requires d.Valid() && Hand(d.st, id) == []
      modifies d
      ensures d.Valid() && old(d.history) <= d.history && d.Done(id) == old(d.Done(id)) && d.Count(id) == old(d.Count(id))
      ensures forall i :: 0 <= i < |Hand(d.st, id)| ==> Hand(d.st, id)[i].row.state == Some(Extracting)
      ensures d.Cycle(id) == old(d.Cycle(id)) + [Claiming]
      ensures |Hand(d.st, id)| < env.batchSize ==> forall c :: c in env.candidates(4) && c in d.st.rows && d.st.rows[c].state == Some(Queued) ==>
                d.st.rows[c].leaseUntil.Some? && d.st.rows[c].leaseUntil.value > env.now
      ensures var t := Last(d.history); t.Claim? && t.w == id && t.now == env.now && t.lease == env.lease
    {
      d.Others(id, env.others(3 + k));
      var claimed := Select(env.batchSize, env.candidates(4), (r: RefId, m: Metadata) => Claimable(m, env.now));
      d.Take(Claim(id, claimed, env.now, env.lease));
    }

    // Claimed references in order, until none is left or a stop is requested.
    method ProcessAll(env: Surroundings, k: nat) returns (n: nat, ghost turns: seq<seq<Deed>>)
      requires d.Valid()
      requires forall i :: 0 <= i < |Hand(d.st, id)| ==> Hand(d.st, id)[i].row.state == Some(Extracting)
      modifies d
      ensures d.Valid() && old(d.history) <= d.history && Hand(d.st, id) == []
      ensures d.Count(id) == old(d.Count(id)) + n && d.Cycle(id) == old(d.Cycle(id))
      ensures d.Done(id) == old(d.Done(id)) + Flat(turns) && AllDoneRight(d.cfg, env, Hand(old(d.st), id), turns)
      ensures (forall i :: !env.stopped(i)) ==> |turns| == |Hand(old(d.st), id)|
    {
      ghost var batch := Hand(d.st, id);
      n, turns := 0, [];
      var j := 0;
      while Hand(d.st, id) != []
        invariant d.Valid() && old(d.history) <= d.history
        invariant forall i :: 0 <= i < |Hand(d.st, id)| ==> Hand(d.st, id)[i].row.state == Some(Extracting)
        invariant d.Count(id) == old(d.Count(id)) + n && d.Cycle(id) == old(d.Cycle(id))
        invariant d.Done(id) == old(d.Done(id)) + Flat(turns) && AllDoneRight(d.cfg, env, batch, turns)
        invariant j == |turns| && Hand(d.st, id) == batch[j..]
        decreases |Hand(d.st, id)|
      {
        if env.stopped(4 + k + j) {
          d.Take(Crash(id));
          return;
        }
        var ok;
        ok, turns := ProcessNext(env, batch, old(d.Done(id)), turns, j);
        if ok { n := n + 1; }
        j := j + 1;
      }
    }

    method ProcessNext(env: Surroundings, ghost batch: seq<Snap>, ghost base: seq<Deed>, ghost turns: seq<seq<Deed>>, j: nat)
      returns (handled: bool, ghost more: seq<seq<Deed>>)
      requires d.Valid() && Hand(d.st, id) != [] && Hand(d.st, id)[0].row.state == Some(Extracting)
      requires j == |turns| < |batch| && Hand(d.st, id)[0] == batch[j]
      requires d.Done(id) == base + Flat(turns) && AllDoneRight(d.cfg, env, batch, turns)
      modifies d
      ensures d.Valid() && old(d.history) <= d.history && Hand(d.st, id) == Hand(old(d.st), id)[1..]
      ensures d.Count(id) == old(d.Count(id)) + (if handled then 1 else 0) && d.Cycle(id) == old(d.Cycle(id))
      ensures d.Done(id) == base + Flat(more) && AllDoneRight(d.cfg, env, batch, more) && |more| == j + 1
    {
      ghost var xs;
      handled, xs := ProcessClaimed(env, j);
      more := turns + [xs];
      FlatSnoc(base, turns, xs);
    }

    method Admit(env: Surroundings) returns (n: nat, go: bool)
      requires d.Valid()
      modifies d
      ensures d.Valid() && old(d.history) <= d.history && d.Done(id) == old(d.Done(id)) && Hand(d.st, id) == Hand(old(d.st), id)
      ensures d.Count(id) == old(d.Count(id)) + n && go == (!env.stopped(0) && !env.stopped(1))
      ensures go ==> d.Cycle(id) == old(d.Cycle(id)) + [Enqueuing, Expiring]
    {
      n := Enqueue(env);
      if env.stopped(0) { return n, false; }
      var expired := ExpireOld(env);
      n, go := n + expired, !env.stopped(1);
    }

    method Deliver(env: Surroundings, k: nat) returns (n: nat, ghost claimed: seq<Snap>, ghost turns: seq<seq<Deed>>)
      requires d.Valid() && Hand(d.st, id) == []
      modifies d
      ensures d.Valid() && old(d.history) <= d.history && Hand(d.st, id) == []
      ensures d.Count(id) == old(d.Count(id)) + n
      ensures !env.stopped(3 + k) ==> d.Cycle(id) == old(d.Cycle(id)) + [Promoting, Claiming]
      ensures d.Done(id) == old(d.Done(id)) + Flat(turns) && AllDoneRight(d.cfg, env, claimed, turns)
      ensures (forall i :: !env.stopped(i)) ==> |turns| == |claimed|
    {
      claimed, turns := [], [];
      Promote(env, k);
      if env.stopped(3 + k) { return 0, [], []; }
      ClaimQueued(env, k);
      claimed := Hand(d.st, id);
      n, turns := ProcessAll(env, k);
    }

    /** One cycle: enqueue, expire, recover, promote, claim and process, all of them in this order
        unless a stop is requested. It returns exactly the number of references it handled, and
        leaves nothing in hand. Every stale claim and every claimed reference it gets to is done right by. */
    method RunOnce(env: Surroundings) returns (handled: nat, ghost recovery: RecoverySweep, ghost claimed: seq<Snap>, ghost turns: seq<seq<Deed>>)
      requires d.Valid() && Hand(d.st, id) == []
      modifies d
      ensures d.Valid() && old(d.history) <= d.history && Hand(d.st, id) == []
      ensures handled == d.Count(id) - old(d.Count(id))
      ensures (forall n :: !env.stopped(n)) ==> d.Cycle(id) == old(d.Cycle(id)) + [Enqueuing, Expiring] + [Promoting, Claiming]
      ensures d.Done(id) == old(d.Done(id)) + Flat(turns) && AllDoneRight(d.cfg, env, claimed, turns)
      ensures (forall n :: !env.stopped(n)) ==> |turns| == |claimed|
      ensures !env.stopped(0) && !env.stopped(1) ==> RecoveryRight(d.cfg, d.history, id, env, recovery)
      ensures (forall n :: !env.stopped(n)) ==> |recovery.visits| == |recovery.listed|
    {
      claimed, turns, recovery := [], [], RecoverySweep([], Moment(0, INITIAL), []);
      var go;
      handled, go := Admit(env);
      if !go { return; }
      var recovered, k;
      recovered, k, recovery := RecoverAll(env);
      handled := handled + recovered;
      ghost var soFar := d.history;
      if env.stopped(2 + k) { return; }
      var delivered;
      delivered, claimed, turns := Deliver(env, k);
      RecoveryStays(d.cfg, soFar, d.history, id, env, recovery);
      handled := handled + delivered;
    }
  }
}
