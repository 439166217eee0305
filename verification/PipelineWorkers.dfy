/**
The three worker programs, written as the loops they are, over one shared deployment.

Deployment holds the durable state and the history of committed steps. Each method below is
proved to change it only through steps of the protocol, with arbitrary other processes
running at every await point (Others), so everything proved about runs holds of the programs.
*/
module PipelineWorkers {
  import opened Common
  import opened StatusTriggers
  import opened LeaseQueue
  import opened Pipeline

  // Which process is running: its own steps are the ones others cannot take for it.
  datatype Role = Publisher(w: WorkerId) | BridgeOf(w: WorkerId) | Consumer(w: WorkerId)

  predicate Mine(me: Role, t: Step) {
    match t
    case Enqueue(_, _) => false
    case Outbox(o) => me.Publisher? && Actor(o) == Some(me.w)
    case Publish(w, _, _) => me.Publisher? && w == me.w
    case Inbox(i) => me.Consumer? && Actor(i) == Some(me.w)
    case Read(b) => me == BridgeOf(b)
    case Reclaim(b, _) => me == BridgeOf(b)
    case Store(b, _) => me == BridgeOf(b)
    case Refuse(b) => me == BridgeOf(b)
    case Ack(b) => me == BridgeOf(b)
    case Leave(b) => me == BridgeOf(b)
    case Stop(b) => me == BridgeOf(b)
  }

  // The step by which a process completes one item: a row it marks published, an effect it
  // commits, a message it acknowledges or reports as malformed.
  predicate Completes(me: Role, s: State, t: Step) {
    match me
    case Publisher(w) =>
      t.Outbox? && t.o.Conclude? && t.o.w == w && At(s.outbox, w).batch != [] && At(s.outbox, w).stage.Succeeded?
      && Owned(s.outbox, Head(s.outbox, w).id, w)
    case Consumer(w) =>
      t.Inbox? && t.i.Conclude? && t.i.w == w && At(s.inbox, w).batch != [] && At(s.inbox, w).stage.Succeeded?
      && Owned(s.inbox, Head(s.inbox, w).id, w)
    case BridgeOf(b) => t == Ack(b) || (t == Leave(b) && Hand(s, b).stage.Refused?)
  }

  // How many items process me completed during a run.
  function Completed(cfg: Config, s: State, steps: seq<Step>, me: Role): nat
    decreases |steps|
  {
    if steps == [] || !StepEnabled(cfg, s, steps[0]) then 0
    else (if Completes(me, s, steps[0]) then 1 else 0) + Completed(cfg, Next(cfg, s, steps[0]), steps[1..], me)
  }

  lemma {:induction false} CompletedSnoc(cfg: Config, s: State, steps: seq<Step>, t: Step, me: Role)
    requires Run(cfg, s, steps).Some? && StepEnabled(cfg, Run(cfg, s, steps).value, t)
    ensures Run(cfg, s, steps + [t]) == Some(Next(cfg, Run(cfg, s, steps).value, t))
    ensures Completed(cfg, s, steps + [t], me) == Completed(cfg, s, steps, me) + (if Completes(me, Run(cfg, s, steps).value, t) then 1 else 0)
    decreases |steps|
  {
    if steps == [] {
      assert steps + [t] == [t];
      assert [t][1..] == [];
    } else {
      assert (steps + [t])[0] == steps[0] && (steps + [t])[1..] == steps[1..] + [t];
      CompletedSnoc(cfg, Next(cfg, s, steps[0]), steps[1..], t, me);
    }
  }

  // The steps of a history that process me took, in order.
  function OwnSteps(me: Role, steps: seq<Step>): seq<Step> {
    if steps == [] then []
    else
      var last := steps[|steps| - 1];
      OwnSteps(me, steps[..|steps| - 1]) + (if Mine(me, last) then [last] else [])
  }

  // How a row left a worker's hands: as the worker remembered it, whether the claim was still held when
  // the result transaction committed, and the row then; for a publisher, whether its message was out.
  datatype Conclusion = Conclusion(row: Snap, held: bool, after: Option<Row>, sent: bool, effects: nat)

  function ConclusionOf(q: Queue, q': Queue, w: WorkerId, sent: bool, effects: nat): Conclusion
    requires At(q, w).batch != []
  {
    var h := Head(q, w);
    Conclusion(h, Owned(q, h.id, w), if h.id in q'.rows then Some(q'.rows[h.id]) else None, sent, effects)
  }

  // What the step adds to the conclusions of process me.
  function Concluding(cfg: Config, me: Role, s: State, t: Step): seq<Conclusion>
    requires StepEnabled(cfg, s, t)
  {
    if me.Publisher? && t.Outbox? && t.o.Conclude? && t.o.w == me.w then
      [ConclusionOf(s.outbox, Next(cfg, s, t).outbox, me.w, Head(s.outbox, me.w).id in s.stream, 0)]
    else if me.Consumer? && t.Inbox? && t.i.Conclude? && t.i.w == me.w then
      var e := Head(s.inbox, me.w).id;
      [ConclusionOf(s.inbox, Next(cfg, s, t).inbox, me.w, true, if Next(cfg, s, t).effects[e] > s.effects[e] then 1 else 0)]
    else []
  }

  // The rows process me concluded during a run, in order.
  function Conclusions(cfg: Config, s: State, steps: seq<Step>, me: Role): seq<Conclusion>
    decreases |steps|
  {
    if steps == [] || !StepEnabled(cfg, s, steps[0]) then []
    else Concluding(cfg, me, s, steps[0]) + Conclusions(cfg, Next(cfg, s, steps[0]), steps[1..], me)
  }

  lemma {:induction false} ConclusionsSnoc(cfg: Config, s: State, steps: seq<Step>, t: Step, me: Role)
    requires Run(cfg, s, steps).Some? && StepEnabled(cfg, Run(cfg, s, steps).value, t)
    ensures Conclusions(cfg, s, steps + [t], me) == Conclusions(cfg, s, steps, me) + Concluding(cfg, me, Run(cfg, s, steps).value, t)
    decreases |steps|
  {
    if steps == [] {
      assert steps + [t] == [t] && [t][1..] == [];
    } else {
      ConclusionsSnoc(cfg, Next(cfg, s, steps[0]), steps[1..], t, me);
      assert (steps + [t])[0] == steps[0] && (steps + [t])[1..] == steps[1..] + [t];
      Joined(Concluding(cfg, me, s, steps[0]), Conclusions(cfg, Next(cfg, s, steps[0]), steps[1..], me), Concluding(cfg, me, Run(cfg, s, steps).value, t));
    }
  }

  class Deployment {
    const cfg: Config
    var st: State
    ghost var history: seq<Step>

    // st is what the history of committed steps made of the empty deployment.
    ghost predicate Valid()
      reads this
    {
      Run(cfg, INITIAL, history) == Some(st)
    }

    constructor (cfg: Config)
      ensures Valid() && st == INITIAL && history == [] && this.cfg == cfg
    {
      this.cfg := cfg;
      st := INITIAL;
      history := [];
    }

    ghost function Done(me: Role): nat
      reads this
    {
      Completed(cfg, INITIAL, history, me)
    }

    ghost function Own(me: Role): seq<Step>
      reads this
    {
      OwnSteps(me, history)
    }

    ghost function Concluded(me: Role): seq<Conclusion>
      reads this
    {
      Conclusions(cfg, INITIAL, history, me)
    }

    // The k-th step of the history was t, taken in state s.
    ghost predicate Took(k: nat, s: State, t: Step)
      reads this
    {
      k < |history| && history[k] == t && Run(cfg, INITIAL, history[..k]) == Some(s)
    }

    // What me keeps in local memory.
    ghost predicate SameMemory(me: Role, s: State)
      reads this
    {
      match me
      case Publisher(w) => At(st.outbox, w) == At(s.outbox, w)
      case Consumer(w) => At(st.inbox, w) == At(s.inbox, w)
      case BridgeOf(b) => Hand(st, b) == Hand(s, b)
    }

    /** One committed step. */
    method Take(t: Step)
      requires Valid() && StepEnabled(cfg, st, t)
      modifies this
      ensures Valid() && st == Next(cfg, old(st), t) && history == old(history) + [t]
      ensures forall me: Role :: Done(me) == old(Done(me)) + (if Completes(me, old(st), t) then 1 else 0)
      ensures forall me: Role :: Own(me) == old(Own(me)) + (if Mine(me, t) then [t] else [])
      ensures forall me: Role :: Concluded(me) == old(Concluded(me)) + Concluding(cfg, me, old(st), t)
      ensures old(st).stream <= st.stream
    {
      assert (history + [t])[..|history|] == history;
      forall me: Role
        ensures Completed(cfg, INITIAL, history + [t], me) == Completed(cfg, INITIAL, history, me) + (if Completes(me, st, t) then 1 else 0)
      {
        CompletedSnoc(cfg, INITIAL, history, t, me);
      }
      forall me: Role
        ensures Conclusions(cfg, INITIAL, history + [t], me) == Conclusions(cfg, INITIAL, history, me) + Concluding(cfg, me, st, t)
      {
        ConclusionsSnoc(cfg, INITIAL, history, t, me);
      }
      CompletedSnoc(cfg, INITIAL, history, t, Publisher(0));
      st := Next(cfg, st, t);
      history := history + [t];
    }

    /** Whatever the other processes of the deployment do while this one is waiting. */
    method Others(me: Role, plan: seq<Step>)
      requires Valid()
      modifies this
      ensures Valid() && old(history) <= history
      ensures SameMemory(me, old(st)) && Done(me) == old(Done(me)) && Own(me) == old(Own(me)) && Concluded(me) == old(Concluded(me))
      ensures old(st).stream <= st.stream
    {
      for k := 0 to |plan|
        invariant Valid() && old(history) <= history
        invariant SameMemory(me, old(st)) && Done(me) == old(Done(me)) && Own(me) == old(Own(me)) && Concluded(me) == old(Concluded(me))
        invariant old(st).stream <= st.stream
      {
        if StepEnabled(cfg, st, plan[k]) && !Mine(me, plan[k]) {
          TakeForeign(me, plan[k]);
        }
      }
    }

    method TakeForeign(me: Role, t: Step)
      requires Valid() && StepEnabled(cfg, st, t) && !Mine(me, t)
      modifies this
      ensures Valid() && old(history) <= history && old(st).stream <= st.stream
      ensures SameMemory(me, old(st)) && Done(me) == old(Done(me)) && Own(me) == old(Own(me)) && Concluded(me) == old(Concluded(me))
    {
      ForeignConcludesNothing(cfg, me, st, t);
      Take(t);
    }
  }

  lemma ForeignConcludesNothing(cfg: Config, me: Role, s: State, t: Step)
    requires StepEnabled(cfg, s, t) && !Mine(me, t)
    ensures Concluding(cfg, me, s, t) == [] && !Completes(me, s, t)
  {
  }

  // The row after a result transaction that still held the claim, by how the work came out: released, and
  // done, due again at retryAt, or dead-lettered.
  predicate Answered(c: Conclusion, outcome: Stage, max: nat, now: int, retryAt: int) {
    c.held ==>
      && c.after.Some?
      && var r := c.after.value;
      && r.claimedBy == None && r.claimedUntil == None && r.updatedAt == Some(now)
      && match outcome
         case Succeeded => r.status.Done? && r.finishedAt.Some?
         case Raised(true) => if c.row.attempts < max then r.status.Failed? && r.availableAt == retryAt else r.status.DeadLetter?
         case _ => r.status.DeadLetter?
  }

  // ---- the repository statements ----

  // The image UPDATE ... SET status = to, claimed_by = NULL, claimed_until = NULL writes.
  function Released(r: Row, to: Status, retryAt: Option<int>): Row {
    var image := r.(status := to, claimedBy := None, claimedUntil := None);
    if retryAt.Some? then image.(availableAt := retryAt.value) else image
  }

  /** mark_published / mark_processed / mark_failed / mark_dead_letter: one guarded UPDATE
      through the trigger. ok is the RETURNING clause; the trigger never raises. */
  method GuardedUpdate(q: Queue, id: EventId, w: WorkerId, to: Status, retryAt: Option<int>, now: int)
    returns (ok: bool, rows: map<EventId, Row>)
    requires to.Done? || to.Failed? || to.DeadLetter?
    ensures ok == Owned(q, id, w)
    ensures rows == if ok then q.rows[id := Updated(q.rows[id], Released(q.rows[id], to, retryAt), now)] else q.rows
    ensures ok ==> rows[id].status == to && rows[id].claimedBy.None?
  {
    rows := q.rows;
    if id in rows && rows[id].status.Processing? && rows[id].claimedBy == Some(w) {
      var fired := CheckStatusTransition(rows[id], Released(rows[id], to, retryAt), now);
      rows := rows[id := fired.value];
      return true, rows;
    }
    return false, rows;
  }

  // Neither published, processed nor dead-lettered, available, and under no live lease.
  predicate Waiting(r: Row, now: int) {
    && !r.status.Done? && !r.status.DeadLetter? && r.availableAt <= now
    && (r.claimedUntil.Some? ==> r.claimedUntil.value <= now)
  }

  // What the claim query answers: waiting rows only, each once, all of them unless the batch is full.
  predicate Selected(q: Queue, candidates: seq<EventId>, now: int, ids: seq<EventId>) {
    && |ids| <= 20
    && (forall i :: 0 <= i < |ids| ==> ids[i] in candidates && ids[i] in q.rows && Waiting(q.rows[ids[i]], now))
    && (forall i, j :: 0 <= i < j < |ids| ==> ids[i] != ids[j])
    && (|ids| == 20 || forall c :: c in candidates && c in q.rows && Waiting(q.rows[c], now) ==> c in ids)
  }

  /** SELECT ... FOR UPDATE SKIP LOCKED LIMIT batch_size over the candidates not locked by
      others, in index order. */
  method SelectDue(q: Queue, candidates: seq<EventId>, now: int) returns (ids: seq<EventId>)
    ensures Selected(q, candidates, now, ids)
  {
    ids := [];
    for k := 0 to |candidates|
      invariant Selected(q, candidates[..k], now, ids)
    {
      var c := candidates[k];
      assert candidates[..k + 1] == candidates[..k] + [c];
      if |ids| < BATCH_SIZE && c in q.rows && Due(q.rows[c], now) && c !in ids {
        ids := ids + [c];
      }
    }
    assert candidates[..|candidates|] == candidates;
  }

  // ---- outbox publisher ----

  // What a cycle meets at its awaits: rows unlocked, transport answers, clock, backoff, stop.
  datatype Surroundings = Surroundings(
    candidates: seq<EventId>,
    lease: nat,
    clock: nat -> int,
    answer: nat -> (Stage, bool),
    delay: nat -> nat,
    stopped: nat -> bool,
    others: nat -> seq<Step>,
    databaseUp: nat -> bool,
    streamUp: nat -> bool
  )

  // When a failed row is due again; a row that is not rescheduled keeps the time of its transition.
  function RetryTime(stage: Stage, attempts: nat, max: nat, now: int, delay: nat): int {
    if stage == Raised(true) && attempts < max then now + delay else now
  }

  function Publishing(w: WorkerId, answer: (Stage, bool)): Step {
    if answer.0.Raised? then Publish(w, answer.0, answer.1) else Publish(w, Succeeded, true)
  }

  lemma Joined<T>(a: seq<T>, b: seq<T>, c: seq<T>)
    ensures (a + b) + c == a + (b + c)
  {
  }

  // One row: published, then marked unless its transaction raises.
  function PublisherTurn(w: WorkerId, max: nat, e: Surroundings, row: Snap, n: nat): seq<Step> {
    [Publishing(w, e.answer(n)),
     Outbox(if e.databaseUp(n) then Conclude(w, e.clock(n), RetryTime(e.answer(n).0, row.attempts, max, e.clock(n), e.delay(n))) else Drop(w))]
  }

  /** What a publisher does with a claimed batch, step by step: publish each row and then mark it,
      in order, until a stop is requested or a transition transaction raises. */
  function PublisherScript(w: WorkerId, max: nat, e: Surroundings, batch: seq<Snap>, n: nat): seq<Step>
    decreases |batch|
  {
    if batch == [] then []
    else if e.stopped(n) then [Outbox(Drop(w))]
    else PublisherTurn(w, max, e, batch[0], n) + (if e.databaseUp(n) then PublisherScript(w, max, e, batch[1..], n + 1) else [])
  }

  // What the transport's answer calls for.
  predicate Sent(c: Conclusion, answer: (Stage, bool), max: nat, now: int, delay: nat) {
    && Answered(c, if answer.0.Raised? then answer.0 else Succeeded, max, now, now + delay)
    && (!answer.0.Raised? || answer.1 ==> c.sent)
  }

  // The batch in order, as far as it was worked on.
  predicate AllSent(e: Surroundings, max: nat, batch: seq<Snap>, cs: seq<Conclusion>) {
    && |cs| <= |batch|
    && forall i :: 0 <= i < |cs| ==> cs[i].row == batch[i] && Sent(cs[i], e.answer(i + 1), max, e.clock(i + 1), e.delay(i + 1))
  }

  class OutboxPublisherWorker {
    const id: WorkerId
    const d: Deployment

    constructor (id: WorkerId, d: Deployment)
      ensures this.id == id && this.d == d
    {
      this.id := id;
      this.d := d;
    }

    // The result transaction for the batch head, committed.
    method Finish(to: Status, retryAt: Option<int>, now: int) returns (ok: bool, ghost c: Conclusion)
      requires d.Valid() && At(d.st.outbox, id).batch != []
      requires var h, stage := Head(d.st.outbox, id), At(d.st.outbox, id).stage;
               match to
               case Done => stage.Succeeded?
               case Failed => stage == Raised(true) && h.attempts < d.cfg.outMax && retryAt.Some?
               case DeadLetter => stage == Raised(false) || (stage == Raised(true) && h.attempts >= d.cfg.outMax)
               case _ => false
      requires to.Failed? || retryAt.None?
      modifies d
      ensures d.Valid() && old(d.history) <= d.history
      ensures At(d.st.outbox, id) == Popped(At(old(d.st).outbox, id))
      ensures ok == Owned(old(d.st).outbox, Head(old(d.st).outbox, id).id, id)
      ensures d.Done(Publisher(id)) == old(d.Done(Publisher(id))) + (if ok && to.Done? then 1 else 0)
      ensures !ok ==> d.st.outbox.rows == old(d.st).outbox.rows
      ensures d.Concluded(Publisher(id)) == old(d.Concluded(Publisher(id))) + [c]
      ensures c.row == Head(old(d.st).outbox, id) && c.sent == (c.row.id in old(d.st).stream)
      ensures Answered(c, At(old(d.st).outbox, id).stage, d.cfg.outMax, now, if retryAt.Some? then retryAt.value else now)
      ensures d.Own(Publisher(id)) == old(d.Own(Publisher(id))) + [Outbox(Conclude(id, now, if retryAt.Some? then retryAt.value else now))]
    {
      var h := Head(d.st.outbox, id);
      var rows;
      ok, rows := GuardedUpdate(d.st.outbox, h.id, id, to, retryAt, now);
      var step := Outbox(Conclude(id, now, if retryAt.Some? then retryAt.value else now));
      ghost var next := Next(d.cfg, d.st, step).outbox;
      assert next.rows == rows;
      c := ConclusionOf(d.st.outbox, next, id, h.id in d.st.stream, 0);
      d.Take(step);
    }

    method DeadLetter(now: int) returns (ghost c: Conclusion)
      requires d.Valid() && At(d.st.outbox, id).batch != []
      requires At(d.st.outbox, id).stage == Raised(false)
            || (At(d.st.outbox, id).stage == Raised(true) && Head(d.st.outbox, id).attempts >= d.cfg.outMax)
      modifies d
      ensures d.Valid() && old(d.history) <= d.history && At(d.st.outbox, id) == Popped(At(old(d.st).outbox, id))
      ensures d.Done(Publisher(id)) == old(d.Done(Publisher(id)))
      ensures d.Own(Publisher(id)) == old(d.Own(Publisher(id))) + [Outbox(Conclude(id, now, now))]
      ensures d.Concluded(Publisher(id)) == old(d.Concluded(Publisher(id))) + [c]
      ensures c.row == Head(old(d.st).outbox, id) && c.sent == (c.row.id in old(d.st).stream)
      ensures Answered(c, At(old(d.st).outbox, id).stage, d.cfg.outMax, now, now)
    {
      var ok;
      ok, c := Finish(Status.DeadLetter, None, now);
    }

    method ScheduleRetry(now: int, delay: nat) returns (ghost c: Conclusion)
      requires d.Valid() && At(d.st.outbox, id).batch != [] && At(d.st.outbox, id).stage == Raised(true)
      modifies d
      ensures d.Valid() && old(d.history) <= d.history && At(d.st.outbox, id) == Popped(At(old(d.st).outbox, id))
      ensures d.Done(Publisher(id)) == old(d.Done(Publisher(id)))
      ensures d.Own(Publisher(id)) == old(d.Own(Publisher(id)))
                + [Outbox(Conclude(id, now, RetryTime(Raised(true), Head(old(d.st).outbox, id).attempts, d.cfg.outMax, now, delay)))]
      ensures d.Concluded(Publisher(id)) == old(d.Concluded(Publisher(id))) + [c]
      ensures c.row == Head(old(d.st).outbox, id) && c.sent == (c.row.id in old(d.st).stream)
      ensures Answered(c, Raised(true), d.cfg.outMax, now, now + delay)
    {
      if Head(d.st.outbox, id).attempts >= d.cfg.outMax {
        c := DeadLetter(now);
        return;
      }
      var ok;
      ok, c := Finish(Failed, Some(now + delay), now);
    }

    // XADD, outside any transaction.
    method Send(answer: (Stage, bool), before: seq<Step>, after: seq<Step>)
      requires d.Valid() && At(d.st.outbox, id).batch != [] && At(d.st.outbox, id).stage.Ready?
      modifies d
      ensures d.Valid() && old(d.history) <= d.history && d.Done(Publisher(id)) == old(d.Done(Publisher(id)))
      ensures At(d.st.outbox, id) == At(old(d.st).outbox, id).(stage := if answer.0.Raised? then answer.0 else Succeeded)
      ensures d.Own(Publisher(id)) == old(d.Own(Publisher(id))) + [Publishing(id, answer)]
      ensures d.Concluded(Publisher(id)) == old(d.Concluded(Publisher(id)))
      ensures !answer.0.Raised? || answer.1 ==> Head(old(d.st).outbox, id).id in d.st.stream
    {
      d.Others(Publisher(id), before);
      ghost var n, e := |d.st.stream|, Head(d.st.outbox, id).id;
      if answer.0.Raised? {
        d.Take(Publish(id, answer.0, answer.1));
      } else {
        d.Take(Publish(id, Succeeded, true));
      }
      assert !answer.0.Raised? || answer.1 ==> d.st.stream[n] == e;
      d.Others(Publisher(id), after);
      assert !answer.0.Raised? || answer.1 ==> d.st.stream[n] == e;
    }

    // The transition that the answer calls for.
    method Transition(stage: Stage, now: int, delay: nat) returns (marked: bool, ghost c: Conclusion)
      requires d.Valid() && At(d.st.outbox, id).batch != [] && !stage.Ready? && At(d.st.outbox, id).stage == stage
      modifies d
      ensures d.Valid() && old(d.history) <= d.history
      ensures At(d.st.outbox, id) == Popped(At(old(d.st).outbox, id))
      ensures d.Done(Publisher(id)) == old(d.Done(Publisher(id))) + (if marked then 1 else 0)
      ensures d.Own(Publisher(id)) == old(d.Own(Publisher(id)))
                + [Outbox(Conclude(id, now, RetryTime(stage, Head(old(d.st).outbox, id).attempts, d.cfg.outMax, now, delay)))]
      ensures d.Concluded(Publisher(id)) == old(d.Concluded(Publisher(id))) + [c]
      ensures c.row == Head(old(d.st).outbox, id) && c.sent == (c.row.id in old(d.st).stream)
      ensures Answered(c, stage, d.cfg.outMax, now, now + delay)
    {
      marked := false;
      if stage == Raised(false) {
        c := DeadLetter(now);
      } else if stage == Raised(true) {
        c := ScheduleRetry(now, delay);
      } else {
        marked, c := Finish(Done, None, now);
      }
    }

    /** Publish the batch head outside any transaction, then commit its transition. raised: the
        transition transaction failed and the exception ends the cycle. Otherwise the row leaves the
        worker's hands as the transport's answer calls for: published with its message out, due again
        after the backoff, or dead-lettered. */
    method PublishRow(answer: (Stage, bool), databaseUp: bool, now: int, delay: nat, before: seq<Step>, after: seq<Step>)
      returns (marked: bool, raised: bool, ghost cs: seq<Conclusion>)
      requires d.Valid() && At(d.st.outbox, id).batch != [] && At(d.st.outbox, id).stage.Ready?
      modifies d
      ensures d.Valid() && old(d.history) <= d.history
      ensures At(d.st.outbox, id) == if raised then IDLE else Popped(At(old(d.st).outbox, id))
      ensures d.Done(Publisher(id)) == old(d.Done(Publisher(id))) + (if marked then 1 else 0)
      ensures raised <==> !databaseUp
      ensures d.Own(Publisher(id)) == old(d.Own(Publisher(id))) +
                [Publishing(id, answer),
                 Outbox(if raised then Drop(id)
                        else Conclude(id, now, RetryTime(answer.0, Head(old(d.st).outbox, id).attempts, d.cfg.outMax, now, delay)))]
      ensures d.Concluded(Publisher(id)) == old(d.Concluded(Publisher(id))) + cs && (raised ==> cs == [])
      ensures !raised ==> |cs| == 1 && cs[0].row == Head(old(d.st).outbox, id) && Sent(cs[0], answer, d.cfg.outMax, now, delay)
    {
      Send(answer, before, after);
      if databaseUp {
        ghost var c;
        marked, c := Transition(if answer.0.Raised? then answer.0 else Succeeded, now, delay);
        raised, cs := false, [c];
      } else {
        d.Take(Outbox(Drop(id)));
        marked, raised, cs := false, true, [];
      }
    }

    /** One claim, publish, transition cycle, whatever happens around it. It claims what the query
        selects, then does exactly what the script says and nothing else, leaves nothing in hand, and
        returns the number of rows it really marked published. k and s are the position of the
        claim in the history and the state it was taken in. Every claimed row leaves its hands as the
        transport's answer calls for, unless a stop or a failing transaction ends the cycle. */
    method RunOnce(e: Surroundings) returns (published: nat, ghost k: nat, ghost s: State, ghost ids: seq<EventId>, ghost cs: seq<Conclusion>)
      requires d.Valid() && At(d.st.outbox, id) == IDLE
      modifies d
      ensures d.Valid() && old(d.history) <= d.history
      ensures At(d.st.outbox, id) == IDLE
      ensures d.Done(Publisher(id)) == old(d.Done(Publisher(id))) + published
      ensures Selected(s.outbox, e.candidates, e.clock(0), ids)
      ensures k >= |old(d.history)| && d.Took(k, s, Outbox(Claim(id, ids, e.lease, e.clock(0))))
      ensures d.Own(Publisher(id)) == old(d.Own(Publisher(id))) + [Outbox(Claim(id, ids, e.lease, e.clock(0)))]
                + PublisherScript(id, d.cfg.outMax, e, ClaimedSnaps(s.outbox, ids), 1)
      ensures d.Concluded(Publisher(id)) == old(d.Concluded(Publisher(id))) + cs && AllSent(e, d.cfg.outMax, ClaimedSnaps(s.outbox, ids), cs)
      ensures (forall n :: !e.stopped(n) && e.databaseUp(n)) ==> |cs| == |ids|
    {
      k, s, ids := ClaimBatch(e);
      ghost var claimed := d.history;
      published, cs := PublishBatch(e);
      assert d.history[..k] == claimed[..k];
    }

    // The claiming transaction.
    method ClaimBatch(e: Surroundings) returns (ghost k: nat, ghost s: State, ghost ids: seq<EventId>)
      requires d.Valid() && At(d.st.outbox, id) == IDLE
      modifies d
      ensures d.Valid() && old(d.history) <= d.history && d.Done(Publisher(id)) == old(d.Done(Publisher(id)))
      ensures Selected(s.outbox, e.candidates, e.clock(0), ids) && At(d.st.outbox, id) == Worker(ClaimedSnaps(s.outbox, ids), Ready)
      ensures k >= |old(d.history)| && d.Took(k, s, Outbox(Claim(id, ids, e.lease, e.clock(0))))
      ensures d.Own(Publisher(id)) == old(d.Own(Publisher(id))) + [Outbox(Claim(id, ids, e.lease, e.clock(0)))]
      ensures d.Concluded(Publisher(id)) == old(d.Concluded(Publisher(id)))
    {
      d.Others(Publisher(id), e.others(0));
      var selected := SelectDue(d.st.outbox, e.candidates, e.clock(0));
      ids, k, s := selected, |d.history|, d.st;
      ghost var before := d.history;
      d.Take(Outbox(Claim(id, selected, e.lease, e.clock(0))));
      assert d.history[..k] == before;
    }

    method NextRow(e: Surroundings, n: nat, ghost batch: seq<Snap>, ghost base: seq<Conclusion>, ghost cs: seq<Conclusion>, ghost all: seq<Step>)
      returns (marked: bool, raised: bool, ghost more: seq<Conclusion>)
      requires d.Valid() && At(d.st.outbox, id).batch != [] && At(d.st.outbox, id).stage.Ready? && !e.stopped(n)
      requires d.Own(Publisher(id)) + PublisherScript(id, d.cfg.outMax, e, At(d.st.outbox, id).batch, n) == all
      requires n == |cs| + 1 <= |batch| && batch[|cs|] == Head(d.st.outbox, id)
      requires d.Concluded(Publisher(id)) == base + cs && AllSent(e, d.cfg.outMax, batch, cs)
      modifies d
      ensures d.Valid() && old(d.history) <= d.history && raised == !e.databaseUp(n)
      ensures At(d.st.outbox, id) == if raised then IDLE else Popped(At(old(d.st).outbox, id))
      ensures d.Done(Publisher(id)) == old(d.Done(Publisher(id))) + (if marked then 1 else 0)
      ensures d.Own(Publisher(id)) + (if raised then [] else PublisherScript(id, d.cfg.outMax, e, At(d.st.outbox, id).batch, n + 1)) == all
      ensures d.Concluded(Publisher(id)) == base + more && AllSent(e, d.cfg.outMax, batch, more)
      ensures |more| == if raised then |cs| else n
    {
      ghost var last;
      ghost var own, rest := d.Own(Publisher(id)), PublisherScript(id, d.cfg.outMax, e, At(d.st.outbox, id).batch[1..], n + 1);
      Joined(own, PublisherTurn(id, d.cfg.outMax, e, Head(d.st.outbox, id), n), rest);
      marked, raised, last := PublishRow(e.answer(n), e.databaseUp(n), e.clock(n), e.delay(n), e.others(2 * n), e.others(2 * n + 1));
      Joined(base, cs, last);
      more := cs + last;
    }

    // A worker asked to stop leaves the rest of its batch to the leases.
    method DropRest()
      requires d.Valid() && At(d.st.outbox, id).stage.Ready?
      modifies d
      ensures d.Valid() && old(d.history) <= d.history && At(d.st.outbox, id) == IDLE
      ensures d.Own(Publisher(id)) == old(d.Own(Publisher(id))) + [Outbox(Drop(id))]
      ensures d.Done(Publisher(id)) == old(d.Done(Publisher(id))) && d.Concluded(Publisher(id)) == old(d.Concluded(Publisher(id)))
    {
      d.Take(Outbox(Drop(id)));
    }

    method PublishBatch(e: Surroundings) returns (published: nat, ghost cs: seq<Conclusion>)
      requires d.Valid() && At(d.st.outbox, id).stage.Ready?
      modifies d
      ensures d.Valid() && old(d.history) <= d.history
      ensures At(d.st.outbox, id) == IDLE
      ensures d.Done(Publisher(id)) == old(d.Done(Publisher(id))) + published
      ensures d.Own(Publisher(id)) == old(d.Own(Publisher(id))) + PublisherScript(id, d.cfg.outMax, e, At(old(d.st).outbox, id).batch, 1)
      ensures d.Concluded(Publisher(id)) == old(d.Concluded(Publisher(id))) + cs && AllSent(e, d.cfg.outMax, At(old(d.st).outbox, id).batch, cs)
      ensures (forall n :: !e.stopped(n) && e.databaseUp(n)) ==> |cs| == |At(old(d.st).outbox, id).batch|
    {
      published, cs := 0, [];
      var n := 1;
      ghost var batch := At(d.st.outbox, id).batch;
      ghost var all := d.Own(Publisher(id)) + PublisherScript(id, d.cfg.outMax, e, At(d.st.outbox, id).batch, 1);
      while At(d.st.outbox, id).batch != []
        invariant d.Valid() && old(d.history) <= d.history
        invariant At(d.st.outbox, id).stage.Ready?
        invariant d.Done(Publisher(id)) == old(d.Done(Publisher(id))) + published
        invariant d.Own(Publisher(id)) + PublisherScript(id, d.cfg.outMax, e, At(d.st.outbox, id).batch, n) == all
        invariant d.Concluded(Publisher(id)) == old(d.Concluded(Publisher(id))) + cs && AllSent(e, d.cfg.outMax, batch, cs)
        invariant n == |cs| + 1 && At(d.st.outbox, id).batch == batch[|cs|..]
        decreases |At(d.st.outbox, id).batch|
      {
        if e.stopped(n) {
          DropRest();
          return;
        }
        var marked, raised;
        marked, raised, cs := NextRow(e, n, batch, old(d.Concluded(Publisher(id))), cs, all);
        if marked { published := published + 1; }
        if raised { return; }
        n := n + 1;
      }
    }
  }

  // ---- ingress bridge ----

  predicate Readable(s: State, msgs: seq<nat>) { forall i :: 0 <= i < |msgs| ==> msgs[i] < |s.stream| }

  function Events(s: State, msgs: seq<nat>): seq<EventId>
    requires Readable(s, msgs)
  {
    seq(|msgs|, i requires 0 <= i < |msgs| => s.stream[msgs[i]])
  }

  // One message: stored or refused and then acknowledged, or left pending.
  function BridgeTurn(cfg: Config, b: WorkerId, e: Surroundings, event: EventId, n: nat): seq<Step> {
    if event !in cfg.malformed && !e.databaseUp(n) then [Leave(b)]
    else [if event in cfg.malformed then Refuse(b) else Store(b, e.clock(n)), if e.streamUp(n) then Ack(b) else Leave(b)]
  }

  /** What a bridge does with the messages in hand: store, commit, then ack, one after the other. */
  function BridgeScript(cfg: Config, b: WorkerId, e: Surroundings, events: seq<EventId>, n: nat): seq<Step>
    decreases |events|
  {
    if events == [] then []
    else if e.stopped(n) then [Stop(b)]
    else BridgeTurn(cfg, b, e, events[0], n) + BridgeScript(cfg, b, e, events[1..], n + 1)
  }

  // One stream command: did it take effect, and was it reported as a success?
  datatype Call = Call(applied: bool, ok: bool)

  // What a cycle leaves behind that raised before the first message.
  function BrokenCycle(cfg: Config, b: WorkerId, claim: Call, read: Call, ids: seq<nat>): seq<Step> {
    if !claim.ok then if claim.applied then [Reclaim(b, ids), Stop(b)] else []
    else if !cfg.reclaimDelivers && ids != [] then [Reclaim(b, ids)]
    else [Reclaim(b, ids)] + ((if read.applied then [Read(b)] else []) + [Stop(b)])
  }

  class InboxIngressBridge {
    const id: WorkerId
    const d: Deployment

    constructor (id: WorkerId, d: Deployment)
      ensures this.id == id && this.d == d
    {
      this.id := id;
      this.d := d;
    }

    // XACK of a message that is stored or refused; a failing stream leaves it pending.
    method Acknowledge(streamUp: bool) returns (ok: bool)
      requires d.Valid() && Hand(d.st, id).msgs != [] && !Hand(d.st, id).stage.Unhandled?
      modifies d
      ensures d.Valid() && old(d.history) <= d.history && ok == streamUp
      ensures Hand(d.st, id) == PoppedBridge(Hand(old(d.st), id))
      ensures d.Done(BridgeOf(id)) == old(d.Done(BridgeOf(id))) + (if ok || Hand(old(d.st), id).stage.Refused? then 1 else 0)
      ensures d.Own(BridgeOf(id)) == old(d.Own(BridgeOf(id))) + [if streamUp then Ack(id) else Leave(id)]
      ensures old(d.st).stream <= d.st.stream
    {
      ok := streamUp;
      if streamUp {
        d.Take(Ack(id));
      } else {
        d.Take(Leave(id));
      }
    }

    // Parse and store, committed, before the acknowledgement.
    method Relay(malformed: bool, now: int, others: seq<Step>)
      requires d.Valid() && Hand(d.st, id).msgs != [] && Hand(d.st, id).stage.Unhandled?
      requires Hand(d.st, id).msgs[0] < |d.st.stream| && malformed == (d.st.stream[Hand(d.st, id).msgs[0]] in d.cfg.malformed)
      modifies d
      ensures d.Valid() && old(d.history) <= d.history && old(d.st).stream <= d.st.stream
      ensures Hand(d.st, id) == Hand(old(d.st), id).(stage := if malformed then Refused else Stored)
      ensures d.Done(BridgeOf(id)) == old(d.Done(BridgeOf(id)))
      ensures d.Own(BridgeOf(id)) == old(d.Own(BridgeOf(id))) + [if malformed then Refuse(id) else Store(id, now)]
    {
      d.Take(if malformed then Refuse(id) else Store(id, now));
      d.Others(BridgeOf(id), others);
    }

    /** Relay the first message in hand: parse, insert with deduplication, commit, then ack.
        A malformed message is acknowledged and dropped; a transient failure leaves it pending. */
    method HandleMessage(e: Surroundings, n: nat) returns (handled: bool)
      requires d.Valid() && Hand(d.st, id).msgs != [] && Hand(d.st, id).stage.Unhandled?
      requires Hand(d.st, id).msgs[0] < |d.st.stream|
      modifies d
      ensures d.Valid() && old(d.history) <= d.history
      ensures Hand(d.st, id) == PoppedBridge(Hand(old(d.st), id))
      ensures d.Done(BridgeOf(id)) == old(d.Done(BridgeOf(id))) + (if handled then 1 else 0)
      ensures handled <==> old(d.st).stream[Hand(old(d.st), id).msgs[0]] in d.cfg.malformed || (e.databaseUp(n) && e.streamUp(n))
      ensures d.Own(BridgeOf(id)) == old(d.Own(BridgeOf(id))) + BridgeTurn(d.cfg, id, e, old(d.st).stream[Hand(old(d.st), id).msgs[0]], n)
      ensures old(d.st).stream <= d.st.stream
    {
      var malformed := d.st.stream[Hand(d.st, id).msgs[0]] in d.cfg.malformed;
      if !malformed && !e.databaseUp(n) {
        d.Take(Leave(id));
        return false;
      }
      Relay(malformed, e.clock(n), e.others(n + 1));
      var acked := Acknowledge(e.streamUp(n));
      handled := malformed || acked;
    }

    /** claim_stuck: take over pending messages that have been idle too long, up to a batch. */
    method ClaimStuck(stuck: seq<nat>) returns (raised: bool, ghost ids: seq<nat>)
      requires d.Valid() && Hand(d.st, id) == AWAY
      modifies d
      ensures d.Valid() && old(d.history) <= d.history
      ensures d.Done(BridgeOf(id)) == old(d.Done(BridgeOf(id)))
      ensures raised == (!d.cfg.reclaimDelivers && ids != [])
      ensures Hand(d.st, id) == Bridge(if d.cfg.reclaimDelivers then ids else [], Unhandled)
      ensures |ids| <= d.cfg.readCount && forall i :: 0 <= i < |ids| ==> ids[i] in stuck && ids[i] in old(d.st).pel
      ensures |ids| == d.cfg.readCount || forall i :: i in stuck && i in old(d.st).pel ==> i in ids
      ensures d.Own(BridgeOf(id)) == old(d.Own(BridgeOf(id))) + [Reclaim(id, ids)]
    {
      var taken := [];
      for k := 0 to |stuck|
        invariant |taken| <= d.cfg.readCount && forall i :: 0 <= i < |taken| ==> taken[i] in stuck && taken[i] in d.st.pel
        invariant |taken| == d.cfg.readCount || forall i :: i in stuck[..k] && i in d.st.pel ==> i in taken
      {
        assert stuck[..k + 1] == stuck[..k] + [stuck[k]];
        if |taken| < d.cfg.readCount && stuck[k] in d.st.pel { taken := taken + [stuck[k]]; }
      }
      assert stuck[..|stuck|] == stuck;
      ids := taken;
      d.Take(Reclaim(id, taken));
      raised := !d.cfg.reclaimDelivers && taken != [];
    }

    method RelayBatch(e: Surroundings) returns (count: nat)
      requires d.Valid() && Hand(d.st, id).stage.Unhandled? && Readable(d.st, Hand(d.st, id).msgs)
      modifies d
      ensures d.Valid() && old(d.history) <= d.history
      ensures Hand(d.st, id) == AWAY
      ensures d.Done(BridgeOf(id)) == old(d.Done(BridgeOf(id))) + count
      ensures d.Own(BridgeOf(id)) == old(d.Own(BridgeOf(id))) + BridgeScript(d.cfg, id, e, Events(old(d.st), Hand(old(d.st), id).msgs), 1)
    {
      count := 0;
      var n := 1;
      ghost var left := Events(d.st, Hand(d.st, id).msgs);
      ghost var all := d.Own(BridgeOf(id)) + BridgeScript(d.cfg, id, e, left, 1);
      while Hand(d.st, id).msgs != []
        invariant d.Valid() && old(d.history) <= d.history && Hand(d.st, id).stage.Unhandled?
        invariant d.Done(BridgeOf(id)) == old(d.Done(BridgeOf(id))) + count
        invariant Readable(d.st, Hand(d.st, id).msgs) && left == Events(d.st, Hand(d.st, id).msgs)
        invariant d.Own(BridgeOf(id)) + BridgeScript(d.cfg, id, e, left, n) == all
        decreases |Hand(d.st, id).msgs|
      {
        if e.stopped(n) {
          d.Take(Stop(id));
          return;
        }
        Joined(d.Own(BridgeOf(id)), BridgeTurn(d.cfg, id, e, left[0], n), BridgeScript(d.cfg, id, e, left[1..], n + 1));
        var ok := HandleMessage(e, n);
        if ok { count := count + 1; }
        left := left[1..];
        n := n + 1;
      }
    }

    // XREADGROUP, then everything in hand.
    method ReadAndRelay(e: Surroundings) returns (count: nat, ghost k: nat, ghost s: State)
      requires d.Valid() && Hand(d.st, id).stage.Unhandled?
      modifies d
      ensures d.Valid() && old(d.history) <= d.history && Hand(d.st, id) == AWAY
      ensures d.Done(BridgeOf(id)) == old(d.Done(BridgeOf(id))) + count
      ensures k == |old(d.history)| && s == old(d.st) && d.Took(k, s, Read(id)) && StepEnabled(d.cfg, s, Read(id))
      ensures var s' := Next(d.cfg, s, Read(id));
              && Readable(s', Hand(s', id).msgs)
              && d.Own(BridgeOf(id)) == old(d.Own(BridgeOf(id))) + [Read(id)] + BridgeScript(d.cfg, id, e, Events(s', Hand(s', id).msgs), 1)
    {
      ReachableIsInv();
      k, s := |d.history|, d.st;
      ghost var before := d.history;
      d.Take(Read(id));
      ReachableIsInv();
      count := RelayBatch(e);
      assert d.history[..k] == before;
    }

    // XREADGROUP raises: what is in hand is lost with the cycle and stays pending, and so do the
    // messages of a read that took effect all the same.
    method FailRead(applied: bool)
      requires d.Valid() && Hand(d.st, id).stage.Unhandled?
      modifies d
      ensures d.Valid() && old(d.history) <= d.history && Hand(d.st, id) == AWAY
      ensures d.Done(BridgeOf(id)) == old(d.Done(BridgeOf(id)))
      ensures d.Own(BridgeOf(id)) == old(d.Own(BridgeOf(id))) + (if applied then [Read(id)] else []) + [Stop(id)]
    {
      if applied {
        ReachableIsInv();
        d.Take(Read(id));
      }
      d.Take(Stop(id));
    }

    // claim_stuck fails at the stream, before or after messages changed hands.
    method FailClaim(stuck: seq<nat>, applied: bool) returns (ghost ids: seq<nat>)
      requires d.Valid() && Hand(d.st, id) == AWAY
      modifies d
      ensures d.Valid() && old(d.history) <= d.history && Hand(d.st, id) == AWAY
      ensures d.Done(BridgeOf(id)) == old(d.Done(BridgeOf(id)))
      ensures d.Own(BridgeOf(id)) == old(d.Own(BridgeOf(id))) + (if applied then [Reclaim(id, ids), Stop(id)] else [])
    {
      ids := [];
      if applied {
        var raised;
        raised, ids := ClaimStuck(stuck);
        d.Take(Stop(id));
      }
    }

    /** One reclaim, read, relay cycle; None when claim_stuck or the read raised. It does exactly what
        the script says for the messages it then has in hand, keeps none of them, and returns the
        number of messages it completed; after a raise none was completed, and those taken over or
        read stay pending. s is the state the read was taken in, at position k. */
    method RunOnce(e: Surroundings, stuck: seq<nat>, claim: Call, read: Call)
      returns (handled: Option<nat>, ghost ids: seq<nat>, ghost k: nat, ghost s: State)
      requires d.Valid() && Hand(d.st, id) == AWAY
      modifies d
      ensures d.Valid() && old(d.history) <= d.history
      ensures Hand(d.st, id) == AWAY
      ensures d.Done(BridgeOf(id)) == old(d.Done(BridgeOf(id))) + (if handled.Some? then handled.value else 0)
      ensures handled.None? <==> !claim.ok || (!d.cfg.reclaimDelivers && ids != []) || !read.ok
      ensures handled.None? ==> d.Own(BridgeOf(id)) == old(d.Own(BridgeOf(id))) + BrokenCycle(d.cfg, id, claim, read, ids)
      ensures handled.Some? ==>
                && k >= |old(d.history)| && d.Took(k, s, Read(id)) && StepEnabled(d.cfg, s, Read(id))
                && Hand(s, id).msgs == ids
                && var s' := Next(d.cfg, s, Read(id));
                && Readable(s', Hand(s', id).msgs)
                && d.Own(BridgeOf(id)) == old(d.Own(BridgeOf(id))) + [Reclaim(id, ids)] + [Read(id)]
                                          + BridgeScript(d.cfg, id, e, Events(s', Hand(s', id).msgs), 1)
    {
      d.Others(BridgeOf(id), e.others(0));
      if !claim.ok {
        ids := FailClaim(stuck, claim.applied);
        return None, ids, 0, d.st;
      }
      var raised;
      raised, ids := ClaimStuck(stuck);
      if raised {
        return None, ids, 0, d.st;
      }
      d.Others(BridgeOf(id), e.others(1));
      if !read.ok {
        ghost var own := d.Own(BridgeOf(id));
        FailRead(read.applied);
        Joined(own, if read.applied then [Read(id)] else [], [Stop(id)]);
        return None, ids, 0, d.st;
      }
      var count;
      count, k, s := ReadAndRelay(e);
      handled := Some(count);
    }

    lemma ReachableIsInv()
      requires d.Valid()
      ensures d.st.delivered <= |d.st.stream| && BridgeOk(d.cfg, d.st, id)
    {
      InvInit(d.cfg);
      RunKeepsInv(d.cfg, INITIAL, d.history);
    }
  }

  // ---- inbox consumer ----

  // A row without a registered handler fails in a way that can never succeed.
  function Effective(outcome: Stage): Stage { if outcome.Ready? then Raised(false) else outcome }

  // One row: its effect and its conclusion, or nothing durable at all.
  function ConsumerTurn(w: WorkerId, max: nat, e: Surroundings, row: Snap, n: nat): seq<Step> {
    if !e.databaseUp(n) then [Inbox(Skip(w))]
    else
      [Inbox(Act(w, Effective(e.answer(n).0))),
       Inbox(Conclude(w, e.clock(n), RetryTime(Effective(e.answer(n).0), row.attempts, max, e.clock(n), e.delay(n))))]
  }

  /** What a consumer does with a claimed batch: run each row's effect and conclude it, in order; a
      transaction that rolls back leaves its row to the lease and the loop goes on. */
  function ConsumerScript(w: WorkerId, max: nat, e: Surroundings, batch: seq<Snap>, n: nat): seq<Step>
    decreases |batch|
  {
    if batch == [] then []
    else if e.stopped(n) then [Inbox(Drop(w))]
    else ConsumerTurn(w, max, e, batch[0], n) + ConsumerScript(w, max, e, batch[1..], n + 1)
  }

  // What the handler's outcome calls for; its writes are committed exactly with the processed mark.
  predicate Handled(c: Conclusion, outcome: Stage, max: nat, now: int, delay: nat) {
    Answered(c, outcome, max, now, now + delay) && c.effects == (if c.held && outcome.Succeeded? then 1 else 0)
  }

  // The n-th turn of a cycle; without a handler the row can never succeed.
  predicate HandledAt(e: Surroundings, max: nat, n: nat, c: Conclusion) {
    Handled(c, if e.answer(n).0.Ready? then Raised(false) else e.answer(n).0, max, e.clock(n), e.delay(n))
  }

  predicate AllHandled(e: Surroundings, max: nat, batch: seq<Snap>, cs: seq<Conclusion>) {
    |cs| <= |batch| && forall i :: 0 <= i < |cs| ==> cs[i].row == batch[i] && HandledAt(e, max, i + 1, cs[i])
  }

  class InboxConsumerWorker {
    const id: WorkerId
    const d: Deployment

    constructor (id: WorkerId, d: Deployment)
      ensures this.id == id && this.d == d
    {
      this.id := id;
      this.d := d;
    }

    // The handler runs; its writes stay in the session.
    method RunEffect(outcome: Stage, others: seq<Step>)
      requires d.Valid() && At(d.st.inbox, id).batch != [] && At(d.st.inbox, id).stage.Ready? && !outcome.Ready?
      modifies d
      ensures d.Valid() && old(d.history) <= d.history && d.Done(Consumer(id)) == old(d.Done(Consumer(id)))
      ensures At(d.st.inbox, id) == At(old(d.st).inbox, id).(stage := outcome)
      ensures d.Own(Consumer(id)) == old(d.Own(Consumer(id))) + [Inbox(Act(id, outcome))]
      ensures d.Concluded(Consumer(id)) == old(d.Concluded(Consumer(id)))
    {
      d.Take(Inbox(Act(id, outcome)));
      d.Others(Consumer(id), others);
    }

    // The statements that follow the effect. writes is what the session would commit: the effect's writes
    // follow a savepoint, and every path that does not mark the row processed goes back to that
    // savepoint before anything commits.
    method MarkRow(outcome: Stage, partialWrites: bool, now: int, delay: nat)
      returns (processed: bool, rows: map<EventId, Row>, writes: multiset<EventId>, retryAt: int)
      requires At(d.st.inbox, id).batch != [] && !outcome.Ready? && At(d.st.inbox, id).stage == outcome
      ensures var h, q := Head(d.st.inbox, id), d.st.inbox;
              && retryAt == RetryTime(outcome, h.attempts, d.cfg.inMax, now, delay)
              && (processed <==> outcome.Succeeded? && Owned(q, h.id, id))
              && writes == (if processed then multiset{h.id} else multiset{})
              && rows == LeaseQueue.Apply(q, Conclude(id, now, retryAt), d.cfg.inMax).rows
              && Answered(ConclusionOf(q, Queue(rows, q.workers), id, true, 0), outcome, d.cfg.inMax, now, now + delay)
    {
      var row := Head(d.st.inbox, id);
      writes := multiset{};
      var savepoint := writes;
      if outcome.Succeeded? || partialWrites {
        writes := writes + multiset{row.id};
      }
      var ok := false;
      retryAt := now;
      if outcome.Succeeded? {
        ok, rows := GuardedUpdate(d.st.inbox, row.id, id, Done, None, now);
        if !ok {
          writes := savepoint;
        }
        processed := ok;
      } else {
        writes := savepoint;
        processed := false;
        if !outcome.retryable || row.attempts >= d.cfg.inMax {
          ok, rows := GuardedUpdate(d.st.inbox, row.id, id, DeadLetter, None, now);
        } else {
          retryAt := now + delay;
          ok, rows := GuardedUpdate(d.st.inbox, row.id, id, Failed, Some(retryAt), now);
        }
      }
    }

    // The rest of the transaction.
    method ConcludeRow(outcome: Stage, partialWrites: bool, now: int, delay: nat) returns (processed: bool, ghost c: Conclusion)
      requires d.Valid() && At(d.st.inbox, id).batch != [] && !outcome.Ready? && At(d.st.inbox, id).stage == outcome
      modifies d
      ensures d.Valid() && old(d.history) <= d.history
      ensures At(d.st.inbox, id) == Popped(At(old(d.st).inbox, id))
      ensures d.Done(Consumer(id)) == old(d.Done(Consumer(id))) + (if processed then 1 else 0)
      ensures processed ==> Head(old(d.st).inbox, id).id in d.st.effects
      ensures d.Own(Consumer(id)) == old(d.Own(Consumer(id))) +
                [Inbox(Conclude(id, now, RetryTime(outcome, Head(old(d.st).inbox, id).attempts, d.cfg.inMax, now, delay)))]
      ensures d.Concluded(Consumer(id)) == old(d.Concluded(Consumer(id))) + [c] && c.row == Head(old(d.st).inbox, id)
      ensures Handled(c, outcome, d.cfg.inMax, now, delay)
    {
      var rows, writes, retryAt;
      processed, rows, writes, retryAt := MarkRow(outcome, partialWrites, now, delay);
      c := Commit(rows, writes, now, retryAt);
    }

    /** The transaction of one claimed row: effect, then processed mark, retry or dead letter. */
    method ProcessRow(outcome: Stage, partialWrites: bool, now: int, delay: nat, others: seq<Step>) returns (processed: bool, ghost c: Conclusion)
      requires d.Valid() && At(d.st.inbox, id).batch != [] && At(d.st.inbox, id).stage.Ready? && !outcome.Ready?
      modifies d
      ensures d.Valid() && old(d.history) <= d.history
      ensures At(d.st.inbox, id) == Popped(At(old(d.st).inbox, id))
      ensures d.Done(Consumer(id)) == old(d.Done(Consumer(id))) + (if processed then 1 else 0)
      ensures processed ==> Head(old(d.st).inbox, id).id in d.st.effects
      ensures d.Own(Consumer(id)) == old(d.Own(Consumer(id))) +
                [Inbox(Act(id, outcome)),
                 Inbox(Conclude(id, now, RetryTime(outcome, Head(old(d.st).inbox, id).attempts, d.cfg.inMax, now, delay)))]
      ensures d.Concluded(Consumer(id)) == old(d.Concluded(Consumer(id))) + [c] && c.row == Head(old(d.st).inbox, id)
      ensures Handled(c, outcome, d.cfg.inMax, now, delay)
    {
      RunEffect(outcome, others);
      processed, c := ConcludeRow(outcome, partialWrites, now, delay);
    }

    // COMMIT: the session's rows and effect writes become durable together.
    method Commit(rows: map<EventId, Row>, writes: multiset<EventId>, now: int, retryAt: int) returns (ghost c: Conclusion)
      requires d.Valid() && StepEnabled(d.cfg, d.st, Inbox(Conclude(id, now, retryAt)))
      requires rows == Next(d.cfg, d.st, Inbox(Conclude(id, now, retryAt))).inbox.rows
      requires d.st.effects + writes == Next(d.cfg, d.st, Inbox(Conclude(id, now, retryAt))).effects
      modifies d
      ensures d.Valid() && old(d.history) <= d.history
      ensures d.st == Next(d.cfg, old(d.st), Inbox(Conclude(id, now, retryAt)))
      ensures d.st.inbox.rows == rows && d.st.effects == old(d.st).effects + writes
      ensures d.Done(Consumer(id)) == old(d.Done(Consumer(id))) + (if Completes(Consumer(id), old(d.st), Inbox(Conclude(id, now, retryAt))) then 1 else 0)
      ensures d.Own(Consumer(id)) == old(d.Own(Consumer(id))) + [Inbox(Conclude(id, now, retryAt))]
      ensures d.Concluded(Consumer(id)) == old(d.Concluded(Consumer(id))) + [c] && c.row == Head(old(d.st).inbox, id)
      ensures c.held == Owned(old(d.st).inbox, c.row.id, id) && c.after == (if c.row.id in rows then Some(rows[c.row.id]) else None)
      ensures c.effects == (if writes[c.row.id] > 0 then 1 else 0)
    {
      c := ConclusionOf(d.st.inbox, Next(d.cfg, d.st, Inbox(Conclude(id, now, retryAt))).inbox, id, true, if writes[Head(d.st.inbox, id).id] > 0 then 1 else 0);
      d.Take(Inbox(Conclude(id, now, retryAt)));
    }

    /** One claim, effect, transition cycle: it claims what the query selects, does exactly what the
        script says, leaves nothing in hand, and returns the number of effects it committed. Every
        claimed row leaves its hands as its handler's outcome calls for, but those whose transaction
        rolls back or that a stop leaves to the lease. */
    method RunOnce(e: Surroundings) returns (processed: nat, ghost k: nat, ghost s: State, ghost ids: seq<EventId>, ghost cs: seq<Conclusion>)
      requires d.Valid() && At(d.st.inbox, id) == IDLE
      modifies d
      ensures d.Valid() && old(d.history) <= d.history
      ensures At(d.st.inbox, id) == IDLE
      ensures d.Done(Consumer(id)) == old(d.Done(Consumer(id))) + processed
      ensures Selected(s.inbox, e.candidates, e.clock(0), ids)
      ensures k >= |old(d.history)| && d.Took(k, s, Inbox(Claim(id, ids, e.lease, e.clock(0))))
      ensures d.Own(Consumer(id)) == old(d.Own(Consumer(id))) + [Inbox(Claim(id, ids, e.lease, e.clock(0)))]
                + ConsumerScript(id, d.cfg.inMax, e, ClaimedSnaps(s.inbox, ids), 1)
      ensures d.Concluded(Consumer(id)) == old(d.Concluded(Consumer(id))) + cs
      ensures (forall n :: !e.stopped(n) && e.databaseUp(n)) ==> |cs| == |ids| && AllHandled(e, d.cfg.inMax, ClaimedSnaps(s.inbox, ids), cs)
    {
      k, s, ids := ClaimBatch(e);
      ghost var claimed := d.history;
      processed, cs := ProcessBatch(e);
      assert d.history[..k] == claimed[..k];
    }

    // The claiming transaction.
    method ClaimBatch(e: Surroundings) returns (ghost k: nat, ghost s: State, ghost ids: seq<EventId>)
      requires d.Valid() && At(d.st.inbox, id) == IDLE
      modifies d
      ensures d.Valid() && old(d.history) <= d.history && d.Done(Consumer(id)) == old(d.Done(Consumer(id)))
      ensures Selected(s.inbox, e.candidates, e.clock(0), ids) && At(d.st.inbox, id) == Worker(ClaimedSnaps(s.inbox, ids), Ready)
      ensures k >= |old(d.history)| && d.Took(k, s, Inbox(Claim(id, ids, e.lease, e.clock(0))))
      ensures d.Own(Consumer(id)) == old(d.Own(Consumer(id))) + [Inbox(Claim(id, ids, e.lease, e.clock(0)))]
      ensures d.Concluded(Consumer(id)) == old(d.Concluded(Consumer(id)))
    {
      d.Others(Consumer(id), e.others(0));
      var selected := SelectDue(d.st.inbox, e.candidates, e.clock(0));
      ids, k, s := selected, |d.history|, d.st;
      ghost var before := d.history;
      d.Take(Inbox(Claim(id, selected, e.lease, e.clock(0))));
      assert d.history[..k] == before;
    }

    // The n-th turn of the loop.
    method HandleRow(e: Surroundings, n: nat) returns (processed: bool, ghost cs: seq<Conclusion>)
      requires d.Valid() && At(d.st.inbox, id).batch != [] && At(d.st.inbox, id).stage.Ready? && !e.stopped(n)
      modifies d
      ensures d.Valid() && old(d.history) <= d.history
      ensures At(d.st.inbox, id) == Popped(At(old(d.st).inbox, id))
      ensures d.Done(Consumer(id)) == old(d.Done(Consumer(id))) + (if processed then 1 else 0)
      ensures d.Own(Consumer(id)) == old(d.Own(Consumer(id))) + ConsumerTurn(id, d.cfg.inMax, e, Head(old(d.st).inbox, id), n)
      ensures d.Concluded(Consumer(id)) == old(d.Concluded(Consumer(id))) + cs && (!e.databaseUp(n) ==> cs == [])
      ensures e.databaseUp(n) ==> |cs| == 1 && cs[0].row == Head(old(d.st).inbox, id)
                                  && HandledAt(e, d.cfg.inMax, n, cs[0])
    {
      d.Others(Consumer(id), e.others(2 * n));
      if !e.databaseUp(n) {
        // The whole transaction rolls back; the exception is logged and the loop goes on.
        d.Take(Inbox(Skip(id)));
        processed, cs := false, [];
      } else {
        var (outcome, partialWrites) := e.answer(n);
        ghost var c;
        processed, c := ProcessRow(Effective(outcome), partialWrites, e.clock(n), e.delay(n), e.others(2 * n + 1));
        cs := [c];
      }
    }

    method NextRow(e: Surroundings, n: nat, ghost batch: seq<Snap>, ghost base: seq<Conclusion>, ghost cs: seq<Conclusion>)
      returns (processed: bool, ghost more: seq<Conclusion>)
      requires d.Valid() && At(d.st.inbox, id).batch != [] && At(d.st.inbox, id).stage.Ready? && !e.stopped(n)
      requires d.Concluded(Consumer(id)) == base + cs
      modifies d
      ensures d.Valid() && old(d.history) <= d.history
      ensures At(d.st.inbox, id) == Popped(At(old(d.st).inbox, id))
      ensures d.Done(Consumer(id)) == old(d.Done(Consumer(id))) + (if processed then 1 else 0)
      ensures d.Own(Consumer(id)) == old(d.Own(Consumer(id))) + ConsumerTurn(id, d.cfg.inMax, e, Head(old(d.st).inbox, id), n)
      ensures d.Concluded(Consumer(id)) == base + more
      ensures e.databaseUp(n) && |cs| == n - 1 < |batch| && batch[n - 1] == Head(old(d.st).inbox, id) && AllHandled(e, d.cfg.inMax, batch, cs) ==>
                |more| == n && AllHandled(e, d.cfg.inMax, batch, more)
    {
      ghost var last;
      processed, last := HandleRow(e, n);
      Joined(base, cs, last);
      more := cs + last;
    }

    // A worker asked to stop leaves the rest of its batch to the leases.
    method DropRest()
      requires d.Valid() && At(d.st.inbox, id).stage.Ready?
      modifies d
      ensures d.Valid() && old(d.history) <= d.history && At(d.st.inbox, id) == IDLE
      ensures d.Own(Consumer(id)) == old(d.Own(Consumer(id))) + [Inbox(Drop(id))]
      ensures d.Done(Consumer(id)) == old(d.Done(Consumer(id))) && d.Concluded(Consumer(id)) == old(d.Concluded(Consumer(id)))
    {
      d.Take(Inbox(Drop(id)));
    }

    method ProcessBatch(e: Surroundings) returns (processed: nat, ghost cs: seq<Conclusion>)
      requires d.Valid() && At(d.st.inbox, id).stage.Ready?
      modifies d
      ensures d.Valid() && old(d.history) <= d.history
      ensures At(d.st.inbox, id) == IDLE
      ensures d.Done(Consumer(id)) == old(d.Done(Consumer(id))) + processed
      ensures d.Own(Consumer(id)) == old(d.Own(Consumer(id))) + ConsumerScript(id, d.cfg.inMax, e, At(old(d.st).inbox, id).batch, 1)
      ensures d.Concluded(Consumer(id)) == old(d.Concluded(Consumer(id))) + cs
      ensures (forall n :: !e.stopped(n) && e.databaseUp(n)) ==>
                |cs| == |At(old(d.st).inbox, id).batch| && AllHandled(e, d.cfg.inMax, At(old(d.st).inbox, id).batch, cs)
    {
      processed, cs := 0, [];
      var n := 1;
      ghost var batch, up := At(d.st.inbox, id).batch, forall k :: e.databaseUp(k);
      ghost var all := d.Own(Consumer(id)) + ConsumerScript(id, d.cfg.inMax, e, At(d.st.inbox, id).batch, 1);
      while At(d.st.inbox, id).batch != []
        invariant d.Valid() && old(d.history) <= d.history
        invariant At(d.st.inbox, id).stage.Ready?
        invariant d.Done(Consumer(id)) == old(d.Done(Consumer(id))) + processed
        invariant d.Own(Consumer(id)) + ConsumerScript(id, d.cfg.inMax, e, At(d.st.inbox, id).batch, n) == all
        invariant d.Concluded(Consumer(id)) == old(d.Concluded(Consumer(id))) + cs
        invariant 1 <= n <= |batch| + 1 && At(d.st.inbox, id).batch == batch[n - 1..]
        invariant up ==> |cs| == n - 1 && AllHandled(e, d.cfg.inMax, batch, cs)
        decreases |At(d.st.inbox, id).batch|
      {
        if e.stopped(n) {
          DropRest();
          return;
        }
        ghost var own, rest := d.Own(Consumer(id)), ConsumerScript(id, d.cfg.inMax, e, At(d.st.inbox, id).batch[1..], n + 1);
        Joined(own, ConsumerTurn(id, d.cfg.inMax, e, Head(d.st.inbox, id), n), rest);
        var ok;
        ok, cs := NextRow(e, n, batch, old(d.Concluded(Consumer(id))), cs);
        if ok { processed := processed + 1; }
        n := n + 1;
      }
    }
  }
}
