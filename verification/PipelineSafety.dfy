/** What the pipeline guarantees over whole runs, whatever the interleaving. */
module PipelineSafety {
  import opened Common
  import opened StatusTriggers
  import opened LeaseQueue
  import opened Pipeline

  /** Exactly-once committed effect. In every state any run can reach, an event's effect has
      been committed at most once, and exactly once precisely when its inbox row is processed. */
  lemma ExactlyOnceEffect(cfg: Config, steps: seq<Step>, e: EventId)
    requires Run(cfg, INITIAL, steps).Some?
    ensures var s := Run(cfg, INITIAL, steps).value;
            && s.effects[e] <= 1
            && (s.effects[e] == 1 <==> e in s.inbox.rows && s.inbox.rows[e].status.Done?)
  {
    InvInit(cfg);
    RunKeepsInv(cfg, INITIAL, steps);
    var s := Run(cfg, INITIAL, steps).value;
    assert s.effects[e] == Processed(s, e);
  }

  // A message position was acknowledged: handed out and no longer pending.
  predicate Acknowledged(s: State, i: nat) {
    i < s.delivered <= |s.stream| && i !in s.pel
  }

  /** No loss: a published row's message is in the stream, and every acknowledged message has its
      inbox row, unless its envelope is malformed, and then it has none. So each message of a
      published event is still to be delivered or re-delivered, or the event is in the inbox, or
      it was dropped as malformed, however often it was published again. */
  lemma NoLoss(cfg: Config, steps: seq<Step>)
    requires Run(cfg, INITIAL, steps).Some?
    ensures var s := Run(cfg, INITIAL, steps).value;
            && (forall e :: e in s.outbox.rows && s.outbox.rows[e].status.Done? ==> e in s.stream)
            && (forall i :: 0 <= i < |s.stream| && Acknowledged(s, i) ==> (s.stream[i] in s.inbox.rows <==> s.stream[i] !in cfg.malformed))
  {
    InvInit(cfg);
    RunKeepsInv(cfg, INITIAL, steps);
  }

  /** The pending list, exactly: a message becomes acknowledged only when the bridge that is done with it
      acknowledges it; a pending message belongs to whoever read it or last reclaimed it. */
  lemma PendingExactly(cfg: Config, steps: seq<Step>, t: Step, i: nat)
    requires Run(cfg, INITIAL, steps).Some? && StepEnabled(cfg, Run(cfg, INITIAL, steps).value, t)
    ensures var s, s' := Run(cfg, INITIAL, steps).value, Next(cfg, Run(cfg, INITIAL, steps).value, t);
            && (Acknowledged(s', i) && !Acknowledged(s, i) <==> t.Ack? && i == Hand(s, t.b).msgs[0] && i in s.pel)
            && (Acknowledged(s, i) ==> Acknowledged(s', i))
            && (i in s'.pel <==> (i in s.pel && !(t.Ack? && i == Hand(s, t.b).msgs[0])) || (t.Read? && s.delivered <= i < s'.delivered))
            && (i in s'.pel ==> s'.pel[i] == if (t.Read? && s.delivered <= i) || (t.Reclaim? && i in t.ids) then t.b else s.pel[i])
  {
    InvInit(cfg);
    RunKeepsInv(cfg, INITIAL, steps);
    var s := Run(cfg, INITIAL, steps).value;
    StepGrows(cfg, s, t);
    if t.Ack? { assert BridgeOk(cfg, s, t.b); }
    if t.Read? { ReadExactly(cfg, s, t.b, i); }
  }

  /** A read hands out the next messages in order, up to the count, and nothing else. */
  lemma ReadExactly(cfg: Config, s: State, b: WorkerId, i: nat)
    requires StepEnabled(cfg, s, Read(b))
    ensures var s' := Next(cfg, s, Read(b));
            && s.delivered <= s'.delivered <= |s.stream| && s'.delivered - s.delivered <= cfg.readCount
            && (s'.delivered == |s.stream| || s'.delivered - s.delivered == cfg.readCount)
            && Hand(s, b).msgs <= Hand(s', b).msgs && |Hand(s', b).msgs| == |Hand(s, b).msgs| + s'.delivered - s.delivered
            && (s.delivered <= i < s'.delivered ==>
                  Hand(s', b).msgs[|Hand(s, b).msgs| + i - s.delivered] == i && i in s'.pel && s'.pel[i] == b)
            && (i in s'.pel && !(s.delivered <= i < s'.delivered) ==> i in s.pel && s'.pel[i] == s.pel[i])
  {
    var ids := Pipeline.Unread(cfg, s);
    if s.delivered <= i < s.delivered + |ids| { assert ids[i - s.delivered] == i; }
  }

  /** No invention: every inbox row, and every committed effect, goes back through a stream
      message to an enqueued outbox row. */
  lemma NoInvention(cfg: Config, steps: seq<Step>, e: EventId)
    requires Run(cfg, INITIAL, steps).Some?
    ensures var s := Run(cfg, INITIAL, steps).value;
            && (e in s.effects ==> e in s.inbox.rows)
            && (e in s.inbox.rows ==> e in s.stream)
            && (e in s.stream ==> e in s.outbox.rows)
  {
    InvInit(cfg);
    RunKeepsInv(cfg, INITIAL, steps);
    var s := Run(cfg, INITIAL, steps).value;
    assert s.effects[e] == Processed(s, e);
  }

  // Everything durable only grows, and settled rows stay as they were settled.
  ghost predicate Preserves(s: State, s': State) {
    && s.stream <= s'.stream
    && s.delivered <= s'.delivered
    && s.effects <= s'.effects
    && (forall e :: e in s.outbox.rows ==> e in s'.outbox.rows)
    && (forall e :: e in s.inbox.rows ==> e in s'.inbox.rows)
    && (forall e :: e in s.outbox.rows && Terminal(s.outbox.rows[e]) ==> s'.outbox.rows[e] == s.outbox.rows[e])
    && (forall e :: e in s.inbox.rows && Terminal(s.inbox.rows[e]) ==> s'.inbox.rows[e] == s.inbox.rows[e])
  }

  lemma QueueStepPreserves(q: Queue, t: QStep, max: nat, e: EventId)
    requires Enabled(q, t) && e in q.rows
    ensures e in LeaseQueue.Apply(q, t, max).rows
    ensures Terminal(q.rows[e]) ==> LeaseQueue.Apply(q, t, max).rows[e] == q.rows[e]
  {
    if t.Claim? && e in t.ids {
      var i :| 0 <= i < |t.ids| && t.ids[i] == e;
      assert Due(q.rows[t.ids[i]], t.now);
    }
  }

  lemma StepPreserves(cfg: Config, s: State, t: Step)
    requires StepEnabled(cfg, s, t)
    ensures Preserves(s, Next(cfg, s, t))
  {
    var s' := Next(cfg, s, t);
    forall e | e in s.outbox.rows
      ensures e in s'.outbox.rows && (Terminal(s.outbox.rows[e]) ==> s'.outbox.rows[e] == s.outbox.rows[e])
    {
      if t.Outbox? { QueueStepPreserves(s.outbox, t.o, cfg.outMax, e); }
    }
    forall e | e in s.inbox.rows
      ensures e in s'.inbox.rows && (Terminal(s.inbox.rows[e]) ==> s'.inbox.rows[e] == s.inbox.rows[e])
    {
      if t.Inbox? { QueueStepPreserves(s.inbox, t.i, cfg.inMax, e); }
    }
  }

  /** No step of any run removes a row or a message, revises a settled row, or takes back a
      committed effect. */
  lemma {:induction false} RunPreserves(cfg: Config, s: State, steps: seq<Step>)
    requires Run(cfg, s, steps).Some?
    ensures Preserves(s, Run(cfg, s, steps).value)
    decreases |steps|
  {
    if steps != [] {
      StepPreserves(cfg, s, steps[0]);
      RunPreserves(cfg, Next(cfg, s, steps[0]), steps[1..]);
    }
  }

  /** A consumer or publisher that lost its claim changes nothing durable: not the rows, not
      the stream, not the effects, whatever it computed meanwhile. */
  lemma LostClaimIsHarmless(cfg: Config, s: State, t: Step)
    requires StepEnabled(cfg, s, t)
    requires (t.Outbox? && t.o.Conclude? && !Owned(s.outbox, Head(s.outbox, t.o.w).id, t.o.w))
          || (t.Inbox? && t.i.Conclude? && !Owned(s.inbox, Head(s.inbox, t.i.w).id, t.i.w))
    ensures var s' := Next(cfg, s, t);
            && s'.outbox.rows == s.outbox.rows && s'.inbox.rows == s.inbox.rows
            && s'.effects == s.effects && s'.stream == s.stream && s'.pel == s.pel
            && s'.delivered == s.delivered && s'.bridges == s.bridges
  {
    if t.Outbox? { LostClaimWritesNothing(s.outbox, t.o, cfg.outMax); }
    else { LostClaimWritesNothing(s.inbox, t.i, cfg.inMax); }
  }

  /** Two consumers may both run the effect of one message; only the one whose claim is still
      held can commit it. After a re-claim of e by v, no commit by w adds e's effect. */
  lemma ReclaimBlocksCommit(cfg: Config, s: State, claim: QStep, w: WorkerId, e: EventId)
    requires Inv(cfg, s) && StepEnabled(cfg, s, Inbox(claim))
    requires claim.Claim? && e in claim.ids && claim.w != w
    requires At(s.inbox, w).batch != [] && Head(s.inbox, w).id == e && At(s.inbox, w).stage.Succeeded?
    ensures forall now, retryAt ::
              var s' := Next(cfg, s, Inbox(claim));
              var commit := Inbox(Conclude(w, now, retryAt));
              StepEnabled(cfg, s', commit) && Next(cfg, s', commit).effects == s.effects
  {
    var s' := Next(cfg, s, Inbox(claim));
    ReclaimRevokes(s.inbox, claim, cfg.inMax, w, e);
    assert At(s'.inbox, w) == At(s.inbox, w);
  }

  // ---- the retry budget ----

  // Step t puts the outbox row, or the inbox row, of e back into the retry schedule.
  predicate Republishes(cfg: Config, s: State, t: Step, e: EventId)
    requires StepEnabled(cfg, s, t)
  {
    t.Outbox? && t.o.Conclude? && Returns(s.outbox, Next(cfg, s, t).outbox, e)
  }

  predicate Reprocesses(cfg: Config, s: State, t: Step, e: EventId)
    requires StepEnabled(cfg, s, t)
  {
    t.Inbox? && t.i.Conclude? && Returns(s.inbox, Next(cfg, s, t).inbox, e)
  }

  predicate Returns(q: Queue, q': Queue, e: EventId) {
    e in q.rows && e in q'.rows && q.rows[e].status.Processing? && q'.rows[e].status.Failed?
  }

  function Republications(cfg: Config, s: State, steps: seq<Step>, e: EventId): nat
    requires Run(cfg, s, steps).Some?
    decreases |steps|
  {
    if steps == [] then 0
    else (if Republishes(cfg, s, steps[0], e) then 1 else 0) + Republications(cfg, Next(cfg, s, steps[0]), steps[1..], e)
  }

  function Reprocessings(cfg: Config, s: State, steps: seq<Step>, e: EventId): nat
    requires Run(cfg, s, steps).Some?
    decreases |steps|
  {
    if steps == [] then 0
    else (if Reprocesses(cfg, s, steps[0], e) then 1 else 0) + Reprocessings(cfg, Next(cfg, s, steps[0]), steps[1..], e)
  }

  lemma OutboxBudgetStep(cfg: Config, s: State, t: Step, e: EventId)
    requires Inv(cfg, s) && StepEnabled(cfg, s, t)
    ensures RetryBudget(Next(cfg, s, t).outbox, cfg.outMax, e) + (if Republishes(cfg, s, t, e) then 1 else 0) <= RetryBudget(s.outbox, cfg.outMax, e)
  {
    match t
    case Enqueue(id, now) => RetryBudgetStep(s.outbox, Insert(id, now), cfg.outMax, e);
    case Outbox(o) => RetryBudgetStep(s.outbox, o, cfg.outMax, e);
    case Publish(w, outcome, _) => RetryBudgetStep(s.outbox, Act(w, outcome), cfg.outMax, e);
    case _ =>
  }

  lemma InboxBudgetStep(cfg: Config, s: State, t: Step, e: EventId)
    requires Inv(cfg, s) && StepEnabled(cfg, s, t)
    ensures RetryBudget(Next(cfg, s, t).inbox, cfg.inMax, e) + (if Reprocesses(cfg, s, t, e) then 1 else 0) <= RetryBudget(s.inbox, cfg.inMax, e)
  {
    if t.Inbox? {
      RetryBudgetStep(s.inbox, t.i, cfg.inMax, e);
    } else if t.Store? {
      var id := s.stream[Hand(s, t.b).msgs[0]];
      if id !in s.inbox.rows { RetryBudgetStep(s.inbox, Insert(id, t.now), cfg.inMax, e); }
    }
  }

  lemma {:induction false} BudgetsKept(cfg: Config, s: State, steps: seq<Step>, e: EventId)
    requires Inv(cfg, s) && Run(cfg, s, steps).Some?
    ensures Republications(cfg, s, steps, e) <= RetryBudget(s.outbox, cfg.outMax, e)
    ensures Reprocessings(cfg, s, steps, e) <= RetryBudget(s.inbox, cfg.inMax, e)
    decreases |steps|
  {
    if steps != [] {
      OutboxBudgetStep(cfg, s, steps[0], e);
      InboxBudgetStep(cfg, s, steps[0], e);
      StepKeepsInv(cfg, s, steps[0]);
      BudgetsKept(cfg, Next(cfg, s, steps[0]), steps[1..], e);
    }
  }

  /** Over any run of the whole pipeline, with its crashes, re-claims and redeliveries, handled failures
      put the outbox row and the inbox row of an event back into the schedule fewer than
      outbox_max_attempts and inbox_max_attempts times. */
  lemma RetriesBoundedInPipeline(cfg: Config, steps: seq<Step>, e: EventId)
    requires Run(cfg, INITIAL, steps).Some?
    ensures cfg.outMax >= 1 ==> Republications(cfg, INITIAL, steps, e) < cfg.outMax
    ensures cfg.inMax >= 1 ==> Reprocessings(cfg, INITIAL, steps, e) < cfg.inMax
  {
    InvInit(cfg);
    BudgetsKept(cfg, INITIAL, steps, e);
  }
}
