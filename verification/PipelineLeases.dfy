/**
The two tables of the pipeline as leased queues. Every run of the whole pipeline is, seen from the
outbox and from the inbox, a run of a leased queue; so what leases promise holds between the
publishers and between the consumers, whatever else happens.
*/
module PipelineLeases {
  import opened Common
  import opened StatusTriggers
  import opened LeaseQueue
  import opened Pipeline

  // What a step of the pipeline does to the outbox, and to the inbox.
  function OutboxSteps(t: Step): seq<QStep> {
    match t
    case Enqueue(e, now) => [Insert(e, now)]
    case Outbox(o) => [o]
    case Publish(w, outcome, _) => [Act(w, outcome)]
    case _ => []
  }

  function InboxSteps(s: State, t: Step): seq<QStep> {
    match t
    case Inbox(i) => [i]
    case Store(b, now) =>
      var h := Hand(s, b);
      if h.msgs != [] && h.msgs[0] < |s.stream| && s.stream[h.msgs[0]] !in s.inbox.rows then [Insert(s.stream[h.msgs[0]], now)] else []
    case _ => []
  }

  function OutboxRun(cfg: Config, s: State, steps: seq<Step>): seq<QStep>
    requires Run(cfg, s, steps).Some?
    decreases |steps|
  {
    if steps == [] then [] else OutboxSteps(steps[0]) + OutboxRun(cfg, Next(cfg, s, steps[0]), steps[1..])
  }

  function InboxRun(cfg: Config, s: State, steps: seq<Step>): seq<QStep>
    requires Run(cfg, s, steps).Some?
    decreases |steps|
  {
    if steps == [] then [] else InboxSteps(s, steps[0]) + InboxRun(cfg, Next(cfg, s, steps[0]), steps[1..])
  }

  lemma ExecOne(q: Queue, first: seq<QStep>, rest: seq<QStep>, max: nat, q': Queue)
    requires first == [] ==> q' == q
    requires first != [] ==> |first| == 1 && Enabled(q, first[0]) && q' == LeaseQueue.Apply(q, first[0], max)
    ensures Exec(q, first + rest, max) == Exec(q', rest, max)
  {
    if first == [] {
      assert first + rest == rest;
    } else {
      assert (first + rest)[0] == first[0] && (first + rest)[1..] == rest;
    }
  }

  /** Every run of the pipeline is a run of the outbox as a leased queue. */
  lemma {:induction false} OutboxRefines(cfg: Config, s: State, steps: seq<Step>)
    requires Run(cfg, s, steps).Some?
    ensures Exec(s.outbox, OutboxRun(cfg, s, steps), cfg.outMax) == Some(Run(cfg, s, steps).value.outbox)
    decreases |steps|
  {
    if steps != [] {
      var s1 := Next(cfg, s, steps[0]);
      OutboxRefines(cfg, s1, steps[1..]);
      ExecOne(s.outbox, OutboxSteps(steps[0]), OutboxRun(cfg, s1, steps[1..]), cfg.outMax, s1.outbox);
    }
  }

  /** And of the inbox as another one. */
  lemma {:induction false} InboxRefines(cfg: Config, s: State, steps: seq<Step>)
    requires Run(cfg, s, steps).Some?
    ensures Exec(s.inbox, InboxRun(cfg, s, steps), cfg.inMax) == Some(Run(cfg, s, steps).value.inbox)
    decreases |steps|
  {
    if steps != [] {
      var s1 := Next(cfg, s, steps[0]);
      InboxRefines(cfg, s1, steps[1..]);
      ExecOne(s.inbox, InboxSteps(s, steps[0]), InboxRun(cfg, s1, steps[1..]), cfg.inMax, s1.inbox);
    }
  }

  // No claim of the run reads a clock at or past the given time.
  predicate PublishersBefore(steps: seq<Step>, until: int) {
    forall k :: 0 <= k < |steps| && steps[k].Outbox? && steps[k].o.Claim? ==> steps[k].o.now < until
  }

  predicate ConsumersBefore(steps: seq<Step>, until: int) {
    forall k :: 0 <= k < |steps| && steps[k].Inbox? && steps[k].i.Claim? ==> steps[k].i.now < until
  }

  lemma AppendBefore(a: seq<QStep>, b: seq<QStep>, until: int)
    requires Before(a, until) && Before(b, until)
    ensures Before(a + b, until)
  {
  }

  lemma {:induction false} OutboxBefore(cfg: Config, s: State, steps: seq<Step>, until: int)
    requires Run(cfg, s, steps).Some? && PublishersBefore(steps, until)
    ensures Before(OutboxRun(cfg, s, steps), until)
    decreases |steps|
  {
    if steps != [] {
      forall k | 0 <= k < |steps| - 1 ensures steps[1..][k] == steps[k + 1] {}
      OutboxBefore(cfg, Next(cfg, s, steps[0]), steps[1..], until);
      AppendBefore(OutboxSteps(steps[0]), OutboxRun(cfg, Next(cfg, s, steps[0]), steps[1..]), until);
    }
  }

  lemma {:induction false} InboxBefore(cfg: Config, s: State, steps: seq<Step>, until: int)
    requires Run(cfg, s, steps).Some? && ConsumersBefore(steps, until)
    ensures Before(InboxRun(cfg, s, steps), until)
    decreases |steps|
  {
    if steps != [] {
      forall k | 0 <= k < |steps| - 1 ensures steps[1..][k] == steps[k + 1] {}
      InboxBefore(cfg, Next(cfg, s, steps[0]), steps[1..], until);
      AppendBefore(InboxSteps(s, steps[0]), InboxRun(cfg, Next(cfg, s, steps[0]), steps[1..]), until);
    }
  }

  /** While a publisher's lease runs on the clocks of all publishers, its row is handed to no other: until
      it concludes the row, whatever the processes of the deployment do, no claim takes it and it
      stays as it was claimed. */
  lemma OutboxLeaseHolds(cfg: Config, s: State, steps: seq<Step>, e: EventId, w: WorkerId)
    requires Run(cfg, s, steps).Some? && Owned(s.outbox, e, w) && s.outbox.rows[e].claimedUntil.Some?
    requires PublishersBefore(steps, s.outbox.rows[e].claimedUntil.value)
    requires !ConcludedBy(s.outbox, OutboxRun(cfg, s, steps), cfg.outMax, w, e)
    ensures var qs := OutboxRun(cfg, s, steps); forall k :: 0 <= k < |qs| && qs[k].Claim? ==> e !in qs[k].ids
    ensures var s' := Run(cfg, s, steps).value; e in s'.outbox.rows && s'.outbox.rows[e] == s.outbox.rows[e]
  {
    OutboxRefines(cfg, s, steps);
    OutboxBefore(cfg, s, steps, s.outbox.rows[e].claimedUntil.value);
    LeaseHolds(s.outbox, OutboxRun(cfg, s, steps), cfg.outMax, e, w);
  }

  /** The same between consumers: while the lease runs nobody else is handed the event, so nobody else's
      effect of it is committed. */
  lemma InboxLeaseHolds(cfg: Config, s: State, steps: seq<Step>, e: EventId, w: WorkerId)
    requires Inv(cfg, s) && Run(cfg, s, steps).Some? && Owned(s.inbox, e, w)
    requires s.inbox.rows[e].claimedUntil.Some? && ConsumersBefore(steps, s.inbox.rows[e].claimedUntil.value)
    requires !ConcludedBy(s.inbox, InboxRun(cfg, s, steps), cfg.inMax, w, e)
    ensures var qs := InboxRun(cfg, s, steps); forall k :: 0 <= k < |qs| && qs[k].Claim? ==> e !in qs[k].ids
    ensures var s' := Run(cfg, s, steps).value;
            e in s'.inbox.rows && s'.inbox.rows[e] == s.inbox.rows[e] && s'.effects[e] == s.effects[e] == 0
  {
    InboxRefines(cfg, s, steps);
    InboxBefore(cfg, s, steps, s.inbox.rows[e].claimedUntil.value);
    LeaseHolds(s.inbox, InboxRun(cfg, s, steps), cfg.inMax, e, w);
    RunKeepsInv(cfg, s, steps);
    assert s.effects[e] == Processed(s, e) && Run(cfg, s, steps).value.effects[e] == Processed(Run(cfg, s, steps).value, e);
  }
}
