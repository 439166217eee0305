/**
The outbox -> stream -> inbox -> effect protocol as a step relation.

Three kinds of process run over one durable state: outbox publishers, ingress bridges and
inbox consumers, any number of each. Every step is one committed transaction, one stream
command, or the loss of a process's local memory; between any two steps any other step may
happen. Local memory (claimed batches, messages in hand) is part of the state, so that a
crash is simply the step that erases it.
*/
module Pipeline {
  import opened Common
  import opened StatusTriggers
  import opened LeaseQueue

  datatype Config = Config(
    outMax: nat,              // outbox_max_attempts
    inMax: nat,               // inbox_max_attempts
    readCount: nat,           // messages per stream read
    reclaimDelivers: bool,    // does claim_stuck hand reclaimed messages to its caller?
    malformed: set<EventId>   // events whose stream message the bridge cannot parse
  )

  datatype BridgeStage = Unhandled | Stored | Refused

  // A bridge: the messages in hand (positions in the stream) and its progress on the first.
  datatype Bridge = Bridge(msgs: seq<nat>, stage: BridgeStage)

  const AWAY := Bridge([], Unhandled)

  datatype State = State(
    outbox: Queue,
    stream: seq<EventId>,          // every message ever appended
    delivered: nat,                // the consumer group has handed out stream[..delivered]
    pel: map<nat, WorkerId>,       // pending entries list: delivered, not acknowledged
    bridges: map<WorkerId, Bridge>,
    inbox: Queue,
    effects: multiset<EventId>     // committed business effects
  )

  const INITIAL := State(Queue(map[], map[]), [], 0, map[], map[], Queue(map[], map[]), multiset{})

  datatype Step =
    | Enqueue(e: EventId, now: int)
    | Outbox(o: QStep)
    | Publish(w: WorkerId, outcome: Stage, appended: bool)
    | Read(b: WorkerId)
    | Reclaim(b: WorkerId, ids: seq<nat>)
    | Store(b: WorkerId, now: int)
    | Refuse(b: WorkerId)
    | Ack(b: WorkerId)
    | Leave(b: WorkerId)
    | Stop(b: WorkerId)
    | Inbox(i: QStep)

  function Hand(s: State, b: WorkerId): Bridge {
    if b in s.bridges then s.bridges[b] else AWAY
  }

  function Min(a: int, b: int): int { if a < b then a else b }

  // The positions XREADGROUP hands out next.
  function Unread(cfg: Config, s: State): seq<nat>
    requires s.delivered <= |s.stream|
  {
    seq(Min(cfg.readCount, |s.stream| - s.delivered), i requires 0 <= i => s.delivered + i)
  }

  predicate StepEnabled(cfg: Config, s: State, t: Step) {
    match t
    case Enqueue(e, now) => e !in s.outbox.rows
    case Outbox(o) => (o.Claim? || o.Conclude? || o.Drop?) && Enabled(s.outbox, o)
    case Publish(w, outcome, appended) =>
      // XADD may report a failure although the message was appended, never the reverse.
      Enabled(s.outbox, Act(w, outcome)) && (outcome.Succeeded? ==> appended)
    case Read(b) => s.delivered <= |s.stream| && Hand(s, b).stage.Unhandled?
    case Reclaim(b, ids) => Hand(s, b) == AWAY && forall i :: 0 <= i < |ids| ==> ids[i] in s.pel
    case Store(b, now) =>
      var h := Hand(s, b);
      h.msgs != [] && h.stage.Unhandled? && h.msgs[0] < |s.stream| && s.stream[h.msgs[0]] !in cfg.malformed
    case Refuse(b) =>
      var h := Hand(s, b);
      h.msgs != [] && h.stage.Unhandled? && h.msgs[0] < |s.stream| && s.stream[h.msgs[0]] in cfg.malformed
    case Ack(b) => Hand(s, b).msgs != [] && !Hand(s, b).stage.Unhandled?
    case Leave(b) => Hand(s, b).msgs != []
    case Stop(b) => true
    case Inbox(i) => !i.Insert? && Enabled(s.inbox, i)
  }

  function PoppedBridge(h: Bridge): Bridge
    requires h.msgs != []
  {
    Bridge(h.msgs[1..], Unhandled)
  }

  // INSERT ... ON CONFLICT (source, source_message_id) DO NOTHING.
  function Received(inbox: Queue, e: EventId, now: int): Queue {
    if e in inbox.rows then inbox else LeaseQueue.Apply(inbox, Insert(e, now), 0)
  }

  function Reowned(pel: map<nat, WorkerId>, ids: seq<nat>, b: WorkerId): map<nat, WorkerId> {
    map i | i in pel :: if i in ids then b else pel[i]
  }

  function Delivered(pel: map<nat, WorkerId>, ids: seq<nat>, b: WorkerId): map<nat, WorkerId> {
    pel + map i | i in ids :: b
  }

  // The effect's writes commit together with the processed mark, or not at all.
  function Committed(s: State, i: QStep): multiset<EventId>
    requires Enabled(s.inbox, i)
  {
    if i.Conclude? && At(s.inbox, i.w).stage.Succeeded? && Owned(s.inbox, Head(s.inbox, i.w).id, i.w)
    then s.effects + multiset{Head(s.inbox, i.w).id}
    else s.effects
  }

  function Next(cfg: Config, s: State, t: Step): State
    requires StepEnabled(cfg, s, t)
  {
    match t
    case Enqueue(e, now) => s.(outbox := LeaseQueue.Apply(s.outbox, Insert(e, now), cfg.outMax))
    case Outbox(o) => s.(outbox := LeaseQueue.Apply(s.outbox, o, cfg.outMax))
    case Publish(w, outcome, appended) =>
      s.(outbox := LeaseQueue.Apply(s.outbox, Act(w, outcome), cfg.outMax),
         stream := if appended then s.stream + [Head(s.outbox, w).id] else s.stream)
    case Read(b) =>
      var ids := Unread(cfg, s);
      s.(delivered := s.delivered + |ids|,
         pel := Delivered(s.pel, ids, b),
         bridges := s.bridges[b := Hand(s, b).(msgs := Hand(s, b).msgs + ids)])
    case Reclaim(b, ids) =>
      s.(pel := Reowned(s.pel, ids, b),
         bridges := s.bridges[b := Bridge(if cfg.reclaimDelivers then ids else [], Unhandled)])
    case Store(b, now) =>
      s.(inbox := Received(s.inbox, s.stream[Hand(s, b).msgs[0]], now),
         bridges := s.bridges[b := Hand(s, b).(stage := Stored)])
    case Refuse(b) => s.(bridges := s.bridges[b := Hand(s, b).(stage := Refused)])
    case Ack(b) => s.(pel := s.pel - {Hand(s, b).msgs[0]}, bridges := s.bridges[b := PoppedBridge(Hand(s, b))])
    case Leave(b) => s.(bridges := s.bridges[b := PoppedBridge(Hand(s, b))])
    case Stop(b) => s.(bridges := s.bridges[b := AWAY])
    case Inbox(i) => s.(inbox := LeaseQueue.Apply(s.inbox, i, cfg.inMax), effects := Committed(s, i))
  }

  function Run(cfg: Config, s: State, steps: seq<Step>): Option<State>
    decreases |steps|
  {
    if steps == [] then Some(s)
    else if !StepEnabled(cfg, s, steps[0]) then None
    else Run(cfg, Next(cfg, s, steps[0]), steps[1..])
  }

  lemma {:induction false} RunAppend(cfg: Config, s: State, a: seq<Step>, b: seq<Step>)
    requires Run(cfg, s, a).Some?
    ensures Run(cfg, s, a + b) == Run(cfg, Run(cfg, s, a).value, b)
    decreases |a|
  {
    if a == [] {
      assert a + b == b;
    } else {
      assert (a + b)[0] == a[0] && (a + b)[1..] == a[1..] + b;
      RunAppend(cfg, Next(cfg, s, a[0]), a[1..], b);
    }
  }

  // ---- the invariant spanning the three programs ----

  // Nothing is invented: messages come from outbox rows, inbox rows from messages.
  ghost predicate OriginInv(cfg: Config, s: State) {
    && (forall e :: e in s.stream ==> e in s.outbox.rows)
    && (forall e :: e in s.inbox.rows ==> e in s.stream && e !in cfg.malformed)
  }

  // Nothing is acknowledged before it is stored: a delivered message is still pending, or has
  // its inbox row, or could not be parsed.
  ghost predicate PendingInv(cfg: Config, s: State) {
    && s.delivered <= |s.stream|
    && (forall i :: i in s.pel ==> i < s.delivered)
    && (forall i :: 0 <= i < s.delivered && i !in s.pel ==> s.stream[i] in cfg.malformed || s.stream[i] in s.inbox.rows)
  }

  // A row is published, or about to be marked so, only once its message is in the stream.
  ghost predicate PublishInv(s: State) {
    && (forall e :: e in s.outbox.rows && s.outbox.rows[e].status.Done? ==> e in s.stream)
    && (forall w: WorkerId :: At(s.outbox, w).batch != [] && At(s.outbox, w).stage.Succeeded? ==> At(s.outbox, w).batch[0].id in s.stream)
  }

  predicate BridgeOk(cfg: Config, s: State, b: WorkerId) {
    var h := Hand(s, b);
    && (forall k :: 0 <= k < |h.msgs| ==> h.msgs[k] < s.delivered <= |s.stream|)
    && (!h.stage.Unhandled? ==> h.msgs != [])
    && (h.stage.Stored? ==> s.stream[h.msgs[0]] in s.inbox.rows)
    && (h.stage.Refused? ==> s.stream[h.msgs[0]] in cfg.malformed)
  }

  ghost predicate BridgeInv(cfg: Config, s: State) { forall b: WorkerId :: BridgeOk(cfg, s, b) }

  function Processed(s: State, e: EventId): nat {
    if e in s.inbox.rows && s.inbox.rows[e].status.Done? then 1 else 0
  }

  ghost predicate EffectInv(s: State) { forall e: EventId :: s.effects[e] == Processed(s, e) }

  ghost predicate Inv(cfg: Config, s: State) {
    && QInv(s.outbox) && QInv(s.inbox)
    && OriginInv(cfg, s) && PendingInv(cfg, s) && PublishInv(s) && BridgeInv(cfg, s) && EffectInv(s)
  }

  lemma InvInit(cfg: Config)
    ensures Inv(cfg, INITIAL)
  {
    assert forall b: WorkerId :: Hand(INITIAL, b) == AWAY;
  }

  lemma QueuesStep(cfg: Config, s: State, t: Step)
    requires Inv(cfg, s) && StepEnabled(cfg, s, t)
    ensures QInv(Next(cfg, s, t).outbox) && QInv(Next(cfg, s, t).inbox)
  {
    match t
    case Enqueue(e, now) => StepKeepsQInv(s.outbox, Insert(e, now), cfg.outMax);
    case Outbox(o) => StepKeepsQInv(s.outbox, o, cfg.outMax);
    case Publish(w, outcome, _) => StepKeepsQInv(s.outbox, Act(w, outcome), cfg.outMax);
    case Store(b, now) =>
      var e := s.stream[Hand(s, b).msgs[0]];
      if e !in s.inbox.rows { StepKeepsQInv(s.inbox, Insert(e, now), 0); }
    case Inbox(i) => StepKeepsQInv(s.inbox, i, cfg.inMax);
    case _ =>
  }

  lemma OriginStep(cfg: Config, s: State, t: Step)
    requires Inv(cfg, s) && StepEnabled(cfg, s, t)
    ensures OriginInv(cfg, Next(cfg, s, t))
  {
    var s' := Next(cfg, s, t);
    match t
    case Publish(w, _, _) =>
      assert WorkerOk(s.outbox, w);
      assert SnapOk(s.outbox, w, Head(s.outbox, w));
    case Outbox(o) =>
      if o.Conclude? {
        assert WorkerOk(s.outbox, o.w);
        assert SnapOk(s.outbox, o.w, Head(s.outbox, o.w));
      }
    case Inbox(i) =>
      if i.Conclude? {
        assert WorkerOk(s.inbox, i.w);
        assert SnapOk(s.inbox, i.w, Head(s.inbox, i.w));
      }
    case _ =>
  }

  lemma PendingStep(cfg: Config, s: State, t: Step)
    requires Inv(cfg, s) && StepEnabled(cfg, s, t)
    ensures PendingInv(cfg, Next(cfg, s, t))
  {
    var s' := Next(cfg, s, t);
    if t.Read? {
      var ids := Unread(cfg, s);
      forall j | s.delivered <= j < s'.delivered ensures j in s'.pel {
        assert ids[j - s.delivered] == j;
      }
    }
    forall i | 0 <= i < s'.delivered && i !in s'.pel
      ensures s'.stream[i] in cfg.malformed || s'.stream[i] in s'.inbox.rows
    {
      match t
      case Ack(b) => assert BridgeOk(cfg, s, b);
      case _ => assert s'.stream[i] == s.stream[i];
    }
  }

  // Streams, deliveries and inboxes only grow.
  lemma StepGrows(cfg: Config, s: State, t: Step)
    requires Inv(cfg, s) && StepEnabled(cfg, s, t)
    ensures var s' := Next(cfg, s, t);
            s.stream <= s'.stream && s.delivered <= s'.delivered <= |s'.stream| && s.inbox.rows.Keys <= s'.inbox.rows.Keys
  {
    if t.Inbox? && t.i.Conclude? {
      assert WorkerOk(s.inbox, t.i.w);
      assert SnapOk(s.inbox, t.i.w, Head(s.inbox, t.i.w));
    }
  }

  lemma PublishedRows(cfg: Config, s: State, o: QStep, e: EventId)
    requires Inv(cfg, s) && StepEnabled(cfg, s, Outbox(o))
    requires e in LeaseQueue.Apply(s.outbox, o, cfg.outMax).rows && LeaseQueue.Apply(s.outbox, o, cfg.outMax).rows[e].status.Done?
    ensures e in s.stream
  {
    if o.Conclude? {
      assert WorkerOk(s.outbox, o.w);
      assert SnapOk(s.outbox, o.w, Head(s.outbox, o.w));
    }
  }

  lemma PublishStep(cfg: Config, s: State, t: Step)
    requires Inv(cfg, s) && StepEnabled(cfg, s, t)
    ensures PublishInv(Next(cfg, s, t))
  {
    var s' := Next(cfg, s, t);
    StepGrows(cfg, s, t);
    forall e | e in s'.outbox.rows && s'.outbox.rows[e].status.Done? ensures e in s'.stream {
      if t.Outbox? { PublishedRows(cfg, s, t.o, e); }
    }
    forall w: WorkerId | At(s'.outbox, w).batch != [] && At(s'.outbox, w).stage.Succeeded?
      ensures At(s'.outbox, w).batch[0].id in s'.stream
    {
      if t.Publish? && t.w == w {
      } else {
        assert At(s'.outbox, w) == At(s.outbox, w);
      }
    }
  }

  // A bridge whose hand a step leaves alone.
  lemma OtherBridge(cfg: Config, s: State, t: Step, b: WorkerId)
    requires Inv(cfg, s) && StepEnabled(cfg, s, t) && Hand(Next(cfg, s, t), b) == Hand(s, b)
    ensures BridgeOk(cfg, Next(cfg, s, t), b)
  {
    assert BridgeOk(cfg, s, b);
    StepGrows(cfg, s, t);
  }

  lemma OwnBridge(cfg: Config, s: State, t: Step)
    requires Inv(cfg, s) && StepEnabled(cfg, s, t)
    requires t.Read? || t.Reclaim? || t.Store? || t.Refuse? || t.Ack? || t.Leave? || t.Stop?
    ensures BridgeOk(cfg, Next(cfg, s, t), t.b)
  {
    assert BridgeOk(cfg, s, t.b);
  }

  lemma BridgeStep(cfg: Config, s: State, t: Step)
    requires Inv(cfg, s) && StepEnabled(cfg, s, t)
    ensures BridgeInv(cfg, Next(cfg, s, t))
  {
    var s' := Next(cfg, s, t);
    forall b: WorkerId ensures BridgeOk(cfg, s', b) {
      if Hand(s', b) == Hand(s, b) {
        OtherBridge(cfg, s, t, b);
      } else {
        OwnBridge(cfg, s, t);
      }
    }
  }

  // The one place where an effect appears is the one where its row becomes processed.
  lemma EffectsOfInbox(cfg: Config, s: State, i: QStep, e: EventId)
    requires Inv(cfg, s) && StepEnabled(cfg, s, Inbox(i))
    ensures Next(cfg, s, Inbox(i)).effects[e] == Processed(Next(cfg, s, Inbox(i)), e)
  {
    assert s.effects[e] == Processed(s, e);
    if e in s.inbox.rows {
      WorkersRefineTrigger(s.inbox, i, cfg.inMax, e);
    }
  }

  lemma EffectStep(cfg: Config, s: State, t: Step)
    requires Inv(cfg, s) && StepEnabled(cfg, s, t)
    ensures EffectInv(Next(cfg, s, t))
  {
    var s' := Next(cfg, s, t);
    forall e: EventId ensures s'.effects[e] == Processed(s', e) {
      assert s.effects[e] == Processed(s, e);
      if t.Inbox? { EffectsOfInbox(cfg, s, t.i, e); }
    }
  }

  /** Every step of every process keeps the pipeline invariant. */
  lemma StepKeepsInv(cfg: Config, s: State, t: Step)
    requires Inv(cfg, s) && StepEnabled(cfg, s, t)
    ensures Inv(cfg, Next(cfg, s, t))
  {
    QueuesStep(cfg, s, t);
    OriginStep(cfg, s, t);
    PendingStep(cfg, s, t);
    PublishStep(cfg, s, t);
    BridgeStep(cfg, s, t);
    EffectStep(cfg, s, t);
  }

  lemma {:induction false} RunKeepsInv(cfg: Config, s: State, steps: seq<Step>)
    requires Inv(cfg, s) && Run(cfg, s, steps).Some?
    ensures Inv(cfg, Run(cfg, s, steps).value)
    decreases |steps|
  {
    if steps != [] {
      StepKeepsInv(cfg, s, steps[0]);
      RunKeepsInv(cfg, Next(cfg, s, steps[0]), steps[1..]);
    }
  }
}
