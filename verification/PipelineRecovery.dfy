/**
Recoverability of the pipeline: from any reachable state, however many processes died in
the middle of their work, surviving (or restarted) workers settle every event, and they do
so whatever the transport and the effect handlers answer, because retries are budgeted.
*/
module PipelineRecovery {
  import opened Common
  import opened StatusTriggers
  import opened LeaseQueue
  import opened Pipeline
  import opened PipelineSafety

  // What the environment answers on the n-th attempt at an event: each event its own answers.
  datatype PubAnswer = PubAnswer(stage: Stage, appended: bool)
  type Publication = a: PubAnswer | !a.stage.Ready? && (a.stage.Succeeded? ==> a.appended) witness PubAnswer(Succeeded, true)
  type Outcome = g: Stage | !g.Ready? witness Succeeded
  datatype Env = Env(publish: (EventId, nat) -> Publication, effect: (EventId, nat) -> Outcome)

  // Crash-free steps, adding no new work, in which every external answer is the environment's, not ours to choose.
  predicate Faithful(env: Env, s: State, t: Step)
  {
    match t
    case Enqueue(_, _) => false
    case Outbox(o) => !o.Drop?
    case Publish(w, outcome, appended) =>
      At(s.outbox, w).batch != [] &&
      PubAnswer(outcome, appended) == env.publish(Head(s.outbox, w).id, Head(s.outbox, w).attempts)
    case Inbox(i) =>
      match i {
        case Act(w, stage) => At(s.inbox, w).batch != [] && stage == env.effect(Head(s.inbox, w).id, Head(s.inbox, w).attempts)
        case Skip(_) => false
        case Drop(_) => false
        case _ => true
      }
    case Leave(_) => false
    case Stop(_) => false
    case _ => true
  }

  // The crash-free schedule steps leads from s to s'.
  ghost predicate Leads(cfg: Config, env: Env, s: State, steps: seq<Step>, s': State)
    decreases |steps|
  {
    if steps == [] then s == s'
    else StepEnabled(cfg, s, steps[0]) && Faithful(env, s, steps[0]) && Leads(cfg, env, Next(cfg, s, steps[0]), steps[1..], s')
  }

  lemma LeadsStep(cfg: Config, env: Env, s: State, t: Step, steps: seq<Step>, s': State)
    requires StepEnabled(cfg, s, t) && Faithful(env, s, t) && Leads(cfg, env, Next(cfg, s, t), steps, s')
    ensures Leads(cfg, env, s, [t] + steps, s')
  {
    assert ([t] + steps)[1..] == steps;
  }

  lemma LeadsThree(cfg: Config, env: Env, s: State, t1: Step, t2: Step, t3: Step) returns (steps: seq<Step>, s': State)
    requires StepEnabled(cfg, s, t1) && Faithful(env, s, t1)
    requires var s1 := Next(cfg, s, t1);
             && StepEnabled(cfg, s1, t2) && Faithful(env, s1, t2)
             && var s2 := Next(cfg, s1, t2);
             StepEnabled(cfg, s2, t3) && Faithful(env, s2, t3)
    ensures s' == Next(cfg, Next(cfg, Next(cfg, s, t1), t2), t3) && Leads(cfg, env, s, steps, s')
  {
    var s1 := Next(cfg, s, t1);
    var s2 := Next(cfg, s1, t2);
    s' := Next(cfg, s2, t3);
    LeadsStep(cfg, env, s2, t3, [], s');
    LeadsStep(cfg, env, s1, t2, [t3] + [], s');
    LeadsStep(cfg, env, s, t1, [t2] + ([t3] + []), s');
    steps := [t1] + ([t2] + ([t3] + []));
  }

  lemma {:induction false} LeadsAppend(cfg: Config, env: Env, s: State, a: seq<Step>, s': State, b: seq<Step>, s'': State)
    requires Leads(cfg, env, s, a, s') && Leads(cfg, env, s', b, s'')
    ensures Leads(cfg, env, s, a + b, s'')
    decreases |a|
  {
    if a == [] {
      assert a + b == b;
    } else {
      AppendTail(a, b);
      LeadsAppend(cfg, env, Next(cfg, s, a[0]), a[1..], s', b, s'');
    }
  }

  lemma AppendTail(a: seq<Step>, b: seq<Step>)
    requires a != []
    ensures (a + b)[0] == a[0] && (a + b)[1..] == a[1..] + b && a + b != []
  {
  }

  lemma {:induction false} LeadsRuns(cfg: Config, env: Env, s: State, steps: seq<Step>, s': State)
    requires Leads(cfg, env, s, steps, s')
    ensures Run(cfg, s, steps) == Some(s')
    ensures Inv(cfg, s) ==> Inv(cfg, s')
    ensures Preserves(s, s') && s'.outbox.rows.Keys == s.outbox.rows.Keys
    decreases |steps|
  {
    if steps != [] {
      LeadsRuns(cfg, env, Next(cfg, s, steps[0]), steps[1..], s');
      StepPreserves(cfg, s, steps[0]);
      if Inv(cfg, s) { StepKeepsInv(cfg, s, steps[0]); }
    }
  }

  // ---- one claim-act-conclude round of a leased queue ----

  // Rounds a row can still need: none once terminal, else one more than its unspent attempts.
  function Rounds(r: Row, max: nat): nat {
    if Terminal(r) then 0 else if r.attempts < max then 1 + max - r.attempts else 1
  }

  // A moment by which the row's backoff and lease have both run out.
  function DueTime(r: Row): int {
    if r.claimedUntil.Some? && r.claimedUntil.value > r.availableAt then r.claimedUntil.value else r.availableAt
  }

  lemma Round(q: Queue, w: WorkerId, e: EventId, outcome: Outcome, max: nat)
    requires e in q.rows && !Terminal(q.rows[e]) && At(q, w) == IDLE
    ensures var now := DueTime(q.rows[e]);
            && Enabled(q, Claim(w, [e], 0, now))
            && var q1 := LeaseQueue.Apply(q, Claim(w, [e], 0, now), max);
            && Enabled(q1, Act(w, outcome)) && Head(q1, w) == Snap(e, q.rows[e].attempts + 1)
            && var q2 := LeaseQueue.Apply(q1, Act(w, outcome), max);
            && Enabled(q2, Conclude(w, now, now)) && Head(q2, w) == Snap(e, q.rows[e].attempts + 1)
            && At(q2, w).stage == outcome && Owned(q2, e, w)
            && var q3 := LeaseQueue.Apply(q2, Conclude(w, now, now), max);
            && At(q3, w) == IDLE
            && e in q3.rows && Rounds(q3.rows[e], max) < Rounds(q.rows[e], max)
            && (q3.rows[e].status.Done? ==> outcome.Succeeded?)
  {
    var now := DueTime(q.rows[e]);
    var q1 := LeaseQueue.Apply(q, Claim(w, [e], 0, now), max);
    assert e in [e];
    assert q1.rows[e].status.Processing?;
    assert At(q1, w).batch == [Snap(e, q.rows[e].attempts + 1)];
  }

  // ---- the publisher side ----

  // No row but e's is touched.
  predicate SameBut(q: Queue, q': Queue, e: EventId) {
    q'.rows.Keys == q.rows.Keys && forall f :: f in q.rows && f != e ==> q'.rows[f] == q.rows[f]
  }

  lemma RoundFrame(q: Queue, w: WorkerId, e: EventId, outcome: Outcome, max: nat)
    requires e in q.rows && !Terminal(q.rows[e]) && At(q, w) == IDLE
    ensures var now := DueTime(q.rows[e]);
            && Enabled(q, Claim(w, [e], 0, now))
            && var q1 := LeaseQueue.Apply(q, Claim(w, [e], 0, now), max);
            && Enabled(q1, Act(w, outcome))
            && var q2 := LeaseQueue.Apply(q1, Act(w, outcome), max);
            && Enabled(q2, Conclude(w, now, now))
            && SameBut(q, LeaseQueue.Apply(q2, Conclude(w, now, now), max), e)
  {
    Round(q, w, e, outcome, max);
    var q1 := LeaseQueue.Apply(q, Claim(w, [e], 0, DueTime(q.rows[e])), max);
    assert forall f :: f in [e] ==> f == e;
    assert SameBut(q, q1, e);
  }

  // One claim-publish-mark round on row e.
  lemma PublishRound(cfg: Config, env: Env, s: State, e: EventId, p: WorkerId) returns (steps: seq<Step>, s': State)
    requires Inv(cfg, s) && e in s.outbox.rows && At(s.outbox, p) == IDLE && !Terminal(s.outbox.rows[e])
    ensures Leads(cfg, env, s, steps, s')
    ensures At(s'.outbox, p) == IDLE && s'.bridges == s.bridges && s'.inbox == s.inbox && s'.pel == s.pel && s'.delivered == s.delivered
    ensures e in s'.outbox.rows && Rounds(s'.outbox.rows[e], cfg.outMax) < Rounds(s.outbox.rows[e], cfg.outMax)
    ensures s'.outbox.rows[e].status.Done? ==> s'.stream == s.stream + [e]
    ensures SameBut(s.outbox, s'.outbox, e)
  {
    var now := DueTime(s.outbox.rows[e]);
    var a: Publication := env.publish(e, s.outbox.rows[e].attempts + 1);
    Round(s.outbox, p, e, a.stage, cfg.outMax);
    RoundFrame(s.outbox, p, e, a.stage, cfg.outMax);
    steps, s' := LeadsThree(cfg, env, s, Outbox(Claim(p, [e], 0, now)), Publish(p, a.stage, a.appended), Outbox(Conclude(p, now, now)));
  }

  // The last message is e's and still to be read.
  predicate NewlyUnread(s: State, e: EventId) { s.stream != [] && s.stream[|s.stream| - 1] == e && |s.stream| > s.delivered }

  lemma PublishRoundFresh(cfg: Config, env: Env, s: State, e: EventId, p: WorkerId) returns (steps: seq<Step>, s': State)
    requires Inv(cfg, s) && e in s.outbox.rows && At(s.outbox, p) == IDLE && !Terminal(s.outbox.rows[e])
    ensures Leads(cfg, env, s, steps, s') && Inv(cfg, s')
    ensures At(s'.outbox, p) == IDLE && s'.bridges == s.bridges && s'.inbox == s.inbox && s'.pel == s.pel && s'.delivered == s.delivered
    ensures e in s'.outbox.rows && Rounds(s'.outbox.rows[e], cfg.outMax) < Rounds(s.outbox.rows[e], cfg.outMax)
    ensures s'.outbox.rows[e].status.Done? ==> NewlyUnread(s', e)
    ensures SameBut(s.outbox, s'.outbox, e)
  {
    assert s.delivered <= |s.stream|;
    steps, s' := PublishRound(cfg, env, s, e, p);
    LeadsRuns(cfg, env, s, steps, s');
  }

  /** A publisher cycle repeated on row e ends with e published or dead-lettered, whatever the
      transport answers; a row it publishes has a new, unread message. */
  lemma {:induction false} SettleOutbox(cfg: Config, env: Env, s: State, e: EventId, p: WorkerId) returns (steps: seq<Step>, s': State)
    requires Inv(cfg, s) && e in s.outbox.rows && At(s.outbox, p) == IDLE
    ensures Leads(cfg, env, s, steps, s')
    ensures At(s'.outbox, p) == IDLE && s'.bridges == s.bridges && s'.inbox == s.inbox && s'.pel == s.pel && s'.delivered == s.delivered
    ensures e in s'.outbox.rows && Terminal(s'.outbox.rows[e])
    ensures s'.outbox.rows[e].status.Done? ==> s' == s || NewlyUnread(s', e)
    decreases Rounds(s.outbox.rows[e], cfg.outMax)
  {
    if Terminal(s.outbox.rows[e]) {
      return [], s;
    }
    var r, s1 := PublishRoundFresh(cfg, env, s, e, p);
    var rest, last := SettleOutbox(cfg, env, s1, e, p);
    LeadsAppend(cfg, env, s, r, s1, rest, last);
    steps, s' := r + rest, last;
  }

  // ---- the consumer side ----

  // One claim-handle-mark round on row e.
  lemma ConsumeRound(cfg: Config, env: Env, s: State, e: EventId, c: WorkerId) returns (steps: seq<Step>, s': State)
    requires e in s.inbox.rows && At(s.inbox, c) == IDLE && !Terminal(s.inbox.rows[e])
    ensures Leads(cfg, env, s, steps, s')
    ensures At(s'.inbox, c) == IDLE && s'.bridges == s.bridges && s'.outbox == s.outbox
    ensures e in s'.inbox.rows && Rounds(s'.inbox.rows[e], cfg.inMax) < Rounds(s.inbox.rows[e], cfg.inMax)
  {
    var now := DueTime(s.inbox.rows[e]);
    var g: Outcome := env.effect(e, s.inbox.rows[e].attempts + 1);
    Round(s.inbox, c, e, g, cfg.inMax);
    steps, s' := LeadsThree(cfg, env, s, Inbox(Claim(c, [e], 0, now)), Inbox(Act(c, g)), Inbox(Conclude(c, now, now)));
  }

  /** A consumer cycle repeated on row e ends with e processed or dead-lettered, whatever its
      handler does. */
  lemma {:induction false} SettleInbox(cfg: Config, env: Env, s: State, e: EventId, c: WorkerId) returns (steps: seq<Step>, s': State)
    requires e in s.inbox.rows && At(s.inbox, c) == IDLE
    ensures Leads(cfg, env, s, steps, s')
    ensures At(s'.inbox, c) == IDLE && s'.bridges == s.bridges && s'.outbox == s.outbox
    ensures e in s'.inbox.rows && Terminal(s'.inbox.rows[e])
    decreases Rounds(s.inbox.rows[e], cfg.inMax)
  {
    if Terminal(s.inbox.rows[e]) {
      return [], s;
    }
    var r, s1 := ConsumeRound(cfg, env, s, e, c);
    var rest, last := SettleInbox(cfg, env, s1, e, c);
    LeadsAppend(cfg, env, s, r, s1, rest, last);
    steps, s' := r + rest, last;
  }

  // ---- the bridge side ----

  // A bridge schedule touches neither the outbox side nor the consumers nor other bridges.
  ghost predicate OnlyBridge(s: State, s': State, b: WorkerId) {
    && s'.outbox == s.outbox && s'.stream == s.stream && s'.inbox.workers == s.inbox.workers
    && s'.effects == s.effects
    && (forall v: WorkerId :: v != b ==> Hand(s', v) == Hand(s, v))
  }

  // What a bridge does next with its first message.
  function NextHandling(cfg: Config, s: State, b: WorkerId): Step
    requires Hand(s, b).msgs != [] && Hand(s, b).msgs[0] < |s.stream|
  {
    if !Hand(s, b).stage.Unhandled? then Ack(b)
    else if s.stream[Hand(s, b).msgs[0]] in cfg.malformed then Refuse(b) else Store(b, 0)
  }

  lemma HandleOne(cfg: Config, env: Env, s: State, b: WorkerId)
    requires Inv(cfg, s) && Hand(s, b).msgs != []
    ensures Hand(s, b).msgs[0] < |s.stream|
    ensures var t := NextHandling(cfg, s, b);
            && StepEnabled(cfg, s, t) && Faithful(env, s, t)
            && var s1 := Next(cfg, s, t);
            && Inv(cfg, s1) && OnlyBridge(s, s1, b) && s1.delivered == s.delivered
            && (forall e :: e in s.inbox.rows ==> e in s1.inbox.rows)
            && Hand(s1, b).msgs == (if t.Ack? then Hand(s, b).msgs[1..] else Hand(s, b).msgs)
            && (t.Ack? <==> !Hand(s, b).stage.Unhandled?) && (!t.Ack? ==> !Hand(s1, b).stage.Unhandled?)
  {
    assert BridgeOk(cfg, s, b);
    var t := NextHandling(cfg, s, b);
    StepKeepsInv(cfg, s, t);
  }

  /** A bridge that keeps going stores every well-formed message it has in hand. */
  lemma {:induction false} DrainHand(cfg: Config, env: Env, s: State, b: WorkerId) returns (steps: seq<Step>, s': State)
    requires Inv(cfg, s)
    ensures Leads(cfg, env, s, steps, s') && OnlyBridge(s, s', b) && s'.delivered == s.delivered
    ensures Hand(s', b) == AWAY
    ensures forall e :: e in s.inbox.rows ==> e in s'.inbox.rows
    ensures forall k :: 0 <= k < |Hand(s, b).msgs| ==>
              var i := Hand(s, b).msgs[k];
              i < |s.stream| && (s.stream[i] !in cfg.malformed ==> s.stream[i] in s'.inbox.rows)
    decreases |Hand(s, b).msgs|, if Hand(s, b).stage.Unhandled? then 1 else 0
  {
    var msgs := Hand(s, b).msgs;
    assert BridgeOk(cfg, s, b);
    if msgs == [] {
      return [], s;
    }
    HandleOne(cfg, env, s, b);
    var t := NextHandling(cfg, s, b);
    var s1 := Next(cfg, s, t);
    var rest, last := DrainHand(cfg, env, s1, b);
    LeadsStep(cfg, env, s, t, rest, last);
    var d := if t.Ack? then 1 else 0;
    forall k | 0 <= k < |msgs|
      ensures msgs[k] < |s.stream| && (s.stream[msgs[k]] !in cfg.malformed ==> s.stream[msgs[k]] in last.inbox.rows)
    {
      if k >= d { assert Hand(s1, b).msgs[k - d] == msgs[k]; }
    }
    steps, s' := [t] + rest, last;
  }

  // What a read puts in an idle bridge's hand.
  lemma ReadHands(cfg: Config, env: Env, s: State, b: WorkerId)
    requires Inv(cfg, s) && Hand(s, b) == AWAY && s.delivered <= |s.stream|
    ensures var s1 := Next(cfg, s, Read(b));
            && StepEnabled(cfg, s, Read(b)) && Faithful(env, s, Read(b)) && OnlyBridge(s, s1, b)
            && s1.inbox == s.inbox && s1.delivered == s.delivered + |Unread(cfg, s)|
            && Hand(s1, b).msgs == Unread(cfg, s)
  {
  }

  // One read cycle of an idle bridge: everything it read is stored.
  lemma ReadRound(cfg: Config, env: Env, s: State, b: WorkerId) returns (steps: seq<Step>, s': State)
    requires Inv(cfg, s) && Hand(s, b) == AWAY
    ensures Inv(cfg, s') && Leads(cfg, env, s, steps, s') && OnlyBridge(s, s', b) && Hand(s', b) == AWAY
    ensures s.delivered <= |s.stream| && s'.delivered == s.delivered + |Unread(cfg, s)| <= |s.stream|
    ensures forall i :: s.delivered <= i < s'.delivered && s.stream[i] !in cfg.malformed ==> s.stream[i] in s'.inbox.rows
    ensures forall e :: e in s.inbox.rows ==> e in s'.inbox.rows
  {
    var ids := Unread(cfg, s);
    ReadHands(cfg, env, s, b);
    StepKeepsInv(cfg, s, Read(b));
    var s1 := Next(cfg, s, Read(b));
    var d;
    d, s' := DrainHand(cfg, env, s1, b);
    LeadsStep(cfg, env, s, Read(b), d, s');
    LeadsRuns(cfg, env, s1, d, s');
    steps := [Read(b)] + d;
    forall i | s.delivered <= i < s'.delivered && s.stream[i] !in cfg.malformed ensures s.stream[i] in s'.inbox.rows {
      assert ids[i - s.delivered] == i;
    }
  }

  /** Repeated read cycles reach and store the message at position i, behind all earlier ones. */
  lemma {:induction false} ReadUpTo(cfg: Config, env: Env, s: State, b: WorkerId, i: nat) returns (steps: seq<Step>, s': State)
    requires Inv(cfg, s) && Hand(s, b) == AWAY && cfg.readCount >= 1
    requires s.delivered <= i < |s.stream| && s.stream[i] !in cfg.malformed
    ensures Leads(cfg, env, s, steps, s') && OnlyBridge(s, s', b)
    ensures Hand(s', b) == AWAY && s.stream[i] in s'.inbox.rows
    decreases |s.stream| - s.delivered
  {
    steps, s' := ReadRound(cfg, env, s, b);
    if i >= s'.delivered {
      var rest, last := ReadUpTo(cfg, env, s', b, i);
      LeadsAppend(cfg, env, s, steps, s', rest, last);
      steps, s' := steps + rest, last;
    }
  }

  // ---- the verdict ----

  // e has reached a terminal row, or was published and its envelope cannot be parsed.
  predicate Settled(cfg: Config, s: State, e: EventId) {
    && e in s.outbox.rows
    && (|| s.outbox.rows[e].status.DeadLetter?
        || (e in s.inbox.rows && Terminal(s.inbox.rows[e]))
        || (s.outbox.rows[e].status.Done? && e in cfg.malformed))
  }

  predicate InHand(s: State, b: WorkerId, k: nat, e: EventId) {
    && k < |Hand(s, b).msgs| && Hand(s, b).msgs[k] < |s.stream|
    && s.stream[Hand(s, b).msgs[k]] == e
  }

  // Publisher w still has e to publish from an old claim, and the transport will append it.
  predicate WillAppend(env: Env, s: State, w: WorkerId, k: nat, e: EventId) {
    && k < |At(s.outbox, w).batch| && At(s.outbox, w).batch[k].id == e
    && (k > 0 || At(s.outbox, w).stage.Ready?)
    && env.publish(e, At(s.outbox, w).batch[k].attempts).appended
  }

  // e was published, yet every message of it was handed out to a bridge that no longer has
  // it, none was acknowledged, and no publisher is about to send another.
  ghost predicate Stranded(cfg: Config, env: Env, s: State, e: EventId) {
    && e in s.outbox.rows && s.outbox.rows[e].status.Done?
    && e !in cfg.malformed && e !in s.inbox.rows
    && (forall i :: s.delivered <= i < |s.stream| ==> s.stream[i] != e)
    && (forall b: WorkerId, k: nat :: !InHand(s, b, k, e))
    && (forall w: WorkerId, k: nat :: !WillAppend(env, s, w, k, e))
  }

  // One publish-and-mark of the batch head of publisher w.
  lemma PublishHead(cfg: Config, env: Env, s: State, w: WorkerId) returns (steps: seq<Step>, s': State)
    requires Inv(cfg, s) && At(s.outbox, w).batch != []
    ensures Leads(cfg, env, s, steps, s')
    ensures At(s'.outbox, w).batch == At(s.outbox, w).batch[1..] && At(s'.outbox, w).stage.Ready?
    ensures forall v: WorkerId :: v != w ==> At(s'.outbox, v) == At(s.outbox, v)
    ensures s'.inbox == s.inbox && s'.bridges == s.bridges && s'.delivered == s.delivered && s.stream <= s'.stream
    ensures At(s.outbox, w).stage.Ready? && env.publish(Head(s.outbox, w).id, Head(s.outbox, w).attempts).appended ==>
              s'.stream == s.stream + [Head(s.outbox, w).id]
  {
    var t3 := Outbox(Conclude(w, 0, 0));
    if At(s.outbox, w).stage.Ready? {
      var a: Publication := env.publish(Head(s.outbox, w).id, Head(s.outbox, w).attempts);
      var t2 := Publish(w, a.stage, a.appended);
      var s2 := Next(cfg, s, t2);
      s' := Next(cfg, s2, t3);
      LeadsStep(cfg, env, s2, t3, [], s');
      LeadsStep(cfg, env, s, t2, [t3] + [], s');
      steps := [t2] + ([t3] + []);
    } else {
      s' := Next(cfg, s, t3);
      LeadsStep(cfg, env, s, t3, [], s');
      steps := [t3] + [];
    }
  }

  /** A publisher that lost its claims but keeps going works through its old batch and appends
      the message of entry k again, as at-least-once delivery has it. */
  lemma {:induction false} FinishOldBatch(cfg: Config, env: Env, s: State, w: WorkerId, k: nat, e: EventId) returns (steps: seq<Step>, s': State)
    requires Inv(cfg, s) && WillAppend(env, s, w, k, e)
    ensures Leads(cfg, env, s, steps, s')
    ensures forall v: WorkerId :: v != w ==> At(s'.outbox, v) == At(s.outbox, v)
    ensures s'.inbox == s.inbox && s'.bridges == s.bridges && s'.delivered == s.delivered
    ensures exists i :: s'.delivered <= i < |s'.stream| && s'.stream[i] == e
    decreases k
  {
    var r, s1 := PublishHead(cfg, env, s, w);
    LeadsRuns(cfg, env, s, r, s1);
    if k == 0 {
      assert s1.stream[|s.stream|] == e;
      steps, s' := r, s1;
    } else {
      assert WillAppend(env, s1, w, k - 1, e);
      var rest, last := FinishOldBatch(cfg, env, s1, w, k - 1, e);
      LeadsAppend(cfg, env, s, r, s1, rest, last);
      steps, s' := r + rest, last;
    }
  }

  lemma StoreUnread(cfg: Config, env: Env, s: State, e: EventId, b: WorkerId) returns (steps: seq<Step>, s': State)
    requires Inv(cfg, s) && Hand(s, b) == AWAY && cfg.readCount >= 1 && e !in cfg.malformed
    requires exists i :: s.delivered <= i < |s.stream| && s.stream[i] == e
    ensures Leads(cfg, env, s, steps, s') && e in s'.inbox.rows
    ensures s'.outbox == s.outbox && s'.inbox.workers == s.inbox.workers && Hand(s', b) == AWAY
  {
    var i :| s.delivered <= i < |s.stream| && s.stream[i] == e;
    steps, s' := ReadUpTo(cfg, env, s, b, i);
  }

  lemma StoreReclaimed(cfg: Config, env: Env, s: State, e: EventId, b: WorkerId) returns (steps: seq<Step>, s': State)
    requires Inv(cfg, s) && Hand(s, b) == AWAY && cfg.reclaimDelivers && e !in cfg.malformed && e !in s.inbox.rows
    requires e in s.stream && forall i :: s.delivered <= i < |s.stream| ==> s.stream[i] != e
    ensures Leads(cfg, env, s, steps, s') && e in s'.inbox.rows
    ensures s'.outbox == s.outbox && s'.inbox.workers == s.inbox.workers && Hand(s', b) == AWAY
  {
    var i :| 0 <= i < |s.stream| && s.stream[i] == e;
    assert i in s.pel;
    var t := Reclaim(b, [i]);
    StepKeepsInv(cfg, s, t);
    var s1 := Next(cfg, s, t);
    var d, s2 := DrainHand(cfg, env, s1, b);
    assert Hand(s1, b).msgs[0] == i;
    LeadsStep(cfg, env, s, t, d, s2);
    steps, s' := [t] + d, s2;
  }

  /** A published, parsable event that is not stranded gets its inbox row. */
  lemma StoreMessage(cfg: Config, env: Env, s: State, e: EventId, b: WorkerId) returns (steps: seq<Step>, s': State)
    requires Inv(cfg, s) && Hand(s, b) == AWAY && cfg.readCount >= 1
    requires e in s.outbox.rows && s.outbox.rows[e].status.Done? && e !in cfg.malformed
    requires cfg.reclaimDelivers || !Stranded(cfg, env, s, e)
    ensures Leads(cfg, env, s, steps, s') && e in s'.inbox.rows
    ensures s'.inbox.workers == s.inbox.workers && Hand(s', b) == AWAY
    ensures forall v: WorkerId :: At(s.outbox, v) == IDLE ==> At(s'.outbox, v) == IDLE
  {
    if e in s.inbox.rows {
      return [], s;
    }
    if exists i :: s.delivered <= i < |s.stream| && s.stream[i] == e {
      steps, s' := StoreUnread(cfg, env, s, e, b);
    } else if cfg.reclaimDelivers {
      steps, s' := StoreReclaimed(cfg, env, s, e, b);
    } else if v: WorkerId, k: nat :| InHand(s, v, k, e) {
      steps, s' := DrainHand(cfg, env, s, v);
    } else {
      var w: WorkerId, k: nat :| WillAppend(env, s, w, k, e);
      var f, s1 := FinishOldBatch(cfg, env, s, w, k, e);
      LeadsRuns(cfg, env, s, f, s1);
      var m, s2 := StoreUnread(cfg, env, s1, e, b);
      LeadsAppend(cfg, env, s, f, s1, m, s2);
      steps, s' := f + m, s2;
    }
  }

  // A published event, from the stream to a terminal inbox row.
  lemma SettlePublished(cfg: Config, env: Env, s: State, e: EventId, b: WorkerId, c: WorkerId)
    returns (steps: seq<Step>, s': State)
    requires Inv(cfg, s) && cfg.readCount >= 1 && Hand(s, b) == AWAY && At(s.inbox, c) == IDLE
    requires e in s.outbox.rows && s.outbox.rows[e].status.Done? && e !in cfg.malformed
    requires cfg.reclaimDelivers || !Stranded(cfg, env, s, e)
    ensures Leads(cfg, env, s, steps, s') && e in s'.inbox.rows && Terminal(s'.inbox.rows[e])
    ensures Hand(s', b) == AWAY && At(s'.inbox, c) == IDLE
    ensures forall v: WorkerId :: At(s.outbox, v) == IDLE ==> At(s'.outbox, v) == IDLE
  {
    var m, s1 := StoreMessage(cfg, env, s, e, b);
    var z, s2 := SettleInbox(cfg, env, s1, e, c);
    LeadsAppend(cfg, env, s, m, s1, z, s2);
    steps, s' := m + z, s2;
  }

  // A row that has just got a new message is not stranded; one that was settled before is as it was.
  lemma PublishedNotStranded(cfg: Config, env: Env, s: State, s1: State, e: EventId)
    requires cfg.reclaimDelivers || !Stranded(cfg, env, s, e)
    requires s1 == s || NewlyUnread(s1, e)
    ensures cfg.reclaimDelivers || !Stranded(cfg, env, s1, e)
  {
    if s1 != s { assert s1.stream[|s1.stream| - 1] == e; }
  }

  /** From any reachable state, an event that is not stranded is settled by a finite crash-free
      schedule, against every environment. */
  lemma SettleEvent(cfg: Config, env: Env, s: State, e: EventId, p: WorkerId, b: WorkerId, c: WorkerId)
    returns (steps: seq<Step>, s': State)
    requires Inv(cfg, s) && e in s.outbox.rows && cfg.readCount >= 1
    requires At(s.outbox, p) == IDLE && Hand(s, b) == AWAY && At(s.inbox, c) == IDLE
    requires cfg.reclaimDelivers || !Stranded(cfg, env, s, e)
    ensures Leads(cfg, env, s, steps, s') && Settled(cfg, s', e)
    ensures At(s'.outbox, p) == IDLE && Hand(s', b) == AWAY && At(s'.inbox, c) == IDLE
  {
    var a, s1 := SettleOutbox(cfg, env, s, e, p);
    if s1.outbox.rows[e].status.DeadLetter? || e in cfg.malformed {
      return a, s1;
    }
    LeadsRuns(cfg, env, s, a, s1);
    PublishedNotStranded(cfg, env, s, s1, e);
    var m, s2 := SettlePublished(cfg, env, s1, e, b, c);
    LeadsRuns(cfg, env, s1, m, s2);
    LeadsAppend(cfg, env, s, a, s1, m, s2);
    steps, s' := a + m, s2;
  }

  // ---- exactly when recovery is possible ----

  // No step of a bridge or of the stream lets go of "nobody has a message of e".
  lemma NobodyPicksUp(cfg: Config, env: Env, s: State, t: Step, e: EventId, b: WorkerId, k: nat)
    requires Inv(cfg, s) && Stranded(cfg, env, s, e) && !cfg.reclaimDelivers && StepEnabled(cfg, s, t)
    ensures !InHand(Next(cfg, s, t), b, k, e)
  {
    var s' := Next(cfg, s, t);
    assert BridgeOk(cfg, s, b);
    assert !InHand(s, b, k, e) && !InHand(s, b, k + 1, e);
    if t.Read? && t.b == b && k < |Hand(s', b).msgs| && k >= |Hand(s, b).msgs| {
      assert Hand(s', b).msgs[k] == Unread(cfg, s)[k - |Hand(s, b).msgs|];
    }
  }

  lemma NobodyAppends(cfg: Config, env: Env, s: State, t: Step, e: EventId, w: WorkerId, k: nat)
    requires Inv(cfg, s) && Stranded(cfg, env, s, e) && StepEnabled(cfg, s, t)
    ensures !WillAppend(env, Next(cfg, s, t), w, k, e)
  {
    var s' := Next(cfg, s, t);
    assert !WillAppend(env, s, w, k, e) && !WillAppend(env, s, w, k + 1, e);
    if t.Outbox? && t.o.Claim? && t.o.w == w && k < |t.o.ids| {
      assert Due(s.outbox.rows[t.o.ids[k]], t.o.now);
    }
  }

  /** Once stranded, always stranded: with a claim_stuck that hands nothing over, no step gets
      the event into the inbox. */
  lemma StrandedStays(cfg: Config, env: Env, s: State, t: Step, e: EventId)
    requires Inv(cfg, s) && Stranded(cfg, env, s, e) && !cfg.reclaimDelivers
    requires StepEnabled(cfg, s, t) && Faithful(env, s, t)
    ensures Stranded(cfg, env, Next(cfg, s, t), e)
  {
    var s' := Next(cfg, s, t);
    StepPreserves(cfg, s, t);
    forall b: WorkerId, k: nat ensures !InHand(s', b, k, e) { NobodyPicksUp(cfg, env, s, t, e, b, k); }
    forall w: WorkerId, k: nat ensures !WillAppend(env, s', w, k, e) { NobodyAppends(cfg, env, s, t, e, w, k); }
    if t.Publish? { assert !WillAppend(env, s, t.w, 0, e); }
    if t.Store? { assert !InHand(s, t.b, 0, e); }
  }

  lemma {:induction false} StrandedForever(cfg: Config, env: Env, s: State, steps: seq<Step>, s': State, e: EventId)
    requires Inv(cfg, s) && Stranded(cfg, env, s, e) && !cfg.reclaimDelivers
    requires Leads(cfg, env, s, steps, s')
    ensures !Settled(cfg, s', e)
    decreases |steps|
  {
    if steps != [] {
      StrandedStays(cfg, env, s, steps[0], e);
      StepKeepsInv(cfg, s, steps[0]);
      StrandedForever(cfg, env, Next(cfg, s, steps[0]), steps[1..], s', e);
    }
  }

  ghost predicate CanSettle(cfg: Config, env: Env, s: State, e: EventId) {
    exists steps: seq<Step>, s': State :: Leads(cfg, env, s, steps, s') && Settled(cfg, s', e)
  }

  /** The exact condition for recovery: an event can still be settled if and only if claim_stuck
      hands reclaimed messages over, or the event is not stranded. */
  lemma Recoverable(cfg: Config, env: Env, s: State, e: EventId)
    requires Inv(cfg, s) && e in s.outbox.rows && cfg.readCount >= 1
    ensures CanSettle(cfg, env, s, e) <==> cfg.reclaimDelivers || !Stranded(cfg, env, s, e)
  {
    if cfg.reclaimDelivers || !Stranded(cfg, env, s, e) {
      var p, b, c := NewProcess(s.outbox.workers), NewProcess(s.bridges), NewProcess(s.inbox.workers);
      var steps, s' := SettleEvent(cfg, env, s, e, p, b, c);
    } else if CanSettle(cfg, env, s, e) {
      var steps: seq<Step>, s': State :| Leads(cfg, env, s, steps, s') && Settled(cfg, s', e);
      StrandedForever(cfg, env, s, steps, s', e);
    }
  }

  // Event 0 enqueued, claimed, published and marked.
  lemma PublishingRun(cfg: Config) returns (steps: seq<Step>, s: State)
    ensures Run(cfg, INITIAL, steps) == Some(s)
    ensures s.stream == [0] && s.delivered == 0 && s.bridges == map[] && s.inbox.rows == map[] && s.pel == map[]
    ensures 0 in s.outbox.rows && s.outbox.rows[0].status.Done?
    ensures forall w: WorkerId :: At(s.outbox, w) == IDLE
  {
    var t0, t2, t3 := Enqueue(0, 0), Publish(0, Succeeded, true), Outbox(Conclude(0, 0, 0));
    var s1 := Next(cfg, INITIAL, t0);
    Round(s1.outbox, 0, 0, Succeeded, cfg.outMax);
    assert DueTime(s1.outbox.rows[0]) == 0;
    var c := Outbox(Claim(0, [0], 0, 0));
    var s2 := Next(cfg, s1, c);
    var s3 := Next(cfg, s2, t2);
    s := Next(cfg, s3, t3);
    RunStep(cfg, s3, t3, []);
    RunStep(cfg, s2, t2, [t3] + []);
    RunStep(cfg, s1, c, [t2] + ([t3] + []));
    RunStep(cfg, INITIAL, t0, [c] + ([t2] + ([t3] + [])));
    steps := [t0] + ([c] + ([t2] + ([t3] + [])));
  }

  /** A stranded event is reachable: a bridge that dies between reading and storing is enough. */
  lemma StrandingRun(cfg: Config, env: Env) returns (steps: seq<Step>)
    requires cfg.readCount >= 1 && 0 !in cfg.malformed
    ensures Run(cfg, INITIAL, steps).Some? && Stranded(cfg, env, Run(cfg, INITIAL, steps).value, 0)
  {
    var before, s4 := PublishingRun(cfg);
    var s5 := Next(cfg, s4, Read(0));
    var s6 := Next(cfg, s5, Stop(0));
    RunStep(cfg, s5, Stop(0), []);
    RunStep(cfg, s4, Read(0), [Stop(0)] + []);
    RunAppend(cfg, INITIAL, before, [Read(0)] + ([Stop(0)] + []));
    steps := before + ([Read(0)] + ([Stop(0)] + []));
    assert s6.delivered == 1;
    assert forall b: WorkerId :: Hand(s6, b) == AWAY;
  }

  lemma RunStep(cfg: Config, s: State, t: Step, rest: seq<Step>)
    requires StepEnabled(cfg, s, t)
    ensures Run(cfg, s, [t] + rest) == Run(cfg, Next(cfg, s, t), rest)
  {
    assert ([t] + rest)[1..] == rest;
  }

  // ---- all events ----

  // A process id nobody uses yet: a worker can always be restarted.
  ghost function NewProcess<V>(m: map<WorkerId, V>): (w: WorkerId)
    ensures w !in m
  {
    FreeId(m.Keys);
    var w: WorkerId :| w !in m.Keys;
    w
  }

  lemma FreeId(ids: set<WorkerId>)
    ensures exists w: WorkerId :: w !in ids
  {
    var w := AboveAll(ids);
    assert w !in ids;
  }

  lemma {:induction false} AboveAll(ids: set<WorkerId>) returns (w: WorkerId)
    ensures forall i :: i in ids ==> i < w
  {
    if ids == {} {
      w := 0;
    } else {
      var i :| i in ids;
      var v := AboveAll(ids - {i});
      w := if v > i then v else i + 1;
      forall j | j in ids ensures j < w {
        if j != i { assert j in ids - {i}; }
      }
    }
  }
}
