/**
Recovery of all events at once. One crash-free schedule settles every event that can still be
settled, from every reachable state and whatever claim_stuck does: first each outbox row is closed by
a fresh publisher, then the events are taken to the inbox and through it one by one, and none of
this strands an event that was not stranded before.
*/
module PipelineRecoverAll {
  import opened Common
  import opened StatusTriggers
  import opened LeaseQueue
  import opened Pipeline
  import opened PipelineSafety
  import opened PipelineRecovery

  // ---- not being stranded is kept ----

  // What still carries a published, well-formed event towards the inbox.
  predicate Unread(s: State, e: EventId) { exists i :: s.delivered <= i < |s.stream| && s.stream[i] == e }
  ghost predicate Carried(s: State, e: EventId) { exists b: WorkerId, k: nat :: InHand(s, b, k, e) }
  ghost predicate Coming(env: Env, s: State, e: EventId) { exists w: WorkerId, k: nat :: WillAppend(env, s, w, k, e) }

  // The three of them, or in the inbox already.
  ghost predicate Alive(env: Env, s: State, e: EventId) { e in s.inbox.rows || Unread(s, e) || Carried(s, e) || Coming(env, s, e) }

  lemma StrandedIsNotAlive(cfg: Config, env: Env, s: State, e: EventId)
    requires e in s.outbox.rows && s.outbox.rows[e].status.Done? && e !in cfg.malformed
    ensures Stranded(cfg, env, s, e) <==> !Alive(env, s, e)
  {
  }

  lemma UnreadStays(cfg: Config, env: Env, s: State, t: Step, e: EventId)
    requires Inv(cfg, s) && StepEnabled(cfg, s, t) && Unread(s, e)
    ensures Alive(env, Next(cfg, s, t), e)
  {
    var s' := Next(cfg, s, t);
    var i :| s.delivered <= i < |s.stream| && s.stream[i] == e;
    StepGrows(cfg, s, t);
    assert s'.stream[i] == e;
    if t.Read? && i < s'.delivered {
      var k := |Hand(s, t.b).msgs| + (i - s.delivered);
      assert Hand(s', t.b).msgs[k] == i;
      assert InHand(s', t.b, k, e);
    }
  }

  lemma CarriedStays(cfg: Config, env: Env, s: State, t: Step, e: EventId)
    requires Inv(cfg, s) && StepEnabled(cfg, s, t) && Faithful(env, s, t) && Carried(s, e) && e !in cfg.malformed
    ensures Alive(env, Next(cfg, s, t), e)
  {
    var s' := Next(cfg, s, t);
    var b: WorkerId, k: nat :| InHand(s, b, k, e);
    assert BridgeOk(cfg, s, b);
    StepGrows(cfg, s, t);
    assert s'.stream[Hand(s, b).msgs[k]] == e;
    if t == Ack(b) {
      if k > 0 { assert InHand(s', b, k - 1, e); }
    } else {
      assert InHand(s', b, k, e);
    }
  }

  lemma ComingStays(cfg: Config, env: Env, s: State, t: Step, e: EventId)
    requires Inv(cfg, s) && StepEnabled(cfg, s, t) && Faithful(env, s, t) && Coming(env, s, e)
    ensures Alive(env, Next(cfg, s, t), e)
  {
    var s' := Next(cfg, s, t);
    var w: WorkerId, k: nat :| WillAppend(env, s, w, k, e);
    if t.Publish? && t.w == w && k == 0 {
      assert s'.stream[|s.stream|] == e;
    } else if t.Outbox? && t.o.Conclude? && t.o.w == w {
      assert WillAppend(env, s', w, k - 1, e);
    } else {
      assert WillAppend(env, s', w, k, e);
    }
  }

  // A published, well-formed event has one fate under a crash-free step: stranded or not.
  lemma FateStays(cfg: Config, env: Env, s: State, t: Step, e: EventId)
    requires Inv(cfg, s) && StepEnabled(cfg, s, t) && Faithful(env, s, t) && !cfg.reclaimDelivers
    requires e in s.outbox.rows && s.outbox.rows[e].status.Done? && e !in cfg.malformed
    ensures Stranded(cfg, env, Next(cfg, s, t), e) <==> Stranded(cfg, env, s, e)
  {
    StepPreserves(cfg, s, t);
    StrandedIsNotAlive(cfg, env, s, e);
    if Stranded(cfg, env, s, e) {
      StrandedStays(cfg, env, s, t, e);
    } else {
      if Unread(s, e) { UnreadStays(cfg, env, s, t, e); }
      else if Carried(s, e) { CarriedStays(cfg, env, s, t, e); }
      else if Coming(env, s, e) { ComingStays(cfg, env, s, t, e); }
      StrandedIsNotAlive(cfg, env, Next(cfg, s, t), e);
    }
  }

  // The events that cannot be settled any more.
  ghost predicate Hopeless(cfg: Config, env: Env, s: State, e: EventId) { !cfg.reclaimDelivers && Stranded(cfg, env, s, e) }

  /** No crash-free schedule strands an event whose row is closed, or rescues one. */
  lemma {:induction false} FateKept(cfg: Config, env: Env, s: State, steps: seq<Step>, s': State, e: EventId)
    requires Inv(cfg, s) && Leads(cfg, env, s, steps, s') && e in s.outbox.rows && Terminal(s.outbox.rows[e])
    ensures e in s'.outbox.rows && (Hopeless(cfg, env, s', e) <==> Hopeless(cfg, env, s, e))
    decreases |steps|
  {
    if steps != [] {
      StepPreserves(cfg, s, steps[0]);
      if !cfg.reclaimDelivers && s.outbox.rows[e].status.Done? && e !in cfg.malformed {
        FateStays(cfg, env, s, steps[0], e);
      }
      StepKeepsInv(cfg, s, steps[0]);
      FateKept(cfg, env, Next(cfg, s, steps[0]), steps[1..], s', e);
    }
  }

  // ---- closing the outbox ----

  lemma {:induction false} CloseRow(cfg: Config, env: Env, s: State, e: EventId, p: WorkerId) returns (steps: seq<Step>, s': State)
    requires Inv(cfg, s) && e in s.outbox.rows && At(s.outbox, p) == IDLE && !Terminal(s.outbox.rows[e])
    ensures Leads(cfg, env, s, steps, s') && Inv(cfg, s') && At(s'.outbox, p) == IDLE && SameBut(s.outbox, s'.outbox, e)
    ensures e in s'.outbox.rows && Terminal(s'.outbox.rows[e]) && (s'.outbox.rows[e].status.Done? ==> Unread(s', e))
    decreases Rounds(s.outbox.rows[e], cfg.outMax)
  {
    steps, s' := PublishRoundFresh(cfg, env, s, e, p);
    if !Terminal(s'.outbox.rows[e]) {
      var rest, last := CloseRow(cfg, env, s', e, p);
      LeadsAppend(cfg, env, s, steps, s', rest, last);
      steps, s' := steps + rest, last;
    } else if s'.outbox.rows[e].status.Done? {
      assert s'.stream[|s'.stream| - 1] == e;
    }
  }

  function Open(s: State): set<EventId> { set e | e in s.outbox.rows && !Terminal(s.outbox.rows[e]) }

  predicate Closed(s: State) { forall e :: e in s.outbox.rows ==> Terminal(s.outbox.rows[e]) }

  // Closing one row leaves every event's fate as it was.
  lemma CloseKeepsFates(cfg: Config, env: Env, s: State, e: EventId, steps: seq<Step>, s': State)
    requires Inv(cfg, s) && Leads(cfg, env, s, steps, s') && e in s.outbox.rows && !Terminal(s.outbox.rows[e])
    requires SameBut(s.outbox, s'.outbox, e) && (s'.outbox.rows[e].status.Done? ==> Unread(s', e))
    ensures forall f :: f in s.outbox.rows ==> (Hopeless(cfg, env, s', f) <==> Hopeless(cfg, env, s, f))
  {
    forall f | f in s.outbox.rows ensures Hopeless(cfg, env, s', f) <==> Hopeless(cfg, env, s, f) {
      if Terminal(s.outbox.rows[f]) { FateKept(cfg, env, s, steps, s', f); }
    }
  }

  /** A fresh publisher closes every outbox row without stranding anything. */
  lemma {:induction false} CloseOutbox(cfg: Config, env: Env, s: State, p: WorkerId) returns (steps: seq<Step>, s': State)
    requires Inv(cfg, s) && At(s.outbox, p) == IDLE
    ensures Leads(cfg, env, s, steps, s') && Inv(cfg, s') && s'.outbox.rows.Keys == s.outbox.rows.Keys && Closed(s')
    ensures forall e :: e in s.outbox.rows ==> (Hopeless(cfg, env, s', e) <==> Hopeless(cfg, env, s, e))
    decreases |Open(s)|
  {
    if Open(s) == {} {
      assert forall e :: e in s.outbox.rows && !Terminal(s.outbox.rows[e]) ==> e in Open(s);
      return [], s;
    }
    var e :| e in Open(s);
    var first, s1 := CloseRow(cfg, env, s, e, p);
    assert Open(s1) == Open(s) - {e};
    CloseKeepsFates(cfg, env, s, e, first, s1);
    var rest, last := CloseOutbox(cfg, env, s1, p);
    LeadsAppend(cfg, env, s, first, s1, rest, last);
    steps, s' := first + rest, last;
  }

  // ---- one by one ----

  lemma SettledStays(cfg: Config, s: State, s': State, e: EventId)
    requires Preserves(s, s') && Settled(cfg, s, e)
    ensures Settled(cfg, s', e)
  {
  }

  lemma {:induction false} FewerElements(a: set<EventId>, b: set<EventId>, e: EventId)
    requires e in b && a <= b - {e}
    ensures |a| < |b|
    decreases a
  {
    if a == {} {
      assert b != {};
    } else {
      var x :| x in a;
      FewerElements(a - {x}, b - {x}, e);
    }
  }

  ghost function ToSettle(cfg: Config, env: Env, s: State): set<EventId> {
    set e | e in s.outbox.rows && !Settled(cfg, s, e) && !Hopeless(cfg, env, s, e)
  }

  // Settling e leaves the outbox closed, every fate as it was, and one event less to settle.
  lemma OneLess(cfg: Config, env: Env, s: State, steps: seq<Step>, s': State, e: EventId)
    requires Inv(cfg, s) && Closed(s) && Leads(cfg, env, s, steps, s') && e in ToSettle(cfg, env, s) && Settled(cfg, s', e)
    ensures Inv(cfg, s') && Closed(s') && s'.outbox.rows.Keys == s.outbox.rows.Keys
    ensures forall f :: f in s.outbox.rows ==> (Hopeless(cfg, env, s', f) <==> Hopeless(cfg, env, s, f))
    ensures |ToSettle(cfg, env, s')| < |ToSettle(cfg, env, s)|
  {
    LeadsRuns(cfg, env, s, steps, s');
    forall f | f in s.outbox.rows ensures Terminal(s'.outbox.rows[f]) && (Hopeless(cfg, env, s', f) <==> Hopeless(cfg, env, s, f)) {
      FateKept(cfg, env, s, steps, s', f);
    }
    forall f | f in ToSettle(cfg, env, s') ensures f in ToSettle(cfg, env, s) - {e} {
      if Settled(cfg, s, f) { SettledStays(cfg, s, s', f); }
    }
    FewerElements(ToSettle(cfg, env, s'), ToSettle(cfg, env, s), e);
  }

  // With the outbox closed, every event that is not hopeless is settled.
  lemma {:induction false} SettleRest(cfg: Config, env: Env, s: State) returns (steps: seq<Step>, s': State)
    requires Inv(cfg, s) && cfg.readCount >= 1 && Closed(s)
    ensures Leads(cfg, env, s, steps, s') && s'.outbox.rows.Keys == s.outbox.rows.Keys
    ensures forall e :: e in s.outbox.rows && !Hopeless(cfg, env, s, e) ==> Settled(cfg, s', e)
    decreases |ToSettle(cfg, env, s)|
  {
    if ToSettle(cfg, env, s) == {} {
      assert forall e :: e in s.outbox.rows && !Settled(cfg, s, e) && !Hopeless(cfg, env, s, e) ==> e in ToSettle(cfg, env, s);
      return [], s;
    }
    var e :| e in ToSettle(cfg, env, s);
    var p, b, c := NewProcess(s.outbox.workers), NewProcess(s.bridges), NewProcess(s.inbox.workers);
    var first, s1 := SettleEvent(cfg, env, s, e, p, b, c);
    OneLess(cfg, env, s, first, s1, e);
    var rest, last := SettleRest(cfg, env, s1);
    LeadsAppend(cfg, env, s, first, s1, rest, last);
    steps, s' := first + rest, last;
  }

  /** From every reachable state and against every environment, one finite crash-free schedule settles
      exactly the events that can still be settled: all of them if claim_stuck hands reclaimed
      messages over, and all that are not stranded if it does not. */
  lemma RecoverAll(cfg: Config, env: Env, s: State) returns (steps: seq<Step>, s': State)
    requires Inv(cfg, s) && cfg.readCount >= 1
    ensures Leads(cfg, env, s, steps, s') && s'.outbox.rows.Keys == s.outbox.rows.Keys
    ensures forall e :: e in s.outbox.rows ==> (Settled(cfg, s', e) <==> cfg.reclaimDelivers || !Stranded(cfg, env, s, e))
  {
    var first, s1 := CloseOutbox(cfg, env, s, NewProcess(s.outbox.workers));
    var rest;
    rest, s' := SettleRest(cfg, env, s1);
    LeadsAppend(cfg, env, s, first, s1, rest, s');
    steps := first + rest;
    forall e | e in s.outbox.rows && Hopeless(cfg, env, s, e) ensures !Settled(cfg, s', e) {
      StrandedForever(cfg, env, s, steps, s', e);
    }
  }
}
