/**
IdempotencyService.execute for one (tenant, operation, key) unit, with any number of concurrent
requests. A request runs in its caller's transaction: look the unit up, claim it by inserting
its row, run the handler, complete the row; the caller then commits all of it or none. The
unique key makes a second insert wait until the transaction holding the row has ended.
*/
module Idempotency {
  import opened Common
  import opened JsonText
  import opened CanonicalPayload
  import opened PayloadEquality

  type RequestId = nat
  type Outcome = nat     // the logical result a handler returns

  // What identifies the content of a request: its payload and its venue context.
  datatype Request = Request(payload: Value, venue: Option<nat>)
  type Printed = r: Request | Printable(r.payload) witness Request(Null, None)

  datatype Record = Record(
    requestHash: string,          // the canonical text, before SHA-256
    venue: Option<nat>,
    claimedBy: Option<RequestId>,
    completed: bool,
    result: Option<Outcome>
  )

  datatype Phase =
    | Looking                     // about to read the record
    | Claiming                    // found none; about to insert
    | Claimed                     // inserted; the handler is to run
    | Completed(result: Outcome)  // handler ran and the row is completed, not committed yet
    | Answered(answer: Answer)    // execute returned or raised, without writes of its own
    | Committed(answer: Answer)   // the caller's transaction is over; this is what it got
    | RolledBack

  // execute's own result, a stored result, or IdempotencyConflictError.
  datatype Answer = Ran(outcome: Outcome) | Replay(stored: Option<Outcome>) | Conflict

  datatype Local = Local(request: Printed, phase: Phase, rounds: nat)

  datatype State = State(
    record: Option<Record>,                       // the committed row of the unit
    open: Option<RequestId>,                      // the transaction holding an uncommitted row
    draft: Option<Record>,                        // that uncommitted row
    executions: seq<RequestId>,                   // handlers whose business writes were committed
    requests: map<RequestId, Local>
  )

  const INITIAL := State(None, None, None, [], map[])

  datatype Step =
    | Begin(r: RequestId, request: Printed)
    | Look(r: RequestId)
    | CreateClaim(r: RequestId)
    | Handle(r: RequestId, result: Outcome)
    | Commit(r: RequestId)
    | Rollback(r: RequestId)

  predicate In(s: State, r: RequestId, p: Phase) { r in s.requests && s.requests[r].phase == p }

  predicate Enabled(s: State, t: Step) {
    match t
    case Begin(r, _) => r !in s.requests
    case Look(r) => In(s, r, Looking)
    case CreateClaim(r) => In(s, r, Claiming) && s.open.None?
    case Handle(r, _) => In(s, r, Claimed) && s.draft.Some?
    case Commit(r) => r in s.requests && (s.requests[r].phase.Answered? || (s.requests[r].phase.Completed? && s.draft.Some?))
    case Rollback(r) => r in s.requests && !s.requests[r].phase.Committed? && !s.requests[r].phase.RolledBack?
  }

  // What execute answers when it finds a completed record.
  function Judge(rec: Record, q: Printed): Answer {
    if rec.venue != q.venue then Conflict
    else if rec.requestHash != CanonicalText(q.payload) then Conflict
    else Replay(rec.result)
  }

  function Moved(s: State, r: RequestId, p: Phase, looked: nat): map<RequestId, Local>
    requires r in s.requests
  {
    s.requests[r := Local(s.requests[r].request, p, s.requests[r].rounds + looked)]
  }

  function Next(s: State, t: Step): State
    requires Enabled(s, t)
  {
    match t
    case Begin(r, q) => s.(requests := s.requests[r := Local(q, Looking, 0)])
    case Look(r) =>
      s.(requests := Moved(s, r, if s.record.None? then Claiming else Answered(Judge(s.record.value, s.requests[r].request)), 1))
    case CreateClaim(r) =>
      if s.record.Some? then s.(requests := Moved(s, r, Looking, 0))   // ON CONFLICT DO NOTHING
      else
        var q := s.requests[r].request;
        s.(open := Some(r),
           draft := Some(Record(CanonicalText(q.payload), q.venue, Some(r), false, None)),
           requests := Moved(s, r, Claimed, 0))
    case Handle(r, result) =>
      // complete: guarded by in_progress and by the claim owner.
      var d := s.draft.value;
      s.(draft := Some(if !d.completed && d.claimedBy == Some(r) then d.(completed := true, result := Some(result), claimedBy := None) else d),
         requests := Moved(s, r, Completed(result), 0))
    case Commit(r) =>
      match s.requests[r].phase {
        case Completed(result) =>
          s.(record := s.draft, draft := None, open := None, executions := s.executions + [r],
             requests := Moved(s, r, Committed(Ran(result)), 0))
        case Answered(answer) => s.(requests := Moved(s, r, Committed(answer), 0))
      }
    case Rollback(r) =>
      if s.open == Some(r)
      then s.(draft := None, open := None, requests := Moved(s, r, RolledBack, 0))
      else s.(requests := Moved(s, r, RolledBack, 0))
  }

  function Run(s: State, steps: seq<Step>): Option<State>
    decreases |steps|
  {
    if steps == [] then Some(s)
    else if !Enabled(s, steps[0]) then None
    else Run(Next(s, steps[0]), steps[1..])
  }

  // ---- the invariant ----

  // The record a request would leave: its own payload and venue, and the result it got.
  predicate Made(rec: Record, q: Printed) {
    rec.requestHash == CanonicalText(q.payload) && rec.venue == q.venue
  }

  predicate RecordInv(s: State) {
    && (s.record.None? ==> s.executions == [])
    && (s.record.Some? ==> s.open.None? && s.record.value.completed && s.record.value.result.Some?
                           && |s.executions| == 1 && s.executions[0] in s.requests
                           && Made(s.record.value, s.requests[s.executions[0]].request))
    && (s.open.Some? <==> s.draft.Some?)
  }

  predicate RequestOk(s: State, r: RequestId)
    requires r in s.requests
  {
    var l := s.requests[r];
    && (s.open == Some(r) <==> l.phase.Claimed? || l.phase.Completed?)
    && (s.open == Some(r) ==> s.draft.Some? && Made(s.draft.value, l.request))
    && (l.phase.Claimed? ==> s.draft.Some? && !s.draft.value.completed && s.draft.value.claimedBy == Some(r))
    && (l.phase.Completed? ==> s.draft.Some? && s.draft.value.completed && s.draft.value.result == Some(l.phase.result))
    && (l.phase.Answered? ==> s.record.Some? && l.phase.answer == Judge(s.record.value, l.request))
    && (l.phase.Committed? ==> s.record.Some? && (if l.phase.answer.Ran? then s.executions == [r] && s.record.value.result == Some(l.phase.answer.outcome)
                                                  else l.phase.answer == Judge(s.record.value, l.request)))
    && l.rounds <= 2
    && (l.phase.Looking? ==> l.rounds == 0 || (l.rounds == 1 && s.record.Some?))
    && (l.phase.Claiming? ==> l.rounds == 1)
    && ((l.phase.Claimed? || l.phase.Completed?) ==> l.rounds == 1)
  }

  ghost predicate Inv(s: State) {
    RecordInv(s) && (forall r :: r in s.requests ==> RequestOk(s, r)) && (s.open.Some? ==> s.open.value in s.requests)
  }

  /** Every step of every request keeps the invariant. */
  lemma StepKeepsInv(s: State, t: Step)
    requires Inv(s) && Enabled(s, t)
    ensures Inv(Next(s, t))
  {
    var s' := Next(s, t);
    if t.r in s.requests { assert RequestOk(s, t.r); }
    if s.open.Some? { assert RequestOk(s, s.open.value); }
    forall r | r in s'.requests ensures RequestOk(s', r) {
      if r in s.requests { assert RequestOk(s, r); }
    }
  }

  lemma {:induction false} RunKeepsInv(s: State, steps: seq<Step>)
    requires Inv(s) && Run(s, steps).Some?
    ensures Inv(Run(s, steps).value)
    decreases |steps|
  {
    if steps != [] {
      StepKeepsInv(s, steps[0]);
      RunKeepsInv(Next(s, steps[0]), steps[1..]);
    }
  }

  // ---- what execute guarantees ----

  /** The handler's writes are committed at most once, and every caller that is not refused gets
      the one result of that execution, however the requests interleave. */
  lemma AtMostOnceOneResult(steps: seq<Step>)
    requires Run(INITIAL, steps).Some?
    ensures var s := Run(INITIAL, steps).value;
            && |s.executions| <= 1
            && (forall r :: r in s.requests && s.requests[r].phase.Committed? && !s.requests[r].phase.answer.Conflict? ==>
                  && s.record.Some? && s.record.value.result.Some?
                  && (match s.requests[r].phase.answer
                      case Ran(x) => x == s.record.value.result.value && s.executions == [r]
                      case Replay(x) => x == s.record.value.result
                      case Conflict => false))
  {
    RunKeepsInv(INITIAL, steps);
    var s := Run(INITIAL, steps).value;
    forall r | r in s.requests ensures RequestOk(s, r) {}
  }

  /** Replay or conflict: of the callers that finished, everyone but the executor is replayed if
      its payload is the same content as the executor's and its venue is the same, and is refused
      otherwise. */
  lemma ReplayIffSameRequest(steps: seq<Step>, r: RequestId)
    requires Run(INITIAL, steps).Some?
    ensures var s := Run(INITIAL, steps).value;
            r in s.requests && s.requests[r].phase.Committed? && !s.requests[r].phase.answer.Ran? ==>
              && |s.executions| == 1 && s.executions[0] in s.requests
              && var mine, theirs := s.requests[r].request, s.requests[s.executions[0]].request;
              && (s.requests[r].phase.answer.Replay? <==>
                    SamePayload(mine.payload, theirs.payload) && mine.venue == theirs.venue)
  {
    RunKeepsInv(INITIAL, steps);
    var s := Run(INITIAL, steps).value;
    if r in s.requests && s.requests[r].phase.Committed? && !s.requests[r].phase.answer.Ran? {
      assert RequestOk(s, r);
      SameTextIffSamePayload(s.requests[r].request.payload, s.requests[s.executions[0]].request.payload);
    }
  }

  /** Once a record is committed no request is inside its handler, and none will be: the next
      look answers it. */
  lemma NoHandlerAfterRecord(steps: seq<Step>, t: Step)
    requires Run(INITIAL, steps).Some? && Run(INITIAL, steps).value.record.Some?
    requires Enabled(Run(INITIAL, steps).value, t)
    ensures var s := Run(INITIAL, steps).value;
            && !t.Handle?
            && Next(s, t).record == s.record && Next(s, t).executions == s.executions && Next(s, t).open.None?
            && (t.Look? ==> Next(s, t).requests[t.r].phase.Answered?)
  {
    RunKeepsInv(INITIAL, steps);
    var s := Run(INITIAL, steps).value;
    if t.r in s.requests { assert RequestOk(s, t.r); }
  }

  /** The loop of execute reads the record at most twice, and its second reading decides. */
  lemma TwoRoundsSuffice(steps: seq<Step>, r: RequestId)
    requires Run(INITIAL, steps).Some?
    ensures var s := Run(INITIAL, steps).value;
            r in s.requests ==>
              && s.requests[r].rounds <= 2
              && (s.requests[r].rounds == 1 && s.requests[r].phase.Looking? ==> s.record.Some?)
  {
    RunKeepsInv(INITIAL, steps);
    var s := Run(INITIAL, steps).value;
    if r in s.requests { assert RequestOk(s, r); }
  }

  /** A claim that does not commit leaves nothing behind: the unit is as if never claimed. */
  lemma RollbackLeavesNothing(steps: seq<Step>, r: RequestId)
    requires Run(INITIAL, steps).Some? && Enabled(Run(INITIAL, steps).value, Rollback(r))
    ensures var s := Run(INITIAL, steps).value;
            var s' := Next(s, Rollback(r));
            && s'.record == s.record && s'.executions == s.executions
            && (s.open == Some(r) ==> s'.open.None? && s'.draft.None? && s'.record.None? && s'.executions == [])
  {
    RunKeepsInv(INITIAL, steps);
    assert RequestOk(Run(INITIAL, steps).value, r);
  }

  // ---- the loop itself ----

  lemma {:induction false} RunSnoc(s: State, steps: seq<Step>, t: Step)
    requires Run(s, steps).Some? && Enabled(Run(s, steps).value, t)
    ensures Run(s, steps + [t]) == Some(Next(Run(s, steps).value, t))
    decreases |steps|
  {
    if steps == [] {
      assert steps + [t] == [t] && [t][1..] == [];
    } else {
      RunSnoc(Next(s, steps[0]), steps[1..], t);
      assert (steps + [t])[1..] == steps[1..] + [t];
    }
  }

  class Database {
    var st: State
    ghost var history: seq<Step>

    ghost predicate Valid()
      reads this
    {
      Run(INITIAL, history) == Some(st) && Inv(st)
    }

    constructor ()
      ensures Valid() && st == INITIAL
    {
      st := INITIAL;
      history := [];
    }

    method Take(t: Step)
      requires Valid() && Enabled(st, t)
      modifies this
      ensures Valid() && st == Next(old(st), t) && history == old(history) + [t]
    {
      RunSnoc(INITIAL, history, t);
      StepKeepsInv(st, t);
      st := Next(st, t);
      history := history + [t];
    }

    /** What other requests do meanwhile. */
    method Others(me: RequestId, plan: seq<Step>)
      requires Valid() && me in st.requests
      modifies this
      ensures Valid() && me in st.requests && st.requests[me] == old(st).requests[me]
      ensures old(st).record.Some? ==> st.record == old(st).record
      ensures old(st).open == Some(me) ==> st.open == Some(me)
    {
      for k := 0 to |plan|
        invariant Valid() && me in st.requests && st.requests[me] == old(st).requests[me]
        invariant old(st).record.Some? ==> st.record == old(st).record
        invariant old(st).open == Some(me) ==> st.open == Some(me)
      {
        if plan[k].r != me && Enabled(st, plan[k]) {
          ghost var before := st;
          if plan[k].r in st.requests { assert RequestOk(st, plan[k].r); }
          assert RequestOk(st, me);
          Take(plan[k]);
        }
      }
    }

    /** The insert waits for the transaction that holds the key, which commits or rolls back. */
    method WaitForKey(me: RequestId, plan: seq<Step>, holderCommits: bool)
      requires Valid() && In(st, me, Claiming)
      modifies this
      ensures Valid() && me in st.requests && st.requests[me] == old(st).requests[me] && st.open.None?
    {
      Others(me, plan);
      if st.open.Some? {
        var holder := st.open.value;
        assert RequestOk(st, holder) && RequestOk(st, me);
        if holderCommits && st.requests[holder].phase.Completed? {
          Take(Commit(holder));
        } else {
          Take(Rollback(holder));
        }
      }
    }

    /** The while loop of execute. It ends with an answer taken from a committed record, or with
        the handler run once and the row completed in the caller's still open transaction. */
    method Execute(me: RequestId, plan: nat -> seq<Step>, holderCommits: nat -> bool, handler: Printed -> Outcome) returns (answer: Answer)
      requires Valid() && In(st, me, Looking) && st.requests[me].rounds == 0
      modifies this
      ensures Valid() && me in st.requests && st.requests[me].request == old(st).requests[me].request
      ensures match answer
              case Ran(x) => st.open == Some(me) && st.requests[me].phase == Completed(x) && x == handler(st.requests[me].request)
              case _ => st.requests[me].phase == Answered(answer) && st.record.Some? && answer == Judge(st.record.value, st.requests[me].request)
    {
      var n := 0;
      while true
        invariant Valid() && In(st, me, Looking) && st.requests[me].rounds == n <= 1
        invariant st.requests[me].request == old(st).requests[me].request
        decreases 2 - n
      {
        Others(me, plan(3 * n));
        assert RequestOk(st, me);
        Take(Look(me));
        assert RequestOk(st, me);
        if st.requests[me].phase.Answered? {
          return st.requests[me].phase.answer;
        }
        WaitForKey(me, plan(3 * n + 1), holderCommits(n));
        Take(CreateClaim(me));
        if st.requests[me].phase.Claimed? {
          Others(me, plan(3 * n + 2));
          assert RequestOk(st, me);
          var result := handler(st.requests[me].request);
          Take(Handle(me, result));
          assert RequestOk(st, me);
          return Ran(result);
        }
        n := n + 1;
        assert RequestOk(st, me);
      }
    }
  }
}
