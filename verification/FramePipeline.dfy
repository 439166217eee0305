/**
FramePipeline over its BoundedFrameQueue: a producer task, a consumer task and the coordinator
that waits for them, interleaved at their awaits. The queue's condition keeps its waiters in
order, and notify wakes the first of them, whoever that is.
*/
module FramePipeline {
  import opened Common

  type Frame = nat

  datatype Policy = Block | DropOldest
  datatype Config = Config(maxsize: nat, policy: Policy)

  // What a task raises: the queue's own exception class, or another one.
  datatype Failure = QueueClosed | Other(code: nat)

  datatype Role = Producer | Consumer

  datatype Queue = Queue(
    items: seq<Frame>,
    closed: bool,
    dropped: nat,
    enqueued: nat,
    dequeued: nat,
    maxObserved: nat,
    waiters: seq<Role>      // tasks waiting on the condition, first come first
  )

  datatype ProducerPhase = Asking | Putting(frame: Frame) | ProducerWaits(frame: Frame) | Ended | Stopped | ProducerFailed(why: Failure)
  datatype ConsumerPhase = Getting | ConsumerWaits | Consuming(frame: Frame) | Drained | Swallowed | ConsumerFailed(error: Failure)
  datatype Coordinator = WaitFirst | WaitAll | Returned(raised: Option<Failure>) | Cancelled

  datatype State = State(
    q: Queue,
    producer: ProducerPhase,
    consumer: ConsumerPhase,
    run: Coordinator,
    produced: seq<Frame>,    // frames the source delivered with their data
    admitted: seq<Frame>,    // frames the queue accepted
    delivered: seq<Frame>,   // frames the consumer was called with
    sourceDrops: nat         // drops noted on the source
  )

  const INITIAL := State(Queue([], false, 0, 0, 0, 0, []), Asking, Getting, WaitFirst, [], [], [], 0)

  datatype Step =
    | Next(frame: Frame)           // the source yields a packet with data
    | NoData                       // a packet without companion data
    | SourceRaises(why: Failure)
    | EndOfStream
    | Put
    | Get
    | ConsumeReturns
    | ConsumeRaises(error: Failure)
    | FirstCompleted               // asyncio.wait returns, then shutdown
    | AllCompleted
    | Cancel                       // run() is cancelled from outside

  predicate ProducerDone(s: State) { s.producer.Ended? || s.producer.Stopped? || s.producer.ProducerFailed? }
  predicate ConsumerDone(s: State) { s.consumer.Drained? || s.consumer.Swallowed? || s.consumer.ConsumerFailed? }

  // A task inside put or get may go on when it holds the condition: at first, or once notified.
  predicate CanPut(s: State) { s.producer.Putting? || (s.producer.ProducerWaits? && Producer !in s.q.waiters) }
  predicate CanGet(s: State) { s.consumer.Getting? || (s.consumer.ConsumerWaits? && Consumer !in s.q.waiters) }

  predicate Enabled(s: State, t: Step) {
    match t
    case Next(_) => s.producer.Asking?
    case NoData => s.producer.Asking?
    case SourceRaises(_) => s.producer.Asking?
    case EndOfStream => s.producer.Asking?
    case Put => CanPut(s)
    case Get => CanGet(s)
    case ConsumeReturns => s.consumer.Consuming?
    case ConsumeRaises(_) => s.consumer.Consuming?
    case FirstCompleted => s.run.WaitFirst? && (ProducerDone(s) || ConsumerDone(s))
    case AllCompleted => s.run.WaitAll? && ProducerDone(s) && ConsumerDone(s)
    case Cancel => s.run.WaitFirst? || s.run.WaitAll?
  }

  // ---- the queue ----

  function Max(a: nat, b: nat): nat { if a < b then b else a }

  function Notify(q: Queue): Queue { if q.waiters == [] then q else q.(waiters := q.waiters[1..]) }

  predicate Full(cfg: Config, q: Queue) { |q.items| >= cfg.maxsize }

  // put on an open queue with room, or with DROP_OLDEST: evict the oldest if full, append, notify.
  function Admit(cfg: Config, q: Queue, f: Frame): Queue
    requires cfg.maxsize >= 1
  {
    var evicts := cfg.policy.DropOldest? && Full(cfg, q);
    var items := (if evicts then q.items[1..] else q.items) + [f];
    Notify(q.(items := items, dropped := q.dropped + (if evicts then 1 else 0), enqueued := q.enqueued + 1,
              maxObserved := Max(q.maxObserved, |items|)))
  }

  function Popped(q: Queue): Queue
    requires q.items != []
  {
    Notify(q.(items := q.items[1..], dequeued := q.dequeued + 1))
  }

  function Waiting(q: Queue, r: Role): Queue { q.(waiters := q.waiters + [r]) }

  function Shut(q: Queue): Queue { q.(closed := true, waiters := []) }

  // ---- the tasks ----

  // The producer's put, from holding the condition to the next await or the loop head: the source
  // notes the evictions before anything else runs.
  function PutStep(cfg: Config, s: State, f: Frame): State
    requires cfg.maxsize >= 1
  {
    if s.q.closed then s.(producer := Stopped)
    else if cfg.policy.Block? && Full(cfg, s.q) then s.(producer := ProducerWaits(f), q := Waiting(s.q, Producer))
    else
      var q := Admit(cfg, s.q, f);
      s.(producer := Asking, q := q, admitted := s.admitted + [f], sourceDrops := s.sourceDrops + q.dropped - s.q.dropped)
  }

  function GetStep(s: State): State {
    if s.q.items != [] then s.(consumer := Consuming(s.q.items[0]), q := Popped(s.q), delivered := s.delivered + [s.q.items[0]])
    else if s.q.closed then s.(consumer := Drained)
    else s.(consumer := ConsumerWaits, q := Waiting(s.q, Consumer))
  }

  // The first failure that is not a QueueClosedError, the producer's before the consumer's.
  function FirstRealFailure(s: State): Option<Failure> {
    if s.producer.ProducerFailed? && !s.producer.why.QueueClosed? then Some(s.producer.why)
    else if s.consumer.ConsumerFailed? && !s.consumer.error.QueueClosed? then Some(s.consumer.error)
    else None
  }

  function Apply(cfg: Config, s: State, t: Step): State
    requires cfg.maxsize >= 1 && Enabled(s, t)
  {
    match t
    case Next(f) => s.(producer := Putting(f), produced := s.produced + [f])
    case NoData => s.(producer := ProducerFailed(Other(0)))
    case SourceRaises(why) => s.(producer := if why.QueueClosed? && s.q.closed then Stopped else ProducerFailed(why))
    case EndOfStream => s.(producer := Ended)
    case Put => PutStep(cfg, s, s.producer.frame)
    case Get => GetStep(s)
    case ConsumeReturns => s.(consumer := Getting)
    case ConsumeRaises(why) => s.(consumer := if why.QueueClosed? && s.q.closed then Swallowed else ConsumerFailed(why))
    case FirstCompleted => s.(run := WaitAll, q := Shut(s.q))
    case AllCompleted => s.(run := Returned(FirstRealFailure(s)))
    case Cancel =>
      s.(run := Cancelled, q := Shut(s.q),
         producer := if ProducerDone(s) then s.producer else Stopped,
         consumer := if ConsumerDone(s) then s.consumer else Swallowed)
  }

  function Run(cfg: Config, s: State, steps: seq<Step>): Option<State>
    requires cfg.maxsize >= 1
    decreases |steps|
  {
    if steps == [] then Some(s)
    else if !Enabled(s, steps[0]) then None
    else Run(cfg, Apply(cfg, s, steps[0]), steps[1..])
  }

  // ---- the invariant ----

  // a is b at the increasing positions at.
  predicate Picks(at: seq<nat>, a: seq<Frame>, b: seq<Frame>) {
    && |at| == |a|
    && (forall i :: 0 <= i < |at| ==> at[i] < |b| && a[i] == b[at[i]])
    && (forall i, j :: 0 <= i < j < |at| ==> at[i] < at[j])
  }

  ghost predicate Subsequence(a: seq<Frame>, b: seq<Frame>) { exists at: seq<nat> :: Picks(at, a, b) }

  // The queue holds the tail of what it admitted; before that tail, everything was delivered in
  // order or dropped. The frame in the producer's hand is the only one not admitted.
  ghost predicate FlowInv(cfg: Config, s: State) {
    var t := |s.delivered| + s.q.dropped;
    && t <= |s.admitted| && s.q.items == s.admitted[t..] && Subsequence(s.delivered, s.admitted[..t])
    && s.q.enqueued == |s.admitted| && s.q.dequeued == |s.delivered|
    && s.sourceDrops == s.q.dropped && (cfg.policy.Block? ==> s.q.dropped == 0)
    && (match s.producer
        case Asking => s.produced == s.admitted
        case Putting(f) => s.produced == s.admitted + [f]
        case ProducerWaits(f) => s.produced == s.admitted + [f]
        case Ended => s.produced == s.admitted
        case _ => s.admitted <= s.produced && |s.produced| <= |s.admitted| + 1)
  }

  // Whoever waits has a reason to, and at most one task does, so notify wakes the right one.
  predicate WaitInv(cfg: Config, s: State) {
    && |s.q.items| <= s.q.maxObserved <= cfg.maxsize
    && |s.q.waiters| <= 1
    && (Producer in s.q.waiters ==> s.producer.ProducerWaits? && Full(cfg, s.q) && !s.q.closed)
    && (Consumer in s.q.waiters ==> s.consumer.ConsumerWaits? && s.q.items == [] && !s.q.closed)
    && (s.producer.ProducerWaits? ==> cfg.policy.Block?)
    && (s.q.closed <==> !s.run.WaitFirst?)
    && (s.producer.Stopped? ==> s.q.closed)
    && (s.consumer.Drained? ==> s.q.closed && s.q.items == [])
    && (s.consumer.Swallowed? ==> s.q.closed)
    && (s.run.WaitAll? ==> ProducerDone(s) || ConsumerDone(s))
    && (s.run.Returned? ==> ProducerDone(s) && ConsumerDone(s) && s.run.raised == FirstRealFailure(s))
    && (s.run.Cancelled? ==> ProducerDone(s) && ConsumerDone(s))
  }

  ghost predicate Inv(cfg: Config, s: State) { FlowInv(cfg, s) && WaitInv(cfg, s) }

  lemma SubsequenceExtends(a: seq<Frame>, b: seq<Frame>, f: Frame)
    requires Subsequence(a, b)
    ensures Subsequence(a, b + [f]) && Subsequence(a + [f], b + [f])
  {
    var at: seq<nat> :| Picks(at, a, b);
    assert Picks(at, a, b + [f]);
    assert Picks(at + [|b|], a + [f], b + [f]);
  }

  // Increasing positions are at least their index, and leave room for those that follow.
  lemma {:induction false} PositionsSpread(at: seq<nat>, a: seq<Frame>, b: seq<Frame>, i: nat)
    requires Picks(at, a, b) && i < |at|
    ensures i <= at[i] <= |b| - |a| + i
    decreases |at| - i
  {
    var k := 0;
    while k < i
      invariant k <= i && k <= at[k]
    {
      k := k + 1;
    }
    if i + 1 < |at| { PositionsSpread(at, a, b, i + 1); }
  }

  lemma SubsequenceShorter(a: seq<Frame>, b: seq<Frame>)
    requires Subsequence(a, b)
    ensures |a| <= |b| && (|a| == |b| ==> a == b)
  {
    var at: seq<nat> :| Picks(at, a, b);
    if a != [] { PositionsSpread(at, a, b, 0); }
    if |a| == |b| {
      forall i | 0 <= i < |a| ensures a[i] == b[i] { PositionsSpread(at, a, b, i); }
    }
  }

  lemma FlowGet(cfg: Config, s: State)
    requires cfg.maxsize >= 1 && FlowInv(cfg, s) && CanGet(s)
    ensures FlowInv(cfg, GetStep(s))
  {
    var n := |s.delivered| + s.q.dropped;
    if s.q.items != [] {
      SubsequenceExtends(s.delivered, s.admitted[..n], s.admitted[n]);
      assert s.admitted[..n + 1] == s.admitted[..n] + [s.admitted[n]];
      assert s.admitted[n..][1..] == s.admitted[n + 1..];
    }
  }

  lemma SliceAppend(a: seq<Frame>, f: Frame, n: nat)
    requires n <= |a|
    ensures (a + [f])[n..] == a[n..] + [f] && (a + [f])[..n] == a[..n]
    ensures n < |a| ==> (a + [f])[n + 1..] == a[n..][1..] + [f] && (a + [f])[..n + 1] == a[..n] + [a[n]]
  {
  }

  lemma FlowPut(cfg: Config, s: State)
    requires cfg.maxsize >= 1 && FlowInv(cfg, s) && CanPut(s)
    ensures FlowInv(cfg, PutStep(cfg, s, s.producer.frame))
  {
    var n, f := |s.delivered| + s.q.dropped, s.producer.frame;
    var s' := PutStep(cfg, s, f);
    SliceAppend(s.admitted, f, n);
    if s'.producer.Asking? {
      assert s'.admitted == s.produced == s'.produced;
      if cfg.policy.DropOldest? && Full(cfg, s.q) {
        SubsequenceExtends(s.delivered, s.admitted[..n], s.admitted[n]);
        assert |s'.delivered| + s'.q.dropped == n + 1;
      } else {
        assert |s'.delivered| + s'.q.dropped == n;
      }
    }
  }

  lemma FlowStep(cfg: Config, s: State, t: Step)
    requires cfg.maxsize >= 1 && FlowInv(cfg, s) && Enabled(s, t)
    ensures FlowInv(cfg, Apply(cfg, s, t))
  {
    if t.Get? {
      FlowGet(cfg, s);
    } else if t.Put? {
      FlowPut(cfg, s);
    }
  }

  /** Every step of the two tasks and of their coordinator keeps the invariant. */
  lemma StepKeepsInv(cfg: Config, s: State, t: Step)
    requires cfg.maxsize >= 1 && Inv(cfg, s) && Enabled(s, t)
    ensures Inv(cfg, Apply(cfg, s, t))
  {
    FlowStep(cfg, s, t);
    if s.q.waiters != [] { assert s.q.waiters[0].Producer? || s.q.waiters[0].Consumer?; }
  }

  lemma {:induction false} RunKeepsInv(cfg: Config, s: State, steps: seq<Step>)
    requires cfg.maxsize >= 1 && Inv(cfg, s) && Run(cfg, s, steps).Some?
    ensures Inv(cfg, Run(cfg, s, steps).value)
    decreases |steps|
  {
    if steps != [] {
      StepKeepsInv(cfg, s, steps[0]);
      RunKeepsInv(cfg, Apply(cfg, s, steps[0]), steps[1..]);
    }
  }

  // ---- what the pipeline guarantees ----

  predicate Reachable(cfg: Config, steps: seq<Step>) { cfg.maxsize >= 1 && Run(cfg, INITIAL, steps).Some? }

  function At(cfg: Config, steps: seq<Step>): State
    requires Reachable(cfg, steps)
  {
    Run(cfg, INITIAL, steps).value
  }

  lemma ReachableInv(cfg: Config, steps: seq<Step>)
    requires Reachable(cfg, steps)
    ensures Inv(cfg, At(cfg, steps))
  {
    assert Picks([], [], []);
    RunKeepsInv(cfg, INITIAL, steps);
  }

  /** Conservation: every frame the queue accepted was delivered, is queued, or was dropped and
      counted, on the queue and on the source alike; frames are delivered in the order they were
      produced; with BLOCK they are delivered without a gap. */
  lemma FramesConserved(cfg: Config, steps: seq<Step>)
    requires Reachable(cfg, steps)
    ensures var s := At(cfg, steps);
            && s.q.enqueued == s.q.dequeued + |s.q.items| + s.q.dropped
            && |s.q.items| <= s.q.maxObserved <= cfg.maxsize
            && s.sourceDrops == s.q.dropped
            && Subsequence(s.delivered, s.produced)
            && (cfg.policy.Block? ==> s.delivered <= s.produced && s.delivered + s.q.items == s.admitted <= s.produced)
  {
    ReachableInv(cfg, steps);
    var s := At(cfg, steps);
    var n := |s.delivered| + s.q.dropped;
    assert s.admitted == s.admitted[..n] + s.admitted[n..];
    SubsequenceOfPrefix(s.delivered, s.admitted[..n], s.admitted);
    SubsequenceOfPrefix(s.delivered, s.admitted, s.produced);
    if cfg.policy.Block? { SubsequenceShorter(s.delivered, s.admitted[..n]); }
  }

  /** The queue's capacity is used in full and never exceeded: a frame is dropped, the oldest, exactly by a
      put on an open DROP_OLDEST queue that holds maxsize frames; a producer waits exactly at an open
      BLOCK queue that does; with room a put keeps everything; a closed queue refuses it. */
  lemma PutExactly(cfg: Config, steps: seq<Step>, t: Step)
    requires Reachable(cfg, steps) && Enabled(At(cfg, steps), t)
    ensures var s, s' := At(cfg, steps), Apply(cfg, At(cfg, steps), t);
            && (s'.q.dropped != s.q.dropped <==> t.Put? && !s.q.closed && cfg.policy.DropOldest? && |s.q.items| == cfg.maxsize)
            && (s'.q.dropped != s.q.dropped ==> s'.q.dropped == s.q.dropped + 1 && s'.q.items == s.q.items[1..] + [s.producer.frame])
            && (t.Put? ==>
                  && (s'.producer.ProducerWaits? <==> !s.q.closed && cfg.policy.Block? && |s.q.items| == cfg.maxsize)
                  && (!s.q.closed && |s.q.items| < cfg.maxsize ==> s'.producer.Asking? && s'.q.items == s.q.items + [s.producer.frame])
                  && (s'.producer.Stopped? <==> s.q.closed))
  {
    ReachableInv(cfg, steps);
  }

  /** get, exactly: the oldest frame if there is one, closed or not; else the end if closed, else waiting. */
  lemma GetExactly(cfg: Config, steps: seq<Step>, t: Step)
    requires Reachable(cfg, steps) && Enabled(At(cfg, steps), t) && t.Get?
    ensures var s, s' := At(cfg, steps), Apply(cfg, At(cfg, steps), t);
            && (s.q.items != [] ==> s'.consumer == Consuming(s.q.items[0]) && s'.q.items == s.q.items[1..] && s'.delivered == s.delivered + [s.q.items[0]])
            && (s'.consumer.Drained? <==> s.q.items == [] && s.q.closed)
            && (s'.consumer.ConsumerWaits? <==> s.q.items == [] && !s.q.closed)
  {
  }

  // The longest the queue gets during a run, from a start of m.
  function Peak(cfg: Config, s: State, steps: seq<Step>, m: nat): nat
    requires cfg.maxsize >= 1 && Run(cfg, s, steps).Some?
    decreases |steps|
  {
    if steps == [] then m
    else
      var n := |Apply(cfg, s, steps[0]).q.items|;
      Peak(cfg, Apply(cfg, s, steps[0]), steps[1..], if n > m then n else m)
  }

  /** max_observed is the high-water mark of the queue over the run. */
  lemma {:induction false} PeakObserved(cfg: Config, s: State, steps: seq<Step>)
    requires cfg.maxsize >= 1 && Inv(cfg, s) && Run(cfg, s, steps).Some?
    ensures Run(cfg, s, steps).value.q.maxObserved == Peak(cfg, s, steps, s.q.maxObserved)
    decreases |steps|
  {
    if steps != [] {
      StepKeepsInv(cfg, s, steps[0]);
      PeakObserved(cfg, Apply(cfg, s, steps[0]), steps[1..]);
    }
  }

  // Somewhere in the run the source fails with why, or yields a packet without data.
  predicate SourceFails(cfg: Config, s: State, steps: seq<Step>, why: Failure)
    requires cfg.maxsize >= 1 && Run(cfg, s, steps).Some?
    decreases |steps|
  {
    && steps != []
    && ((steps[0].NoData? && why == Other(0)) || (steps[0] == SourceRaises(why) && !(why.QueueClosed? && s.q.closed))
        || SourceFails(cfg, Apply(cfg, s, steps[0]), steps[1..], why))
  }

  // Somewhere in the run consume raises why.
  predicate ConsumeFails(cfg: Config, s: State, steps: seq<Step>, why: Failure)
    requires cfg.maxsize >= 1 && Run(cfg, s, steps).Some?
    decreases |steps|
  {
    && steps != []
    && ((steps[0] == ConsumeRaises(why) && !(why.QueueClosed? && s.q.closed)) || ConsumeFails(cfg, Apply(cfg, s, steps[0]), steps[1..], why))
  }

  /** A task has failed exactly if its side raised during the run: a source failure, a packet without data,
      a consumer failure; all but a QueueClosedError on a queue that is shut down. */
  lemma {:induction false} FailuresExactly(cfg: Config, s: State, steps: seq<Step>, why: Failure)
    requires cfg.maxsize >= 1 && Run(cfg, s, steps).Some?
    ensures Run(cfg, s, steps).value.producer == ProducerFailed(why) <==> s.producer == ProducerFailed(why) || SourceFails(cfg, s, steps, why)
    ensures Run(cfg, s, steps).value.consumer == ConsumerFailed(why) <==> s.consumer == ConsumerFailed(why) || ConsumeFails(cfg, s, steps, why)
    decreases |steps|
  {
    if steps != [] {
      FailuresExactly(cfg, Apply(cfg, s, steps[0]), steps[1..], why);
    }
  }

  lemma SubsequenceOfPrefix(a: seq<Frame>, b: seq<Frame>, c: seq<Frame>)
    requires Subsequence(a, b) && b <= c
    ensures Subsequence(a, c)
  {
    var at: seq<nat> :| Picks(at, a, b);
    assert Picks(at, a, c);
  }

  /** A run that reaches the end of the stream and whose consumer never raised delivers every
      produced frame but the dropped ones: exactly the produced sequence if and only if nothing was
      dropped, which BLOCK guarantees. */
  lemma CleanRunDeliversAll(cfg: Config, steps: seq<Step>)
    requires Reachable(cfg, steps)
    requires var s := At(cfg, steps); s.run.Returned? && s.producer.Ended? && s.consumer.Drained?
    ensures var s := At(cfg, steps);
            && s.run.raised.None?
            && |s.produced| == |s.delivered| + s.q.dropped
            && (s.delivered == s.produced <==> s.q.dropped == 0)
            && (cfg.policy.Block? ==> s.delivered == s.produced)
  {
    FramesConserved(cfg, steps);
    ReachableInv(cfg, steps);
    SubsequenceShorter(At(cfg, steps).delivered, At(cfg, steps).produced);
  }

  /** What run raises: exactly the producer's failure unless that is a QueueClosedError, else the
      consumer's unless that is one. A QueueClosedError of the consumer never surfaces. */
  lemma RaisesFirstRealFailure(cfg: Config, steps: seq<Step>)
    requires Reachable(cfg, steps) && At(cfg, steps).run.Returned?
    ensures var s := At(cfg, steps);
            && ProducerDone(s) && ConsumerDone(s)
            && (s.producer.ProducerFailed? && !s.producer.why.QueueClosed? ==> s.run.raised == Some(s.producer.why))
            && ((s.producer.ProducerFailed? ==> s.producer.why.QueueClosed?) && s.consumer.ConsumerFailed? && !s.consumer.error.QueueClosed? ==>
                  s.run.raised == Some(s.consumer.error))
            && s.run.raised != Some(QueueClosed)
            && (s.run.raised.None? <==>
                  ((s.producer.ProducerFailed? ==> s.producer.why.QueueClosed?) && (s.consumer.ConsumerFailed? ==> s.consumer.error.QueueClosed?)))
  {
    ReachableInv(cfg, steps);
  }

  lemma {:induction false} Extend(cfg: Config, s: State, steps: seq<Step>, t: Step)
    requires cfg.maxsize >= 1 && Run(cfg, s, steps).Some? && Enabled(Run(cfg, s, steps).value, t)
    ensures Run(cfg, s, steps + [t]) == Some(Apply(cfg, Run(cfg, s, steps).value, t))
    decreases |steps|
  {
    if steps == [] {
      assert steps + [t] == [t] && [t][1..] == [];
    } else {
      Extend(cfg, Apply(cfg, s, steps[0]), steps[1..], t);
      assert (steps + [t])[1..] == steps[1..] + [t];
    }
  }

  lemma Went(cfg: Config, steps: seq<Step>, t: Step) returns (more: seq<Step>)
    requires Reachable(cfg, steps) && Enabled(At(cfg, steps), t)
    ensures more == steps + [t] && Reachable(cfg, more) && At(cfg, more) == Apply(cfg, At(cfg, steps), t)
  {
    Extend(cfg, INITIAL, steps, t);
    more := steps + [t];
  }

  /** So a consumer's QueueClosedError on an open queue is lost: the run returns normally although
      the frame it failed on, and the rest of the stream, were never processed. */
  lemma ConsumerErrorLost(cfg: Config, f: Frame) returns (steps: seq<Step>)
    requires cfg.maxsize >= 1
    ensures Reachable(cfg, steps)
    ensures var s := At(cfg, steps);
            && s.run == Returned(None) && s.consumer == ConsumerFailed(QueueClosed)
            && s.produced == [f, f] && s.delivered == [f]
  {
    steps := Went(cfg, [], Next(f));
    steps := Went(cfg, steps, Put);
    steps := Went(cfg, steps, Get);
    steps := Went(cfg, steps, ConsumeRaises(QueueClosed));
    steps := Went(cfg, steps, Next(f));
    steps := Went(cfg, steps, FirstCompleted);
    steps := Went(cfg, steps, Put);
    steps := Went(cfg, steps, AllCompleted);
  }

  // ---- progress ----

  // What the pipeline itself can do next, without the source, the consumer or its caller.
  predicate Moves(s: State) {
    Enabled(s, Put) || Enabled(s, Get) || Enabled(s, FirstCompleted) || Enabled(s, AllCompleted)
  }

  /** No wakeup is lost: until run returns, some task can move, or the pipeline waits for an answer
      of the source or of the consumer. */
  lemma NoDeadlock(cfg: Config, steps: seq<Step>)
    requires Reachable(cfg, steps)
    ensures var s := At(cfg, steps);
            s.run.WaitFirst? || s.run.WaitAll? ==> Moves(s) || s.producer.Asking? || s.consumer.Consuming?
  {
    ReachableInv(cfg, steps);
  }

  function ConsumerWeight(s: State): nat {
    match s.consumer
    case Getting => 3
    case ConsumerWaits => if Consumer in s.q.waiters then 1 else 2
    case Consuming(_) => 4
    case _ => 0
  }

  // What is left to do once the producer is done.
  function Left(s: State): nat {
    5 * |s.q.items| + ConsumerWeight(s) + (match s.run case WaitFirst => 4 case WaitAll => 1 case _ => 0)
  }

  /** Once the producer is done the rest is bounded: every step but one after the end shortens what
      is left, whatever the consumer does, so the run drains and returns. */
  lemma {:induction false} ProducerDoneRunEnds(cfg: Config, s: State, steps: seq<Step>)
    requires cfg.maxsize >= 1 && Inv(cfg, s) && Run(cfg, s, steps).Some? && ProducerDone(s)
    ensures ProducerDone(Run(cfg, s, steps).value)
    ensures |steps| + Left(Run(cfg, s, steps).value) <= Left(s)
    decreases |steps|
  {
    if steps != [] {
      StepKeepsInv(cfg, s, steps[0]);
      ProducerDoneRunEnds(cfg, Apply(cfg, s, steps[0]), steps[1..]);
    }
  }

  // ---- exactly when a failed run ends by itself ----

  // Turns that need neither an answer of the source nor a cancellation.
  predicate Inner(t: Step) { !t.Next? && !t.NoData? && !t.SourceRaises? && !t.EndOfStream? && !t.Cancel? }

  predicate InnerOnly(steps: seq<Step>) { forall k :: 0 <= k < |steps| ==> Inner(steps[k]) }

  ghost predicate EndsByItself(cfg: Config, s: State)
    requires cfg.maxsize >= 1
  {
    exists steps :: InnerOnly(steps) && Run(cfg, s, steps).Some? && Run(cfg, s, steps).value.run.Returned?
  }

  // The next turn of a pipeline that is shutting down and whose producer is not with the source.
  function InnerTurn(s: State): Step {
    if !ProducerDone(s) then Put
    else if s.consumer.Consuming? then ConsumeReturns
    else if !ConsumerDone(s) then Get
    else AllCompleted
  }

  lemma InnerTurnWorks(cfg: Config, s: State)
    requires cfg.maxsize >= 1 && Inv(cfg, s) && s.run.WaitAll? && !s.producer.Asking?
    ensures var t := InnerTurn(s);
            && Inner(t) && Enabled(s, t)
            && var s' := Apply(cfg, s, t);
            && (s'.run.Returned? || (s'.run.WaitAll? && !s'.producer.Asking?))
            && Left(s') + (if ProducerDone(s') then 0 else 1) < Left(s) + (if ProducerDone(s) then 0 else 1)
  {
  }

  lemma {:induction false} EndsWithoutSource(cfg: Config, s: State) returns (steps: seq<Step>)
    requires cfg.maxsize >= 1 && Inv(cfg, s) && s.run.WaitAll? && !s.producer.Asking?
    ensures InnerOnly(steps) && Run(cfg, s, steps).Some? && Run(cfg, s, steps).value.run.Returned?
    decreases Left(s) + (if ProducerDone(s) then 0 else 1)
  {
    InnerTurnWorks(cfg, s);
    var t := InnerTurn(s);
    var s' := Apply(cfg, s, t);
    StepKeepsInv(cfg, s, t);
    var rest := [];
    if !s'.run.Returned? { rest := EndsWithoutSource(cfg, s'); }
    steps := [t] + rest;
    assert steps[1..] == rest;
    forall k | 0 <= k < |steps| ensures Inner(steps[k]) { assert k > 0 ==> steps[k] == rest[k - 1]; }
  }

  lemma {:induction false} NothingMoves(cfg: Config, s: State, steps: seq<Step>)
    requires cfg.maxsize >= 1 && Inv(cfg, s) && s.run.WaitAll? && s.producer.Asking?
    requires InnerOnly(steps) && Run(cfg, s, steps).Some?
    ensures steps == []
  {
    assert steps != [] ==> Inner(steps[0]);
  }

  /** After the first task has ended, the run ends by itself if and only if the producer is not waiting
      for the source: the sibling of a failed consumer is not cancelled, so a source that neither
      yields nor ends holds the run for good, and anything else lets it drain and return. */
  lemma StalledSourceHoldsRun(cfg: Config, s: State)
    requires cfg.maxsize >= 1 && Inv(cfg, s) && s.run.WaitAll?
    ensures EndsByItself(cfg, s) <==> !s.producer.Asking?
    ensures s.producer.Asking? ==> ConsumerDone(s)
  {
    if s.producer.Asking? {
      forall steps | InnerOnly(steps) && Run(cfg, s, steps).Some? ensures !Run(cfg, s, steps).value.run.Returned? {
        NothingMoves(cfg, s, steps);
      }
    } else {
      var steps := EndsWithoutSource(cfg, s);
    }
  }

  /** Such a run: the consumer fails on the first frame while the producer is back at the source. */
  lemma ConsumerFailureHangs(cfg: Config, f: Frame, code: nat) returns (steps: seq<Step>)
    requires cfg.maxsize >= 1
    ensures Reachable(cfg, steps)
    ensures var s := At(cfg, steps);
            && s.run.WaitAll? && s.consumer == ConsumerFailed(Other(code)) && s.producer.Asking? && !EndsByItself(cfg, s)
  {
    steps := Went(cfg, [], Next(f));
    steps := Went(cfg, steps, Put);
    steps := Went(cfg, steps, Get);
    steps := Went(cfg, steps, ConsumeRaises(Other(code)));
    steps := Went(cfg, steps, FirstCompleted);
    ReachableInv(cfg, steps);
    StalledSourceHoldsRun(cfg, At(cfg, steps));
  }
}
