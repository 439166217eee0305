/**
The queue and the pipeline as objects. Each method is what one task does between two awaits;
Run executes any schedule of such turns, and is proved to make exactly the steps of the model.
*/
module FrameTasks {
  import opened Common
  import opened FramePipeline

  datatype PutResult = Admitted | WaitForRoom | PutClosed
  datatype GetResult = Item(frame: Frame) | WaitForItem | GetClosed

  class BoundedFrameQueue {
    const maxsize: nat
    const fullPolicy: Policy
    var items: seq<Frame>
    var closed: bool
    var droppedFrames: nat
    var totalEnqueued: nat
    var totalDequeued: nat
    var maxObserved: nat
    var waiters: seq<Role>

    function View(): Queue
      reads this
    {
      Queue(items, closed, droppedFrames, totalEnqueued, totalDequeued, maxObserved, waiters)
    }

    function Cfg(): Config { Config(maxsize, fullPolicy) }

    constructor (maxsize: nat, fullPolicy: Policy)
      requires maxsize >= 1
      ensures Cfg() == Config(maxsize, fullPolicy) && View() == INITIAL.q
    {
      this.maxsize := maxsize;
      this.fullPolicy := fullPolicy;
      items, waiters := [], [];
      closed := false;
      droppedFrames, totalEnqueued, totalDequeued, maxObserved := 0, 0, 0, 0;
    }

    // ValueError when maxsize < 1.
    static method Create(maxsize: int, fullPolicy: Policy) returns (r: Result<BoundedFrameQueue, ()>)
      ensures r.Ok? <==> maxsize >= 1
      ensures r.Ok? ==> fresh(r.value) && r.value.Cfg() == Config(maxsize, fullPolicy) && r.value.View() == INITIAL.q
    {
      if maxsize < 1 { return Err(()); }
      var q := new BoundedFrameQueue(maxsize, fullPolicy);
      r := Ok(q);
    }

    method NotifyOne()
      modifies this`waiters
      ensures View() == Notify(old(View()))
    {
      if waiters != [] { waiters := waiters[1..]; }
    }

    /** One turn of put under the condition: refused when closed, admitted when there is room or the
        oldest frame can make room, otherwise back to waiting. */
    method Put(item: Frame) returns (r: PutResult)
      requires maxsize >= 1
      modifies this
      ensures r == if old(closed) then PutClosed else if fullPolicy.Block? && Full(Cfg(), old(View())) then WaitForRoom else Admitted
      ensures View() == match r
                        case PutClosed => old(View())
                        case WaitForRoom => Waiting(old(View()), Producer)
                        case Admitted => Admit(Cfg(), old(View()), item)
      ensures r.WaitForRoom? <==> !old(closed) && fullPolicy.Block? && |old(items)| >= maxsize
      ensures droppedFrames == old(droppedFrames) + (if !old(closed) && fullPolicy.DropOldest? && |old(items)| >= maxsize then 1 else 0)
      ensures r.Admitted? ==> items == (if |old(items)| >= maxsize then old(items)[1..] else old(items)) + [item]
    {
      if closed { return PutClosed; }
      if fullPolicy.DropOldest? {
        if |items| >= maxsize {
          items := items[1..];
          droppedFrames := droppedFrames + 1;
        }
      } else if |items| >= maxsize {
        waiters := waiters + [Producer];
        return WaitForRoom;
      }
      items := items + [item];
      totalEnqueued := totalEnqueued + 1;
      maxObserved := if maxObserved < |items| then |items| else maxObserved;
      NotifyOne();
      return Admitted;
    }

    /** One turn of get: the oldest frame if there is one, even after shutdown. */
    method Get() returns (r: GetResult)
      modifies this
      ensures r == if old(items) != [] then Item(old(items)[0]) else if old(closed) then GetClosed else WaitForItem
      ensures View() == match r
                        case Item(_) => Popped(old(View()))
                        case GetClosed => old(View())
                        case WaitForItem => Waiting(old(View()), Consumer)
    {
      if items == [] {
        if closed { return GetClosed; }
        waiters := waiters + [Consumer];
        return WaitForItem;
      }
      r := Item(items[0]);
      items := items[1..];
      totalDequeued := totalDequeued + 1;
      NotifyOne();
    }

    method Shutdown()
      modifies this
      ensures View() == Shut(old(View()))
    {
      closed := true;
      waiters := [];
    }
  }

  class FramePipelineRun {
    const queue: BoundedFrameQueue
    var producer: ProducerPhase
    var consumer: ConsumerPhase
    var coordinator: Coordinator
    var sourceDropped: nat            // source.dropped_frames
    var produced: seq<Frame>
    var admitted: seq<Frame>
    var delivered: seq<Frame>
    ghost var history: seq<Step>

    function View(): State
      reads this, queue
    {
      State(queue.View(), producer, consumer, coordinator, produced, admitted, delivered, sourceDropped)
    }

    ghost predicate Valid()
      reads this, queue
    {
      queue.maxsize >= 1 && Run(queue.Cfg(), INITIAL, history) == Some(View())
    }

    constructor (queue: BoundedFrameQueue)
      requires queue.maxsize >= 1 && queue.View() == INITIAL.q
      ensures this.queue == queue && Valid() && View() == INITIAL
    {
      this.queue := queue;
      producer, consumer, coordinator, sourceDropped := Asking, Getting, WaitFirst, 0;
      produced, admitted, delivered, history := [], [], [], [];
    }

    // The source answers the async for of _produce.
    method SourceAnswers(t: Step)
      requires Valid() && producer.Asking? && (t.Next? || t.NoData? || t.SourceRaises? || t.EndOfStream?)
      modifies this
      ensures View() == Apply(queue.Cfg(), old(View()), t) && history == old(history)
    {
      match t
      case Next(f) =>
        produced := produced + [f];
        producer := Putting(f);
      case NoData => producer := ProducerFailed(Other(0));
      case SourceRaises(why) =>
        if why.QueueClosed? && queue.closed {
          producer := Stopped;
        } else {
          producer := ProducerFailed(why);
        }
      case EndOfStream => producer := Ended;
    }

    // The producer's turn inside put, and the drop accounting after it.
    method ProducerTurn()
      requires Valid() && CanPut(View())
      modifies this, queue
      ensures View() == Apply(queue.Cfg(), old(View()), Step.Put) && history == old(history)
    {
      var f := producer.frame;
      var droppedBefore := queue.droppedFrames;
      var r := queue.Put(f);
      match r
      case PutClosed => producer := Stopped;
      case WaitForRoom => producer := ProducerWaits(f);
      case Admitted =>
        admitted := admitted + [f];
        var dropped := queue.droppedFrames - droppedBefore;
        for k := 0 to dropped
          invariant sourceDropped == old(sourceDropped) + k
          modifies this`sourceDropped
        {
          sourceDropped := sourceDropped + 1;
        }
        producer := Asking;
    }

    // The consumer's turn inside get, and its call of consume.
    method ConsumerTurn()
      requires Valid() && CanGet(View())
      modifies this, queue
      ensures View() == Apply(queue.Cfg(), old(View()), Step.Get) && history == old(history)
    {
      var r := queue.Get();
      match r
      case GetClosed => consumer := Drained;
      case WaitForItem => consumer := ConsumerWaits;
      case Item(f) =>
        delivered := delivered + [f];
        consumer := Consuming(f);
    }

    // consume returns or raises.
    method ConsumerAnswers(t: Step)
      requires Valid() && consumer.Consuming? && (t.ConsumeReturns? || t.ConsumeRaises?)
      modifies this
      ensures View() == Apply(queue.Cfg(), old(View()), t) && history == old(history)
    {
      match t
      case ConsumeReturns => consumer := Getting;
      case ConsumeRaises(why) =>
        if why.QueueClosed? && queue.closed {
          consumer := Swallowed;
        } else {
          consumer := ConsumerFailed(why);
        }
    }

    // run's own turns after asyncio.wait, and its finally block under cancellation.
    method CoordinatorTurn(t: Step)
      requires Valid() && Enabled(View(), t) && (t.FirstCompleted? || t.AllCompleted? || t.Cancel?)
      modifies this, queue
      ensures View() == Apply(queue.Cfg(), old(View()), t) && history == old(history)
    {
      match t
      case FirstCompleted =>
        queue.Shutdown();
        coordinator := WaitAll;
      case AllCompleted =>
        if producer.ProducerFailed? && !producer.why.QueueClosed? {
          coordinator := Returned(Some(producer.why));
        } else if consumer.ConsumerFailed? && !consumer.error.QueueClosed? {
          coordinator := Returned(Some(consumer.error));
        } else {
          coordinator := Returned(None);
        }
      case Cancel =>
        queue.Shutdown();
        if !(producer.Ended? || producer.Stopped? || producer.ProducerFailed?) { producer := Stopped; }
        if !(consumer.Drained? || consumer.Swallowed? || consumer.ConsumerFailed?) { consumer := Swallowed; }
        coordinator := Cancelled;
    }

    method Turn(t: Step)
      requires Valid() && Enabled(View(), t)
      modifies this, queue
      ensures Valid() && View() == Apply(queue.Cfg(), old(View()), t) && history == old(history) + [t]
    {
      Extend(queue.Cfg(), INITIAL, history, t);
      if t.Next? || t.NoData? || t.SourceRaises? || t.EndOfStream? {
        SourceAnswers(t);
      } else if t.Put? {
        ProducerTurn();
      } else if t.Get? {
        ConsumerTurn();
      } else if t.ConsumeReturns? || t.ConsumeRaises? {
        ConsumerAnswers(t);
      } else {
        CoordinatorTurn(t);
      }
      history := history + [t];
    }

    /** Any interleaving of the tasks: it conserves frames, keeps the source's drop count equal to
        the queue's, and if the run ends cleanly under BLOCK, delivers exactly what was produced. */
    method RunSchedule(schedule: seq<Step>)
      requires Valid()
      modifies this, queue
      ensures Valid() && old(history) <= history
      ensures queue.totalEnqueued == queue.totalDequeued + |queue.items| + queue.droppedFrames
      ensures sourceDropped == queue.droppedFrames && Subsequence(delivered, produced)
      ensures coordinator.Returned? && producer.Ended? && consumer.Drained? && queue.fullPolicy.Block? ==> delivered == produced
    {
      for k := 0 to |schedule|
        invariant Valid() && old(history) <= history
      {
        if Enabled(View(), schedule[k]) {
          Turn(schedule[k]);
        }
      }
      FramesConserved(queue.Cfg(), history);
      if coordinator.Returned? && producer.Ended? && consumer.Drained? {
        CleanRunDeliversAll(queue.Cfg(), history);
      }
    }
  }
}
