/** The `BlockingCollection<IAction>` behind a context: a FIFO queue with an
    "adding completed" flag, consumed through `GetConsumingEnumerable`. */
module ActionQueue {
  import opened Exceptions

  datatype Queue<T> = Queue(items: seq<T>, addingCompleted: bool)

  /** `new BlockingCollection<IAction>()` */
  function Empty<T>(): (r: Queue<T>)
    ensures r.items == [] && !r.addingCompleted
  {
    Queue([], false)
  }

  /** `Add`: appends at the tail; once adding has been completed it throws
      InvalidOperationException and the queue is left as it was. */
  function Add<T>(q: Queue<T>, x: T): (r: Outcome<Queue<T>>)
    ensures r.Ok? <==> !q.addingCompleted
    ensures r.Ok? ==> r.value.items == q.items + [x] && !r.value.addingCompleted
    ensures r.Throw? ==> r.error == InvalidOperation
  {
    if q.addingCompleted then Throw(InvalidOperation) else Ok(q.(items := q.items + [x]))
  }

  /** `CompleteAdding`: no further item may be added; queued items stay. */
  function CompleteAdding<T>(q: Queue<T>): (r: Queue<T>)
    ensures r.items == q.items && r.addingCompleted
  {
    q.(addingCompleted := true)
  }

  /** One step of the consuming enumerable: the head item, the end of the
      sequence, or a wait for a producer. */
  datatype Next<T> = Yield(item: T, rest: Queue<T>) | End | Block

  function TakeNext<T>(q: Queue<T>): (r: Next<T>)
    ensures r.End? <==> q.items == [] && q.addingCompleted
    ensures r.Block? <==> q.items == [] && !q.addingCompleted
    ensures r.Yield? ==> [r.item] + r.rest.items == q.items && r.rest.addingCompleted == q.addingCompleted
  {
    if |q.items| > 0 then Yield(q.items[0], Queue(q.items[1..], q.addingCompleted))
    else if q.addingCompleted then End
    else Block
  }

  /** What producers and the consumer do to the queue, in some interleaving. */
  datatype Op<T> = Produce(x: T) | Close | Consume

  /** The queue after some operations, the items `Add` accepted, the items
      the consumer was given, and whether the consumer has seen the end. */
  datatype Trace<T> = Trace(queue: Queue<T>, accepted: seq<T>, yielded: seq<T>, ended: bool)

  function Apply<T>(t: Trace<T>, op: Op<T>): Trace<T> {
    match op
    case Produce(x) =>
      (match Add(t.queue, x)
       case Ok(q) => t.(queue := q, accepted := t.accepted + [x])
       case Throw(_) => t)
    case Close => t.(queue := CompleteAdding(t.queue))
    case Consume =>
      (match TakeNext(t.queue)
       case Yield(x, rest) => t.(queue := rest, yielded := t.yielded + [x])
       case End => t.(ended := true)
       case Block => t)
  }

  function Run<T>(t: Trace<T>, ops: seq<Op<T>>): Trace<T>
    decreases |ops|
  {
    if |ops| == 0 then t else Run(Apply(t, ops[0]), ops[1..])
  }

  /** Relative to the starting items `start`: nothing is lost, nothing is
      reordered, and the end is seen only once the queue is closed and empty. */
  ghost predicate Fifo<T>(start: seq<T>, t: Trace<T>) {
    && t.yielded + t.queue.items == start + t.accepted
    && (t.ended ==> t.queue.items == [] && t.queue.addingCompleted)
  }

  /** Whatever the interleaving of producers, `CompleteAdding` and the
      consumer, the consumer receives exactly the accepted items in the order
      they were added, and it sees the end only after completion once the
      queue has been emptied, at which point it has received every item. */
  lemma {:induction false} RunIsFifo<T>(start: seq<T>, t: Trace<T>, ops: seq<Op<T>>)
    requires Fifo(start, t)
    ensures Fifo(start, Run(t, ops))
    ensures Run(t, ops).ended ==> Run(t, ops).yielded == start + Run(t, ops).accepted
    decreases |ops|
  {
    if |ops| > 0 {
      var t' := Apply(t, ops[0]);
      match ops[0] {
        case Produce(x) =>
          if !t.queue.addingCompleted {
            assert t'.yielded + t'.queue.items == (t.yielded + t.queue.items) + [x];
          }
        case Close =>
        case Consume =>
          match TakeNext(t.queue) {
            case Yield(x, rest) =>
              assert t'.yielded + t'.queue.items == t.yielded + ([x] + rest.items);
            case End =>
            case Block =>
          }
      }
      RunIsFifo(start, t', ops[1..]);
    } else {
      assert t.ended ==> t.yielded == t.yielded + t.queue.items;
    }
  }

  /** Starting from a fresh queue: every item the consumer ever gets was
      added, in adding order. */
  lemma FreshQueueIsFifo<T>(ops: seq<Op<T>>)
    ensures var t := Run(Trace(Empty(), [], [], false), ops);
      && t.yielded + t.queue.items == t.accepted
      && (t.ended ==> t.yielded == t.accepted)
  {
    RunIsFifo([], Trace(Empty<T>(), [], [], false), ops);
  }
}
