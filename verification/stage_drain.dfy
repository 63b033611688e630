/** The part both stage runners share: create the context, start the async
    method, drain the queue on the host thread until the method's task has
    completed and the queue is empty, and wait for the task.

    Thread interleaving is replaced by a script: the sequence of events that
    happen while the stage runs, in the order they happen. `Take` is the host
    thread asking `GetActions` for the next action; every other event is done
    by the async method or by another thread. Once the script is over nothing
    else happens, so the host takes whatever is still queued and then either
    sees the end of the queue or waits for ever. */
module StageDrain {
  import opened Exceptions
  import opened Cancellation
  import opened Host
  import opened ActionQueue
  import opened CmdletContext
  import SyncContext
  import Internals

  /** A completed `Task`. A faulted task has at least one exception. */
  datatype TaskStatus = RanToCompletion | TaskCanceled | TaskFaulted(first: Exn, rest: seq<Exn>)

  /** `task.GetAwaiter().GetResult()` on a completed task: nothing, a
      TaskCanceledException (an OperationCanceledException), or the task's
      first exception itself, not wrapped in an AggregateException. */
  function GetResult(t: TaskStatus): (r: Outcome<()>)
    ensures r.Ok? <==> t.RanToCompletion?
    ensures t.TaskCanceled? ==> r == Throw(OperationCanceled)
    ensures t.TaskFaulted? ==> r == Throw(t.first)
  {
    match t
    case RanToCompletion => Ok(())
    case TaskCanceled => Throw(OperationCanceled)
    case TaskFaulted(first, _) => Throw(first)
  }

  datatype Event =
    | Take                                                                // the host thread moves to the next action
    | Resume(callback: CallbackId, state: Value, behaviour: Outcome<()>)  // an await resumes: its continuation is posted
    | Marshal(thread: ThreadId, work: Work<()>, runSynchronously: bool, token: Token)  // user code calls QueueAction
    | CancelSource(source: SourceId)                                      // a caller's cancellation source is cancelled
    | Stop                                                                // the host's StopProcessing cancels the stage
    | Complete(status: TaskStatus)                                        // the task completes; its continuation runs Close

  /** How the drain loop treats an exception from `Invoke`. */
  datatype Policy =
    | SwallowCancellation   // AsyncMethodRunner: swallow cancellation, otherwise cancel the context and rethrow
    | PropagateAll          // AsyncPipelineRunner: no handler around Invoke

  /** The continuations a log records, in order, with their posted state. */
  function Continuations(log: seq<Executed>): seq<(CallbackId, Value)> {
    if |log| == 0 then []
    else (if log[0].Continuation? then [(log[0].callback, log[0].state)] else []) + Continuations(log[1..])
  }

  /** The callbacks among queued items, in order, with their posted state. */
  function Callbacks(items: seq<Item>): seq<(CallbackId, Value)> {
    if |items| == 0 then []
    else (if items[0].CallbackItem? then [(items[0].callback, items[0].state)] else []) + Callbacks(items[1..])
  }

  lemma {:induction false} ContinuationsAppend(a: seq<Executed>, b: seq<Executed>)
    ensures Continuations(a + b) == Continuations(a) + Continuations(b)
    decreases |a|
  {
    if |a| == 0 {
      assert a + b == b;
    } else {
      assert (a + b)[1..] == a[1..] + b;
      ContinuationsAppend(a[1..], b);
    }
  }

  lemma {:induction false} CallbacksAppend(a: seq<Item>, b: seq<Item>)
    ensures Callbacks(a + b) == Callbacks(a) + Callbacks(b)
    decreases |a|
  {
    if |a| == 0 {
      assert a + b == b;
    } else {
      assert (a + b)[1..] == a[1..] + b;
      CallbacksAppend(a[1..], b);
    }
  }

  /** From `before` to `after` the log only grew, everything appended ran on
      `thread`, and the continuations appended are exactly the callbacks of
      `invoked`, in the same order. */
  ghost predicate HostLog(before: seq<Executed>, after: seq<Executed>, thread: ThreadId, invoked: seq<Item>) {
    && before <= after
    && (forall k :: |before| <= k < |after| ==> after[k].thread == thread)
    && Continuations(after[|before|..]) == Callbacks(invoked)
  }

  lemma HostLogNothing(log: seq<Executed>, thread: ThreadId)
    ensures HostLog(log, log, thread, [])
  {
    assert log[|log|..] == [];
  }

  lemma HostLogTrans(a: seq<Executed>, b: seq<Executed>, c: seq<Executed>, thread: ThreadId,
                     first: seq<Item>, second: seq<Item>)
    requires HostLog(a, b, thread, first) && HostLog(b, c, thread, second)
    ensures HostLog(a, c, thread, first + second)
  {
    assert c[|a|..] == b[|a|..] + c[|b|..];
    ContinuationsAppend(b[|a|..], c[|b|..]);
    CallbacksAppend(first, second);
  }

  /** `IAction.Invoke` on the host thread: an `AwaitableAction` never throws;
      a `Callback` runs its continuation and lets its exception escape. */
  function InvokeItem(rt: Runtime, item: Item, thread: ThreadId): (r: Step<()>)
    requires Valid(rt) && ItemWellFormed(item, |rt.actions|)
    ensures Valid(r.rt) && Grows(rt, r.rt)
    ensures r.rt.contexts == rt.contexts
    ensures item.ActionItem? ==> r.out.Ok?
    ensures item.CallbackItem? ==> r.out == item.behaviour
    ensures item.CallbackItem? ==>
      r.rt.executed == rt.executed + [Continuation(thread, item.callback, item.state)]
    // whatever it runs, it runs on the invoking thread, and only a callback adds a continuation
    ensures HostLog(rt.executed, r.rt.executed, thread, [item])
  {
    match item
    case ActionItem(aid) =>
      var rt' := InvokeAction(rt, aid, thread);
      assert rt'.executed[|rt.executed|..] == rt'.executed[|rt.executed|..] + [];
      assert Continuations(rt'.executed[|rt.executed|..]) == [];
      Step(rt', Ok(()))
    case CallbackItem(_, _, _) =>
      var r := SyncContext.InvokeCallback(rt, item, thread);
      assert r.rt.executed[|rt.executed|..] == [Continuation(thread, item.callback, item.state)];
      r
  }

  /** An event other than `Take`, applied while stage context `id` runs for
      `cmdlet`; `task` is the task's status once it has completed. Only
      `Complete` closes the queue, and only the first one counts; no event
      removes a queued item or touches the context's other fields. */
  function ApplyEvent(rt: Runtime, id: CtxId, cmdlet: Cmdlet, e: Event, task: Option<TaskStatus>)
    : (r: (Runtime, Option<TaskStatus>))
    requires Valid(rt) && id < |rt.contexts| && !e.Take?
    ensures Valid(r.0)
    ensures r.0.registry == rt.registry && r.0.ambient == rt.ambient
    ensures |r.0.contexts| == |rt.contexts|
    ensures r.0.contexts[id] == rt.contexts[id].(queue := r.0.contexts[id].queue)
    ensures rt.contexts[id].queue.items <= r.0.contexts[id].queue.items
    ensures rt.cancelled <= r.0.cancelled
    ensures e.Complete? && task.None? ==>
      r.1 == Some(e.status) && (!rt.contexts[id].disposed ==> r.0.contexts[id].queue.addingCompleted)
    ensures !(e.Complete? && task.None?) ==>
      r.1 == task && r.0.contexts[id].queue.addingCompleted == rt.contexts[id].queue.addingCompleted
    ensures e.Stop? && !rt.contexts[id].disposed ==> rt.contexts[id].cts in r.0.cancelled
    // only a marshalled call can run code, in place, and only on the stage's main thread
    ensures cmdlet in rt.registry && rt.registry[cmdlet] == id ==>
      HostLog(rt.executed, r.0.executed, rt.contexts[id].mainThread, [])
  {
    HostLogNothing(rt.executed, rt.contexts[id].mainThread);
    match e
    case Resume(callback, state, behaviour) =>
      (SyncContext.Post(rt, id, Some(callback), state, behaviour).rt, task)
    case Marshal(thread, work, flag, token) =>
      var q := Internals.QueueAction(rt, thread, Some(cmdlet), Some(work), flag, token);
      assert q.rt.executed != rt.executed ==>
        q.rt.executed[|rt.executed|..] == [Body(thread, cmdlet, work.call)];
      (q.rt, task)
    case CancelSource(s) =>
      if s.Internal? && s.n >= rt.nextSource then (rt, task)   // no such source exists yet
      else (CmdletContext.CancelSource(rt, s), task)
    case Stop =>
      (CancelAsyncOperations(rt, id), task)
    case Complete(status) =>
      if task.Some? then (rt, task) else (CmdletContext.Close(rt, id), Some(status))
  }

  /** The drain loop's state: the runtime, the first event not yet
      consumed, the items taken and invoked, the items added to the queue,
      the task's status once it has completed, the exception that ended the
      loop, whether the host saw the end of the queue, and whether it is
      waiting for ever after the script. */
  datatype Drained = Drained(
    rt: Runtime,
    next: nat,
    invoked: seq<Item>,
    added: seq<Item>,
    task: Option<TaskStatus>,
    error: Option<Exn>,
    ended: bool,
    waiting: bool)

  predicate Running(d: Drained) {
    !d.ended && d.error.None? && !d.waiting
  }

  /** What holds of the drain loop's state for context `id` started in `rt0`. */
  ghost predicate DrainInv(rt0: Runtime, id: CtxId, script: seq<Event>, policy: Policy, d: Drained) {
    && Valid(rt0) && id < |rt0.contexts| && !rt0.contexts[id].disposed
    && Valid(d.rt) && d.next <= |script|
    && d.rt.registry == rt0.registry && d.rt.ambient == rt0.ambient
    && |d.rt.contexts| == |rt0.contexts|
    && d.rt.contexts[id] == rt0.contexts[id].(queue := d.rt.contexts[id].queue)
    && rt0.cancelled <= d.rt.cancelled
    && d.invoked + d.rt.contexts[id].queue.items == d.added
    && (d.rt.contexts[id].queue.addingCompleted <==> d.task.Some?)
    && (d.ended ==> d.rt.contexts[id].queue.items == [] && d.task.Some? && d.error.None?)
    && (d.waiting ==>
          d.next == |script| && d.rt.contexts[id].queue.items == [] && d.task.None? && d.error.None?)
    && (d.error.Some? ==>
          && |d.invoked| > 0
          && d.invoked[|d.invoked| - 1].CallbackItem?
          && d.invoked[|d.invoked| - 1].behaviour == Throw(d.error.value))
    && (d.error.Some? && policy.SwallowCancellation? ==>
          !IsCancellation(d.error.value) && rt0.contexts[id].cts in d.rt.cancelled)
    && (d.task.None? ==> forall k :: 0 <= k < d.next ==> !script[k].Complete?)
    && HostLog(rt0.executed, d.rt.executed, rt0.contexts[id].mainThread, d.invoked)
  }

  /** The host thread's `MoveNext` and, when it yields, the `Invoke` of the
      item, with the runner's handling of what `Invoke` throws. */
  function TakeStep(rt0: Runtime, id: CtxId, host: ThreadId, script: seq<Event>, policy: Policy, d: Drained)
    : (r: Drained)
    requires DrainInv(rt0, id, script, policy, d) && Running(d)
    requires host == rt0.contexts[id].mainThread
    requires d.next == |script| || script[d.next].Take?
    ensures DrainInv(rt0, id, script, policy, r)
    ensures r.next == if d.next < |script| then d.next + 1 else d.next
    ensures d.next == |script| && Running(r) ==>
      |r.rt.contexts[id].queue.items| < |d.rt.contexts[id].queue.items|
  {
    var next := if d.next < |script| then d.next + 1 else d.next;
    var taken := MoveNext(d.rt, id);
    match taken.next
    case Yield(item, _) =>
      InvokeStep(rt0, id, host, script, policy, d, taken, next)
    case End =>
      d.(next := next, ended := true)
    case Block =>
      d.(next := next, waiting := d.next == |script|)
  }

  /** `Invoke` of the item `MoveNext` yielded, with the runner's handling of
      what it throws. */
  function InvokeStep(rt0: Runtime, id: CtxId, host: ThreadId, script: seq<Event>, policy: Policy, d: Drained,
                      taken: Taken, next: nat)
    : (r: Drained)
    requires DrainInv(rt0, id, script, policy, d) && Running(d)
    requires host == rt0.contexts[id].mainThread
    requires taken == MoveNext(d.rt, id) && taken.next.Yield?
    requires d.next <= next <= |script|
    requires d.task.None? ==> forall k :: 0 <= k < next ==> !script[k].Complete?
    ensures DrainInv(rt0, id, script, policy, r)
    ensures r.next == next
    ensures Running(r) ==> |r.rt.contexts[id].queue.items| < |d.rt.contexts[id].queue.items|
  {
    var item := taken.next.item;
    var res := InvokeItem(taken.rt, item, host);
    var error :=
      if res.out.Ok? then None
      else if policy.SwallowCancellation? && IsCancellation(res.out.error) then None
      else Some(res.out.error);
    var rt' := if error.Some? && policy.SwallowCancellation? then CancelAsyncOperations(res.rt, id) else res.rt;
    assert rt'.contexts == taken.rt.contexts;
    assert rt'.executed == res.rt.executed;
    HostLogTrans(rt0.executed, taken.rt.executed, res.rt.executed, host, d.invoked, [item]);
    d.(rt := rt', next := next, invoked := d.invoked + [item], error := error)
  }

  /** The drain state after an event, given only what `ApplyEvent`
      guarantees about the runtime and the task status it produces. */
  function AfterEvent(rt0: Runtime, id: CtxId, script: seq<Event>, policy: Policy, d: Drained,
                      rt': Runtime, task': Option<TaskStatus>)
    : (r: Drained)
    requires DrainInv(rt0, id, script, policy, d) && Running(d)
    requires d.next < |script| && !script[d.next].Take?
    requires Valid(rt')
    requires rt'.registry == d.rt.registry && rt'.ambient == d.rt.ambient
    requires |rt'.contexts| == |d.rt.contexts|
    requires rt'.contexts[id] == d.rt.contexts[id].(queue := rt'.contexts[id].queue)
    requires d.rt.contexts[id].queue.items <= rt'.contexts[id].queue.items
    requires d.rt.cancelled <= rt'.cancelled
    requires rt'.contexts[id].queue.addingCompleted <==> task'.Some?
    requires task'.None? ==> d.task.None? && !script[d.next].Complete?
    requires HostLog(d.rt.executed, rt'.executed, rt0.contexts[id].mainThread, [])
    ensures DrainInv(rt0, id, script, policy, r) && Running(r)
    ensures r.next == d.next + 1
  {
    var before := d.rt.contexts[id].queue.items;
    var after := rt'.contexts[id].queue.items;
    assert after == before + after[|before|..];
    var r := d.(rt := rt', next := d.next + 1, added := d.added + after[|before|..], task := task');
    assert r.invoked + r.rt.contexts[id].queue.items == r.added;
    assert task'.None? ==> forall k :: 0 <= k < d.next + 1 ==> !script[k].Complete?;
    HostLogTrans(rt0.executed, d.rt.executed, rt'.executed, rt0.contexts[id].mainThread, d.invoked, []);
    assert d.invoked + [] == d.invoked;
    r
  }

  /** An event of the async method or of another thread. */
  function EventStep(rt0: Runtime, id: CtxId, cmdlet: Cmdlet, script: seq<Event>, policy: Policy, d: Drained)
    : (r: Drained)
    requires DrainInv(rt0, id, script, policy, d) && Running(d)
    requires cmdlet in rt0.registry && rt0.registry[cmdlet] == id
    requires d.next < |script| && !script[d.next].Take?
    ensures DrainInv(rt0, id, script, policy, r) && Running(r)
    ensures r.next == d.next + 1
  {
    var (rt', task') := ApplyEvent(d.rt, id, cmdlet, script[d.next], d.task);
    AfterEvent(rt0, id, script, policy, d, rt', task')
  }

  /** The `foreach (var action in context.GetActions())` loop of both runners. */
  method Drain(rt0: Runtime, id: CtxId, cmdlet: Cmdlet, host: ThreadId, script: seq<Event>, policy: Policy)
    returns (d: Drained)
    requires Valid(rt0) && id < |rt0.contexts|
    requires rt0.contexts[id].queue.items == [] && !rt0.contexts[id].queue.addingCompleted
    requires !rt0.contexts[id].disposed
    requires cmdlet in rt0.registry && rt0.registry[cmdlet] == id && rt0.contexts[id].mainThread == host
    ensures Valid(d.rt) && d.next <= |script|
    // everything that ran during the loop ran on the host thread, and the continuations that ran
    // are the callbacks taken, in the order they were taken
    ensures HostLog(rt0.executed, d.rt.executed, host, d.invoked)
    ensures d.rt.registry == rt0.registry && d.rt.ambient == rt0.ambient
    ensures |d.rt.contexts| == |rt0.contexts|
    ensures d.rt.contexts[id] == rt0.contexts[id].(queue := d.rt.contexts[id].queue)
    ensures rt0.cancelled <= d.rt.cancelled
    // nothing lost, nothing reordered: what was taken, then what is still queued, is what was added
    ensures d.invoked + d.rt.contexts[id].queue.items == d.added
    // the queue is closed exactly when the task has completed
    ensures d.rt.contexts[id].queue.addingCompleted <==> d.task.Some?
    // without an exception the loop delivers every added item, and it ends only once the task has
    // completed (otherwise it waits for ever after the script)
    ensures d.error.None? ==> d.rt.contexts[id].queue.items == [] && d.invoked == d.added
    ensures d.error.None? && d.task.None? ==> d.next == |script|
    // the task is still running only if no `Complete` has happened
    ensures d.task.None? ==> forall k :: 0 <= k < d.next ==> !script[k].Complete?
    // only a continuation can end the loop with an exception: `AwaitableAction.Invoke` never throws
    ensures d.error.Some? ==>
      && |d.invoked| > 0
      && d.invoked[|d.invoked| - 1].CallbackItem?
      && d.invoked[|d.invoked| - 1].behaviour == Throw(d.error.value)
    // AsyncMethodRunner: a cancellation is swallowed; anything else first cancels the context
    ensures d.error.Some? && policy.SwallowCancellation? ==>
      !IsCancellation(d.error.value) && rt0.contexts[id].cts in d.rt.cancelled
  {
    d := Drained(rt0, 0, [], [], None, None, false, false);
    HostLogNothing(rt0.executed, host);
    while Running(d)
      invariant DrainInv(rt0, id, script, policy, d)
      decreases |script| - d.next, (if Running(d) then 1 else 0), |d.rt.contexts[id].queue.items|
    {
      if d.next < |script| && !script[d.next].Take? {
        d := EventStep(rt0, id, cmdlet, script, policy, d);
      } else {
        d := TakeStep(rt0, id, host, script, policy, d);
      }
    }
  }

  /** `task.GetAwaiter().GetResult()` after the loop has ended with an
      exception: the host thread is blocked, so `Take` events do not happen,
      while the other events go on until the task completes, if ever. */
  function AwaitTask(rt: Runtime, id: CtxId, cmdlet: Cmdlet, script: seq<Event>, i: nat, task: Option<TaskStatus>)
    : (r: (Runtime, Option<TaskStatus>))
    requires Valid(rt) && id < |rt.contexts| && i <= |script|
    ensures Valid(r.0)
    ensures r.0.registry == rt.registry && r.0.ambient == rt.ambient
    ensures |r.0.contexts| == |rt.contexts|
    ensures r.0.contexts[id] == rt.contexts[id].(queue := r.0.contexts[id].queue)
    ensures rt.contexts[id].queue.items <= r.0.contexts[id].queue.items
    ensures rt.cancelled <= r.0.cancelled
    ensures task.Some? ==> r == (rt, task)
    ensures task.None? && r.1.Some? ==>
      exists k :: i <= k < |script| && script[k] == Complete(r.1.value)
        && forall m :: i <= m < k ==> !script[m].Complete?
    ensures task.None? && r.1.None? ==> forall k :: i <= k < |script| ==> !script[k].Complete?
    ensures cmdlet in rt.registry && rt.registry[cmdlet] == id ==>
      HostLog(rt.executed, r.0.executed, rt.contexts[id].mainThread, [])
    decreases |script| - i
  {
    HostLogNothing(rt.executed, rt.contexts[id].mainThread);
    if task.Some? || i == |script| then (rt, task)
    else if script[i].Take? then AwaitTask(rt, id, cmdlet, script, i + 1, task)
    else
      var (rt', task') := ApplyEvent(rt, id, cmdlet, script[i], task);
      var r := AwaitTask(rt', id, cmdlet, script, i + 1, task');
      if cmdlet in rt.registry && rt.registry[cmdlet] == id then
        HostLogTrans(rt.executed, rt'.executed, r.0.executed, rt.contexts[id].mainThread, [], []);
        r
      else r
  }

  /** What happens before the async method throws without returning a task:
      the events other than `Take` (the host thread is busy calling the
      method) and `Complete` (there is no task) are applied in order. */
  function BeforeThrow(rt: Runtime, id: CtxId, cmdlet: Cmdlet, script: seq<Event>, i: nat): (r: Runtime)
    requires Valid(rt) && id < |rt.contexts| && i <= |script|
    ensures Valid(r)
    ensures r.registry == rt.registry && r.ambient == rt.ambient
    ensures |r.contexts| == |rt.contexts|
    ensures r.contexts[id] == rt.contexts[id].(queue := r.contexts[id].queue)
    ensures rt.contexts[id].queue.items <= r.contexts[id].queue.items
    ensures r.contexts[id].queue.addingCompleted == rt.contexts[id].queue.addingCompleted
    ensures rt.cancelled <= r.cancelled
    ensures cmdlet in rt.registry && rt.registry[cmdlet] == id ==>
      HostLog(rt.executed, r.executed, rt.contexts[id].mainThread, [])
    decreases |script| - i
  {
    HostLogNothing(rt.executed, rt.contexts[id].mainThread);
    if i == |script| then rt
    else if script[i].Take? || script[i].Complete? then BeforeThrow(rt, id, cmdlet, script, i + 1)
    else
      var (rt', _) := ApplyEvent(rt, id, cmdlet, script[i], None);
      var r := BeforeThrow(rt', id, cmdlet, script, i + 1);
      if cmdlet in rt.registry && rt.registry[cmdlet] == id then
        HostLogTrans(rt.executed, rt'.executed, r.executed, rt.contexts[id].mainThread, [], []);
        r
      else r
  }

  /** The drain loop and, when it ended with an exception, the wait for the
      task: the runtime afterwards, the items invoked and added, the
      exception that ended the loop and the task's final status. */
  datatype Waited = Waited(rt: Runtime, invoked: seq<Item>, added: seq<Item>, error: Option<Exn>, status: Option<TaskStatus>)

  /** `Drain` followed, after an exception, by `AwaitTask` from where the
      loop stopped; items queued during the wait are added but never taken. */
  method DrainThenAwait(rt0: Runtime, id: CtxId, cmdlet: Cmdlet, host: ThreadId, script: seq<Event>, policy: Policy)
    returns (w: Waited)
    requires Valid(rt0) && id < |rt0.contexts|
    requires rt0.contexts[id].queue.items == [] && !rt0.contexts[id].queue.addingCompleted
    requires !rt0.contexts[id].disposed
    requires cmdlet in rt0.registry && rt0.registry[cmdlet] == id && rt0.contexts[id].mainThread == host
    ensures Valid(w.rt)
    ensures w.rt.registry == rt0.registry && w.rt.ambient == rt0.ambient
    ensures |w.rt.contexts| == |rt0.contexts|
    ensures w.rt.contexts[id] == rt0.contexts[id].(queue := w.rt.contexts[id].queue)
    ensures w.invoked + w.rt.contexts[id].queue.items == w.added
    ensures w.error.None? ==> w.invoked == w.added
    ensures w.error.Some? ==>
      && |w.invoked| > 0
      && w.invoked[|w.invoked| - 1].CallbackItem?
      && w.invoked[|w.invoked| - 1].behaviour == Throw(w.error.value)
    ensures w.error.Some? && policy.SwallowCancellation? ==>
      !IsCancellation(w.error.value) && rt0.contexts[id].cts in w.rt.cancelled
    ensures w.status.None? ==> forall k :: 0 <= k < |script| ==> !script[k].Complete?
    ensures HostLog(rt0.executed, w.rt.executed, host, w.invoked)
  {
    var d := Drain(rt0, id, cmdlet, host, script, policy);
    if d.error.None? {
      return Waited(d.rt, d.invoked, d.added, None, d.task);
    }
    var (rt2, t2) := AwaitTask(d.rt, id, cmdlet, script, d.next, d.task);
    var before := d.rt.contexts[id].queue.items;
    var after := rt2.contexts[id].queue.items;
    assert after == before + after[|before|..];
    HostLogTrans(rt0.executed, d.rt.executed, rt2.executed, host, d.invoked, []);
    assert d.invoked + [] == d.invoked;
    w := Waited(rt2, d.invoked, d.added + after[|before|..], d.error, t2);
  }

  /** How a stage ends, seen by its caller. */
  datatype StageOutcome = Returned | Raised(error: Exn) | Hangs

  /** One run of a stage runner: the runtime afterwards, the context it
      created and the token it gave the async method (none when the context
      could not be created), the items invoked and added, the exception that
      ended the drain loop, the task's final status, the outcome the runner
      had reached when it called `Dispose`, and the outcome after it. */
  datatype StageRun = StageRun(
    rt: Runtime,
    context: Option<CtxId>,
    token: Option<Token>,
    invoked: seq<Item>,
    added: seq<Item>,
    drainError: Option<Exn>,
    status: Option<TaskStatus>,
    beforeDispose: StageOutcome,
    outcome: StageOutcome)

  /** The facts common to both runners once the context exists: it was
      created fresh on the host thread for the cmdlet, the async method got
      its token, and the drain delivered the added items in order. */
  ghost predicate StartedStage(rt: Runtime, cmdlet: Cmdlet, host: ThreadId, r: StageRun) {
    && r.context == Some(|rt.contexts|)
    && |r.rt.contexts| == |rt.contexts| + 1
    && r.rt.contexts[|rt.contexts|].cmdlet == cmdlet
    && r.rt.contexts[|rt.contexts|].mainThread == host
    && r.token == Some(Token({r.rt.contexts[|rt.contexts|].cts}))
    && r.invoked + r.rt.contexts[|rt.contexts|].queue.items == r.added
  }

  /** The part of `DoAsyncOperation` and `RunAsyncPipeline` before the join's
      exception handling: `Start`, `GetCancellationToken`, the async method's
      start (which may throw at once), the drain loop, and the wait for the
      task after an exception. */
  method RunStage(rt: Runtime, cmdlet: Cmdlet, host: ThreadId, syncThrow: Option<Exn>, script: seq<Event>, policy: Policy)
    returns (r: StageRun)
    requires Valid(rt)
    ensures Valid(r.rt)
    ensures cmdlet in rt.registry ==>
      r == StageRun(rt, None, None, [], [], None, None, Raised(InvalidOperation), Raised(InvalidOperation))
    ensures cmdlet !in rt.registry ==>
      && StartedStage(rt, cmdlet, host, r)
      && r.rt.registry == rt.registry[cmdlet := |rt.contexts|]
      && !r.rt.contexts[|rt.contexts|].disposed
      && Current(r.rt, host) == PowerShellSync(|rt.contexts|)
      && r.rt.contexts[|rt.contexts|].original == Current(rt, host)
    ensures cmdlet !in rt.registry && syncThrow.Some? ==>
      r.invoked == [] && r.drainError.None? && r.status.None?
    // everything the stage ran, it ran on the host thread; its continuations are the callbacks invoked
    ensures HostLog(rt.executed, r.rt.executed, host, r.invoked)
    ensures cmdlet !in rt.registry && syncThrow.None? ==>
      && (r.drainError.None? ==> r.invoked == r.added)
      && (r.drainError.Some? ==>
            && |r.invoked| > 0
            && r.invoked[|r.invoked| - 1].CallbackItem?
            && r.invoked[|r.invoked| - 1].behaviour == Throw(r.drainError.value))
      && (r.drainError.Some? && policy.SwallowCancellation? ==>
            !IsCancellation(r.drainError.value) && r.rt.contexts[|rt.contexts|].cts in r.rt.cancelled)
      && (r.status.None? ==> forall k :: 0 <= k < |script| ==> !script[k].Complete?)
  {
    var started := Start(rt, cmdlet, host);
    HostLogNothing(rt.executed, host);
    if started.out.Throw? {
      return StageRun(rt, None, None, [], [], None, None, Raised(InvalidOperation), Raised(InvalidOperation));
    }
    var id := started.out.value;
    var st := started.rt;
    var token := GetCancellationToken(st, id).value;
    if syncThrow.Some? {
      var thrown := BeforeThrow(st, id, cmdlet, script, 0);
      return StageRun(thrown, Some(id), Some(token), [], thrown.contexts[id].queue.items, None, None, Returned, Returned);
    }
    var w := DrainThenAwait(st, id, cmdlet, host, script, policy);
    r := StageRun(w.rt, Some(id), Some(token), w.invoked, w.added, w.error, w.status, Returned, Returned);
  }
}
