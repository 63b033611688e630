/** `PowerShellSynchronizationContext`: while installed, every continuation
    the runtime posts becomes one `Callback` in the context's queue, so it
    runs on the thread that drains the queue. */
module SyncContext {
  import opened Exceptions
  import opened Host
  import opened CmdletContext

  /** The constructor: a null consumer is rejected with ArgumentNullException. */
  function New(consumer: Option<CtxId>): (r: Outcome<SyncContext>)
    ensures r.Throw? <==> consumer.None?
    ensures r.Throw? ==> r.error == ArgumentNull
    ensures r.Ok? ==> r.value.PowerShellSync? && r.value.consumer == consumer.value
  {
    match consumer
    case None => Throw(ArgumentNull)
    case Some(c) => Ok(PowerShellSync(c))
  }

  /** `Post(d, state)`: a null callback is rejected before anything is
      queued; otherwise the consumer's `QueueAction(IAction)` receives exactly
      one `Callback` carrying `d` and `state`, so a disposed or closed
      consumer makes `Post` throw and leaves everything as it was. */
  function Post(rt: Runtime, consumer: CtxId, d: Option<CallbackId>, state: Value, behaviour: Outcome<()>): (r: Step<()>)
    requires Valid(rt) && consumer < |rt.contexts|
    ensures Valid(r.rt) && Grows(rt, r.rt)
    ensures d.None? ==> r == Step(rt, Throw(ArgumentNull))
    ensures d.Some? && rt.contexts[consumer].disposed ==> r == Step(rt, Throw(ObjectDisposed))
    ensures d.Some? && !rt.contexts[consumer].disposed && rt.contexts[consumer].queue.addingCompleted ==>
      r == Step(rt, Throw(InvalidOperation))
    ensures d.Some? && !rt.contexts[consumer].disposed && !rt.contexts[consumer].queue.addingCompleted ==>
      && r.out.Ok?
      && r.rt.contexts[consumer].queue.items
           == rt.contexts[consumer].queue.items + [CallbackItem(d.value, state, behaviour)]
      && (forall j :: 0 <= j < |rt.contexts| && j != consumer ==> r.rt.contexts[j] == rt.contexts[j])
      && r.rt == rt.(contexts := r.rt.contexts)
  {
    match d
    case None => Step(rt, Throw(ArgumentNull))
    case Some(callback) => Enqueue(rt, consumer, CallbackItem(callback, state, behaviour))
  }

  /** `Callback.Invoke` on `thread`: calls `d(state)` exactly once with the
      posted state and lets whatever it throws escape. */
  function InvokeCallback(rt: Runtime, item: Item, thread: ThreadId): (r: Step<()>)
    requires Valid(rt) && item.CallbackItem?
    ensures Valid(r.rt) && Grows(rt, r.rt)
    ensures r.rt.executed == rt.executed + [Continuation(thread, item.callback, item.state)]
    ensures r.out == item.behaviour
    ensures r.rt == rt.(executed := r.rt.executed)
  {
    Step(rt.(executed := rt.executed + [Continuation(thread, item.callback, item.state)]), item.behaviour)
  }
}
