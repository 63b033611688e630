/** `AsyncCmdletInternalsExtensions.QueueAction`: the one primitive every
    host-affined call goes through. On the context's main thread, and when
    the caller allows it, the delegate runs in place (queueing it would make
    the host thread wait on itself); otherwise it is queued as a linked
    action and the caller gets that action's task. */
module Internals {
  import opened Exceptions
  import opened Cancellation
  import opened Host
  import opened CmdletContext

  /** The `Task` handed back: an already completed one, or the task of a
      queued action (its slot in the runtime, so every read of it sees the
      same slot). */
  datatype TaskRef = CompletedTask | ActionTask(action: ActionId)

  function QueueAction(rt: Runtime, thread: ThreadId, cmdlet: Option<Cmdlet>, action: Option<Work<()>>,
                       runSynchronouslyIfOnTheMainThread: bool, token: Token): (r: Step<TaskRef>)
    requires Valid(rt)
    ensures Valid(r.rt) && Grows(rt, r.rt)
    // null arguments are rejected before the context lookup
    ensures cmdlet.None? || action.None? ==> r == Step(rt, Throw(ArgumentNull))
    // no live context: InvalidOperationException and the delegate never runs
    ensures cmdlet.Some? && action.Some? && GetContext(rt, cmdlet.value).Throw? ==>
      r == Step(rt, Throw(InvalidOperation))
    // fast path: runs at once, exactly once, on the calling thread; queue untouched
    ensures cmdlet.Some? && action.Some? && GetContext(rt, cmdlet.value).Ok?
            && runSynchronouslyIfOnTheMainThread && IsMainThread(rt, GetContext(rt, cmdlet.value).value, thread) ==>
      && r.rt == rt.(executed := rt.executed + [Body(thread, cmdlet.value, action.value.call)])
      && (action.value.result.Ok? ==> r.out == Ok(CompletedTask))
      && (action.value.result.Throw? ==> r.out == Throw(action.value.result.error))
    // otherwise: the context's QueueAction, whose action's task is returned
    ensures cmdlet.Some? && action.Some? && GetContext(rt, cmdlet.value).Ok?
            && !(runSynchronouslyIfOnTheMainThread && IsMainThread(rt, GetContext(rt, cmdlet.value).value, thread)) ==>
      var id := GetContext(rt, cmdlet.value).value;
      var queued := QueueAwaitable(rt, id, cmdlet.value, action.value, token);
      && r.rt == queued.rt
      && r.rt.executed == rt.executed
      && (queued.out.Ok? ==> r.out == Ok(ActionTask(queued.out.value)))
      && (queued.out.Throw? ==> r.out == Throw(queued.out.error))
    // so, with the queue open, exactly one new action carrying the caller's delegate is appended at
    // the tail, nothing has run yet, and the returned task is that action's
    ensures cmdlet.Some? && action.Some? && GetContext(rt, cmdlet.value).Ok?
            && !(runSynchronouslyIfOnTheMainThread && IsMainThread(rt, GetContext(rt, cmdlet.value).value, thread))
            && !rt.contexts[GetContext(rt, cmdlet.value).value].queue.addingCompleted ==>
      var id := GetContext(rt, cmdlet.value).value;
      && r.out == Ok(ActionTask(|rt.actions|))
      && r.rt.contexts[id].queue.items == rt.contexts[id].queue.items + [ActionItem(|rt.actions|)]
      && |rt.actions| < |r.rt.actions|
      && r.rt.actions[|rt.actions|].action.work == action.value
      && r.rt.actions[|rt.actions|].action.cmdlet == cmdlet.value
  {
    if cmdlet.None? || action.None? then Step(rt, Throw(ArgumentNull))
    else match GetContext(rt, cmdlet.value)
      case Throw(e) => Step(rt, Throw(e))
      case Ok(id) =>
        if runSynchronouslyIfOnTheMainThread && IsMainThread(rt, id, thread) then
          var rt' := rt.(executed := rt.executed + [Body(thread, cmdlet.value, action.value.call)]);
          match action.value.result
          case Ok(_) => Step(rt', Ok(CompletedTask))
          case Throw(e) => Step(rt', Throw(e))
        else
          var queued := QueueAwaitable(rt, id, cmdlet.value, action.value, token);
          match queued.out
          case Ok(aid) => Step(queued.rt, Ok(ActionTask(aid)))
          case Throw(e) => Step(queued.rt, Throw(e))
  }
}
