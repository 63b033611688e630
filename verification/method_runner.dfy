/** `AsyncMethodRunner.DoAsyncOperation`: the runner behind
    `Do{Begin,Process,End}ProcessingAsync`. */
module MethodRunner {
  import opened Exceptions
  import opened Host
  import opened CmdletContext
  import opened StageDrain

  /** The `finally` of the outer `try`: `task.GetAwaiter().GetResult()`.
      It waits for ever on a task that never completes; an exception it
      throws replaces the one the drain loop was propagating. */
  function Join(drainError: Option<Exn>, status: Option<TaskStatus>): (r: StageOutcome)
    // the join never ends while the task has not completed
    ensures r.Hangs? <==> status.None?
    // the task's exception, or the cancellation, replaces the drain loop's exception
    ensures status.Some? && status.value.TaskFaulted? ==> r == Raised(status.value.first)
    ensures status == Some(TaskCanceled) ==> r == Raised(OperationCanceled)
    // otherwise the drain loop's exception goes on propagating
    ensures status == Some(RanToCompletion) && drainError.Some? ==> r == Raised(drainError.value)
    // the stage returns normally exactly when both the task and the loop did
    ensures r.Returned? <==> status == Some(RanToCompletion) && drainError.None?
  {
    match status
    case None => Hangs
    case Some(t) =>
      match GetResult(t)
      case Throw(e) => Raised(e)
      case Ok(_) => if drainError.Some? then Raised(drainError.value) else Returned
  }

  /** `DoAsyncOperation(cmdlet, asyncMethod)` run on thread `host`.
      `syncThrow` is what the call of `asyncMethod` throws before it returns
      a task, if anything; `script` is what happens while the stage runs. */
  method DoAsyncOperation(rt: Runtime, cmdlet: Cmdlet, host: ThreadId, syncThrow: Option<Exn>, script: seq<Event>)
    returns (r: StageRun)
    requires Valid(rt)
    ensures Valid(r.rt)
    // a second context for a cmdlet that already has one: Start throws, nothing runs
    ensures cmdlet in rt.registry ==>
      r.rt == rt && r.context.None? && r.invoked == [] && r.outcome == Raised(InvalidOperation)
    // a fresh context is registered for the cmdlet before the method starts, and the method gets its token
    ensures cmdlet !in rt.registry ==>
      && StartedStage(rt, cmdlet, host, r)
      && Current(r.rt, host) == PowerShellSync(|rt.contexts|)
    // an exception from the call itself skips the drain and the join
    ensures cmdlet !in rt.registry && syncThrow.Some? ==>
      r.invoked == [] && r.beforeDispose == Raised(syncThrow.value)
    ensures cmdlet !in rt.registry && syncThrow.None? ==>
      // every added item is invoked once, in order, unless an exception stopped the loop
      && (r.drainError.None? ==> r.invoked == r.added)
      // such an exception came from the last item invoked, is not a cancellation,
      // and cancelled the context before it propagated
      && (r.drainError.Some? ==>
            && !IsCancellation(r.drainError.value)
            && r.rt.contexts[|rt.contexts|].cts in r.rt.cancelled
            && |r.invoked| > 0 && r.invoked[|r.invoked| - 1].CallbackItem?
            && r.invoked[|r.invoked| - 1].behaviour == Throw(r.drainError.value))
      // the join waits for the task: for ever if it never completes
      && (r.beforeDispose.Hangs? <==> r.status.None?)
      && (r.status.None? ==> forall k :: 0 <= k < |script| ==> !script[k].Complete?)
      // the task's own exception wins over the drain loop's
      && (r.status.Some? && r.status.value.TaskFaulted? ==> r.beforeDispose == Raised(r.status.value.first))
      && (r.status == Some(TaskCanceled) ==> r.beforeDispose == Raised(OperationCanceled))
      && (r.status == Some(RanToCompletion) ==>
            r.beforeDispose == if r.drainError.Some? then Raised(r.drainError.value) else Returned)
    // `using` disposes the context on the thread that created it, where `Dispose` throws
    // InvalidOperationException: that exception replaces whatever the stage reached, and
    // the context stays registered and undisposed
    // everything the stage ran, it ran on the host thread; its continuations are the callbacks invoked, in order
    ensures HostLog(rt.executed, r.rt.executed, host, r.invoked)
    ensures cmdlet !in rt.registry ==>
      && r.outcome == (if r.beforeDispose.Hangs? then Hangs else Raised(InvalidOperation))
      && r.rt.registry == rt.registry[cmdlet := |rt.contexts|]
      && !r.rt.contexts[|rt.contexts|].disposed
  {
    r := RunStage(rt, cmdlet, host, syncThrow, script, SwallowCancellation);
    if r.context.None? {
      return;
    }
    var id := r.context.value;
    var reached := if syncThrow.Some? then Raised(syncThrow.value) else Join(r.drainError, r.status);
    r := r.(beforeDispose := reached, outcome := reached);
    if reached.Hangs? {
      return;
    }
    var disposed := Dispose(r.rt, id, host);
    if disposed.out.Throw? {
      r := r.(rt := disposed.rt, outcome := Raised(disposed.out.error));
    }
  }

  /** A stage whose drain loop ended with an exception never returns
      normally: the join rethrows the task's exception or the loop's. */
  lemma DrainErrorIsNeverSwallowed(drainError: Option<Exn>, status: Option<TaskStatus>)
    requires drainError.Some?
    ensures !Join(drainError, status).Returned?
  {
  }
}
