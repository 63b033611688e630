/** `AsyncCmdletOutputExtensions`: the `Write*Async` wrappers. Each one
    rejects a null cmdlet, then throws OperationCanceledException when its
    token is already cancelled, and otherwise hands `QueueAction` a delegate
    making exactly its host call, with the fast path allowed. */
module Output {
  import opened Exceptions
  import opened Cancellation
  import opened Host
  import opened CmdletContext
  import Internals

  /** The host calls the seven wrappers make. */
  predicate IsOutputCall(call: HostCall) {
    !call.Custom?
  }

  /** The common shape of the seven wrappers, over the host call they make
      and what that call does when it runs. */
  function WriteAsync(rt: Runtime, thread: ThreadId, cmdlet: Option<Cmdlet>, call: HostCall,
                      behaviour: Outcome<()>, token: Token): (r: Step<Internals.TaskRef>)
    requires Valid(rt) && IsOutputCall(call)
    ensures Valid(r.rt) && Grows(rt, r.rt)
    ensures cmdlet.None? ==> r == Step(rt, Throw(ArgumentNull))
    ensures cmdlet.Some? && IsCancellationRequested(token, rt.cancelled) ==> r == Step(rt, Throw(OperationCanceled))
    // no live context: InvalidOperationException, nothing runs or is queued
    ensures cmdlet.Some? && !IsCancellationRequested(token, rt.cancelled) && GetContext(rt, cmdlet.value).Throw? ==>
      r == Step(rt, Throw(InvalidOperation))
    // on the context's main thread the call runs in place, once, and its exception escapes
    ensures cmdlet.Some? && !IsCancellationRequested(token, rt.cancelled) && GetContext(rt, cmdlet.value).Ok?
            && IsMainThread(rt, GetContext(rt, cmdlet.value).value, thread) ==>
      && r.rt == rt.(executed := rt.executed + [Body(thread, cmdlet.value, call)])
      && (behaviour.Ok? ==> r.out == Ok(Internals.CompletedTask))
      && (behaviour.Throw? ==> r.out == Throw(behaviour.error))
    // elsewhere, with the queue open, the call waits in one new action at the tail, whose task is returned
    ensures cmdlet.Some? && !IsCancellationRequested(token, rt.cancelled) && GetContext(rt, cmdlet.value).Ok?
            && !IsMainThread(rt, GetContext(rt, cmdlet.value).value, thread)
            && !rt.contexts[GetContext(rt, cmdlet.value).value].queue.addingCompleted ==>
      var id := GetContext(rt, cmdlet.value).value;
      && r.out == Ok(Internals.ActionTask(|rt.actions|))
      && r.rt.contexts[id].queue.items == rt.contexts[id].queue.items + [ActionItem(|rt.actions|)]
      && |rt.actions| < |r.rt.actions| && r.rt.actions[|rt.actions|].action.work == Work(call, behaviour)
      && r.rt.executed == rt.executed
  {
    if cmdlet.None? then Step(rt, Throw(ArgumentNull))
    else if IsCancellationRequested(token, rt.cancelled) then Step(rt, Throw(OperationCanceled))
    else
      Internals.QueueAction(rt, thread, cmdlet, Some(Work(call, behaviour)), true, token)
  }

  function WriteObjectAsync(rt: Runtime, thread: ThreadId, cmdlet: Option<Cmdlet>, obj: Value,
                            enumerateCollection: bool, token: Token, behaviour: Outcome<()>): Step<Internals.TaskRef>
    requires Valid(rt)
  {
    WriteAsync(rt, thread, cmdlet, WriteObject(obj, enumerateCollection), behaviour, token)
  }

  function WriteErrorAsync(rt: Runtime, thread: ThreadId, cmdlet: Option<Cmdlet>, error: Value,
                           token: Token, behaviour: Outcome<()>): Step<Internals.TaskRef>
    requires Valid(rt)
  {
    WriteAsync(rt, thread, cmdlet, WriteError(error), behaviour, token)
  }

  function WriteWarningAsync(rt: Runtime, thread: ThreadId, cmdlet: Option<Cmdlet>, message: string,
                             token: Token, behaviour: Outcome<()>): Step<Internals.TaskRef>
    requires Valid(rt)
  {
    WriteAsync(rt, thread, cmdlet, WriteWarning(message), behaviour, token)
  }

  function WriteVerboseAsync(rt: Runtime, thread: ThreadId, cmdlet: Option<Cmdlet>, message: string,
                             token: Token, behaviour: Outcome<()>): Step<Internals.TaskRef>
    requires Valid(rt)
  {
    WriteAsync(rt, thread, cmdlet, WriteVerbose(message), behaviour, token)
  }

  function WriteInformationAsync(rt: Runtime, thread: ThreadId, cmdlet: Option<Cmdlet>, information: Value,
                                 token: Token, behaviour: Outcome<()>): Step<Internals.TaskRef>
    requires Valid(rt)
  {
    WriteAsync(rt, thread, cmdlet, WriteInformation(information), behaviour, token)
  }

  function WriteInformationDataAsync(rt: Runtime, thread: ThreadId, cmdlet: Option<Cmdlet>, messageData: Value,
                                     tags: seq<string>, token: Token, behaviour: Outcome<()>): Step<Internals.TaskRef>
    requires Valid(rt)
  {
    WriteAsync(rt, thread, cmdlet, WriteInformationData(messageData, tags), behaviour, token)
  }

  function WriteProgressAsync(rt: Runtime, thread: ThreadId, cmdlet: Option<Cmdlet>, progress: Value,
                              token: Token, behaviour: Outcome<()>): Step<Internals.TaskRef>
    requires Valid(rt)
  {
    WriteAsync(rt, thread, cmdlet, WriteProgress(progress), behaviour, token)
  }

  /** Called without a token, a wrapper gets `default`, which nothing can
      cancel: the token check never fires and the call goes straight to
      `QueueAction`. */
  lemma DefaultTokenGoesStraightToQueueAction(rt: Runtime, thread: ThreadId, cmdlet: Cmdlet, call: HostCall,
                                              behaviour: Outcome<()>)
    requires Valid(rt) && IsOutputCall(call)
    ensures WriteAsync(rt, thread, Some(cmdlet), call, behaviour, NoToken)
         == Internals.QueueAction(rt, thread, Some(cmdlet), Some(Work(call, behaviour)), true, NoToken)
  {
    NoTokenNeverCancelled(rt.cancelled);
  }

  /** Whatever path a wrapper takes, the only code it can run or queue is its
      own host call on the given cmdlet: run in place on the calling thread,
      or stored in the single action it queues. */
  lemma WriteMakesExactlyItsCall(rt: Runtime, thread: ThreadId, cmdlet: Cmdlet, call: HostCall,
                                 behaviour: Outcome<()>, token: Token)
    requires Valid(rt) && IsOutputCall(call)
    ensures var r := WriteAsync(rt, thread, Some(cmdlet), call, behaviour, token);
      && (r.rt.executed == rt.executed || r.rt.executed == rt.executed + [Body(thread, cmdlet, call)])
      && (forall i :: |rt.actions| <= i < |r.rt.actions| ==>
            r.rt.actions[i].action.work == Work(call, behaviour) && r.rt.actions[i].action.cmdlet == cmdlet)
      && |r.rt.actions| <= |rt.actions| + 1
  {
  }
}
