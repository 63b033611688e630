# PSAsync bridge — a Dafny model

PSAsync lets a PowerShell cmdlet write its `BeginProcessing`, `ProcessRecord`
and `EndProcessing` stages as async methods. PowerShell only accepts host
calls (`WriteObject`, `WriteError`, progress, prompts) on the pipeline
thread, so the bridge keeps that thread busy draining a queue. It works as
follows:

- For the duration of a stage, the bridge creates an `AsyncCmdletContext`
  for the cmdlet. The context holds a registry entry, an action queue, a
  cancellation source, and a `PowerShellSynchronizationContext` installed
  on the host thread.
- Every host call made from another thread becomes an `AwaitableAction` in
  that queue. A caller already on the host thread runs its call in place.
- Every `await` continuation is posted to the queue as a `Callback`.
- The stage runner (`AsyncMethodRunner` or `AsyncPipelineRunner`) invokes
  the queued items one by one on the host thread. It stops when the async
  method's task has completed and the queue is empty. It then joins the
  task and classifies its exception.

The model is a set of pure functions over one immutable `Runtime` value:

- the cmdlet → context registry (a `map`);
- the contexts and actions, stored as sequences and named by index, so a
  reference survives deregistration;
- each thread's ambient synchronization context;
- the set of cancelled sources;
- the log of host calls and continuations that ran, each with its thread.

Threads are explicit ids. Thread interleaving becomes a script of events: the
host taking the next item, a continuation being posted, a host call being
marshalled, a cancellation, the host's `StopProcessing`, and the task
completing. The drain loop runs the script and then keeps taking until the
queue ends, or waits for ever.

The main results:

- The queue is FIFO with nothing lost (`ActionQueue.RunIsFifo`). The drain
  loop's items, taken in order and then still queued, are exactly the items
  added (`StageDrain.Drain`).
- The completion slot is write-once (`Awaitable.FirstRequestWins`).
- An action's token is linked to both the caller's token and the context's
  token (`CmdletContext.CreateAction`).
- The fast path and the queued path of `QueueAction` are kept apart
  (`Internals.QueueAction`).
- The two runners classify exceptions differently (`MethodRunner.DoAsyncOperation`,
  `PipelineRunner.Classify` and its lemmas).
- Stage capability detection is memoised, and the interface and attribute
  rules are honoured (`Accessor`).

Both runners dispose the context with `using var context`
(src/PSAsync/AsyncMethodRunner.cs:35, src/PSAsync/AsyncPipelineRunner.cs:45),
evidently so that the context is disposed whichever way the stage ends.
`Dispose`, however, throws InvalidOperationException when it is called on
the thread that created the context (src/PSAsync/AsyncCmdletContext.cs:106-109),
and the `using` scope ends on that very thread. The model follows the code:

- `MethodRunner.DoAsyncOperation` and `PipelineRunner.RunAsyncPipeline`
  prove that every stage that creates a context either waits for ever or
  ends in InvalidOperationException.
- The context is then still registered and undisposed, so a second stage
  for the same cmdlet fails in `Start`.
- The result also records the outcome each runner had reached just before
  `Dispose` (`beforeDispose`), so the exception classification each runner
  performs is stated as well.

## Model

| member | source | states |
|---|---|---|
| Exceptions.Flatten | src/PSAsync/AsyncPipelineRunner.cs:91 | `AggregateException.Flatten` works level by level: the top-level exceptions that are not aggregates come first, in order; the flattened list holds no aggregate, and everything in it occurs somewhere in the nesting |
| Exceptions.ShallowBeforeDeep | src/PSAsync/AsyncPipelineRunner.cs:91 | a leaf at the top level precedes a leaf nested one level down, even when the nested aggregate comes first |
| Exceptions.FlattenFlat | src/PSAsync/AsyncPipelineRunner.cs:91 | flattening a list that has no aggregate returns it unchanged |
| Exceptions.FlattenIdempotent | src/PSAsync/AsyncPipelineRunner.cs:91 | flattening twice is flattening once |
| Exceptions.FlattenKeepsLeaves | src/PSAsync/AsyncPipelineRunner.cs:91 | an exception that is not an aggregate survives flattening at any depth of nesting |
| Exceptions.FirstPipelineStopped | src/PSAsync/AsyncPipelineRunner.cs:93 | none exactly when no element is a PipelineStoppedException; otherwise an element that is one, with none before it |
| Exceptions.FirstPipelineStoppedAt | src/PSAsync/AsyncPipelineRunner.cs:93 | `FirstOrDefault` finds the element at the least index holding a PipelineStoppedException |
| Cancellation.LinkedToken | src/PSAsync/AsyncCmdletContext.cs:159-160 | the linked token reports cancellation exactly when either parent token does or its own source is cancelled |
| Cancellation.CancellationIsPermanent | src/PSAsync/AsyncCmdletContext.cs:201-213 | a token that reports cancellation keeps reporting it as more sources are cancelled |
| Cancellation.NoTokenNeverCancelled | src/PSAsync/AsyncCmdletOutputExtensions.cs:13 | the `default` token a wrapper gets when called without one never reports cancellation, whatever has been cancelled |
| ActionQueue.Add | src/PSAsync/AsyncCmdletContext.cs:177 | adding to an open queue appends at the tail; adding after `CompleteAdding` throws InvalidOperationException and changes nothing |
| ActionQueue.CompleteAdding | src/PSAsync/AsyncCmdletContext.cs:142 | closes the queue and keeps its items; closing twice is closing once |
| ActionQueue.TakeNext | src/PSAsync/AsyncCmdletContext.cs:128-133 | yields and removes the head; ends only when the queue is closed and empty; blocks when it is open and empty |
| ActionQueue.RunIsFifo | src/PSAsync/AsyncCmdletContext.cs:128-182 | over any interleaving of adds, closes and takes, the items yielded followed by the items still queued are the items accepted, in order; an end is seen only after a close once the queue is empty |
| ActionQueue.FreshQueueIsFifo | src/PSAsync/AsyncCmdletContext.cs:74 | the FIFO property from a fresh, empty, open queue |
| Awaitable.TrySet | src/PSAsync/AwaitableAction.cs:49 | only a pending slot changes, to the state the request names |
| Awaitable.ResolvedSlotIsFinal | src/PSAsync/AwaitableAction.cs:49-78 | once resolved, no sequence of `TrySet*` calls changes the slot |
| Awaitable.FirstRequestWins | src/PSAsync/AwaitableAction.cs:49-78 | the first `TrySet*` on a fresh slot decides its final state |
| Awaitable.OnCancellation | src/PSAsync/AwaitableAction.cs:32-34 | the registration tries to cancel the slot exactly when the token reports cancellation |
| Awaitable.New | src/PSAsync/AwaitableAction.cs:14-35 | a new action's slot is canceled exactly when its token is already cancelled, pending otherwise |
| Awaitable.Invoke | src/PSAsync/AwaitableAction.cs:53-79 | the slot ends resolved; the delegate runs exactly when the token is not cancelled; a result, an OperationCanceledException and any other exception become result, canceled and faulted; a resolved slot is kept; the post-action's source is disposed on every path |
| Awaitable.CancelledBeforeInvoke | src/PSAsync/AwaitableAction.cs:32-61 | an action whose token was cancelled before `Invoke` never runs its delegate and stays canceled |
| CmdletContext.InitialValid | src/PSAsync/AsyncCmdletContext.cs:267-268 | the empty registry is well formed |
| CmdletContext.GrowsTransitive | src/PSAsync/AsyncCmdletContext.cs:170-213 | the frame relation of queueing and cancelling composes |
| CmdletContext.Start | src/PSAsync/AsyncCmdletContext.cs:51-88 | for a registered cmdlet: InvalidOperationException, nothing changes; otherwise the new context is registered, remembers the calling thread and its previous synchronization context, has an empty open queue and an uncancelled source, and is installed as that thread's synchronization context, other threads untouched |
| CmdletContext.MainThreadIsCreator | src/PSAsync/AsyncCmdletContext.cs:222-228 | `IsMainThread` holds for the thread that started the context and for no other |
| CmdletContext.Dispose | src/PSAsync/AsyncCmdletContext.cs:90-126 | second call: no effect; on the creating thread: InvalidOperationException, nothing changes; otherwise disposed, that thread's saved synchronization context restored, source disposed, registry entry removed, queue and other contexts untouched |
| CmdletContext.CheckDisposed | src/PSAsync/AsyncCmdletContext.cs:270-276 | ObjectDisposedException exactly after disposal |
| CmdletContext.GetActions | src/PSAsync/AsyncCmdletContext.cs:128-133 | ObjectDisposedException after disposal, otherwise the context's queue |
| CmdletContext.MoveNext | src/PSAsync/AsyncCmdletContext.cs:128-133 | yields the head and removes only it; ends exactly when closed and empty; waits exactly when open and empty |
| CmdletContext.Close | src/PSAsync/AsyncCmdletContext.cs:135-147 | after disposal nothing changes; otherwise the queue is closed with its items kept; other contexts untouched |
| CmdletContext.CreateAction | src/PSAsync/AsyncCmdletContext.cs:149-168 | ObjectDisposedException after disposal; otherwise one new action, whose token reports cancellation exactly when the caller's token or the context's token does, whose post-action disposes its own linked source, and whose slot is canceled exactly when either token already is; no queue changes |
| CmdletContext.Enqueue | src/PSAsync/AsyncCmdletContext.cs:170-182 | ObjectDisposedException after disposal; InvalidOperationException once closed; otherwise the item is appended at the tail and nothing else changes |
| CmdletContext.QueueAwaitable | src/PSAsync/AsyncCmdletContext.cs:184-199 | ObjectDisposedException after disposal; once closed, InvalidOperationException from the queue with no queue changed; otherwise exactly the action `CreateAction` builds is appended at the tail and returned, other queues untouched |
| CmdletContext.CancelSource | src/PSAsync/AsyncCmdletContext.cs:208 | the source becomes cancelled, and every pending action whose token now reports cancellation becomes canceled; nothing else changes |
| CmdletContext.CancelAsyncOperations | src/PSAsync/AsyncCmdletContext.cs:201-213 | after disposal nothing changes; otherwise the context's own source is cancelled |
| CmdletContext.GetCancellationToken | src/PSAsync/AsyncCmdletContext.cs:215-220 | ObjectDisposedException after disposal; otherwise a token that reports cancellation exactly when the context's source is cancelled |
| CmdletContext.CancelAsyncOperationsCancelsToken | src/PSAsync/AsyncCmdletContext.cs:201-220 | after `CancelAsyncOperations` the token `GetCancellationToken` hands out reports cancellation |
| CmdletContext.TryGetContext | src/PSAsync/AsyncCmdletContext.cs:243-265 | finds the context exactly when the cmdlet is registered and its context is not disposed |
| CmdletContext.GetContext | src/PSAsync/AsyncCmdletContext.cs:230-241 | InvalidOperationException exactly when `TryGetContext` finds nothing |
| CmdletContext.InvokeAction | src/PSAsync/AwaitableAction.cs:53-79 | invoking a stored action resolves its slot (a resolved slot is kept), logs its host call on the invoking thread only when it ran, disposes its linked source, and touches no other action or queue |
| SyncContext.New | src/PSAsync/PowerShellSynchronizationContext.cs:11-17 | ArgumentNullException exactly for a null consumer |
| SyncContext.Post | src/PSAsync/PowerShellSynchronizationContext.cs:21-32 | a null callback is rejected with nothing queued; otherwise exactly one callback carrying the posted state is appended, and a disposed or closed consumer makes `Post` throw with nothing queued |
| SyncContext.InvokeCallback | src/PSAsync/PowerShellSynchronizationContext.cs:49-52 | the continuation runs once, on the invoking thread, with the posted state, and its exception escapes |
| Internals.QueueAction | src/PSAsync/AsyncCmdletInternalsExtensions.cs:10-36 | null arguments are rejected first; no live context gives InvalidOperationException and nothing runs; with the flag on the main thread the call runs once in place, the queue untouched, a completed task returned or the call's exception thrown; otherwise, off the main thread or with the flag off, with the queue open, one action carrying exactly the caller's delegate is appended at the tail, nothing runs, and its task is returned |
| Output.WriteAsync | src/PSAsync/AsyncCmdletOutputExtensions.cs:9-149 | a null cmdlet is rejected first; a token already cancelled gives OperationCanceledException before anything is queued or run; no live context gives InvalidOperationException; on the context's main thread the host call runs once in place and its exception escapes; on any other thread, with the queue open, one new action holding exactly that call is appended and its task returned, nothing run yet |
| Output.DefaultTokenGoesStraightToQueueAction | src/PSAsync/AsyncCmdletOutputExtensions.cs:9-28 | called without a token, a wrapper never throws OperationCanceledException itself: it is exactly `QueueAction` with the fast path allowed |
| Output.WriteMakesExactlyItsCall | src/PSAsync/AsyncCmdletOutputExtensions.cs:9-149 | a wrapper runs or queues only its own host call on its own cmdlet, at most once |
| StageDrain.GetResult | src/PSAsync/AsyncMethodRunner.cs:97 | joining a task returns exactly when it ran to completion; a canceled task throws OperationCanceledException; a faulted one throws its first exception |
| StageDrain.InvokeItem | src/PSAsync/AsyncMethodRunner.cs:65 | an action's `Invoke` never throws; a callback's `Invoke` throws what its continuation throws; no queue changes |
| StageDrain.ApplyEvent | src/PSAsync/AsyncMethodRunner.cs:41-47 | no event removes a queued item or changes the context's identity; only the task's first completion closes the queue; `Stop` cancels the context |
| StageDrain.Drain | src/PSAsync/AsyncMethodRunner.cs:49-91 | items taken, then items still queued, are exactly the items added in order; the queue is closed exactly when the task has completed; without an exception every added item is invoked and the loop ends only after completion; an exception ending the loop is the last invoked continuation's, and under the method runner's policy it is not a cancellation and the context was cancelled first; every host call and continuation run meanwhile ran on the host thread, and the continuations ran in the order their callbacks were taken |
| StageDrain.AwaitTask | src/PSAsync/AsyncMethodRunner.cs:93-103 | the wait ends with the status of the first completion still in the script, or never when there is none |
| StageDrain.BeforeThrow | src/PSAsync/AsyncMethodRunner.cs:37 | what runs before the async method throws keeps the context's identity, only adds to its queue without closing it, and runs nothing off the host thread |
| StageDrain.RunStage | src/PSAsync/AsyncMethodRunner.cs:35-103 | a registered cmdlet fails in `Start` with nothing run; otherwise a fresh context on the host thread, whose token the method receives, and the drain's guarantees; an async method that throws at once invokes nothing, though what it queued first stays queued; everything the stage runs runs on the host thread, continuations in the order invoked |
| MethodRunner.Join | src/PSAsync/AsyncMethodRunner.cs:93-103 | the join hangs exactly when the task never completes; a faulted or canceled task's exception replaces the drain loop's; after a task that ran to completion the loop's exception goes on; the stage returns exactly when both finished normally |
| MethodRunner.DoAsyncOperation | src/PSAsync/AsyncMethodRunner.cs:24-105 | a cancellation thrown by an `Invoke` is swallowed; any other exception cancels the context and ends the loop; the task's own exception replaces the loop's; the join waits for ever on a task that never completes; `Dispose` on the creating thread then replaces every outcome with InvalidOperationException and leaves the context registered; everything the stage runs runs on the host thread, continuations in the order invoked |
| MethodRunner.DrainErrorIsNeverSwallowed | src/PSAsync/AsyncMethodRunner.cs:93-103 | once the drain loop has ended with an exception, the join never lets the stage return normally |
| PipelineRunner.Classify | src/PSAsync/AsyncPipelineRunner.cs:84-102 | a completed join is reported as such; an exception that is neither an aggregate nor a cancellation escapes unchanged; only aggregates are captured, and never as a cancellation |
| PipelineRunner.PipelineStoppedWins | src/PSAsync/AsyncPipelineRunner.cs:89-97 | a PipelineStoppedException at any depth of the aggregate makes the join capture, unwrapped, the first one in flattened order |
| PipelineRunner.TopLevelPipelineStoppedWins | src/PSAsync/AsyncPipelineRunner.cs:89-97 | when the top level of the aggregate holds a PipelineStoppedException, the join captures the first one there, whatever the nested aggregates hold |
| PipelineRunner.ShallowPipelineStoppedCaptured | src/PSAsync/AsyncPipelineRunner.cs:89-97 | of two PipelineStoppedExceptions, the top-level one is captured, not the one in an earlier nested aggregate |
| PipelineRunner.FailureCapturesAggregate | src/PSAsync/AsyncPipelineRunner.cs:98-101 | a failure in an aggregate with no PipelineStoppedException makes the join capture the whole aggregate |
| PipelineRunner.CancellationIsSwallowed | src/PSAsync/AsyncPipelineRunner.cs:86-101 | a canceled task, or an aggregate of cancellations only at any depth, captures nothing |
| PipelineRunner.Verdict | src/PSAsync/AsyncPipelineRunner.cs:80-116 | the join hangs exactly when the task never completes; an escaping exception replaces the loop's; otherwise the loop's exception goes on and anything captured is dropped; a captured exception is thrown after a loop that ended normally; the stage returns exactly when the loop ended normally and the join captured nothing |
| PipelineRunner.RunAsyncPipeline | src/PSAsync/AsyncPipelineRunner.cs:13-117 | every added item is invoked in order unless an `Invoke` throws, which nothing catches; an escaping exception replaces the loop's; a captured one is thrown only after a loop that finished normally; a swallowed join returns normally; `Dispose` on the creating thread then replaces the outcome with InvalidOperationException; everything the stage runs runs on the host thread, continuations in the order invoked |
| Accessor.IsImplemented | src/PSAsync/AsyncCmdletAccessor.cs:284-301 | an interface default is not implemented; otherwise implemented exactly when there is no attribute or its `Skip` is false |
| Accessor.BaseDefaultsAreSkipped | src/PSAsync/AsyncCmdlet.cs:39-58 | the `[SkipImplementationCheck]` defaults count as not implemented, an override without the attribute as implemented, an interface default as not implemented |
| Accessor.GetAsyncCmdletMethod | src/PSAsync/AsyncCmdletAccessor.cs:243-282 | a delegate exactly when the stage's target is implemented, and then one for that type and stage |
| Accessor.NewAccessor | src/PSAsync/AsyncCmdletAccessor.cs:17-28 | a new accessor has computed nothing |
| Accessor.Force | src/PSAsync/AsyncCmdletAccessor.cs:20-27 | reading a stage's lazy value computes it exactly on the first read, returns what the factory gives, and leaves the other stages alone |
| Accessor.ForceOnce | src/PSAsync/AsyncCmdletAccessor.cs:17-28 | a second read of a stage computes nothing and returns the same value |
| Accessor.IsStageImplemented | src/PSAsync/AsyncCmdletAccessor.cs:109-131 | the answer is the target method's implemented status |
| Accessor.InvokeWithTraceActivity | src/PSAsync/AsyncCmdletAccessor.cs:133-186 | an unimplemented method gives a completed task and calls nothing; otherwise its delegate is called |
| Accessor.DoStageAsync | src/PSAsync/AsyncCmdletAccessor.cs:61-107 | a stage's entry calls that stage's method exactly when it is implemented |
| Accessor.ValidateCmdletType | src/PSAsync/AsyncCmdletAccessor.cs:206-217 | ArgumentException unless the type derives from `Cmdlet` and implements `IAsyncCmdlet` |
| Accessor.GetAccessor | src/PSAsync/AsyncCmdletAccessor.cs:191-204 | a cached type returns its accessor without validating; an invalid new type throws ArgumentException and nothing is cached; a valid new type caches and returns a fresh accessor |
| Accessor.GetAccessorMemoises | src/PSAsync/AsyncCmdletAccessor.cs:191-204 | after a successful call a repeat returns the same accessor and changes nothing; a failed call leaves the type uncached |
| Accessor.ValidTypeAlwaysGetsAccessor | src/PSAsync/AsyncCmdletAccessor.cs:191-217 | a valid type always gets an accessor for itself |
| Invocation.DoProcessingAsync | src/PSAsync/AsyncCmdletInvocationExtensions.cs:7-59 | a null cmdlet is rejected; an invalid type throws ArgumentException; an unimplemented stage returns with no context created and nothing run; an implemented stage runs `DoAsyncOperation` once, whose method calls exactly that stage's method whenever the context was created |
| Invocation.CancelAsyncOperation | src/PSAsync/AsyncCmdletInvocationExtensions.cs:61-73 | a null cmdlet is rejected; no live context: nothing changes; otherwise exactly that context's source is cancelled |
| Invocation.CancelAsyncOperationStopsStage | src/PSAsync/AsyncCmdletInvocationExtensions.cs:69-72 | cancelling through the cmdlet cancels the token its running stage received, with the effect the drain loop gives `Stop` |
| ContinueResult.Deconstruct | src/PSAsync/ShouldContinueResult.cs:35-43 | the three parts, in order, rebuild the value |
| ContinueResult.ToBool | src/PSAsync/ShouldContinueResult.cs:45-49 | the conversion is the first deconstructed part |
| ProcessResult.Deconstruct | src/PSAsync/ShouldProcessResult.cs:28-34 | the two parts, in order, rebuild the value |
| ProcessResult.ToBool | src/PSAsync/ShouldProcessResult.cs:36-40 | the conversion is the first deconstructed part |
| ContinueContext.Deconstruct | src/PSAsync/ShouldContinueContext.cs:17-23 | the two parts, in order, rebuild the value |

## Left out

- Real concurrency, blocking and `ContinueWith` scheduling are replaced by the event script. A race between a cancellation and a dequeue is one of its orderings.
- Diagnostics and tracing are not modelled: `SwitchingDiagnosticSource`, `ActivityScope`, `DiagnosticSourceExtensions`, and every `traceEnabled` and `Activity` branch. They only observe.
- Reflection and code generation (`GetInterfaceMap`, `Expression.Lambda(...).Compile()`) are not modelled. A type lists the target method of each stage as a descriptor, and a delegate is named by its type and stage.
- IAsyncCmdlet.cs declares parameterless stage methods, while AsyncCmdlet.cs declares ones that take a token. The model takes each type's interface map as given and does not resolve that signature difference.
- The analyzers, the samples and the older `AsyncCmdletExtensions*` entry points are not modelled. They are outside the bridge's core.
- `Requires.ArgumentNotNull` checks are modelled at the entry points that take nullable inputs (`QueueAction`, `Post`, the `Write*Async` wrappers, the stage entry points, `CancelAsyncOperation`). The contexts' and actions' internal callers never pass null, so elsewhere the arguments are plain values.
- `CreateAction` constructs the two-parameter `AwaitableAction<TCmdlet>`, which is not part of this model. It is modelled as the three-parameter `AwaitableAction` with a unit argument and result.
- `AwaitableAction.Task` returning the same task every time holds by construction: a queued action's task is its index in the runtime.
- `Dispose` sets the disposed flag before it cleans up. The model performs the whole disposal as one step, so no intermediate state is visible.
- `Queue.Dispose` in `Dispose` is not modelled apart from the context's disposed flag. Every later queue access goes through `CheckDisposed` first.
- `ShouldProcessReason` is the host's flags enum. Only its two named values are modelled.
- The `Write*Async` wrappers other than `WriteAsync` carry no contract of their own. Each is `WriteAsync` applied to its host call, and `WriteMakesExactlyItsCall` states what they share.
- StageDrain.Drain: the host-thread log states the order of the continuations run against the callbacks taken; the host calls that ran in place are only stated to run on the host thread, not matched against the actions taken.
