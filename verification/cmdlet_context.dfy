/** `AsyncCmdletContext<TCmdlet>`: the per-stage execution context, together
    with the process-wide cmdlet-to-context registry, the per-thread ambient
    synchronization context and the cancellation state, all held in one
    `Runtime` value. Threads are explicit ids: the thread that makes a call
    is a parameter of that call. */
module CmdletContext {
  import opened Exceptions
  import opened Cancellation
  import opened Host
  import opened Awaitable
  import opened ActionQueue

  /** Contexts and actions are objects: a reference to one stays usable after
      the registry forgets it, so they live in the `Runtime` and are named by
      their index there. */
  type CtxId = nat
  type ActionId = nat

  /** `SynchronizationContext.Current` of a thread. */
  datatype SyncContext = NoSyncContext | PowerShellSync(consumer: CtxId) | ForeignSync(id: nat)

  /** An `IAction` in a context's queue: an `AwaitableAction`, or the
      `Callback` a `Post` wraps around a continuation (with what running it
      does: return, or throw). */
  datatype Item =
    | ActionItem(action: ActionId)
    | CallbackItem(callback: CallbackId, state: Value, behaviour: Outcome<()>)

  /** The fields of one `AsyncCmdletContext`. */
  datatype Context = Context(
    cmdlet: Cmdlet,
    mainThread: ThreadId,
    queue: Queue<Item>,
    cts: SourceId,
    original: SyncContext,
    disposed: bool)

  /** An `AwaitableAction` and the current state of its task. */
  datatype ActionState = ActionState(action: AwaitableAction<()>, slot: Slot<()>)

  /** Everything the bridge's objects share. `executed` records every
      delegate and continuation that ran, with its thread, in order. */
  datatype Runtime = Runtime(
    registry: map<Cmdlet, CtxId>,
    contexts: seq<Context>,
    actions: seq<ActionState>,
    ambient: map<ThreadId, SyncContext>,
    cancelled: set<SourceId>,
    disposedSources: set<SourceId>,
    nextSource: nat,
    executed: seq<Executed>)

  /** The state after a call together with its result or exception. */
  datatype Step<+T> = Step(rt: Runtime, out: Outcome<T>)

  /** A runtime where nothing has happened yet. */
  const Initial: Runtime := Runtime(map[], [], [], map[], {}, {}, 0, [])

  predicate ItemWellFormed(item: Item, actionCount: nat) {
    item.ActionItem? ==> item.action < actionCount
  }

  /** Every reference resolves, every registry entry points at a context for
      that very cmdlet, and internal sources not yet allocated were never
      cancelled. */
  ghost predicate Valid(rt: Runtime) {
    && (forall c :: c in rt.registry ==>
          rt.registry[c] < |rt.contexts| && rt.contexts[rt.registry[c]].cmdlet == c)
    && (forall j :: 0 <= j < |rt.contexts| ==>
          rt.contexts[j].cts.Internal? && rt.contexts[j].cts.n < rt.nextSource)
    && (forall j, k :: 0 <= j < |rt.contexts| && 0 <= k < |rt.contexts[j].queue.items| ==>
          ItemWellFormed(rt.contexts[j].queue.items[k], |rt.actions|))
    && (forall s :: s in rt.cancelled && s.Internal? ==> s.n < rt.nextSource)
  }

  lemma InitialValid()
    ensures Valid(Initial)
  {
  }

  /** `rt2` is `rt` after calls that may append to queues, create actions,
      cancel sources, resolve slots and run code, but that leave every
      context's identity, closed flag and queued items (as a prefix) alone. */
  ghost predicate Grows(rt: Runtime, rt2: Runtime) {
    && rt2.registry == rt.registry
    && rt2.ambient == rt.ambient
    && |rt2.contexts| == |rt.contexts|
    && |rt.actions| <= |rt2.actions|
    && rt.cancelled <= rt2.cancelled
    && rt.executed <= rt2.executed
    && forall j :: 0 <= j < |rt.contexts| ==>
         && rt2.contexts[j] == rt.contexts[j].(queue := rt2.contexts[j].queue)
         && rt2.contexts[j].queue.addingCompleted == rt.contexts[j].queue.addingCompleted
         && rt.contexts[j].queue.items <= rt2.contexts[j].queue.items
  }

  lemma GrowsTransitive(rt1: Runtime, rt2: Runtime, rt3: Runtime)
    requires Grows(rt1, rt2) && Grows(rt2, rt3)
    ensures Grows(rt1, rt3)
  {
    forall j | 0 <= j < |rt1.contexts|
      ensures rt1.contexts[j].queue.items <= rt3.contexts[j].queue.items
    {
      assert rt2.contexts[j].queue.items <= rt3.contexts[j].queue.items;
    }
  }

  function Current(rt: Runtime, thread: ThreadId): SyncContext {
    if thread in rt.ambient then rt.ambient[thread] else NoSyncContext
  }

  /** The private constructor (reached through `Start`). Registering a cmdlet
      that already has a context throws InvalidOperationException and changes
      nothing. Otherwise the new context is registered for the cmdlet,
      remembers the calling thread as its main thread and that thread's
      synchronization context, starts with an empty open queue and an
      uncancelled source, and installs a PowerShellSynchronizationContext over
      itself on the calling thread. */
  function Start(rt: Runtime, cmdlet: Cmdlet, thread: ThreadId): (r: Step<CtxId>)
    requires Valid(rt)
    ensures Valid(r.rt)
    ensures r.out.Throw? <==> cmdlet in rt.registry
    ensures r.out.Throw? ==> r.out.error == InvalidOperation && r.rt == rt
    ensures r.out.Ok? ==>
      var id := r.out.value;
      && id == |rt.contexts|
      && |r.rt.contexts| == id + 1
      && r.rt.contexts[..id] == rt.contexts
      && r.rt.contexts[id].cmdlet == cmdlet
      && r.rt.contexts[id].mainThread == thread
      && r.rt.contexts[id].original == Current(rt, thread)
      && r.rt.contexts[id].queue.items == []
      && !r.rt.contexts[id].queue.addingCompleted
      && !r.rt.contexts[id].disposed
      && !IsCancellationRequested(Token({r.rt.contexts[id].cts}), r.rt.cancelled)
      && r.rt.registry == rt.registry[cmdlet := id]
      && Current(r.rt, thread) == PowerShellSync(id)
      && (forall t :: t != thread ==> Current(r.rt, t) == Current(rt, t))
      && r.rt.actions == rt.actions
      && r.rt.cancelled == rt.cancelled
      && r.rt.executed == rt.executed
  {
    if cmdlet in rt.registry then
      Step(rt, Throw(InvalidOperation))
    else
      var id := |rt.contexts|;
      var ctx := Context(cmdlet, thread, Empty(), Internal(rt.nextSource), Current(rt, thread), false);
      var rt' := rt.(
        registry := rt.registry[cmdlet := id],
        contexts := rt.contexts + [ctx],
        ambient := rt.ambient[thread := PowerShellSync(id)],
        nextSource := rt.nextSource + 1);
      assert rt'.contexts[..id] == rt.contexts;
      Step(rt', Ok(id))
  }

  /** `IsMainThread` */
  predicate IsMainThread(rt: Runtime, id: CtxId, thread: ThreadId)
    requires id < |rt.contexts|
  {
    thread == rt.contexts[id].mainThread
  }

  /** The main thread of a context is the thread that started it, and no other. */
  lemma MainThreadIsCreator(rt: Runtime, cmdlet: Cmdlet, creator: ThreadId, thread: ThreadId)
    requires Valid(rt) && cmdlet !in rt.registry
    ensures var r := Start(rt, cmdlet, creator);
      r.out.Ok? && (IsMainThread(r.rt, r.out.value, thread) <==> thread == creator)
  {
  }

  /** `Dispose`. A second call returns at once. A first call on the thread
      that created the context throws InvalidOperationException and leaves
      the context undisposed and registered. A first call on any other thread
      marks the context disposed, restores that thread's saved
      synchronization context, disposes the cancellation source and removes
      the cmdlet's registry entry. */
  function Dispose(rt: Runtime, id: CtxId, thread: ThreadId): (r: Step<()>)
    requires Valid(rt) && id < |rt.contexts|
    ensures Valid(r.rt)
    ensures rt.contexts[id].disposed ==> r == Step(rt, Ok(()))
    ensures !rt.contexts[id].disposed && thread == rt.contexts[id].mainThread ==>
      r == Step(rt, Throw(InvalidOperation))
    ensures !rt.contexts[id].disposed && thread != rt.contexts[id].mainThread ==>
      var c := rt.contexts[id];
      && r.out.Ok?
      && |r.rt.contexts| == |rt.contexts|
      && r.rt.contexts[id].disposed
      && r.rt.contexts[id].queue == c.queue
      && (forall j :: 0 <= j < |rt.contexts| && j != id ==> r.rt.contexts[j] == rt.contexts[j])
      && Current(r.rt, thread) == c.original
      && (forall t :: t != thread ==> Current(r.rt, t) == Current(rt, t))
      && c.cmdlet !in r.rt.registry
      && (forall k :: k != c.cmdlet ==> (k in r.rt.registry <==> k in rt.registry))
      && c.cts in r.rt.disposedSources
      && r.rt.actions == rt.actions
      && r.rt.cancelled == rt.cancelled
      && r.rt.executed == rt.executed
  {
    var c := rt.contexts[id];
    if c.disposed then
      Step(rt, Ok(()))
    else if IsMainThread(rt, id, thread) then
      Step(rt, Throw(InvalidOperation))
    else
      Step(rt.(
        contexts := rt.contexts[id := c.(disposed := true)],
        ambient := rt.ambient[thread := c.original],
        disposedSources := rt.disposedSources + {c.cts},
        registry := rt.registry - {c.cmdlet}), Ok(()))
  }

  /** `CheckDisposed` */
  function CheckDisposed(rt: Runtime, id: CtxId): (r: Outcome<()>)
    requires id < |rt.contexts|
    ensures r.Throw? <==> rt.contexts[id].disposed
    ensures r.Throw? ==> r.error == ObjectDisposed
  {
    if rt.contexts[id].disposed then Throw(ObjectDisposed) else Ok(())
  }

  /** `GetActions`: the consuming view of the queue, or ObjectDisposedException. */
  function GetActions(rt: Runtime, id: CtxId): (r: Outcome<Queue<Item>>)
    requires id < |rt.contexts|
    ensures r.Throw? <==> rt.contexts[id].disposed
    ensures r.Throw? ==> r.error == ObjectDisposed
    ensures r.Ok? ==> r.value == rt.contexts[id].queue
  {
    if rt.contexts[id].disposed then Throw(ObjectDisposed) else Ok(rt.contexts[id].queue)
  }

  /** The result of one step of the consuming enumerable. */
  datatype Taken = Taken(rt: Runtime, next: Next<Item>)

  /** One `MoveNext` of `GetActions()`: hands out the head of the queue and
      removes it; at the end or while waiting, nothing changes. */
  function MoveNext(rt: Runtime, id: CtxId): (r: Taken)
    requires Valid(rt) && id < |rt.contexts|
    ensures Valid(r.rt)
    ensures r.next.End? <==> rt.contexts[id].queue.items == [] && rt.contexts[id].queue.addingCompleted
    ensures r.next.Block? <==> rt.contexts[id].queue.items == [] && !rt.contexts[id].queue.addingCompleted
    ensures !r.next.Yield? ==> r.rt == rt
    ensures |r.rt.contexts| == |rt.contexts|
    ensures r.next.Yield? ==>
      && [r.next.item] + r.rt.contexts[id].queue.items == rt.contexts[id].queue.items
      && ItemWellFormed(r.next.item, |rt.actions|)
      && r.rt.contexts[id] == rt.contexts[id].(queue := r.rt.contexts[id].queue)
      && r.rt.contexts[id].queue.addingCompleted == rt.contexts[id].queue.addingCompleted
      && r.rt == rt.(contexts := r.rt.contexts)
      && (forall j :: 0 <= j < |rt.contexts| && j != id ==> r.rt.contexts[j] == rt.contexts[j])
  {
    var c := rt.contexts[id];
    var n := TakeNext(c.queue);
    if n.Yield? then
      assert c.queue.items[0] == n.item;
      Taken(rt.(contexts := rt.contexts[id := c.(queue := n.rest)]), n)
    else
      Taken(rt, n)
  }

  /** `Close`: after disposal a silent no-op; otherwise completes adding to
      the queue, keeping the queued items. */
  function Close(rt: Runtime, id: CtxId): (r: Runtime)
    requires Valid(rt) && id < |rt.contexts|
    ensures Valid(r)
    ensures |r.contexts| == |rt.contexts|
    ensures rt.contexts[id].disposed ==> r == rt
    ensures !rt.contexts[id].disposed ==>
      && r.contexts[id].queue.addingCompleted
      && r.contexts[id].queue.items == rt.contexts[id].queue.items
    ensures r.contexts[id] == rt.contexts[id].(queue := r.contexts[id].queue)
    ensures forall j :: 0 <= j < |rt.contexts| && j != id ==> r.contexts[j] == rt.contexts[j]
    ensures r == rt.(contexts := r.contexts)
  {
    var c := rt.contexts[id];
    if c.disposed then rt
    else rt.(contexts := rt.contexts[id := c.(queue := CompleteAdding(c.queue))])
  }

  /** `CreateAction`: after disposal throws ObjectDisposedException.
      Otherwise creates an action whose token is linked to the caller's
      token and to the context's token, so either cancels it; its post-action
      disposes the linked source; its slot is canceled at once when either
      token is already cancelled. No queue changes. */
  function CreateAction(rt: Runtime, id: CtxId, cmdlet: Cmdlet, work: Work<()>, token: Token): (r: Step<ActionId>)
    requires Valid(rt) && id < |rt.contexts|
    ensures Valid(r.rt) && Grows(rt, r.rt)
    ensures r.out.Throw? <==> rt.contexts[id].disposed
    ensures r.out.Throw? ==> r == Step(rt, Throw(ObjectDisposed))
    ensures r.out.Ok? ==>
      && r.out.value == |rt.actions|
      && |r.rt.actions| == |rt.actions| + 1
      && r.rt.actions[..|rt.actions|] == rt.actions
      && r.rt.contexts == rt.contexts
    ensures r.out.Ok? && r.out.value < |r.rt.actions| ==>
      var aid := r.out.value;
      var a := r.rt.actions[aid].action;
      var cts := rt.contexts[id].cts;
      && a.cmdlet == cmdlet && a.work == work
      && a.post.Some? && a.post.value !in rt.cancelled
      && (forall c :: IsCancellationRequested(a.token, c) <==>
            IsCancellationRequested(token, c) || cts in c || a.post.value in c)
      && (r.rt.actions[aid].slot.Canceled? <==>
            IsCancellationRequested(token, rt.cancelled) || cts in rt.cancelled)
      && (r.rt.actions[aid].slot.Pending? <==>
            !IsCancellationRequested(token, rt.cancelled) && cts !in rt.cancelled)
      && r.rt.cancelled == rt.cancelled
      && r.rt.executed == rt.executed
  {
    if rt.contexts[id].disposed then Step(rt, Throw(ObjectDisposed)) else
    var own := Internal(rt.nextSource);
    var linked := LinkedToken(token, Token({rt.contexts[id].cts}), own);
    var (a, slot) := New(cmdlet, work, Some(own), linked, rt.cancelled);
    var rt' := rt.(actions := rt.actions + [ActionState(a, slot)], nextSource := rt.nextSource + 1);
    assert rt'.actions[..|rt.actions|] == rt.actions;
    assert IsCancellationRequested(Token({rt.contexts[id].cts}), rt.cancelled) <==> rt.contexts[id].cts in rt.cancelled;
    Step(rt', Ok(|rt.actions|))
  }

  /** `QueueAction(IAction)`: after disposal throws ObjectDisposedException;
      after `Close` the queue's `Add` throws InvalidOperationException;
      otherwise appends the item at the tail of this context's queue and
      changes nothing else. */
  function Enqueue(rt: Runtime, id: CtxId, item: Item): (r: Step<()>)
    requires Valid(rt) && id < |rt.contexts| && ItemWellFormed(item, |rt.actions|)
    ensures Valid(r.rt) && Grows(rt, r.rt)
    ensures rt.contexts[id].disposed ==> r == Step(rt, Throw(ObjectDisposed))
    ensures !rt.contexts[id].disposed && rt.contexts[id].queue.addingCompleted ==>
      r == Step(rt, Throw(InvalidOperation))
    ensures !rt.contexts[id].disposed && !rt.contexts[id].queue.addingCompleted ==>
      && r.out.Ok?
      && r.rt.contexts[id].queue.items == rt.contexts[id].queue.items + [item]
      && (forall j :: 0 <= j < |rt.contexts| && j != id ==> r.rt.contexts[j] == rt.contexts[j])
      && r.rt == rt.(contexts := r.rt.contexts)
  {
    var c := rt.contexts[id];
    if c.disposed then Step(rt, Throw(ObjectDisposed))
    else match Add(c.queue, item)
      case Throw(e) => Step(rt, Throw(e))
      case Ok(q) => Step(rt.(contexts := rt.contexts[id := c.(queue := q)]), Ok(()))
  }

  /** `QueueAction(cmdlet, action, token)`: `CreateAction` followed by
      `QueueAction(IAction)`; returns the created action. When the queue has
      been closed the action is created but never queued. */
  function QueueAwaitable(rt: Runtime, id: CtxId, cmdlet: Cmdlet, work: Work<()>, token: Token): (r: Step<ActionId>)
    requires Valid(rt) && id < |rt.contexts|
    ensures Valid(r.rt) && Grows(rt, r.rt)
    ensures rt.contexts[id].disposed ==> r == Step(rt, Throw(ObjectDisposed))
    ensures !rt.contexts[id].disposed && rt.contexts[id].queue.addingCompleted ==>
      r.out == Throw(InvalidOperation) && r.rt.contexts == rt.contexts
    ensures !rt.contexts[id].disposed && !rt.contexts[id].queue.addingCompleted ==>
      && r.out.Ok?
      && r.out.value == |rt.actions|
      && r.rt.actions == CreateAction(rt, id, cmdlet, work, token).rt.actions
      && r.rt.contexts[id].queue.items == rt.contexts[id].queue.items + [ActionItem(r.out.value)]
      && (forall j :: 0 <= j < |rt.contexts| && j != id ==> r.rt.contexts[j] == rt.contexts[j])
  {
    if rt.contexts[id].disposed then Step(rt, Throw(ObjectDisposed)) else
    var created := CreateAction(rt, id, cmdlet, work, token);
    var aid := created.out.value;
    var queued := Enqueue(created.rt, id, ActionItem(aid));
    if queued.out.Throw? then
      Step(created.rt, Throw(queued.out.error))
    else
      GrowsTransitive(rt, created.rt, queued.rt);
      Step(queued.rt, Ok(aid))
  }

  /** A cancellation source is cancelled: every pending action whose token
      now reports cancellation runs its registration and becomes canceled;
      every other slot stays as it was. */
  function CancelSource(rt: Runtime, s: SourceId): (r: Runtime)
    requires Valid(rt)
    requires s.Internal? ==> s.n < rt.nextSource
    ensures Valid(r) && Grows(rt, r)
    ensures r.cancelled == rt.cancelled + {s}
    ensures |r.actions| == |rt.actions|
    ensures forall i :: 0 <= i < |r.actions| ==>
      && r.actions[i].action == rt.actions[i].action
      && (rt.actions[i].slot.Pending? && IsCancellationRequested(rt.actions[i].action.token, r.cancelled) ==>
            r.actions[i].slot == Canceled)
      && (!(rt.actions[i].slot.Pending? && IsCancellationRequested(rt.actions[i].action.token, r.cancelled)) ==>
            r.actions[i].slot == rt.actions[i].slot)
    ensures r == rt.(cancelled := r.cancelled, actions := r.actions)
  {
    var c := rt.cancelled + {s};
    var acts := seq(|rt.actions|, i requires 0 <= i < |rt.actions| =>
      ActionState(rt.actions[i].action, OnCancellation(rt.actions[i].action, rt.actions[i].slot, c)));
    rt.(cancelled := c, actions := acts)
  }

  /** `CancelAsyncOperations`: after disposal a silent no-op; otherwise
      cancels the context's source. */
  function CancelAsyncOperations(rt: Runtime, id: CtxId): (r: Runtime)
    requires Valid(rt) && id < |rt.contexts|
    ensures Valid(r) && Grows(rt, r)
    ensures rt.contexts[id].disposed ==> r == rt
    ensures !rt.contexts[id].disposed ==>
      && rt.contexts[id].cts in r.cancelled
      && r == CancelSource(rt, rt.contexts[id].cts)
  {
    if rt.contexts[id].disposed then rt else CancelSource(rt, rt.contexts[id].cts)
  }

  /** `GetCancellationToken`: after disposal throws ObjectDisposedException;
      otherwise the token of the context's own source. */
  function GetCancellationToken(rt: Runtime, id: CtxId): (r: Outcome<Token>)
    requires id < |rt.contexts|
    ensures r.Throw? <==> rt.contexts[id].disposed
    ensures r.Throw? ==> r.error == ObjectDisposed
    ensures r.Ok? ==> forall c :: IsCancellationRequested(r.value, c) <==> rt.contexts[id].cts in c
  {
    if rt.contexts[id].disposed then Throw(ObjectDisposed) else Ok(Token({rt.contexts[id].cts}))
  }

  /** `CancelAsyncOperations` cancels the token `GetCancellationToken` hands out. */
  lemma CancelAsyncOperationsCancelsToken(rt: Runtime, id: CtxId)
    requires Valid(rt) && id < |rt.contexts| && !rt.contexts[id].disposed
    ensures IsCancellationRequested(GetCancellationToken(rt, id).value, CancelAsyncOperations(rt, id).cancelled)
  {
  }

  /** `TryGetContext`: false when the cmdlet has no entry or its entry has
      been disposed. */
  function TryGetContext(rt: Runtime, cmdlet: Cmdlet): (r: Option<CtxId>)
    requires Valid(rt)
    ensures r.Some? <==> cmdlet in rt.registry && !rt.contexts[rt.registry[cmdlet]].disposed
    ensures r.Some? ==> r.value == rt.registry[cmdlet] && r.value < |rt.contexts|
  {
    if cmdlet !in rt.registry then None
    else if rt.contexts[rt.registry[cmdlet]].disposed then None
    else Some(rt.registry[cmdlet])
  }

  /** `GetContext`: InvalidOperationException exactly when `TryGetContext`
      finds nothing. */
  function GetContext(rt: Runtime, cmdlet: Cmdlet): (r: Outcome<CtxId>)
    requires Valid(rt)
    ensures r.Throw? <==> cmdlet !in rt.registry || rt.contexts[rt.registry[cmdlet]].disposed
    ensures r.Throw? ==> r.error == InvalidOperation
    ensures r.Ok? ==> r.value == rt.registry[cmdlet] && r.value < |rt.contexts| && !rt.contexts[r.value].disposed
  {
    match TryGetContext(rt, cmdlet)
    case None => Throw(InvalidOperation)
    case Some(id) => Ok(id)
  }

  /** `AwaitableAction.Invoke` run by `thread` on the stored action: the
      slot takes the state `Invoke` gives it, the delegate's host call is
      recorded on that thread when it ran, and the post-action's source is
      disposed. */
  function InvokeAction(rt: Runtime, aid: ActionId, thread: ThreadId): (r: Runtime)
    requires Valid(rt) && aid < |rt.actions|
    ensures Valid(r) && Grows(rt, r)
    ensures |r.actions| == |rt.actions|
    ensures r.actions[aid].action == rt.actions[aid].action
    ensures !r.actions[aid].slot.Pending?
    ensures !rt.actions[aid].slot.Pending? ==> r.actions[aid].slot == rt.actions[aid].slot
    ensures forall i :: 0 <= i < |rt.actions| && i != aid ==> r.actions[i] == rt.actions[i]
    ensures var a := rt.actions[aid].action;
      r.executed == rt.executed +
        (if IsCancellationRequested(a.token, rt.cancelled) then [] else [Body(thread, a.cmdlet, a.work.call)])
    ensures var a := rt.actions[aid].action;
      a.post.Some? ==> a.post.value in r.disposedSources
    ensures r.cancelled == rt.cancelled && r.contexts == rt.contexts
  {
    var st := rt.actions[aid];
    var inv := Invoke(st.action, st.slot, rt.cancelled);
    rt.(
      actions := rt.actions[aid := ActionState(st.action, inv.slot)],
      executed := rt.executed + (if inv.ran then [Body(thread, st.action.cmdlet, st.action.work.call)] else []),
      disposedSources := rt.disposedSources + (if inv.disposed.Some? then {inv.disposed.value} else {}))
  }
}
