/** `AwaitableAction`: a delegate marshalled to the host thread, its
    write-once completion slot (the `TaskCompletionSource` behind `Task`),
    the cancellation registration made at construction, and `Invoke`. */
module Awaitable {
  import opened Exceptions
  import opened Cancellation
  import opened Host

  /** The state of the completion source's task. */
  datatype Slot<+T> = Pending | Result(value: T) | Faulted(error: Exn) | Canceled

  /** The three `TrySet*` calls as data. */
  datatype Request<+T> = SetResult(value: T) | SetException(error: Exn) | SetCanceled

  /** The state a request puts a pending slot in. */
  function Resolution<T>(req: Request<T>): (r: Slot<T>)
    ensures !r.Pending?
  {
    match req
    case SetResult(v) => Result(v)
    case SetException(e) => Faulted(e)
    case SetCanceled => Canceled
  }

  /** `TrySetResult` / `TrySetException` / `TrySetCanceled`: only a pending
      slot changes; a resolved one stays as it is. */
  function TrySet<T>(s: Slot<T>, req: Request<T>): (r: Slot<T>)
    ensures s.Pending? ==> r == Resolution(req)
    ensures !s.Pending? ==> r == s
  {
    if s.Pending? then Resolution(req) else s
  }

  function TrySetAll<T>(s: Slot<T>, reqs: seq<Request<T>>): Slot<T>
    decreases |reqs|
  {
    if |reqs| == 0 then s else TrySetAll(TrySet(s, reqs[0]), reqs[1..])
  }

  lemma {:induction false} ResolvedSlotIsFinal<T>(s: Slot<T>, reqs: seq<Request<T>>)
    requires !s.Pending?
    ensures TrySetAll(s, reqs) == s
    decreases |reqs|
  {
    if |reqs| > 0 {
      ResolvedSlotIsFinal(TrySet(s, reqs[0]), reqs[1..]);
    }
  }

  /** The slot is write-once: whatever sequence of `TrySet*` calls reaches a
      fresh slot, the first one decides its final state. */
  lemma FirstRequestWins<T>(reqs: seq<Request<T>>)
    requires |reqs| > 0
    ensures TrySetAll(Pending, reqs) == Resolution(reqs[0])
  {
    ResolvedSlotIsFinal(Resolution(reqs[0]), reqs[1..]);
  }

  /** An action: the cmdlet it targets, the delegate, the post-action (when
      present it disposes the given cancellation source, the only post-action
      the bridge installs) and the token it observes. The argument and the
      result are unit in the bridge and are folded into `work`. */
  datatype AwaitableAction<+T> = AwaitableAction(
    cmdlet: Cmdlet,
    work: Work<T>,
    post: Option<SourceId>,
    token: Token)

  /** The callback registered with the token at construction. `Register`
      runs it at once when the token is already cancelled, and later as soon
      as it becomes cancelled; it tries to resolve the slot as canceled. */
  function OnCancellation<T>(a: AwaitableAction<T>, s: Slot<T>, cancelled: set<SourceId>): (r: Slot<T>)
    ensures IsCancellationRequested(a.token, cancelled) ==> r == TrySet(s, SetCanceled)
    ensures !IsCancellationRequested(a.token, cancelled) ==> r == s
  {
    if IsCancellationRequested(a.token, cancelled) then TrySet(s, SetCanceled) else s
  }

  /** The constructor: the new action's slot is already canceled when its
      token is cancelled at construction time, pending otherwise. */
  function New<T>(cmdlet: Cmdlet, work: Work<T>, post: Option<SourceId>, token: Token,
                  cancelled: set<SourceId>): (r: (AwaitableAction<T>, Slot<T>))
    ensures r.0 == AwaitableAction(cmdlet, work, post, token)
    ensures r.1.Canceled? <==> IsCancellationRequested(token, cancelled)
    ensures r.1.Pending? <==> !IsCancellationRequested(token, cancelled)
  {
    var a := AwaitableAction(cmdlet, work, post, token);
    (a, OnCancellation(a, Pending, cancelled))
  }

  /** What one `Invoke` did: the slot afterwards, whether the delegate ran,
      and the source the post-action disposed (if there is a post-action). */
  datatype Invoked<+T> = Invoked(slot: Slot<T>, ran: bool, disposed: Option<SourceId>)

  /** The request `Invoke` makes once the delegate has returned or thrown:
      a result, a cancellation for an OperationCanceledException, a fault for
      any other exception. */
  function Completion<T>(result: Outcome<T>): Request<T> {
    match result
    case Ok(v) => SetResult(v)
    case Throw(e) => if IsCancellation(e) then SetCanceled else SetException(e)
  }

  /** `Invoke`. The delegate's exception never escapes (the result has no
      exception in it) and the post-action runs on every path. */
  function Invoke<T>(a: AwaitableAction<T>, s: Slot<T>, cancelled: set<SourceId>): (r: Invoked<T>)
    ensures !r.slot.Pending?
    ensures r.ran <==> !IsCancellationRequested(a.token, cancelled)
    ensures r.disposed == a.post
    ensures !s.Pending? ==> r.slot == s
    ensures s.Pending? && !r.ran ==> r.slot == Canceled
    ensures s.Pending? && r.ran ==> match a.work.result
      case Ok(v) => r.slot == Result(v)
      case Throw(e) => r.slot == (if e == OperationCanceled then Canceled else Faulted(e))
  {
    if IsCancellationRequested(a.token, cancelled) then
      Invoked(TrySet(s, SetCanceled), false, a.post)
    else
      Invoked(TrySet(s, Completion(a.work.result)), true, a.post)
  }

  /** Between construction and `Invoke` the slot can only have been resolved
      by the cancellation registration; in that case `Invoke` does not run
      the delegate and the slot stays canceled. */
  lemma CancelledBeforeInvoke<T>(a: AwaitableAction<T>, s: Slot<T>, before: set<SourceId>, now: set<SourceId>)
    requires before <= now
    requires s == OnCancellation(a, Pending, before)
    requires IsCancellationRequested(a.token, before)
    ensures !Invoke(a, s, now).ran && Invoke(a, s, now).slot == Canceled
  {
    CancellationIsPermanent(a.token, before, now);
  }
}
