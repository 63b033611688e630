/** `AsyncPipelineRunner.RunAsyncPipeline`: the runner whose join
    classifies the task's exception and rethrows it only after the join. */
module PipelineRunner {
  import opened Exceptions
  import opened Host
  import opened CmdletContext
  import opened StageDrain

  /** What the join's handlers make of the task's final status. */
  datatype JoinResult =
    | Completed          // GetResult returned
    | Swallowed          // a handler caught it and captured nothing
    | Captured(e: Exn)   // a handler captured `e` for `exceptionDispatcher`
    | Escaped(e: Exn)    // no handler matched: `e` leaves the `finally`

  /** The inner `try` of the `finally`: GetResult throws the task's first
      exception; a cancellation is caught and dropped; an aggregate is
      flattened and yields its first PipelineStoppedException, else itself
      when it holds anything but cancellations, else nothing; any other
      exception is not caught. */
  function Classify(t: TaskStatus): (r: JoinResult)
    ensures r.Completed? <==> t.RanToCompletion?
    ensures r.Escaped? <==> t.TaskFaulted? && !t.first.Aggregate? && !IsCancellation(t.first)
    ensures r.Escaped? ==> r.e == t.first
    ensures r.Captured? ==> t.TaskFaulted? && t.first.Aggregate?
    ensures r.Captured? ==> !IsCancellation(r.e)
  {
    match GetResult(t)
    case Ok(_) => Completed
    case Throw(OperationCanceled) => Swallowed
    case Throw(Aggregate(inner)) =>
      var flat := Flatten(inner);
      (match FirstPipelineStopped(flat)
       case Some(pse) => Captured(pse)
       case None => if AnyNonCancellation(flat) then Captured(Aggregate(inner)) else Swallowed)
    case Throw(e) => Escaped(e)
  }

  /** The aggregate branch of `Classify`, stated once so that the lemmas
      below need not unfold it. */
  lemma ClassifyAggregate(first: Exn, rest: seq<Exn>)
    requires first.Aggregate?
    ensures var flat := Flatten(first.inner);
      Classify(TaskFaulted(first, rest)) ==
        match FirstPipelineStopped(flat)
        case Some(pse) => Captured(pse)
        case None => if AnyNonCancellation(flat) then Captured(first) else Swallowed
  {
  }

  /** A PipelineStoppedException anywhere in the aggregate, however deeply
      nested, wins: the first one of the flattened list is captured, and it
      is unwrapped. */
  lemma PipelineStoppedWins(first: Exn, rest: seq<Exn>, p: Exn)
    requires first.Aggregate? && OccursIn(p, first.inner) && p.PipelineStopped?
    ensures var flat := Flatten(first.inner);
      var r := Classify(TaskFaulted(first, rest));
      && r.Captured? && OccursIn(r.e, first.inner)
      && exists k :: 0 <= k < |flat| && r.e == flat[k] && flat[k].PipelineStopped?
           && forall j :: 0 <= j < k ==> !flat[j].PipelineStopped?
  {
    var flat := Flatten(first.inner);
    ClassifyAggregate(first, rest);
    FlattenKeepsLeaves(p, first.inner);
    var i :| 0 <= i < |flat| && flat[i] == p;
    var found := FirstPipelineStopped(flat);
    assert found.Some?;
    var k :| 0 <= k < |flat| && flat[k] == found.value && found.value.PipelineStopped?
      && forall j :: 0 <= j < k ==> !flat[j].PipelineStopped?;
    assert Classify(TaskFaulted(first, rest)) == Captured(flat[k]);
    assert flat[k] in flat;
  }

  /** Because flattening is breadth-first, a PipelineStoppedException held
      directly by the aggregate beats any nested more deeply: the first
      direct one is captured. */
  lemma TopLevelPipelineStoppedWins(first: Exn, rest: seq<Exn>, k: nat)
    requires first.Aggregate? && k < |first.inner| && first.inner[k].PipelineStopped?
    requires forall j :: 0 <= j < k ==> !first.inner[j].PipelineStopped?
    ensures Classify(TaskFaulted(first, rest)) == Captured(first.inner[k])
  {
    var flat := Flatten(first.inner);
    ClassifyAggregate(first, rest);
    FirstPipelineStoppedAt(first.inner, k);
    FirstPipelineStoppedLeaves(first.inner);
    var leaves := Leaves(first.inner);
    assert flat == leaves + flat[|leaves|..];
    FirstPipelineStoppedAppend(leaves, flat[|leaves|..]);
  }

  /** The nested example: with a PipelineStoppedException inside an inner
      aggregate and another directly in the outer one, the direct one is
      captured, although it comes later in the list. */
  lemma ShallowPipelineStoppedCaptured()
    ensures Classify(TaskFaulted(Aggregate([Aggregate([PipelineStopped(1)]), PipelineStopped(2)]), []))
      == Captured(PipelineStopped(2))
  {
    TopLevelPipelineStoppedWins(Aggregate([Aggregate([PipelineStopped(1)]), PipelineStopped(2)]), [], 1);
  }

  /** An aggregate holding a failure but no PipelineStoppedException is
      captured whole. */
  lemma FailureCapturesAggregate(first: Exn, rest: seq<Exn>, f: Exn)
    requires first.Aggregate? && OccursIn(f, first.inner) && !f.Aggregate? && !IsCancellation(f)
    requires forall e :: OccursIn(e, first.inner) ==> !e.PipelineStopped?
    ensures Classify(TaskFaulted(first, rest)) == Captured(first)
  {
    ClassifyAggregate(first, rest);
    var flat := Flatten(first.inner);
    FlattenKeepsLeaves(f, first.inner);
    var i :| 0 <= i < |flat| && flat[i] == f;
    assert AnyNonCancellation(flat);
    forall j | 0 <= j < |flat|
      ensures !flat[j].PipelineStopped?
    {
      assert OccursIn(flat[j], first.inner);
    }
    assert FirstPipelineStopped(flat).None?;
  }

  /** An aggregate of cancellations only, at any depth, is dropped, as is a
      canceled task. */
  lemma CancellationIsSwallowed(first: Exn, rest: seq<Exn>)
    requires first.Aggregate?
    requires forall e :: OccursIn(e, first.inner) && !e.Aggregate? ==> IsCancellation(e)
    ensures Classify(TaskFaulted(first, rest)) == Swallowed
    ensures Classify(TaskCanceled) == Swallowed
  {
    var flat := Flatten(first.inner);
    assert forall i :: 0 <= i < |flat| ==> IsCancellation(flat[i]) by {
      forall i | 0 <= i < |flat|
        ensures IsCancellation(flat[i])
      {
        assert flat[i] in flat;
      }
    }
  }

  /** The outcome the runner has reached when its `using` scope ends: an
      escaping exception leaves the `finally` at once; otherwise the drain
      loop's exception, still propagating, wins over anything captured; a
      captured exception is thrown only once the loop and the join are both
      done. */
  function Verdict(drainError: Option<Exn>, status: Option<TaskStatus>): (r: StageOutcome)
    // the join never ends while the task has not completed
    ensures r.Hangs? <==> status.None?
    // an exception no handler catches replaces the drain loop's
    ensures status.Some? && Classify(status.value).Escaped? ==> r == Raised(Classify(status.value).e)
    // otherwise the drain loop's exception goes on propagating, and anything captured is dropped
    ensures status.Some? && !Classify(status.value).Escaped? && drainError.Some? ==> r == Raised(drainError.value)
    // a captured exception is thrown when the loop ended normally
    ensures status.Some? && Classify(status.value).Captured? && drainError.None? ==> r == Raised(Classify(status.value).e)
    // the stage returns normally exactly when the loop did and the join caught nothing worth rethrowing
    ensures r.Returned? <==>
      status.Some? && drainError.None? && (Classify(status.value).Completed? || Classify(status.value).Swallowed?)
  {
    match status
    case None => Hangs
    case Some(t) =>
      match Classify(t)
      case Escaped(e) => Raised(e)
      case Captured(e) => if drainError.Some? then Raised(drainError.value) else Raised(e)
      case _ => if drainError.Some? then Raised(drainError.value) else Returned
  }

  /** `RunAsyncPipeline(cmdlet, asyncMethod, stage)` run on thread `host`. */
  method RunAsyncPipeline(rt: Runtime, cmdlet: Cmdlet, host: ThreadId, syncThrow: Option<Exn>, script: seq<Event>)
    returns (r: StageRun)
    requires Valid(rt)
    ensures Valid(r.rt)
    ensures cmdlet in rt.registry ==>
      r.rt == rt && r.context.None? && r.invoked == [] && r.outcome == Raised(InvalidOperation)
    ensures cmdlet !in rt.registry ==>
      && StartedStage(rt, cmdlet, host, r)
      && Current(r.rt, host) == PowerShellSync(|rt.contexts|)
    ensures cmdlet !in rt.registry && syncThrow.Some? ==>
      r.invoked == [] && r.beforeDispose == Raised(syncThrow.value)
    ensures cmdlet !in rt.registry && syncThrow.None? ==>
      // every added item is invoked once, in order, unless an exception stopped the loop
      && (r.drainError.None? ==> r.invoked == r.added)
      // the loop has no handler: the exception is the last invoked item's, cancellation included
      && (r.drainError.Some? ==>
            && |r.invoked| > 0 && r.invoked[|r.invoked| - 1].CallbackItem?
            && r.invoked[|r.invoked| - 1].behaviour == Throw(r.drainError.value))
      && (r.beforeDispose.Hangs? <==> r.status.None?)
      && (r.status.None? ==> forall k :: 0 <= k < |script| ==> !script[k].Complete?)
      // a canceled task, or a cancellation, returns normally when the loop did
      && (r.status.Some? && Classify(r.status.value).Swallowed? && r.drainError.None? ==> r.beforeDispose == Returned)
      && (r.status == Some(RanToCompletion) && r.drainError.None? ==> r.beforeDispose == Returned)
      // an exception no handler catches replaces the loop's
      && (r.status.Some? && Classify(r.status.value).Escaped? ==>
            r.beforeDispose == Raised(Classify(r.status.value).e))
      // a captured exception is thrown only after a loop that ended normally
      && (r.status.Some? && Classify(r.status.value).Captured? ==>
            r.beforeDispose == Raised(if r.drainError.Some? then r.drainError.value else Classify(r.status.value).e))
    // everything the stage ran, it ran on the host thread; its continuations are the callbacks invoked, in order
    ensures HostLog(rt.executed, r.rt.executed, host, r.invoked)
    ensures cmdlet !in rt.registry ==>
      && r.outcome == (if r.beforeDispose.Hangs? then Hangs else Raised(InvalidOperation))
      && r.rt.registry == rt.registry[cmdlet := |rt.contexts|]
      && !r.rt.contexts[|rt.contexts|].disposed
  {
    r := RunStage(rt, cmdlet, host, syncThrow, script, PropagateAll);
    if r.context.None? {
      return;
    }
    var id := r.context.value;
    var reached := if syncThrow.Some? then Raised(syncThrow.value) else Verdict(r.drainError, r.status);
    r := r.(beforeDispose := reached, outcome := reached);
    if reached.Hangs? {
      return;
    }
    var disposed := Dispose(r.rt, id, host);
    if disposed.out.Throw? {
      r := r.(rt := disposed.rt, outcome := Raised(disposed.out.error));
    }
  }
}
