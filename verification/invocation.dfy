/** `AsyncCmdletInvocationExtensions`: the entry points a cmdlet's
    `BeginProcessing`, `ProcessRecord`, `EndProcessing` and `StopProcessing`
    call. */
module Invocation {
  import opened Exceptions
  import opened Cancellation
  import opened Host
  import opened CmdletContext
  import opened StageDrain
  import opened Accessor
  import MethodRunner

  /** The process-wide state: contexts with their registry, and the accessor cache. */
  datatype World = World(rt: Runtime, accessors: Cache)

  ghost predicate WorldValid(w: World) {
    Valid(w.rt) && CacheCoherent(w.accessors)
  }

  /** One stage entry point: the world afterwards, the runner's run if it
      ran, the stage method the async delegate called if it was called, and
      how the entry point ends. */
  datatype StageResult = StageResult(
    world: World,
    run: Option<StageRun>,
    call: Option<(CmdletType, Stage)>,
    outcome: StageOutcome)

  /** `Do{BeginProcessing,ProcessRecord,EndProcessing}Async(cmdlet)` on
      thread `host`, for a cmdlet of type `t`. A null cmdlet is rejected; a
      type that fails validation throws ArgumentException; a stage whose
      method is not implemented returns without creating a context; an
      implemented stage runs `DoAsyncOperation` once, whose async method
      calls exactly that stage's method. */
  method DoProcessingAsync(w: World, stage: Stage, cmdlet: Option<Cmdlet>, t: CmdletType, host: ThreadId,
                           syncThrow: Option<Exn>, script: seq<Event>)
    returns (r: StageResult)
    requires WorldValid(w)
    ensures WorldValid(r.world)
    ensures cmdlet.None? ==> r == StageResult(w, None, None, Raised(ArgumentNull))
    ensures cmdlet.Some? && GetAccessor(w.accessors, t).out.Throw? ==>
      r == StageResult(w, None, None, Raised(Argument))
    ensures cmdlet.Some? && GetAccessor(w.accessors, t).out.Ok? ==> t in r.world.accessors
    ensures cmdlet.Some? && GetAccessor(w.accessors, t).out.Ok? && !IsImplemented(Target(t, stage)) ==>
      r.world.rt == w.rt && r.run.None? && r.call.None? && r.outcome == Returned
    ensures cmdlet.Some? && GetAccessor(w.accessors, t).out.Ok? && IsImplemented(Target(t, stage)) ==>
      && r.run.Some?
      && r.world.rt == r.run.value.rt
      && r.outcome == r.run.value.outcome
      && (r.call.Some? <==> r.run.value.context.Some?)
      && (r.call.Some? ==> r.call.value == (t, stage))
    ensures cmdlet.Some? && GetAccessor(w.accessors, t).out.Ok? && IsImplemented(Target(t, stage)) &&
            cmdlet.value in w.rt.registry ==>
      r.world.rt == w.rt && r.call.None? && r.outcome == Raised(InvalidOperation)
    ensures cmdlet.Some? && GetAccessor(w.accessors, t).out.Ok? && IsImplemented(Target(t, stage)) &&
            cmdlet.value !in w.rt.registry ==>
      r.run.Some? && StartedStage(w.rt, cmdlet.value, host, r.run.value) && r.call.Some?
  {
    if cmdlet.None? {
      return StageResult(w, None, None, Raised(ArgumentNull));
    }
    var lookup := GetAccessor(w.accessors, t);
    if lookup.out.Throw? {
      return StageResult(w, None, None, Raised(lookup.out.error));
    }
    var (a, implemented) := IsStageImplemented(lookup.out.value, stage);
    var cache := lookup.cache[t := a];
    if !implemented {
      return StageResult(World(w.rt, cache), None, None, Returned);
    }
    var run := MethodRunner.DoAsyncOperation(w.rt, cmdlet.value, host, syncThrow, script);
    var call := None;
    if run.context.Some? {
      var (a2, c) := DoStageAsync(a, stage);
      cache := cache[t := a2];
      call := c;
    }
    r := StageResult(World(run.rt, cache), Some(run), call, run.outcome);
  }

  /** `CancelAsyncOperation(cmdlet)`: a null cmdlet is rejected; with no
      live context it does nothing; otherwise it cancels exactly that
      context's source. */
  function CancelAsyncOperation(rt: Runtime, cmdlet: Option<Cmdlet>): (r: Step<()>)
    requires Valid(rt)
    ensures Valid(r.rt)
    ensures cmdlet.None? ==> r == Step(rt, Throw(ArgumentNull))
    ensures cmdlet.Some? && TryGetContext(rt, cmdlet.value).None? ==> r == Step(rt, Ok(()))
    ensures cmdlet.Some? && TryGetContext(rt, cmdlet.value).Some? ==>
      && r.out.Ok?
      && Grows(rt, r.rt)
      && r.rt.cancelled == rt.cancelled + {rt.contexts[rt.registry[cmdlet.value]].cts}
  {
    match cmdlet
    case None => Step(rt, Throw(ArgumentNull))
    case Some(c) =>
      match TryGetContext(rt, c)
      case None => Step(rt, Ok(()))
      case Some(id) => Step(CancelAsyncOperations(rt, id), Ok(()))
  }

  /** `CancelAsyncOperation` reaches the running stage: the token the
      stage's async method received now reports cancellation, and the
      effect is the one the drain loop gives the host's `Stop`. */
  lemma CancelAsyncOperationStopsStage(rt: Runtime, cmdlet: Cmdlet, task: Option<TaskStatus>)
    requires Valid(rt) && cmdlet in rt.registry && !rt.contexts[rt.registry[cmdlet]].disposed
    ensures var id := rt.registry[cmdlet];
      && IsCancellationRequested(GetCancellationToken(rt, id).value, CancelAsyncOperation(rt, Some(cmdlet)).rt.cancelled)
      && CancelAsyncOperation(rt, Some(cmdlet)).rt == ApplyEvent(rt, id, cmdlet, Stop, task).0
  {
  }
}
