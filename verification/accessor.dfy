/** `AsyncCmdletAccessor`: per cmdlet type, whether each pipeline stage's
    async method is really implemented, decided once per stage and cached
    per type. Reflection is replaced by descriptors: a type lists, for each
    stage, the method its interface map targets. */
module Accessor {
  import opened Exceptions

  datatype Stage = BeginProcessing | ProcessRecord | EndProcessing

  /** A target method as reflection sees it: whether it is the interface's
      own default, and the `Skip` value of the SkipImplementationCheckAttribute
      declared on the method itself, if any. The attribute is not inherited,
      so an override carries one only when it declares it again. */
  datatype MethodInfo = MethodInfo(declaredOnInterface: bool, skip: Option<bool>)

  /** `[SkipImplementationCheck]` written without arguments: `Skip` is true. */
  const SkipImplementationCheck: Option<bool> := Some(true)

  /** A cmdlet type: its identity, whether it derives from `Cmdlet`, whether
      it implements `IAsyncCmdlet`, and the target of each stage method. */
  datatype CmdletType = CmdletType(
    name: nat,
    isCmdletSubclass: bool,
    isAsyncCmdlet: bool,
    begin: MethodInfo,
    process: MethodInfo,
    end: MethodInfo)

  function Target(t: CmdletType, stage: Stage): MethodInfo {
    match stage
    case BeginProcessing => t.begin
    case ProcessRecord => t.process
    case EndProcessing => t.end
  }

  /** `IsImplemented(MethodInfo)`: the interface's default is not an
      implementation; a method without the attribute is; a method with it is
      exactly when its `Skip` is false. */
  function IsImplemented(m: MethodInfo): (r: bool)
    ensures m.declaredOnInterface ==> !r
    ensures !m.declaredOnInterface ==> (r <==> m.skip.None? || !m.skip.value)
  {
    if m.declaredOnInterface then false
    else if m.skip.None? then true
    else !m.skip.value
  }

  /** A method `AsyncCmdlet` declares with `[SkipImplementationCheck]` and
      an empty body counts as not implemented; an override of it that does
      not repeat the attribute counts as implemented. */
  lemma BaseDefaultsAreSkipped()
    ensures !IsImplemented(MethodInfo(false, SkipImplementationCheck))
    ensures IsImplemented(MethodInfo(false, None))
    ensures !IsImplemented(MethodInfo(true, None))
  {
  }

  /** `AsyncPipelineMethod`: `NotImplemented` has no delegate; otherwise the
      compiled delegate calls the target of `stage` on an instance of `cmdletType`. */
  datatype PipelineMethod = NotImplemented | Implemented(cmdletType: CmdletType, stage: Stage)

  /** `GetAsyncCmdletMethod` (and the three `Get*Async` helpers over it). */
  function GetAsyncCmdletMethod(t: CmdletType, stage: Stage): (r: PipelineMethod)
    ensures r.Implemented? <==> IsImplemented(Target(t, stage))
    ensures r.Implemented? ==> r.cmdletType == t && r.stage == stage
  {
    if IsImplemented(Target(t, stage)) then Implemented(t, stage) else NotImplemented
  }

  /** A `Lazy<AsyncPipelineMethod>`. */
  datatype Lazy = Unevaluated | Evaluated(value: PipelineMethod)

  /** One accessor: its type and the three lazies. */
  datatype TypeAccessor = TypeAccessor(cmdletType: CmdletType, begin: Lazy, process: Lazy, end: Lazy)

  function Slot(a: TypeAccessor, stage: Stage): Lazy {
    match stage
    case BeginProcessing => a.begin
    case ProcessRecord => a.process
    case EndProcessing => a.end
  }

  /** Every lazy that has a value holds what its factory computes. */
  predicate Coherent(a: TypeAccessor) {
    forall stage: Stage :: Slot(a, stage).Evaluated? ==>
      Slot(a, stage).value == GetAsyncCmdletMethod(a.cmdletType, stage)
  }

  /** The private constructor: nothing is computed yet. */
  function NewAccessor(t: CmdletType): (r: TypeAccessor)
    ensures r.cmdletType == t && Coherent(r)
    ensures forall stage: Stage :: Slot(r, stage).Unevaluated?
  {
    TypeAccessor(t, Unevaluated, Unevaluated, Unevaluated)
  }

  /** The result of reading a lazy: the accessor afterwards, the value, and
      whether the factory ran. */
  datatype Forced = Forced(accessor: TypeAccessor, value: PipelineMethod, computed: bool)

  /** `Lazy.Value` of one stage: the factory runs only on the first read. */
  function Force(a: TypeAccessor, stage: Stage): (r: Forced)
    requires Coherent(a)
    ensures Coherent(r.accessor) && r.accessor.cmdletType == a.cmdletType
    ensures r.value == GetAsyncCmdletMethod(a.cmdletType, stage)
    ensures r.computed <==> Slot(a, stage).Unevaluated?
    ensures Slot(r.accessor, stage) == Evaluated(r.value)
    ensures forall other: Stage :: other != stage ==> Slot(r.accessor, other) == Slot(a, other)
  {
    match Slot(a, stage)
    case Evaluated(v) => Forced(a, v, false)
    case Unevaluated =>
      var v := GetAsyncCmdletMethod(a.cmdletType, stage);
      var a' := match stage
        case BeginProcessing => a.(begin := Evaluated(v))
        case ProcessRecord => a.(process := Evaluated(v))
        case EndProcessing => a.(end := Evaluated(v));
      Forced(a', v, true)
  }

  /** Each stage's information is computed at most once per accessor: a
      second read returns the same value, runs nothing and changes nothing. */
  lemma ForceOnce(a: TypeAccessor, stage: Stage)
    requires Coherent(a)
    ensures var first := Force(a, stage);
      Force(first.accessor, stage) == Forced(first.accessor, first.value, false)
  {
  }

  /** `Is{BeginProcessing,ProcessRecord,EndProcessing}AsyncImplemented`. */
  function IsStageImplemented(a: TypeAccessor, stage: Stage): (r: (TypeAccessor, bool))
    requires Coherent(a)
    ensures Coherent(r.0) && r.0.cmdletType == a.cmdletType
    ensures r.1 <==> IsImplemented(Target(a.cmdletType, stage))
    ensures Slot(r.0, stage).Evaluated?
  {
    var f := Force(a, stage);
    (f.accessor, f.value.Implemented?)
  }

  /** `InvokeWithTraceActivity`: a method that is not implemented gives
      `Task.CompletedTask` without calling anything; otherwise its delegate
      is called once and its task returned. The result is the call made. */
  function InvokeWithTraceActivity(m: PipelineMethod): (r: Option<(CmdletType, Stage)>)
    ensures r.None? <==> m.NotImplemented?
    ensures r.Some? ==> r.value == (m.cmdletType, m.stage)
  {
    match m
    case NotImplemented => None
    case Implemented(t, stage) => Some((t, stage))
  }

  /** `Do{BeginProcessing,ProcessRecord,EndProcessing}Async` on the
      accessor: the stage's lazy value passed to `InvokeWithTraceActivity`. */
  function DoStageAsync(a: TypeAccessor, stage: Stage): (r: (TypeAccessor, Option<(CmdletType, Stage)>))
    requires Coherent(a)
    ensures Coherent(r.0) && r.0.cmdletType == a.cmdletType
    ensures r.1.Some? <==> IsImplemented(Target(a.cmdletType, stage))
    ensures r.1.Some? ==> r.1.value == (a.cmdletType, stage)
  {
    var f := Force(a, stage);
    (f.accessor, InvokeWithTraceActivity(f.value))
  }

  /** `ValidateCmdletType`: ArgumentException unless the type both derives
      from `Cmdlet` and implements `IAsyncCmdlet`. */
  function ValidateCmdletType(t: CmdletType): (r: Outcome<()>)
    ensures r.Ok? <==> t.isCmdletSubclass && t.isAsyncCmdlet
    ensures r.Throw? ==> r.error == Argument
  {
    if t.isCmdletSubclass && t.isAsyncCmdlet then Ok(()) else Throw(Argument)
  }

  /** The static `_accessors` dictionary. */
  type Cache = map<CmdletType, TypeAccessor>

  /** Only types that passed validation are cached, each with its own accessor. */
  predicate CacheCoherent(cache: Cache) {
    forall t :: t in cache ==> ValidateCmdletType(t).Ok? && cache[t].cmdletType == t && Coherent(cache[t])
  }

  /** The result of `GetAccessor`: the dictionary afterwards and the accessor
      or the exception. */
  datatype Lookup = Lookup(cache: Cache, out: Outcome<TypeAccessor>)

  /** `GetAccessor`: a cached type returns its accessor without validating
      again; an uncached type is validated, and on success a fresh accessor
      is cached and returned. */
  function GetAccessor(cache: Cache, t: CmdletType): (r: Lookup)
    requires CacheCoherent(cache)
    ensures CacheCoherent(r.cache)
    ensures t in cache ==> r == Lookup(cache, Ok(cache[t]))
    ensures t !in cache && ValidateCmdletType(t).Throw? ==> r == Lookup(cache, Throw(Argument))
    ensures t !in cache && ValidateCmdletType(t).Ok? ==>
      && r.out == Ok(NewAccessor(t))
      && r.cache == cache[t := NewAccessor(t)]
  {
    if t in cache then Lookup(cache, Ok(cache[t]))
    else match ValidateCmdletType(t)
      case Throw(e) => Lookup(cache, Throw(e))
      case Ok(_) => Lookup(cache[t := NewAccessor(t)], Ok(NewAccessor(t)))
  }

  /** Memoisation: once `GetAccessor` has succeeded for a type, asking again
      returns the very accessor it cached and changes nothing; a type that
      fails validation is never cached. */
  lemma GetAccessorMemoises(cache: Cache, t: CmdletType)
    requires CacheCoherent(cache)
    ensures var first := GetAccessor(cache, t);
      first.out.Ok? ==> GetAccessor(first.cache, t) == Lookup(first.cache, first.out)
    ensures var first := GetAccessor(cache, t);
      first.out.Throw? ==> t !in first.cache && first.cache == cache
  {
  }

  /** The accessor a cached type has is for that type: the whole answer of
      `GetAccessor` depends on the type only until it is cached. */
  lemma ValidTypeAlwaysGetsAccessor(cache: Cache, t: CmdletType)
    requires CacheCoherent(cache)
    requires t.isCmdletSubclass && t.isAsyncCmdlet
    ensures GetAccessor(cache, t).out.Ok?
    ensures GetAccessor(cache, t).out.value.cmdletType == t
  {
  }
}
