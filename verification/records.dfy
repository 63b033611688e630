/** The small value types the prompting extensions return. Each is a
    readonly struct: a constructor storing its arguments, getters,
    `Deconstruct`, and for the results an implicit conversion to bool. */

/** `ShouldContinueResult` */
module ContinueResult {
  datatype ShouldContinueResult = ShouldContinueResult(result: bool, yesToAll: bool, noToAll: bool)

  /** `Deconstruct(out result, out yesToAll, out noToAll)` */
  function Deconstruct(r: ShouldContinueResult): (parts: (bool, bool, bool))
    ensures ShouldContinueResult(parts.0, parts.1, parts.2) == r
  {
    (r.result, r.yesToAll, r.noToAll)
  }

  /** `implicit operator bool`: the answer itself, whatever the "to all" flags say. */
  function ToBool(r: ShouldContinueResult): (b: bool)
    ensures b <==> Deconstruct(r).0
  {
    r.result
  }

  /** The conversion does not look at the "to all" flags. */
  lemma ToBoolIgnoresFlags(result: bool, y1: bool, n1: bool, y2: bool, n2: bool)
    ensures ToBool(ShouldContinueResult(result, y1, n1)) == ToBool(ShouldContinueResult(result, y2, n2)) == result
  {
  }

  /** Constructing and then deconstructing gives back the arguments in order. */
  lemma ConstructThenDeconstruct(result: bool, yesToAll: bool, noToAll: bool)
    ensures Deconstruct(ShouldContinueResult(result, yesToAll, noToAll)) == (result, yesToAll, noToAll)
  {
  }
}

/** `ShouldProcessResult` */
module ProcessResult {
  /** The host's `ShouldProcessReason` flags: none, or `-WhatIf` in effect. */
  datatype ShouldProcessReason = NoReason | WhatIf

  datatype ShouldProcessResult = ShouldProcessResult(result: bool, reason: ShouldProcessReason)

  /** `Deconstruct(out result, out reason)` */
  function Deconstruct(r: ShouldProcessResult): (parts: (bool, ShouldProcessReason))
    ensures ShouldProcessResult(parts.0, parts.1) == r
  {
    (r.result, r.reason)
  }

  /** `implicit operator bool`: the answer itself, whatever the reason. */
  function ToBool(r: ShouldProcessResult): (b: bool)
    ensures b <==> Deconstruct(r).0
  {
    r.result
  }

  /** The conversion does not look at the reason. */
  lemma ToBoolIgnoresReason(result: bool, reason1: ShouldProcessReason, reason2: ShouldProcessReason)
    ensures ToBool(ShouldProcessResult(result, reason1)) == ToBool(ShouldProcessResult(result, reason2)) == result
  {
  }

  /** Constructing and then deconstructing gives back the arguments in order. */
  lemma ConstructThenDeconstruct(result: bool, reason: ShouldProcessReason)
    ensures Deconstruct(ShouldProcessResult(result, reason)) == (result, reason)
  {
  }
}

/** `ShouldContinueContext`: the "yes to all" and "no to all" state that
    `ShouldContinue` threads from one call to the next. */
module ContinueContext {
  datatype ShouldContinueContext = ShouldContinueContext(yesToAll: bool, noToAll: bool)

  /** `Deconstruct(out yesToAll, out noToAll)` */
  function Deconstruct(c: ShouldContinueContext): (parts: (bool, bool))
    ensures ShouldContinueContext(parts.0, parts.1) == c
  {
    (c.yesToAll, c.noToAll)
  }

  /** Constructing and then deconstructing gives back the arguments in order. */
  lemma ConstructThenDeconstruct(yesToAll: bool, noToAll: bool)
    ensures Deconstruct(ShouldContinueContext(yesToAll, noToAll)) == (yesToAll, noToAll)
  {
  }
}
