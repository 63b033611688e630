/** Cancellation sources and tokens. A token is cancelled as soon as any of
    the sources it listens to has been cancelled; a linked token listens to
    both of its parents and to its own source. */
module Cancellation {

  /** Sources the bridge allocates itself (`Internal`) are kept apart from
      sources owned by callers (`External`), so a fresh internal source can
      never have been cancelled by anybody. */
  datatype SourceId = Internal(n: nat) | External(n: nat)

  datatype Token = Token(sources: set<SourceId>)

  /** `CancellationToken.None`, the default token: nothing can cancel it. */
  const NoToken: Token := Token({})

  /** `token.IsCancellationRequested`, given the sources cancelled so far. */
  predicate IsCancellationRequested(t: Token, cancelled: set<SourceId>) {
    exists s :: s in t.sources && s in cancelled
  }

  /** The token of `CancellationTokenSource.CreateLinkedTokenSource(a, b)`,
      whose own source is `own`. */
  function LinkedToken(a: Token, b: Token, own: SourceId): (r: Token)
    ensures forall c :: IsCancellationRequested(r, c) <==>
      IsCancellationRequested(a, c) || IsCancellationRequested(b, c) || own in c
  {
    Token(a.sources + b.sources + {own})
  }

  /** Cancellation is permanent: once requested, it stays requested whatever
      else is cancelled later. */
  lemma CancellationIsPermanent(t: Token, before: set<SourceId>, after: set<SourceId>)
    requires before <= after
    requires IsCancellationRequested(t, before)
    ensures IsCancellationRequested(t, after)
  {
  }

  /** `CancellationToken.None` is never cancelled. */
  lemma NoTokenNeverCancelled(cancelled: set<SourceId>)
    ensures !IsCancellationRequested(NoToken, cancelled)
  {
  }
}
