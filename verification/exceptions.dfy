/** The exceptions the PSAsync bridge raises, catches or classifies, the
    Outcome of a call that may throw, and AggregateException flattening. */
module Exceptions {

  datatype Option<+T> = None | Some(value: T)

  /** The exception classes that matter to the bridge.
      `OperationCanceled` stands for OperationCanceledException together with
      its subclass TaskCanceledException; `PipelineStopped` carries an identity
      so that "the first one" is observable; `Failure` is any other exception
      raised by user code or by the host. */
  datatype Exn =
    | InvalidOperation
    | ObjectDisposed
    | ArgumentNull
    | Argument
    | OperationCanceled
    | PipelineStopped(id: nat)
    | Aggregate(inner: seq<Exn>)
    | Failure(code: nat)

  /** The result of a call: a value, or the exception it throws. */
  datatype Outcome<+T> = Ok(value: T) | Throw(error: Exn) {
    predicate IsFailure() {
      Throw?
    }

    function PropagateFailure<U>(): Outcome<U>
      requires Throw?
    {
      Throw(error)
    }

    function Extract(): T
      requires Ok?
    {
      value
    }
  }

  /** `e is OperationCanceledException` */
  predicate IsCancellation(e: Exn) {
    e == OperationCanceled
  }

  /** No element is itself an aggregate. */
  predicate NoAggregates(es: seq<Exn>) {
    forall i :: 0 <= i < |es| ==> !es[i].Aggregate?
  }

  /** `e` occurs in `es`, either directly or inside a nested aggregate. */
  predicate OccursIn(e: Exn, es: seq<Exn>)
    decreases es
  {
    if |es| == 0 then false
    else
      assert es[0] in es;
      e == es[0]
      || (es[0].Aggregate? && OccursIn(e, es[0].inner))
      || OccursIn(e, es[1..])
  }

  /** `e` is an element of `es`, or occurs inside an aggregate element. */
  lemma {:induction false} OccursInElement(e: Exn, es: seq<Exn>, j: int)
    requires 0 <= j < |es|
    requires e == es[j] || (es[j].Aggregate? && OccursIn(e, es[j].inner))
    ensures OccursIn(e, es)
    decreases j
  {
    if j > 0 {
      OccursInElement(e, es[1..], j - 1);
    }
  }

  /** The converse: an occurrence is at some element, directly or inside it. */
  lemma {:induction false} OccursAtElement(e: Exn, es: seq<Exn>) returns (j: nat)
    requires OccursIn(e, es)
    ensures j < |es| && (e == es[j] || (es[j].Aggregate? && OccursIn(e, es[j].inner)))
    decreases es
  {
    if e == es[0] || (es[0].Aggregate? && OccursIn(e, es[0].inner)) {
      j := 0;
    } else {
      var k := OccursAtElement(e, es[1..]);
      j := k + 1;
    }
  }

  /** The elements of `es` that are not aggregates, in order. */
  function Leaves(es: seq<Exn>): (r: seq<Exn>)
    ensures NoAggregates(r)
    ensures forall e :: e in r <==> e in es && !e.Aggregate?
    ensures NoAggregates(es) ==> r == es
  {
    if |es| == 0 then []
    else (if es[0].Aggregate? then [] else [es[0]]) + Leaves(es[1..])
  }

  /** The inner lists of the elements of `es` that are aggregates, in order. */
  function Nested(es: seq<Exn>): (r: seq<seq<Exn>>)
    ensures forall j :: 0 <= j < |es| && es[j].Aggregate? ==> es[j].inner in r
    ensures forall x :: x in r ==> exists j :: 0 <= j < |es| && es[j].Aggregate? && es[j].inner == x
    ensures NoAggregates(es) ==> r == []
  {
    if |es| == 0 then []
    else
      var r := (if es[0].Aggregate? then [es[0].inner] else []) + Nested(es[1..]);
      assert forall j :: 1 <= j < |es| ==> es[j] == es[1..][j - 1];
      r
  }

  /** The number of exceptions in `es`, nested ones included. */
  function Size(es: seq<Exn>): nat
    decreases es
  {
    if |es| == 0 then 0
    else
      assert es[0] in es;
      (if es[0].Aggregate? then 1 + Size(es[0].inner) else 1) + Size(es[1..])
  }

  /** The number of exceptions in a worklist of inner lists. */
  function QueueSize(pending: seq<seq<Exn>>): nat {
    if |pending| == 0 then 0 else Size(pending[0]) + QueueSize(pending[1..])
  }

  lemma {:induction false} QueueSizeAppend(a: seq<seq<Exn>>, b: seq<seq<Exn>>)
    ensures QueueSize(a + b) == QueueSize(a) + QueueSize(b)
    decreases |a|
  {
    if |a| > 0 {
      assert (a + b)[1..] == a[1..] + b;
      QueueSizeAppend(a[1..], b);
    } else {
      assert a + b == b;
    }
  }

  /** Replacing a list by the inner lists of its aggregates removes at least
      one exception per element. */
  lemma {:induction false} NestedIsSmaller(es: seq<Exn>)
    ensures QueueSize(Nested(es)) + |es| <= Size(es)
    decreases |es|
  {
    if |es| > 0 {
      NestedIsSmaller(es[1..]);
      var head: seq<seq<Exn>> := if es[0].Aggregate? then [es[0].inner] else [];
      QueueSizeAppend(head, Nested(es[1..]));
    }
  }

  /** The loop of `AggregateException.Flatten`: a FIFO worklist of inner
      lists still to visit. Visiting a list emits its non-aggregate elements
      in order and queues the inner lists of its aggregates behind the rest,
      so the flattening is breadth-first. */
  function FlattenQueue(pending: seq<seq<Exn>>): (r: seq<Exn>)
    ensures NoAggregates(r)
    decreases QueueSize(pending), |pending|
  {
    if |pending| == 0 then []
    else
      NestedIsSmaller(pending[0]);
      QueueSizeAppend(pending[1..], Nested(pending[0]));
      Leaves(pending[0]) + FlattenQueue(pending[1..] + Nested(pending[0]))
  }

  /** Everything `FlattenQueue` emits occurs in one of the pending lists. */
  lemma {:induction false} FlattenQueueSound(pending: seq<seq<Exn>>)
    ensures forall e :: e in FlattenQueue(pending) ==> exists i :: 0 <= i < |pending| && OccursIn(e, pending[i])
    decreases QueueSize(pending), |pending|
  {
    if |pending| > 0 {
      var p := pending[0];
      var next := pending[1..] + Nested(p);
      NestedIsSmaller(p);
      QueueSizeAppend(pending[1..], Nested(p));
      FlattenQueueSound(next);
      forall e | e in FlattenQueue(pending)
        ensures exists i :: 0 <= i < |pending| && OccursIn(e, pending[i])
      {
        if e in Leaves(p) {
          var j :| 0 <= j < |p| && p[j] == e;
          OccursInElement(e, p, j);
          assert OccursIn(e, pending[0]);
        } else {
          assert e in FlattenQueue(next);
          var i :| 0 <= i < |next| && OccursIn(e, next[i]);
          if i < |pending| - 1 {
            assert next[i] == pending[i + 1];
          } else {
            assert next[i] in Nested(p);
            var j :| 0 <= j < |p| && p[j].Aggregate? && p[j].inner == next[i];
            OccursInElement(e, p, j);
            assert OccursIn(e, pending[0]);
          }
        }
      }
    }
  }

  /** Every non-aggregate occurring in a pending list is emitted. */
  lemma {:induction false} FlattenQueueComplete(e: Exn, pending: seq<seq<Exn>>, i: nat)
    requires i < |pending| && OccursIn(e, pending[i]) && !e.Aggregate?
    ensures e in FlattenQueue(pending)
    decreases QueueSize(pending), |pending|
  {
    var p := pending[0];
    var next := pending[1..] + Nested(p);
    NestedIsSmaller(p);
    QueueSizeAppend(pending[1..], Nested(p));
    if i > 0 {
      assert next[i - 1] == pending[i];
      FlattenQueueComplete(e, next, i - 1);
    } else {
      var j := OccursAtElement(e, p);
      if e == p[j] {
        assert e in Leaves(p);
      } else {
        assert p[j].inner in Nested(p);
        var k :| 0 <= k < |Nested(p)| && Nested(p)[k] == p[j].inner;
        assert next[|pending| - 1 + k] == p[j].inner;
        FlattenQueueComplete(e, next, |pending| - 1 + k);
      }
    }
  }

  /** `new AggregateException(es).Flatten().InnerExceptions`: breadth-first,
      so the non-aggregate elements of `es` come first, in order, followed
      by what its aggregates contain, level by level. */
  function Flatten(es: seq<Exn>): (r: seq<Exn>)
    ensures NoAggregates(r)
    ensures Leaves(es) <= r
    ensures forall e :: e in r ==> OccursIn(e, es)
    ensures forall e :: e in es && !e.Aggregate? ==> e in r
  {
    FlattenQueueSound([es]);
    assert forall e :: e in es && !e.Aggregate? ==> e in Leaves(es);
    NestedIsSmaller(es);
    QueueSizeAppend([], Nested(es));
    FlattenQueue([es])
  }

  /** Flattening a list that holds no aggregate changes nothing. */
  lemma FlattenFlat(es: seq<Exn>)
    requires NoAggregates(es)
    ensures Flatten(es) == es
  {
    NestedIsSmaller(es);
    QueueSizeAppend([], Nested(es));
    assert [es][1..] + Nested(es) == [];
    assert FlattenQueue([es]) == Leaves(es) + FlattenQueue([]);
  }

  /** Flattening is idempotent. */
  lemma FlattenIdempotent(es: seq<Exn>)
    ensures Flatten(Flatten(es)) == Flatten(es)
  {
    FlattenFlat(Flatten(es));
  }

  /** Every exception that is not itself an aggregate survives flattening,
      however deeply it was nested. */
  lemma FlattenKeepsLeaves(e: Exn, es: seq<Exn>)
    requires OccursIn(e, es) && !e.Aggregate?
    ensures e in Flatten(es)
  {
    FlattenQueueComplete(e, [es], 0);
  }

  /** Breadth-first order: an exception directly inside the aggregate comes
      before one nested a level deeper, wherever they stand in the list. */
  lemma ShallowBeforeDeep()
    ensures Flatten([Aggregate([PipelineStopped(1)]), PipelineStopped(2)]) == [PipelineStopped(2), PipelineStopped(1)]
  {
    var es := [Aggregate([PipelineStopped(1)]), PipelineStopped(2)];
    assert Leaves(es) == [PipelineStopped(2)];
    assert Nested(es) == [[PipelineStopped(1)]];
    assert Leaves([PipelineStopped(1)]) == [PipelineStopped(1)];
    assert Nested([PipelineStopped(1)]) == [];
    NestedIsSmaller(es);
    QueueSizeAppend([], Nested(es));
    assert [es][1..] + Nested(es) == [[PipelineStopped(1)]];
    assert FlattenQueue([[PipelineStopped(1)]]) == [PipelineStopped(1)] by {
      NestedIsSmaller([PipelineStopped(1)]);
      QueueSizeAppend([], Nested([PipelineStopped(1)]));
      assert [[PipelineStopped(1)]][1..] + Nested([PipelineStopped(1)]) == [];
    }
  }

  /** `FirstOrDefault(e => e is PipelineStoppedException)` */
  function FirstPipelineStopped(es: seq<Exn>): (r: Option<Exn>)
    ensures r.None? <==> forall i :: 0 <= i < |es| ==> !es[i].PipelineStopped?
    ensures r.Some? ==>
      exists i :: 0 <= i < |es| && es[i] == r.value && r.value.PipelineStopped?
        && forall j :: 0 <= j < i ==> !es[j].PipelineStopped?
  {
    if |es| == 0 then None
    else if es[0].PipelineStopped? then Some(es[0])
    else
      var r := FirstPipelineStopped(es[1..]);
      assert r.Some? ==> (exists i :: 0 <= i < |es[1..]| && es[1..][i] == r.value
                            && forall j :: 0 <= j < i ==> !es[1..][j].PipelineStopped?);
      r
  }

  /** The first PipelineStoppedException is the one at the first index
      holding one. */
  lemma {:induction false} FirstPipelineStoppedAt(es: seq<Exn>, k: nat)
    requires k < |es| && es[k].PipelineStopped?
    requires forall j :: 0 <= j < k ==> !es[j].PipelineStopped?
    ensures FirstPipelineStopped(es) == Some(es[k])
    decreases k
  {
    if k > 0 {
      FirstPipelineStoppedAt(es[1..], k - 1);
    }
  }

  /** A PipelineStoppedException found in a prefix is found first in the whole. */
  lemma {:induction false} FirstPipelineStoppedAppend(a: seq<Exn>, b: seq<Exn>)
    requires FirstPipelineStopped(a).Some?
    ensures FirstPipelineStopped(a + b) == FirstPipelineStopped(a)
    decreases |a|
  {
    if !a[0].PipelineStopped? {
      assert (a + b)[1..] == a[1..] + b;
      FirstPipelineStoppedAppend(a[1..], b);
    }
  }

  /** Dropping the aggregates of a list does not change its first
      PipelineStoppedException. */
  lemma {:induction false} FirstPipelineStoppedLeaves(es: seq<Exn>)
    ensures FirstPipelineStopped(Leaves(es)) == FirstPipelineStopped(es)
    decreases |es|
  {
    if |es| > 0 {
      FirstPipelineStoppedLeaves(es[1..]);
      if es[0].Aggregate? {
        assert Leaves(es) == Leaves(es[1..]);
      } else {
        assert Leaves(es) == [es[0]] + Leaves(es[1..]);
        assert ([es[0]] + Leaves(es[1..]))[1..] == Leaves(es[1..]);
      }
    }
  }

  /** `exceptions.Any(e => !(e is OperationCanceledException))` */
  predicate AnyNonCancellation(es: seq<Exn>) {
    exists i :: 0 <= i < |es| && !IsCancellation(es[i])
  }
}
