/**
 * `ConcurrentQueue<T>`: a facade that holds exactly one engine, chosen at construction and
 * never replaced, and forwards every operation to it by matching on the variant.
 */
module Queue {
  import opened Outcomes
  import QueueModel
  import Engines

  /** The engine variant a queue holds. */
  datatype Inner<T> = Bounded(bounded: Engines.Bounded<T>) | Unbounded(unbounded: Engines.Unbounded<T>)

  class ConcurrentQueue<T> {
    /** Fixed at construction, so the variant can never change. */
    const inner: Inner<T>
    /** The engine object, the only state the queue's operations change. */
    ghost const Repr: set<object>

    ghost predicate Valid()
      reads Repr
    {
      match inner
      case Bounded(q) => Repr == {q} && q.Valid()
      case Unbounded(q) => Repr == {q} && q.Valid()
    }

    /** The abstract state of the engine the queue holds. */
    function Model(): QueueModel.State<T>
      reads Repr
      requires Valid()
      ensures QueueModel.Valid(Model())
      ensures Model().cap.Some? <==> inner.Bounded?
    {
      match inner
      case Bounded(q) => q.Model()
      case Unbounded(q) => q.Model()
    }

    /** `ConcurrentQueue::bounded(cap)`: panics on a zero capacity, hence the precondition. */
    constructor Bounded(cap: nat)
      requires cap > 0
      ensures Valid() && fresh(Repr)
      ensures inner.Bounded? && Model() == QueueModel.State(Some(cap), [], false)
    {
      var q := new Engines.Bounded<T>(cap);
      inner := Inner.Bounded(q);
      Repr := {q};
    }

    /** `ConcurrentQueue::unbounded()`. */
    constructor Unbounded()
      ensures Valid() && fresh(Repr)
      ensures inner.Unbounded? && Model() == QueueModel.State(None, [], false)
    {
      var q := new Engines.Unbounded<T>();
      inner := Inner.Unbounded(q);
      Repr := {q};
    }

    /** Attempts to push `x`; a full or closed queue hands `x` back in the error. */
    method Push(x: T) returns (r: Result<(), PushError<T>>)
      requires Valid()
      modifies Repr
      ensures Valid()
      ensures (Model(), r) == QueueModel.Push(old(Model()), x)
    {
      match inner
      case Bounded(q) => r := q.Push(x);
      case Unbounded(q) => r := q.Push(x);
    }

    /** Attempts to pop the front item. */
    method Pop() returns (r: Result<T, PopError>)
      requires Valid()
      modifies Repr
      ensures Valid()
      ensures (Model(), r) == QueueModel.Pop(old(Model()))
    {
      match inner
      case Bounded(q) => r := q.Pop();
      case Unbounded(q) => r := q.Pop();
    }

    /** Closes the queue; `true` exactly when this call did the closing. */
    method Close() returns (didClose: bool)
      requires Valid()
      modifies Repr
      ensures Valid()
      ensures (Model(), didClose) == QueueModel.Close(old(Model()))
    {
      match inner
      case Bounded(q) => didClose := q.Close();
      case Unbounded(q) => didClose := q.Close();
    }

    /** The number of items in the queue; never above the capacity. */
    function Len(): (n: nat)
      reads Repr
      requires Valid()
      ensures n == |Model().items|
      ensures Capacity().Some? ==> n <= Capacity().value
    {
      match inner
      case Bounded(q) => q.Len()
      case Unbounded(q) => q.Len()
    }

    /** `Some(cap)` for a bounded queue, `None` for an unbounded one. */
    function Capacity(): (c: Option<nat>)
      reads Repr
      requires Valid()
      ensures c == Model().cap
      ensures inner.Bounded? ==> c == Some(inner.bounded.cap) && c.value > 0
      ensures inner.Unbounded? ==> c == None
    {
      match inner
      case Bounded(q) => Some(q.Capacity())
      case Unbounded(_) => None
    }

    /** Empty exactly when the length is zero. */
    predicate IsEmpty()
      reads Repr
      requires Valid()
      ensures IsEmpty() <==> Len() == 0
      ensures IsEmpty() <==> Model().items == []
    {
      match inner
      case Bounded(q) => q.IsEmpty()
      case Unbounded(q) => q.IsEmpty()
    }

    /** Full exactly when the queue is bounded and holds `cap` items; an unbounded queue never is. */
    predicate IsFull()
      reads Repr
      requires Valid()
      ensures IsFull() <==> Capacity() == Some(Len())
      ensures inner.Unbounded? ==> !IsFull()
    {
      match inner
      case Bounded(q) => q.IsFull()
      case Unbounded(q) => q.IsFull()
    }

    predicate IsClosed()
      reads Repr
      requires Valid()
      ensures IsClosed() <==> Model().closed
    {
      match inner
      case Bounded(q) => q.IsClosed()
      case Unbounded(q) => q.IsClosed()
    }
  }
}
