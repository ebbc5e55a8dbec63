/**
 * The two engines a `ConcurrentQueue` forwards to, seen sequentially. Their lock-free
 * storage (a ring of stamped slots, a chain of blocks) is abstracted to the FIFO contents and
 * the closed bit it represents; each engine is proved to honour the shared contract of
 * `QueueModel`.
 */
module Engines {
  import opened Outcomes
  import QueueModel

  /** The bounded engine: a fixed capacity, chosen at construction. */
  class Bounded<T> {
    const cap: nat
    var items: seq<T>
    var closed: bool

    /** The abstract state this engine represents. */
    function Model(): QueueModel.State<T>
      reads this
    {
      QueueModel.State(Some(cap), items, closed)
    }

    ghost predicate Valid()
      reads this
    {
      QueueModel.Valid(Model())
    }

    /** `Bounded::new(cap)`; a capacity of zero is refused (the source panics). */
    constructor (cap: nat)
      requires cap > 0
      ensures Valid() && Model() == QueueModel.State(Some(cap), [], false)
    {
      this.cap := cap;
      items := [];
      closed := false;
    }

    method Push(x: T) returns (r: Result<(), PushError<T>>)
      requires Valid()
      modifies this
      ensures Valid()
      ensures (Model(), r) == QueueModel.Push(old(Model()), x)
    {
      if closed {
        r := Err(PushError.Closed(x));
      } else if |items| == cap {
        r := Err(PushError.Full(x));
      } else {
        items := items + [x];
        r := Ok(());
      }
    }

    method Pop() returns (r: Result<T, PopError>)
      requires Valid()
      modifies this
      ensures Valid()
      ensures (Model(), r) == QueueModel.Pop(old(Model()))
    {
      if items != [] {
        r := Ok(items[0]);
        items := items[1..];
      } else if closed {
        r := Err(PopError.Closed);
      } else {
        r := Err(PopError.Empty);
      }
    }

    method Close() returns (didClose: bool)
      requires Valid()
      modifies this
      ensures Valid()
      ensures (Model(), didClose) == QueueModel.Close(old(Model()))
    {
      didClose := !closed;
      closed := true;
    }

    function Len(): (n: nat)
      reads this
      requires Valid()
      ensures n == QueueModel.Len(Model()) && n <= cap
    {
      |items|
    }

    function Capacity(): (n: nat)
      reads this
      requires Valid()
      ensures Some(n) == Model().cap && n > 0
    {
      cap
    }

    predicate IsEmpty()
      reads this
      requires Valid()
      ensures IsEmpty() <==> QueueModel.IsEmpty(Model())
    {
      |items| == 0
    }

    predicate IsFull()
      reads this
      requires Valid()
      ensures IsFull() <==> QueueModel.IsFull(Model())
    {
      |items| == cap
    }

    predicate IsClosed()
      reads this
      requires Valid()
      ensures IsClosed() <==> Model().closed
    {
      closed
    }
  }

  /** The unbounded engine: it grows on demand and is never full. */
  class Unbounded<T> {
    var items: seq<T>
    var closed: bool

    function Model(): QueueModel.State<T>
      reads this
    {
      QueueModel.State(None, items, closed)
    }

    ghost predicate Valid()
      reads this
    {
      QueueModel.Valid(Model())
    }

    /** `Unbounded::new()`. */
    constructor ()
      ensures Valid() && Model() == QueueModel.State(None, [], false)
    {
      items := [];
      closed := false;
    }

    method Push(x: T) returns (r: Result<(), PushError<T>>)
      requires Valid()
      modifies this
      ensures Valid()
      ensures (Model(), r) == QueueModel.Push(old(Model()), x)
    {
      if closed {
        r := Err(PushError.Closed(x));
      } else {
        items := items + [x];
        r := Ok(());
      }
    }

    method Pop() returns (r: Result<T, PopError>)
      requires Valid()
      modifies this
      ensures Valid()
      ensures (Model(), r) == QueueModel.Pop(old(Model()))
    {
      if items != [] {
        r := Ok(items[0]);
        items := items[1..];
      } else if closed {
        r := Err(PopError.Closed);
      } else {
        r := Err(PopError.Empty);
      }
    }

    method Close() returns (didClose: bool)
      requires Valid()
      modifies this
      ensures Valid()
      ensures (Model(), didClose) == QueueModel.Close(old(Model()))
    {
      didClose := !closed;
      closed := true;
    }

    function Len(): (n: nat)
      reads this
      requires Valid()
      ensures n == QueueModel.Len(Model())
    {
      |items|
    }

    predicate IsEmpty()
      reads this
      requires Valid()
      ensures IsEmpty() <==> QueueModel.IsEmpty(Model())
    {
      |items| == 0
    }

    /** Always `false`: an unbounded queue is never full. */
    predicate IsFull()
      reads this
      requires Valid()
      ensures IsFull() <==> QueueModel.IsFull(Model())
      ensures !IsFull()
    {
      false
    }

    predicate IsClosed()
      reads this
      requires Valid()
      ensures IsClosed() <==> Model().closed
    {
      closed
    }
  }
}
