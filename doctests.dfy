/**
 * The documented usage examples of `ConcurrentQueue`, written as clients of the facade. Each
 * method returns what the example observes, and its postcondition is the value the example
 * expects; the facade's contracts alone prove them.
 */
module Doctests {
  import opened Outcomes
  import opened Queue

  /** Crate-level example: an unbounded queue pops in push order. */
  method UnboundedOrder()
    returns (p1: Result<(), PushError<int>>, p2: Result<(), PushError<int>>,
             a: Result<int, PopError>, b: Result<int, PopError>)
    ensures p1 == Ok(()) && p2 == Ok(())
    ensures a == Ok(1) && b == Ok(2)
  {
    var q := new ConcurrentQueue<int>.Unbounded();
    p1 := q.Push(1);
    p2 := q.Push(2);
    a := q.Pop();
    b := q.Pop();
  }

  /** `ConcurrentQueue` example: capacity 2 takes two pushes, refuses the third with `Full`. */
  method BoundedTwo()
    returns (p1: Result<(), PushError<char>>, p2: Result<(), PushError<char>>,
             p3: Result<(), PushError<char>>,
             o1: Result<char, PopError>, o2: Result<char, PopError>, o3: Result<char, PopError>)
    ensures p1 == Ok(()) && p2 == Ok(()) && p3 == Err(PushError.Full('c'))
    ensures o1 == Ok('a') && o2 == Ok('b') && o3 == Err(PopError.Empty)
  {
    var q := new ConcurrentQueue<char>.Bounded(2);
    p1 := q.Push('a');
    p2 := q.Push('b');
    p3 := q.Push('c');
    o1 := q.Pop();
    o2 := q.Pop();
    o3 := q.Pop();
  }

  /** `push` example: `Full`, then `Closed` even once a pop has made room. */
  method PushExample()
    returns (p1: Result<(), PushError<int>>, p2: Result<(), PushError<int>>,
             p3: Result<(), PushError<int>>, o: Result<int, PopError>,
             p4: Result<(), PushError<int>>)
    ensures p1 == Ok(()) && p2 == Err(PushError.Full(20)) && p3 == Err(PushError.Closed(20))
    ensures o == Ok(10) && p4 == Err(PushError.Closed(20))
  {
    var q := new ConcurrentQueue<int>.Bounded(1);
    p1 := q.Push(10);
    p2 := q.Push(20);
    var _ := q.Close();
    p3 := q.Push(20);
    o := q.Pop();
    p4 := q.Push(20);
  }

  /** `pop` example: `Empty`, then the remaining item after closing, then `Closed`. */
  method PopExample()
    returns (o1: Result<int, PopError>, p: Result<(), PushError<int>>,
             o2: Result<int, PopError>, o3: Result<int, PopError>)
    ensures o1 == Err(PopError.Empty) && p == Ok(())
    ensures o2 == Ok(10) && o3 == Err(PopError.Closed)
  {
    var q := new ConcurrentQueue<int>.Bounded(1);
    o1 := q.Pop();
    p := q.Push(10);
    var _ := q.Close();
    o2 := q.Pop();
    o3 := q.Pop();
  }

  /** `is_empty` example. */
  method IsEmptyExample() returns (before: bool, p: Result<(), PushError<int>>, after: bool)
    ensures before && p == Ok(()) && !after
  {
    var q := new ConcurrentQueue<int>.Unbounded();
    before := q.IsEmpty();
    p := q.Push(1);
    after := q.IsEmpty();
  }

  /** `is_full` example. */
  method IsFullExample() returns (before: bool, p: Result<(), PushError<int>>, after: bool)
    ensures !before && p == Ok(()) && after
  {
    var q := new ConcurrentQueue<int>.Bounded(1);
    before := q.IsFull();
    p := q.Push(1);
    after := q.IsFull();
  }

  /** `len` example. */
  method LenExample()
    returns (l0: nat, p1: Result<(), PushError<int>>, l1: nat, p2: Result<(), PushError<int>>,
             l2: nat)
    ensures l0 == 0 && l1 == 1 && l2 == 2
    ensures p1 == Ok(()) && p2 == Ok(())
  {
    var q := new ConcurrentQueue<int>.Unbounded();
    l0 := q.Len();
    p1 := q.Push(10);
    l1 := q.Len();
    p2 := q.Push(20);
    l2 := q.Len();
  }

  /** `capacity` example. */
  method CapacityExample() returns (b: Option<nat>, u: Option<nat>)
    ensures b == Some(7) && u == None
  {
    var q := new ConcurrentQueue<int>.Bounded(7);
    b := q.Capacity();
    var r := new ConcurrentQueue<int>.Unbounded();
    u := r.Capacity();
  }

  /** `close` example: `true`, then `false`; pushes are refused, the item still drains. */
  method CloseExample()
    returns (p1: Result<(), PushError<int>>, c1: bool, c2: bool,
             p2: Result<(), PushError<int>>, o1: Result<int, PopError>, o2: Result<int, PopError>)
    ensures p1 == Ok(()) && c1 && !c2 && p2 == Err(PushError.Closed(20))
    ensures o1 == Ok(10) && o2 == Err(PopError.Closed)
  {
    var q := new ConcurrentQueue<int>.Unbounded();
    p1 := q.Push(10);
    c1 := q.Close();
    c2 := q.Close();
    p2 := q.Push(20);
    o1 := q.Pop();
    o2 := q.Pop();
  }

  /** `is_closed` example. */
  method IsClosedExample() returns (before: bool, after: bool)
    ensures !before && after
  {
    var q := new ConcurrentQueue<int>.Unbounded();
    before := q.IsClosed();
    var _ := q.Close();
    after := q.IsClosed();
  }
}
