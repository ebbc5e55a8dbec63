/**
 * The sequential contract that both engines of a `ConcurrentQueue` honour, as a state machine
 * on values. A queue is observed through its FIFO contents, its capacity (`None` for the
 * unbounded engine) and a closed bit that is never cleared.
 */
module QueueModel {
  import opened Outcomes

  /** Observable state: `items[0]` is the next item `pop` returns. */
  datatype State<T> = State(cap: Option<nat>, items: seq<T>, closed: bool)

  /** A bounded queue has a positive capacity that its contents never exceed. */
  predicate Valid<T>(s: State<T>) {
    match s.cap
    case None => true
    case Some(n) => 0 < n && |s.items| <= n
  }

  function Len<T>(s: State<T>): nat {
    |s.items|
  }

  predicate IsEmpty<T>(s: State<T>) {
    s.items == []
  }

  /** Only a bounded queue can be full: when it holds exactly `cap` items. */
  predicate IsFull<T>(s: State<T>) {
    s.cap.Some? && |s.items| == s.cap.value
  }

  /**
   * `push`: a closed queue refuses with `Closed`, whatever room it has; an open full queue
   * refuses with `Full`; otherwise the item joins the back of the queue.
   */
  function Push<T>(s: State<T>, x: T): (r: (State<T>, Result<(), PushError<T>>))
    ensures r.0.cap == s.cap && r.0.closed == s.closed
    ensures r.1.Ok? <==> !s.closed && !IsFull(s)
    ensures r.1.Ok? ==> r.0.items == s.items + [x] && Len(r.0) == Len(s) + 1
    ensures r.1.Err? ==> r.0 == s && r.1.error.item == x
    ensures r.1.Err? ==> (r.1.error.Closed? <==> s.closed)
    ensures s.cap.None? ==> r.1 != Err(PushError.Full(x))
    ensures Valid(s) ==> Valid(r.0)
  {
    if s.closed then (s, Err(PushError.Closed(x)))
    else if IsFull(s) then (s, Err(PushError.Full(x)))
    else (s.(items := s.items + [x]), Ok(()))
  }

  /**
   * `pop`: the front item if there is one, closed or not; on an empty queue `Closed` if the
   * queue is closed and `Empty` if it is not.
   */
  function Pop<T>(s: State<T>): (r: (State<T>, Result<T, PopError>))
    ensures r.0.cap == s.cap && r.0.closed == s.closed
    ensures r.1.Ok? <==> !IsEmpty(s)
    ensures r.1.Ok? ==> s.items == [r.1.value] + r.0.items && Len(r.0) + 1 == Len(s)
    ensures r.1.Err? ==> r.0 == s && (r.1.error == PopError.Closed <==> s.closed)
    ensures Valid(s) ==> Valid(r.0)
  {
    if s.items != [] then (s.(items := s.items[1..]), Ok(s.items[0]))
    else if s.closed then (s, Err(PopError.Closed))
    else (s, Err(PopError.Empty))
  }

  /** `close`: sets the closed bit and reports whether this call was the one that set it. */
  function Close<T>(s: State<T>): (r: (State<T>, bool))
    ensures r.1 <==> !s.closed
    ensures r.0.closed && r.0.items == s.items && r.0.cap == s.cap
    ensures Valid(s) ==> Valid(r.0)
  {
    (s.(closed := true), !s.closed)
  }
}
