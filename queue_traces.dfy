/**
 * Sequences of operations on one queue, run one after another, and the properties the queue
 * keeps over any such sequence: FIFO delivery with nothing lost or duplicated, the capacity
 * bound, a closed bit that only goes from unset to set, and `close` returning `true` once.
 */
module QueueTraces {
  import opened Outcomes
  import opened QueueModel

  /** A call on the queue. */
  datatype Op<T> = PushOp(x: T) | PopOp | CloseOp

  /** What the call returned. */
  datatype Reply<T> =
    | Pushed(pushed: Result<(), PushError<T>>)
    | Popped(popped: Result<T, PopError>)
    | Closing(didClose: bool)

  function Step<T>(s: State<T>, op: Op<T>): (State<T>, Reply<T>) {
    match op
    case PushOp(x) => var r := Push(s, x); (r.0, Pushed(r.1))
    case PopOp => var r := Pop(s); (r.0, Popped(r.1))
    case CloseOp => var r := Close(s); (r.0, Closing(r.1))
  }

  /** Runs `ops` in order from `s`; one reply per call. */
  function Run<T>(s: State<T>, ops: seq<Op<T>>): (r: (State<T>, seq<Reply<T>>))
    ensures |r.1| == |ops|
    decreases |ops|
  {
    if ops == [] then (s, [])
    else
      var first := Step(s, ops[0]);
      var rest := Run(first.0, ops[1..]);
      (rest.0, [first.1] + rest.1)
  }

  /** The item a call added to the queue, if it was a successful push. */
  function AcceptedBy<T>(op: Op<T>, reply: Reply<T>): seq<T> {
    if op.PushOp? && reply == Pushed(Ok(())) then [op.x] else []
  }

  /** The item a call took from the queue, if it was a successful pop. */
  function DeliveredBy<T>(reply: Reply<T>): seq<T> {
    if reply.Popped? && reply.popped.Ok? then [reply.popped.value] else []
  }

  /** The items whose push succeeded, in call order. */
  function Accepted<T>(ops: seq<Op<T>>, replies: seq<Reply<T>>): seq<T>
    requires |ops| == |replies|
  {
    if ops == [] then [] else AcceptedBy(ops[0], replies[0]) + Accepted(ops[1..], replies[1..])
  }

  /** The items that pops returned, in call order. */
  function Delivered<T>(replies: seq<Reply<T>>): seq<T> {
    if replies == [] then [] else DeliveredBy(replies[0]) + Delivered(replies[1..])
  }

  /** Pushes of the items of `xs`, in order. */
  function Pushes<T>(xs: seq<T>): (ops: seq<Op<T>>)
    ensures |ops| == |xs|
  {
    if xs == [] then [] else [PushOp(xs[0])] + Pushes(xs[1..])
  }

  /** `n` pops. */
  function Pops<T>(n: nat): (ops: seq<Op<T>>)
    ensures |ops| == n
  {
    if n == 0 then [] else [PopOp] + Pops(n - 1)
  }

  predicate IsFullReply<T>(r: Reply<T>) {
    r.Pushed? && r.pushed.Err? && r.pushed.error.Full?
  }

  /** One step of `Run`: the first call's reply, then the replies of the rest. */
  lemma RunCons<T>(s: State<T>, ops: seq<Op<T>>)
    requires ops != []
    ensures var (s1, r1) := Step(s, ops[0]);
            Run(s, ops) == (Run(s1, ops[1..]).0, [r1] + Run(s1, ops[1..]).1)
  {
  }

  /**
   * No loss, no duplication, FIFO: what was delivered followed by what is still queued is
   * exactly what was queued at the start followed by every accepted item.
   */
  lemma {:induction false} Conservation<T>(s: State<T>, ops: seq<Op<T>>)
    ensures Delivered(Run(s, ops).1) + Run(s, ops).0.items == s.items + Accepted(ops, Run(s, ops).1)
    decreases |ops|
  {
    if ops != [] {
      RunCons(s, ops);
      var first := Step(s, ops[0]);
      var rest := Run(first.0, ops[1..]);
      var all := Run(s, ops).1;
      assert all == [first.1] + rest.1;
      assert all[0] == first.1 && all[1..] == rest.1;
      Conservation(first.0, ops[1..]);
      StepConserves(s, ops[0]);
      assert Delivered(all) == DeliveredBy(first.1) + Delivered(rest.1);
      assert Accepted(ops, all) == AcceptedBy(ops[0], first.1) + Accepted(ops[1..], rest.1);
      Regroup(DeliveredBy(first.1), Delivered(rest.1), rest.0.items, first.0.items,
              Accepted(ops[1..], rest.1), s.items, AcceptedBy(ops[0], first.1));
    }
  }

  /** Sequence bookkeeping for one step of the conservation proof. */
  lemma Regroup<T>(took: seq<T>, tookLater: seq<T>, last: seq<T>, mid: seq<T>,
                   addedLater: seq<T>, first: seq<T>, added: seq<T>)
    requires tookLater + last == mid + addedLater
    requires took + mid == first + added
    ensures (took + tookLater) + last == first + (added + addedLater)
  {
    calc {
      (took + tookLater) + last;
      took + (tookLater + last);
      took + (mid + addedLater);
      (took + mid) + addedLater;
      (first + added) + addedLater;
    }
  }

  /**
   * One call: what it took out, then what is queued after it, equals what was queued
   * before it, then what it added.
   */
  lemma StepConserves<T>(s: State<T>, op: Op<T>)
    ensures DeliveredBy(Step(s, op).1) + Step(s, op).0.items == s.items + AcceptedBy(op, Step(s, op).1)
  {
    match op
    case PushOp(x) =>
    case PopOp =>
      if s.items != [] {
        assert s.items == [s.items[0]] + s.items[1..];
      }
    case CloseOp =>
  }

  /**
   * Over any run: the capacity never changes, the bound `0 <= len <= cap` is kept, and the
   * closed bit is set at the end exactly when it was set at the start or some call closed.
   */
  lemma {:induction false} RunInvariants<T>(s: State<T>, ops: seq<Op<T>>)
    ensures Run(s, ops).0.cap == s.cap
    ensures Valid(s) ==> Valid(Run(s, ops).0)
    ensures Run(s, ops).0.closed <==> s.closed || CloseOp in ops
    decreases |ops|
  {
    if ops != [] {
      var (s1, r1) := Step(s, ops[0]);
      RunInvariants(s1, ops[1..]);
      assert ops == [ops[0]] + ops[1..];
      assert CloseOp in ops <==> ops[0] == CloseOp || CloseOp in ops[1..];
    }
  }

  /**
   * `close` returns `true` exactly when no earlier call had closed the queue, so over any run
   * at most one `close` returns `true`.
   */
  lemma {:induction false} CloseRepliesOnce<T>(s: State<T>, ops: seq<Op<T>>)
    ensures forall i :: 0 <= i < |ops| && ops[i] == CloseOp ==>
              Run(s, ops).1[i] == Closing(!s.closed && CloseOp !in ops[..i])
    decreases |ops|
  {
    if ops != [] {
      var (s1, r1) := Step(s, ops[0]);
      var rs := Run(s1, ops[1..]).1;
      CloseRepliesOnce(s1, ops[1..]);
      forall i | 0 < i < |ops| && ops[i] == CloseOp
        ensures Run(s, ops).1[i] == Closing(!s.closed && CloseOp !in ops[..i])
      {
        assert Run(s, ops).1[i] == rs[i - 1];
        assert ops[1..][i - 1] == ops[i];
        assert ops[..i] == [ops[0]] + ops[1..][..i - 1];
        assert s1.closed <==> s.closed || ops[0] == CloseOp;
      }
    }
  }

  /** Once closed, every push in the rest of the run is refused with `Closed`, handing the item back. */
  lemma {:induction false} PushRefusedAfterClose<T>(s: State<T>, ops: seq<Op<T>>)
    ensures forall i :: 0 <= i < |ops| && ops[i].PushOp? && (s.closed || CloseOp in ops[..i]) ==>
              Run(s, ops).1[i] == Pushed(Err(PushError.Closed(ops[i].x)))
    decreases |ops|
  {
    if ops != [] {
      var (s1, r1) := Step(s, ops[0]);
      var rs := Run(s1, ops[1..]).1;
      PushRefusedAfterClose(s1, ops[1..]);
      forall i | 0 < i < |ops| && ops[i].PushOp? && (s.closed || CloseOp in ops[..i])
        ensures Run(s, ops).1[i] == Pushed(Err(PushError.Closed(ops[i].x)))
      {
        assert Run(s, ops).1[i] == rs[i - 1];
        assert ops[1..][i - 1] == ops[i];
        assert ops[..i] == [ops[0]] + ops[1..][..i - 1];
        assert s1.closed <==> s.closed || ops[0] == CloseOp;
      }
    }
  }

  /** An unbounded queue never answers a push with `Full`. */
  lemma {:induction false} UnboundedNeverFull<T>(s: State<T>, ops: seq<Op<T>>)
    requires s.cap.None?
    ensures forall i :: 0 <= i < |ops| ==> !IsFullReply(Run(s, ops).1[i])
    decreases |ops|
  {
    if ops != [] {
      var (s1, r1) := Step(s, ops[0]);
      UnboundedNeverFull(s1, ops[1..]);
      assert Run(s, ops).1 == [r1] + Run(s1, ops[1..]).1;
    }
  }

  /** Whether `n` more items fit in `s`: always for an unbounded queue. */
  predicate HasRoom<T>(s: State<T>, n: nat) {
    s.cap.None? || |s.items| + n <= s.cap.value
  }

  /**
   * A row of pushes onto an open queue with room for all of them: every push is accepted and
   * the items join the back in order.
   */
  lemma {:induction false} RunPushesFit<T>(s: State<T>, xs: seq<T>)
    requires !s.closed && HasRoom(s, |xs|)
    ensures Run(s, Pushes(xs)).0 == s.(items := s.items + xs)
    ensures forall i :: 0 <= i < |xs| ==> Run(s, Pushes(xs)).1[i] == Pushed(Ok(()))
    decreases |xs|
  {
    if xs == [] {
      assert s.items + xs == s.items;
    } else {
      var s1 := s.(items := s.items + [xs[0]]);
      var rest := Run(s1, Pushes(xs[1..]));
      assert Run(s, Pushes(xs)) == (rest.0, [Pushed(Ok(()))] + rest.1) by {
        var ops := Pushes(xs);
        assert ops[1..] == Pushes(xs[1..]);
        RunCons(s, ops);
        assert Step(s, ops[0]) == (s1, Pushed(Ok(())));
      }
      RunPushesFit(s1, xs[1..]);
      assert s1.items + xs[1..] == s.items + xs;
    }
  }

  /** A row of pushes onto a closed queue: every one is refused with `Closed`; nothing changes. */
  lemma {:induction false} RunPushesClosed<T>(s: State<T>, xs: seq<T>)
    requires s.closed
    ensures var (s2, rs) := Run(s, Pushes(xs));
            s2 == s && forall i :: 0 <= i < |xs| ==> rs[i] == Pushed(Err(PushError.Closed(xs[i])))
    decreases |xs|
  {
    if xs != [] {
      var ops := Pushes(xs);
      assert ops[1..] == Pushes(xs[1..]);
      RunPushesClosed(s, xs[1..]);
    }
  }

  /**
   * A row of pushes onto an open bounded queue: the pushes that fit in the free room are
   * accepted and join the back in order; every later one is refused with `Full`, handing its
   * item back, and changes nothing.
   */
  lemma {:induction false} RunPushesBounded<T>(s: State<T>, xs: seq<T>)
    requires !s.closed && Valid(s) && s.cap.Some?
    ensures var room := s.cap.value - |s.items|;
            var (s2, rs) := Run(s, Pushes(xs));
            && s2 == s.(items := s.items + xs[..Min(room, |xs|)])
            && forall i :: 0 <= i < |xs| ==>
                 rs[i] == Pushed(if i < room then Ok(()) else Err(PushError.Full(xs[i])))
    decreases |xs|
  {
    if xs != [] {
      var room := s.cap.value - |s.items|;
      var ops := Pushes(xs);
      assert ops[0] == PushOp(xs[0]) && ops[1..] == Pushes(xs[1..]);
      RunCons(s, ops);
      var (s1, r1) := Step(s, ops[0]);
      RunPushesBounded(s1, xs[1..]);
      if room == 0 {
        assert s1 == s && r1 == Pushed(Err(PushError.Full(xs[0])));
        assert xs[..Min(room, |xs|)] == xs[1..][..Min(room, |xs| - 1)] == [];
      } else {
        assert s1 == s.(items := s.items + [xs[0]]) && r1 == Pushed(Ok(()));
        assert s1.cap.value - |s1.items| == room - 1;
        assert xs[..Min(room, |xs|)] == [xs[0]] + xs[1..][..Min(room - 1, |xs| - 1)];
      }
    }
  }

  function Min(a: nat, b: nat): nat {
    if a <= b then a else b
  }

  /**
   * What the `i`-th of a row of pops on `s` returns: the `i`-th queued item while items remain,
   * then `Closed` if the queue is closed and `Empty` if it is not.
   */
  function PopReply<T>(s: State<T>, i: nat): Reply<T> {
    Popped(if i < |s.items| then Ok(s.items[i])
           else Err(if s.closed then PopError.Closed else PopError.Empty))
  }

  /** `Run` on a row of `n > 0` pops: the first pop, then the other `n - 1`. */
  lemma RunPopsCons<T>(s: State<T>, n: nat)
    requires n > 0
    ensures Run(s, Pops(n)) == (Run(Pop(s).0, Pops(n - 1)).0,
                                [Popped(Pop(s).1)] + Run(Pop(s).0, Pops(n - 1)).1)
  {
    var ops: seq<Op<T>> := Pops(n);
    assert ops[1..] == Pops(n - 1);
    RunCons(s, ops);
  }

  /** A row of `n` pops removes the first `n` queued items, or all of them if fewer remain. */
  lemma {:induction false} RunPops<T>(s: State<T>, n: nat)
    ensures Run(s, Pops(n)).0 == s.(items := s.items[Min(n, |s.items|)..])
    decreases n
  {
    if n != 0 {
      RunPopsCons(s, n);
      RunPops(Pop(s).0, n - 1);
      if s.items != [] {
        assert s.items[1..][Min(n - 1, |s.items| - 1)..] == s.items[Min(n, |s.items|)..];
      }
    }
  }

  /** The replies of a row of `n` pops: see `PopReply`. */
  lemma {:induction false} RunPopsReplies<T>(s: State<T>, n: nat)
    ensures forall i :: 0 <= i < n ==> Run(s, Pops(n)).1[i] == PopReply(s, i)
    decreases n
  {
    if n != 0 {
      RunPopsCons(s, n);
      var s1 := Pop(s).0;
      RunPopsReplies(s1, n - 1);
      forall i | 0 < i < n ensures Run(s1, Pops(n - 1)).1[i - 1] == PopReply(s, i) {
        assert PopReply(s1, i - 1) == PopReply(s, i);
      }
    }
  }

  /**
   * A bounded queue of capacity `n`, from empty: `n` pushes succeed, the next one is refused
   * with `Full` and hands its item back, then `n` pops return the items in push order and the
   * next pop reports `Empty`, leaving the queue as it began.
   */
  lemma BoundedFillThenFull<T>(s: State<T>, xs: seq<T>, y: T)
    requires s == State(Some(|xs|), [], false) && |xs| > 0
    ensures var filled := Run(s, Pushes(xs));
            var refused := Push(filled.0, y);
            var drained := Run(refused.0, Pops(|xs| + 1));
            && (forall i :: 0 <= i < |xs| ==> filled.1[i] == Pushed(Ok(())))
            && refused == (filled.0, Err(PushError.Full(y)))
            && (forall i :: 0 <= i < |xs| ==> drained.1[i] == Popped(Ok(xs[i])))
            && drained.1[|xs|] == Popped(Err(PopError.Empty))
            && drained.0 == s
  {
    RunPushesFit(s, xs);
    assert s.items + xs == xs;
    var full := s.(items := xs);
    RunPops(full, |xs| + 1);
    RunPopsReplies(full, |xs| + 1);
    assert full.items[Min(|xs| + 1, |xs|)..] == [];
  }

  /**
   * An unbounded queue, from empty, takes every push; as many pops return the items in push
   * order and the next pop reports `Empty`, leaving the queue empty.
   */
  lemma UnboundedFifo<T>(s: State<T>, xs: seq<T>)
    requires s == State(None, [], false)
    ensures var filled := Run(s, Pushes(xs));
            var drained := Run(filled.0, Pops(|xs| + 1));
            && (forall i :: 0 <= i < |xs| ==> filled.1[i] == Pushed(Ok(())))
            && (forall i :: 0 <= i < |xs| ==> drained.1[i] == Popped(Ok(xs[i])))
            && drained.1[|xs|] == Popped(Err(PopError.Empty))
            && drained.0 == s
  {
    RunPushesFit(s, xs);
    assert s.items + xs == xs;
    var full := s.(items := xs);
    RunPops(full, |xs| + 1);
    RunPopsReplies(full, |xs| + 1);
    assert full.items[Min(|xs| + 1, |xs|)..] == [];
  }

  /**
   * A closed queue still hands out what it holds: popping drains the items in order, and the
   * pop after the last item reports `Closed`, not `Empty`.
   */
  lemma CloseDrains<T>(s: State<T>)
    requires s.closed
    ensures var drained := Run(s, Pops(|s.items| + 1));
            && (forall i :: 0 <= i < |s.items| ==> drained.1[i] == Popped(Ok(s.items[i])))
            && drained.1[|s.items|] == Popped(Err(PopError.Closed))
            && drained.0 == s.(items := [])
  {
    RunPops(s, |s.items| + 1);
    RunPopsReplies(s, |s.items| + 1);
    assert s.items[Min(|s.items| + 1, |s.items|)..] == [];
  }
}
