# concurrent-queue, sequential model

A model of the `ConcurrentQueue<T>` facade of the `concurrent-queue` crate. The facade holds
exactly one engine, bounded or unbounded, and never changes it. It forwards `push`, `pop`,
`close`, `len`, `is_empty`, `is_full` and `is_closed` to that engine by matching on the
variant. `capacity()` asks a bounded engine for its capacity and answers `None` itself for
the unbounded variant. A push returns `Ok`,
`Full(item)` or `Closed(item)`, and a refused item is always handed back. A pop returns
`Ok(item)`, `Empty` or `Closed`. `close` says whether this call closed the queue.

The project has six modules:

- `Outcomes` (`outcomes.dfy`): `Option`, `Result`, `PushError<T>` and `PopError`.
- `QueueModel` (`queue_model.dfy`): the shared sequential contract, as a state machine on
  values. A `State` has FIFO `items`, a `cap` (`None` when unbounded) and a `closed` bit.
  `Push`, `Pop` and `Close` each return the next state and the call's result.
- `QueueTraces` (`queue_traces.dfy`): runs any sequence of calls with `Run`. Its lemmas prove
  properties that hold over whole runs:
  - FIFO delivery with nothing lost or duplicated;
  - the capacity bound and an unchanging capacity;
  - a closed bit that is never cleared;
  - `close` returning `true` at most once;
  - every push refused after close;
  - rows of pushes (all fitting, overflowing a bounded queue, or meeting a closed queue) and
    rows of pops, characterised call by call.
- `Engines` (`engines.dfy`): classes `Bounded<T>` and `Unbounded<T>`. Their methods change
  `items` and `closed` in place, and each is proved against the `QueueModel` contract.
- `Queue` (`concurrent_queue.dfy`): the class `ConcurrentQueue<T>`. It has
  `const inner: Inner<T>`, where `Inner` is `Bounded(engine)` or `Unbounded(engine)`.
  The constructors `Bounded(cap)` and `Unbounded()` choose the engine, and every operation
  dispatches on `inner` by `match`.
- `Doctests` (`doctests.dfy`): each documented example that checks a result, written as a client
  method. Its postcondition states every result the example checks or unwraps, proved from the facade's contracts alone.

## Model

| member | source | states |
|---|---|---|
| QueueModel.Push | src/lib.rs:102-136 | capacity and closed bit unchanged; `Ok` exactly when the queue is open and not full, and then the item is appended and the length grows by 1; on `Err` the state is unchanged and the error carries the pushed item; the error is `Closed` exactly when the queue is closed (so `Closed` wins over `Full`); an unbounded queue never answers `Full`; the capacity bound is preserved |
| QueueModel.Pop | src/lib.rs:138-168 | capacity and closed bit unchanged; `Ok` exactly when the queue is non-empty, returning the front item and removing it (length shrinks by 1); on an empty queue the state is unchanged and the error is `Closed` exactly when the queue is closed, `Empty` otherwise; the capacity bound is preserved |
| QueueModel.Close | src/lib.rs:257-289 | returns `true` exactly when the queue was not closed; afterwards it is closed, with the same items and capacity |
| QueueTraces.Conservation | src/lib.rs:46-58 | over any run of calls: what pops delivered, followed by what is still queued, equals what was queued at the start followed by every accepted push; this gives FIFO order, no loss and no duplication |
| QueueTraces.RunInvariants | src/lib.rs:235-255 | over any run: the capacity never changes, `0 <= len <= cap` is kept, and the queue ends closed exactly when it started closed or some call was `close` |
| QueueTraces.CloseRepliesOnce | src/lib.rs:257-260 | in any run, each `close` returns `true` exactly when the queue started open and no earlier call was `close`; so at most one `close` returns `true` |
| QueueTraces.PushRefusedAfterClose | src/lib.rs:119-129 | in any run, every push made after the queue is closed returns `Closed` with its own item, whatever pops came in between |
| QueueTraces.UnboundedNeverFull | src/lib.rs:190-192 | in any run on an unbounded queue, no push returns `Full` |
| QueueTraces.RunPushesFit | src/lib.rs:19-24 | a row of pushes onto an open queue with room for all of them: every push returns `Ok`, and the items join the back in order |
| QueueTraces.RunPushesBounded | src/lib.rs:49-53 | a row of pushes onto an open bounded queue: the first pushes, as many as there is free room, return `Ok` and append their items in order; every later one returns `Full` with its own item and changes nothing |
| QueueTraces.RunPushesClosed | src/lib.rs:275-276 | a row of pushes onto a closed queue: each returns `Closed` with its own item, and nothing changes |
| QueueTraces.RunPops | src/lib.rs:163-168 | a row of `n` pops removes the first `n` queued items, or all of them if fewer remain |
| QueueTraces.RunPopsReplies | src/lib.rs:147-161 | the `i`-th of a row of pops returns the `i`-th queued item while items remain, and afterwards `Closed` if the queue is closed or `Empty` if not |
| QueueTraces.CloseDrains | src/lib.rs:278-282 | a closed queue still gives up its items: pops return them in order, the next pop returns `Closed`, not `Empty`, and the queue ends empty |
| QueueTraces.BoundedFillThenFull | src/lib.rs:49-57 | capacity `n` from empty: `n` pushes return `Ok`; the next returns `Full` with its item and changes nothing; `n` pops return the items in push order; one more pop returns `Empty`; the queue ends as it began |
| QueueTraces.UnboundedFifo | src/lib.rs:19-24 | unbounded from empty: every push returns `Ok`; as many pops return the items in push order; the next returns `Empty`; the queue ends empty |
| QueueTraces.StepConserves | src/lib.rs:131-168 | one call: what it took out, then what is queued after it, equals what was queued before it, then what it added |
| QueueTraces.Run | src/lib.rs:131-168 | a run returns exactly one reply per call |
| Engines.Bounded.constructor | src/lib.rs:70-87 | requires a positive capacity (the source panics on zero); starts open and empty with capacity `Some(cap)` |
| Engines.Bounded.Push | src/lib.rs:133 | meets the `QueueModel.Push` contract on its state; keeps its invariant |
| Engines.Bounded.Pop | src/lib.rs:165 | meets the `QueueModel.Pop` contract on its state; keeps its invariant |
| Engines.Bounded.Close | src/lib.rs:286 | meets the `QueueModel.Close` contract on its state |
| Engines.Bounded.Len | src/lib.rs:230 | the number of queued items, never above the capacity |
| Engines.Bounded.Capacity | src/lib.rs:252 | the fixed positive capacity |
| Engines.Bounded.IsEmpty | src/lib.rs:185 | true exactly when no item is queued |
| Engines.Bounded.IsFull | src/lib.rs:207 | true exactly when the queue holds `cap` items |
| Engines.Bounded.IsClosed | src/lib.rs:306 | the closed bit |
| Engines.Unbounded.constructor | src/lib.rs:89-100 | starts open and empty with capacity `None` |
| Engines.Unbounded.Push | src/lib.rs:134 | meets the `QueueModel.Push` contract on its state; so it is never `Full` |
| Engines.Unbounded.Pop | src/lib.rs:166 | meets the `QueueModel.Pop` contract on its state |
| Engines.Unbounded.Close | src/lib.rs:287 | meets the `QueueModel.Close` contract on its state |
| Engines.Unbounded.Len | src/lib.rs:231 | the number of queued items |
| Engines.Unbounded.IsEmpty | src/lib.rs:186 | true exactly when no item is queued |
| Engines.Unbounded.IsFull | src/lib.rs:208 | always false |
| Engines.Unbounded.IsClosed | src/lib.rs:307 | the closed bit |
| Queue.ConcurrentQueue.Model | src/lib.rs:59-67 | the held engine's state satisfies the capacity bound; a capacity is present exactly when the variant is `Bounded` |
| Queue.ConcurrentQueue.Bounded | src/lib.rs:70-87 | requires `cap > 0`; builds the `Bounded` variant, open and empty, with capacity `Some(cap)` |
| Queue.ConcurrentQueue.Unbounded | src/lib.rs:89-100 | builds the `Unbounded` variant, open and empty, with capacity `None` |
| Queue.ConcurrentQueue.Push | src/lib.rs:102-136 | forwards to the held engine; new state and result are those of `QueueModel.Push`; the variant cannot change |
| Queue.ConcurrentQueue.Pop | src/lib.rs:138-168 | forwards to the held engine; new state and result are those of `QueueModel.Pop` |
| Queue.ConcurrentQueue.Close | src/lib.rs:257-289 | forwards to the held engine; new state and result are those of `QueueModel.Close` |
| Queue.ConcurrentQueue.Len | src/lib.rs:212-233 | the number of queued items, never above the capacity of a bounded queue |
| Queue.ConcurrentQueue.Capacity | src/lib.rs:235-255 | `Some` of the engine's positive capacity for a bounded queue, `None` for an unbounded one |
| Queue.ConcurrentQueue.IsEmpty | src/lib.rs:170-188 | true exactly when `len() == 0`, that is when no item is queued |
| Queue.ConcurrentQueue.IsFull | src/lib.rs:190-210 | true exactly when `capacity() == Some(len())`; always false for an unbounded queue |
| Queue.ConcurrentQueue.IsClosed | src/lib.rs:291-309 | the state's closed bit |
| Doctests.UnboundedOrder | src/lib.rs:16-25 | pushes of 1 and 2 both return `Ok`, then pops return `Ok(1)` and `Ok(2)` |
| Doctests.BoundedTwo | src/lib.rs:46-58 | capacity 2: `Ok`, `Ok`, `Full('c')`, then pops `Ok('a')`, `Ok('b')`, `Empty` |
| Doctests.PushExample | src/lib.rs:108-130 | capacity 1: `Ok`, `Full(20)`; after close `Closed(20)`; pop `Ok(10)`; `Closed(20)` again despite the free room |
| Doctests.PopExample | src/lib.rs:144-162 | `Empty`; push `Ok`; after close pop `Ok(10)`, then `Closed` |
| Doctests.IsEmptyExample | src/lib.rs:174-182 | empty before a push; the push returns `Ok`; not empty after |
| Doctests.IsFullExample | src/lib.rs:196-204 | capacity 1: not full before a push; the push returns `Ok`; full after |
| Doctests.LenExample | src/lib.rs:216-227 | lengths 0, 1, 2 around two pushes that both return `Ok` |
| Doctests.CapacityExample | src/lib.rs:241-249 | `Some(7)` for `bounded(7)`, `None` for unbounded |
| Doctests.CloseExample | src/lib.rs:266-283 | `close` returns `true`, then `false`; push gives `Closed(20)`; pop gives `Ok(10)`, then `Closed` |
| Doctests.IsClosedExample | src/lib.rs:295-303 | not closed before `close`, closed after |

## Left out

- Concurrency is not modelled. That covers the lock-free engine internals (atomics,
  compare-and-swap retry loops, memory ordering, progress guarantees) and interleavings of
  several producers and consumers. The model is sequential: each call takes effect at once.
- No single-slot engine: `src/lib.rs:64-67` has only the `Bounded` and `Unbounded` variants;
  `bounded(1)` is the one-slot queue.
- The engine sources `src/bounded.rs` and `src/unbounded.rs` are not part of this model. Each
  engine is modelled on its abstract FIFO contents, so slot stamps, laps and block
  allocation/reclamation are not modelled.
- `usize` is modelled as an unbounded `nat`. A capacity or length near `usize::MAX` is not
  modelled, and the source cannot reach one in practice.
- The `unsafe impl Send`/`Sync` markers (lines 61-62) are left out because they have no
  behaviour.
- The `Debug`, `Display` and `error::Error` impls (lines 312-320, 332-350, 362-379) are left
  out because they only format values.
- Dropping a queue (freeing its storage and the items still queued) is not modelled, because
  values in this model have no lifetime.
- Queue.ConcurrentQueue.Bounded: the panic on a zero capacity is a precondition, not a modelled
  error path, because the source has no error result there.
