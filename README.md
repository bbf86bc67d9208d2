# kmq redelivery processor: marker ingestion, in Dafny

kmq adds "at-least-once, redeliver after a timeout" semantics on top of Kafka.
A consumer writes a Start marker to a markers topic before it processes a message,
and a Complete marker once it is done. The `RedeliveryProcessor` reads the markers
topic. It keeps every started marker in a durable key-value store (`startedMarkers`)
and in an in-memory `MarkersQueue`. A background `RedeliveryExecutor` takes overdue
markers from that queue, redelivers their messages, and then deletes the marker
from the store.

This project models the marker-ingestion state machine of that processor:

- `process(key, value)`: a Start marker is `put` into the store and then `offer`ed to
  the queue. Any other marker deletes its key from the store. Afterwards the consumption
  position is committed.
- `restoreMarkersQueue`: called from `init`, it offers every stored entry to the queue,
  which rebuilds the queue after a restart.
- The two lambdas wired in `init`:
  - the predicate given to the queue, `get(k) == null`, meaning "already resolved";
  - the callback given to the executor, which deletes a redelivered key from the store.

Files:

- `markers.dfy` (module `Markers`) holds the record types (`MarkerKey`, `MarkerValue`,
  queue `Entry`). It also holds the `Effect` log entries: a store `Put` or `Delete`, a
  queue `Offer`, or a `Commit`.
- `ingestion.dfy` (module `Ingestion`) is the reference state machine on values. A
  `State` is the store (a `map`), the queue (a `seq` that `offer` appends to) and the
  log of effects. It holds `Process`, `Retire` (the callback), `Resolved` (the
  predicate), `Run` over any interleaving of records and redeliveries, and the lemmas.
  A second semantics, `Replay`, applies a log of effects one at a time. The lemmas show
  that the log written by the processor reproduces its state, so "mutation, then
  commit" is a statement about the state and not only about the log.
- `processor.dfy` (module `Processor`) holds the class `RedeliveryProcessor`. Its fields
  `startedMarkers`, `markersQueue` and `trace` are updated in place by `Init`,
  `RestoreMarkersQueue`, `Process` and `OnRedelivered`. `Process` and `OnRedelivered`
  are proved to leave exactly the state that `Ingestion.Process` and `Ingestion.Retire`
  describe. `Init` and `RestoreMarkersQueue` have no matching function: their contracts
  are a relation (`Ingestion.Enumerates`) that holds for every order in which the store
  lists its entries. A ghost flag `initialized`, set by `Init`, stands for the fields the
  Java constructor leaves null; `Process`, `OnRedelivered` and `IsResolved` require it, as
  calling them before `init` throws in the code.

Abstractions:

- The store is a `map<MarkerKey, MarkerValue>`. Its `get` is `Ingestion.Get`; `put` is
  map update; `delete` is key removal, which does nothing when the key is absent. The
  store cannot hold a null value, so the `kv.value != null` test in `restoreMarkersQueue`
  always passes here and every stored entry is offered.
- The store's iterator order is not specified: `RestoreMarkersQueue` takes the keys in an
  arbitrary order, and its contract holds for every order.
- `context.commit()` is recorded as a `Commit` effect in the log.
- The store found in the processor context at `init` is a parameter of `Init`.

## Model

| member | source | states |
|---|---|---|
| `Ingestion.Process` | src/main/java/com/softwaremill/kmq/RedeliveryProcessor.java:59-68 | For a Start marker, the store maps the key to the value and the queue is the old queue with `(key, value)` appended. For any other marker, the key is absent and the queue is unchanged. Every other key keeps its store entry. The log grows by a suffix that holds exactly one commit, and that commit is the last effect. |
| `Ingestion.Effects` | src/main/java/com/softwaremill/kmq/RedeliveryProcessor.java:59-67 | A `process` call has three effects for a Start marker and two otherwise. They end in a `Commit`, and every effect before it mutates the store or queue for that key. It puts and offers `(key, value)` exactly when the value is a Start marker, and deletes the key exactly when it is not. |
| `Ingestion.OfferFollowsPut` | src/main/java/com/softwaremill/kmq/RedeliveryProcessor.java:61-62 | Wherever the offer sits in a `process` call's effects, replaying the effects before it has already stored the marker under its key: the put comes first. |
| `Ingestion.Retire` | src/main/java/com/softwaremill/kmq/RedeliveryProcessor.java:54 | The redelivery callback removes the key from the store, leaves every other key and the queue unchanged, and logs one delete (no commit). |
| `Ingestion.Resolved` | src/main/java/com/softwaremill/kmq/RedeliveryProcessor.java:49 | The queue predicate `get(k) == null` holds exactly when the store has no entry for the key. |
| `Processor.RedeliveryProcessor.IsResolved` | src/main/java/com/softwaremill/kmq/RedeliveryProcessor.java:49 | The predicate closes over the processor's live store: it is true exactly when `startedMarkers` currently has no entry for the key. |
| `Processor.RedeliveryProcessor.Process` | src/main/java/com/softwaremill/kmq/RedeliveryProcessor.java:59-68 | Updating the fields in place, in the code's order (put, offer, then commit; or delete, then commit), leaves exactly the state `Ingestion.Process` describes. |
| `Processor.RedeliveryProcessor.OnRedelivered` | src/main/java/com/softwaremill/kmq/RedeliveryProcessor.java:53-54 | The callback's in-place delete leaves exactly the state `Ingestion.Retire` describes. |
| `Processor.RedeliveryProcessor.RestoreMarkersQueue` | src/main/java/com/softwaremill/kmq/RedeliveryProcessor.java:83-89 | The store is unchanged. The old queue is kept as a prefix, and what follows lists every store entry exactly once with its stored value and nothing else. One offer is logged per restored entry. |
| `Processor.RedeliveryProcessor.Init` | src/main/java/com/softwaremill/kmq/RedeliveryProcessor.java:43-50 | After binding the persisted store and restoring a fresh queue, the queue lists exactly the store's entries, each once, so every pending marker is tracked by the queue. |
| `Processor.RedeliveryProcessor.constructor` | src/main/java/com/softwaremill/kmq/RedeliveryProcessor.java:35-40 | A new processor has an empty store, an empty queue and an empty log, and is not yet initialized. |
| `Ingestion.ProcessIsReplayOfEffects` | src/main/java/com/softwaremill/kmq/RedeliveryProcessor.java:59-67 | Performing a `process` call's logged effects one by one, in order, gives exactly the state `Process` gives. |
| `Ingestion.RunIsReplayOfTrace` | src/main/java/com/softwaremill/kmq/RedeliveryProcessor.java:59-67 | For any interleaving of records and redeliveries, the log only grows. Replaying the new part of the log from the starting state reproduces the final store and queue. |
| `Ingestion.RunCommitsOncePerRecord` | src/main/java/com/softwaremill/kmq/RedeliveryProcessor.java:59-67 | Over any interleaving, the number of commits grows by exactly the number of `process` calls; the redelivery callback never commits. |
| `Ingestion.CompleteIsIdempotent` | src/main/java/com/softwaremill/kmq/RedeliveryProcessor.java:63-65 | Handling a Complete marker twice leaves the same store and queue as handling it once; only one more delete and commit are logged. |
| `Ingestion.CompleteOfAbsentKeyIsNoop` | src/main/java/com/softwaremill/kmq/RedeliveryProcessor.java:64 | A Complete marker for a key not in the store leaves the store and the queue unchanged. |
| `Ingestion.ResolvedAfterStep` | src/main/java/com/softwaremill/kmq/RedeliveryProcessor.java:49 | After one event, the predicate is false for a Start marker's key. It is true for a Complete marker's key and for a redelivered key. It is unchanged for every other key. |
| `Ingestion.StepKeepsOnlyStarts` | src/main/java/com/softwaremill/kmq/RedeliveryProcessor.java:60-64 | If the store holds only Start markers before a record or redelivery, it still does afterwards. |
| `Ingestion.RunKeepsOnlyStarts` | src/main/java/com/softwaremill/kmq/RedeliveryProcessor.java:60-64 | The store keeps holding only Start markers through any interleaving of records and redeliveries. |
| `Ingestion.StepKeepsTracked` | src/main/java/com/softwaremill/kmq/RedeliveryProcessor.java:60-65 | If every pending marker is in the queue with its stored value, this still holds after one record or redelivery. |
| `Ingestion.RunKeepsTracked` | src/main/java/com/softwaremill/kmq/RedeliveryProcessor.java:60-65 | Through any interleaving, every pending marker stays in the queue with its current stored value. |
| `Ingestion.RunLookup` | src/main/java/com/softwaremill/kmq/RedeliveryProcessor.java:60-65 | A key's store entry after any interleaving is set by the last event naming that key. A Start marker leaves its value. A Complete marker or a redelivery leaves nothing. If no event names the key, the starting entry remains. |
| `Ingestion.StartThenCompleteLeavesKeyResolved` | src/main/java/com/softwaremill/kmq/RedeliveryProcessor.java:60-65 | Start(K), then any events for other keys or repeats of the same Start: K is pending with that Start marker. A Complete(K) after them leaves nothing pending for K. |
| `Ingestion.CrashBeforeCommitIsSafe` | src/main/java/com/softwaremill/kmq/RedeliveryProcessor.java:59-67 | A crash partway through a `process` call happens before any commit, so the record is handled again. Handling it again from the partly updated state leaves the same store as one uninterrupted call. |
| `Ingestion.EnumerationSize` | src/main/java/com/softwaremill/kmq/RedeliveryProcessor.java:83-89 | Recovery offers exactly as many entries as the store holds. |
| `Ingestion.EnumerationIsTracked` | src/main/java/com/softwaremill/kmq/RedeliveryProcessor.java:83-89 | A queue that enumerates the store holds every pending marker with its stored value. |

## Left out

- `close` (RedeliveryProcessor.java:74-81) is resource-lifecycle plumbing and is not modelled. The code closes the store (line 76) before it stops the redelivery executor (line 79), so a tick still running can reach a closed store. This model claims no shutdown ordering or quiescence.
- `punctuate` (a no-op) and logging are not modelled.
- The Kafka consumer and producer held by the processor, `ProcessorContext` and `context.getStateStore` are foreign library I/O. The persisted store is a parameter of `Init`, and a commit is a `Commit` entry in the log.
- `RedeliveryExecutor` and its one-second schedule (RedeliveryProcessor.java:52-55) run in the background, and their code is not part of this model. Only the callback they are given is modelled (`OnRedelivered`, `Ingestion.Retire`).
- `MarkersQueue` internals are not part of this model: deadlines, the `Clock`, the 30-second `MESSAGE_TIMEOUT`, and draining of overdue entries. `offer` is modelled as an append. So the queue only grows here, and `Tracked` ("every pending marker is in the queue") does not account for entries the queue hands out.
- Concurrency: the ingestion thread and the executor thread both touch the store. The model interleaves whole operations (`Run` over `Event`s) and does not model finer-grained races.
- A null record value: `value.isStart()` (line 60) throws on it; `MarkerValue` has no null, so `Process` is never given one and this path is not modelled.
- Calls before `init`: in the code they throw on a null field; the model does not model the exception but excludes such calls with `requires initialized`.
- Null store values: the store type has no null, so the `kv.value != null` branch of `restoreMarkersQueue` is always taken.
- The order in which the store's iterator yields entries is not modelled. Recovery is proved correct for every order.
