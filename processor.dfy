/** The redelivery processor as an object: its fields are the started-markers
    store, the markers queue and the log of effects (where `context.commit()`
    is recorded), and its methods update them in place. `Process` and
    `OnRedelivered` are proved to leave exactly the state that `Ingestion.Process`
    and `Ingestion.Retire` describe; `Init` and `RestoreMarkersQueue` are
    specified by the relation `Ingestion.Enumerates`, which holds for every order
    in which the store lists its entries. */
module Processor {
  import opened Markers
  import Ingestion

  class RedeliveryProcessor {
    /** The durable store of Start markers not yet completed or redelivered. */
    var startedMarkers: Ingestion.Store
    /** The markers queue; `offer` appends to it. */
    var markersQueue: seq<Entry>
    /** Every store mutation, queue offer and commit, in order. */
    var trace: seq<Effect>
    /** Whether `init` has bound the store and created the queue; until then
        both are null in the processor and every use of them throws. */
    ghost var initialized: bool

    function Current(): Ingestion.State
      reads this
    {
      Ingestion.State(startedMarkers, markersQueue, trace)
    }

    constructor ()
      ensures Current() == Ingestion.State(map[], [], [])
      ensures !initialized
    {
      startedMarkers := map[];
      markersQueue := [];
      trace := [];
      initialized := false;
    }

    /** `init`: binds the store found in the context (`persisted`), creates an
        empty markers queue and restores it from the store. Afterwards every
        pending marker is in the queue exactly once. */
    method Init(persisted: Ingestion.Store)
      modifies this
      ensures startedMarkers == persisted
      ensures Ingestion.Enumerates(markersQueue, persisted)
      ensures trace == old(trace) + Ingestion.Offers(markersQueue)
      ensures Ingestion.Tracked(Current())
      ensures initialized
    {
      startedMarkers := persisted;
      markersQueue := [];
      initialized := true;
      RestoreMarkersQueue();
      assert markersQueue == markersQueue[0..];
      Ingestion.EnumerationIsTracked(markersQueue, startedMarkers, trace);
    }

    /** `restoreMarkersQueue`: walks every entry of the store, in the order
        the store's iterator yields them, and offers it to the queue. The
        store is left as it was. */
    method RestoreMarkersQueue()
      requires initialized
      modifies this
      ensures initialized
      ensures startedMarkers == old(startedMarkers)
      ensures |markersQueue| >= |old(markersQueue)|
      ensures markersQueue[..|old(markersQueue)|] == old(markersQueue)
      ensures Ingestion.Enumerates(markersQueue[|old(markersQueue)|..], startedMarkers)
      ensures trace == old(trace) + Ingestion.Offers(markersQueue[|old(markersQueue)|..])
    {
      var remaining := startedMarkers.Keys;
      ghost var restored: seq<Entry> := [];
      while remaining != {}
        invariant initialized
        invariant remaining <= startedMarkers.Keys
        invariant startedMarkers == old(startedMarkers)
        invariant markersQueue == old(markersQueue) + restored
        invariant trace == old(trace) + Ingestion.Offers(restored)
        invariant Ingestion.DistinctKeys(restored)
        invariant Ingestion.KeysOf(restored) == startedMarkers.Keys - remaining
        invariant forall i :: 0 <= i < |restored| ==>
                    restored[i].0 in startedMarkers && startedMarkers[restored[i].0] == restored[i].1
        decreases remaining
      {
        var k :| k in remaining;
        var v := startedMarkers[k];
        markersQueue := markersQueue + [(k, v)];
        trace := trace + [Offer(k, v)];
        assert (restored + [(k, v)])[..|restored|] == restored;
        Ingestion.KeysOfSnoc(restored, (k, v));
        restored := restored + [(k, v)];
        remaining := remaining - {k};
      }
      assert markersQueue[|old(markersQueue)|..] == restored;
    }

    /** `process(key, value)`: puts a Start marker into the store and offers
        it to the queue, or deletes the key for any other marker; then commits. */
    method Process(key: MarkerKey, value: MarkerValue)
      requires initialized
      modifies this
      ensures initialized
      ensures Current() == Ingestion.Process(old(Current()), key, value)
    {
      ghost var expected := Ingestion.Process(Current(), key, value);
      if value.Start? {
        startedMarkers := startedMarkers[key := value];
        trace := trace + [Put(key, value)];
        markersQueue := markersQueue + [(key, value)];
        trace := trace + [Offer(key, value)];
      } else {
        startedMarkers := startedMarkers - {key};
        trace := trace + [Delete(key)];
      }
      trace := trace + [Commit];
      assert startedMarkers == expected.store && markersQueue == expected.queue;
      assert trace == expected.trace;
    }

    /** The callback given to the redelivery executor: deletes a redelivered
        marker from the store. */
    method OnRedelivered(key: MarkerKey)
      requires initialized
      modifies this
      ensures initialized
      ensures Current() == Ingestion.Retire(old(Current()), key)
    {
      startedMarkers := startedMarkers - {key};
      trace := trace + [Delete(key)];
    }

    /** The predicate given to the markers queue, read against the store as
        it is when the queue calls it. */
    function IsResolved(key: MarkerKey): (r: bool)
      reads this
      requires initialized
      ensures r <==> key !in startedMarkers
    {
      Ingestion.Resolved(startedMarkers, key)
    }
  }
}
