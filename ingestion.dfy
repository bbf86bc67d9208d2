/** The marker-ingestion state machine of the redelivery processor, on values.

    A `State` is what the processor holds: the durable started-markers store,
    the in-memory markers queue (only its `offer` is modelled, as an append),
    and the log of every effect performed so far. The functions here are the
    reference definitions that the methods of `Processor.RedeliveryProcessor`
    are proved against; the lemmas state the properties the processor relies on. */
module Ingestion {
  import opened Markers

  type Store = map<MarkerKey, MarkerValue>

  datatype State = State(store: Store, queue: seq<Entry>, trace: seq<Effect>)

  /** What can happen to the state: a marker record handed to `process`, or
      the redelivery executor reporting that it redelivered a marker. */
  datatype Event = Record(key: MarkerKey, value: MarkerValue) | Redelivered(key: MarkerKey)

  /** The store's `get`: the value stored for `key`, or nothing. */
  function Get(store: Store, key: MarkerKey): Option<MarkerValue>
  {
    if key in store then Some(store[key]) else None
  }

  /** The predicate handed to the markers queue: `get(k) == null`. The queue
      uses it to drop entries whose marker is no longer pending. */
  predicate Resolved(store: Store, key: MarkerKey): (r: bool)
    ensures r <==> key !in store
  {
    Get(store, key) == None
  }

  /** The store holds only Start markers. */
  ghost predicate OnlyStarts(store: Store)
  {
    forall k :: k in store ==> store[k].Start?
  }

  /** Every pending marker is waiting in the queue with its stored value. */
  ghost predicate Tracked(s: State)
  {
    forall k :: k in s.store ==> (k, s.store[k]) in s.queue
  }

  // ---------------------------------------------------------------------
  // process(key, value) and the redelivery callback
  // ---------------------------------------------------------------------

  /** The effects of one `process(key, value)` call, in the order they happen. */
  function Effects(key: MarkerKey, value: MarkerValue): (es: seq<Effect>)
    ensures |es| == if value.Start? then 3 else 2
    ensures es[|es| - 1] == Commit
    ensures forall i :: 0 <= i < |es| - 1 ==> MutationOf(es[i], key)
    ensures value.Start? <==> Put(key, value) in es
    ensures value.Start? <==> Offer(key, value) in es
    ensures !value.Start? <==> Delete(key) in es
  {
    if value.Start? then [Put(key, value), Offer(key, value), Commit]
    else [Delete(key), Commit]
  }

  /** `process(key, value)`: a Start marker is put into the store and offered
      to the queue; any other marker deletes the key from the store (nothing
      happens to an absent key). The position is committed in both cases. */
  function Process(s: State, key: MarkerKey, value: MarkerValue): (t: State)
    ensures value.Start? ==> Get(t.store, key) == Some(value)
    ensures !value.Start? ==> key !in t.store
    ensures forall k :: k != key ==> Get(t.store, k) == Get(s.store, k)
    ensures value.Start? ==> t.queue == s.queue + [(key, value)]
    ensures !value.Start? ==> t.queue == s.queue
    ensures |t.trace| > |s.trace| && t.trace[..|s.trace|] == s.trace
    ensures CommitCount(t.trace[|s.trace|..]) == 1 && t.trace[|t.trace| - 1] == Commit
  {
    var es := Effects(key, value);
    var t := if value.Start? then State(s.store[key := value], s.queue + [(key, value)], s.trace + es)
             else State(s.store - {key}, s.queue, s.trace + es);
    assert t.trace[|s.trace|..] == es;
    CommitCountOfMutationsThenCommit(es);
    t
  }

  /** The callback given to the redelivery executor: once a marker has been
      redelivered, its key is deleted from the store. */
  function Retire(s: State, key: MarkerKey): (t: State)
    ensures key !in t.store
    ensures forall k :: k != key ==> Get(t.store, k) == Get(s.store, k)
    ensures t.queue == s.queue
    ensures t.trace == s.trace + [Delete(key)]
  {
    State(s.store - {key}, s.queue, s.trace + [Delete(key)])
  }

  function Step(s: State, ev: Event): State
  {
    match ev
    case Record(k, v) => Process(s, k, v)
    case Redelivered(k) => Retire(s, k)
  }

  /** The state after a sequence of events, the last one applied last. */
  function Run(s: State, evs: seq<Event>): State
    decreases |evs|
  {
    if evs == [] then s else Step(Run(s, evs[..|evs| - 1]), evs[|evs| - 1])
  }

  /** Number of marker records (calls of `process`) among the events. */
  function Records(evs: seq<Event>): nat
    decreases |evs|
  {
    if evs == [] then 0
    else Records(evs[..|evs| - 1]) + (if evs[|evs| - 1].Record? then 1 else 0)
  }

  // ---------------------------------------------------------------------
  // The effect log as an independent semantics
  // ---------------------------------------------------------------------

  /** What a single logged effect does to the state. */
  function Apply(s: State, e: Effect): State
  {
    match e
    case Put(k, v) => State(s.store[k := v], s.queue, s.trace + [e])
    case Delete(k) => State(s.store - {k}, s.queue, s.trace + [e])
    case Offer(k, v) => State(s.store, s.queue + [(k, v)], s.trace + [e])
    case Commit => State(s.store, s.queue, s.trace + [e])
  }

  /** Performs a log of effects in order. */
  function Replay(s: State, es: seq<Effect>): (t: State)
    decreases |es|
    ensures t.trace == s.trace + es
  {
    if es == [] then s
    else
      var r := Replay(s, es[..|es| - 1]);
      assert es == es[..|es| - 1] + [es[|es| - 1]];
      Apply(r, es[|es| - 1])
  }

  lemma {:induction false} ReplayConcat(s: State, a: seq<Effect>, b: seq<Effect>)
    ensures Replay(s, a + b) == Replay(Replay(s, a), b)
    decreases |b|
  {
    if b == [] {
      assert a + b == a;
    } else {
      var n := |b| - 1;
      assert (a + b)[..|a + b| - 1] == a + b[..n];
      assert (a + b)[|a + b| - 1] == b[n];
      ReplayConcat(s, a, b[..n]);
    }
  }

  lemma ReplayOne(s: State, e: Effect)
    ensures Replay(s, [e]) == Apply(s, e)
  {
  }

  /** `process` does exactly what its logged effects say, in that order. */
  lemma ProcessIsReplayOfEffects(s: State, key: MarkerKey, value: MarkerValue)
    ensures Process(s, key, value) == Replay(s, Effects(key, value))
  {
    if value.Start? {
      var put, offer := Put(key, value), Offer(key, value);
      ReplayOne(s, put);
      ReplayOne(Apply(s, put), offer);
      ReplayOne(Apply(Apply(s, put), offer), Commit);
      ReplayConcat(s, [put], [offer]);
      assert [put] + [offer] == [put, offer];
      ReplayConcat(s, [put, offer], [Commit]);
      assert [put, offer] + [Commit] == Effects(key, value);
    } else {
      ReplayOne(s, Delete(key));
      ReplayOne(Apply(s, Delete(key)), Commit);
      ReplayConcat(s, [Delete(key)], [Commit]);
      assert [Delete(key)] + [Commit] == Effects(key, value);
    }
  }

  /** A Start marker is already in the store when the queue receives it:
      replaying the effects that come before the offer stores the marker. */
  lemma OfferFollowsPut(s: State, key: MarkerKey, value: MarkerValue, i: nat)
    requires i < |Effects(key, value)| && Effects(key, value)[i].Offer?
    ensures Get(Replay(s, Effects(key, value)[..i]).store, key) == Some(value)
  {
    var es := Effects(key, value);
    assert value.Start? && i == 1;
    assert es[..i] == [Put(key, value)];
    ReplayOne(s, Put(key, value));
  }

  /** The effects one event logs. */
  function StepEffects(ev: Event): seq<Effect>
  {
    match ev
    case Record(k, v) => Effects(k, v)
    case Redelivered(k) => [Delete(k)]
  }

  lemma StepIsReplay(r: State, ev: Event)
    ensures Step(r, ev) == Replay(r, StepEffects(ev))
  {
    match ev {
      case Record(k, v) =>
        ProcessIsReplayOfEffects(r, k, v);
      case Redelivered(k) =>
        ReplayOne(r, Delete(k));
    }
  }

  /** Whatever sequence of records and redeliveries has been handled, the
      store and the queue are exactly what performing the logged effects, in
      the logged order, produces from the starting state. */
  lemma {:induction false} RunIsReplayOfTrace(s: State, evs: seq<Event>)
    ensures |Run(s, evs).trace| >= |s.trace|
    ensures Run(s, evs).trace[..|s.trace|] == s.trace
    ensures Run(s, evs) == Replay(s, Run(s, evs).trace[|s.trace|..])
    decreases |evs|
  {
    if evs != [] {
      var p := evs[..|evs| - 1];
      var ev := evs[|evs| - 1];
      var r := Run(s, p);
      RunIsReplayOfTrace(s, p);
      var logged := r.trace[|s.trace|..];
      var es := StepEffects(ev);
      StepIsReplay(r, ev);
      assert r.trace == s.trace + logged;
      assert Run(s, evs).trace == s.trace + (logged + es);
      assert Run(s, evs).trace[|s.trace|..] == logged + es;
      ReplayConcat(s, logged, es);
    }
  }

  // ---------------------------------------------------------------------
  // Properties of process and of the callback
  // ---------------------------------------------------------------------

  /** Handling a Complete marker a second time changes neither the store nor
      the queue; only the position is committed again. */
  lemma CompleteIsIdempotent(s: State, key: MarkerKey)
    ensures var once := Process(s, key, Complete);
            var twice := Process(once, key, Complete);
            twice.store == once.store && twice.queue == once.queue
            && twice.trace == once.trace + [Delete(key), Commit]
  {
  }

  /** A Complete marker for a key that is not in the store leaves the store
      and the queue as they were. */
  lemma CompleteOfAbsentKeyIsNoop(s: State, key: MarkerKey)
    requires key !in s.store
    ensures Process(s, key, Complete).store == s.store
    ensures Process(s, key, Complete).queue == s.queue
  {
  }

  /** The queue predicate after one event: false for the key of a Start
      marker, true for the key of a Complete marker or of a redelivered
      marker, unchanged for every other key. */
  lemma ResolvedAfterStep(s: State, ev: Event, k: MarkerKey)
    ensures var t := Step(s, ev);
            if k != ev.key then Resolved(t.store, k) == Resolved(s.store, k)
            else Resolved(t.store, k) <==> !(ev.Record? && ev.value.Start?)
  {
  }

  lemma StepKeepsOnlyStarts(s: State, ev: Event)
    requires OnlyStarts(s.store)
    ensures OnlyStarts(Step(s, ev).store)
  {
  }

  /** Only Start markers are ever put, so a store holding only Start markers
      keeps doing so through any sequence of records and redeliveries. */
  lemma {:induction false} RunKeepsOnlyStarts(s: State, evs: seq<Event>)
    requires OnlyStarts(s.store)
    ensures OnlyStarts(Run(s, evs).store)
    decreases |evs|
  {
    if evs != [] {
      RunKeepsOnlyStarts(s, evs[..|evs| - 1]);
      StepKeepsOnlyStarts(Run(s, evs[..|evs| - 1]), evs[|evs| - 1]);
    }
  }

  lemma StepKeepsTracked(s: State, ev: Event)
    requires Tracked(s)
    ensures Tracked(Step(s, ev))
  {
  }

  /** Every pending marker stays in the queue with its current value: a Start
      marker is offered when it is stored, and a marker leaves the store only
      by deletion. */
  lemma {:induction false} RunKeepsTracked(s: State, evs: seq<Event>)
    requires Tracked(s)
    ensures Tracked(Run(s, evs))
    decreases |evs|
  {
    if evs != [] {
      RunKeepsTracked(s, evs[..|evs| - 1]);
      StepKeepsTracked(Run(s, evs[..|evs| - 1]), evs[|evs| - 1]);
    }
  }

  /** Each call of `process` commits exactly once, and the redelivery callback
      never commits. */
  lemma {:induction false} RunCommitsOncePerRecord(s: State, evs: seq<Event>)
    ensures |Run(s, evs).trace| >= |s.trace|
    ensures CommitCount(Run(s, evs).trace) == CommitCount(s.trace) + Records(evs)
    decreases |evs|
  {
    if evs != [] {
      var p := evs[..|evs| - 1];
      var ev := evs[|evs| - 1];
      var r := Run(s, p);
      RunCommitsOncePerRecord(s, p);
      var t := Step(r, ev);
      match ev {
        case Record(k, v) =>
          assert t.trace == t.trace[..|r.trace|] + t.trace[|r.trace|..];
          CommitCountConcat(r.trace, t.trace[|r.trace|..]);
        case Redelivered(k) =>
          CommitCountConcat(r.trace, [Delete(k)]);
          assert CommitCount([Delete(k)]) == 0 by {
            assert [Delete(k)][1..] == [];
          }
      }
    }
  }

  /** The last event about `key`, if any. */
  function LatestFor(evs: seq<Event>, key: MarkerKey): (r: Option<Event>)
    decreases |evs|
    ensures r.Some? ==> r.value in evs && r.value.key == key
    ensures r.None? <==> forall i :: 0 <= i < |evs| ==> evs[i].key != key
  {
    if evs == [] then None
    else if evs[|evs| - 1].key == key then Some(evs[|evs| - 1])
    else LatestFor(evs[..|evs| - 1], key)
  }

  /** What an event leaves in the store for its own key. */
  function Leaves(ev: Event): Option<MarkerValue>
  {
    if ev.Record? && ev.value.Start? then Some(ev.value) else None
  }

  /** The store entry for a key is decided by the last event about that key
      alone: the latest Start marker unless a Complete marker or a
      redelivery came after it, and the starting entry if no event names the
      key. */
  lemma {:induction false} RunLookup(s: State, evs: seq<Event>, key: MarkerKey)
    ensures Get(Run(s, evs).store, key) ==
            match LatestFor(evs, key)
            case None => Get(s.store, key)
            case Some(ev) => Leaves(ev)
    decreases |evs|
  {
    if evs != [] {
      var p := evs[..|evs| - 1];
      var ev := evs[|evs| - 1];
      RunLookup(s, p, key);
      var r := Run(s, p);
      if ev.key != key {
        assert Get(Step(r, ev).store, key) == Get(r.store, key) by {
          match ev {
            case Record(k, v) =>
            case Redelivered(k) =>
          }
        }
      }
    }
  }

  /** A Start marker followed, later, by a Complete marker for the same key
      leaves nothing pending for that key, whatever other keys' markers come
      in between, and however many times the Start marker was repeated. */
  lemma StartThenCompleteLeavesKeyResolved(s: State, key: MarkerKey, v: MarkerValue, between: seq<Event>)
    requires v.Start?
    requires forall i :: 0 <= i < |between| ==> between[i].key != key || between[i] == Record(key, v)
    ensures Get(Run(s, [Record(key, v)] + between).store, key) == Some(v)
    ensures Resolved(Run(s, [Record(key, v)] + between + [Record(key, Complete)]).store, key)
  {
    var pending := [Record(key, v)] + between;
    RunLookup(s, pending, key);
    assert pending[0].key == key;
    var ev := LatestFor(pending, key).value;
    assert ev == Record(key, v) by {
      var j :| 0 <= j < |pending| && pending[j] == ev;
      if j > 0 { assert pending[j] == between[j - 1]; }
    }
  }

  /** A crash after some effects of a `process` call but before its commit
      leaves the position uncommitted, so the record is handled again after
      restart; handling it again gives the store the same contents as a
      single uninterrupted call would. */
  lemma CrashBeforeCommitIsSafe(s: State, key: MarkerKey, value: MarkerValue, n: nat)
    requires n < |Effects(key, value)|
    ensures CommitCount(Effects(key, value)[..n]) == 0
    ensures Process(Replay(s, Effects(key, value)[..n]), key, value).store == Process(s, key, value).store
  {
    var es := Effects(key, value);
    assert forall i :: 0 <= i < n ==> !es[..n][i].Commit?;
    CommitCountOfMutations(es[..n]);
    var c := Replay(s, es[..n]);
    if value.Start? {
      var put, offer := Put(key, value), Offer(key, value);
      if n == 0 {
        assert es[..n] == [];
      } else if n == 1 {
        assert es[..n] == [put];
        ReplayOne(s, put);
      } else {
        assert es[..n] == [put] + [offer];
        ReplayConcat(s, [put], [offer]);
        ReplayOne(s, put);
        ReplayOne(Apply(s, put), offer);
      }
      assert c.store[key := value] == s.store[key := value];
    } else {
      if n == 0 {
        assert es[..n] == [];
      } else {
        assert es[..n] == [Delete(key)];
        ReplayOne(s, Delete(key));
      }
      assert c.store - {key} == s.store - {key};
    }
  }

  // ---------------------------------------------------------------------
  // Recovery: restoreMarkersQueue
  // ---------------------------------------------------------------------

  function KeysOf(es: seq<Entry>): set<MarkerKey>
  {
    set i | 0 <= i < |es| :: es[i].0
  }

  predicate DistinctKeys(es: seq<Entry>)
  {
    forall i, j :: 0 <= i < j < |es| ==> es[i].0 != es[j].0
  }

  /** `es` lists every entry of `store` exactly once, in some order. */
  predicate Enumerates(es: seq<Entry>, store: Store)
  {
    && DistinctKeys(es)
    && KeysOf(es) == store.Keys
    && forall i :: 0 <= i < |es| ==> es[i].0 in store && store[es[i].0] == es[i].1
  }

  /** One Offer effect per restored entry, in order. */
  function Offers(es: seq<Entry>): (r: seq<Effect>)
    decreases |es|
    ensures |r| == |es|
    ensures forall i :: 0 <= i < |es| ==> r[i] == Offer(es[i].0, es[i].1)
  {
    if es == [] then [] else Offers(es[..|es| - 1]) + [Offer(es[|es| - 1].0, es[|es| - 1].1)]
  }

  lemma KeysOfSnoc(es: seq<Entry>, e: Entry)
    ensures KeysOf(es + [e]) == KeysOf(es) + {e.0}
  {
    var es' := es + [e];
    forall k | k in KeysOf(es')
      ensures k in KeysOf(es) + {e.0}
    {
      var i :| 0 <= i < |es'| && es'[i].0 == k;
      if i < |es| { assert es[i].0 == k; }
    }
    forall k | k in KeysOf(es) + {e.0}
      ensures k in KeysOf(es')
    {
      if k == e.0 {
        assert es'[|es|].0 == k;
      } else {
        var i :| 0 <= i < |es| && es[i].0 == k;
        assert es'[i].0 == k;
      }
    }
  }

  lemma {:induction false} DistinctKeysCount(es: seq<Entry>)
    requires DistinctKeys(es)
    ensures |KeysOf(es)| == |es|
    decreases |es|
  {
    if es != [] {
      var n := |es| - 1;
      DistinctKeysCount(es[..n]);
      assert es == es[..n] + [es[n]];
      KeysOfSnoc(es[..n], es[n]);
      assert es[n].0 !in KeysOf(es[..n]);
    }
  }

  /** Recovery offers exactly as many entries as the store holds, one per
      pending marker. */
  lemma EnumerationSize(es: seq<Entry>, store: Store)
    requires Enumerates(es, store)
    ensures |es| == |store|
  {
    DistinctKeysCount(es);
    assert |store.Keys| == |store|;
  }

  /** After recovery every pending marker is in the queue with its stored
      value. */
  lemma EnumerationIsTracked(es: seq<Entry>, store: Store, trace: seq<Effect>)
    requires Enumerates(es, store)
    ensures Tracked(State(store, es, trace))
  {
  }
}
