/** Marker records read from the markers topic, and the effects that handling
    them has on the started-markers store, the markers queue and the consumer
    position of the redelivery processor. */
module Markers {

  datatype Option<T> = None | Some(value: T)

  /** Identifies one attempt to process a message: the partition and offset
      of that message in the data topic. */
  datatype MarkerKey = MarkerKey(partition: nat, messageOffset: nat)

  /** A Start marker says that processing of a message began; it carries the
      position of the original message so that it can be fetched again for
      redelivery. A Complete marker says that processing finished and carries
      nothing. `v.Start?` plays the part of `MarkerValue.isStart()`. */
  datatype MarkerValue = Start(partition: nat, messageOffset: nat) | Complete

  /** One entry of the markers queue, in the order `offer` received it. */
  type Entry = (MarkerKey, MarkerValue)

  /** One observable step of the processor: a store `put` or `delete`, a queue
      `offer`, or a commit of the consumption position. */
  datatype Effect =
    | Put(key: MarkerKey, value: MarkerValue)
    | Delete(key: MarkerKey)
    | Offer(key: MarkerKey, value: MarkerValue)
    | Commit

  /** `e` changes the store or the queue, and does so for `key`. */
  predicate MutationOf(e: Effect, key: MarkerKey)
  {
    !e.Commit? && e.key == key
  }

  /** Number of commits in a log of effects. */
  function CommitCount(es: seq<Effect>): nat
  {
    if es == [] then 0
    else (if es[0].Commit? then 1 else 0) + CommitCount(es[1..])
  }

  lemma {:induction false} CommitCountConcat(a: seq<Effect>, b: seq<Effect>)
    ensures CommitCount(a + b) == CommitCount(a) + CommitCount(b)
  {
    if a != [] {
      assert (a + b)[1..] == a[1..] + b;
      CommitCountConcat(a[1..], b);
    } else {
      assert a + b == b;
    }
  }

  /** A log with no commit in it counts none. */
  lemma {:induction false} CommitCountOfMutations(es: seq<Effect>)
    requires forall i :: 0 <= i < |es| ==> !es[i].Commit?
    ensures CommitCount(es) == 0
  {
    if es != [] {
      CommitCountOfMutations(es[1..]);
    }
  }

  /** A log made of mutations followed by a single final commit counts
      exactly one commit. */
  lemma {:induction false} CommitCountOfMutationsThenCommit(es: seq<Effect>)
    requires |es| >= 1 && es[|es| - 1] == Commit
    requires forall i :: 0 <= i < |es| - 1 ==> !es[i].Commit?
    ensures CommitCount(es) == 1
  {
    var n := |es| - 1;
    assert es == es[..n] + [Commit];
    CommitCountOfMutations(es[..n]);
    CommitCountConcat(es[..n], [Commit]);
  }
}
