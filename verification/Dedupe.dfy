/** The analytics queue: duplicate suppression with a bounded memory, and the batches that are sent. */
module Dedupe {
  import opened Wrappers

  /** A turn and the app or plugin used in it. */
  type Key = (string, string)

  const MAX_KEYS := 4096

  // ----- what is accepted, as a function of the calls

  /** Whether a key is new to the epoch that the next accepted key belongs to. */
  predicate IsNew(accepted: seq<Key>, key: Key) {
    key !in accepted[|accepted| / MAX_KEYS * MAX_KEYS..]
  }

  function Accepted(calls: seq<Key>): seq<Key> {
    if calls == [] then []
    else
      var before, key := Accepted(calls[..|calls| - 1]), calls[|calls| - 1];
      if IsNew(before, key) then before + [key] else before
  }

  /** A key is refused just when the same epoch, counted in accepted keys, already holds it. */
  lemma RefusedIff(accepted: seq<Key>, key: Key)
    ensures !IsNew(accepted, key) <==> exists i :: 0 <= i < |accepted| && accepted[i] == key && i / 4096 == |accepted| / 4096
  {
  }

  /** No key occurs twice in an epoch. */
  ghost predicate DistinctInEpochs(accepted: seq<Key>) {
    forall i, j :: 0 <= i < j < |accepted| && i / 4096 == j / 4096 ==> accepted[i] != accepted[j]
  }

  lemma DistinctSnoc(accepted: seq<Key>, key: Key)
    requires DistinctInEpochs(accepted) && IsNew(accepted, key)
    ensures DistinctInEpochs(accepted + [key])
  {
  }

  /** Whatever the calls, the accepted keys of an epoch are pairwise distinct. */
  lemma {:induction false} EpochsAreDistinct(calls: seq<Key>)
    ensures DistinctInEpochs(Accepted(calls))
  {
    if calls != [] {
      var before, key := Accepted(calls[..|calls| - 1]), calls[|calls| - 1];
      EpochsAreDistinct(calls[..|calls| - 1]);
      if IsNew(before, key) {
        DistinctSnoc(before, key);
      }
    }
  }

  // ----- the set that implements it

  /** Where the epoch of the last accepted key starts. */
  function Start(n: nat): (start: nat)
    ensures start <= n && n - start <= MAX_KEYS
  {
    if n == 0 then 0 else (n - 1) / MAX_KEYS * MAX_KEYS
  }

  lemma {:induction false} DistinctCardinality(keys: seq<Key>)
    requires forall i, j :: 0 <= i < j < |keys| ==> keys[i] != keys[j]
    ensures |set k | k in keys| == |keys|
  {
    if keys == [] {
      assert (set k | k in keys) == {};
    } else {
      var init, last := keys[..|keys| - 1], keys[|keys| - 1];
      DistinctCardinality(init);
      assert keys == init + [last];
      assert (set k | k in keys) == (set k | k in init) + {last};
      assert last !in init;
    }
  }

  /** The keys of the epoch of the last accepted key. */
  function Latest(accepted: seq<Key>): set<Key> {
    set k | k in accepted[Start(|accepted|)..]
  }

  lemma LatestCardinality(accepted: seq<Key>)
    requires DistinctInEpochs(accepted)
    ensures |Latest(accepted)| == |accepted| - Start(|accepted|)
  {
    var start := Start(|accepted|);
    var epoch := accepted[start..];
    forall i, j | 0 <= i < j < |epoch|
      ensures epoch[i] != epoch[j]
    {
      assert (start + i) / MAX_KEYS == (start + j) / MAX_KEYS;
      assert accepted[start + i] != accepted[start + j];
    }
    DistinctCardinality(epoch);
  }

  /** Clearing a full set leaves the keys that a new one is compared with. */
  lemma Cleared(accepted: seq<Key>, key: Key)
    requires DistinctInEpochs(accepted)
    ensures |Latest(accepted)| <= MAX_KEYS
    ensures |Latest(accepted)| == MAX_KEYS ==> IsNew(accepted, key) && Latest(accepted + [key]) == {key}
    ensures |Latest(accepted)| < MAX_KEYS ==> (IsNew(accepted, key) <==> key !in Latest(accepted))
    ensures |Latest(accepted)| < MAX_KEYS ==> Latest(accepted + [key]) == Latest(accepted) + {key}
  {
    LatestCardinality(accepted);
    var start := Start(|accepted|);
    if |Latest(accepted)| == MAX_KEYS {
      assert (accepted + [key])[Start(|accepted| + 1)..] == [key];
    } else {
      assert Start(|accepted| + 1) == start;
      assert (accepted + [key])[start..] == accepted[start..] + [key];
    }
  }

  class EmittedKeys {
    var emitted: set<Key>
    ghost var calls: seq<Key>

    /** The set holds the keys of the latest epoch. */
    ghost predicate Valid()
      reads this
    {
      emitted == Latest(Accepted(calls))
    }

    constructor ()
      ensures Valid() && calls == []
    {
      emitted, calls := {}, [];
    }

    /** `should_enqueue_plugin_used`, and `should_enqueue_app_used` for an app with a connector. */
    method ShouldEnqueue(key: Key) returns (novel: bool)
      requires Valid()
      modifies this
      ensures Valid() && |emitted| <= 4096 && calls == old(calls) + [key]
      ensures novel <==> IsNew(Accepted(old(calls)), key)
    {
      ghost var accepted := Accepted(calls);
      EpochsAreDistinct(calls);
      Cleared(accepted, key);
      if |emitted| >= MAX_KEYS {
        emitted := {};
      }
      novel := key !in emitted;
      emitted := emitted + {key};
      calls := calls + [key];
      assert calls[..|calls| - 1] == old(calls);
      EpochsAreDistinct(calls);
      Cleared(Accepted(calls), key);
    }

    /** An app without a connector is always reported, and not remembered. */
    method ShouldEnqueueAppUsed(turn: string, connector: Option<string>) returns (novel: bool)
      requires Valid()
      modifies this
      ensures Valid()
      ensures connector.None? ==> novel && calls == old(calls) && emitted == old(emitted)
      ensures connector.Some? ==>
                && (novel <==> IsNew(Accepted(old(calls)), (turn, connector.value)))
                && calls == old(calls) + [(turn, connector.value)]
    {
      if connector.None? {
        return true;
      }
      novel := ShouldEnqueue((turn, connector.value));
    }
  }

  // ----- batches

  function Concat<T>(batches: seq<seq<T>>): seq<T> {
    if batches == [] then [] else Concat(batches[..|batches| - 1]) + batches[|batches| - 1]
  }

  predicate IsShared<T>(batch: seq<T>, alone: T -> bool) {
    forall i :: 0 <= i < |batch| ==> !alone(batch[i])
  }

  /** A batch is one event that must travel alone, or some that need not. */
  predicate IsBatch<T>(batch: seq<T>, alone: T -> bool) {
    batch != [] && ((|batch| == 1 && alone(batch[0])) || IsShared(batch, alone))
  }

  /** No two neighbours could have been one batch. */
  ghost predicate Alternating<T>(batches: seq<seq<T>>, alone: T -> bool) {
    forall i :: 0 <= i < |batches| - 1 ==> !IsShared(batches[i], alone) || !IsShared(batches[i + 1], alone)
  }

  ghost predicate AreBatches<T>(batches: seq<seq<T>>, alone: T -> bool) {
    (forall i :: 0 <= i < |batches| ==> IsBatch(batches[i], alone)) && Alternating(batches, alone)
  }

  ghost predicate EndsAlone<T>(batches: seq<seq<T>>, alone: T -> bool) {
    batches != [] ==> !IsShared(batches[|batches| - 1], alone)
  }

  lemma AddBatch<T>(batches: seq<seq<T>>, batch: seq<T>, alone: T -> bool)
    requires AreBatches(batches, alone) && IsBatch(batch, alone)
    requires EndsAlone(batches, alone) || !IsShared(batch, alone)
    ensures AreBatches(batches + [batch], alone) && Concat(batches + [batch]) == Concat(batches) + batch
  {
  }

  /** Closes a batch that has begun. */
  method CloseBatch<T>(batches: seq<seq<T>>, current: seq<T>, alone: T -> bool) returns (all: seq<seq<T>>)
    requires IsShared(current, alone) && AreBatches(batches, alone) && EndsAlone(batches, alone)
    ensures AreBatches(all, alone) && Concat(all) == Concat(batches) + current
  {
    all := batches;
    if current != [] {
      AddBatch(batches, current, alone);
      all := batches + [current];
    }
  }

  lemma AddAlone<T>(batches: seq<seq<T>>, e: T, alone: T -> bool)
    requires AreBatches(batches, alone) && alone(e)
    ensures AreBatches(batches + [[e]], alone) && EndsAlone(batches + [[e]], alone)
    ensures Concat(batches + [[e]]) == Concat(batches) + [e]
  {
    assert !IsShared([e], alone) by {
      assert alone([e][0]);
    }
    AddBatch(batches, [e], alone);
  }

  /** The batches hold all events in order; those that may share a batch do so as far as the order allows. */
  method TrackEventRequestBatches<T>(events: seq<T>, alone: T -> bool) returns (batches: seq<seq<T>>)
    ensures Concat(batches) == events && AreBatches(batches, alone)
  {
    batches := [];
    var current: seq<T> := [];
    for i := 0 to |events|
      invariant Concat(batches) + current == events[..i]
      invariant IsShared(current, alone) && AreBatches(batches, alone) && EndsAlone(batches, alone)
    {
      var e := events[i];
      assert events[..i + 1] == events[..i] + [e];
      if alone(e) {
        batches := CloseBatch(batches, current, alone);
        current := [];
        AddAlone(batches, e, alone);
        batches := batches + [[e]];
      } else {
        current := current + [e];
      }
    }
    assert events[..|events|] == events;
    batches := CloseBatch(batches, current, alone);
  }
}
