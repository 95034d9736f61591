/**
 * The read-through cache combinator `cache(fun)` of cache.js.
 *
 * The wrapped function keeps one map from id to value for its whole life.
 * A call asks `fun` only for the requested ids whose cached value is not
 * truthy, writes everything `fun` answers into the map, and answers with
 * `fun`'s object completed by the cached value of every requested id.
 */
module Cache {
  import opened Js

  /** `cache[id]`: `undefined` for an id never stored. */
  function CachedValue<K>(cache: map<K, Value>, id: K): Value {
    Lookup(cache, id, Undefined)
  }

  /** `culledIds`: the requested ids, in order and with their repetitions,
      whose cached value is not truthy. */
  function Misses<K(!new)>(cache: map<K, Value>, ids: seq<K>): (r: seq<K>)
    ensures forall x :: multiset(r)[x] == if Truthy(CachedValue(cache, x)) then 0 else multiset(ids)[x]
  {
    if ids == [] then []
    else
      var n := |ids| - 1;
      assert ids == ids[..n] + [ids[n]];
      Misses(cache, ids[..n]) + (if Truthy(CachedValue(cache, ids[n])) then [] else [ids[n]])
  }

  /** Asking for one more id adds it to the misses exactly when its cached
      value is not truthy. */
  lemma MissesSnoc<K(!new)>(cache: map<K, Value>, pre: seq<K>, x: K)
    ensures Misses(cache, pre + [x]) == Misses(cache, pre) + (if Truthy(CachedValue(cache, x)) then [] else [x])
  {
    assert (pre + [x])[..|pre|] == pre;
  }

  /** With nothing cached yet, every requested id is a miss. */
  lemma {:induction false} EmptyCacheMissesAll<K(!new)>(ids: seq<K>)
    ensures Misses(map[], ids) == ids
  {
    if ids != [] {
      var n := |ids| - 1;
      var pre, x := ids[..n], ids[n];
      assert ids == pre + [x];
      EmptyCacheMissesAll(pre);
      MissesSnoc(map[], pre, x);
    }
  }

  /** When every requested id holds a truthy value, nothing is a miss. */
  lemma AllHitsNoMisses<K(!new)>(cache: map<K, Value>, ids: seq<K>)
    requires forall i :: 0 <= i < |ids| ==> Truthy(CachedValue(cache, ids[i]))
    ensures Misses(cache, ids) == []
  {
    var r := Misses(cache, ids);
    if r != [] {
      assert false;
    }
  }

  /** Once an answer holding a truthy value for every miss is stored, the
      same request has no misses left. */
  lemma StoredAnswerLeavesNoMisses<K(!new)>(cache: map<K, Value>, fetched: map<K, Value>, ids: seq<K>)
    requires forall x :: x in Misses(cache, ids) ==> x in fetched
    requires forall i :: 0 <= i < |ids| && ids[i] in fetched ==> Truthy(fetched[ids[i]])
    ensures Misses(cache + fetched, ids) == []
  {
    forall i | 0 <= i < |ids| ensures Truthy(CachedValue(cache + fetched, ids[i])) {
      var x := ids[i];
      if x in fetched {
        assert CachedValue(cache + fetched, x) == fetched[x];
      } else {
        NotMissedIsHit(cache, ids, i);
        assert CachedValue(cache + fetched, x) == CachedValue(cache, x);
      }
    }
    AllHitsNoMisses(cache + fetched, ids);
  }

  /** A requested id that is not a miss holds a truthy cached value. */
  lemma NotMissedIsHit<K(!new)>(cache: map<K, Value>, ids: seq<K>, i: nat)
    requires i < |ids| && ids[i] !in Misses(cache, ids)
    ensures Truthy(CachedValue(cache, ids[i]))
  {
    var x := ids[i];
    assert multiset(Misses(cache, ids))[x] == 0;
    assert multiset(ids)[x] > 0;
  }

  /** `cache(fun)`: the wrapped function with its private cache. */
  class ReadThroughCache<K(==,!new)> {
    /** The wrapped fetcher; `None` stands for a rejected promise. */
    const fun: seq<K> -> Option<map<K, Value>>
    /** The `cache` object. */
    var cache: map<K, Value>
    /** Every argument `fun` was called with, in order. */
    var asked: seq<seq<K>>

    constructor (fun: seq<K> -> Option<map<K, Value>>)
      ensures this.fun == fun && cache == map[] && asked == []
    {
      this.fun := fun;
      cache := map[];
      asked := [];
    }

    /** `assemble(results)`: store every entry of `results`, then fill in
        the cached value of every requested id. */
    method Assemble(ids: seq<K>, results: map<K, Value>) returns (r: map<K, Value>)
      modifies this`cache
      // every fetched entry overwrites the cached one; nothing is removed
      ensures cache == old(cache) + results
      ensures r.Keys == results.Keys + Elems(ids)
      // every key of the answer holds the value now cached for it
      ensures forall k :: k in r ==> r[k] == CachedValue(cache, k)
    {
      var pending := results.Keys;
      while pending != {}
        invariant pending <= results.Keys
        invariant cache == old(cache) + map k | k in results.Keys - pending :: results[k]
        decreases pending
      {
        var id :| id in pending;
        cache := cache[id := results[id]];
        pending := pending - {id};
      }
      assert cache == old(cache) + results;
      r := results;
      for i := 0 to |ids|
        invariant r.Keys == results.Keys + Elems(ids[..i])
        invariant forall k :: k in r ==> r[k] == CachedValue(cache, k)
      {
        assert Elems(ids[..i + 1]) == Elems(ids[..i]) + {ids[i]} by {
          assert ids[..i + 1] == ids[..i] + [ids[i]];
        }
        r := r[ids[i] := CachedValue(cache, ids[i])];
      }
      assert ids[..|ids|] == ids;
    }

    /** A call of the wrapped function. `None` is a rejected answer. */
    method Get(ids: seq<K>) returns (r: Option<map<K, Value>>)
      modifies this
      // with no misses `fun` is not called and the answer comes from the cache alone
      ensures Misses(old(cache), ids) == [] ==>
                && asked == old(asked) && cache == old(cache) && r.Some?
                && r.value.Keys == Elems(ids)
                && forall k :: k in r.value ==> r.value[k] == CachedValue(cache, k)
      // otherwise `fun` is called once, with the misses only
      ensures Misses(old(cache), ids) != [] ==> asked == old(asked) + [Misses(old(cache), ids)]
      ensures Misses(old(cache), ids) != [] && fun(Misses(old(cache), ids)).None? ==>
                r.None? && cache == old(cache)
      ensures Misses(old(cache), ids) != [] && fun(Misses(old(cache), ids)).Some? ==>
                var fetched := fun(Misses(old(cache), ids)).value;
                && r.Some?
                && cache == old(cache) + fetched
                && r.value.Keys == fetched.Keys + Elems(ids)
                && forall k :: k in r.value ==> r.value[k] == CachedValue(cache, k)
    {
      var culled := Misses(cache, ids);
      if |culled| > 0 {
        asked := asked + [culled];
        var fetched := fun(culled);
        if fetched.None? {
          return None;
        }
        var assembled := Assemble(ids, fetched.value);
        r := Some(assembled);
      } else {
        var assembled := Assemble(ids, map[]);
        r := Some(assembled);
      }
    }
  }

  /** A requested id is asked for exactly when its cached value is not
      truthy: a falsy value (`undefined`, `null`, `0`, `""`, `false`) is
      fetched again on every call, a truthy one never. */
  lemma MissExactlyWhenFalsy<K(!new)>(cache: map<K, Value>, ids: seq<K>, i: nat)
    requires i < |ids|
    ensures ids[i] in Misses(cache, ids) <==> !Truthy(CachedValue(cache, ids[i]))
  {
    assert ids[i] in multiset(ids);
    assert ids[i] in Misses(cache, ids) <==> ids[i] in multiset(Misses(cache, ids));
  }
}
