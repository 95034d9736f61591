/**
 * The request-coalescing combinator `batch(fun)` of batch.js.
 *
 * Every call adds its ids to the accumulator `batches`; the first call that
 * finds the accumulator empty creates a new shared `result`, whose callback
 * (the flush) runs on a later turn of the event loop: it takes the
 * accumulated keys, empties the accumulator and calls `fun` once. Each
 * caller then reads the shared result, cut down to the ids it asked for.
 *
 * The event loop is made explicit: `Request` is the synchronous part of a
 * call, `Flush` runs the oldest scheduled flush callback (they run in the
 * order they were scheduled), `Deliver` is what a caller's promise holds.
 */
module Batch {
  import opened Js

  /** One call of the batched function: the ids it passed and the flush
      (the `result` promise current at the time of the call) it reads. */
  datatype Call<K> = Call(ids: seq<K>, flush: nat)

  /** What a caller's promise holds: not yet settled, rejected because `fun`
      failed, or the caller's own slice of the shared result (`None` where
      the shared result has no entry: `undefined`). */
  datatype Delivery<K, V> = Pending | Rejected | Resolved(values: map<K, Option<V>>)

  /** The ids passed by a sequence of calls. */
  function IdsOf<K>(calls: seq<Call<K>>): set<K> {
    if calls == [] then {} else IdsOf(calls[..|calls| - 1]) + Elems(calls[|calls| - 1].ids)
  }

  lemma IdsOfSnoc<K>(calls: seq<Call<K>>, c: Call<K>)
    ensures IdsOf(calls + [c]) == IdsOf(calls) + Elems(c.ids)
  {
    assert (calls + [c])[..|calls|] == calls;
  }

  /** `ids.forEach(id => batches[id] = true)`: every id becomes a key of the
      accumulator, once however often it occurs. */
  method MarkAll<K>(batches: set<K>, ids: seq<K>) returns (r: set<K>)
    ensures r == batches + Elems(ids)
  {
    r := batches;
    for i := 0 to |ids|
      invariant r == batches + Elems(ids[..i])
    {
      assert Elems(ids[..i + 1]) == Elems(ids[..i]) + {ids[i]} by {
        assert ids[..i + 1] == ids[..i] + [ids[i]];
      }
      r := r + {ids[i]};
    }
    assert ids[..|ids|] == ids;
  }

  /** `batch(fun)` exactly as batch.js writes it. */
  class Batcher<K(==), V> {
    /** The wrapped fetcher; `None` stands for a rejected promise. */
    const fun: set<K> -> Option<map<K, V>>
    /** The accumulator `batches`, as the set of its keys. */
    var batches: set<K>
    /** How many `result` promises (flushes) have been created. */
    var scheduled: nat
    /** How many flush callbacks have run. */
    var ran: nat
    /** For each flush that ran: the keys it passed to `fun` ... */
    var sent: seq<set<K>>
    /** ... and what `fun` produced for them. */
    var outcomes: seq<Option<map<K, V>>>
    /** Every call so far, with the flush whose result it reads. */
    var calls: seq<Call<K>>
    /** The first call made since the last flush. */
    ghost var windowStart: nat

    ghost predicate Valid()
      reads this
    {
      && ran <= scheduled
      && |sent| == ran && |outcomes| == ran
      && (forall f :: 0 <= f < ran ==> outcomes[f] == fun(sent[f]))
      && (forall t :: 0 <= t < |calls| ==> calls[t].flush < scheduled)
      && windowStart <= |calls|
      && batches == IdsOf(calls[windowStart..])
      && (batches != {} ==> ran < scheduled)
    }

    constructor (fun: set<K> -> Option<map<K, V>>)
      ensures Valid() && this.fun == fun
      ensures batches == {} && scheduled == 0 && ran == 0 && sent == [] && calls == []
    {
      this.fun := fun;
      batches, scheduled, ran := {}, 0, 0;
      sent, outcomes, calls := [], [], [];
      windowStart := 0;
    }

    /** The synchronous part of a call `batched(ids)`: it returns the caller's
        ticket, the index of its call. */
    method Request(ids: seq<K>) returns (ticket: nat)
      requires Valid()
      modifies this
      ensures Valid()
      // a new shared result, hence a new flush, only when the accumulator was empty
      ensures scheduled == old(scheduled) + (if old(batches) == {} then 1 else 0)
      // ids are added as set members: duplicates collapse to one key
      ensures batches == old(batches) + Elems(ids)
      ensures calls == old(calls) + [Call(ids, scheduled - 1)] && ticket == |old(calls)|
      ensures ran == old(ran) && sent == old(sent) && outcomes == old(outcomes)
      ensures windowStart == old(windowStart)
    {
      var current := if batches == {} then scheduled + 1 else scheduled;
      var window := calls[windowStart..];
      var c := Call(ids, current - 1);
      var next := calls + [c];
      IdsOfSnoc(window, c);
      assert next[windowStart..] == window + [c];
      var marked := MarkAll(batches, ids);
      ticket := |calls|;
      scheduled, batches, calls := current, marked, next;
    }

    /** The oldest scheduled flush callback runs: it snapshots the keys,
        resets the accumulator, then calls `fun` once with the snapshot. */
    method Flush()
      requires Valid() && ran < scheduled
      modifies this
      ensures Valid()
      ensures batches == {}
      ensures sent == old(sent) + [old(batches)]
      // `fun` gets exactly the union of the ids of every call since the last flush
      ensures sent[old(ran)] == IdsOf(old(calls)[old(windowStart)..])
      ensures outcomes == old(outcomes) + [fun(old(batches))]
      ensures ran == old(ran) + 1 && windowStart == |calls|
      ensures calls == old(calls) && scheduled == old(scheduled)
    {
      var keys := batches;
      batches := {};
      var fetched := fun(keys);
      sent := sent + [keys];
      outcomes := outcomes + [fetched];
      ran := ran + 1;
      windowStart := |calls|;
    }

    /** What the caller holding `ticket` receives: once its flush has run,
        the shared result pruned to exactly the ids it asked for. */
    method Deliver(ticket: nat) returns (d: Delivery<K, V>)
      requires Valid() && ticket < |calls|
      ensures d.Pending? <==> calls[ticket].flush >= ran
      ensures d.Rejected? <==> calls[ticket].flush < ran && outcomes[calls[ticket].flush].None?
      ensures d.Resolved? ==>
                && d.values.Keys == Elems(calls[ticket].ids)
                && forall id :: id in d.values ==> d.values[id] == Find(outcomes[calls[ticket].flush].value, id)
    {
      var c := calls[ticket];
      if c.flush >= ran {
        return Pending;
      }
      var outcome := outcomes[c.flush];
      if outcome.None? {
        return Rejected;
      }
      var results := outcome.value;
      var pruned := map[];
      for i := 0 to |c.ids|
        invariant pruned.Keys == Elems(c.ids[..i])
        invariant forall id :: id in pruned ==> pruned[id] == Find(results, id)
      {
        assert Elems(c.ids[..i + 1]) == Elems(c.ids[..i]) + {c.ids[i]} by {
          assert c.ids[..i + 1] == c.ids[..i] + [c.ids[i]];
        }
        pruned := pruned[c.ids[i] := Find(results, c.ids[i])];
      }
      assert c.ids[..|c.ids|] == c.ids;
      d := Resolved(pruned);
    }
  }

  /** `batch(fun)` as evidently intended: a new flush is scheduled when no
      flush is pending (the accumulator may be empty while one is, after a
      call with no ids), so every caller's ids reach the `fun` call whose
      result it reads. */
  class InFlightBatcher<K(==), V> {
    const fun: set<K> -> Option<map<K, V>>
    var batches: set<K>
    var scheduled: nat
    var ran: nat
    var sent: seq<set<K>>
    var outcomes: seq<Option<map<K, V>>>
    var calls: seq<Call<K>>

    ghost predicate Valid()
      reads this
    {
      && ran <= scheduled <= ran + 1
      && |sent| == ran && |outcomes| == ran
      && (forall f :: 0 <= f < ran ==> outcomes[f] == fun(sent[f]))
      && (batches != {} ==> ran < scheduled)
      && (forall t :: 0 <= t < |calls| ==> calls[t].flush < scheduled)
      // a caller whose flush ran had its ids passed to `fun` ...
      && (forall t :: 0 <= t < |calls| && calls[t].flush < ran ==> Elems(calls[t].ids) <= sent[calls[t].flush])
      // ... and one whose flush is still pending has them in the accumulator
      && (forall t :: 0 <= t < |calls| && calls[t].flush >= ran ==> Elems(calls[t].ids) <= batches)
    }

    constructor (fun: set<K> -> Option<map<K, V>>)
      ensures Valid() && this.fun == fun
      ensures batches == {} && scheduled == 0 && ran == 0 && sent == [] && calls == []
    {
      this.fun := fun;
      batches, scheduled, ran := {}, 0, 0;
      sent, outcomes, calls := [], [], [];
    }

    method Request(ids: seq<K>) returns (ticket: nat)
      requires Valid()
      modifies this
      ensures Valid()
      ensures scheduled == old(scheduled) + (if old(ran) == old(scheduled) then 1 else 0)
      ensures batches == old(batches) + Elems(ids)
      ensures calls == old(calls) + [Call(ids, scheduled - 1)] && ticket == |old(calls)|
      ensures ran == old(ran) && sent == old(sent) && outcomes == old(outcomes)
    {
      if ran == scheduled {
        scheduled := scheduled + 1;
      }
      batches := MarkAll(batches, ids);
      ticket := |calls|;
      calls := calls + [Call(ids, scheduled - 1)];
    }

    method Flush()
      requires Valid() && ran < scheduled
      modifies this
      ensures Valid()
      ensures batches == {}
      ensures sent == old(sent) + [old(batches)]
      ensures outcomes == old(outcomes) + [fun(old(batches))]
      ensures ran == old(ran) + 1
      ensures calls == old(calls) && scheduled == old(scheduled)
    {
      var keys := batches;
      batches := {};
      var fetched := fun(keys);
      sent := sent + [keys];
      outcomes := outcomes + [fetched];
      ran := ran + 1;
    }

    method Deliver(ticket: nat) returns (d: Delivery<K, V>)
      requires Valid() && ticket < |calls|
      ensures d.Pending? <==> calls[ticket].flush >= ran
      ensures d.Rejected? <==> calls[ticket].flush < ran && outcomes[calls[ticket].flush].None?
      ensures d.Resolved? ==>
                && d.values.Keys == Elems(calls[ticket].ids)
                // every id the caller asked for was among the keys `fun` received
                && d.values.Keys <= sent[calls[ticket].flush]
                && forall id :: id in d.values ==> d.values[id] == Find(outcomes[calls[ticket].flush].value, id)
    {
      var c := calls[ticket];
      if c.flush >= ran {
        return Pending;
      }
      var outcome := outcomes[c.flush];
      if outcome.None? {
        return Rejected;
      }
      var results := outcome.value;
      var pruned := map[];
      for i := 0 to |c.ids|
        invariant pruned.Keys == Elems(c.ids[..i])
        invariant forall id :: id in pruned ==> pruned[id] == Find(results, id)
      {
        assert Elems(c.ids[..i + 1]) == Elems(c.ids[..i]) + {c.ids[i]} by {
          assert c.ids[..i + 1] == c.ids[..i] + [c.ids[i]];
        }
        pruned := pruned[c.ids[i] := Find(results, c.ids[i])];
      }
      assert c.ids[..|c.ids|] == c.ids;
      d := Resolved(pruned);
    }
  }

  /** A fetcher that knows every key: the value of `k` is `10 * k`. */
  function Tens(keys: set<int>): Option<map<int, int>> {
    Some(map k | k in keys :: 10 * k)
  }

  /** Two calls made before the flush share one `fun` call on the union of
      their ids, and each gets back exactly its own ids. */
  method TwoCallersOneFetch() returns (first: Delivery<int, int>, second: Delivery<int, int>, fetches: seq<set<int>>)
    ensures fetches == [{1, 2, 3}]
    ensures first == Resolved(map[1 := Some(10), 2 := Some(20)])
    ensures second == Resolved(map[2 := Some(20), 3 := Some(30)])
  {
    var b := new Batcher(Tens);
    assert Elems([1, 2]) == {1, 2} && Elems([2, 3]) == {2, 3};
    var t1 := b.Request([1, 2]);
    var t2 := b.Request([2, 3]);
    assert b.batches == {1, 2, 3};
    b.Flush();
    assert b.outcomes[0] == Tens({1, 2, 3});
    var m := Tens({1, 2, 3}).value;
    assert m[1] == 10 && m[2] == 20 && m[3] == 30;
    first := b.Deliver(t1);
    second := b.Deliver(t2);
    fetches := b.sent;
    assert first.values == map[1 := Some(10), 2 := Some(20)];
    assert second.values == map[2 := Some(20), 3 := Some(30)];
  }

  /** A call with no ids finds the accumulator empty and schedules a flush;
      so does the next call, although that first flush is still pending.
      The first flush takes the second caller's id, the second flush runs on
      nothing, and the second caller, which reads the second flush, gets
      `undefined` for an id the fetcher knows. */
  method EmptyCallStarvesNextCaller() returns (got: Delivery<int, int>, fetches: seq<set<int>>)
    ensures 1 in Tens({1}).value
    ensures fetches == [{1}, {}]
    ensures got == Resolved(map[1 := None])
  {
    var b := new Batcher(Tens);
    assert Elems<int>([]) == {} && Elems([1]) == {1};
    var t0 := b.Request([]);
    assert b.batches == {} && b.scheduled == 1;
    var t1 := b.Request([1]);
    assert b.batches == {1} && b.scheduled == 2 && b.calls[t1].flush == 1;
    b.Flush();
    b.Flush();
    assert b.outcomes[1] == Tens({});
    assert Tens({}).value == map[];
    got := b.Deliver(t1);
    fetches := b.sent;
    assert got.values == map[1 := None];
    assert 1 in Tens({1}).value;
  }

  /** The same calls against the corrected combinator: one flush, and the
      second caller gets its value. */
  method EmptyCallThenServed() returns (got: Delivery<int, int>, fetches: seq<set<int>>)
    ensures fetches == [{1}]
    ensures got == Resolved(map[1 := Some(10)])
  {
    var b := new InFlightBatcher(Tens);
    assert Elems<int>([]) == {} && Elems([1]) == {1};
    var t0 := b.Request([]);
    assert b.batches == {} && b.scheduled == 1;
    var t1 := b.Request([1]);
    assert b.batches == {1} && b.scheduled == 1 && b.calls[t1].flush == 0;
    b.Flush();
    assert b.outcomes[0] == Tens({1});
    assert Tens({1}).value[1] == 10;
    got := b.Deliver(t1);
    fetches := b.sent;
    assert got.values == map[1 := Some(10)];
  }
}
