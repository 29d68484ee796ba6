/** What holds between the source and the cache when one operation runs at a time. */
module SequentialCache {
  import opened Rows
  import opened MonoCache
  import opened InMemoryCache

  /** Nothing in the cache will be put back by the listener. */
  ghost predicate NoRepairs(c: Cache) {
    forall n :: n in c.notices ==> !Hot(c.monoMap, n)
  }

  /** No removal still to be reported is newer than the live row of its key. */
  ghost predicate NoticesOld(t: Table, c: Cache) {
    forall n :: n in c.notices && !n.cause.Explicit? && n.row.key in t ==> n.row.mono <= t[n.row.key].mono
  }

  /** Key `k` is cached, if at all, as in the source, and guarded at no more than its
      version. */
  predicate Clean(t: Table, c: Cache, k: Key) {
    && (k in c.moka ==> k in t && t[k] == c.moka[k])
    && (k in c.monoMap ==> k in t && c.monoMap[k] <= t[k].mono)
  }

  /** An invalidation of key `k` at version `mono` will clear all the cache has of it. */
  predicate Doomed(c: Cache, k: Key, mono: int, cause: InvalidateCause) {
    && (k in c.moka ==> Dooms(cause, c.moka[k].mono, mono))
    && (k in c.monoMap ==> Dooms(cause, c.monoMap[k], mono))
  }

  ghost predicate InStep(t: Table, c: Cache) {
    && KeyedTable(t) && Consistent(c) && NoRepairs(c) && NoticesOld(t, c)
    && forall k :: Clean(t, c, k)
  }

  /** In step except for keys whose invalidation is still to come. */
  ghost predicate InStepBut(t: Table, c: Cache, items: seq<(Key, int)>, cause: InvalidateCause) {
    && KeyedTable(t) && Consistent(c) && NoRepairs(c) && NoticesOld(t, c)
    && forall k :: Clean(t, c, k) || exists i :: 0 <= i < |items| && items[i].0 == k && Doomed(c, k, items[i].1, cause)
  }

  lemma EmptyInStep(t: Table)
    requires KeyedTable(t)
    ensures InStep(t, EMPTY) && CachedRows(EMPTY) == {}
  {
    assert forall k :: Clean(t, EMPTY, k);
  }

  lemma InsertOneInStep(t: Table, c: Cache, row: Row)
    requires InStep(t, c) && row.key in t && t[row.key] == row
    ensures InStep(t, InsertOne(c, row))
  {
    StepConsistent(c, Inserted(row));
    assert Clean(t, c, row.key);
    forall k
      ensures Clean(t, InsertOne(c, row), k)
    {
      assert Clean(t, c, k);
    }
  }

  lemma {:induction false} InsertAllInStep(t: Table, c: Cache, items: seq<Row>)
    requires InStep(t, c)
    requires forall row :: row in items ==> row.key in t && t[row.key] == row
    ensures InStep(t, InsertAll(c, items))
    decreases |items|
  {
    if items != [] {
      InsertOneInStep(t, c, items[0]);
      InsertAllInStep(t, InsertOne(c, items[0]), items[1..]);
    }
  }

  lemma EvictInStep(t: Table, c: Cache, k: Key, cause: RemovalCause)
    requires InStep(t, c) && k in c.moka && (cause.Expired? || cause.Size?)
    ensures InStep(t, Evict(c, k, cause))
  {
    StepConsistent(c, Evicted(k, cause));
    assert Clean(t, c, k);
    forall j
      ensures Clean(t, Evict(c, k, cause), j)
    {
      assert Clean(t, c, j);
    }
  }

  lemma DeliverInStep(t: Table, c: Cache, i: nat)
    requires InStep(t, c) && i < |c.notices|
    ensures InStep(t, Deliver(c, i))
  {
    StepConsistent(c, Delivered(i));
    var d := Deliver(c, i);
    assert !Hot(c.monoMap, c.notices[i]);
    assert d.moka == c.moka && d.notices == RemoveAt(c.notices, i);
    forall k
      ensures Clean(t, d, k)
    {
      assert Clean(t, c, k);
    }
  }

  lemma InvalidateOneInStep(t: Table, c: Cache, items: seq<(Key, int)>, cause: InvalidateCause)
    requires items != [] && InStepBut(t, c, items, cause)
    ensures InStepBut(t, InvalidateOne(c, items[0].0, items[0].1, cause), items[1..], cause)
  {
    var (k0, mono) := items[0];
    var d := InvalidateOne(c, k0, mono, cause);
    StepConsistent(c, Invalidated(k0, mono, cause));
    forall k
      ensures Clean(t, d, k) || exists i :: 0 <= i < |items[1..]| && items[1..][i].0 == k && Doomed(d, k, items[1..][i].1, cause)
    {
      if !Clean(t, c, k) {
        var i :| 0 <= i < |items| && items[i].0 == k && Doomed(c, k, items[i].1, cause);
        if i > 0 {
          assert items[1..][i - 1] == items[i];
          assert Doomed(d, k, items[1..][i - 1].1, cause);
        }
      }
    }
  }

  /** Once every item is invalidated the cache is in step again. */
  lemma {:induction false} InvalidateAllInStep(t: Table, c: Cache, items: seq<(Key, int)>, cause: InvalidateCause)
    requires InStepBut(t, c, items, cause)
    ensures InStep(t, InvalidateAll(c, items, cause))
    decreases |items|
  {
    if items != [] {
      InvalidateOneInStep(t, c, items, cause);
      InvalidateAllInStep(t, InvalidateOne(c, items[0].0, items[0].1, cause), items[1..], cause);
    }
  }

  lemma {:induction false} InsertAllInventsNothing(c: Cache, items: seq<Row>)
    ensures CachedRows(InsertAll(c, items)) <= CachedRows(c) + (set r | r in items)
    decreases |items|
  {
    if items != [] {
      CacheInventsNothing(c, Inserted(items[0]));
      InsertAllInventsNothing(InsertOne(c, items[0]), items[1..]);
    }
  }

  lemma {:induction false} InvalidateAllInventsNothing(c: Cache, items: seq<(Key, int)>, cause: InvalidateCause)
    ensures CachedRows(InvalidateAll(c, items, cause)) <= CachedRows(c)
    decreases |items|
  {
    if items != [] {
      CacheInventsNothing(c, Invalidated(items[0].0, items[0].1, cause));
      InvalidateAllInventsNothing(InvalidateOne(c, items[0].0, items[0].1, cause), items[1..], cause);
    }
  }
}
