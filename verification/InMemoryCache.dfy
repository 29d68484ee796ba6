/** `CrudingInMemoryCache`: the two maps changed in place, item by item. */
module InMemoryCache {
  import opened Rows
  import opened MonoCache

  // ------------------------------------------- what a whole call amounts to

  function InsertAll(c: Cache, items: seq<Row>): Cache
    decreases |items|
  {
    if items == [] then c else InsertAll(InsertOne(c, items[0]), items[1..])
  }

  function InvalidateAll(c: Cache, items: seq<(Key, int)>, cause: InvalidateCause): Cache
    decreases |items|
  {
    if items == [] then c
    else InvalidateAll(InvalidateOne(c, items[0].0, items[0].1, cause), items[1..], cause)
  }

  /** The guard of `k`, if there is one, outlives every one of these invalidations. */
  predicate Outlives(guards: map<Key, int>, k: Key, items: seq<(Key, int)>, cause: InvalidateCause) {
    forall i :: 0 <= i < |items| && items[i].0 == k ==>
      k in guards && (items[i].1 < guards[k] || (cause.Update? && items[i].1 == guards[k]))
  }

  /** A key whose guard outlives all invalidations keeps its guard and its row; any other
      key is in neither map. */
  lemma {:induction false} InvalidateAllMeans(c: Cache, items: seq<(Key, int)>, cause: InvalidateCause, k: Key)
    ensures var d := InvalidateAll(c, items, cause);
      if Outlives(c.monoMap, k, items, cause) then SameAt(c, d, k) else k !in d.monoMap && k !in d.moka
    decreases |items|
  {
    if items != [] {
      var (j, mono) := items[0];
      var c1 := InvalidateOne(c, j, mono, cause);
      InvalidateOneMeans(c, j, mono, cause);
      InvalidateAllMeans(c1, items[1..], cause, k);
      assert forall i :: 1 <= i < |items| ==> items[i] == items[1..][i - 1];
      if Outlives(c.monoMap, k, items, cause) {
        assert SameAt(c, c1, k);
        assert Outlives(c1.monoMap, k, items[1..], cause);
      } else if Outlives(c1.monoMap, k, items[1..], cause) {
        assert j == k;
      }
    }
  }

  ghost predicate SameAt(c: Cache, d: Cache, k: Key) {
    && (k in d.monoMap <==> k in c.monoMap) && (k in d.monoMap ==> d.monoMap[k] == c.monoMap[k])
    && (k in d.moka <==> k in c.moka) && (k in d.moka ==> d.moka[k] == c.moka[k])
  }

  /** After inserting rows, every one of them is guarded at its version or a later one. The
      guard of a key only grows; where it has grown, an inserted row of that version is
      cached; where it has not, nothing has changed. */
  ghost predicate TookIn(c: Cache, d: Cache, items: seq<Row>) {
    && (forall r :: r in items ==> r.key in d.monoMap && r.mono <= d.monoMap[r.key])
    && (forall k :: k in c.monoMap ==> k in d.monoMap && c.monoMap[k] <= d.monoMap[k])
    && (forall k :: SameAt(c, d, k) || NewAt(c, d, k, items))
  }

  ghost predicate NewAt(c: Cache, d: Cache, k: Key, items: seq<Row>) {
    && k in d.monoMap && (k in c.monoMap ==> c.monoMap[k] < d.monoMap[k])
    && k in d.moka && d.moka[k] in items && d.moka[k].key == k && d.moka[k].mono == d.monoMap[k]
  }

  lemma {:induction false} InsertAllMeans(c: Cache, items: seq<Row>)
    ensures TookIn(c, InsertAll(c, items), items)
    decreases |items|
  {
    if items != [] {
      var c1, d := InsertOne(c, items[0]), InsertAll(c, items);
      InsertOneMeans(c, items[0]);
      InsertAllMeans(c1, items[1..]);
      assert forall r :: r in items <==> r == items[0] || r in items[1..];
      forall k ensures SameAt(c, d, k) || NewAt(c, d, k, items) {
        if SameAt(c1, d, k) {
          assert SameAt(c, c1, k) || k == items[0].key;
        }
      }
    }
  }

  class CrudingInMemoryCache {
    var mokaCache: map<Key, Row>
    var monoMap: map<Key, int>
    /** Removals moka has yet to report to the eviction listener. */
    var notices: seq<Notice>

    ghost function State(): Cache
      reads this
    {
      Cache(monoMap, mokaCache, notices)
    }

    constructor ()
      ensures State() == EMPTY
    {
      mokaCache, monoMap, notices := map[], map[], [];
    }

    method MokaInsertRow(row: Row)
      modifies this
      ensures State() == MokaInsert(old(State()), row)
    {
      if row.key in mokaCache {
        notices := notices + [Notice(mokaCache[row.key], Replaced)];
      }
      mokaCache := mokaCache[row.key := row];
    }

    method MokaInvalidateKey(key: Key)
      modifies this
      ensures State() == MokaInvalidate(old(State()), key)
    {
      if key in mokaCache {
        notices := notices + [Notice(mokaCache[key], Explicit)];
        mokaCache := mokaCache - {key};
      }
    }

    /** The rows come back whether or not they were taken into the cache. */
    method Insert(items: seq<Row>) returns (results: seq<Row>)
      modifies this
      ensures State() == InsertAll(old(State()), items) && TookIn(old(State()), State(), items)
      ensures results == items
    {
      InsertAllMeans(State(), items);
      results := [];
      for i := 0 to |items|
        invariant InsertAll(State(), items[i..]) == InsertAll(old(State()), items)
        invariant results == items[..i]
      {
        var item := items[i];
        assert items[i..][1..] == items[i + 1..];
        if item.key in monoMap {
          if monoMap[item.key] < item.mono {
            monoMap := monoMap[item.key := item.mono];
            MokaInsertRow(item);
          }
        } else {
          monoMap := monoMap[item.key := item.mono];
          MokaInsertRow(item);
        }
        results := results + [item];
      }
    }

    method Invalidate(keys: seq<(Key, int)>, cause: InvalidateCause)
      modifies this
      ensures State() == InvalidateAll(old(State()), keys, cause)
      ensures forall k :: if Outlives(old(monoMap), k, keys, cause) then SameAt(old(State()), State(), k)
                          else k !in monoMap && k !in mokaCache
    {
      forall k
        ensures var d := InvalidateAll(State(), keys, cause);
          if Outlives(monoMap, k, keys, cause) then SameAt(State(), d, k) else k !in d.monoMap && k !in d.moka
      {
        InvalidateAllMeans(State(), keys, cause, k);
      }
      for i := 0 to |keys|
        invariant InvalidateAll(State(), keys[i..], cause) == InvalidateAll(old(State()), keys, cause)
      {
        var (key, invalidateMono) := keys[i];
        assert keys[i..][1..] == keys[i + 1..];
        if key in monoMap {
          var cur := monoMap[key];
          if cause.Update? && cur < invalidateMono {
            monoMap := monoMap - {key};
            MokaInvalidateKey(key);
          } else if cause.Delete? && cur <= invalidateMono {
            monoMap := monoMap - {key};
            MokaInvalidateKey(key);
          }
        } else {
          assert monoMap - {key} == monoMap;
          MokaInvalidateKey(key);
        }
      }
    }

    /** Answers are aligned with the keys asked for. */
    method Get(keys: seq<Key>) returns (results: seq<Option<Row>>)
      ensures |results| == |keys|
      ensures forall i :: 0 <= i < |keys| ==>
        results[i] == if keys[i] in mokaCache then Some(mokaCache[keys[i]]) else None
    {
      results := [];
      for i := 0 to |keys|
        invariant |results| == i
        invariant forall j :: 0 <= j < i ==>
          results[j] == if keys[j] in mokaCache then Some(mokaCache[keys[j]]) else None
      {
        results := results + [if keys[i] in mokaCache then Some(mokaCache[keys[i]]) else None];
      }
    }

    /** moka expires an entry or drops it for want of room. */
    method EvictEntry(key: Key, cause: RemovalCause)
      requires key in mokaCache && (cause.Expired? || cause.Size?)
      modifies this
      ensures State() == Evict(old(State()), key, cause)
    {
      notices := notices + [Notice(mokaCache[key], cause)];
      mokaCache := mokaCache - {key};
    }

    /** The eviction listener is called for one outstanding removal. */
    method OnRemoval(i: nat)
      requires i < |notices|
      modifies this
      ensures State() == Deliver(old(State()), i)
    {
      var Notice(crud, cause) := notices[i];
      notices := RemoveAt(notices, i);
      match cause {
        case Replaced | Expired | Size =>
          if crud.key in monoMap {
            if monoMap[crud.key] < crud.mono {
              // an entry newer than the guard was dropped: put it back
              MokaInsertRow(crud);
              monoMap := monoMap[crud.key := crud.mono];
            } else {
              monoMap := monoMap - {crud.key};
            }
          }
        case Explicit =>
      }
    }
  }
}
