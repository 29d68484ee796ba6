/** `CrudableHandlerImpl` without hooks, one operation at a time. `useCache` is what
    `should_use_cache` answers for the handle of the call. */
module Handler {
  import opened Rows
  import opened MonoCache
  import opened InMemoryCache
  import opened SequentialCache
  import opened Source
  import BatchedRead

  // ------------------------------------------------- the cacheless meaning

  datatype Op =
    | Create(rows: seq<Row>)
    | Read(keys: seq<Key>)
    | Update(payload: seq<Row>)
    | Delete(doomed: seq<Key>)
    | Evict(key: Key, cause: RemovalCause)      // moka drops an entry
    | Notify(i: nat)                            // the listener is called

  function Elements<T>(s: seq<T>): set<T> {
    set x | x in s
  }

  function PlainTable(t: Table, op: Op): Table {
    match op
    case Create(rows) => if Acceptable(t, rows) then Put(t, rows) else t
    case Update(rows) => Put(t, Present(t, rows))
    case Delete(keys) => t - Elements(keys)
    case _ => t
  }

  /** The rows an operation answers with, `None` if it fails. */
  function PlainAnswer(t: Table, op: Op): Option<set<Row>> {
    match op
    case Create(rows) => if Acceptable(t, rows) then Some(Elements(rows)) else None
    case Read(keys) => Some(RowsAt(t, Elements(keys)))
    case Update(rows) => Some(Elements(Present(t, rows)))
    case _ => Some({})
  }

  function PlainRun(t: Table, ops: seq<Op>): Table
    decreases |ops|
  {
    if ops == [] then t else PlainRun(PlainTable(t, ops[0]), ops[1..])
  }

  function PlainAnswers(t: Table, ops: seq<Op>): seq<Option<set<Row>>>
    decreases |ops|
  {
    if ops == [] then [] else [PlainAnswer(t, ops[0])] + PlainAnswers(PlainTable(t, ops[0]), ops[1..])
  }

  /** A create succeeds exactly if its keys are distinct and new; it then adds exactly its
      rows and answers with them, and otherwise changes nothing. */
  lemma PlainCreateMeans(t: Table, rows: seq<Row>)
    ensures var u, answer := PlainTable(t, Op.Create(rows)), PlainAnswer(t, Op.Create(rows));
      && (answer.Some? <==> AllNew(t, rows))
      && (if AllNew(t, rows) then Added(t, u, rows) else u == t)
      && (answer.Some? ==> forall r :: r in answer.value <==> r in rows)
  {
    AcceptableMeans(t, rows);
  }

  /** A read changes nothing and answers with the stored rows of the keys asked. */
  lemma PlainReadMeans(t: Table, keys: seq<Key>)
    requires KeyedTable(t)
    ensures var answer := PlainAnswer(t, Read(keys));
      PlainTable(t, Read(keys)) == t && answer.Some?
      && forall r :: r in answer.value <==> r.key in keys && r.key in t && t[r.key] == r
  {
  }

  /** An update with distinct keys replaces the stored rows of its keys and answers with
      exactly the payload rows of stored keys. */
  lemma PlainUpdateMeans(t: Table, rows: seq<Row>)
    requires DistinctKeys(rows)
    ensures var u, answer := PlainTable(t, Op.Update(rows)), PlainAnswer(t, Op.Update(rows));
      Overwritten(t, u, rows) && answer.Some? && forall r :: r in answer.value <==> r in rows && r.key in t
  {
    UpdateMeans(t, rows, Present(t, rows));
  }

  /** A delete removes exactly the keys asked. */
  lemma PlainDeleteMeans(t: Table, keys: seq<Key>)
    ensures Removed(t, PlainTable(t, Op.Delete(keys)), keys) && PlainAnswer(t, Op.Delete(keys)) == Some({})
  {
  }

  /** Evictions and listener calls do not touch the source. */
  lemma PlainOthersMean(t: Table, op: Op)
    requires op.Evict? || op.Notify?
    ensures PlainTable(t, op) == t && PlainAnswer(t, op) == Some({})
  {
  }

  // ---------------------------------------------- what callers must respect

  /** Every row updated gets a greater version. */
  predicate Raises(t: Table, rows: seq<Row>) {
    forall r :: r in rows && r.key in t ==> t[r.key].mono < r.mono
  }

  /** No removal still to be reported concerns a newer row of a created key. */
  predicate NotOlderThanNotices(c: Cache, rows: seq<Row>) {
    forall n, r :: n in c.notices && r in rows && !n.cause.Explicit? && n.row.key == r.key ==> n.row.mono <= r.mono
  }

  // ----------------------------------------- table changes and the cache

  lemma CreatedInStep(t: Table, c: Cache, rows: seq<Row>)
    requires InStep(t, c) && Acceptable(t, rows) && NotOlderThanNotices(c, rows)
    ensures InStep(Put(t, rows), c)
  {
    PutMeans(t, rows);
    var u := Put(t, rows);
    forall k | k in u
      ensures u[k].key == k
    {
      if k in KeysOf(rows) {
        var r :| r in rows && r.key == k;
      }
    }
    forall k
      ensures Clean(u, c, k)
    {
      assert Clean(t, c, k);
    }
    forall n | n in c.notices && !n.cause.Explicit? && n.row.key in u
      ensures n.row.mono <= u[n.row.key].mono
    {
      if n.row.key in KeysOf(rows) {
        var r :| r in rows && r.key == n.row.key;
      }
    }
  }

  function Versions(rows: seq<Row>): (r: seq<(Key, int)>)
    ensures |r| == |rows|
    ensures forall i :: 0 <= i < |rows| ==> r[i] == (rows[i].key, rows[i].mono)
  {
    seq(|rows|, i requires 0 <= i < |rows| => (rows[i].key, rows[i].mono))
  }

  lemma UpdatedInStepBut(t: Table, c: Cache, hit: seq<Row>)
    requires InStep(t, c) && DistinctKeys(hit)
    requires forall r :: r in hit ==> r.key in t && t[r.key].mono < r.mono
    ensures InStepBut(Put(t, hit), c, Versions(hit), InvalidateCause.Update)
  {
    PutMeans(t, hit);
    var u := Put(t, hit);
    forall k
      ensures Clean(u, c, k) || exists i ::
        0 <= i < |Versions(hit)| && Versions(hit)[i].0 == k && Doomed(c, k, Versions(hit)[i].1, InvalidateCause.Update)
    {
      assert Clean(t, c, k);
      if k in KeysOf(hit) {
        var r :| r in hit && r.key == k;
        var i :| 0 <= i < |hit| && hit[i] == r;
        assert Doomed(c, k, Versions(hit)[i].1, InvalidateCause.Update);
      }
    }
    forall k | k in u
      ensures u[k].key == k
      ensures k in t && t[k].mono <= u[k].mono
    {
      if k in KeysOf(hit) {
        var r :| r in hit && r.key == k;
      }
    }
  }

  lemma DeletedInStepBut(t: Table, c: Cache, keys: seq<Key>, deleted: seq<Row>)
    requires InStep(t, c) && IsReadOf(t, keys, deleted)
    ensures InStepBut(t - Elements(keys), c, Versions(deleted), InvalidateCause.Delete)
  {
    var u := t - Elements(keys);
    forall k
      ensures Clean(u, c, k) || exists i ::
        && 0 <= i < |Versions(deleted)| && Versions(deleted)[i].0 == k
        && Doomed(c, k, Versions(deleted)[i].1, InvalidateCause.Delete)
    {
      assert Clean(t, c, k);
      if k in t && k in keys {
        assert t[k] in deleted;
        var i :| 0 <= i < |deleted| && deleted[i] == t[k];
        assert Doomed(c, k, Versions(deleted)[i].1, InvalidateCause.Delete);
      }
    }
  }

  lemma PutKeyed(t: Table, rows: seq<Row>)
    requires KeyedTable(t) && DistinctKeys(rows)
    ensures KeyedTable(Put(t, rows))
  {
    PutMeans(t, rows);
    forall k | k in Put(t, rows)
      ensures Put(t, rows)[k].key == k
    {
      if k in KeysOf(rows) {
        var r :| r in rows && r.key == k;
      }
    }
  }

  // ------------------------------------------------- how often rows come

  lemma {:induction false} NoOtherRow(rows: seq<Row>, r: Row)
    requires DistinctKeys(rows)
    ensures multiset(rows)[r] == if r in rows then 1 else 0
  {
    if rows != [] {
      NoOtherRow(rows[1..], r);
      assert rows == [rows[0]] + rows[1..];
      if r in rows[1..] {
        var i :| 1 <= i < |rows| && rows[i] == r;
        assert rows[0].key != rows[i].key;
      }
    }
  }

  /** A select gives a row once, however often its key is asked for. */
  lemma ReadCounts(t: Table, keys: seq<Key>, found: seq<Row>)
    requires KeyedTable(t) && IsReadOf(t, keys, found)
    ensures ComeAsAsked(t, {}, keys, found)
  {
    forall k | k in t ensures multiset(found)[t[k]] == Asked({}, keys, k) {
      NoOtherRow(found, t[k]);
    }
  }

  /** Rows of cached keys come as often as asked for, the others once. */
  ghost predicate ComeAsAsked(t: Table, cached: set<Key>, keys: seq<Key>, items: seq<Row>) {
    forall k :: k in t ==> multiset(items)[t[k]] == Asked(cached, keys, k)
  }

  function Asked(cached: set<Key>, keys: seq<Key>, k: Key): nat {
    if k in cached then multiset(keys)[k] else if k in keys then 1 else 0
  }

  lemma HitsAndFound(t: Table, cached: Table, keys: seq<Key>, hits: seq<Row>, found: seq<Row>)
    requires KeyedTable(t) && forall k :: k in cached ==> k in t && t[k] == cached[k]
    requires hits == Selected(cached, keys) && IsReadOf(t, Missed(cached, keys), found)
    ensures ComeAsAsked(t, cached.Keys, keys, hits + found)
  {
    SelectedElements(cached, keys);
    ReadCounts(t, Missed(cached, keys), found);
    forall k | k in t
      ensures multiset(hits)[t[k]] == if k in cached then multiset(keys)[k] else 0
    {
      if k in cached {
        SelectedCount(cached, keys, k);
      } else {
        NotSelected(cached, keys, t[k]);
      }
    }
  }

  /** After a read of `keys`, the stored ones that were not cached are guarded at their
      version or a later one, and cached if they had no guard; nothing else has changed. */
  ghost predicate ReadIn(t: Table, c: Cache, d: Cache, keys: seq<Key>) {
    && (forall k :: k in keys && k in t && k !in c.moka ==> k in d.monoMap && t[k].mono <= d.monoMap[k])
    && (forall k :: k in keys && k in t && k !in c.moka && k !in c.monoMap ==> k in d.moka && d.moka[k] == t[k])
    && (forall k :: k !in keys || k !in t || k in c.moka ==> SameAt(c, d, k))
  }

  lemma FoundReadIn(t: Table, c: Cache, keys: seq<Key>, found: seq<Row>)
    requires KeyedTable(t) && IsReadOf(t, Missed(c.moka, keys), found)
    ensures ReadIn(t, c, InsertAll(c, found), keys)
  {
    var d := InsertAll(c, found);
    InsertAllMeans(c, found);
    SelectedElements(c.moka, keys);
    forall k | k in keys && k in t && k !in c.moka
      ensures k in d.monoMap && t[k].mono <= d.monoMap[k]
      ensures k !in c.monoMap ==> k in d.moka && d.moka[k] == t[k]
    {
      assert t[k] in found;
      assert SameAt(c, d, k) || NewAt(c, d, k, found);
    }
    forall k | k !in keys || k !in t || k in c.moka ensures SameAt(c, d, k) {
      assert SameAt(c, d, k) || NewAt(c, d, k, found);
    }
  }

  /** Invalidating deleted rows leaves other keys alone. */
  lemma OthersStay(c: Cache, keys: seq<Key>, deleted: seq<Row>, k: Key)
    requires (forall r :: r in deleted ==> r.key in keys) && k !in keys
    ensures SameAt(c, InvalidateAll(c, Versions(deleted), InvalidateCause.Delete), k)
  {
    InvalidateAllMeans(c, Versions(deleted), InvalidateCause.Delete, k);
  }

  // ----------------------------------------------------------- the handler

  class CrudableHandler {
    const map_: CrudingInMemoryCache
    const source: CrudableSource

    constructor (m: CrudingInMemoryCache, s: CrudableSource)
      ensures this.map_ == m && this.source == s
    {
      this.map_, this.source := m, s;
    }

    ghost predicate Valid()
      reads this, map_, source
    {
      InStep(source.rows, map_.State())
    }

    /** Splits keys into cached rows and missed keys, both in the order asked. */
    method GetFromMap(keys: seq<Key>) returns (hits: seq<Row>, misses: seq<Key>)
      ensures hits == Selected(map_.mokaCache, keys)
      ensures misses == Missed(map_.mokaCache, keys)
    {
      var cachedItems := map_.Get(keys);
      hits, misses := [], [];
      for i := 0 to |keys|
        invariant hits == Selected(map_.mokaCache, keys[..i])
        invariant misses == Missed(map_.mokaCache, keys[..i])
      {
        SelectedSnoc(map_.mokaCache, keys[..i], keys[i]);
        assert keys[..i + 1] == keys[..i] + [keys[i]];
        assert cachedItems[i] == if keys[i] in map_.mokaCache then Some(map_.mokaCache[keys[i]]) else None;
        match cachedItems[i] {
          case Some(item) => hits := hits + [item];
          case None => misses := misses + [keys[i]];
        }
      }
      assert keys[..|keys|] == keys;
    }

    method CreateRows(input: seq<Row>, useCache: bool) returns (r: Option<seq<Row>>)
      requires KeyedTable(source.rows)
      requires useCache ==> Valid()
      modifies map_, source
      ensures useCache && old(NotOlderThanNotices(map_.State(), input)) ==> Valid()
      ensures CachedRows(map_.State()) <= old(CachedRows(map_.State())) + source.rows.Values
      ensures map_.State() == if useCache && r.Some? then InsertAll(old(map_.State()), input) else old(map_.State())
      ensures KeyedTable(source.rows)
      ensures source.rows == PlainTable(old(source.rows), Op.Create(input))
      ensures r.Some? <==> AllNew(old(source.rows), input)
      ensures if r.Some? then r.value == input && Added(old(source.rows), source.rows, input)
              else source.rows == old(source.rows)
      ensures r.Some? <==> PlainAnswer(old(source.rows), Op.Create(input)).Some?
      ensures r.Some? ==> Some(Elements(r.value)) == PlainAnswer(old(source.rows), Op.Create(input))
    {
      if input == [] {
        return Some([]);
      }
      ghost var t := source.rows;
      r := source.Create(input);
      if r.Some? {
        PutKeyed(t, input);
        PutMeans(t, input);
        if useCache {
          assert forall r :: r in input ==> r.key in source.rows && source.rows[r.key] == r;
          if NotOlderThanNotices(map_.State(), input) {
            CreatedInStep(t, map_.State(), input);
            InsertAllInStep(source.rows, map_.State(), input);
          }
          InsertAllInventsNothing(map_.State(), input);
          var stored := map_.Insert(input);
          r := Some(stored);
        }
      }
    }

    method ReadRows(input: seq<Key>, useCache: bool) returns (items: seq<Row>)
      requires KeyedTable(source.rows)
      requires useCache ==> Valid()
      modifies map_
      ensures useCache ==> Valid()
      ensures CachedRows(map_.State()) <= old(CachedRows(map_.State())) + source.rows.Values
      ensures if useCache then ReadIn(source.rows, old(map_.State()), map_.State(), input)
              else map_.State() == old(map_.State())
      ensures Elements(items) == RowsAt(source.rows, Elements(input))
      ensures forall r :: r in items <==> r.key in input && r.key in source.rows && source.rows[r.key] == r
      ensures ComeAsAsked(source.rows, if useCache then old(map_.mokaCache.Keys) else {}, input, items)
    {
      hide ReadIn, ComeAsAsked, InsertAll, TookIn, CachedRows;
      if useCache {
        var hits, missed := GetFromMap(input);
        SelectedElements(map_.mokaCache, input);
        CachedRowsAreCurrent();
        var found := source.Read(missed);
        HitsAndFound(source.rows, map_.mokaCache, input, hits, found);
        InsertAllInStep(source.rows, map_.State(), found);
        InsertAllInventsNothing(map_.State(), found);
        FoundReadIn(source.rows, map_.State(), input, found);
        var stored := map_.Insert(found);
        items := hits + stored;
      } else {
        items := source.Read(input);
        ReadCounts(source.rows, input, items);
      }
    }

    /** The same through the batcher, with `fetched` what its call returned for the missed
        keys: here every row comes as often as its key was asked for. */
    method ReadRowsBatched(input: seq<Key>, fetched: Table) returns (items: seq<Row>)
      requires Valid()
      requires forall k :: k in Missed(map_.mokaCache, input) ==>
        (k in fetched <==> k in source.rows) && (k in fetched ==> fetched[k] == source.rows[k])
      ensures multiset(items) == multiset(Selected(source.rows, input))
    {
      var hits, missed := GetFromMap(input);
      CachedRowsAreCurrent();
      var found := BatchedRead.InKeyOrder(missed, fetched);
      BatchedRead.SelectedSame(fetched, source.rows, missed);
      SelectedSplit(map_.mokaCache, source.rows, input);
      items := hits + found;
    }

    method UpdateRows(input: seq<Row>, useCache: bool) returns (items: seq<Row>)
      requires KeyedTable(source.rows)
      requires useCache ==> Valid()
      modifies map_, source
      ensures useCache && old(Raises(source.rows, input)) ==> Valid()
      ensures CachedRows(map_.State()) <= old(CachedRows(map_.State())) + source.rows.Values
      ensures map_.State() ==
        if useCache then InvalidateAll(old(map_.State()), Versions(items), InvalidateCause.Update) else old(map_.State())
      ensures KeyedTable(source.rows)
      ensures IsUpdateOf(old(source.rows), input, items) && source.rows == Put(old(source.rows), items)
      ensures Overwritten(old(source.rows), source.rows, input)
      ensures DistinctKeys(input) ==> source.rows == PlainTable(old(source.rows), Op.Update(input))
      ensures DistinctKeys(input) ==> Some(Elements(items)) == PlainAnswer(old(source.rows), Op.Update(input))
    {
      if input == [] {
        return [];
      }
      ghost var t := source.rows;
      items := source.Update(input);
      PutKeyed(t, items);
      if DistinctKeys(input) {
        UpdateOfDistinct(t, input, items);
        assert Elements(items) == Elements(Present(t, input));
      }
      if useCache {
        if Raises(t, input) {
          UpdatedInStepBut(t, map_.State(), items);
          InvalidateAllInStep(source.rows, map_.State(), Versions(items), InvalidateCause.Update);
        }
        InvalidateAllInventsNothing(map_.State(), Versions(items), InvalidateCause.Update);
        map_.Invalidate(Versions(items), InvalidateCause.Update);
      }
    }

    method DeleteRows(input: seq<Key>, useCache: bool)
      requires KeyedTable(source.rows)
      requires useCache ==> Valid()
      modifies map_, source
      ensures useCache ==> Valid()
      ensures CachedRows(map_.State()) <= old(CachedRows(map_.State()) + source.rows.Values)
      ensures useCache ==> forall k :: k in input ==> k !in map_.monoMap && k !in map_.mokaCache
      ensures useCache ==> forall k :: k !in input ==> SameAt(old(map_.State()), map_.State(), k)
      ensures !useCache ==> map_.State() == old(map_.State())
      ensures KeyedTable(source.rows)
      ensures source.rows == PlainTable(old(source.rows), Op.Delete(input))
      ensures forall k :: k in source.rows <==> k in old(source.rows) && k !in input
      ensures forall k :: k in source.rows ==> source.rows[k] == old(source.rows)[k]
    {
      // the rows about to go, for the hook that may look at them
      var items := ReadRows(input, useCache);
      ghost var t := source.rows;
      var deleted := source.Delete(input);
      if useCache {
        DeletedInStepBut(t, map_.State(), input, deleted);
        InvalidateAllInStep(source.rows, map_.State(), Versions(deleted), InvalidateCause.Delete);
        InvalidateAllInventsNothing(map_.State(), Versions(deleted), InvalidateCause.Delete);
        forall k | k !in input
          ensures SameAt(map_.State(), InvalidateAll(map_.State(), Versions(deleted), InvalidateCause.Delete), k)
        {
          OthersStay(map_.State(), input, deleted, k);
        }
        map_.Invalidate(Versions(deleted), InvalidateCause.Delete);
        assert forall k :: k in input ==> Clean(source.rows, map_.State(), k);
      }
    }

    lemma CachedRowsAreCurrent()
      requires Valid()
      ensures forall k :: k in map_.mokaCache ==> k in source.rows && source.rows[k] == map_.mokaCache[k]
    {
      forall k | k in map_.mokaCache
        ensures k in source.rows && source.rows[k] == map_.mokaCache[k]
      {
        assert Clean(source.rows, map_.State(), k);
      }
    }
  }
}
