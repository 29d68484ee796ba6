/** Whole runs of the handler, one operation after the other: with the cache or
    without it, the source changes alike and every call answers alike. */
module SequentialRefinement {
  import opened Rows
  import opened MonoCache
  import opened InMemoryCache
  import opened SequentialCache
  import opened Source
  import opened Handler

  /** The greatest version each key has had so far. */
  type Peaks = map<Key, int>

  function Raise(peak: Peaks, t: Table): Peaks {
    map k | k in peak.Keys + t.Keys ::
      if k in peak && (k in t ==> t[k].mono <= peak[k]) then peak[k] else t[k].mono
  }

  /** Payload keys are distinct. With the cache, updates raise versions; and unless the
      listener is prompt, a key that is created again does not start below the versions it
      had before. */
  predicate Fitting(t: Table, peak: Peaks, ops: seq<Op>, useCache: bool, prompt: bool)
    decreases |ops|
  {
    ops == [] || (
      && (ops[0].Update? ==> DistinctKeys(ops[0].payload) && (useCache ==> Raises(t, ops[0].payload)))
      && (useCache && ops[0].Create? && !prompt ==> forall r :: r in ops[0].rows && r.key in peak ==> peak[r.key] <= r.mono)
      && var u := PlainTable(t, ops[0]);
         Fitting(u, Raise(peak, u), ops[1..], useCache, prompt))
  }

  /** The table before operation `i`. */
  function TableAt(t: Table, ops: seq<Op>, i: nat): Table
    requires i <= |ops|
  {
    PlainRun(t, ops[..i])
  }

  /** What a run asks of operation `i`: an update has distinct keys and, with the cache,
      greater versions than the rows stored then; with the cache and a late listener, a
      created row is not older than any row its key has had. */
  ghost predicate FitsAt(t: Table, peak: Peaks, ops: seq<Op>, useCache: bool, prompt: bool, i: nat)
    requires i < |ops|
  {
    && (ops[i].Update? ==>
          && (forall m, n :: 0 <= m < n < |ops[i].payload| ==> ops[i].payload[m].key != ops[i].payload[n].key)
          && (useCache ==> forall r :: r in ops[i].payload && r.key in TableAt(t, ops, i) ==>
                TableAt(t, ops, i)[r.key].mono < r.mono))
    && (useCache && !prompt && ops[i].Create? ==> forall r :: r in ops[i].rows ==> NoOlder(t, peak, ops, i, r))
  }

  ghost predicate NoOlder(t: Table, peak: Peaks, ops: seq<Op>, i: nat, r: Row)
    requires i <= |ops|
  {
    && (r.key in peak ==> peak[r.key] <= r.mono)
    && forall j :: 1 <= j <= i && r.key in TableAt(t, ops, j) ==> TableAt(t, ops, j)[r.key].mono <= r.mono
  }

  lemma TableAfter(t: Table, ops: seq<Op>, i: nat)
    requires i < |ops|
    ensures TableAt(t, ops, i + 1) == TableAt(PlainTable(t, ops[0]), ops[1..], i)
  {
    assert ops[..i + 1][1..] == ops[1..][..i];
  }

  lemma NoOlderNext(t: Table, peak: Peaks, ops: seq<Op>, i: nat, r: Row)
    requires i < |ops|
    ensures var u := PlainTable(t, ops[0]);
      NoOlder(t, peak, ops, i + 1, r) <==> NoOlder(u, Raise(peak, u), ops[1..], i, r)
  {
    var u := PlainTable(t, ops[0]);
    TableAfter(t, ops, 0);
    assert TableAt(u, ops[1..], 0) == u;
    forall j | 0 <= j <= i ensures TableAt(t, ops, j + 1) == TableAt(u, ops[1..], j) {
      TableAfter(t, ops, j);
    }
    if NoOlder(u, Raise(peak, u), ops[1..], i, r) {
      forall j | 1 <= j <= i + 1 && r.key in TableAt(t, ops, j)
        ensures TableAt(t, ops, j)[r.key].mono <= r.mono
      {
        assert TableAt(t, ops, j - 1 + 1) == TableAt(u, ops[1..], j - 1);
      }
    }
    if NoOlder(t, peak, ops, i + 1, r) {
      forall j | 1 <= j <= i && r.key in TableAt(u, ops[1..], j)
        ensures TableAt(u, ops[1..], j)[r.key].mono <= r.mono
      {
        assert TableAt(t, ops, j + 1) == TableAt(u, ops[1..], j);
      }
    }
  }

  lemma FitsNext(t: Table, peak: Peaks, ops: seq<Op>, useCache: bool, prompt: bool, i: nat)
    requires i + 1 < |ops|
    ensures var u := PlainTable(t, ops[0]);
      FitsAt(t, peak, ops, useCache, prompt, i + 1) <==> FitsAt(u, Raise(peak, u), ops[1..], useCache, prompt, i)
  {
    var u := PlainTable(t, ops[0]);
    TableAfter(t, ops, i);
    forall r ensures NoOlder(t, peak, ops, i + 1, r) <==> NoOlder(u, Raise(peak, u), ops[1..], i, r) {
      NoOlderNext(t, peak, ops, i, r);
    }
  }

  lemma FirstFits(t: Table, peak: Peaks, ops: seq<Op>, useCache: bool, prompt: bool)
    requires ops != []
    ensures var u := PlainTable(t, ops[0]);
      Fitting(t, peak, ops, useCache, prompt) <==>
        FitsAt(t, peak, ops, useCache, prompt, 0) && Fitting(u, Raise(peak, u), ops[1..], useCache, prompt)
  {
    assert TableAt(t, ops, 0) == t;
    if useCache && !prompt && ops[0].Create? {
      assert forall r :: NoOlder(t, peak, ops, 0, r) <==> (r.key in peak ==> peak[r.key] <= r.mono);
    }
  }

  /** Runs are asked for nothing but that. */
  lemma {:induction false} FittingIff(t: Table, peak: Peaks, ops: seq<Op>, useCache: bool, prompt: bool)
    ensures Fitting(t, peak, ops, useCache, prompt) <==>
      forall i :: 0 <= i < |ops| ==> FitsAt(t, peak, ops, useCache, prompt, i)
    decreases |ops|
  {
    hide FitsAt, Raise, PlainTable;
    if ops != [] {
      FirstFits(t, peak, ops, useCache, prompt);
      var u := PlainTable(t, ops[0]);
      FittingIff(u, Raise(peak, u), ops[1..], useCache, prompt);
      RestFits(t, peak, ops, useCache, prompt);
    }
  }

  lemma RestFits(t: Table, peak: Peaks, ops: seq<Op>, useCache: bool, prompt: bool)
    requires ops != []
    ensures var u := PlainTable(t, ops[0]);
      (forall i :: 0 <= i < |ops| ==> FitsAt(t, peak, ops, useCache, prompt, i)) <==>
        FitsAt(t, peak, ops, useCache, prompt, 0)
        && forall i :: 0 <= i < |ops[1..]| ==> FitsAt(u, Raise(peak, u), ops[1..], useCache, prompt, i)
  {
    hide FitsAt, Raise, PlainTable;
    var u := PlainTable(t, ops[0]);
    forall i | 1 <= i < |ops|
      ensures FitsAt(t, peak, ops, useCache, prompt, i) <==> FitsAt(u, Raise(peak, u), ops[1..], useCache, prompt, i - 1)
    {
      FitsNext(t, peak, ops, useCache, prompt, i - 1);
    }
    if forall i :: 0 <= i < |ops| ==> FitsAt(t, peak, ops, useCache, prompt, i) {
      forall i | 0 <= i < |ops[1..]| ensures FitsAt(u, Raise(peak, u), ops[1..], useCache, prompt, i) {
        assert FitsAt(t, peak, ops, useCache, prompt, i + 1);
      }
    }
  }

  /** Every row the cache still knows of is within the peaks. */
  ghost predicate WithinPeaks(rows: set<Row>, peak: Peaks) {
    forall r :: r in rows ==> r.key in peak && r.mono <= peak[r.key]
  }

  lemma RaiseCovers(peak: Peaks, t: Table, rows: set<Row>)
    requires KeyedTable(t) && WithinPeaks(rows, peak)
    ensures WithinPeaks(rows + t.Values, Raise(peak, t))
  {
  }

  lemma CreateFits(c: Cache, peak: Peaks, rows: seq<Row>)
    requires WithinPeaks(CachedRows(c), peak)
    requires forall r :: r in rows && r.key in peak ==> peak[r.key] <= r.mono
    ensures NotOlderThanNotices(c, rows)
  {
    forall n, r | n in c.notices && r in rows && !n.cause.Explicit? && n.row.key == r.key
      ensures n.row.mono <= r.mono
    {
      assert n.row in CachedRows(c);
    }
  }

  /** The listener handles everything outstanding. */
  method Drain(h: CrudableHandler)
    requires KeyedTable(h.source.rows) && h.Valid()
    modifies h.map_
    ensures h.Valid() && h.map_.notices == []
    ensures CachedRows(h.map_.State()) <= old(CachedRows(h.map_.State()))
  {
    while |h.map_.notices| > 0
      invariant h.Valid()
      invariant CachedRows(h.map_.State()) <= old(CachedRows(h.map_.State()))
      decreases Backlog(h.map_.State())
    {
      DeliverShrinksBacklog(h.map_.State(), 0);
      DeliverInStep(h.source.rows, h.map_.State(), 0);
      CacheInventsNothing(h.map_.State(), Delivered(0));
      h.map_.OnRemoval(0);
    }
  }

  method Perform(h: CrudableHandler, op: Op, useCache: bool) returns (answer: Option<set<Row>>)
    requires KeyedTable(h.source.rows)
    requires op.Update? ==> DistinctKeys(op.payload) && (useCache ==> Raises(h.source.rows, op.payload))
    requires useCache ==> h.Valid() && (op.Create? ==> NotOlderThanNotices(h.map_.State(), op.rows))
    modifies h.map_, h.source
    ensures useCache ==> h.Valid()
    ensures KeyedTable(h.source.rows)
    ensures h.source.rows == PlainTable(old(h.source.rows), op)
    ensures answer == PlainAnswer(old(h.source.rows), op)
    ensures !useCache ==> h.map_.State() == old(h.map_.State())
    ensures useCache && op.Evict? && CacheEnabled(old(h.map_.State()), Evicted(op.key, op.cause)) ==>
      h.map_.State() == MonoCache.Evict(old(h.map_.State()), op.key, op.cause)
    ensures useCache && op.Notify? && op.i < old(|h.map_.notices|) ==> h.map_.State() == Deliver(old(h.map_.State()), op.i)
    ensures useCache ==>
      CachedRows(h.map_.State()) <= old(CachedRows(h.map_.State()) + h.source.rows.Values) + h.source.rows.Values
  {
    match op {
      case Create(rows) =>
        var r := h.CreateRows(rows, useCache);
        answer := if r.Some? then Some(Elements(r.value)) else None;
      case Read(keys) =>
        var items := h.ReadRows(keys, useCache);
        answer := Some(Elements(items));
      case Update(rows) =>
        var items := h.UpdateRows(rows, useCache);
        answer := Some(Elements(items));
      case Delete(keys) =>
        h.DeleteRows(keys, useCache);
        answer := Some({});
      case Evict(k, cause) =>
        if useCache && k in h.map_.mokaCache && (cause.Expired? || cause.Size?) {
          EvictInStep(h.source.rows, h.map_.State(), k, cause);
          CacheInventsNothing(h.map_.State(), Evicted(k, cause));
          h.map_.EvictEntry(k, cause);
        }
        answer := Some({});
      case Notify(i) =>
        if useCache && i < |h.map_.notices| {
          DeliverInStep(h.source.rows, h.map_.State(), i);
          CacheInventsNothing(h.map_.State(), Delivered(i));
          h.map_.OnRemoval(i);
        }
        answer := Some({});
    }
  }

  /** Between two operations of a run. */
  ghost predicate Ready(h: CrudableHandler, peak: Peaks, useCache: bool, prompt: bool)
    reads h, h.map_, h.source
  {
    && KeyedTable(h.source.rows)
    && WithinPeaks(h.source.rows.Values, peak)
    && (useCache ==> h.Valid() && WithinPeaks(CachedRows(h.map_.State()), peak))
    && (useCache && prompt ==> h.map_.notices == [])
  }

  method Turn(h: CrudableHandler, op: Op, useCache: bool, prompt: bool, ghost peak: Peaks)
    returns (answer: Option<set<Row>>)
    requires Ready(h, peak, useCache, prompt)
    requires op.Update? ==> DistinctKeys(op.payload) && (useCache ==> Raises(h.source.rows, op.payload))
    requires useCache && op.Create? && !prompt ==> forall r :: r in op.rows && r.key in peak ==> peak[r.key] <= r.mono
    modifies h.map_, h.source
    ensures h.source.rows == PlainTable(old(h.source.rows), op)
    ensures answer == PlainAnswer(old(h.source.rows), op)
    ensures Ready(h, Raise(peak, h.source.rows), useCache, prompt)
  {
    if useCache && op.Create? && !prompt {
      CreateFits(h.map_.State(), peak, op.rows);
    }
    ghost var known := (if useCache then CachedRows(h.map_.State()) else {}) + h.source.rows.Values;
    answer := Perform(h, op, useCache);
    RaiseCovers(peak, h.source.rows, known);
    if useCache && prompt {
      Drain(h);
    }
  }

  lemma EmptyCacheReady(h: CrudableHandler, useCache: bool, prompt: bool)
    requires KeyedTable(h.source.rows) && h.map_.State() == EMPTY
    ensures Ready(h, Raise(map[], h.source.rows), useCache, prompt)
  {
    EmptyInStep(h.source.rows);
    RaiseCovers(map[], h.source.rows, {});
  }

  /** What a fitting run of at least one operation promises about its first. */
  lemma FittingFirst(t: Table, peak: Peaks, ops: seq<Op>, useCache: bool, prompt: bool)
    requires ops != [] && Fitting(t, peak, ops, useCache, prompt)
    ensures ops[0].Update? ==> DistinctKeys(ops[0].payload) && (useCache ==> Raises(t, ops[0].payload))
    ensures useCache && ops[0].Create? && !prompt ==> forall r :: r in ops[0].rows && r.key in peak ==> peak[r.key] <= r.mono
    ensures Fitting(PlainTable(t, ops[0]), Raise(peak, PlainTable(t, ops[0])), ops[1..], useCache, prompt)
    ensures PlainRun(t, ops) == PlainRun(PlainTable(t, ops[0]), ops[1..])
    ensures PlainAnswers(t, ops) == [PlainAnswer(t, ops[0])] + PlainAnswers(PlainTable(t, ops[0]), ops[1..])
  {
  }

  method Continue(h: CrudableHandler, ops: seq<Op>, useCache: bool, prompt: bool, ghost peak: Peaks)
    returns (answers: seq<Option<set<Row>>>)
    requires Ready(h, peak, useCache, prompt)
    requires Fitting(h.source.rows, peak, ops, useCache, prompt)
    modifies h.map_, h.source
    ensures h.source.rows == PlainRun(old(h.source.rows), ops)
    ensures answers == PlainAnswers(old(h.source.rows), ops)
    decreases |ops|
  {
    if ops == [] {
      answers := [];
    } else {
      FittingFirst(h.source.rows, peak, ops, useCache, prompt);
      var answer := Turn(h, ops[0], useCache, prompt, peak);
      answers := Continue(h, ops[1..], useCache, prompt, Raise(peak, h.source.rows));
      answers := [answer] + answers;
    }
  }

  /** From any source and an empty cache, a run answers and changes the source exactly
      as the cacheless meaning says, whether or not the cache is used. */
  method Execute(h: CrudableHandler, ops: seq<Op>, useCache: bool, prompt: bool)
    returns (answers: seq<Option<set<Row>>>)
    requires KeyedTable(h.source.rows) && h.map_.State() == EMPTY
    requires Fitting(h.source.rows, Raise(map[], h.source.rows), ops, useCache, prompt)
    modifies h.map_, h.source
    ensures h.source.rows == PlainRun(old(h.source.rows), ops)
    ensures answers == PlainAnswers(old(h.source.rows), ops)
  {
    EmptyCacheReady(h, useCache, prompt);
    answers := Continue(h, ops, useCache, prompt, Raise(map[], h.source.rows));
  }
}
