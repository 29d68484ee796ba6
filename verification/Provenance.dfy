/** Nothing invented and nothing uncommitted: what the cache holds, and what is
    returned through a handle that uses the cache, was once committed, exactly as long as
    no handle hands uncommitted rows over when it enters or leaves a transaction. */
module Provenance {
  import opened Rows
  import opened MonoCache
  import opened Protocol

  // --------------------------------------------------- rows under their keys

  ghost predicate KeyedOverlay(o: Overlay) {
    forall k :: k in o && o[k].Some? ==> o[k].value.key == k
  }

  /** Committed rows and uncommitted ones sit under their own keys. */
  ghost predicate KeyedWorld(w: World) {
    KeyedTable(w.source) && forall tx :: tx in w.txs ==> KeyedOverlay(w.txs[tx])
  }

  lemma ApplyKeyed(t: Table, o: Overlay)
    requires KeyedTable(t) && KeyedOverlay(o)
    ensures KeyedTable(Apply(t, o))
  {
  }

  lemma WriteThroughKeyed(w: World, h: HandleId, change: Overlay)
    requires KeyedWorld(w) && Usable(w, h) && KeyedOverlay(change)
    ensures KeyedWorld(WriteThrough(w, h, change))
  {
    ApplyKeyed(w.source, change);
  }

  lemma WriteKeyed(w: World, e: Event)
    requires KeyedWorld(w) && Enabled(w, e) && (e.Create? || e.Update? || e.Delete?)
    ensures KeyedWorld(Step(w, e))
  {
    match e {
      case Create(_, h, rows) =>
        WriteThroughKeyed(w, h, map k | k in rows :: Some(rows[k]));
      case Update(_, h, rows) =>
        var hit := Restrict(rows, View(w, h).Keys);
        WriteThroughKeyed(w, h, map k | k in hit :: Some(hit[k]));
      case Delete(_, h, keys) =>
        var gone := Restrict(View(w, h), keys);
        WriteThroughKeyed(w, h, map k | k in gone :: None);
    }
  }

  lemma HandleKeyed(w: World, e: Event)
    requires KeyedWorld(w) && Enabled(w, e) && (e.Begin? || e.Finish? || e.Borrow? || e.OuterFinish?)
    ensures KeyedWorld(Step(w, e))
  {
    if e.Finish? {
      ApplyKeyed(w.source, w.txs[ModeOf(w, e.h).tx]);
    } else if e.OuterFinish? {
      ApplyKeyed(w.source, w.txs[e.tx]);
    }
  }

  lemma StepKeyed(w: World, e: Event)
    requires KeyedWorld(w) && Enabled(w, e)
    ensures KeyedWorld(Step(w, e))
  {
    if e.Create? || e.Update? || e.Delete? {
      WriteKeyed(w, e);
    } else if e.Begin? || e.Finish? || e.Borrow? || e.OuterFinish? {
      HandleKeyed(w, e);
    }
  }

  lemma TraceKeyed(ws: seq<World>, es: seq<Event>, n: nat)
    requires IsTrace(ws, es) && Start(ws[0]) && n < |ws|
    ensures KeyedWorld(ws[n])
  {
    forall w, e, v | Moves(w, e, v) && KeyedWorld(w)
      ensures KeyedWorld(v)
    {
      StepKeyed(w, e);
    }
    Along(Moves, w => KeyedWorld(w), ws, es, n);
  }

  // ----------------------------------------------------------- the past

  /** `row` was the source's row of its key at one of the moments up to `n`. */
  ghost predicate WasCommitted(ws: seq<World>, n: nat, row: Row)
    requires n < |ws|
  {
    exists i :: 0 <= i <= n && row.key in ws[i].source && ws[i].source[row.key] == row
  }

  /** Every row committed up to moment `n`. */
  ghost function Committed(ws: seq<World>, n: nat): set<Row>
    requires n < |ws|
  {
    ws[n].source.Values + if n == 0 then {} else Committed(ws, n - 1)
  }

  lemma {:induction false} CommittedMeans(ws: seq<World>, es: seq<Event>, n: nat, row: Row)
    requires IsTrace(ws, es) && Start(ws[0]) && n < |ws|
    ensures row in Committed(ws, n) <==> WasCommitted(ws, n, row)
  {
    TraceKeyed(ws, es, n);
    if row in ws[n].source.Values {
      assert ws[n].source[row.key] == row;
    }
    if n > 0 {
      CommittedMeans(ws, es, n - 1, row);
    }
  }

  // -------------------------------------------------- what a step hands over

  /** The rows a running operation will still put in the cache or return. */
  function Promised(task: Task): set<Row> {
    match task
    case Looking(_, _, _) => {}
    case Written(_, created) => RowsOf(created)
    case Changed(_, rows, cause) => if cause.Update? then rows.Values else {}
    case Inserting(todo) => RowsOf(todo)
    case Invalidating(_, _) => {}
  }

  /** Everything cached, on its way there, or returned lies within `past`. */
  ghost predicate Clean(w: World, past: set<Row>) {
    && w.source.Values <= past
    && CachedRows(w.cache) <= past
    && w.replies <= past
    && forall t :: t in w.tasks && w.tasks[t].Inserting? ==> Promised(w.tasks[t]) <= past
  }

  /** What the handle would read at these keys from its own transaction has been committed. */
  ghost predicate ReadsCommitted(w: World, h: HandleId, keys: set<Key>, past: set<Row>) {
    var tx := TxOf(ModeOf(w, h));
    tx.Some? && tx.value in w.txs ==>
      var o := w.txs[tx.value];
      forall k :: k in keys && k in o && o[k].Some? ==> o[k].value in past
  }

  /** The two steps at which a handle that changed its mode can hand over uncommitted rows:
      the cache check of a write, once the handle is a plain connection again, and the
      source read of a cached read, once the handle has begun a transaction. */
  ghost predicate HandsOver(w: World, e: Event, past: set<Row>)
    requires Enabled(w, e)
  {
    match e
    case CheckCache(t) => ModeOf(w, w.tasks[t].h).Plain? ==> Promised(w.tasks[t]) <= past
    case Fetch(t) => ReadsCommitted(w, w.tasks[t].h, w.tasks[t].missed, past)
    case _ => true
  }

  lemma WriteFrame(w: World, e: Event)
    requires Enabled(w, e) && (e.Create? || e.Update? || e.Delete?)
    ensures var v := Step(w, e);
      && v.cache == w.cache && v.replies == w.replies && v.handles == w.handles
      && e.t in v.tasks && v.tasks == w.tasks[e.t := v.tasks[e.t]]
      && (v.tasks[e.t].Written? || v.tasks[e.t].Changed?) && v.tasks[e.t].h == e.h
  {
  }

  lemma CleanWithTask(w: World, v: World, t: TaskId, task: Task, past: set<Row>)
    requires Clean(w, past)
    requires v.cache == w.cache && v.replies == w.replies
    requires v.tasks == w.tasks[t := task] && (task.Written? || task.Changed?)
    ensures Clean(v, past + v.source.Values)
  {
  }

  lemma CacheClean(w: World, e: Event, past: set<Row>)
    requires Clean(w, past) && Enabled(w, e)
    requires e.InsertNext? || e.InvalidateNext? || e.EvictEntry? || e.Notify?
    ensures Clean(Step(w, e), past)
  {
    match e {
      case InsertNext(t, k) =>
        assert w.tasks[t].todo[k].row in Promised(w.tasks[t]);
        CacheInventsNothing(w.cache, Inserted(w.tasks[t].todo[k].row));
      case InvalidateNext(t, k) =>
        CacheInventsNothing(w.cache, Invalidated(k, w.tasks[t].rows[k].mono, w.tasks[t].cause));
      case EvictEntry(k, cause) => CacheInventsNothing(w.cache, Evicted(k, cause));
      case Notify(i) => CacheInventsNothing(w.cache, Delivered(i));
    }
  }

  lemma FoundRows(w: World, t: Table, keys: set<Key>)
    ensures RowsOf(Stamped(w, Restrict(t, keys))) == Restrict(t, keys).Values
    ensures forall r :: r in Restrict(t, keys).Values <==> exists k :: k in keys && k in t && t[k] == r
  {
    var found := Restrict(t, keys);
    forall r
      ensures r in found.Values <==> r in RowsOf(Stamped(w, found))
      ensures r in found.Values <==> exists k :: k in keys && k in t && t[k] == r
    {
      if r in found.Values {
        var k :| k in found && found[k] == r;
        assert k in Stamped(w, found) && Stamped(w, found)[k].row == r;
        assert k in t && t[k] == r;
      }
      if k :| k in keys && k in t && t[k] == r {
        assert k in found && found[k] == r;
      }
    }
  }

  /** A read on a handle finds committed rows only exactly when its own transaction has no
      others at the keys read. */
  lemma ViewCommittedIff(w: World, h: HandleId, keys: set<Key>, past: set<Row>)
    requires w.source.Values <= past
    ensures Restrict(View(w, h), keys).Values <= past <==> ReadsCommitted(w, h, keys, past)
  {
    FoundRows(w, View(w, h), keys);
    var found := Restrict(View(w, h), keys).Values;
    if found <= past && TxOf(ModeOf(w, h)).Some? && TxOf(ModeOf(w, h)).value in w.txs {
      var o := w.txs[TxOf(ModeOf(w, h)).value];
      forall k | k in keys && k in o && o[k].Some?
        ensures o[k].value in past
      {
        assert View(w, h)[k] == o[k].value;
        assert o[k].value in found;
      }
    }
    if ReadsCommitted(w, h, keys, past) {
      forall r | r in found
        ensures r in past
      {
        var k :| k in keys && k in View(w, h) && View(w, h)[k] == r;
        if k in w.source && w.source[k] == r {
          assert r in w.source.Values;
        }
      }
    }
  }

  /** A source read on a handle that may by now be in a transaction caches and answers
      with committed rows only exactly when that transaction has no uncommitted row at a
      missed key. */
  lemma FetchCleanIff(w: World, t: TaskId, past: set<Row>)
    requires Clean(w, past) && Enabled(w, Fetch(t))
    ensures Clean(Step(w, Fetch(t)), past) <==> ReadsCommitted(w, w.tasks[t].h, w.tasks[t].missed, past)
    ensures Step(w, Fetch(t)).replies <= past ==> Clean(Step(w, Fetch(t)), past)
  {
    var h, keys := w.tasks[t].h, w.tasks[t].missed;
    FoundRows(w, View(w, h), keys);
    ViewCommittedIff(w, h, keys, past);
  }

  lemma QueryClean(w: World, t: TaskId, keys: set<Key>, past: set<Row>)
    requires Clean(w, past) && Enabled(w, BatchQuery(t, keys))
    ensures Clean(Step(w, BatchQuery(t, keys)), past)
  {
    FoundRows(w, w.source, keys);
    forall r | r in Restrict(w.source, keys).Values
      ensures r in w.source.Values
    {
      var k :| k in keys && k in w.source && w.source[k] == r;
    }
  }

  lemma LookClean(w: World, e: Event, past: set<Row>)
    requires Clean(w, past) && Enabled(w, e) && (e.BeginRead? || e.LookUp?)
    ensures Clean(Step(w, e), past)
  {
    if e.LookUp? && e.k in w.cache.moka {
      assert w.cache.moka[e.k] in w.cache.moka.Values;
    }
  }

  /** A cache check answers with committed rows only exactly when it bypasses the cache or
      all its rows are committed by then. */
  lemma CheckCleanIff(w: World, t: TaskId, past: set<Row>)
    requires Clean(w, past) && Enabled(w, CheckCache(t))
    ensures Clean(Step(w, CheckCache(t)), past) <==> HandsOver(w, CheckCache(t), past)
    ensures Step(w, CheckCache(t)).replies <= past ==> Clean(Step(w, CheckCache(t)), past)
  {
    var task := w.tasks[t];
    if ModeOf(w, task.h).Plain? {
      assert Step(w, CheckCache(t)).replies == w.replies + Promised(task);
    }
  }

  lemma HandleClean(w: World, e: Event, past: set<Row>)
    requires Clean(w, past) && Enabled(w, e)
    requires e.Begin? || e.Finish? || e.Borrow? || e.OuterFinish?
    ensures Clean(Step(w, e), past + Step(w, e).source.Values)
  {
    var v := Step(w, e);
    assert v.tasks == w.tasks && v.cache == w.cache && v.replies == w.replies;
  }

  lemma CleanGrows(w: World, past: set<Row>, more: set<Row>)
    requires Clean(w, past) && past <= more
    ensures Clean(w, more)
  {
  }

  predicate HandOverStep(e: Event) {
    e.CheckCache? || e.Fetch?
  }

  lemma OtherStepsClean(w: World, e: Event, past: set<Row>)
    requires Clean(w, past) && Enabled(w, e) && !HandOverStep(e)
    ensures Clean(Step(w, e), past + Step(w, e).source.Values)
  {
    if e.Create? || e.Update? || e.Delete? {
      WriteFrame(w, e);
      CleanWithTask(w, Step(w, e), e.t, Step(w, e).tasks[e.t], past);
    } else if e.Begin? || e.Finish? || e.Borrow? || e.OuterFinish? {
      HandleClean(w, e, past);
    } else {
      match e {
        case BatchQuery(t, keys) => QueryClean(w, t, keys, past);
        case BeginRead(_, _, _) => LookClean(w, e, past);
        case LookUp(_, _) => LookClean(w, e, past);
        case _ => CacheClean(w, e, past);
      }
      CleanGrows(Step(w, e), past, past + Step(w, e).source.Values);
    }
  }

  lemma HandOverFrame(w: World, e: Event)
    requires Enabled(w, e) && HandOverStep(e)
    ensures Step(w, e).source == w.source
  {
  }

  /** Every step, with handles in and out of transactions in any order, keeps everything
      among the rows committed so far exactly when it hands no uncommitted row over. */
  lemma StepCleanIff(w: World, e: Event, past: set<Row>)
    requires Clean(w, past) && Enabled(w, e)
    ensures Clean(Step(w, e), past + Step(w, e).source.Values) <==> HandsOver(w, e, past)
    ensures Step(w, e).replies <= past + Step(w, e).source.Values ==> HandsOver(w, e, past)
  {
    if HandOverStep(e) {
      HandOverFrame(w, e);
      assert past + Step(w, e).source.Values == past;
      if e.Fetch? {
        FetchCleanIff(w, e.t, past);
      } else {
        CheckCleanIff(w, e.t, past);
      }
    } else {
      OtherStepsClean(w, e, past);
    }
  }

  // --------------------------------------------------------------- whole runs

  /** At moment `n`, whatever is cached or was returned through a cache-using handle had
      been committed. */
  ghost predicate AllCommitted(ws: seq<World>, n: nat)
    requires n < |ws|
  {
    forall row :: row in CachedRows(ws[n].cache) + ws[n].replies ==> WasCommitted(ws, n, row)
  }

  ghost predicate HandsOverAt(ws: seq<World>, es: seq<Event>, i: nat)
    requires IsTrace(ws, es) && i < |es|
  {
    HandsOver(ws[i], es[i], Committed(ws, i))
  }

  lemma StartClean(w: World)
    requires Start(w)
    ensures Clean(w, w.source.Values)
  {
  }

  lemma NthCleanIff(ws: seq<World>, es: seq<Event>, i: nat)
    requires IsTrace(ws, es) && i < |es| && Clean(ws[i], Committed(ws, i))
    ensures Clean(ws[i + 1], Committed(ws, i + 1)) <==> HandsOverAt(ws, es, i)
    ensures ws[i + 1].replies <= Committed(ws, i + 1) ==> HandsOverAt(ws, es, i)
  {
    var past := Committed(ws, i);
    assert Moves(ws[i], es[i], ws[i + 1]);
    StepCleanIff(ws[i], es[i], past);
    assert Committed(ws, i + 1) == past + ws[i + 1].source.Values;
  }

  lemma {:induction false} RunClean(ws: seq<World>, es: seq<Event>, n: nat)
    requires IsTrace(ws, es) && Start(ws[0]) && n < |ws|
    requires forall i :: 0 <= i < n ==> HandsOverAt(ws, es, i)
    ensures Clean(ws[n], Committed(ws, n))
  {
    hide Moves, HandsOver, Clean;
    if n == 0 {
      StartClean(ws[0]);
      assert Committed(ws, 0) == ws[0].source.Values;
    } else {
      RunClean(ws, es, n - 1);
      NthCleanIff(ws, es, n - 1);
    }
  }

  lemma CleanMeans(ws: seq<World>, es: seq<Event>, n: nat)
    requires IsTrace(ws, es) && Start(ws[0]) && n < |ws|
    ensures AllCommitted(ws, n) <==> CachedRows(ws[n].cache) + ws[n].replies <= Committed(ws, n)
  {
    forall row ensures row in Committed(ws, n) <==> WasCommitted(ws, n, row) {
      CommittedMeans(ws, es, n, row);
    }
  }

  lemma NthHandsOver(ws: seq<World>, es: seq<Event>, i: nat)
    requires IsTrace(ws, es) && Start(ws[0]) && i < |es|
    requires (forall j :: 0 <= j < i ==> HandsOverAt(ws, es, j)) && AllCommitted(ws, i + 1)
    ensures HandsOverAt(ws, es, i)
  {
    RunClean(ws, es, i);
    CleanMeans(ws, es, i + 1);
    NthCleanIff(ws, es, i);
  }

  lemma {:induction false} CommittedHandsOver(ws: seq<World>, es: seq<Event>, n: nat)
    requires IsTrace(ws, es) && Start(ws[0]) && n <= |es|
    requires forall i :: 0 <= i < |ws| ==> AllCommitted(ws, i)
    ensures forall i :: 0 <= i < n ==> HandsOverAt(ws, es, i)
  {
    hide Moves, HandsOver;
    if n > 0 {
      CommittedHandsOver(ws, es, n - 1);
      assert AllCommitted(ws, n);
      NthHandsOver(ws, es, n - 1);
    }
  }

  /** Throughout a run, in every interleaving and with handles in and out of transactions
      at any moment, everything cached or returned had been committed, exactly when at no
      cache check and at no source read of the run an uncommitted row is handed over. */
  lemma OnlyCommittedRowsIff(ws: seq<World>, es: seq<Event>)
    requires IsTrace(ws, es) && Start(ws[0])
    ensures (forall n :: 0 <= n < |ws| ==> AllCommitted(ws, n)) <==> (forall i :: 0 <= i < |es| ==> HandsOverAt(ws, es, i))
  {
    hide Moves, HandsOver;
    if forall n :: 0 <= n < |ws| ==> AllCommitted(ws, n) {
      CommittedHandsOver(ws, es, |es|);
    }
    if forall i :: 0 <= i < |es| ==> HandsOverAt(ws, es, i) {
      forall n | 0 <= n < |ws| ensures AllCommitted(ws, n) {
        RunClean(ws, es, n);
        CleanMeans(ws, es, n);
      }
    }
  }

  // ------------------------------------------- where the modes change

  ghost predicate HoldsRow(o: Overlay, row: Row) {
    row.key in o && o[row.key] == Some(row)
  }

  /** Every row an open write on `h` will answer with was committed before, or the commit
      goes through and the transaction still holds the row. */
  ghost predicate CommitsPromises(w: World, h: HandleId, ok: bool, t: TaskId, past: set<Row>)
    requires ModeOf(w, h).Owned? && ModeOf(w, h).tx in w.txs && t in w.tasks
  {
    forall row :: row in Promised(w.tasks[t]) ==> row in past || (ok && HoldsRow(w.txs[ModeOf(w, h).tx], row))
  }

  /** The commit condition at the end of a transaction, and the read condition. */
  ghost predicate Settles(w: World, e: Event, past: set<Row>)
    requires Enabled(w, e)
  {
    match e
    case Finish(h, ok) =>
      forall t :: t in w.tasks && (w.tasks[t].Written? || w.tasks[t].Changed?) && w.tasks[t].h == h ==>
        CommitsPromises(w, h, ok, t, past)
    case Fetch(t) => ReadsCommitted(w, w.tasks[t].h, w.tasks[t].missed, past)
    case _ => true
  }

  lemma FinishedRowsIff(w: World, h: HandleId, ok: bool, row: Row, past: set<Row>)
    requires KeyedWorld(w) && w.source.Values <= past && Enabled(w, Finish(h, ok))
    ensures row in past + Step(w, Finish(h, ok)).source.Values <==>
      row in past || (ok && HoldsRow(w.txs[ModeOf(w, h).tx], row))
  {
    var o := w.txs[ModeOf(w, h).tx];
    var v := Step(w, Finish(h, ok));
    if ok && HoldsRow(o, row) {
      assert v.source[row.key] == row;
    }
    if row in v.source.Values && row !in past {
      var k :| k in v.source && v.source[k] == row;
      assert row !in w.source.Values;
      if k in w.source && w.source[k] == row {
        assert false;
      }
    }
  }

  /** A transaction ends, and then an open write on its handle checks the cache: it answers
      with committed rows only exactly when each of them was committed before, or the
      commit went through with the row still in the transaction. */
  lemma FinishThenCheckCleanIff(w: World, h: HandleId, ok: bool, t: TaskId, past: set<Row>)
    returns (v: World, z: World)
    requires Clean(w, past) && KeyedWorld(w) && Enabled(w, Finish(h, ok))
    requires t in w.tasks && (w.tasks[t].Written? || w.tasks[t].Changed?) && w.tasks[t].h == h
    ensures Moves(w, Finish(h, ok), v) && Moves(v, CheckCache(t), z)
    ensures Clean(z, past + z.source.Values) <==> CommitsPromises(w, h, ok, t, past)
  {
    v := Step(w, Finish(h, ok));
    z := Step(v, CheckCache(t));
    HandleClean(w, Finish(h, ok), past);
    HandOverFrame(v, CheckCache(t));
    CheckCleanIff(v, t, past + v.source.Values);
    forall row
      ensures row in past + v.source.Values <==> row in past || (ok && HoldsRow(w.txs[ModeOf(w, h).tx], row))
    {
      FinishedRowsIff(w, h, ok, row, past);
    }
  }

  /** Open writes on plain handles answer with committed rows. */
  ghost predicate Pledged(w: World, past: set<Row>) {
    forall t :: t in w.tasks && (w.tasks[t].Written? || w.tasks[t].Changed?) && ModeOf(w, w.tasks[t].h).Plain? ==>
      Promised(w.tasks[t]) <= past
  }

  lemma WrittenRowsCommitted(w: World, e: Event)
    requires Enabled(w, e) && (e.Create? || e.Update? || e.Delete?) && ModeOf(w, e.h).Plain?
    ensures Promised(Step(w, e).tasks[e.t]) <= Step(w, e).source.Values
  {
    var v := Step(w, e);
    var task := v.tasks[e.t];
    forall r | r in Promised(task)
      ensures r in v.source.Values
    {
      if e.Create? {
        var k :| k in task.created && task.created[k].row == r;
        assert k in v.source && v.source[k] == r;
      } else {
        var k :| k in task.rows && task.rows[k] == r;
        assert k in v.source && v.source[k] == r;
      }
    }
  }

  lemma WritePledged(w: World, e: Event, past: set<Row>)
    requires Pledged(w, past) && Enabled(w, e) && (e.Create? || e.Update? || e.Delete?)
    ensures Pledged(Step(w, e), past + Step(w, e).source.Values)
  {
    WriteFrame(w, e);
    if ModeOf(w, e.h).Plain? {
      WrittenRowsCommitted(w, e);
    }
  }

  lemma FinishPledged(w: World, h: HandleId, ok: bool, past: set<Row>)
    requires Pledged(w, past) && KeyedWorld(w) && w.source.Values <= past
    requires Enabled(w, Finish(h, ok)) && Settles(w, Finish(h, ok), past)
    ensures Pledged(Step(w, Finish(h, ok)), past + Step(w, Finish(h, ok)).source.Values)
  {
    var v := Step(w, Finish(h, ok));
    forall t | t in v.tasks && (v.tasks[t].Written? || v.tasks[t].Changed?) && ModeOf(v, v.tasks[t].h).Plain?
      ensures Promised(v.tasks[t]) <= past + v.source.Values
    {
      if v.tasks[t].h == h {
        forall row | row in Promised(w.tasks[t]) ensures row in past + v.source.Values {
          assert CommitsPromises(w, h, ok, t, past);
          FinishedRowsIff(w, h, ok, row, past);
        }
      }
    }
  }

  lemma RestPledged(w: World, e: Event, past: set<Row>)
    requires Pledged(w, past) && Enabled(w, e)
    requires !(e.Create? || e.Update? || e.Delete? || e.Finish?)
    ensures Pledged(Step(w, e), past)
  {
    var v := Step(w, e);
    forall t | t in v.tasks && (v.tasks[t].Written? || v.tasks[t].Changed?)
      ensures t in w.tasks && v.tasks[t] == w.tasks[t]
      ensures ModeOf(v, v.tasks[t].h).Plain? ==> ModeOf(w, v.tasks[t].h).Plain?
    {
    }
  }

  lemma StepPledged(w: World, e: Event, past: set<Row>)
    requires Pledged(w, past) && KeyedWorld(w) && w.source.Values <= past
    requires Enabled(w, e) && Settles(w, e, past)
    ensures HandsOver(w, e, past)
    ensures Pledged(Step(w, e), past + Step(w, e).source.Values)
  {
    if e.Create? || e.Update? || e.Delete? {
      WritePledged(w, e, past);
    } else if e.Finish? {
      FinishPledged(w, e.h, e.ok, past);
    } else {
      RestPledged(w, e, past);
    }
  }

  ghost predicate SettlesAt(ws: seq<World>, es: seq<Event>, i: nat)
    requires IsTrace(ws, es) && i < |es|
  {
    Settles(ws[i], es[i], Committed(ws, i))
  }

  lemma NthPledged(ws: seq<World>, es: seq<Event>, i: nat)
    requires IsTrace(ws, es) && Start(ws[0]) && i < |es| && SettlesAt(ws, es, i)
    requires Pledged(ws[i], Committed(ws, i))
    ensures HandsOverAt(ws, es, i) && Pledged(ws[i + 1], Committed(ws, i + 1))
  {
    TraceKeyed(ws, es, i);
    assert Moves(ws[i], es[i], ws[i + 1]);
    StepPledged(ws[i], es[i], Committed(ws, i));
    assert Committed(ws, i + 1) == Committed(ws, i) + ws[i + 1].source.Values;
  }

  lemma {:induction false} RunPledged(ws: seq<World>, es: seq<Event>, n: nat)
    requires IsTrace(ws, es) && Start(ws[0]) && n <= |es|
    requires forall i :: 0 <= i < n ==> SettlesAt(ws, es, i)
    ensures Pledged(ws[n], Committed(ws, n))
    ensures forall i :: 0 <= i < n ==> HandsOverAt(ws, es, i)
  {
    hide Moves, Settles, HandsOver;
    if n > 0 {
      RunPledged(ws, es, n - 1);
      NthPledged(ws, es, n - 1);
    }
  }

  /** What the owner of a handle can see to: if no transaction ends while an open write on
      its handle has a row that the commit does not publish, and no cached read goes to the
      source where its handle's transaction has an uncommitted row, then in every
      interleaving whatever is cached or was returned had been committed. */
  lemma OnlyCommittedRows(ws: seq<World>, es: seq<Event>, n: nat, row: Row)
    requires IsTrace(ws, es) && Start(ws[0]) && n < |ws|
    requires forall i :: 0 <= i < |es| ==> SettlesAt(ws, es, i)
    requires row in CachedRows(ws[n].cache) + ws[n].replies
    ensures WasCommitted(ws, n, row)
  {
    hide Moves, HandsOver, Settles;
    RunPledged(ws, es, |es|);
    OnlyCommittedRowsIff(ws, es);
    assert AllCommitted(ws, n);
  }

  // ------------------------------------------------- runs that hand rows over

  lemma CreateUncommitted(w: World, h: HandleId, tx: TxId, t: TaskId, row: Row)
    returns (v: World)
    requires ModeOf(w, h) == Owned(tx) && tx in w.txs && w.txs[tx] == map[] && View(w, h) == w.source
    requires t !in w.tasks && row.key !in w.source
    ensures Moves(w, Create(t, h, map[row.key := row]), v) && v.source == w.source
    ensures v.handles == w.handles && v.cache == w.cache && v.txs == w.txs[tx := map[row.key := Some(row)]]
    ensures t in v.tasks && v.tasks == w.tasks[t := v.tasks[t]]
    ensures v.tasks[t].Written? && v.tasks[t].h == h && row in RowsOf(v.tasks[t].created)
  {
    var rows: Table := map[row.key := row];
    v := Step(w, Create(t, h, rows));
    var change: Overlay := map k | k in rows :: Some(rows[k]);
    assert map[] + change == map[row.key := Some(row)];
    assert row.key in v.tasks[t].created && v.tasks[t].created[row.key].row == row;
  }

  lemma EndBeforeCheck(w: World, h: HandleId, tx: TxId, t: TaskId, row: Row, held: Row, ok: bool)
    returns (w3: World, w4: World)
    requires ModeOf(w, h) == Owned(tx) && tx in w.txs && w.txs[tx] == map[held.key := Some(held)] && !Lent(w, tx)
    requires t in w.tasks && w.tasks[t].Written? && w.tasks[t].h == h && row in RowsOf(w.tasks[t].created)
    ensures Moves(w, Finish(h, ok), w3)
    ensures w3.source == if ok then w.source[held.key := held] else w.source
    ensures Moves(w3, CheckCache(t), w4) && w4.source == w3.source && row in w4.replies
  {
    w3 := Step(w, Finish(h, ok));
    assert Apply(w.source, w.txs[tx]) == w.source[held.key := held];
    w4 := Step(w3, CheckCache(t));
  }

  /** `maybe_commit` makes the handle a plain connection before it knows whether the commit
      succeeds: a create with nothing else in its transaction, whose cache check falls
      behind the commit, answers with a row that is committed exactly when it did. */
  lemma CommitDuringCreateCleanIff(w: World, h: HandleId, tx: TxId, t: TaskId, row: Row, ok: bool)
    returns (ws: seq<World>, es: seq<Event>)
    requires ModeOf(w, h).Plain? && Unused(w, tx) && t !in w.tasks && row.key !in w.source
    ensures es == [Begin(h, tx), Create(t, h, map[row.key := row]), Finish(h, ok), CheckCache(t)]
    ensures IsTrace(ws, es) && ws[0] == w
    ensures row in ws[4].replies
    ensures WasCommitted(ws, 4, row) <==> ok
  {
    hide Moves;
    var w1 := BeginSees(w, h, tx);
    var w2 := CreateUncommitted(w1, h, tx, t, row);
    var w3, w4 := EndBeforeCheck(w2, h, tx, t, row, row, ok);
    es := [Begin(h, tx), Create(t, h, map[row.key := row]), Finish(h, ok), CheckCache(t)];
    ws := [w, w1, w2, w3, w4];
    TraceOfFour(w, Begin(h, tx), w1, Create(t, h, map[row.key := row]), w2, Finish(h, ok), w3, CheckCache(t), w4);
    if ok {
      assert ws[3].source[row.key] == row;
    }
  }

  lemma UpdateUncommitted(w: World, h: HandleId, tx: TxId, t: TaskId, row: Row, newer: Row)
    returns (v: World)
    requires ModeOf(w, h) == Owned(tx) && tx in w.txs && w.txs[tx] == map[row.key := Some(row)]
    requires t !in w.tasks && newer.key == row.key
    ensures Moves(w, Event.Update(t, h, map[newer.key := newer]), v)
    ensures v.source == w.source && v.handles == w.handles && v.txs == w.txs[tx := map[newer.key := Some(newer)]]
    ensures t in v.tasks && v.tasks == w.tasks[t := v.tasks[t]]
  {
    v := Step(w, Event.Update(t, h, map[newer.key := newer]));
    var hit := Restrict(map[newer.key := newer], View(w, h).Keys);
    assert hit == map[newer.key := newer];
    var change: Overlay := map k | k in hit :: Some(hit[k]);
    assert w.txs[tx] + change == map[newer.key := Some(newer)];
  }

  lemma OverwriteThenCheck(w: World, h: HandleId, tx: TxId, t: TaskId, u: TaskId, row: Row, newer: Row)
    returns (w1: World, w2: World, w3: World, w4: World, w5: World)
    requires ModeOf(w, h).Plain? && Unused(w, tx) && t !in w.tasks && u !in w.tasks && t != u
    requires row.key !in w.source && newer.key == row.key
    ensures Moves(w, Begin(h, tx), w1) && Moves(w1, Create(t, h, map[row.key := row]), w2)
    ensures Moves(w2, Event.Update(u, h, map[newer.key := newer]), w3)
    ensures Moves(w3, Finish(h, true), w4) && Moves(w4, CheckCache(t), w5)
    ensures w1.source == w2.source == w3.source == w.source && row in w5.replies
    ensures w4.source == w5.source == w.source[newer.key := newer]
  {
    w1 := BeginSees(w, h, tx);
    w2 := CreateUncommitted(w1, h, tx, t, row);
    w3 := UpdateUncommitted(w2, h, tx, u, row, newer);
    w4, w5 := EndBeforeCheck(w3, h, tx, t, row, newer, true);
  }

  /** Even a commit that succeeds does not help a row that the transaction has replaced: it
      is answered with, and on its way into the cache, without ever being committed. */
  lemma OverwrittenRowHandedOver(w: World, h: HandleId, tx: TxId, t: TaskId, u: TaskId, row: Row, newer: Row)
    returns (ws: seq<World>, es: seq<Event>)
    requires ModeOf(w, h).Plain? && Unused(w, tx) && t !in w.tasks && u !in w.tasks && t != u
    requires row.key !in w.source && newer.key == row.key && newer != row
    ensures es == [Begin(h, tx), Create(t, h, map[row.key := row]), Event.Update(u, h, map[newer.key := newer]),
                   Finish(h, true)] + [CheckCache(t)]
    ensures IsTrace(ws, es) && ws[0] == w
    ensures row in ws[5].replies && !WasCommitted(ws, 5, row)
  {
    hide Moves;
    var w1, w2, w3, w4, w5 := OverwriteThenCheck(w, h, tx, t, u, row, newer);
    var e1, e2 := Create(t, h, map[row.key := row]), Event.Update(u, h, map[newer.key := newer]);
    TraceOfFour(w, Begin(h, tx), w1, e1, w2, e2, w3, Finish(h, true), w4);
    TraceSnoc([w, w1, w2, w3, w4], [Begin(h, tx), e1, e2, Finish(h, true)], w4, CheckCache(t), w5);
    ws, es := [w, w1, w2, w3, w4] + [w5], [Begin(h, tx), e1, e2, Finish(h, true)] + [CheckCache(t)];
    assert forall i :: 0 <= i < 6 ==> ws[i].source == w.source || ws[i].source == w.source[newer.key := newer];
  }

  lemma ReadBehindBegin(w: World, h: HandleId, tx: TxId, t: TaskId, u: TaskId, row: Row)
    returns (w1: World, w2: World, w3: World, w4: World)
    requires ModeOf(w, h).Plain? && Unused(w, tx) && t !in w.tasks && u !in w.tasks && t != u
    requires row.key !in w.source && row.key !in w.cache.moka
    ensures Moves(w, BeginRead(t, h, {row.key}), w1) && Moves(w1, LookUp(t, row.key), w2)
    ensures Moves(w2, Begin(h, tx), w3) && Moves(w3, Create(u, h, map[row.key := row]), w4)
    ensures w1.source == w2.source == w3.source == w4.source == w.source && w4.cache == w.cache
    ensures ModeOf(w4, h) == Owned(tx) && tx in w4.txs && w4.txs[tx] == map[row.key := Some(row)]
    ensures t in w4.tasks && w4.tasks[t] == Looking(h, {}, {row.key})
  {
    w1, w2 := MissOne(w, h, t, row.key);
    w3 := BeginSees(w2, h, tx);
    w4 := CreateUncommitted(w3, h, tx, u, row);
  }

  /** `read_for_update` may begin a transaction between the cache lookup of a read and its
      source read on the same handle: what the read then finds is cached uncommitted. */
  lemma ReadInTransactionHandedOver(w: World, h: HandleId, tx: TxId, t: TaskId, u: TaskId, row: Row)
    returns (ws: seq<World>, es: seq<Event>)
    requires ModeOf(w, h).Plain? && Unused(w, tx) && t !in w.tasks && u !in w.tasks && t != u
    requires row.key !in w.source && row.key !in w.cache.moka && row.key !in w.cache.monoMap
    ensures es == [BeginRead(t, h, {row.key}), LookUp(t, row.key), Begin(h, tx), Create(u, h, map[row.key := row])]
                  + [Fetch(t)] + [InsertNext(t, row.key)]
    ensures IsTrace(ws, es) && ws[0] == w
    ensures row.key in ws[6].cache.moka && ws[6].cache.moka[row.key] == row && !WasCommitted(ws, 6, row)
  {
    hide Moves;
    var w1, w2, w3, w4 := ReadBehindBegin(w, h, tx, t, u, row);
    var w5 := FetchOwn(w4, h, tx, t, row);
    var w6 := InsertFetched(w5, t, row);
    var e0, e1, e3 := BeginRead(t, h, {row.key}), LookUp(t, row.key), Create(u, h, map[row.key := row]);
    var ds, us := [e0, e1, Begin(h, tx), e3], [w, w1, w2, w3, w4];
    TraceOfFour(w, e0, w1, e1, w2, Begin(h, tx), w3, e3, w4);
    TraceSnoc(us, ds, w4, Fetch(t), w5);
    TraceSnoc(us + [w5], ds + [Fetch(t)], w5, InsertNext(t, row.key), w6);
    ws, es := us + [w5] + [w6], ds + [Fetch(t)] + [InsertNext(t, row.key)];
    assert forall i :: 0 <= i < 7 ==> ws[i].source == w.source;
  }

  lemma FetchOwn(w: World, h: HandleId, tx: TxId, t: TaskId, row: Row)
    returns (v: World)
    requires ModeOf(w, h) == Owned(tx) && tx in w.txs && w.txs[tx] == map[row.key := Some(row)]
    requires t in w.tasks && w.tasks[t] == Looking(h, {}, {row.key})
    ensures Moves(w, Fetch(t), v) && v.source == w.source && v.cache == w.cache
    ensures t in v.tasks && v.tasks[t].Inserting? && row.key in v.tasks[t].todo && v.tasks[t].todo[row.key].row == row
  {
    v := Step(w, Fetch(t));
    assert View(w, h)[row.key] == row;
  }

  lemma InsertFetched(w: World, t: TaskId, row: Row)
    returns (v: World)
    requires t in w.tasks && w.tasks[t].Inserting? && row.key in w.tasks[t].todo && w.tasks[t].todo[row.key].row == row
    requires row.key !in w.cache.monoMap
    ensures Moves(w, InsertNext(t, row.key), v) && v.source == w.source
    ensures row.key in v.cache.moka && v.cache.moka[row.key] == row
  {
    v := Step(w, InsertNext(t, row.key));
  }
}
