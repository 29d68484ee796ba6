/** When the cache agrees with the source although reads, writes, evictions and late
    listener calls interleave freely on plain connections. */
module Coherence {
  import opened Rows
  import opened MonoCache
  import opened Protocol

  /** An unfinished write will remove `r` from the cache. */
  predicate Owes(task: Task, r: Row) {
    (task.Changed? || task.Invalidating?) && r.key in task.rows && Dooms(task.cause, r.mono, task.rows[r.key].mono)
  }

  ghost predicate Covered(w: World, r: Row) {
    exists t :: t in w.tasks && Owes(w.tasks[t], r)
  }

  predicate Current(w: World, r: Row) {
    r.key in w.source && w.source[r.key] == r
  }

  ghost predicate Good(w: World, r: Row) {
    Current(w, r) || Covered(w, r)
  }

  /** Every cached row is the source's row, or an unfinished write will remove it. */
  ghost predicate Coherent(w: World) {
    forall k :: k in w.cache.moka ==> Good(w, w.cache.moka[k])
  }

  /** No write has an invalidation left to do. */
  ghost predicate WritersDone(w: World) {
    forall t :: t in w.tasks && (w.tasks[t].Changed? || w.tasks[t].Invalidating?) ==> w.tasks[t].rows == map[]
  }

  /** Wherever the cache has an entry it is the source's row. */
  ghost predicate Agrees(w: World) {
    forall k :: k in w.cache.moka ==> k in w.source && w.source[k] == w.cache.moka[k]
  }

  // ----------------------------------------------------- disciplined runs

  /** `Prompt`: the listener is done before anything else happens.
      `Late`: notices are delivered at any time and in any order. */
  datatype Discipline = Prompt | Late

  /** No write of the row's key was committed since the row was obtained. */
  predicate Timely(w: World, f: Fetched) {
    f.stamp == StampOf(w, f.row.key)
  }

  /** A recreated row is no older than what is left of its key in the cache. */
  ghost predicate NotOlderThanLeftovers(w: World, rows: Table) {
    && (forall k :: k in rows && k in w.cache.moka ==> w.cache.moka[k].mono <= rows[k].mono)
    && (forall n :: n in w.cache.notices && !n.cause.Explicit? && n.row.key in rows ==>
          n.row.mono <= rows[n.row.key].mono)
  }

  ghost predicate Allowed(w: World, e: Event, d: Discipline)
    requires Enabled(w, e)
  {
    && (d.Prompt? ==> e.Notify? || w.cache.notices == [])
    && match e
       case Create(_, _, rows) => d.Late? ==> NotOlderThanLeftovers(w, rows)
       case Update(_, _, rows) => forall k :: k in rows && k in w.source ==> w.source[k].mono < rows[k].mono
       case InsertNext(t, k) =>
         var f := w.tasks[t].todo[k];
         Timely(w, f) || (d.Prompt? && Covered(w, f.row))
       case Begin(_, _) => false
       case Borrow(_, _) => false
       case _ => true
  }

  ghost predicate Disciplined(ws: seq<World>, es: seq<Event>, d: Discipline)
    requires IsTrace(ws, es)
  {
    forall i {:trigger es[i]} :: 0 <= i < |es| ==> Allowed(ws[i], es[i], d)
  }

  // ----------------------------------------------------------- invariant

  predicate GoodStamp(w: World, k: Key, f: Fetched) {
    && f.row.key == k
    && f.stamp <= StampOf(w, k)
    && (f.stamp == StampOf(w, k) ==> Current(w, f.row))
  }

  function InFlight(task: Task): map<Key, Fetched> {
    match task
    case Written(_, created) => created
    case Inserting(todo) => todo
    case _ => map[]
  }

  ghost predicate GoodStamps(w: World) {
    forall t, k :: t in w.tasks && k in InFlight(w.tasks[t]) ==> GoodStamp(w, k, InFlight(w.tasks[t])[k])
  }

  ghost predicate KeyedTasks(w: World) {
    forall t :: t in w.tasks && (w.tasks[t].Changed? || w.tasks[t].Invalidating?) ==> KeyedTable(w.tasks[t].rows)
  }

  /** If the listener ever puts a row back, that row is good. */
  ghost predicate RepairsAreGood(w: World) {
    forall n :: n in w.cache.notices && Hot(w.cache.monoMap, n) ==> Good(w, n.row)
  }

  /** Nothing left of a live key in the cache is newer than its source row. */
  ghost predicate LeftoversAreOld(w: World) {
    forall k :: k in w.source ==>
      && (k in w.cache.moka ==> w.cache.moka[k].mono <= w.source[k].mono)
      && (forall n :: n in w.cache.notices && !n.cause.Explicit? && n.row.key == k ==> n.row.mono <= w.source[k].mono)
  }

  ghost predicate Inv(w: World, d: Discipline) {
    && w.handles == map[] && w.txs == map[]
    && KeyedTable(w.source)
    && Consistent(w.cache)
    && GoodStamps(w)
    && KeyedTasks(w)
    && Coherent(w)
    && RepairsAreGood(w)
    && (d.Late? ==> LeftoversAreOld(w))
  }

  // ------------------------------------------------------- step by step

  lemma GoodKept(w: World, v: World, r: Row)
    requires Good(w, r)
    requires Current(w, r) ==> Good(v, r)
    requires forall t :: t in w.tasks && Owes(w.tasks[t], r) ==> t in v.tasks && Owes(v.tasks[t], r)
    ensures Good(v, r)
  {
    if Covered(w, r) {
      var t :| t in w.tasks && Owes(w.tasks[t], r);
      assert Owes(v.tasks[t], r);
    }
  }

  /** Stamps only grow, and a key whose stamp stands still keeps its row. */
  ghost predicate Grows(w: World, v: World) {
    forall k ::
      && StampOf(w, k) <= StampOf(v, k)
      && (StampOf(w, k) == StampOf(v, k) && k in w.source ==> k in v.source && v.source[k] == w.source[k])
  }

  lemma StampsKept(w: World, v: World)
    requires GoodStamps(w) && Grows(w, v)
    requires forall t, k :: t in v.tasks && k in InFlight(v.tasks[t]) ==>
      || (t in w.tasks && k in InFlight(w.tasks[t]) && InFlight(v.tasks[t])[k] == InFlight(w.tasks[t])[k])
      || GoodStamp(v, k, InFlight(v.tasks[t])[k])
    ensures GoodStamps(v)
  {
    forall t, k | t in v.tasks && k in InFlight(v.tasks[t])
      ensures GoodStamp(v, k, InFlight(v.tasks[t])[k])
    {
      if !GoodStamp(v, k, InFlight(v.tasks[t])[k]) {
        assert GoodStamp(w, k, InFlight(w.tasks[t])[k]);
      }
    }
  }

  /** A committed write dooms every old row it replaces or drops. */
  lemma WriteOwes(w: World, e: Event, d: Discipline, r: Row)
    requires KeyedTable(w.source) && w.handles == map[] && Enabled(w, e) && Allowed(w, e, d)
    requires e.Create? || e.Update? || e.Delete?
    requires Current(w, r) && !Current(Step(w, e), r)
    ensures e.t in Step(w, e).tasks && Owes(Step(w, e).tasks[e.t], r)
  {
  }

  lemma WriteKeepsGood(w: World, e: Event, d: Discipline)
    requires KeyedTable(w.source) && w.handles == map[] && Enabled(w, e) && Allowed(w, e, d)
    requires e.Create? || e.Update? || e.Delete?
    ensures forall r :: Good(w, r) ==> Good(Step(w, e), r)
  {
    var v := Step(w, e);
    forall r | Good(w, r)
      ensures Good(v, r)
    {
      if Current(w, r) && !Current(v, r) {
        WriteOwes(w, e, d, r);
      }
      GoodKept(w, v, r);
    }
  }

  lemma WriteGrows(w: World, e: Event)
    requires Enabled(w, e) && w.handles == map[]
    requires e.Create? || e.Update? || e.Delete?
    ensures Grows(w, Step(w, e))
  {
  }

  lemma WriteKeepsStamps(w: World, e: Event)
    requires GoodStamps(w) && Enabled(w, e) && w.handles == map[]
    requires e.Create? || e.Update? || e.Delete?
    ensures GoodStamps(Step(w, e))
  {
    WriteGrows(w, e);
    StampsKept(w, Step(w, e));
  }

  lemma WriteKeepsLeftovers(w: World, e: Event)
    requires LeftoversAreOld(w) && Enabled(w, e) && Allowed(w, e, Late) && w.handles == map[]
    requires e.Create? || e.Update? || e.Delete?
    ensures LeftoversAreOld(Step(w, e))
  {
  }

  lemma WriteShape(w: World, e: Event)
    requires KeyedTable(w.source) && KeyedTasks(w) && w.handles == map[] && Enabled(w, e)
    requires e.Create? || e.Update? || e.Delete?
    ensures var v := Step(w, e);
      KeyedTable(v.source) && KeyedTasks(v) && v.cache == w.cache && v.handles == w.handles && v.txs == w.txs
  {
  }

  lemma WriteStep(w: World, e: Event, d: Discipline)
    requires Inv(w, d) && Enabled(w, e) && Allowed(w, e, d)
    requires e.Create? || e.Update? || e.Delete?
    ensures Inv(Step(w, e), d)
  {
    WriteShape(w, e);
    WriteKeepsGood(w, e, d);
    WriteKeepsStamps(w, e);
    if d.Late? {
      WriteKeepsLeftovers(w, e);
    }
    assert RepairsAreGood(Step(w, e));
  }

  /** What a step that changes the cache alone has to show. */
  lemma CacheFrame(w: World, v: World, d: Discipline)
    requires Inv(w, d) && v == w.(cache := v.cache) && Consistent(v.cache)
    requires forall k :: k in v.cache.moka ==> Good(w, v.cache.moka[k])
    requires forall n :: n in v.cache.notices && Hot(v.cache.monoMap, n) ==> Good(w, n.row)
    requires d.Late? ==> LeftoversAreOld(v)
    ensures Inv(v, d)
  {
    forall r | Good(w, r)
      ensures Good(v, r)
    {
      GoodKept(w, v, r);
    }
    assert Grows(w, v);
    StampsKept(w, v);
  }

  /** What a step that changes running operations alone has to show. */
  lemma TasksFrame(w: World, v: World, d: Discipline)
    requires Inv(w, d) && v == w.(tasks := v.tasks, replies := v.replies)
    requires GoodStamps(v) && KeyedTasks(v)
    requires forall r :: Good(w, r) ==> Good(v, r)
    ensures Inv(v, d)
  {
  }

  lemma DropTodo(w: World, t: TaskId, k: Key, d: Discipline)
    requires Inv(w, d) && t in w.tasks && w.tasks[t].Inserting?
    ensures Inv(w.(tasks := w.tasks[t := Inserting(w.tasks[t].todo - {k})]), d)
  {
    var v := w.(tasks := w.tasks[t := Inserting(w.tasks[t].todo - {k})]);
    forall r | Good(w, r)
      ensures Good(v, r)
    {
      GoodKept(w, v, r);
    }
    assert Grows(w, v);
    StampsKept(w, v);
    TasksFrame(w, v, d);
  }

  lemma TakeRow(w: World, row: Row, d: Discipline)
    requires Inv(w, d) && Good(w, row)
    requires if d.Prompt? then w.cache.notices == [] else Current(w, row)
    ensures Inv(w.(cache := InsertOne(w.cache, row)), d)
  {
    var v := w.(cache := InsertOne(w.cache, row));
    StepConsistent(w.cache, Inserted(row));
    CacheFrame(w, v, d);
  }

  lemma InsertStep(w: World, t: TaskId, k: Key, d: Discipline)
    requires Inv(w, d) && Enabled(w, InsertNext(t, k)) && Allowed(w, InsertNext(t, k), d)
    ensures Inv(Step(w, InsertNext(t, k)), d)
  {
    var f := w.tasks[t].todo[k];
    assert k in InFlight(w.tasks[t]);
    assert GoodStamp(w, k, f);
    TakeRow(w, f.row, d);
    DropTodo(w.(cache := InsertOne(w.cache, f.row)), t, k, d);
  }

  lemma InvalidateStep(w: World, e: Event, d: Discipline)
    requires Inv(w, d) && Enabled(w, e) && e.InvalidateNext?
    ensures Inv(Step(w, e), d)
  {
    var v := Step(w, e);
    var Invalidating(rows, cause) := w.tasks[e.t];
    var mono := rows[e.k].mono;
    StepConsistent(w.cache, Invalidated(e.k, mono, cause));
    forall r | Good(w, r) && !(r.key == e.k && Dooms(cause, r.mono, mono))
      ensures Good(v, r)
    {
      GoodKept(w, v, r);
    }
  }

  lemma EvictStep(w: World, k: Key, cause: RemovalCause, d: Discipline)
    requires Inv(w, d) && Enabled(w, EvictEntry(k, cause))
    ensures Inv(Step(w, EvictEntry(k, cause)), d)
  {
    var v := w.(cache := Evict(w.cache, k, cause));
    StepConsistent(w.cache, Evicted(k, cause));
    assert !Hot(v.cache.monoMap, Notice(w.cache.moka[k], cause));
    CacheFrame(w, v, d);
  }

  lemma ListenerStep(w: World, i: nat, d: Discipline)
    requires Inv(w, d) && Enabled(w, Notify(i))
    ensures Inv(Step(w, Notify(i)), d)
  {
    var v := w.(cache := Deliver(w.cache, i));
    StepConsistent(w.cache, Delivered(i));
    assert w.cache.notices[i] in w.cache.notices;
    CacheFrame(w, v, d);
  }

  /** Steps that touch neither the source nor the cache. */
  predicate Bookkeeping(e: Event) {
    e.CheckCache? || e.BeginRead? || e.LookUp? || e.Fetch? || e.BatchQuery?
  }

  lemma BookkeepingKeepsGood(w: World, e: Event)
    requires w.handles == map[] && Enabled(w, e) && Bookkeeping(e)
    ensures forall r :: Good(w, r) ==> Good(Step(w, e), r)
  {
    var v := Step(w, e);
    forall r | Good(w, r)
      ensures Good(v, r)
    {
      GoodKept(w, v, r);
    }
  }

  lemma CheckKeepsStamps(w: World, t: TaskId)
    requires GoodStamps(w) && w.handles == map[] && Enabled(w, CheckCache(t))
    ensures GoodStamps(Step(w, CheckCache(t)))
  {
    var v := Step(w, CheckCache(t));
    assert Grows(w, v);
    StampsKept(w, v);
  }

  lemma BeginReadKeepsStamps(w: World, t: TaskId, h: HandleId, keys: set<Key>)
    requires GoodStamps(w) && Enabled(w, BeginRead(t, h, keys))
    ensures GoodStamps(Step(w, BeginRead(t, h, keys)))
  {
    var v := w.(tasks := w.tasks[t := Looking(h, keys, {})]);
    assert Grows(w, v);
    StampsKept(w, v);
  }

  lemma LookUpKeepsStamps(w: World, t: TaskId, k: Key)
    requires GoodStamps(w) && Enabled(w, LookUp(t, k))
    ensures GoodStamps(Step(w, LookUp(t, k)))
  {
    var v := Step(w, LookUp(t, k));
    assert Grows(w, v);
    StampsKept(w, v);
  }

  /** Rows just read carry good stamps. */
  lemma FoundStamps(w: World, v: World, t: TaskId, keys: set<Key>)
    requires GoodStamps(w) && KeyedTable(w.source)
    requires v == w.(tasks := w.tasks[t := Inserting(Stamped(w, Restrict(w.source, keys)))], replies := v.replies)
    ensures GoodStamps(v)
  {
    assert Grows(w, v);
    StampsKept(w, v);
  }

  lemma FetchKeepsStamps(w: World, t: TaskId)
    requires GoodStamps(w) && KeyedTable(w.source) && w.handles == map[] && Enabled(w, Fetch(t))
    ensures GoodStamps(Step(w, Fetch(t)))
  {
    FoundStamps(w, Step(w, Fetch(t)), t, w.tasks[t].missed);
  }

  lemma QueryKeepsStamps(w: World, t: TaskId, keys: set<Key>)
    requires GoodStamps(w) && KeyedTable(w.source) && Enabled(w, BatchQuery(t, keys))
    ensures GoodStamps(Step(w, BatchQuery(t, keys)))
  {
    FoundStamps(w, Step(w, BatchQuery(t, keys)), t, keys);
  }

  lemma BookkeepingShape(w: World, e: Event)
    requires KeyedTasks(w) && w.handles == map[] && Enabled(w, e) && Bookkeeping(e)
    ensures KeyedTasks(Step(w, e))
    ensures Step(w, e) == w.(tasks := Step(w, e).tasks, replies := Step(w, e).replies)
  {
  }

  lemma BookkeepingStep(w: World, e: Event, d: Discipline)
    requires Inv(w, d) && Enabled(w, e) && Bookkeeping(e) && GoodStamps(Step(w, e))
    ensures Inv(Step(w, e), d)
  {
    BookkeepingKeepsGood(w, e);
    BookkeepingShape(w, e);
    TasksFrame(w, Step(w, e), d);
  }

  lemma StepKeepsInv(w: World, e: Event, d: Discipline)
    requires Inv(w, d) && Enabled(w, e) && Allowed(w, e, d)
    ensures Inv(Step(w, e), d)
  {
    hide Step;
    match e {
      case Create(_, _, _) => WriteStep(w, e, d);
      case Update(_, _, _) => WriteStep(w, e, d);
      case Delete(_, _, _) => WriteStep(w, e, d);
      case InsertNext(t, k) => InsertStep(w, t, k, d);
      case InvalidateNext(_, _) => InvalidateStep(w, e, d);
      case EvictEntry(k, cause) => EvictStep(w, k, cause, d);
      case Notify(i) => ListenerStep(w, i, d);
      case Finish(_, _) => assert false;
      case OuterFinish(_, _) => assert false;
      case CheckCache(t) => CheckKeepsStamps(w, t); BookkeepingStep(w, e, d);
      case Fetch(t) => FetchKeepsStamps(w, t); BookkeepingStep(w, e, d);
      case BatchQuery(t, keys) => QueryKeepsStamps(w, t, keys); BookkeepingStep(w, e, d);
      case BeginRead(t, h, keys) => BeginReadKeepsStamps(w, t, h, keys); BookkeepingStep(w, e, d);
      case LookUp(t, k) => LookUpKeepsStamps(w, t, k); BookkeepingStep(w, e, d);
    }
  }

  lemma TraceKeepsInv(ws: seq<World>, es: seq<Event>, d: Discipline, n: nat)
    requires IsTrace(ws, es) && Disciplined(ws, es, d) && Inv(ws[0], d) && n < |ws|
    ensures Inv(ws[n], d)
  {
    var link := (w: World, e: Event, v: World) => Moves(w, e, v) && Allowed(w, e, d);
    forall w, e, v | link(w, e, v) && Inv(w, d)
      ensures Inv(v, d)
    {
      StepKeepsInv(w, e, d);
    }
    Along(link, w => Inv(w, d), ws, es, n);
  }

  /** Throughout every disciplined interleaving the cache is coherent, and whenever
      the writers have finished it agrees with the source. */
  lemma CacheCoherence(ws: seq<World>, es: seq<Event>, d: Discipline, n: nat)
    requires IsTrace(ws, es) && Disciplined(ws, es, d) && Start(ws[0]) && n < |ws|
    ensures Coherent(ws[n])
    ensures WritersDone(ws[n]) ==> Agrees(ws[n])
  {
    TraceKeepsInv(ws, es, d, n);
  }
}
