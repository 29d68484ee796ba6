/** The cached handler as interleaved steps. Every operation of
    `CrudableHandlerImpl` is cut where the source code awaits: the source call, the
    cache check that follows it, each single-item cache access, each eviction and
    each late listener call. */
module Protocol {
  import opened Rows
  import opened MonoCache

  type HandleId(==, !new)
  type TaskId(==, !new)
  type TxId(==, !new)

  /** Uncommitted changes: a new row, or `None` for a deletion. */
  type Overlay = map<Key, Option<Row>>

  /** What a source handle stands for (`PostgresCrudableConnectionInner`). */
  datatype Mode = Plain | Owned(tx: TxId) | Borrowed(otx: TxId)

  /** A row obtained from the source, with the number of committed writes its key
      had seen at that moment. */
  datatype Fetched = Fetched(row: Row, stamp: nat)

  /** How far a running operation has come. */
  datatype Task =
    | Looking(h: HandleId, keys: set<Key>, missed: set<Key>)          // read: cache lookups
    | Written(h: HandleId, created: map<Key, Fetched>)                  // create: source call done
    | Changed(h: HandleId, rows: Table, cause: InvalidateCause)       // update, delete: source call done
    | Inserting(todo: map<Key, Fetched>)                              // rows on their way into the cache
    | Invalidating(rows: Table, cause: InvalidateCause)               // entries still to be invalidated

  datatype World = World(
    source: Table,
    writes: map<Key, nat>,
    cache: Cache,
    handles: map<HandleId, Mode>,
    txs: map<TxId, Overlay>,
    tasks: map<TaskId, Task>,
    replies: set<Row>)               // rows returned through cache-using handles

  datatype Event =
    | Create(t: TaskId, h: HandleId, rows: Table)
    | Update(t: TaskId, h: HandleId, rows: Table)
    | Delete(t: TaskId, h: HandleId, keys: set<Key>)
    | CheckCache(t: TaskId)                     // should_use_cache after the write
    | BeginRead(t: TaskId, h: HandleId, keys: set<Key>)
    | LookUp(t: TaskId, k: Key)
    | Fetch(t: TaskId)                          // source.read of the missed keys
    | BatchQuery(t: TaskId, keys: set<Key>)     // the batcher's own plain connection
    | InsertNext(t: TaskId, k: Key)
    | InvalidateNext(t: TaskId, k: Key)
    | EvictEntry(k: Key, cause: RemovalCause)
    | Notify(i: nat)
    | Begin(h: HandleId, tx: TxId)              // maybe_begin_transaction
    | Finish(h: HandleId, ok: bool)             // maybe_commit
    | Borrow(h: HandleId, tx: TxId)
    | OuterFinish(tx: TxId, ok: bool)           // the lender ends a borrowed transaction

  // ------------------------------------------------------------ the source

  function ModeOf(w: World, h: HandleId): Mode {
    if h in w.handles then w.handles[h] else Plain
  }

  function StampOf(w: World, k: Key): nat {
    if k in w.writes then w.writes[k] else 0
  }

  function Apply(t: Table, o: Overlay): Table {
    map k | k in t.Keys + o.Keys && (k in o ==> o[k].Some?) :: if k in o then o[k].value else t[k]
  }

  function TxOf(m: Mode): Option<TxId> {
    match m
    case Plain => None
    case Owned(tx) => Some(tx)
    case Borrowed(tx) => Some(tx)
  }

  /** A handle can be used unless it points into a transaction that has ended. */
  predicate Usable(w: World, h: HandleId) {
    TxOf(ModeOf(w, h)).Some? ==> TxOf(ModeOf(w, h)).value in w.txs
  }

  /** What a statement on handle `h` sees: committed rows, and the handle's own
      uncommitted ones. */
  function View(w: World, h: HandleId): Table {
    match TxOf(ModeOf(w, h))
    case Some(tx) => if tx in w.txs then Apply(w.source, w.txs[tx]) else w.source
    case None => w.source
  }

  function Commit(w: World, change: Overlay): World {
    w.(source := Apply(w.source, change),
       writes := map k | k in w.writes.Keys + change.Keys :: StampOf(w, k) + (if k in change then 1 else 0))
  }

  function WriteThrough(w: World, h: HandleId, change: Overlay): World
    requires Usable(w, h)
  {
    match TxOf(ModeOf(w, h))
    case Some(tx) => w.(txs := w.txs[tx := w.txs[tx] + change])
    case None => Commit(w, change)
  }

  function Restrict(t: Table, keys: set<Key>): Table {
    map k | k in keys && k in t :: t[k]
  }

  function Stamped(w: World, t: Table): map<Key, Fetched> {
    map k | k in t :: Fetched(t[k], StampOf(w, k))
  }

  function RowsOf(m: map<Key, Fetched>): set<Row> {
    set k | k in m :: m[k].row
  }

  /** A transaction of this name has never been begun. */
  predicate Unused(w: World, tx: TxId) {
    tx !in w.txs && forall h :: h in w.handles ==> TxOf(w.handles[h]) != Some(tx)
  }

  /** Some other handle still uses the transaction. */
  predicate Lent(w: World, tx: TxId) {
    exists h :: h in w.handles && w.handles[h] == Borrowed(tx)
  }

  // ------------------------------------------------------------- the steps

  predicate Enabled(w: World, e: Event) {
    match e
    case Create(t, h, rows) => t !in w.tasks && Usable(w, h) && KeyedTable(rows) && rows.Keys !! View(w, h).Keys
    case Update(t, h, rows) => t !in w.tasks && Usable(w, h) && KeyedTable(rows)
    case Delete(t, h, keys) => t !in w.tasks && Usable(w, h)
    case CheckCache(t) => t in w.tasks && (w.tasks[t].Written? || w.tasks[t].Changed?)
    case BeginRead(t, h, keys) => t !in w.tasks && ModeOf(w, h).Plain?
    case LookUp(t, k) => t in w.tasks && w.tasks[t].Looking? && k in w.tasks[t].keys
    case Fetch(t) => t in w.tasks && w.tasks[t].Looking? && w.tasks[t].keys == {} && Usable(w, w.tasks[t].h)
    case BatchQuery(t, keys) => t !in w.tasks
    case InsertNext(t, k) => t in w.tasks && w.tasks[t].Inserting? && k in w.tasks[t].todo
    case InvalidateNext(t, k) => t in w.tasks && w.tasks[t].Invalidating? && k in w.tasks[t].rows
    case EvictEntry(k, cause) => CacheEnabled(w.cache, Evicted(k, cause))
    case Notify(i) => i < |w.cache.notices|
    case Begin(h, tx) => ModeOf(w, h).Plain? && Unused(w, tx)
    case Finish(h, ok) => ModeOf(w, h).Owned? && ModeOf(w, h).tx in w.txs && (ok ==> !Lent(w, ModeOf(w, h).tx))
    case Borrow(h, tx) => h !in w.handles && tx in w.txs
    case OuterFinish(tx, ok) => tx in w.txs && forall h :: h in w.handles ==> w.handles[h] != Owned(tx)
  }

  function Step(w: World, e: Event): World
    requires Enabled(w, e)
  {
    match e
    case Create(t, h, rows) =>
      var w1 := WriteThrough(w, h, map k | k in rows :: Some(rows[k]));
      w1.(tasks := w.tasks[t := Written(h, Stamped(w1, rows))])
    case Update(t, h, rows) =>
      var hit := Restrict(rows, View(w, h).Keys);
      var w1 := WriteThrough(w, h, map k | k in hit :: Some(hit[k]));
      w1.(tasks := w.tasks[t := Changed(h, hit, InvalidateCause.Update)])
    case Delete(t, h, keys) =>
      var gone := Restrict(View(w, h), keys);
      var w1 := WriteThrough(w, h, map k | k in gone :: None);
      w1.(tasks := w.tasks[t := Changed(h, gone, InvalidateCause.Delete)])
    case CheckCache(t) => AfterCheck(w, t)
    case BeginRead(t, h, keys) => w.(tasks := w.tasks[t := Looking(h, keys, {})])
    case LookUp(t, k) =>
      var task := w.tasks[t];
      if k in w.cache.moka
      then w.(tasks := w.tasks[t := Looking(task.h, task.keys - {k}, task.missed)],
              replies := w.replies + {w.cache.moka[k]})
      else w.(tasks := w.tasks[t := Looking(task.h, task.keys - {k}, task.missed + {k})])
    case Fetch(t) =>
      var found := Restrict(View(w, w.tasks[t].h), w.tasks[t].missed);
      w.(tasks := w.tasks[t := Inserting(Stamped(w, found))], replies := w.replies + found.Values)
    case BatchQuery(t, keys) =>
      var found := Restrict(w.source, keys);
      w.(tasks := w.tasks[t := Inserting(Stamped(w, found))], replies := w.replies + found.Values)
    case InsertNext(t, k) =>
      var todo := w.tasks[t].todo;
      w.(cache := InsertOne(w.cache, todo[k].row), tasks := w.tasks[t := Inserting(todo - {k})])
    case InvalidateNext(t, k) =>
      var Invalidating(rows, cause) := w.tasks[t];
      w.(cache := InvalidateOne(w.cache, k, rows[k].mono, cause),
         tasks := w.tasks[t := Invalidating(rows - {k}, cause)])
    case EvictEntry(k, cause) => w.(cache := Evict(w.cache, k, cause))
    case Notify(i) => w.(cache := Deliver(w.cache, i))
    case Begin(h, tx) => w.(handles := w.handles[h := Owned(tx)], txs := w.txs[tx := map[]])
    case Finish(h, ok) =>
      // the handle is a plain connection again whether or not the commit succeeds; it
      // cannot succeed while a borrower uses the transaction, which then lives on
      (if Lent(w, ModeOf(w, h).tx) then w else EndTx(w, ModeOf(w, h).tx, ok)).(handles := w.handles[h := Plain])
    case Borrow(h, tx) => w.(handles := w.handles[h := Borrowed(tx)])
    case OuterFinish(tx, ok) => EndTx(w, tx, ok)
  }

  /** The handler asks `should_use_cache` once the write has returned. */
  function AfterCheck(w: World, t: TaskId): World
    requires Enabled(w, CheckCache(t))
  {
    var task := w.tasks[t];
    if !ModeOf(w, task.h).Plain? then w.(tasks := w.tasks - {t})
    else if task.Written? then
      w.(tasks := w.tasks[t := Inserting(task.created)], replies := w.replies + RowsOf(task.created))
    else
      w.(tasks := w.tasks[t := Invalidating(task.rows, task.cause)],
         replies := if task.cause.Update? then w.replies + task.rows.Values else w.replies)
  }

  function EndTx(w: World, tx: TxId, ok: bool): World
    requires tx in w.txs
  {
    (if ok then Commit(w, w.txs[tx]) else w).(txs := w.txs - {tx})
  }

  predicate Moves(w: World, e: Event, v: World) {
    Enabled(w, e) && v == Step(w, e)
  }

  /** `ws` are the worlds a run with events `es` goes through. */
  ghost predicate IsTrace(ws: seq<World>, es: seq<Event>) {
    && |ws| == |es| + 1
    && forall i {:trigger es[i]} :: 0 <= i < |es| ==> Moves(ws[i], es[i], ws[i + 1])
  }

  /** What every link keeps holds all along a chain. */
  lemma {:induction false} Along<W(!new), E(!new)>(link: (W, E, W) -> bool, inv: W -> bool, ws: seq<W>, es: seq<E>, n: nat)
    requires |ws| == |es| + 1 && n < |ws| && inv(ws[0])
    requires forall i {:trigger es[i]} :: 0 <= i < |es| ==> link(ws[i], es[i], ws[i + 1])
    requires forall w, e, v :: link(w, e, v) && inv(w) ==> inv(v)
    ensures inv(ws[n])
  {
    if n > 0 {
      Along(link, inv, ws, es, n - 1);
      assert link(ws[n - 1], es[n - 1], ws[n - 1 + 1]);
    }
  }

  lemma TraceStart(w: World)
    ensures IsTrace([w], [])
  {
  }

  /** One move more. */
  lemma TraceSnoc(ws: seq<World>, es: seq<Event>, w: World, e: Event, v: World)
    requires IsTrace(ws, es) && ws[|es|] == w && Moves(w, e, v)
    ensures IsTrace(ws + [v], es + [e])
  {
    var us, ds := ws + [v], es + [e];
    forall i | 0 <= i < |ds| ensures Moves(us[i], ds[i], us[i + 1]) {
      if i < |es| {
        assert ds[i] == es[i];
      }
    }
  }

  lemma TraceOfFour(w0: World, e0: Event, w1: World, e1: Event, w2: World, e2: Event, w3: World, e3: Event, w4: World)
    requires Moves(w0, e0, w1) && Moves(w1, e1, w2) && Moves(w2, e2, w3) && Moves(w3, e3, w4)
    ensures IsTrace([w0, w1, w2, w3, w4], [e0, e1, e2, e3])
  {
    hide Moves;
    TraceStart(w0);
    TraceSnoc([w0], [], w0, e0, w1);
    assert [w0] + [w1] == [w0, w1] && [] + [e0] == [e0];
    TraceSnoc([w0, w1], [e0], w1, e1, w2);
    assert [w0, w1] + [w2] == [w0, w1, w2] && [e0] + [e1] == [e0, e1];
    TraceSnoc([w0, w1, w2], [e0, e1], w2, e2, w3);
    assert [w0, w1, w2] + [w3] == [w0, w1, w2, w3] && [e0, e1] + [e2] == [e0, e1, e2];
    TraceSnoc([w0, w1, w2, w3], [e0, e1, e2], w3, e3, w4);
    assert [w0, w1, w2, w3] + [w4] == [w0, w1, w2, w3, w4] && [e0, e1, e2] + [e3] == [e0, e1, e2, e3];
  }

  /** A handle that begins a transaction still sees exactly the committed rows. */
  lemma BeginSees(w: World, h: HandleId, tx: TxId)
    returns (v: World)
    requires ModeOf(w, h).Plain? && Unused(w, tx)
    ensures Moves(w, Begin(h, tx), v)
    ensures v == w.(handles := w.handles[h := Owned(tx)], txs := w.txs[tx := map[]])
    ensures View(v, h) == w.source && !Lent(v, tx)
  {
    v := Step(w, Begin(h, tx));
    assert Apply(w.source, map[]) == w.source;
  }

  /** A cached read of one key that is not cached. */
  lemma MissOne(w: World, h: HandleId, t: TaskId, k: Key)
    returns (w1: World, w2: World)
    requires ModeOf(w, h).Plain? && t !in w.tasks && k !in w.cache.moka
    ensures Moves(w, BeginRead(t, h, {k}), w1) && Moves(w1, LookUp(t, k), w2)
    ensures w1.source == w.source && w1.cache == w.cache && w2 == w.(tasks := w.tasks[t := Looking(h, {}, {k})])
  {
    w1 := Step(w, BeginRead(t, h, {k}));
    w2 := Step(w1, LookUp(t, k));
    assert {k} - {k} == {} && {} + {k} == {k};
    assert w1.tasks[t := Looking(h, {}, {k})] == w.tasks[t := Looking(h, {}, {k})];
  }

  /** Nothing cached, nothing running. */
  ghost predicate Start(w: World) {
    && KeyedTable(w.source)
    && w.cache == EMPTY
    && w.handles == map[] && w.txs == map[] && w.tasks == map[] && w.replies == {}
  }
}
