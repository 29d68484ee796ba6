/** How sharp the hypotheses of cache coherence are: for each one, exactly when the
    step it constrains keeps the cache coherent. */
module CoherenceLimits {
  import opened Rows
  import opened MonoCache
  import opened Protocol
  import opened Coherence

  lemma SameTasksSameGood(w: World, v: World)
    requires v.source == w.source
    requires forall t :: t in w.tasks && (w.tasks[t].Changed? || w.tasks[t].Invalidating?) ==>
      t in v.tasks && v.tasks[t] == w.tasks[t]
    requires forall t :: t in v.tasks && (v.tasks[t].Changed? || v.tasks[t].Invalidating?) ==>
      t in w.tasks && v.tasks[t] == w.tasks[t]
    ensures forall r :: Good(w, r) <==> Good(v, r)
  {
    forall r
      ensures Good(w, r) <==> Good(v, r)
    {
      if Good(w, r) {
        GoodKept(w, v, r);
      }
      if Good(v, r) {
        GoodKept(v, w, r);
      }
    }
  }

  /** A row reaching the cache is harmless exactly when it is current, doomed by an
      unfinished write, or turned away by the guard. */
  lemma InsertKeepsCoherenceIff(w: World, t: TaskId, k: Key)
    requires Coherent(w) && Enabled(w, InsertNext(t, k)) && w.tasks[t].todo[k].row.key == k
    ensures var row := w.tasks[t].todo[k].row;
      Coherent(Step(w, InsertNext(t, k))) <==> Good(w, row) || (k in w.cache.monoMap && row.mono <= w.cache.monoMap[k])
  {
    var v := Step(w, InsertNext(t, k));
    SameTasksSameGood(w, v);
    if !(k in w.cache.monoMap && w.tasks[t].todo[k].row.mono <= w.cache.monoMap[k]) {
      assert k in v.cache.moka;
    }
  }

  /** A listener call is harmless exactly when it repairs nothing or puts back a good row. */
  lemma NotifyKeepsCoherenceIff(w: World, i: nat)
    requires Coherent(w) && Enabled(w, Notify(i))
    ensures var n := w.cache.notices[i];
      Coherent(Step(w, Notify(i))) <==> (Hot(w.cache.monoMap, n) ==> Good(w, n.row))
  {
    var v := Step(w, Notify(i));
    SameTasksSameGood(w, v);
    if Hot(w.cache.monoMap, w.cache.notices[i]) {
      assert w.cache.notices[i].row.key in v.cache.moka;
    }
  }

  /** An update keeps the cache coherent exactly when every cached row it meets is left as
      it is, was doomed already, or gets a strictly greater version. */
  lemma UpdateKeepsCoherenceIff(w: World, t: TaskId, h: HandleId, rows: Table)
    requires Coherent(w) && Keyed(w.cache)
    requires Enabled(w, Event.Update(t, h, rows)) && ModeOf(w, h).Plain?
    ensures Coherent(Step(w, Event.Update(t, h, rows))) <==> Supersedes(w, rows)
  {
    var v := Step(w, Event.Update(t, h, rows));
    forall k | k in w.cache.moka
      ensures Good(v, w.cache.moka[k]) <==> (k in rows && k in w.source ==> SupersedesAt(w, rows, k))
    {
      UpdateAt(w, t, h, rows, k);
    }
  }

  ghost predicate SupersedesAt(w: World, rows: Table, k: Key)
    requires k in rows && k in w.cache.moka
  {
    var r := w.cache.moka[k];
    rows[k] == r || Covered(w, r) || r.mono < rows[k].mono
  }

  ghost predicate Supersedes(w: World, rows: Table) {
    forall k :: k in rows && k in w.source && k in w.cache.moka ==> SupersedesAt(w, rows, k)
  }

  lemma UpdateAt(w: World, t: TaskId, h: HandleId, rows: Table, k: Key)
    requires Coherent(w) && Keyed(w.cache) && k in w.cache.moka
    requires Enabled(w, Event.Update(t, h, rows)) && ModeOf(w, h).Plain?
    ensures Good(Step(w, Event.Update(t, h, rows)), w.cache.moka[k]) <==>
      (k in rows && k in w.source ==> SupersedesAt(w, rows, k))
  {
    var v, r := Step(w, Event.Update(t, h, rows)), w.cache.moka[k];
    var hit := Restrict(rows, w.source.Keys);
    assert v.tasks == w.tasks[t := Changed(h, hit, InvalidateCause.Update)];
    OneTaskMore(w, v, t, r);
    assert k !in hit ==> (Current(v, r) <==> Current(w, r));
    assert k in hit ==> v.source[k] == rows[k];
  }

  /** A running write more dooms what it dooms itself. */
  lemma OneTaskMore(w: World, v: World, t: TaskId, r: Row)
    requires t !in w.tasks && t in v.tasks && v.tasks == w.tasks[t := v.tasks[t]]
    ensures Covered(v, r) <==> Covered(w, r) || Owes(v.tasks[t], r)
  {
    if Covered(w, r) {
      var u :| u in w.tasks && Owes(w.tasks[u], r);
      assert Owes(v.tasks[u], r);
    }
    if Covered(v, r) {
      var u :| u in v.tasks && Owes(v.tasks[u], r);
      assert u == t || Owes(w.tasks[u], r);
    }
  }

  /** A commit publishes changes that no running write of its own will invalidate: it keeps
      the cache coherent exactly when every cached row it meets is left as it is or was
      doomed already. */
  lemma CommitKeepsCoherenceIff(w: World, v: World, o: Overlay)
    requires Coherent(w) && Keyed(w.cache)
    requires v.source == Apply(w.source, o) && v.cache == w.cache && v.tasks == w.tasks
    ensures Coherent(v) <==> Spares(w, o)
  {
    forall k | k in w.cache.moka
      ensures Good(v, w.cache.moka[k]) <==> (k in o ==> o[k] == Some(w.cache.moka[k]) || Covered(w, w.cache.moka[k]))
    {
      assert Covered(v, w.cache.moka[k]) <==> Covered(w, w.cache.moka[k]);
    }
  }

  ghost predicate Spares(w: World, o: Overlay) {
    forall k :: k in o && k in w.cache.moka ==> o[k] == Some(w.cache.moka[k]) || Covered(w, w.cache.moka[k])
  }

  lemma NothingOwed(w: World)
    requires WritersDone(w)
    ensures forall r :: !Covered(w, r)
  {
  }

  lemma AgreesWhenDone(w: World, k: Key)
    requires Coherent(w) && WritersDone(w) && Keyed(w.cache) && k in w.cache.moka
    ensures k in w.source && w.source[k] == w.cache.moka[k]
  {
    NothingOwed(w);
    assert Good(w, w.cache.moka[k]);
  }

  lemma CreateOneWrites(w: World, t: TaskId, h: HandleId, row: Row)
    returns (w1: World)
    requires w.handles == map[] && t !in w.tasks && row.key !in w.source
    ensures Moves(w, Create(t, h, map[row.key := row]), w1)
    ensures w1.handles == map[] && w1.source == w.source[row.key := row] && w1.cache == w.cache
    ensures w1.tasks == w.tasks[t := Written(h, map[row.key := Fetched(row, StampOf(w1, row.key))])]
  {
    var rows: Table := map[row.key := row];
    w1 := Step(w, Create(t, h, rows));
    assert w1.source == w.source[row.key := row];
    assert Stamped(w1, rows) == map[row.key := Fetched(row, StampOf(w1, row.key))];
    var c := Commit(w, map k | k in rows :: Some(rows[k]));
    assert Stamped(c, rows) == Stamped(w1, rows);
  }

  /** The three steps of creating one row whose key the cache knows nothing of. */
  lemma CreateOne(w: World, t: TaskId, h: HandleId, row: Row)
    returns (w1: World, w2: World, w3: World)
    requires w.handles == map[] && t !in w.tasks
    requires row.key !in w.source && row.key !in w.cache.monoMap && row.key !in w.cache.moka
    ensures Moves(w, Create(t, h, map[row.key := row]), w1)
    ensures Moves(w1, CheckCache(t), w2)
    ensures Moves(w2, InsertNext(t, row.key), w3) && Timely(w2, w2.tasks[t].todo[row.key])
    ensures w3.source == w.source[row.key := row]
    ensures w3.cache == Cache(w.cache.monoMap[row.key := row.mono], w.cache.moka[row.key := row], w.cache.notices)
    ensures w3.tasks == w.tasks[t := Inserting(map[])]
  {
    w1 := CreateOneWrites(w, t, h, row);
    w2 := CheckCreated(w1, t, h, row, StampOf(w1, row.key));
    w3 := InsertCreated(w2, t, row);
  }

  lemma CheckCreated(w: World, t: TaskId, h: HandleId, row: Row, stamp: nat)
    returns (v: World)
    requires w.handles == map[] && t in w.tasks && w.tasks[t] == Written(h, map[row.key := Fetched(row, stamp)])
    ensures Moves(w, CheckCache(t), v)
    ensures v == w.(tasks := w.tasks[t := Inserting(map[row.key := Fetched(row, stamp)])], replies := v.replies)
  {
    v := Step(w, CheckCache(t));
  }

  lemma InsertCreated(w: World, t: TaskId, row: Row)
    returns (v: World)
    requires t in w.tasks && w.tasks[t].Inserting? && w.tasks[t].todo.Keys == {row.key}
    requires w.tasks[t].todo[row.key].row == row && row.key !in w.cache.monoMap && row.key !in w.cache.moka
    ensures Moves(w, InsertNext(t, row.key), v)
    ensures v.source == w.source && v.tasks == w.tasks[t := Inserting(map[])]
    ensures v.cache == Cache(w.cache.monoMap[row.key := row.mono], w.cache.moka[row.key := row], w.cache.notices)
  {
    v := Step(w, InsertNext(t, row.key));
    assert w.tasks[t].todo - {row.key} == map[];
  }

  /** Recreating a deleted key while the listener still owes the removal of an evicted
      row of that key: once the notice arrives, the cache is coherent exactly when the
      evicted row was not newer than the recreated one. */
  lemma RecreatedKeyCoherentIff(w: World, t: TaskId, h: HandleId, row: Row, i: nat)
    returns (ws: seq<World>, es: seq<Event>)
    requires Inv(w, Prompt) && WritersDone(w) && t !in w.tasks
    requires row.key !in w.source && row.key !in w.cache.monoMap
    requires i < |w.cache.notices|
    requires w.cache.notices[i].row.key == row.key && !w.cache.notices[i].cause.Explicit?
    requires w.cache.notices[i].row != row
    ensures es == [Create(t, h, map[row.key := row]), CheckCache(t), InsertNext(t, row.key), Notify(i)]
    ensures IsTrace(ws, es) && ws[0] == w && WritersDone(ws[4])
    ensures Coherent(ws[4]) <==> w.cache.notices[i].row.mono <= row.mono
  {
    if row.key in w.cache.moka {
      AgreesWhenDone(w, row.key);
      assert false;
    }
    ws, es := RecreateThenNotice(w, t, h, row, i);
  }

  lemma RecreateThenNotice(w: World, t: TaskId, h: HandleId, row: Row, i: nat)
    returns (ws: seq<World>, es: seq<Event>)
    requires w.handles == map[] && Coherent(w) && WritersDone(w) && Keyed(w.cache) && t !in w.tasks
    requires row.key !in w.source && row.key !in w.cache.monoMap && row.key !in w.cache.moka
    requires i < |w.cache.notices|
    requires w.cache.notices[i].row.key == row.key && !w.cache.notices[i].cause.Explicit?
    requires w.cache.notices[i].row != row
    ensures es == [Create(t, h, map[row.key := row]), CheckCache(t), InsertNext(t, row.key), Notify(i)]
    ensures IsTrace(ws, es) && ws[0] == w && WritersDone(ws[4])
    ensures Coherent(ws[4]) <==> w.cache.notices[i].row.mono <= row.mono
  {
    hide Moves;
    var w1, w2, w3 := CreateOne(w, t, h, row);
    var w4 := LateNotice(w, w3, t, row, i);
    es := [Create(t, h, map[row.key := row]), CheckCache(t), InsertNext(t, row.key), Notify(i)];
    ws := [w, w1, w2, w3, w4];
    TraceOfFour(w, Create(t, h, map[row.key := row]), w1, CheckCache(t), w2, InsertNext(t, row.key), w3, Notify(i), w4);
  }

  // ------------------------------------- such leftovers occur in runs

  /** A key is read into the cache. */
  lemma ReadOne(w: World, h: HandleId, t: TaskId, k: Key)
    returns (w1: World, w2: World, w3: World, w4: World)
    requires Start(w) && k in w.source
    ensures Moves(w, BeginRead(t, h, {k}), w1) && Moves(w1, LookUp(t, k), w2)
    ensures Moves(w2, Fetch(t), w3) && Moves(w3, InsertNext(t, k), w4)
    ensures w4.source == w.source && w4.handles == map[] && w4.txs == map[] && w4.tasks == map[t := Inserting(map[])]
    ensures w4.cache == Cache(map[k := w.source[k].mono], map[k := w.source[k]], [])
  {
    w1, w2 := MissOne(w, h, t, k);
    w3 := FetchOne(w2, h, t, k);
    w4 := InsertOnly(w3, t, w.source[k]);
  }

  lemma FetchOne(w: World, h: HandleId, t: TaskId, k: Key)
    returns (v: World)
    requires w.handles == map[] && w.tasks == map[t := Looking(h, {}, {k})] && k in w.source
    ensures Moves(w, Fetch(t), v)
    ensures v == w.(tasks := v.tasks, replies := v.replies)
    ensures v.tasks == map[t := Inserting(map[k := Fetched(w.source[k], StampOf(w, k))])]
  {
    v := Step(w, Fetch(t));
    assert Restrict(w.source, {k}) == map[k := w.source[k]];
    assert Stamped(w, map[k := w.source[k]]) == map[k := Fetched(w.source[k], StampOf(w, k))];
  }

  lemma InsertOnly(w: World, t: TaskId, row: Row)
    returns (v: World)
    requires t in w.tasks && w.tasks == map[t := w.tasks[t]] && w.tasks[t].Inserting?
    requires w.tasks[t].todo.Keys == {row.key} && w.tasks[t].todo[row.key].row == row && w.cache == EMPTY
    ensures Moves(w, InsertNext(t, row.key), v)
    ensures v.source == w.source && v.handles == w.handles && v.txs == w.txs && v.tasks == map[t := Inserting(map[])]
    ensures v.cache == Cache(map[row.key := row.mono], map[row.key := row], [])
  {
    v := Step(w, InsertNext(t, row.key));
    assert w.tasks[t].todo - {row.key} == map[];
  }

  lemma EvictOnly(w: World, row: Row)
    returns (v: World)
    requires w.cache == Cache(map[row.key := row.mono], map[row.key := row], [])
    ensures Moves(w, EvictEntry(row.key, Size), v)
    ensures v == w.(cache := Cache(map[row.key := row.mono], map[], [Notice(row, Size)]))
  {
    v := Step(w, EvictEntry(row.key, Size));
    assert w.cache.moka - {row.key} == map[];
  }

  /** The key is deleted and its guard removed. */
  lemma DeleteOne(w: World, h: HandleId, t: TaskId, u: TaskId, row: Row)
    returns (w1: World, w2: World, w3: World)
    requires w.handles == map[] && w.tasks == map[t := Inserting(map[])] && u != t
    requires row.key in w.source && w.source[row.key] == row
    requires w.cache == Cache(map[row.key := row.mono], map[], [Notice(row, Size)])
    ensures Moves(w, Event.Delete(u, h, {row.key}), w1) && Moves(w1, CheckCache(u), w2)
    ensures Moves(w2, InvalidateNext(u, row.key), w3)
    ensures w3.source == w.source - {row.key} && w3.handles == w.handles && w3.txs == w.txs
    ensures w3.tasks == map[t := Inserting(map[]), u := Invalidating(map[], InvalidateCause.Delete)]
    ensures w3.cache == Cache(map[], map[], [Notice(row, Size)])
  {
    hide Moves;
    w1 := DeleteWrites(w, h, u, row);
    w2 := CheckDeleted(w1, h, u, map[row.key := row]);
    w3 := InvalidateOnly(w2, u, row);
  }

  lemma CheckDeleted(w: World, h: HandleId, u: TaskId, rows: Table)
    returns (v: World)
    requires w.handles == map[] && u in w.tasks && w.tasks[u] == Changed(h, rows, InvalidateCause.Delete)
    ensures Moves(w, CheckCache(u), v)
    ensures v == w.(tasks := w.tasks[u := Invalidating(rows, InvalidateCause.Delete)])
  {
    v := Step(w, CheckCache(u));
  }

  lemma InvalidateOnly(w: World, u: TaskId, row: Row)
    returns (v: World)
    requires u in w.tasks && w.tasks[u] == Invalidating(map[row.key := row], InvalidateCause.Delete)
    requires w.cache == Cache(map[row.key := row.mono], map[], [Notice(row, Size)])
    ensures Moves(w, InvalidateNext(u, row.key), v)
    ensures v == w.(tasks := w.tasks[u := Invalidating(map[], InvalidateCause.Delete)],
                    cache := Cache(map[], map[], [Notice(row, Size)]))
  {
    v := Step(w, InvalidateNext(u, row.key));
    assert map[row.key := row] - {row.key} == map[] && w.cache.monoMap - {row.key} == map[];
  }

  lemma DeleteWrites(w: World, h: HandleId, u: TaskId, row: Row)
    returns (v: World)
    requires w.handles == map[] && u !in w.tasks && row.key in w.source && w.source[row.key] == row
    ensures Moves(w, Event.Delete(u, h, {row.key}), v)
    ensures v.source == w.source - {row.key} && v.cache == w.cache && v.handles == w.handles && v.txs == w.txs
    ensures v.tasks == w.tasks[u := Changed(h, map[row.key := row], InvalidateCause.Delete)]
  {
    v := Step(w, Event.Delete(u, h, {row.key}));
    assert Restrict(w.source, {row.key}) == map[row.key := row];
    assert v.source == w.source - {row.key};
  }

  lemma LeftoverInv(w: World, t: TaskId, u: TaskId, row: Row)
    requires KeyedTable(w.source) && w.handles == map[] && w.txs == map[]
    requires w.tasks == map[t := Inserting(map[]), u := Invalidating(map[], InvalidateCause.Delete)]
    requires w.cache == Cache(map[], map[], [Notice(row, Size)])
    ensures Inv(w, Prompt) && WritersDone(w)
  {
  }

  /** Any row can be left over: read, evicted, and deleted before the listener is called,
      it meets what `RecreatedKeyCoherentIff` asks for. */
  lemma LeftoversOccur(w: World, h: HandleId, t: TaskId, u: TaskId, k: Key)
    returns (ws: seq<World>, es: seq<Event>)
    requires Start(w) && k in w.source && u != t
    ensures es == [BeginRead(t, h, {k}), LookUp(t, k), Fetch(t), InsertNext(t, k)] + [EvictEntry(k, Size)]
                  + [Event.Delete(u, h, {k})] + [CheckCache(u)] + [InvalidateNext(u, k)]
    ensures IsTrace(ws, es) && ws[0] == w
    ensures Inv(ws[8], Prompt) && WritersDone(ws[8]) && k !in ws[8].source && k !in ws[8].cache.monoMap
    ensures ws[8].cache.notices == [Notice(w.source[k], Size)]
  {
    hide Moves, Inv, WritersDone;
    var row := w.source[k];
    var w1, w2, w3, w4 := ReadOne(w, h, t, k);
    var w5 := EvictOnly(w4, row);
    var w6, w7, w8 := DeleteOne(w5, h, t, u, row);
    TraceOfFour(w, BeginRead(t, h, {k}), w1, LookUp(t, k), w2, Fetch(t), w3, InsertNext(t, k), w4);
    var us, ds := [w, w1, w2, w3, w4], [BeginRead(t, h, {k}), LookUp(t, k), Fetch(t), InsertNext(t, k)];
    TraceSnoc(us, ds, w4, EvictEntry(k, Size), w5);
    us, ds := us + [w5], ds + [EvictEntry(k, Size)];
    TraceSnoc(us, ds, w5, Event.Delete(u, h, {k}), w6);
    us, ds := us + [w6], ds + [Event.Delete(u, h, {k})];
    TraceSnoc(us, ds, w6, CheckCache(u), w7);
    us, ds := us + [w7], ds + [CheckCache(u)];
    TraceSnoc(us, ds, w7, InvalidateNext(u, k), w8);
    ws, es := us + [w8], ds + [InvalidateNext(u, k)];
    LeftoverInv(w8, t, u, row);
  }

  lemma LateNotice(w: World, v: World, t: TaskId, row: Row, i: nat)
    returns (z: World)
    requires Coherent(w) && WritersDone(w) && Keyed(w.cache) && row.key !in w.source
    requires v.source == w.source[row.key := row]
    requires v.cache == Cache(w.cache.monoMap[row.key := row.mono], w.cache.moka[row.key := row], w.cache.notices)
    requires v.tasks == w.tasks[t := Inserting(map[])]
    requires i < |w.cache.notices|
    requires w.cache.notices[i].row.key == row.key && !w.cache.notices[i].cause.Explicit?
    requires w.cache.notices[i].row != row
    ensures Moves(v, Notify(i), z) && WritersDone(z)
    ensures Coherent(z) <==> w.cache.notices[i].row.mono <= row.mono
  {
    z := Step(v, Notify(i));
    assert z.tasks == v.tasks;
    CreatedCoherent(w, v, t, row);
    NotifyKeepsCoherenceIff(v, i);
  }

  lemma CreatedCoherent(w: World, v: World, t: TaskId, row: Row)
    requires Coherent(w) && WritersDone(w) && Keyed(w.cache) && row.key !in w.source
    requires v.source == w.source[row.key := row]
    requires v.cache.moka == w.cache.moka[row.key := row]
    requires v.tasks == w.tasks[t := Inserting(map[])]
    ensures Coherent(v)
    ensures forall r :: Good(v, r) <==> Current(v, r)
  {
    forall k | k in w.cache.moka
      ensures k in w.source && w.source[k] == w.cache.moka[k]
    {
      AgreesWhenDone(w, k);
    }
    NothingOwed(v);
    forall k | k in v.cache.moka
      ensures Good(v, v.cache.moka[k])
    {
      if k != row.key {
        assert Current(v, w.cache.moka[k]);
      }
    }
  }

  lemma UpdateUncommitted(w: World, h: HandleId, tx: TxId, t: TaskId, rows: Table)
    returns (w1: World, w2: World)
    requires ModeOf(w, h).Plain? && Unused(w, tx) && t !in w.tasks && KeyedTable(rows)
    ensures Moves(w, Begin(h, tx), w1)
    ensures Moves(w1, Event.Update(t, h, rows), w2)
    ensures w2.source == w.source && w2.cache == w.cache && w2.handles == w.handles[h := Owned(tx)] && !Lent(w2, tx)
    ensures tx in w2.txs && w2.txs[tx] == map k | k in rows && k in w.source :: Some(rows[k])
    ensures t in w2.tasks && w2.tasks[t].Changed? && w2.tasks[t].h == h && w2.tasks - {t} == w.tasks
  {
    hide Moves;
    w1 := BeginSees(w, h, tx);
    w2 := UpdateBuffered(w1, h, tx, t, rows);
    assert Lent(w2, tx) <==> Lent(w1, tx);
  }

  lemma UpdateBuffered(w: World, h: HandleId, tx: TxId, t: TaskId, rows: Table)
    returns (v: World)
    requires ModeOf(w, h) == Owned(tx) && tx in w.txs && w.txs[tx] == map[] && View(w, h) == w.source
    requires t !in w.tasks && KeyedTable(rows)
    ensures Moves(w, Event.Update(t, h, rows), v)
    ensures v.source == w.source && v.cache == w.cache && v.handles == w.handles
    ensures tx in v.txs && v.txs[tx] == map k | k in rows && k in w.source :: Some(rows[k])
    ensures t in v.tasks && v.tasks[t].Changed? && v.tasks[t].h == h && v.tasks - {t} == w.tasks
  {
    v := Step(w, Event.Update(t, h, rows));
    var hit := Restrict(rows, w.source.Keys);
    var change: Overlay := map k | k in hit :: Some(hit[k]);
    assert v.txs[tx] == map[] + change;
    assert map[] + change == map k | k in rows && k in w.source :: Some(rows[k]);
  }

  /** The four steps of updating rows inside a transaction and committing it. */
  lemma UpdateInTransaction(w: World, h: HandleId, tx: TxId, t: TaskId, rows: Table)
    returns (w1: World, w2: World, w3: World, w4: World)
    requires ModeOf(w, h).Plain? && Unused(w, tx) && t !in w.tasks && KeyedTable(rows)
    ensures Moves(w, Begin(h, tx), w1)
    ensures Moves(w1, Event.Update(t, h, rows), w2)
    ensures Moves(w2, CheckCache(t), w3)
    ensures Moves(w3, Finish(h, true), w4)
    ensures w4.source == Apply(w.source, map k | k in rows && k in w.source :: Some(rows[k]))
    ensures w4.cache == w.cache && w4.tasks == w.tasks
  {
    hide Moves;
    w1, w2 := UpdateUncommitted(w, h, tx, t, rows);
    w3 := CheckInTransaction(w2, h, t);
    assert Lent(w3, tx) <==> Lent(w2, tx);
    w4 := CommitOwned(w3, h, tx);
  }

  lemma CheckInTransaction(w: World, h: HandleId, t: TaskId)
    returns (v: World)
    requires ModeOf(w, h).Owned? && t in w.tasks && w.tasks[t].Changed? && w.tasks[t].h == h
    ensures Moves(w, CheckCache(t), v)
    ensures v == w.(tasks := w.tasks - {t})
  {
    v := Step(w, CheckCache(t));
  }

  lemma CommitOwned(w: World, h: HandleId, tx: TxId)
    returns (v: World)
    requires ModeOf(w, h) == Owned(tx) && tx in w.txs && !Lent(w, tx)
    ensures Moves(w, Finish(h, true), v)
    ensures v.source == Apply(w.source, w.txs[tx]) && v.cache == w.cache && v.tasks == w.tasks
  {
    v := Step(w, Finish(h, true));
  }

  /** A commit changes the source behind the cache's back: after an update inside a
      transaction the cache is coherent exactly when every cached row it meets is unchanged
      or doomed by another write. */
  lemma TransactionCoherentIff(w: World, h: HandleId, tx: TxId, t: TaskId, rows: Table)
    returns (ws: seq<World>, es: seq<Event>)
    requires Coherent(w) && Keyed(w.cache) && ModeOf(w, h).Plain? && Unused(w, tx)
    requires t !in w.tasks && KeyedTable(rows)
    ensures es == [Begin(h, tx), Event.Update(t, h, rows), CheckCache(t), Finish(h, true)]
    ensures IsTrace(ws, es) && ws[0] == w
    ensures Coherent(ws[4]) <==> (forall k :: k in rows && k in w.source && k in w.cache.moka ==>
      rows[k] == w.cache.moka[k] || Covered(w, w.cache.moka[k]))
  {
    hide Moves;
    var w1, w2, w3, v := UpdateInTransaction(w, h, tx, t, rows);
    ws, es := [w, w1, w2, w3, v], [Begin(h, tx), Event.Update(t, h, rows), CheckCache(t), Finish(h, true)];
    TraceOfFour(w, Begin(h, tx), w1, Event.Update(t, h, rows), w2, CheckCache(t), w3, Finish(h, true), v);
    CommitKeepsCoherenceIff(w, v, map k | k in rows && k in w.source :: Some(rows[k]));
  }
}
