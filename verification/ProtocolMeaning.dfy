/** What the interleaved steps do, said through what a handle sees: in and out of
    transactions a write changes its own handle's view, and a commit makes that view the
    source. */
module ProtocolMeaning {
  import opened Rows
  import opened MonoCache
  import opened Protocol
  import opened Coherence
  import opened CoherenceLimits

  // ------------------------------------------------------------- writes

  /** Handles in other transactions see what they saw, and so does everybody else if the
      write is in a transaction; outside, what the handle sees is the source. */
  ghost predicate OnlySeenBy(w: World, v: World, h: HandleId) {
    && v.cache == w.cache && v.handles == w.handles && v.replies == w.replies
    && (if ModeOf(w, h).Plain? then v.source == View(v, h) && v.txs == w.txs
        else v.source == w.source && v.writes == w.writes)
    && forall g :: !ModeOf(w, h).Plain? && TxOf(ModeOf(w, g)) != TxOf(ModeOf(w, h)) ==> View(v, g) == View(w, g)
  }

  /** Plain writes are counted for exactly the keys they change. */
  ghost predicate Counted(w: World, v: World, keys: set<Key>) {
    forall k :: StampOf(v, k) == StampOf(w, k) + if k in keys then 1 else 0
  }

  /** A write changes its handle's view, and the committed rows only on a plain connection. */
  lemma WriteThroughSeen(w: World, h: HandleId, change: Overlay)
    requires Usable(w, h)
    ensures var v := WriteThrough(w, h, change);
      && OnlySeenBy(w, v, h) && View(v, h) == Apply(View(w, h), change) && v.tasks == w.tasks
      && (ModeOf(w, h).Plain? ==> Counted(w, v, change.Keys))
  {
    hide Apply;
    match TxOf(ModeOf(w, h)) {
      case Some(tx) => ApplyTwice(w.source, w.txs[tx], change);
      case None =>
    }
  }

  lemma ApplyTwice(t: Table, o: Overlay, p: Overlay)
    ensures Apply(t, o + p) == Apply(Apply(t, o), p)
  {
  }

  /** Running operations are not seen by any handle. */
  lemma SameSeen(w: World, u: World, v: World, h: HandleId)
    requires v == u.(tasks := v.tasks) && OnlySeenBy(w, u, h)
    ensures OnlySeenBy(w, v, h) && View(v, h) == View(u, h)
    ensures forall keys :: Counted(w, u, keys) ==> Counted(w, v, keys)
  {
    hide Apply;
    assert forall g :: View(v, g) == View(u, g);
    forall keys | Counted(w, u, keys) ensures Counted(w, v, keys) {
      assert forall k :: StampOf(v, k) == StampOf(u, k);
    }
  }

  /** After a create the handle sees its rows as well. */
  lemma CreateSeen(w: World, t: TaskId, h: HandleId, rows: Table)
    requires Enabled(w, Create(t, h, rows))
    ensures var v := Step(w, Create(t, h, rows));
      && OnlySeenBy(w, v, h) && View(v, h) == View(w, h) + rows
      && (ModeOf(w, h).Plain? ==> Counted(w, v, rows.Keys))
  {
    hide Apply, View;
    var change: Overlay := map k | k in rows :: Some(rows[k]);
    var u, v := WriteThrough(w, h, change), Step(w, Create(t, h, rows));
    assert v == u.(tasks := v.tasks);
    assert change.Keys == rows.Keys;
    SeenAfter(w, u, v, h, change);
    Adding(View(w, h), rows, change);
  }

  lemma Adding(before: Table, rows: Table, change: Overlay)
    requires change == map k | k in rows :: Some(rows[k])
    ensures Apply(before, change) == before + rows
  {
  }

  /** A step that writes and otherwise only moves operations shows the change to its handle. */
  lemma SeenAfter(w: World, u: World, v: World, h: HandleId, change: Overlay)
    requires Usable(w, h) && u == WriteThrough(w, h, change) && v == u.(tasks := v.tasks)
    ensures OnlySeenBy(w, v, h) && View(v, h) == Apply(View(w, h), change)
    ensures ModeOf(w, h).Plain? ==> Counted(w, v, change.Keys)
  {
    hide Apply, View, OnlySeenBy, Counted, WriteThrough;
    WriteThroughSeen(w, h, change);
    SameSeen(w, u, v, h);
  }

  /** The new rows are kept with the state of their keys right after the write. */
  lemma CreateKept(w: World, t: TaskId, h: HandleId, rows: Table)
    requires Enabled(w, Create(t, h, rows))
    ensures var v := Step(w, Create(t, h, rows));
      && t in v.tasks && v.tasks == w.tasks[t := v.tasks[t]]
      && v.tasks[t].Written? && v.tasks[t].h == h && v.tasks[t].created.Keys == rows.Keys
      && forall k :: k in rows ==> v.tasks[t].created[k] == Fetched(rows[k], StampOf(v, k))
  {
    hide Apply;
  }

  /** After an update the handle sees the payload's rows in place of those of their keys. */
  lemma UpdateSeen(w: World, t: TaskId, h: HandleId, rows: Table)
    requires Enabled(w, Event.Update(t, h, rows))
    ensures var v := Step(w, Event.Update(t, h, rows)); var before := View(w, h);
      && OnlySeenBy(w, v, h)
      && View(v, h) == (map k | k in before :: if k in rows then rows[k] else before[k])
      && (ModeOf(w, h).Plain? ==> Counted(w, v, rows.Keys * before.Keys))
      && v.tasks == w.tasks[t := Changed(h, map k | k in rows && k in before :: rows[k], InvalidateCause.Update)]
  {
    hide Apply, View;
    var before := View(w, h);
    var hit := Restrict(rows, before.Keys);
    var change: Overlay := map k | k in hit :: Some(hit[k]);
    var u, v := WriteThrough(w, h, change), Step(w, Event.Update(t, h, rows));
    assert hit == map k | k in rows && k in before :: rows[k];
    assert v == u.(tasks := w.tasks[t := Changed(h, hit, InvalidateCause.Update)]);
    assert change.Keys == rows.Keys * before.Keys;
    SeenAfter(w, u, v, h, change);
    Replacing(before, rows, change);
  }

  lemma Replacing(before: Table, rows: Table, change: Overlay)
    requires change == map k | k in rows && k in before :: Some(rows[k])
    ensures Apply(before, change) == map k | k in before :: if k in rows then rows[k] else before[k]
  {
  }

  /** After a delete the handle no longer sees the keys. */
  lemma DeleteSeen(w: World, t: TaskId, h: HandleId, keys: set<Key>)
    requires Enabled(w, Event.Delete(t, h, keys))
    ensures var v := Step(w, Event.Delete(t, h, keys)); var before := View(w, h);
      && OnlySeenBy(w, v, h)
      && View(v, h) == before - keys
      && (ModeOf(w, h).Plain? ==> Counted(w, v, keys * before.Keys))
      && v.tasks == w.tasks[t := Changed(h, map k | k in keys && k in before :: before[k], InvalidateCause.Delete)]
  {
    hide Apply, View;
    var before := View(w, h);
    var gone := Restrict(before, keys);
    var change: Overlay := map k | k in gone :: None;
    var u, v := WriteThrough(w, h, change), Step(w, Event.Delete(t, h, keys));
    assert gone == map k | k in keys && k in before :: before[k];
    assert v == u.(tasks := w.tasks[t := Changed(h, gone, InvalidateCause.Delete)]);
    assert change.Keys == keys * before.Keys;
    SeenAfter(w, u, v, h, change);
    Removing(before, keys, change);
  }

  lemma Removing(before: Table, keys: set<Key>, change: Overlay)
    requires change == map k | k in keys && k in before :: None
    ensures Apply(before, change) == before - keys
  {
  }

  // -------------------------------------------------- transactions' ends

  /** A commit makes what the handle saw the source; a failed end changes nothing that is
      committed. The handle is a plain connection either way. */
  lemma FinishSeen(w: World, h: HandleId, ok: bool)
    requires Enabled(w, Finish(h, ok))
    ensures var v := Step(w, Finish(h, ok));
      && v.source == (if ok then View(w, h) else w.source)
      && ModeOf(v, h).Plain? && (forall g :: g != h ==> ModeOf(v, g) == ModeOf(w, g))
      && v.cache == w.cache && v.tasks == w.tasks && v.replies == w.replies
      && (!Lent(w, ModeOf(w, h).tx) ==> v.txs == w.txs - {ModeOf(w, h).tx})
      && (Lent(w, ModeOf(w, h).tx) ==> v.txs == w.txs)
      && (ok ==> Counted(w, v, w.txs[ModeOf(w, h).tx].Keys))
  {
  }

  /** So does a commit by the lender, for every handle that borrows the transaction. */
  lemma OuterFinishSeen(w: World, tx: TxId, ok: bool, g: HandleId)
    requires Enabled(w, OuterFinish(tx, ok)) && ModeOf(w, g) == Borrowed(tx)
    ensures var v := Step(w, OuterFinish(tx, ok));
      v.source == (if ok then View(w, g) else w.source) && tx !in v.txs && !Usable(v, g)
  {
  }

  lemma BorrowSeen(w: World, h: HandleId, tx: TxId)
    requires Enabled(w, Borrow(h, tx))
    ensures var v := Step(w, Borrow(h, tx));
      View(v, h) == Apply(w.source, w.txs[tx]) && v == w.(handles := w.handles[h := Borrowed(tx)])
  {
  }

  /** Deleting keys in a transaction and committing it: the keys are gone, no invalidation
      was made, and the cache is coherent exactly when it has no undoomed row of theirs. */
  lemma TransactionDeleteCoherentIff(w: World, h: HandleId, tx: TxId, t: TaskId, keys: set<Key>)
    returns (ws: seq<World>, es: seq<Event>)
    requires Coherent(w) && Keyed(w.cache) && ModeOf(w, h).Plain? && Unused(w, tx) && t !in w.tasks
    ensures es == [Begin(h, tx), Event.Delete(t, h, keys), CheckCache(t), Finish(h, true)]
    ensures IsTrace(ws, es) && ws[0] == w
    ensures ws[4].source == w.source - keys && ws[4].cache == w.cache && ws[4].tasks == w.tasks
    ensures Coherent(ws[4]) <==> (forall k :: k in keys && k in w.source && k in w.cache.moka ==> Covered(w, w.cache.moka[k]))
  {
    hide Moves, Step, Enabled;
    var w1 := BeginSees(w, h, tx);
    var w2 := DeleteOpen(w1, h, tx, t, keys);
    var w3 := CheckInTransaction(w2, h, t);
    var w4 := CommitOpen(w3, h, tx);
    ws, es := [w, w1, w2, w3, w4], [Begin(h, tx), Event.Delete(t, h, keys), CheckCache(t), Finish(h, true)];
    TraceOfFour(w, Begin(h, tx), w1, Event.Delete(t, h, keys), w2, CheckCache(t), w3, Finish(h, true), w4);
    DroppedCoherentIff(w, w4, keys);
  }

  lemma DeleteOpen(w: World, h: HandleId, tx: TxId, t: TaskId, keys: set<Key>)
    returns (v: World)
    requires ModeOf(w, h) == Owned(tx) && tx in w.txs && View(w, h) == w.source && !Lent(w, tx) && t !in w.tasks
    ensures Moves(w, Event.Delete(t, h, keys), v)
    ensures View(v, h) == w.source - keys && v.source == w.source && v.cache == w.cache
    ensures ModeOf(v, h) == Owned(tx) && tx in v.txs && !Lent(v, tx)
    ensures t in v.tasks && v.tasks[t].Changed? && v.tasks[t].h == h && v.tasks - {t} == w.tasks
  {
    v := Step(w, Event.Delete(t, h, keys));
    DeleteSeen(w, t, h, keys);
  }

  lemma CommitOpen(w: World, h: HandleId, tx: TxId)
    returns (v: World)
    requires ModeOf(w, h) == Owned(tx) && tx in w.txs && !Lent(w, tx)
    ensures Moves(w, Finish(h, true), v)
    ensures v.source == View(w, h) && v.cache == w.cache && v.tasks == w.tasks
  {
    v := Step(w, Finish(h, true));
    FinishSeen(w, h, true);
  }

  lemma DroppedCoherentIff(w: World, v: World, keys: set<Key>)
    requires Coherent(w) && Keyed(w.cache)
    requires v.source == w.source - keys && v.cache == w.cache && v.tasks == w.tasks
    ensures Coherent(v) <==> (forall k :: k in keys && k in w.source && k in w.cache.moka ==> Covered(w, w.cache.moka[k]))
  {
    forall k | k in w.cache.moka
      ensures Covered(v, w.cache.moka[k]) <==> Covered(w, w.cache.moka[k])
      ensures k in keys && k !in w.source ==> Covered(w, w.cache.moka[k])
    {
      assert Good(w, w.cache.moka[k]);
    }
  }

  // --------------------------------------------- what operations go on with

  /** A cached row is returned; a key that is not cached is left for the source. */
  lemma LookUpGives(w: World, t: TaskId, k: Key)
    requires Enabled(w, LookUp(t, k))
    ensures var v := Step(w, LookUp(t, k)); var task := w.tasks[t];
      if k in w.cache.moka then
        w.cache.moka[k] in v.replies && v.tasks == w.tasks[t := Looking(task.h, task.keys - {k}, task.missed)]
      else v.replies == w.replies && v.tasks == w.tasks[t := Looking(task.h, task.keys - {k}, task.missed + {k})]
  {
  }

  /** The source read returns what the handle sees at the missed keys, and hands exactly
      those rows to the cache. */
  lemma FetchGives(w: World, t: TaskId)
    requires Enabled(w, Fetch(t))
    ensures var v := Step(w, Fetch(t)); var seen := View(w, w.tasks[t].h); var missed := w.tasks[t].missed;
      && (forall k :: k in missed && k in seen ==> seen[k] in v.replies)
      && GoesInto(v, t, map k | k in missed && k in seen :: seen[k])
  {
    var seen, missed := View(w, w.tasks[t].h), w.tasks[t].missed;
    var found := Restrict(seen, missed);
    forall k | k in missed && k in seen ensures seen[k] in found.Values {
      assert k in found && found[k] == seen[k];
    }
    assert found == map k | k in missed && k in seen :: seen[k];
  }

  /** And so does a query of the batcher, with the committed rows of its keys. */
  lemma QueryGives(w: World, t: TaskId, keys: set<Key>)
    requires Enabled(w, BatchQuery(t, keys))
    ensures var v := Step(w, BatchQuery(t, keys));
      && (forall k :: k in keys && k in w.source ==> w.source[k] in v.replies)
      && GoesInto(v, t, map k | k in keys && k in w.source :: w.source[k])
  {
    var found := Restrict(w.source, keys);
    forall k | k in keys && k in w.source ensures w.source[k] in found.Values {
      assert k in found && found[k] == w.source[k];
    }
    assert found == map k | k in keys && k in w.source :: w.source[k];
  }

  /** The operation will offer exactly these rows to the cache. */
  ghost predicate GoesInto(w: World, t: TaskId, rows: Table) {
    && t in w.tasks && w.tasks[t].Inserting? && w.tasks[t].todo.Keys == rows.Keys
    && forall k :: k in rows ==> w.tasks[t].todo[k].row == rows[k]
  }

  /** A write on a plain handle goes on with its rows: created ones are returned and go to
      the cache, updated ones are returned and their versions invalidated, deleted ones
      invalidated. In a transaction it ends there. */
  lemma CheckGoesOn(w: World, t: TaskId)
    requires Enabled(w, CheckCache(t))
    ensures var v := Step(w, CheckCache(t)); var task := w.tasks[t];
      if !ModeOf(w, task.h).Plain? then v.tasks == w.tasks - {t} && v.replies == w.replies
      else if task.Written? then
        v.tasks == w.tasks[t := Inserting(task.created)] && forall k :: k in task.created ==> task.created[k].row in v.replies
      else
        && v.tasks == w.tasks[t := Invalidating(task.rows, task.cause)]
        && (task.cause.Update? ==> forall k :: k in task.rows ==> task.rows[k] in v.replies)
  {
    var task := w.tasks[t];
    if task.Written? {
      assert forall k :: k in task.created ==> task.created[k].row in RowsOf(task.created);
    } else {
      assert forall k :: k in task.rows ==> task.rows[k] in task.rows.Values;
    }
  }

  /** Rows are offered to the cache one by one; each is taken unless its key is guarded at
      its version or a later one. */
  lemma InsertNextTakes(w: World, t: TaskId, k: Key)
    requires Enabled(w, InsertNext(t, k))
    ensures var v := Step(w, InsertNext(t, k)); var row := w.tasks[t].todo[k].row; var c := w.cache;
      && v.tasks == w.tasks[t := Inserting(w.tasks[t].todo - {k})] && v.source == w.source
      && (if row.key in c.monoMap && row.mono <= c.monoMap[row.key] then v.cache == c
          else v.cache.monoMap == c.monoMap[row.key := row.mono] && v.cache.moka == c.moka[row.key := row])
  {
    InsertOneMeans(w.cache, w.tasks[t].todo[k].row);
  }

  /** Versions are invalidated one by one: a key stays that is guarded at the version (after
      an update) or above it, any other is gone from both maps. */
  lemma InvalidateNextRemoves(w: World, t: TaskId, k: Key)
    requires Enabled(w, InvalidateNext(t, k))
    ensures var v := Step(w, InvalidateNext(t, k)); var task := w.tasks[t]; var c := w.cache; var mono := task.rows[k].mono;
      && v.tasks == w.tasks[t := Invalidating(task.rows - {k}, task.cause)] && v.source == w.source
      && (if k in c.monoMap && (mono < c.monoMap[k] || (task.cause.Update? && mono == c.monoMap[k])) then v.cache == c
          else v.cache.monoMap == c.monoMap - {k} && v.cache.moka == c.moka - {k})
  {
    InvalidateOneMeans(w.cache, k, w.tasks[t].rows[k].mono, w.tasks[t].cause);
  }

  /** moka may drop any entry, and any outstanding removal may be reported next. */
  lemma CacheMoves(w: World, k: Key, cause: RemovalCause, i: nat)
    ensures Enabled(w, EvictEntry(k, cause)) <==> k in w.cache.moka && (cause == Expired || cause == Size)
    ensures Enabled(w, Notify(i)) <==> i < |w.cache.notices|
    ensures k in w.cache.moka && cause == Size ==> k !in Step(w, EvictEntry(k, Size)).cache.moka
  {
  }

  // ------------------------------------------------- nothing else is asked

  /** Operations can start on any usable handle. A create needs new keys. */
  lemma OperationsStart(w: World, t: TaskId, h: HandleId, rows: Table, keys: set<Key>)
    requires t !in w.tasks && Usable(w, h) && forall k :: k in rows ==> rows[k].key == k
    ensures Enabled(w, Create(t, h, rows)) <==> forall k :: k in rows ==> k !in View(w, h)
    ensures Enabled(w, Event.Update(t, h, rows)) && Enabled(w, Event.Delete(t, h, keys))
    ensures ModeOf(w, h).Plain? ==> Enabled(w, BeginRead(t, h, keys))
    ensures Enabled(w, BatchQuery(t, keys))
  {
  }

  /** A running operation whose handle is usable can always go on, until it has nothing left
      to do. */
  lemma OperationsGoOn(w: World, t: TaskId)
    requires t in w.tasks
    ensures var task := w.tasks[t];
      && (task.Looking? ==> forall k :: k in task.keys ==> Enabled(w, LookUp(t, k)))
      && (task.Looking? && task.keys == {} && Usable(w, task.h) ==> Enabled(w, Fetch(t)))
      && (task.Inserting? ==> forall k :: k in task.todo ==> Enabled(w, InsertNext(t, k)))
      && (task.Invalidating? ==> forall k :: k in task.rows ==> Enabled(w, InvalidateNext(t, k)))
      && (task.Written? || task.Changed? ==> Enabled(w, CheckCache(t)))
  {
  }

  /** A plain handle can begin a transaction nobody has used; an owned transaction can end, by
      a commit unless another handle still uses it; a handle not in use yet can borrow any
      open transaction; and a lender can end one that no handle owns. */
  lemma TransactionsMove(w: World, h: HandleId, tx: TxId, ok: bool)
    ensures Enabled(w, Begin(h, tx)) <==>
      ModeOf(w, h) == Plain && tx !in w.txs && forall g :: ModeOf(w, g) != Owned(tx) && ModeOf(w, g) != Borrowed(tx)
    ensures ModeOf(w, h) == Owned(tx) && tx in w.txs ==>
      (Enabled(w, Finish(h, ok)) <==> (ok ==> forall g :: ModeOf(w, g) != Borrowed(tx)))
    ensures Enabled(w, Borrow(h, tx)) <==> h !in w.handles && tx in w.txs
    ensures Enabled(w, OuterFinish(tx, ok)) <==> tx in w.txs && forall g :: ModeOf(w, g) != Owned(tx)
  {
    assert forall g :: g in w.handles ==> w.handles[g] == ModeOf(w, g);
    if Lent(w, tx) {
      var g :| g in w.handles && w.handles[g] == Borrowed(tx);
      assert ModeOf(w, g) == Borrowed(tx);
    }
    if !Unused(w, tx) && tx !in w.txs {
      var g :| g in w.handles && TxOf(w.handles[g]) == Some(tx);
      assert ModeOf(w, g) == Owned(tx) || ModeOf(w, g) == Borrowed(tx);
    }
  }
}
