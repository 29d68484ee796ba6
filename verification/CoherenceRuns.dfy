/** Exactly which runs keep the cache coherent, whatever the listener's delay, the
    versions written and the transactions the handles are in. */
module CoherenceRuns {
  import opened Rows
  import opened MonoCache
  import opened Protocol
  import opened Coherence
  import opened CoherenceLimits
  import opened Provenance

  // ------------------------------------------------ what holds in every run

  ghost predicate KeyedFlight(w: World) {
    forall t, k :: t in w.tasks && k in InFlight(w.tasks[t]) ==> InFlight(w.tasks[t])[k].row.key == k
  }

  ghost predicate Regular(w: World) {
    KeyedWorld(w) && Consistent(w.cache) && KeyedFlight(w)
  }

  lemma ViewKeyed(w: World, h: HandleId)
    requires KeyedWorld(w)
    ensures KeyedTable(View(w, h))
  {
    match TxOf(ModeOf(w, h)) {
      case Some(tx) =>
        if tx in w.txs {
          ApplyKeyed(w.source, w.txs[tx]);
        }
      case None =>
    }
  }

  lemma NewFlight(w: World, v: World, t: TaskId)
    requires KeyedFlight(w) && t in v.tasks && v.tasks == w.tasks[t := v.tasks[t]]
    requires forall k :: k in InFlight(v.tasks[t]) ==> InFlight(v.tasks[t])[k].row.key == k
    ensures KeyedFlight(v)
  {
  }

  lemma WriteFlight(w: World, e: Event)
    requires KeyedFlight(w) && Enabled(w, e) && (e.Create? || e.Update? || e.Delete?)
    ensures KeyedFlight(Step(w, e))
  {
    NewFlight(w, Step(w, e), e.t);
  }

  lemma FetchFlight(w: World, t: TaskId)
    requires Regular(w) && Enabled(w, Fetch(t))
    ensures KeyedFlight(Step(w, Fetch(t)))
  {
    ViewKeyed(w, w.tasks[t].h);
    NewFlight(w, Step(w, Fetch(t)), t);
  }

  lemma QueryFlight(w: World, t: TaskId, keys: set<Key>)
    requires Regular(w) && Enabled(w, BatchQuery(t, keys))
    ensures KeyedFlight(Step(w, BatchQuery(t, keys)))
  {
    NewFlight(w, Step(w, BatchQuery(t, keys)), t);
  }

  lemma CheckFlight(w: World, t: TaskId)
    requires KeyedFlight(w) && Enabled(w, CheckCache(t))
    ensures KeyedFlight(Step(w, CheckCache(t)))
  {
    var v := Step(w, CheckCache(t));
    forall u, k | u in v.tasks && k in InFlight(v.tasks[u])
      ensures InFlight(v.tasks[u])[k].row.key == k
    {
      assert u in w.tasks && k in InFlight(w.tasks[u]) && InFlight(v.tasks[u])[k] == InFlight(w.tasks[u])[k];
    }
  }

  lemma InsertFlight(w: World, t: TaskId, k: Key)
    requires KeyedFlight(w) && Enabled(w, InsertNext(t, k))
    ensures KeyedFlight(Step(w, InsertNext(t, k)))
  {
    var v := Step(w, InsertNext(t, k));
    assert forall j :: j in InFlight(v.tasks[t]) ==> j in InFlight(w.tasks[t]);
    NewFlight(w, v, t);
  }

  lemma OtherFlight(w: World, e: Event)
    requires KeyedFlight(w) && Enabled(w, e)
    requires e.BeginRead? || e.LookUp? || e.InvalidateNext?
    ensures KeyedFlight(Step(w, e))
  {
    NewFlight(w, Step(w, e), e.t);
  }

  lemma SameFlight(w: World, e: Event)
    requires KeyedFlight(w) && Enabled(w, e)
    requires e.EvictEntry? || e.Notify? || e.Begin? || e.Finish? || e.Borrow? || e.OuterFinish?
    ensures KeyedFlight(Step(w, e))
  {
    assert Step(w, e).tasks == w.tasks;
  }

  lemma StepFlight(w: World, e: Event)
    requires Regular(w) && Enabled(w, e)
    ensures KeyedFlight(Step(w, e))
  {
    hide Step, Enabled, KeyedFlight;
    match e {
      case Create(_, _, _) => WriteFlight(w, e);
      case Update(_, _, _) => WriteFlight(w, e);
      case Delete(_, _, _) => WriteFlight(w, e);
      case Fetch(t) => FetchFlight(w, t);
      case BatchQuery(t, keys) => QueryFlight(w, t, keys);
      case CheckCache(t) => CheckFlight(w, t);
      case InsertNext(t, k) => InsertFlight(w, t, k);
      case BeginRead(_, _, _) => OtherFlight(w, e);
      case LookUp(_, _) => OtherFlight(w, e);
      case InvalidateNext(_, _) => OtherFlight(w, e);
      case _ => SameFlight(w, e);
    }
  }

  /** What a step does to the cache. */
  lemma StepCache(w: World, e: Event)
    requires Consistent(w.cache) && Enabled(w, e)
    ensures Consistent(Step(w, e).cache)
  {
    match e {
      case InsertNext(t, k) => StepConsistent(w.cache, Inserted(w.tasks[t].todo[k].row));
      case InvalidateNext(t, k) => StepConsistent(w.cache, Invalidated(k, w.tasks[t].rows[k].mono, w.tasks[t].cause));
      case EvictEntry(k, cause) => StepConsistent(w.cache, Evicted(k, cause));
      case Notify(i) => StepConsistent(w.cache, Delivered(i));
      case _ => assert Step(w, e).cache == w.cache;
    }
  }

  lemma StepRegular(w: World, e: Event)
    requires Regular(w) && Enabled(w, e)
    ensures Regular(Step(w, e))
  {
    hide Step, Enabled, Consistent, KeyedFlight, KeyedWorld;
    StepKeyed(w, e);
    StepCache(w, e);
    StepFlight(w, e);
  }

  lemma StartRegular(w: World)
    requires Start(w)
    ensures Regular(w) && Coherent(w)
  {
  }

  lemma TraceRegular(ws: seq<World>, es: seq<Event>, n: nat)
    requires IsTrace(ws, es) && Start(ws[0]) && n < |ws|
    ensures Regular(ws[n])
  {
    forall w, e, v | Moves(w, e, v) && Regular(w)
      ensures Regular(v)
    {
      hide Step, Regular;
      StepRegular(w, e);
    }
    StartRegular(ws[0]);
    Along(Moves, w => Regular(w), ws, es, n);
  }

  // ----------------------------------------------- when a step is harmless

  /** Without the running write `t`, the row is the source's or still doomed. */
  ghost predicate GoodWithout(w: World, t: TaskId, r: Row) {
    Current(w, r) || exists u :: u in w.tasks && u != t && Owes(w.tasks[u], r)
  }

  /** The steps that can leave a stale row in the cache, and when they do not: an update
      behind a plain handle; a write whose handle is in a transaction when it checks the
      cache, which drops its invalidation; a row reaching the cache; a repair by the
      listener; and a commit. */
  ghost predicate Harmless(w: World, e: Event)
    requires Enabled(w, e)
  {
    match e
    case Update(_, h, rows) => ModeOf(w, h).Plain? ==> Supersedes(w, rows)
    case CheckCache(t) =>
      !ModeOf(w, w.tasks[t].h).Plain? ==>
        forall k :: k in w.cache.moka && Owes(w.tasks[t], w.cache.moka[k]) ==> GoodWithout(w, t, w.cache.moka[k])
    case InsertNext(t, k) =>
      var row := w.tasks[t].todo[k].row;
      Good(w, row) || (k in w.cache.monoMap && row.mono <= w.cache.monoMap[k])
    case Notify(i) => Hot(w.cache.monoMap, w.cache.notices[i]) ==> Good(w, w.cache.notices[i].row)
    case Finish(h, ok) => ok ==> Spares(w, w.txs[ModeOf(w, h).tx])
    case OuterFinish(tx, ok) => ok ==> Spares(w, w.txs[tx])
    case _ => true
  }

  lemma CommitStepIff(w: World, e: Event)
    requires Regular(w) && Coherent(w) && Enabled(w, e) && (e.Finish? || e.OuterFinish?)
    ensures Coherent(Step(w, e)) <==> Harmless(w, e)
  {
    var v := Step(w, e);
    if e.ok {
      CommitKeepsCoherenceIff(w, v, w.txs[if e.Finish? then ModeOf(w, e.h).tx else e.tx]);
    } else {
      SameTasksSameGood(w, v);
    }
  }

  lemma BypassIff(w: World, t: TaskId)
    requires Coherent(w) && Enabled(w, CheckCache(t)) && !ModeOf(w, w.tasks[t].h).Plain?
    ensures Coherent(Step(w, CheckCache(t))) <==> Harmless(w, CheckCache(t))
  {
    var v := Step(w, CheckCache(t));
    forall r
      ensures Good(v, r) <==> GoodWithout(w, t, r)
    {
      if u :| u in w.tasks && u != t && Owes(w.tasks[u], r) {
        assert Owes(v.tasks[u], r);
      }
      if u :| u in v.tasks && Owes(v.tasks[u], r) {
        assert u in w.tasks && u != t && Owes(w.tasks[u], r);
      }
    }
    forall k | k in w.cache.moka && !Owes(w.tasks[t], w.cache.moka[k])
      ensures GoodWithout(w, t, w.cache.moka[k])
    {
      assert Good(w, w.cache.moka[k]);
    }
  }

  lemma CheckPlain(w: World, t: TaskId)
    requires Coherent(w) && Enabled(w, CheckCache(t)) && ModeOf(w, w.tasks[t].h).Plain?
    ensures Coherent(Step(w, CheckCache(t)))
  {
    var v := Step(w, CheckCache(t));
    forall r | Good(w, r)
      ensures Good(v, r)
    {
      GoodKept(w, v, r);
    }
  }

  lemma WriteBuffered(w: World, e: Event)
    requires Coherent(w) && Enabled(w, e) && (e.Create? || e.Update? || e.Delete?) && !ModeOf(w, e.h).Plain?
    ensures Coherent(Step(w, e))
  {
    var v := Step(w, e);
    forall r | Good(w, r)
      ensures Good(v, r)
    {
      GoodKept(w, v, r);
    }
  }

  lemma CreatePlain(w: World, t: TaskId, h: HandleId, rows: Table)
    requires Coherent(w) && Enabled(w, Create(t, h, rows)) && ModeOf(w, h).Plain?
    ensures Coherent(Step(w, Create(t, h, rows)))
  {
    var v := Step(w, Create(t, h, rows));
    forall r | Good(w, r)
      ensures Good(v, r)
    {
      GoodKept(w, v, r);
    }
  }

  lemma DeletePlain(w: World, t: TaskId, h: HandleId, keys: set<Key>)
    requires Coherent(w) && Enabled(w, Event.Delete(t, h, keys)) && ModeOf(w, h).Plain?
    ensures Coherent(Step(w, Event.Delete(t, h, keys)))
  {
    var v := Step(w, Event.Delete(t, h, keys));
    forall r | Good(w, r)
      ensures Good(v, r)
    {
      if Current(w, r) && r.key in keys {
        assert Owes(v.tasks[t], r);
      }
      GoodKept(w, v, r);
    }
  }

  /** An invalidation removes every cached row that only it still dooms. */
  lemma InvalidateKeeps(w: World, t: TaskId, k: Key)
    requires Coherent(w) && Consistent(w.cache) && Enabled(w, InvalidateNext(t, k))
    ensures Coherent(Step(w, InvalidateNext(t, k)))
  {
    var v := Step(w, InvalidateNext(t, k));
    forall j | j in v.cache.moka
      ensures Good(v, v.cache.moka[j])
    {
      var r := v.cache.moka[j];
      assert j in w.cache.moka && w.cache.moka[j] == r && r.key == j;
      assert Good(w, r);
      assert j == k ==> !Owes(w.tasks[t], r);
      GoodKept(w, v, r);
    }
  }

  lemma NoWriteKeeps(w: World, e: Event)
    requires Coherent(w) && Enabled(w, e)
    requires e.BeginRead? || e.LookUp? || e.Fetch? || e.BatchQuery? || e.Begin? || e.Borrow? || e.EvictEntry?
    ensures Coherent(Step(w, e))
  {
    var v := Step(w, e);
    forall r | Good(w, r)
      ensures Good(v, r)
    {
      GoodKept(w, v, r);
    }
  }

  lemma WriteStepIff(w: World, e: Event)
    requires Regular(w) && Coherent(w) && Enabled(w, e) && (e.Create? || e.Update? || e.Delete?)
    ensures Coherent(Step(w, e)) <==> Harmless(w, e)
  {
    hide Step, Coherent, Supersedes;
    if !ModeOf(w, e.h).Plain? {
      WriteBuffered(w, e);
    } else {
      match e {
        case Create(t, h, rows) => CreatePlain(w, t, h, rows);
        case Update(t, h, rows) => UpdateKeepsCoherenceIff(w, t, h, rows);
        case Delete(t, h, keys) => DeletePlain(w, t, h, keys);
      }
    }
  }

  /** Every step from a coherent world keeps coherence exactly when it is harmless. */
  lemma StepCoherentIff(w: World, e: Event)
    requires Regular(w) && Coherent(w) && Enabled(w, e)
    ensures Coherent(Step(w, e)) <==> Harmless(w, e)
  {
    hide Step, Coherent;
    match e {
      case Create(_, _, _) => WriteStepIff(w, e);
      case Update(_, _, _) => WriteStepIff(w, e);
      case Delete(_, _, _) => WriteStepIff(w, e);
      case CheckCache(t) =>
        if ModeOf(w, w.tasks[t].h).Plain? {
          CheckPlain(w, t);
        } else {
          BypassIff(w, t);
        }
      case InsertNext(t, k) =>
        assert k in InFlight(w.tasks[t]);
        InsertKeepsCoherenceIff(w, t, k);
      case InvalidateNext(t, k) => InvalidateKeeps(w, t, k);
      case Notify(i) => NotifyKeepsCoherenceIff(w, i);
      case Finish(_, _) => CommitStepIff(w, e);
      case OuterFinish(_, _) => CommitStepIff(w, e);
      case _ => NoWriteKeeps(w, e);
    }
  }

  // ------------------------------------------------------------ whole runs

  ghost predicate HarmlessAt(ws: seq<World>, es: seq<Event>, i: nat)
    requires IsTrace(ws, es) && i < |es|
  {
    Harmless(ws[i], es[i])
  }

  lemma NthCoherentIff(ws: seq<World>, es: seq<Event>, i: nat)
    requires IsTrace(ws, es) && Start(ws[0]) && i < |es| && Coherent(ws[i])
    ensures Coherent(ws[i + 1]) <==> HarmlessAt(ws, es, i)
  {
    hide Step, Coherent, Harmless;
    TraceRegular(ws, es, i);
    assert Moves(ws[i], es[i], ws[i + 1]);
    StepCoherentIff(ws[i], es[i]);
  }

  lemma {:induction false} HarmlessCoherent(ws: seq<World>, es: seq<Event>, n: nat)
    requires IsTrace(ws, es) && Start(ws[0]) && n < |ws|
    requires forall i :: 0 <= i < n ==> HarmlessAt(ws, es, i)
    ensures Coherent(ws[n])
  {
    hide Moves, Coherent, Harmless;
    if n == 0 {
      StartRegular(ws[0]);
    } else {
      HarmlessCoherent(ws, es, n - 1);
      NthCoherentIff(ws, es, n - 1);
    }
  }

  /** In every run, with updates of any version, a listener of any delay and handles in and
      out of transactions: the cache is coherent at every moment exactly when every step of
      the run is harmless. */
  lemma AlwaysCoherentIff(ws: seq<World>, es: seq<Event>)
    requires IsTrace(ws, es) && Start(ws[0])
    ensures (forall n :: 0 <= n < |ws| ==> Coherent(ws[n])) <==> (forall i :: 0 <= i < |es| ==> HarmlessAt(ws, es, i))
  {
    hide Moves, Coherent, Harmless;
    if forall n :: 0 <= n < |ws| ==> Coherent(ws[n]) {
      forall i | 0 <= i < |es| ensures HarmlessAt(ws, es, i) {
        assert Coherent(ws[i]) && Coherent(ws[i + 1]);
        NthCoherentIff(ws, es, i);
      }
    }
    if forall i :: 0 <= i < |es| ==> HarmlessAt(ws, es, i) {
      forall n | 0 <= n < |ws| ensures Coherent(ws[n]) {
        HarmlessCoherent(ws, es, n);
      }
    }
  }

  /** And wherever a coherent run has no write under way, cache and source agree. */
  lemma CoherentMeansAgrees(ws: seq<World>, es: seq<Event>, n: nat)
    requires IsTrace(ws, es) && Start(ws[0]) && n < |ws|
    requires forall i :: 0 <= i < n ==> HarmlessAt(ws, es, i)
    ensures WritersDone(ws[n]) ==> Agrees(ws[n])
  {
    hide Moves, Harmless;
    HarmlessCoherent(ws, es, n);
    TraceRegular(ws, es, n);
    if WritersDone(ws[n]) {
      forall k | k in ws[n].cache.moka ensures k in ws[n].source && ws[n].source[k] == ws[n].cache.moka[k] {
        AgreesWhenDone(ws[n], k);
      }
    }
  }

  // --------------------------------------------------- a read overtaken

  lemma UpdateOne(w: World, h: HandleId, t: TaskId, u: TaskId, row: Row)
    returns (w1: World, w2: World, w3: World)
    requires w.handles == map[] && row.key in w.source && w.cache == EMPTY && t != u
    requires t in w.tasks && w.tasks == map[t := w.tasks[t]]
    ensures Moves(w, Event.Update(u, h, map[row.key := row]), w1) && Moves(w1, CheckCache(u), w2)
    ensures Moves(w2, InvalidateNext(u, row.key), w3)
    ensures w1.cache == w2.cache == w3.cache == EMPTY && w3.source == w.source[row.key := row]
    ensures w3.tasks == map[t := w.tasks[t], u := Invalidating(map[], InvalidateCause.Update)]
  {
    hide Moves;
    w1 := UpdateWrites(w, h, u, row);
    w2 := CheckUpdated(w1, h, u, map[row.key := row]);
    w3 := InvalidateAbsent(w2, u, row);
  }

  lemma UpdateWrites(w: World, h: HandleId, u: TaskId, row: Row)
    returns (v: World)
    requires w.handles == map[] && row.key in w.source && u !in w.tasks
    ensures Moves(w, Event.Update(u, h, map[row.key := row]), v)
    ensures v.source == w.source[row.key := row] && v.cache == w.cache && v.handles == w.handles
    ensures v.tasks == w.tasks[u := Changed(h, map[row.key := row], InvalidateCause.Update)]
  {
    v := Step(w, Event.Update(u, h, map[row.key := row]));
    assert Restrict(map[row.key := row], w.source.Keys) == map[row.key := row];
    assert v.source == w.source[row.key := row];
  }

  lemma CheckUpdated(w: World, h: HandleId, u: TaskId, rows: Table)
    returns (v: World)
    requires w.handles == map[] && u in w.tasks && w.tasks[u] == Changed(h, rows, InvalidateCause.Update)
    ensures Moves(w, CheckCache(u), v)
    ensures v == w.(tasks := w.tasks[u := Invalidating(rows, InvalidateCause.Update)], replies := v.replies)
  {
    v := Step(w, CheckCache(u));
  }

  lemma InvalidateAbsent(w: World, u: TaskId, row: Row)
    returns (v: World)
    requires u in w.tasks && w.tasks[u] == Invalidating(map[row.key := row], InvalidateCause.Update) && w.cache == EMPTY
    ensures Moves(w, InvalidateNext(u, row.key), v)
    ensures v == w.(tasks := w.tasks[u := Invalidating(map[], InvalidateCause.Update)])
  {
    v := Step(w, InvalidateNext(u, row.key));
    assert map[row.key := row] - {row.key} == map[];
    assert InvalidateOne(EMPTY, row.key, row.mono, InvalidateCause.Update) == EMPTY;
  }

  lemma InsertStale(w: World, t: TaskId, u: TaskId, prior: Row, stamp: nat)
    returns (v: World)
    requires t != u && w.cache == EMPTY
    requires w.tasks == map[t := Inserting(map[prior.key := Fetched(prior, stamp)]), u := Invalidating(map[], InvalidateCause.Update)]
    ensures Moves(w, InsertNext(t, prior.key), v) && v.source == w.source && WritersDone(v)
    ensures v.cache == Cache(map[prior.key := prior.mono], map[prior.key := prior], [])
  {
    v := Step(w, InsertNext(t, prior.key));
  }

  lemma FetchAndUpdate(w: World, h: HandleId, t: TaskId, u: TaskId, row: Row)
    returns (w1: World, w2: World, w3: World, w4: World, w5: World, w6: World, w7: World)
    requires Start(w) && row.key in w.source && t != u
    ensures Moves(w, BeginRead(t, h, {row.key}), w1) && Moves(w1, LookUp(t, row.key), w2) && Moves(w2, Fetch(t), w3)
    ensures Moves(w3, Event.Update(u, h, map[row.key := row]), w4) && Moves(w4, CheckCache(u), w5)
    ensures Moves(w5, InvalidateNext(u, row.key), w6) && Moves(w6, InsertNext(t, row.key), w7)
    ensures w1.cache == w2.cache == w3.cache == w4.cache == w5.cache == w6.cache == EMPTY
    ensures w7.cache == Cache(map[row.key := w.source[row.key].mono], map[row.key := w.source[row.key]], [])
    ensures w7.source == w.source[row.key := row] && WritersDone(w7)
  {
    hide Moves, WritersDone;
    w1, w2 := MissOne(w, h, t, row.key);
    w3 := FetchOne(w2, h, t, row.key);
    w4, w5, w6 := UpdateOne(w3, h, t, u, row);
    w7 := InsertStale(w6, t, u, w.source[row.key], StampOf(w2, row.key));
  }

  /** A read that misses the cache is overtaken by an update between its source read and its
      insert. The invalidation finds nothing and leaves nothing behind, so the old row is
      cached for good, although the version was raised and no notice was ever outstanding. */
  lemma OvertakenReadIsStale(w: World, h: HandleId, t: TaskId, u: TaskId, row: Row)
    returns (ws: seq<World>, es: seq<Event>)
    requires Start(w) && row.key in w.source && w.source[row.key].mono < row.mono && t != u
    ensures es == [BeginRead(t, h, {row.key}), LookUp(t, row.key), Fetch(t), Event.Update(u, h, map[row.key := row])]
                  + [CheckCache(u)] + [InvalidateNext(u, row.key)] + [InsertNext(t, row.key)]
    ensures IsTrace(ws, es) && ws[0] == w && forall i :: 0 <= i < 8 ==> ws[i].cache.notices == []
    ensures WritersDone(ws[7]) && !Agrees(ws[7]) && !Coherent(ws[7])
  {
    hide Moves, WritersDone, Coherent;
    var k := row.key;
    var w1, w2, w3, w4, w5, w6, w7 := FetchAndUpdate(w, h, t, u, row);
    var e3 := Event.Update(u, h, map[k := row]);
    TraceOfFour(w, BeginRead(t, h, {k}), w1, LookUp(t, k), w2, Fetch(t), w3, e3, w4);
    var us, ds := [w, w1, w2, w3, w4], [BeginRead(t, h, {k}), LookUp(t, k), Fetch(t), e3];
    TraceSnoc(us, ds, w4, CheckCache(u), w5);
    us, ds := us + [w5], ds + [CheckCache(u)];
    TraceSnoc(us, ds, w5, InvalidateNext(u, k), w6);
    us, ds := us + [w6], ds + [InvalidateNext(u, k)];
    TraceSnoc(us, ds, w6, InsertNext(t, k), w7);
    ws, es := us + [w7], ds + [InsertNext(t, k)];
    assert k in w7.cache.moka && w7.cache.moka[k] != w7.source[k];
    if Coherent(w7) {
      StaleNotCoherent(w7, k);
    }
  }

  lemma StaleNotCoherent(w: World, k: Key)
    requires WritersDone(w) && Keyed(w.cache) && k in w.cache.moka && k in w.source && w.cache.moka[k] != w.source[k]
    ensures !Coherent(w)
  {
    if Coherent(w) {
      AgreesWhenDone(w, k);
    }
  }
}
