/** The two-map cache as values: the version guard `monoMap`, the rows `moka`, and
    the removal notices that moka still has to hand to the eviction listener. */
module MonoCache {
  import opened Rows

  datatype RemovalCause = Replaced | Expired | Size | Explicit

  datatype InvalidateCause = Update | Delete

  /** A removal the listener has not seen yet; the key is `row.key`. */
  datatype Notice = Notice(row: Row, cause: RemovalCause)

  datatype Cache = Cache(monoMap: map<Key, int>, moka: map<Key, Row>, notices: seq<Notice>)

  const EMPTY: Cache := Cache(map[], map[], [])

  // ---------------------------------------------------------------- moka

  function MokaInsert(c: Cache, row: Row): Cache {
    Cache(c.monoMap,
          c.moka[row.key := row],
          if row.key in c.moka then c.notices + [Notice(c.moka[row.key], Replaced)] else c.notices)
  }

  function MokaInvalidate(c: Cache, k: Key): Cache {
    if k in c.moka
    then Cache(c.monoMap, c.moka - {k}, c.notices + [Notice(c.moka[k], Explicit)])
    else c
  }

  /** moka drops an entry on its own account. */
  function Evict(c: Cache, k: Key, cause: RemovalCause): Cache
    requires k in c.moka && (cause.Expired? || cause.Size?)
  {
    Cache(c.monoMap, c.moka - {k}, c.notices + [Notice(c.moka[k], cause)])
  }

  // --------------------------------------------------- cache operations

  function InsertOne(c: Cache, row: Row): Cache {
    if row.key !in c.monoMap || c.monoMap[row.key] < row.mono
    then MokaInsert(c.(monoMap := c.monoMap[row.key := row.mono]), row)
    else c
  }

  /** Whether an invalidation at version `mono` removes an entry guarded at `cur`. */
  predicate Dooms(cause: InvalidateCause, cur: int, mono: int) {
    match cause
    case Update => cur < mono
    case Delete => cur <= mono
  }

  function InvalidateOne(c: Cache, k: Key, mono: int, cause: InvalidateCause): Cache {
    if k in c.monoMap && !Dooms(cause, c.monoMap[k], mono)
    then c
    else MokaInvalidate(c.(monoMap := c.monoMap - {k}), k)
  }

  function RemoveAt<T>(s: seq<T>, i: nat): (r: seq<T>)
    requires i < |s|
    ensures |r| == |s| - 1
    ensures forall x :: x in r ==> x in s
    ensures forall x :: x in s ==> x == s[i] || x in r
  {
    assert s == s[..i] + [s[i]] + s[i + 1..];
    s[..i] + s[i + 1..]
  }

  /** The eviction listener handles notice number `i`. */
  function Deliver(c: Cache, i: nat): Cache
    requires i < |c.notices|
  {
    var n := c.notices[i];
    var k := n.row.key;
    var rest := c.(notices := RemoveAt(c.notices, i));
    if n.cause.Explicit? || k !in c.monoMap then rest
    else if c.monoMap[k] < n.row.mono
    then MokaInsert(rest.(monoMap := rest.monoMap[k := n.row.mono]), n.row)
    else rest.(monoMap := rest.monoMap - {k})
  }

  // --------------------------------------- what each operation comes to

  /** A row is taken unless its key is guarded at its version or a later one. */
  lemma InsertOneMeans(c: Cache, row: Row)
    ensures var d := InsertOne(c, row); var k := row.key;
      if k in c.monoMap && row.mono <= c.monoMap[k] then d == c
      else
        && d.monoMap == c.monoMap[k := row.mono] && d.moka == c.moka[k := row]
        && d.notices == c.notices + if k in c.moka then [Notice(c.moka[k], Replaced)] else []
  {
    assert c.notices + [] == c.notices;
  }

  /** An invalidation leaves a key alone that is guarded at the given version (after an
      update) or above it; otherwise the key is gone from both maps. Other keys stay. */
  lemma InvalidateOneMeans(c: Cache, k: Key, mono: int, cause: InvalidateCause)
    ensures var d := InvalidateOne(c, k, mono, cause);
      if k in c.monoMap && (mono < c.monoMap[k] || (cause.Update? && mono == c.monoMap[k])) then d == c
      else
        && d.monoMap == c.monoMap - {k} && d.moka == c.moka - {k}
        && d.notices == c.notices + if k in c.moka then [Notice(c.moka[k], Explicit)] else []
  {
    assert c.notices + [] == c.notices;
    assert k !in c.moka ==> c.moka - {k} == c.moka;
  }

  lemma EvictMeans(c: Cache, k: Key, cause: RemovalCause)
    requires CacheEnabled(c, Evicted(k, cause))
    ensures var d := Evict(c, k, cause);
      d.monoMap == c.monoMap && d.moka == c.moka - {k} && d.notices == c.notices + [Notice(c.moka[k], cause)]
  {
  }

  /** The listener leaves both maps alone after an explicit removal and where the key is not
      guarded; it puts a row back that is newer than its guard, and drops any other guard. */
  lemma DeliverMeans(c: Cache, i: nat)
    requires i < |c.notices|
    ensures var d := Deliver(c, i); var n := c.notices[i]; var k := n.row.key;
      var rest := c.notices[..i] + c.notices[i + 1..];
      if n.cause == Explicit || k !in c.monoMap then d == Cache(c.monoMap, c.moka, rest)
      else if n.row.mono <= c.monoMap[k] then d == Cache(c.monoMap - {k}, c.moka, rest)
      else
        && d.monoMap == c.monoMap[k := n.row.mono] && d.moka == c.moka[k := n.row]
        && d.notices == rest + if k in c.moka then [Notice(c.moka[k], Replaced)] else []
  {
    var rest := c.notices[..i] + c.notices[i + 1..];
    assert rest + [] == rest;
  }

  // -------------------------------------------------- listener consistency

  /** Rows sit under their own key. */
  ghost predicate Keyed(c: Cache) {
    forall k :: k in c.moka ==> c.moka[k].key == k
  }

  /** A key in both maps carries one version. */
  ghost predicate VersionsMatch(c: Cache) {
    forall k :: k in c.monoMap && k in c.moka ==> c.monoMap[k] == c.moka[k].mono
  }

  ghost predicate Outstanding(c: Cache, k: Key) {
    exists n :: n in c.notices && n.row.key == k && !n.cause.Explicit?
  }

  /** A guard without a row is only ever waiting for the listener. */
  ghost predicate OrphansAwaited(c: Cache) {
    forall k :: k in c.monoMap && k !in c.moka ==> Outstanding(c, k)
  }

  ghost predicate Consistent(c: Cache) {
    Keyed(c) && VersionsMatch(c) && OrphansAwaited(c)
  }

  datatype CacheEvent =
    | Inserted(row: Row)
    | Invalidated(key: Key, mono: int, icause: InvalidateCause)
    | Evicted(key: Key, rcause: RemovalCause)
    | Delivered(index: nat)

  predicate CacheEnabled(c: Cache, e: CacheEvent) {
    match e
    case Evicted(k, cause) => k in c.moka && (cause.Expired? || cause.Size?)
    case Delivered(i) => i < |c.notices|
    case _ => true
  }

  function CacheStep(c: Cache, e: CacheEvent): Cache
    requires CacheEnabled(c, e)
  {
    match e
    case Inserted(row) => InsertOne(c, row)
    case Invalidated(k, mono, cause) => InvalidateOne(c, k, mono, cause)
    case Evicted(k, cause) => Evict(c, k, cause)
    case Delivered(i) => Deliver(c, i)
  }

  predicate IsCacheRun(c: Cache, es: seq<CacheEvent>)
    decreases |es|
  {
    es == [] || (CacheEnabled(c, es[0]) && IsCacheRun(CacheStep(c, es[0]), es[1..]))
  }

  function CacheRun(c: Cache, es: seq<CacheEvent>): Cache
    requires IsCacheRun(c, es)
    decreases |es|
  {
    if es == [] then c else CacheRun(CacheStep(c, es[0]), es[1..])
  }

  /** Adding notices keeps the ones already outstanding. */
  lemma OutstandingGrows(c: Cache, d: Cache, k: Key)
    requires Outstanding(c, k)
    requires forall n :: n in c.notices ==> n in d.notices
    ensures Outstanding(d, k)
  {
  }

  lemma StepConsistent(c: Cache, e: CacheEvent)
    requires Consistent(c) && CacheEnabled(c, e)
    ensures Consistent(CacheStep(c, e))
  {
    var d := CacheStep(c, e);
    forall k | k in d.monoMap && k !in d.moka
      ensures Outstanding(d, k)
    {
      match e {
        case Evicted(j, cause) =>
          if j == k {
            assert Notice(c.moka[k], cause) in d.notices;
          } else {
            OutstandingGrows(c, d, k);
          }
        case Delivered(i) =>
          var n := c.notices[i];
          assert n.cause.Explicit? || n.row.key != k;
          var m :| m in c.notices && m.row.key == k && !m.cause.Explicit?;
          assert m in RemoveAt(c.notices, i);
          assert m in d.notices;
        case _ =>
          OutstandingGrows(c, d, k);
      }
    }
  }

  /** Every interleaving of inserts, invalidations, evictions and late listener
      deliveries keeps the two maps consistent. */
  lemma {:induction false} ListenerConsistency(c: Cache, es: seq<CacheEvent>)
    requires Consistent(c) && IsCacheRun(c, es)
    ensures Consistent(CacheRun(c, es))
    decreases |es|
  {
    if es != [] {
      StepConsistent(c, es[0]);
      ListenerConsistency(CacheStep(c, es[0]), es[1..]);
    }
  }

  /** Every row in the cache or in a removal still to be reported. */
  function CachedRows(c: Cache): set<Row> {
    c.moka.Values + set n | n in c.notices :: n.row
  }

  /** Cache operations hold on to old rows or take the row offered, nothing else. */
  lemma CacheInventsNothing(c: Cache, e: CacheEvent)
    requires CacheEnabled(c, e)
    ensures CachedRows(CacheStep(c, e)) <= CachedRows(c) + (if e.Inserted? then {e.row} else {})
  {
    var d := CacheStep(c, e);
    forall r | r in CachedRows(d)
      ensures r in CachedRows(c) || (e.Inserted? && r == e.row)
    {
      if r in d.moka.Values {
        var k :| k in d.moka && d.moka[k] == r;
        if e.Delivered? && !(k in c.moka && c.moka[k] == r) {
          assert c.notices[e.index] in c.notices;
        }
      } else {
        var n :| n in d.notices && n.row == r;
        if n !in c.notices {
          assert n.row in c.moka.Values;
        }
      }
    }
  }

  // --------------------------------------------------------- draining

  /** A notice whose row is newer than the guard: delivering it repairs the cache. */
  predicate Hot(g: map<Key, int>, n: Notice) {
    !n.cause.Explicit? && n.row.key in g && g[n.row.key] < n.row.mono
  }

  function HotCount(g: map<Key, int>, ns: seq<Notice>): (r: nat)
    ensures r <= |ns|
  {
    if ns == [] then 0 else (if Hot(g, ns[0]) then 1 else 0) + HotCount(g, ns[1..])
  }

  /** What is left for the listener to do, at most. */
  function Backlog(c: Cache): nat {
    |c.notices| + HotCount(c.monoMap, c.notices)
  }

  lemma {:induction false} HotCountConcat(g: map<Key, int>, a: seq<Notice>, b: seq<Notice>)
    ensures HotCount(g, a + b) == HotCount(g, a) + HotCount(g, b)
  {
    if a == [] {
      assert a + b == b;
    } else {
      assert (a + b)[1..] == a[1..] + b;
      HotCountConcat(g, a[1..], b);
    }
  }

  lemma {:induction false} HotCountShrinks(g: map<Key, int>, h: map<Key, int>, ns: seq<Notice>)
    requires forall n :: n in ns && Hot(h, n) ==> Hot(g, n)
    ensures HotCount(h, ns) <= HotCount(g, ns)
  {
    if ns != [] {
      assert ns[0] in ns;
      assert forall n :: n in ns[1..] ==> n in ns;
      HotCountShrinks(g, h, ns[1..]);
    }
  }

  lemma HotCountRemove(g: map<Key, int>, ns: seq<Notice>, i: nat)
    requires i < |ns|
    ensures HotCount(g, ns) == HotCount(g, RemoveAt(ns, i)) + (if Hot(g, ns[i]) then 1 else 0)
  {
    assert ns == (ns[..i] + [ns[i]]) + ns[i + 1..];
    HotCountConcat(g, ns[..i] + [ns[i]], ns[i + 1..]);
    HotCountConcat(g, ns[..i], [ns[i]]);
    HotCountConcat(g, ns[..i], ns[i + 1..]);
  }

  /** A repair puts one notice back, but always a colder one. */
  lemma DeliverShrinksBacklog(c: Cache, i: nat)
    requires Consistent(c) && i < |c.notices|
    ensures Backlog(Deliver(c, i)) < Backlog(c)
  {
    var n := c.notices[i];
    var k := n.row.key;
    var rest := RemoveAt(c.notices, i);
    var d := Deliver(c, i);
    HotCountRemove(c.monoMap, c.notices, i);
    HotCountShrinks(c.monoMap, d.monoMap, rest);
    if Hot(c.monoMap, n) && k in c.moka {
      var back := Notice(c.moka[k], Replaced);
      assert d.notices == rest + [back];
      HotCountConcat(d.monoMap, rest, [back]);
      assert !Hot(d.monoMap, back);
    } else {
      assert d.notices == rest;
    }
  }

  ghost predicate OnlyDeliveries(es: seq<CacheEvent>) {
    forall e :: e in es ==> e.Delivered?
  }

  /** However the listener orders its work, the cascade of notices ends after at
      most two deliveries per notice outstanding at the start. */
  lemma {:induction false} CascadeEnds(c: Cache, es: seq<CacheEvent>)
    requires Consistent(c) && IsCacheRun(c, es) && OnlyDeliveries(es)
    ensures |es| + Backlog(CacheRun(c, es)) <= Backlog(c) <= 2 * |c.notices|
    decreases |es|
  {
    if es != [] {
      assert es[0].Delivered?;
      DeliverShrinksBacklog(c, es[0].index);
      StepConsistent(c, es[0]);
      CascadeEnds(CacheStep(c, es[0]), es[1..]);
    }
  }

  /** With nothing outstanding, every guard stands for a cached row of its version. */
  lemma DrainedMapsMatch(c: Cache)
    requires Consistent(c) && c.notices == []
    ensures forall k :: k in c.monoMap ==> k in c.moka && c.monoMap[k] == c.moka[k].mono
  {
    forall k | k in c.monoMap
      ensures k in c.moka
    {
      if k !in c.moka {
        assert false;
      }
    }
  }

  /** The listener works through its queue until it is empty. */
  function Settle(c: Cache): (d: Cache)
    requires Consistent(c)
    ensures Consistent(d) && d.notices == []
    decreases Backlog(c)
  {
    if c.notices == [] then c
    else
      DeliverShrinksBacklog(c, 0);
      StepConsistent(c, Delivered(0));
      Settle(Deliver(c, 0))
  }

  // ------------------------------------------------ newest version wins

  /** The cache together with, for each key it holds, every version offered to it
      since that key was last absent. */
  datatype Observed = Observed(cache: Cache, offered: map<Key, set<int>>)

  function OfferedAt(o: Observed, k: Key): set<int> {
    if k in o.offered then o.offered[k] else {}
  }

  /** One cache operation whose notices the listener handles before the next one. */
  function SettledStep(o: Observed, e: CacheEvent): Observed
    requires Consistent(o.cache) && CacheEnabled(o.cache, e)
  {
    StepConsistent(o.cache, e);
    var d := Settle(CacheStep(o.cache, e));
    var seen := if e.Inserted? then o.offered[e.row.key := OfferedAt(o, e.row.key) + {e.row.mono}] else o.offered;
    Observed(d, map k | k in d.moka && k in seen :: seen[k])
  }

  /** Every cached row has the greatest version offered since its key was last absent. */
  ghost predicate NewestCached(o: Observed) {
    && Consistent(o.cache)
    && o.offered.Keys == o.cache.moka.Keys
    && forall k :: k in o.cache.moka ==>
      && o.cache.moka[k].mono in o.offered[k]
      && forall m :: m in o.offered[k] ==> m <= o.cache.moka[k].mono
  }

  /** And nothing is outstanding. */
  ghost predicate NewestHeld(o: Observed) {
    NewestCached(o) && o.cache.notices == []
  }

  predicate IsSettledRun(o: Observed, es: seq<CacheEvent>)
    requires Consistent(o.cache)
    decreases |es|
  {
    es == [] || (CacheEnabled(o.cache, es[0]) && IsSettledRun(SettledStep(o, es[0]), es[1..]))
  }

  function SettledRun(o: Observed, es: seq<CacheEvent>): Observed
    requires Consistent(o.cache) && IsSettledRun(o, es)
    decreases |es|
  {
    if es == [] then o else SettledRun(SettledStep(o, es[0]), es[1..])
  }

  /** What one insert comes to once the listener is done: the row is taken unless a
      newer one is held, with or without the guard. */
  lemma SettledInsert(c: Cache, row: Row)
    requires Consistent(c) && c.notices == []
    ensures Consistent(InsertOne(c, row))
    ensures var d := Settle(InsertOne(c, row));
      && d.moka.Keys == c.moka.Keys + {row.key}
      && (forall k :: k in c.moka && k != row.key ==> d.moka[k] == c.moka[k])
      && (d.moka[row.key] == row || (row.key in c.moka && d.moka[row.key] == c.moka[row.key]))
      && row.mono <= d.moka[row.key].mono
      && (row.key in c.moka ==> c.moka[row.key].mono <= d.moka[row.key].mono)
  {
    StepConsistent(c, Inserted(row));
    DrainedMapsMatch(c);
    var c1 := InsertOne(c, row);
    if row.key in c.moka && c1 != c {
      assert c1.notices == [Notice(c.moka[row.key], Replaced)];
      var c2 := Deliver(c1, 0);
      if c.moka[row.key].mono > row.mono {
        // the guard had been dropped: the listener puts the newer row back
        assert c2.notices == [Notice(row, Replaced)];
        var c3 := Deliver(c2, 0);
        assert c3.notices == [] && c3.moka == c2.moka;
        assert Settle(c1) == Settle(c2) == Settle(c3);
      } else {
        assert c2.notices == [] && c2.moka == c1.moka;
        assert Settle(c1) == c2;
      }
    }
  }

  /** An eviction or an invalidation only ever shrinks the settled cache. */
  lemma SettledRemoval(c: Cache, e: CacheEvent)
    requires Consistent(c) && c.notices == [] && CacheEnabled(c, e) && !e.Inserted?
    ensures Consistent(CacheStep(c, e))
    ensures var d := Settle(CacheStep(c, e));
      forall k :: k in d.moka ==> k in c.moka && d.moka[k] == c.moka[k]
  {
    StepConsistent(c, e);
    var c1 := CacheStep(c, e);
    if c1.notices != [] {
      var c2 := Deliver(c1, 0);
      assert c2.notices == [];
      assert Settle(c1) == c2;
    }
  }

  lemma SettledStepKeepsNewest(o: Observed, e: CacheEvent)
    requires NewestHeld(o) && CacheEnabled(o.cache, e)
    ensures NewestHeld(SettledStep(o, e))
  {
    if e.Inserted? {
      SettledInsert(o.cache, e.row);
    } else {
      SettledRemoval(o.cache, e);
    }
  }

  /** When each step's notices are delivered before the next step, the cache always
      holds the newest version offered, although a `Replaced` notice drops the guard. */
  lemma {:induction false} NewestVersionHeld(o: Observed, es: seq<CacheEvent>)
    requires NewestHeld(o) && IsSettledRun(o, es)
    ensures NewestHeld(SettledRun(o, es))
    decreases |es|
  {
    if es != [] {
      SettledStepKeepsNewest(o, es[0]);
      NewestVersionHeld(SettledStep(o, es[0]), es[1..]);
    }
  }

  // ----------------------------------------- newest version, late listener

  /** One cache operation, its notices left for later. A row that the listener puts back
      counts as offered. */
  function LateStep(o: Observed, e: CacheEvent): Observed
    requires CacheEnabled(o.cache, e)
  {
    var d := CacheStep(o.cache, e);
    var offer := Offer(o.cache, e);
    var seen := match offer
      case Some(row) => o.offered[row.key := OfferedAt(o, row.key) + {row.mono}]
      case None => o.offered;
    Observed(d, map k | k in d.moka && k in seen :: seen[k])
  }

  /** The row a step offers to the cache. */
  function Offer(c: Cache, e: CacheEvent): Option<Row>
    requires CacheEnabled(c, e)
  {
    match e
    case Inserted(row) => Some(row)
    case Delivered(i) => if Hot(c.monoMap, c.notices[i]) then Some(c.notices[i].row) else None
    case _ => None
  }

  /** The guard has the key, or the row is not older than the one it replaces. */
  predicate Guarded(c: Cache, e: CacheEvent) {
    e.Inserted? && e.row.key in c.moka && e.row.key !in c.monoMap ==> c.moka[e.row.key].mono <= e.row.mono
  }

  /** An insert keeps the newest version exactly when it does not put an older row in
      place of a row that a notice has left without its guard. */
  lemma InsertKeepsNewestIff(o: Observed, row: Row)
    requires NewestCached(o)
    ensures NewestCached(LateStep(o, Inserted(row))) <==>
      row.key !in o.cache.moka || row.key in o.cache.monoMap || o.cache.moka[row.key].mono <= row.mono
  {
    StepConsistent(o.cache, Inserted(row));
    var p := LateStep(o, Inserted(row));
    var k := row.key;
    if k in o.cache.moka && k !in o.cache.monoMap && row.mono < o.cache.moka[k].mono {
      assert p.cache.moka[k] == row && o.cache.moka[k].mono in p.offered[k];
    }
  }

  /** Evictions, invalidations and late deliveries always keep it. */
  lemma OthersKeepNewest(o: Observed, e: CacheEvent)
    requires NewestCached(o) && CacheEnabled(o.cache, e) && !e.Inserted?
    ensures NewestCached(LateStep(o, e))
  {
    StepConsistent(o.cache, e);
  }

  predicate IsLateRun(o: Observed, es: seq<CacheEvent>)
    decreases |es|
  {
    es == [] || (CacheEnabled(o.cache, es[0]) && IsLateRun(LateStep(o, es[0]), es[1..]))
  }

  /** At every moment of the run. */
  ghost predicate AlwaysNewest(o: Observed, es: seq<CacheEvent>)
    requires IsLateRun(o, es)
    decreases |es|
  {
    NewestCached(o) && (es != [] ==> AlwaysNewest(LateStep(o, es[0]), es[1..]))
  }

  predicate AlwaysGuarded(o: Observed, es: seq<CacheEvent>)
    requires IsLateRun(o, es)
    decreases |es|
  {
    es != [] ==> Guarded(o.cache, es[0]) && AlwaysGuarded(LateStep(o, es[0]), es[1..])
  }

  /** However late and in whatever order notices are delivered, the cache holds the newest
      version offered at every moment of a run exactly when no insert of the run meets an
      unguarded newer row. */
  lemma {:induction false} NewestAlwaysIff(o: Observed, es: seq<CacheEvent>)
    requires NewestCached(o) && IsLateRun(o, es)
    ensures AlwaysNewest(o, es) <==> AlwaysGuarded(o, es)
    decreases |es|
  {
    if es != [] {
      var p := LateStep(o, es[0]);
      if es[0].Inserted? {
        InsertKeepsNewestIff(o, es[0].row);
      } else {
        OthersKeepNewest(o, es[0]);
      }
      if NewestCached(p) {
        NewestAlwaysIff(p, es[1..]);
      }
    }
  }

  /** Such inserts do occur: with notices handled late, even first in first out, an offered
      version is lost for an older one for good. */
  lemma LateNoticesLoseNewest(a: Row, b: Row, newest: Row, stale: Row)
    requires a.key == b.key == newest.key == stale.key
    requires a.mono < b.mono < stale.mono < newest.mono
    ensures var es := [Inserted(a), Inserted(b), Inserted(newest), Delivered(0), Inserted(stale), Delivered(0), Delivered(0)];
      IsCacheRun(EMPTY, es) && CacheRun(EMPTY, es) == Cache(map[], map[stale.key := stale], [])
  {
    var es := [Inserted(a), Inserted(b), Inserted(newest), Delivered(0), Inserted(stale), Delivered(0), Delivered(0)];
    var k := stale.key;
    var c3 := Cache(map[k := newest.mono], map[k := newest], [Notice(a, Replaced), Notice(b, Replaced)]);
    var c6 := Cache(map[], map[k := stale], [Notice(newest, Replaced)]);
    assert InsertOne(InsertOne(InsertOne(EMPTY, a), b), newest) == c3;
    StaleWins(b, newest, stale, Notice(a, Replaced));
    RunThree(EMPTY, es);
    RunThree(c3, es[3..]);
    assert es[3..][3..] == [Delivered(0)];
    assert Deliver(c6, 0) == Cache(map[], map[k := stale], []);
    assert es[6..][1..] == [];
  }

  /** The first late notice drops the guard, the second the guard of the stale row. */
  lemma StaleWins(b: Row, newest: Row, stale: Row, first: Notice)
    requires b.key == newest.key == stale.key == first.row.key && first.cause.Replaced?
    requires first.row.mono < b.mono < stale.mono < newest.mono
    ensures var k := stale.key;
      Deliver(InsertOne(Deliver(Cache(map[k := newest.mono], map[k := newest], [first, Notice(b, Replaced)]), 0), stale), 0)
        == Cache(map[], map[k := stale], [Notice(newest, Replaced)])
  {
    var k := stale.key;
    var c3 := Cache(map[k := newest.mono], map[k := newest], [first, Notice(b, Replaced)]);
    var c4 := Cache(map[], map[k := newest], [Notice(b, Replaced)]);
    assert Deliver(c3, 0) == c4;
    assert InsertOne(c4, stale) == Cache(map[k := stale.mono], map[k := stale], [Notice(b, Replaced), Notice(newest, Replaced)]);
  }

  /** Unfolds three steps of a run. */
  lemma RunThree(c: Cache, es: seq<CacheEvent>)
    requires |es| >= 3 && CacheEnabled(c, es[0]) && CacheEnabled(CacheStep(c, es[0]), es[1])
    requires CacheEnabled(CacheStep(CacheStep(c, es[0]), es[1]), es[2])
    ensures var d := CacheStep(CacheStep(CacheStep(c, es[0]), es[1]), es[2]);
      && (IsCacheRun(c, es) <==> IsCacheRun(d, es[3..]))
      && (IsCacheRun(c, es) ==> CacheRun(c, es) == CacheRun(d, es[3..]))
  {
    var d1 := CacheStep(c, es[0]);
    var d2 := CacheStep(d1, es[1]);
    assert es[1..][1..] == es[2..] && es[2..][1..] == es[3..];
    assert IsCacheRun(c, es) <==> IsCacheRun(d1, es[1..]);
    assert IsCacheRun(d1, es[1..]) <==> IsCacheRun(d2, es[2..]);
    assert IsCacheRun(d2, es[2..]) <==> IsCacheRun(CacheStep(d2, es[2]), es[3..]);
    if IsCacheRun(c, es) {
      assert CacheRun(c, es) == CacheRun(d1, es[1..]);
      assert CacheRun(d1, es[1..]) == CacheRun(d2, es[2..]);
      assert CacheRun(d2, es[2..]) == CacheRun(CacheStep(d2, es[2]), es[3..]);
    }
  }

  // ------------------------------------- observed runs are the cache's runs

  /** Observing does not interfere: each step does to the cache what its event does, and in a
      settled run the listener's work follows. */
  lemma StepsObserved(o: Observed, e: CacheEvent)
    requires Consistent(o.cache) && CacheEnabled(o.cache, e)
    ensures LateStep(o, e).cache == CacheStep(o.cache, e)
    ensures Consistent(CacheStep(o.cache, e)) && SettledStep(o, e).cache == Settle(CacheStep(o.cache, e))
    ensures e.Inserted? ==> CacheStep(o.cache, e) == InsertOne(o.cache, e.row)
    ensures e.Invalidated? ==> CacheStep(o.cache, e) == InvalidateOne(o.cache, e.key, e.mono, e.icause)
    ensures e.Evicted? ==> e.key !in CacheStep(o.cache, e).moka
    ensures e.Delivered? ==> CacheStep(o.cache, e) == Deliver(o.cache, e.index)
  {
    StepConsistent(o.cache, e);
  }

  /** Settling is a run of listener calls that takes the notices in order. */
  lemma {:induction false} SettleIsRun(c: Cache) returns (es: seq<CacheEvent>)
    requires Consistent(c)
    ensures IsCacheRun(c, es) && CacheRun(c, es) == Settle(c)
    ensures forall e :: e in es ==> e == Delivered(0)
    decreases Backlog(c)
  {
    if c.notices == [] {
      es := [];
    } else {
      DeliverShrinksBacklog(c, 0);
      StepConsistent(c, Delivered(0));
      var rest := SettleIsRun(Deliver(c, 0));
      es := [Delivered(0)] + rest;
      assert es[1..] == rest;
    }
  }

  lemma {:induction false} LateRunsAreRuns(o: Observed, es: seq<CacheEvent>)
    ensures IsLateRun(o, es) <==> IsCacheRun(o.cache, es)
    decreases |es|
  {
    if es != [] && CacheEnabled(o.cache, es[0]) {
      LateRunsAreRuns(LateStep(o, es[0]), es[1..]);
    }
  }

  /** A settled run goes on by one event that the cache allows. */
  lemma {:induction false} SettledRunGoesOn(o: Observed, es: seq<CacheEvent>, e: CacheEvent)
    requires Consistent(o.cache) && IsSettledRun(o, es)
    ensures Consistent(SettledRun(o, es).cache)
    ensures IsSettledRun(o, es + [e]) <==> CacheEnabled(SettledRun(o, es).cache, e)
    ensures CacheEnabled(SettledRun(o, es).cache, e) ==> SettledRun(o, es + [e]) == SettledStep(SettledRun(o, es), e)
    decreases |es|
  {
    if es == [] {
      assert [] + [e] == [e] && [e][1..] == [];
    } else {
      assert (es + [e])[1..] == es[1..] + [e];
      SettledRunGoesOn(SettledStep(o, es[0]), es[1..], e);
    }
  }
}
