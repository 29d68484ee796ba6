/** What a call of `batch` returns, and how `read_inner` uses it. */
module BatchedRead {
  import opened Rows
  import opened Batcher
  import opened BatcherSafety

  // ------------------------------------------------ size and deadline

  /** At every moment the batch being gathered has at least one key and fewer than the
      soft cap, and no query ever dispatched has twice the soft cap; the keys of each
      are exactly those its requesters sent. */
  lemma BatchSizeBound(cfg: Config, ss: seq<State>, es: seq<Event>, permits: nat, n: nat)
    requires ValidConfig(cfg) && IsTrace(cfg, ss, es) && Start(ss[0], permits) && n < |ss|
    ensures ss[n].loop.batch.Some? ==>
      var b := ss[n].loop.batch.value;
      1 <= |b.keys| < cfg.softCap && b.keys == UnionOf(cfg, ss[n].calls, b.requesters)
    ensures forall q :: q in ss[n].loop.queries ==>
      1 <= |q.batch.keys| < 2 * cfg.softCap && q.batch.keys == UnionOf(cfg, ss[n].calls, q.batch.requesters)
  {
    AlwaysWellGathered(cfg, ss, es, permits, n);
  }

  ghost predicate AtMostOneLate(b: Batch, due: nat) {
    forall i, j :: 0 <= i < j < |b.admitted| ==> !(b.admitted[i] > due && b.admitted[j] > due)
  }

  /** A batch's deadline is fixed by its first requester, and at most one requester joins
      late. When the loop goes to sleep, the time left to the alarm does not underflow and
      does not exceed the limit. */
  lemma DeadlineDiscipline(cfg: Config, ss: seq<State>, es: seq<Event>, permits: nat, n: nat)
    requires ValidConfig(cfg) && IsTrace(cfg, ss, es) && Start(ss[0], permits) && n < |ss|
    ensures var l := ss[n].loop;
      l.batch.Some? ==>
        && l.batch.value.admitted != [] && l.deadline == l.batch.value.admitted[0] + cfg.timeLimit
        && AtMostOneLate(l.batch.value, l.deadline)
        && l.deadline <= ss[n].clock + cfg.timeLimit
    ensures forall q :: q in ss[n].loop.queries ==>
      q.batch.admitted != [] && q.due == q.batch.admitted[0] + cfg.timeLimit && AtMostOneLate(q.batch, q.due)
    ensures n < |es| && es[n].TestBatch? && ss[n + 1].loop.pc.Selecting? ==>
      0 <= ss[n + 1].loop.pc.alarm - ss[n].clock <= cfg.timeLimit
  {
    AlwaysWellGathered(cfg, ss, es, permits, n);
    if n < |es| && es[n].TestBatch? && ss[n + 1].loop.pc.Selecting? {
      assert ss[n + 1].loop == AtHead(ss[n].loop, ss[n].clock);
      GoesToSleep(cfg, ss[n]);
    }
  }

  lemma GoesToSleep(cfg: Config, s: State)
    requires ValidConfig(cfg) && WellGathered(cfg, s) && AtHead(s.loop, s.clock).pc.Selecting? && s.loop.pc.Head?
    ensures 0 <= AtHead(s.loop, s.clock).pc.alarm - s.clock <= cfg.timeLimit
  {
    var b := s.loop.batch.value;
    assert b.admitted[0] <= b.admitted[|b.admitted| - 1];
  }

  // ------------------------------------------------------- freshness

  /** An answer read at one moment of the call's life, covering the chunk it answers. */
  ghost predicate FreshAnswer(cfg: Config, s: State, id: Id, a: Answer)
    requires ValidConfig(cfg)
  {
    && ValidId(cfg, s.calls, id)
    && s.calls[id.call].since <= a.at < |s.log|
    && Elements(ChunkAt(cfg, s.calls, id)) <= a.asked
    && (a.rows.Some? ==> a.rows.value == ReadRows(s.log[a.at], a.asked))
  }

  ghost predicate FreshAnswers(cfg: Config, s: State)
    requires ValidConfig(cfg)
  {
    && s.log != []
    && (forall c :: 0 <= c < |s.calls| && s.calls[c].sent > 0 ==> s.calls[c].since < |s.log|)
    && (forall q, id :: q in s.loop.queries && q.stage.Replying? && id in q.stage.todo ==>
          FreshAnswer(cfg, s, id, q.stage.answer))
    && (forall id :: id in s.answers ==> FreshAnswer(cfg, s, id, s.answers[id]))
  }

  lemma {:induction false} InUnion(cfg: Config, calls: seq<Call>, ids: seq<Id>, id: Id)
    requires ValidConfig(cfg) && id in ids
    ensures Elements(ChunkAt(cfg, calls, id)) <= UnionOf(cfg, calls, ids)
  {
    if id != ids[|ids| - 1] {
      InUnion(cfg, calls, ids[..|ids| - 1], id);
    }
  }

  /** The past is never rewritten, and neither is the start of a call under way. */
  lemma FreshStable(cfg: Config, s: State, v: State)
    requires ValidConfig(cfg) && CallsGrow(s.calls, v.calls)
    requires forall c :: 0 <= c < |v.calls| ==> v.calls[c].sent <= |ChunksOf(cfg, v.calls[c])|
    requires forall c :: 0 <= c < |s.calls| && s.calls[c].sent > 0 ==> v.calls[c].since == s.calls[c].since
    requires |s.log| <= |v.log| && v.log[..|s.log|] == s.log
    ensures forall id, a :: FreshAnswer(cfg, s, id, a) ==> FreshAnswer(cfg, v, id, a)
  {
    forall id, a | FreshAnswer(cfg, s, id, a)
      ensures FreshAnswer(cfg, v, id, a)
    {
      assert v.log[..|s.log|][a.at] == s.log[a.at];
    }
  }

  lemma ReadIsFresh(cfg: Config, s: State, q: nat, ok: bool)
    requires ValidConfig(cfg) && WellGathered(cfg, s) && FreshAnswers(cfg, s) && Enabled(cfg, s, ReadSource(q, ok))
    ensures FreshAnswers(cfg, Step(cfg, s, ReadSource(q, ok)))
  {
    var v := Step(cfg, s, ReadSource(q, ok));
    var b := s.loop.queries[q].batch;
    FreshStable(cfg, s, v);
    forall id | id in b.requesters
      ensures FreshAnswer(cfg, v, id, v.loop.queries[q].stage.answer)
    {
      assert s.loop.queries[q] in s.loop.queries;
      InUnion(cfg, s.calls, b.requesters, id);
    }
    forall p, id | p in v.loop.queries && p.stage.Replying? && id in p.stage.todo
      ensures FreshAnswer(cfg, v, id, p.stage.answer)
    {
      if p != v.loop.queries[q] {
        assert p in s.loop.queries;
      }
    }
  }

  lemma ReplyIsFresh(cfg: Config, s: State, q: nat)
    requires ValidConfig(cfg) && WellGathered(cfg, s) && FreshAnswers(cfg, s) && Enabled(cfg, s, Reply(q))
    ensures FreshAnswers(cfg, Step(cfg, s, Reply(q)))
  {
    var v := Step(cfg, s, Reply(q));
    var was := s.loop.queries[q];
    assert was in s.loop.queries && was.stage.todo[0] in was.stage.todo;
    FreshStable(cfg, s, v);
    forall p, id | p in v.loop.queries && p.stage.Replying? && id in p.stage.todo
      ensures FreshAnswer(cfg, v, id, p.stage.answer)
    {
      if p !in s.loop.queries {
        assert p == v.loop.queries[q] && id in was.stage.todo;
      }
    }
  }

  /** Steps that start no reply: every query replying afterwards was replying before. */
  lemma OtherStepsFresh(cfg: Config, s: State, e: Event)
    requires ValidConfig(cfg) && WellGathered(cfg, s) && FreshAnswers(cfg, s) && Enabled(cfg, s, e)
    requires !e.ReadSource? && !e.Reply?
    requires WellGathered(cfg, Step(cfg, s, e))
    ensures FreshAnswers(cfg, Step(cfg, s, e))
  {
    OnwardShape(cfg, s, e);
    FreshStable(cfg, s, Step(cfg, s, e));
    NoNewReplies(cfg, s, e);
  }

  lemma OnwardShape(cfg: Config, s: State, e: Event)
    requires ValidConfig(cfg) && Enabled(cfg, s, e)
    requires !e.ReadSource? && !e.Reply? && s.log != []
    ensures var v := Step(cfg, s, e);
      && CallsGrow(s.calls, v.calls) && v.answers == s.answers
      && |s.log| <= |v.log| && v.log[..|s.log|] == s.log
      && (forall c :: 0 <= c < |s.calls| && s.calls[c].sent > 0 ==> v.calls[c].since == s.calls[c].since)
      && (forall c :: 0 <= c < |v.calls| && v.calls[c].sent > 0 && !(c < |s.calls| && s.calls[c].sent > 0) ==>
            v.calls[c].since < |v.log|)
  {
  }

  lemma NoNewReplies(cfg: Config, s: State, e: Event)
    requires ValidConfig(cfg) && Enabled(cfg, s, e)
    requires !e.ReadSource? && !e.Reply?
    ensures forall q :: q in Step(cfg, s, e).loop.queries && q.stage.Replying? ==> q in s.loop.queries
  {
  }

  lemma {:induction false} AlwaysFresh(cfg: Config, ss: seq<State>, es: seq<Event>, permits: nat, n: nat)
    requires ValidConfig(cfg) && IsTrace(cfg, ss, es) && Start(ss[0], permits) && n < |ss|
    ensures FreshAnswers(cfg, ss[n])
  {
    if n > 0 {
      AlwaysFresh(cfg, ss, es, permits, n - 1);
      AlwaysWellGathered(cfg, ss, es, permits, n - 1);
      AlwaysWellGathered(cfg, ss, es, permits, n);
      var s, e := ss[n - 1], es[n - 1];
      if e.ReadSource? {
        ReadIsFresh(cfg, s, e.q, e.ok);
      } else if e.Reply? {
        ReplyIsFresh(cfg, s, e.q);
      } else {
        OtherStepsFresh(cfg, s, e);
      }
    }
  }

  // ------------------------------------------------- merging the answers

  /** Later maps override earlier ones. */
  function Merged(maps: seq<Table>): Table {
    if maps == [] then map[] else Merged(maps[..|maps| - 1]) + maps[|maps| - 1]
  }

  method MergeResponses(maps: seq<Table>) returns (res: Table)
    ensures res == Merged(maps)
  {
    res := map[];
    for i := 0 to |maps|
      invariant res == Merged(maps[..i])
    {
      assert maps[..i + 1][..i] == maps[..i];
      res := res + maps[i];
    }
    assert maps[..|maps|] == maps;
  }

  lemma {:induction false} MergedFrom(maps: seq<Table>, k: Key)
    ensures k in Merged(maps) ==> exists j :: 0 <= j < |maps| && k in maps[j] && maps[j][k] == Merged(maps)[k]
    ensures k !in Merged(maps) ==> forall j :: 0 <= j < |maps| ==> k !in maps[j]
  {
    if maps != [] {
      var n := |maps| - 1;
      MergedFrom(maps[..n], k);
      if k in maps[n] {
        assert maps[n][k] == Merged(maps)[k];
      } else if k in Merged(maps) {
        var j :| 0 <= j < n && k in maps[..n][j] && maps[..n][j][k] == Merged(maps[..n])[k];
        assert maps[j] == maps[..n][j];
      } else {
        assert forall j :: 0 <= j < n ==> maps[j] == maps[..n][j];
      }
    }
  }

  /** Of several maps with a key the last one decides. */
  lemma {:induction false} LastMapDecides(maps: seq<Table>, j: nat, k: Key)
    requires j < |maps| && k in maps[j] && forall i :: j < i < |maps| ==> k !in maps[i]
    ensures k in Merged(maps) && Merged(maps)[k] == maps[j][k]
  {
    var n := |maps| - 1;
    if j < n {
      assert forall i :: 0 <= i < n ==> maps[..n][i] == maps[i];
      LastMapDecides(maps[..n], j, k);
    }
  }

  /** Every chunk of call `c` has been answered with rows. */
  predicate Complete(cfg: Config, s: State, c: nat)
    requires ValidConfig(cfg)
  {
    && c < |s.calls|
    && forall j :: 0 <= j < |ChunksOf(cfg, s.calls[c])| ==> Id(c, j) in s.answers && s.answers[Id(c, j)].rows.Some?
  }

  function Responses(cfg: Config, s: State, c: nat): seq<Table>
    requires ValidConfig(cfg) && Complete(cfg, s, c)
  {
    seq(|ChunksOf(cfg, s.calls[c])|, j requires 0 <= j < |ChunksOf(cfg, s.calls[c])| => s.answers[Id(c, j)].rows.value)
  }

  /** Of the answers to a call that have a key, the one to the last chunk decides. */
  lemma LastChunkDecides(cfg: Config, s: State, c: nat, j: nat, k: Key)
    requires ValidConfig(cfg) && Complete(cfg, s, c) && j < |ChunksOf(cfg, s.calls[c])|
    requires k in s.answers[Id(c, j)].rows.value
    requires forall i :: j < i < |ChunksOf(cfg, s.calls[c])| ==> k !in s.answers[Id(c, i)].rows.value
    ensures var res := Merged(Responses(cfg, s, c)); k in res && res[k] == s.answers[Id(c, j)].rows.value[k]
  {
    LastMapDecides(Responses(cfg, s, c), j, k);
  }

  lemma {:induction false} ChunkHolding(keys: seq<Key>, cap: nat, k: Key) returns (j: nat)
    requires cap > 0 && k in keys
    ensures j < |Chunks(keys, cap)| && k in Chunks(keys, cap)[j]
    decreases |keys|
  {
    if |keys| <= cap || k in keys[..cap] {
      j := 0;
    } else {
      assert keys == keys[..cap] + keys[cap..];
      var i := ChunkHolding(keys[cap..], cap, k);
      j := i + 1;
    }
  }

  /** With the source changing all the while, every row a call returns was the source's
      row at some moment between the call's first send and its return, and for every
      key asked but not returned there was such a moment without it. */
  lemma IntervalFreshness(cfg: Config, ss: seq<State>, es: seq<Event>, permits: nat, n: nat, c: nat, k: Key)
    requires ValidConfig(cfg) && IsTrace(cfg, ss, es) && Start(ss[0], permits) && n < |ss|
    requires Complete(cfg, ss[n], c)
    ensures var s := ss[n]; var res := Merged(Responses(cfg, s, c));
      k in res ==> exists i :: s.calls[c].since <= i < |s.log| && k in s.log[i] && s.log[i][k] == res[k]
    ensures var s := ss[n]; var res := Merged(Responses(cfg, s, c));
      k in s.calls[c].keys && k !in res ==> exists i :: s.calls[c].since <= i < |s.log| && k !in s.log[i]
  {
    var s := ss[n];
    var maps := Responses(cfg, s, c);
    AlwaysFresh(cfg, ss, es, permits, n);
    MergedFrom(maps, k);
    if k in Merged(maps) {
      var j :| 0 <= j < |maps| && k in maps[j] && maps[j][k] == Merged(maps)[k];
      var a := s.answers[Id(c, j)];
      assert FreshAnswer(cfg, s, Id(c, j), a);
      assert k in s.log[a.at];
    } else if k in s.calls[c].keys {
      var j := ChunkHolding(s.calls[c].keys, cfg.softCap, k);
      var a := s.answers[Id(c, j)];
      assert FreshAnswer(cfg, s, Id(c, j), a);
      assert k in Elements(ChunkAt(cfg, s.calls, Id(c, j)));
      assert k !in maps[j];
      assert k !in s.log[a.at];
    }
  }

  // --------------------------------------------------- batched = direct

  /** The rows found, one per key asked, in the order asked. */
  method InKeyOrder(keys: seq<Key>, items: Table) returns (res: seq<Row>)
    ensures res == Selected(items, keys)
  {
    res := [];
    for i := 0 to |keys|
      invariant res == Selected(items, keys[..i])
    {
      SelectedSnoc(items, keys[..i], keys[i]);
      assert keys[..i + 1] == keys[..i] + [keys[i]];
      if keys[i] in items {
        res := res + [items[keys[i]]];
      }
    }
    assert keys[..|keys|] == keys;
  }

  lemma {:induction false} SelectedSame(t: Table, u: Table, keys: seq<Key>)
    requires forall k :: k in keys ==> (k in t <==> k in u) && (k in t ==> t[k] == u[k])
    ensures Selected(t, keys) == Selected(u, keys)
  {
    if keys != [] {
      assert keys[0] in keys;
      SelectedSame(t, u, keys[1..]);
    }
  }

  /** Over a source that stands still and a cache that agrees with it, `read_inner`
      through the batcher returns, up to order, the source's row once for every
      occurrence of an existing key in the input. */
  lemma BatchedReadEqualsDirect(cfg: Config, ss: seq<State>, es: seq<Event>, permits: nat, n: nat, c: nat,
                                src: Table, cached: Table, input: seq<Key>)
    requires ValidConfig(cfg) && IsTrace(cfg, ss, es) && Start(ss[0], permits) && n < |ss|
    requires Complete(cfg, ss[n], c) && ss[n].calls[c].keys == Missed(cached, input)
    requires forall t :: t in ss[n].log ==> t == src
    requires forall k :: k in cached ==> k in src && src[k] == cached[k]
    ensures var res := Merged(Responses(cfg, ss[n], c));
      multiset(Selected(cached, input)) + multiset(Selected(res, Missed(cached, input))) == multiset(Selected(src, input))
  {
    var res := Merged(Responses(cfg, ss[n], c));
    var keys := Missed(cached, input);
    forall k | k in keys
      ensures (k in res <==> k in src) && (k in res ==> res[k] == src[k])
    {
      IntervalFreshness(cfg, ss, es, permits, n, c, k);
      assert forall i :: 0 <= i < |ss[n].log| ==> ss[n].log[i] in ss[n].log;
      if k in res {
        var i :| 0 <= i < |ss[n].log| && k in ss[n].log[i] && ss[n].log[i][k] == res[k];
      }
    }
    SelectedSame(res, src, keys);
    SelectedSplit(cached, src, input);
  }
}
