/** Where answers come from, and what a batcher over a working source gives. */
module BatcherAnswers {
  import opened Rows
  import opened Batcher
  import opened BatcherSafety
  import opened BatchedRead
  import opened BatcherProgress

  /** What the read of a query gives each of its requesters: the source's rows of the
      query's keys if the read succeeds, and none if it fails. */
  ghost predicate ReadGives(s: State, e: Event, id: Id, a: Answer) {
    && e.ReadSource? && e.q < |s.loop.queries| && s.log != []
    && id in s.loop.queries[e.q].batch.requesters
    && a.asked == s.loop.queries[e.q].batch.keys && a.at == |s.log| - 1
    && (a.rows.Some? <==> e.ok)
    && (a.rows.Some? ==> IsRead(s.log[|s.log| - 1], a.asked, a.rows.value))
  }

  ghost predicate IsRead(t: Table, keys: set<Key>, rows: Table) {
    && (forall k :: k in rows <==> k in keys && k in t)
    && forall k :: k in rows ==> rows[k] == t[k]
  }

  /** Every answer given or on its way is one of these. */
  ghost predicate Traced(s: State, past: iset<(Id, Answer)>) {
    && (forall q, id :: q in s.loop.queries && q.stage.Replying? && id in q.stage.todo ==> (id, q.stage.answer) in past)
    && (forall id :: id in s.answers ==> (id, s.answers[id]) in past)
  }

  ghost function Given(s: State, e: Event): iset<(Id, Answer)> {
    iset id, a | ReadGives(s, e, id, a) :: (id, a)
  }

  lemma ReadAnswers(cfg: Config, s: State, q: nat, ok: bool)
    requires ValidConfig(cfg) && Enabled(cfg, s, ReadSource(q, ok))
    ensures var v := Step(cfg, s, ReadSource(q, ok));
      && v.answers == s.answers && |v.loop.queries| == |s.loop.queries|
      && (forall i :: 0 <= i < |s.loop.queries| && i != q ==> v.loop.queries[i] == s.loop.queries[i])
      && v.loop.queries[q].stage.Replying?
      && forall id :: id in v.loop.queries[q].stage.todo ==> ReadGives(s, ReadSource(q, ok), id, v.loop.queries[q].stage.answer)
  {
  }

  lemma ReadTraced(cfg: Config, s: State, q: nat, ok: bool, past: iset<(Id, Answer)>)
    requires ValidConfig(cfg) && Enabled(cfg, s, ReadSource(q, ok)) && Traced(s, past)
    ensures Traced(Step(cfg, s, ReadSource(q, ok)), past + Given(s, ReadSource(q, ok)))
  {
    hide Step, Enabled, ReadGives;
    var v := Step(cfg, s, ReadSource(q, ok));
    ReadAnswers(cfg, s, q, ok);
    forall p, id | p in v.loop.queries && p.stage.Replying? && id in p.stage.todo
      ensures (id, p.stage.answer) in past + Given(s, ReadSource(q, ok))
    {
      var i :| 0 <= i < |v.loop.queries| && v.loop.queries[i] == p;
      if i != q {
        assert s.loop.queries[i] in s.loop.queries;
      }
    }
  }

  lemma ReplyTraced(cfg: Config, s: State, q: nat, past: iset<(Id, Answer)>)
    requires ValidConfig(cfg) && Enabled(cfg, s, Reply(q)) && Traced(s, past)
    ensures Traced(Step(cfg, s, Reply(q)), past)
  {
    var v := Step(cfg, s, Reply(q));
    var was := s.loop.queries[q];
    assert was in s.loop.queries && was.stage.todo[0] in was.stage.todo;
    forall p, id | p in v.loop.queries && p.stage.Replying? && id in p.stage.todo
      ensures (id, p.stage.answer) in past
    {
      if p !in s.loop.queries {
        assert p == v.loop.queries[q] && id in was.stage.todo;
      }
    }
  }

  lemma OthersTraced(cfg: Config, s: State, e: Event, past: iset<(Id, Answer)>)
    requires ValidConfig(cfg) && Enabled(cfg, s, e) && Traced(s, past) && !e.ReadSource? && !e.Reply?
    ensures Traced(Step(cfg, s, e), past)
  {
    NoNewReplies(cfg, s, e);
    assert Step(cfg, s, e).answers == s.answers;
  }

  lemma StepTraced(cfg: Config, s: State, e: Event, past: iset<(Id, Answer)>)
    requires ValidConfig(cfg) && Enabled(cfg, s, e) && Traced(s, past)
    ensures Traced(Step(cfg, s, e), past + Given(s, e))
  {
    hide Step, Enabled;
    if e.ReadSource? {
      ReadTraced(cfg, s, e.q, e.ok, past);
    } else if e.Reply? {
      ReplyTraced(cfg, s, e.q, past);
    } else {
      OthersTraced(cfg, s, e, past);
    }
  }

  ghost function GivenBefore(ss: seq<State>, es: seq<Event>, n: nat): iset<(Id, Answer)>
    requires n <= |es| < |ss|
  {
    if n == 0 then iset{} else GivenBefore(ss, es, n - 1) + Given(ss[n - 1], es[n - 1])
  }

  lemma {:induction false} TraceTraced(cfg: Config, ss: seq<State>, es: seq<Event>, permits: nat, n: nat)
    requires ValidConfig(cfg) && IsTrace(cfg, ss, es) && Start(ss[0], permits) && n < |ss|
    ensures Traced(ss[n], GivenBefore(ss, es, n))
  {
    hide Step, Enabled, Given;
    if n > 0 {
      TraceTraced(cfg, ss, es, permits, n - 1);
      assert ss[n - 1 + 1] == Step(cfg, ss[n - 1], es[n - 1]);
      StepTraced(cfg, ss[n - 1], es[n - 1], GivenBefore(ss, es, n - 1));
    }
  }

  /** The answer came from a read of the run before moment `n`. */
  ghost predicate CameFromRead(ss: seq<State>, es: seq<Event>, n: nat, id: Id, a: Answer)
    requires n <= |es| < |ss|
  {
    exists i {:trigger es[i]} :: 0 <= i < n && ReadGives(ss[i], es[i], id, a)
  }

  lemma {:induction false} GivenMeans(ss: seq<State>, es: seq<Event>, n: nat, id: Id, a: Answer)
    requires n <= |es| < |ss| && (id, a) in GivenBefore(ss, es, n)
    ensures CameFromRead(ss, es, n, id, a)
  {
    if (id, a) in Given(ss[n - 1], es[n - 1]) {
      assert ReadGives(ss[n - 1], es[n - 1], id, a);
    } else {
      GivenMeans(ss, es, n - 1, id, a);
      var i :| 0 <= i < n - 1 && ReadGives(ss[i], es[i], id, a);
      assert es[i].ReadSource?;
    }
  }

  /** Every answer came from one read of a query that its requester was part of: it has
      rows exactly if that read succeeded, and then the source's rows of the query's keys. */
  lemma AnswersComeFromReads(cfg: Config, ss: seq<State>, es: seq<Event>, permits: nat, n: nat, id: Id)
    requires ValidConfig(cfg) && IsTrace(cfg, ss, es) && Start(ss[0], permits) && n < |ss| && id in ss[n].answers
    ensures CameFromRead(ss, es, n, id, ss[n].answers[id])
  {
    TraceTraced(cfg, ss, es, permits, n);
    GivenMeans(ss, es, n, id, ss[n].answers[id]);
  }

  /** No source read of the run failed. */
  ghost predicate ReadsSucceed(es: seq<Event>, n: nat)
    requires n <= |es|
  {
    forall i :: 0 <= i < n && es[i].ReadSource? ==> es[i].ok
  }

  /** With a working source, and unless others hold all permits, every call of a batcher at
      rest has been answered with rows, chunk by chunk. */
  lemma RestMeansComplete(cfg: Config, ss: seq<State>, es: seq<Event>, permits: nat, n: nat, c: nat)
    requires ValidConfig(cfg) && IsTrace(cfg, ss, es) && Start(ss[0], permits) && n < |ss|
    requires ss[n].elsewhere < permits && AtRest(cfg, ss[n]) && ReadsSucceed(es, n) && c < |ss[n].calls|
    ensures Complete(cfg, ss[n], c)
  {
    hide Step, Enabled, AtRest;
    RestMeansAnswered(cfg, ss, es, permits, n);
    forall j | 0 <= j < |ChunksOf(cfg, ss[n].calls[c])|
      ensures Id(c, j) in ss[n].answers && ss[n].answers[Id(c, j)].rows.Some?
    {
      AnswersComeFromReads(cfg, ss, es, permits, n, Id(c, j));
      var i :| 0 <= i < n && ReadGives(ss[i], es[i], Id(c, j), ss[n].answers[Id(c, j)]);
      assert es[i].ok;
    }
  }

  /** A batched read over a source that works and stands still, with a cache that agrees
      with it: once the batcher is at rest, cached rows and the call's answer together are,
      up to order, the source's row once for every occurrence of an existing key. */
  lemma BatchedReadServed(cfg: Config, ss: seq<State>, es: seq<Event>, permits: nat, n: nat, c: nat,
                          src: Table, cached: Table, input: seq<Key>)
    requires ValidConfig(cfg) && IsTrace(cfg, ss, es) && Start(ss[0], permits) && n < |ss|
    requires ss[n].elsewhere < permits && AtRest(cfg, ss[n]) && ReadsSucceed(es, n)
    requires c < |ss[n].calls| && ss[n].calls[c].keys == Missed(cached, input)
    requires forall t :: t in ss[n].log ==> t == src
    requires forall k :: k in cached ==> k in src && src[k] == cached[k]
    ensures Complete(cfg, ss[n], c)
    ensures var res := Merged(Responses(cfg, ss[n], c));
      multiset(Selected(cached, input)) + multiset(Selected(res, Missed(cached, input))) == multiset(Selected(src, input))
  {
    hide Step, Enabled, AtRest;
    RestMeansComplete(cfg, ss, es, permits, n, c);
    BatchedReadEqualsDirect(cfg, ss, es, permits, n, c, src, cached, input);
  }

  /** The channel holds fifty requests: a call can send its next chunk exactly while there
      are fewer. */
  lemma SendsWhileRoom(cfg: Config, s: State, c: nat)
    requires ValidConfig(cfg) && s.open && c < |s.calls| && s.calls[c].sent < |ChunksOf(cfg, s.calls[c])|
    ensures Enabled(cfg, s, Send(c)) <==> |s.queue| < 50
  {
  }
}
