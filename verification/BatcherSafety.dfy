/** What holds in every reachable state of the batcher. */
module BatcherSafety {
  import opened Rows
  import opened Batcher

  // ------------------------------------------------- answered exactly once

  function Ids(reqs: seq<Request>): seq<Id> {
    seq(|reqs|, i requires 0 <= i < |reqs| => reqs[i].id)
  }

  /** The requesters a query still has to answer. */
  function Owed(q: Query): seq<Id> {
    match q.stage
    case Pending => q.batch.requesters
    case Reading => q.batch.requesters
    case Replying(_, todo) => todo
    case Finished => []
  }

  function OwedAll(qs: seq<Query>): multiset<Id> {
    if qs == [] then multiset{} else multiset(Owed(qs[0])) + OwedAll(qs[1..])
  }

  function Gathering(l: Loop): multiset<Id> {
    if l.batch.Some? then multiset(l.batch.value.requesters) else multiset{}
  }

  /** Every place a request can be in, other than having been answered. */
  function Places(s: State): multiset<Id> {
    multiset(Ids(s.queue)) + Gathering(s.loop) + OwedAll(s.loop.queries)
  }

  predicate Sent(calls: seq<Call>, id: Id) {
    id.call < |calls| && id.chunk < calls[id.call].sent
  }

  /** A request that was sent is in the channel, in the current batch, in one query
      that still owes it, or answered: in exactly one of these, once. One that was
      not sent is nowhere. */
  ghost predicate ExactlyOnce(s: State) {
    forall id :: Places(s)[id] + (if id in s.answers then 1 else 0) == (if Sent(s.calls, id) then 1 else 0)
  }

  lemma {:induction false} OwedAppend(qs: seq<Query>, q: Query)
    ensures OwedAll(qs + [q]) == OwedAll(qs) + multiset(Owed(q))
  {
    if qs == [] {
      assert [] + [q] == [q];
    } else {
      assert (qs + [q])[1..] == qs[1..] + [q];
      OwedAppend(qs[1..], q);
    }
  }

  lemma {:induction false} OwedUpdate(qs: seq<Query>, i: nat, q: Query)
    requires i < |qs|
    ensures forall id :: OwedAll(qs[i := q])[id] + multiset(Owed(qs[i]))[id] == OwedAll(qs)[id] + multiset(Owed(q))[id]
  {
    if i == 0 {
      assert qs[i := q][1..] == qs[1..];
    } else {
      assert qs[i := q][0] == qs[0] && qs[i := q][1..] == qs[1..][i - 1 := q];
      OwedUpdate(qs[1..], i - 1, q);
    }
  }

  lemma SendQueryKeepsPlaces(l: Loop)
    requires l.batch.Some?
    ensures Gathering(SendQuery(l)) + OwedAll(SendQuery(l).queries) == Gathering(l) + OwedAll(l.queries)
  {
    OwedAppend(l.queries, Query(l.batch.value, l.deadline, Pending));
  }

  lemma OnChunkPlaces(cfg: Config, l: Loop, req: Request, now: nat)
    ensures var l1 := OnChunk(cfg, l, req, now);
      Gathering(l1) + OwedAll(l1.queries) == Gathering(l) + OwedAll(l.queries) + multiset{req.id}
  {
    var (cur, deadline) := Joined(cfg, l, now);
    var b := Extend(cur, req, now);
    var l1 := Loop(Head, Some(b), deadline, l.queries);
    assert multiset(b.requesters) == multiset(cur.requesters) + multiset{req.id};
    if |b.keys| >= cfg.softCap {
      SendQueryKeepsPlaces(l1);
    }
  }

  lemma ReceivePlaces(cfg: Config, s: State)
    requires ValidConfig(cfg) && Enabled(cfg, s, Receive)
    ensures Places(Step(cfg, s, Receive)) == Places(s)
  {
    OnChunkPlaces(cfg, s.loop, s.queue[0], s.clock);
    HeadMoves(s, Step(cfg, s, Receive));
  }

  /** The first request in the channel goes over to the loop. */
  lemma HeadMoves(s: State, v: State)
    requires s.queue != [] && v.queue == s.queue[1..]
    requires Gathering(v.loop) + OwedAll(v.loop.queries) == Gathering(s.loop) + OwedAll(s.loop.queries) + multiset{s.queue[0].id}
    ensures Places(v) == Places(s)
  {
    assert Ids(s.queue) == [s.queue[0].id] + Ids(s.queue[1..]);
    assert multiset(Ids(s.queue)) == multiset{s.queue[0].id} + multiset(Ids(s.queue[1..]));
    PlacesSum(v, v.queue, v.loop);
    PlacesSum(s, s.queue, s.loop);
  }

  lemma PlacesSum(s: State, queue: seq<Request>, l: Loop)
    requires s.queue == queue && s.loop == l
    ensures Places(s) == multiset(Ids(queue)) + (Gathering(l) + OwedAll(l.queries))
  {
  }

  /** The loop goes on, or spawns the batch as a query. */
  lemma LoopMoves(s: State, v: State)
    requires v.queue == s.queue
    requires
      || (v.loop.batch == s.loop.batch && v.loop.queries == s.loop.queries)
      || (s.loop.batch.Some? && v.loop.batch.None? && v.loop.queries == SendQuery(s.loop).queries)
    ensures Places(v) == Places(s)
  {
    if s.loop.batch.Some? {
      SendQueryKeepsPlaces(s.loop);
    }
    PlacesSum(v, s.queue, v.loop);
    PlacesSum(s, s.queue, s.loop);
  }

  lemma LoopPlaces(cfg: Config, s: State, e: Event)
    requires ValidConfig(cfg) && Enabled(cfg, s, e)
    requires e.TestBatch? || e.ReceiveNone? || e.Alarm?
    ensures Places(Step(cfg, s, e)) == Places(s)
  {
    LoopMoves(s, Step(cfg, s, e));
  }

  lemma StagePlaces(s: State, q: nat, stage: Stage)
    requires q < |s.loop.queries|
    ensures var p := s.loop.queries[q].(stage := stage);
      forall id :: Places(WithStage(s, q, stage))[id] + multiset(Owed(s.loop.queries[q]))[id]
        == Places(s)[id] + multiset(Owed(p))[id]
  {
    OwedUpdate(s.loop.queries, q, s.loop.queries[q].(stage := stage));
  }

  lemma SendPlaces(cfg: Config, s: State, c: nat)
    requires ValidConfig(cfg) && Enabled(cfg, s, Send(c))
    ensures Places(Step(cfg, s, Send(c))) == Places(s) + multiset{Id(c, s.calls[c].sent)}
  {
    var v := Step(cfg, s, Send(c));
    assert Ids(v.queue) == Ids(s.queue) + [Id(c, s.calls[c].sent)];
    PlacesSum(v, v.queue, s.loop);
    PlacesSum(s, s.queue, s.loop);
  }

  lemma ReplyKeepsOnce(cfg: Config, s: State, i: nat)
    requires ValidConfig(cfg) && ExactlyOnce(s) && Enabled(cfg, s, Reply(i))
    ensures ExactlyOnce(Step(cfg, s, Reply(i)))
    ensures s.loop.queries[i].stage.todo[0] !in s.answers
  {
    var stage := s.loop.queries[i].stage;
    var todo := stage.todo;
    var w := WithStage(s, i, Replying(stage.answer, todo[1..]));
    StagePlaces(s, i, Replying(stage.answer, todo[1..]));
    assert todo == [todo[0]] + todo[1..];
    assert forall id :: multiset(todo)[id] == multiset{todo[0]}[id] + multiset(todo[1..])[id];
    assert forall id :: Places(w)[id] + multiset{todo[0]}[id] == Places(s)[id];
    OnceAfterReply(s, w, todo[0], stage.answer);
  }

  lemma OnceAfterReply(s: State, w: State, id0: Id, answer: Answer)
    requires ExactlyOnce(s) && w.calls == s.calls && w.answers == s.answers
    requires forall id :: Places(w)[id] + multiset{id0}[id] == Places(s)[id]
    ensures id0 !in s.answers
    ensures ExactlyOnce(w.(answers := w.answers[id0 := answer]))
  {
    var v := w.(answers := w.answers[id0 := answer]);
    PlacesSum(v, w.queue, w.loop);
    PlacesSum(w, w.queue, w.loop);
    assert Places(v) == Places(w);
    assert Places(s)[id0] >= 1;
  }

  lemma OnceFrame(s: State, v: State)
    requires ExactlyOnce(s) && v.calls == s.calls && v.answers == s.answers
    requires forall id :: Places(v)[id] == Places(s)[id]
    ensures ExactlyOnce(v)
  {
  }

  /** A query moves on without any request changing its place. */
  lemma StagedPlaces(s: State, v: State, q: nat, stage: Stage)
    requires q < |s.loop.queries| && v.queue == s.queue && v.loop == WithStage(s, q, stage).loop
    requires multiset(Owed(s.loop.queries[q].(stage := stage))) == multiset(Owed(s.loop.queries[q]))
    ensures forall id :: Places(v)[id] == Places(s)[id]
  {
    var w := WithStage(s, q, stage);
    StagePlaces(s, q, stage);
    PlacesSum(w, w.queue, w.loop);
    PlacesSum(v, w.queue, w.loop);
  }

  lemma QueryPlaces(cfg: Config, s: State, e: Event)
    requires ValidConfig(cfg) && Enabled(cfg, s, e)
    requires e.Acquire? || e.ReadSource? || e.Release?
    ensures forall id :: Places(Step(cfg, s, e))[id] == Places(s)[id]
  {
    var v := Step(cfg, s, e);
    StagedPlaces(s, v, e.q, v.loop.queries[e.q].stage);
  }

  lemma SendKeepsOnce(cfg: Config, s: State, c: nat)
    requires ValidConfig(cfg) && ExactlyOnce(s) && Enabled(cfg, s, Send(c))
    ensures ExactlyOnce(Step(cfg, s, Send(c)))
  {
    SendPlaces(cfg, s, c);
    OnceAfterSend(s, Step(cfg, s, Send(c)), c);
  }

  lemma OnceAfterSend(s: State, v: State, c: nat)
    requires ExactlyOnce(s) && c < |s.calls| && v.answers == s.answers
    requires Places(v) == Places(s) + multiset{Id(c, s.calls[c].sent)}
    requires |v.calls| == |s.calls| && v.calls[c].sent == s.calls[c].sent + 1
    requires forall d :: 0 <= d < |s.calls| && d != c ==> v.calls[d] == s.calls[d]
    ensures ExactlyOnce(v)
  {
    assert !Sent(s.calls, Id(c, s.calls[c].sent));
  }

  lemma EnvironmentKeepsOnce(cfg: Config, s: State, e: Event)
    requires ValidConfig(cfg) && ExactlyOnce(s) && Enabled(cfg, s, e) && Environment(e)
    ensures ExactlyOnce(Step(cfg, s, e))
  {
    var v := Step(cfg, s, e);
    PlacesSum(v, s.queue, s.loop);
    PlacesSum(s, s.queue, s.loop);
    assert forall id :: Sent(v.calls, id) <==> Sent(s.calls, id);
  }

  lemma StepKeepsOnce(cfg: Config, s: State, e: Event)
    requires ValidConfig(cfg) && ExactlyOnce(s) && Enabled(cfg, s, e)
    ensures ExactlyOnce(Step(cfg, s, e))
  {
    if e.Send? {
      SendKeepsOnce(cfg, s, e.c);
    } else if Environment(e) {
      EnvironmentKeepsOnce(cfg, s, e);
    } else if e.Reply? {
      ReplyKeepsOnce(cfg, s, e.q);
    } else {
      if e.Receive? {
        ReceivePlaces(cfg, s);
      } else if e.TestBatch? || e.ReceiveNone? || e.Alarm? {
        LoopPlaces(cfg, s, e);
      } else {
        QueryPlaces(cfg, s, e);
      }
      OnceFrame(s, Step(cfg, s, e));
    }
  }

  /** In every reachable state. */
  lemma {:induction false} AnsweredExactlyOnce(cfg: Config, ss: seq<State>, es: seq<Event>, permits: nat, n: nat)
    requires ValidConfig(cfg) && IsTrace(cfg, ss, es) && Start(ss[0], permits) && n < |ss|
    ensures ExactlyOnce(ss[n])
  {
    hide Step;
    if n > 0 {
      AnsweredExactlyOnce(cfg, ss, es, permits, n - 1);
      StepKeepsOnce(cfg, ss[n - 1], es[n - 1]);
    }
  }

  // ---------------------------------------- key sets, batch size, deadlines

  predicate ValidId(cfg: Config, calls: seq<Call>, id: Id)
    requires ValidConfig(cfg)
  {
    Sent(calls, id) && calls[id.call].sent <= |ChunksOf(cfg, calls[id.call])|
  }

  function ChunkAt(cfg: Config, calls: seq<Call>, id: Id): seq<Key>
    requires ValidConfig(cfg)
  {
    if ValidId(cfg, calls, id) then ChunksOf(cfg, calls[id.call])[id.chunk] else []
  }

  /** All keys the given requesters asked for. */
  function UnionOf(cfg: Config, calls: seq<Call>, ids: seq<Id>): set<Key>
    requires ValidConfig(cfg)
  {
    if ids == [] then {} else UnionOf(cfg, calls, ids[..|ids| - 1]) + Elements(ChunkAt(cfg, calls, ids[|ids| - 1]))
  }

  /** Only the last requester can have joined after the deadline. */
  ghost predicate PunctualButLast(b: Batch, due: nat) {
    forall i :: 0 <= i < |b.admitted| - 1 ==> b.admitted[i] <= due
  }

  ghost predicate GoodBatch(cfg: Config, s: State, b: Batch, due: nat)
    requires ValidConfig(cfg)
  {
    && b.requesters != [] && |b.admitted| == |b.requesters|
    && (forall id :: id in b.requesters ==> ValidId(cfg, s.calls, id))
    && b.keys == UnionOf(cfg, s.calls, b.requesters)
    && b.keys != {}
    && due == b.admitted[0] + cfg.timeLimit
    && (forall i, j :: 0 <= i < j < |b.admitted| ==> b.admitted[i] <= b.admitted[j])
    && b.admitted[|b.admitted| - 1] <= s.clock
    && PunctualButLast(b, due)
  }

  ghost predicate GoodLoop(cfg: Config, s: State)
    requires ValidConfig(cfg)
  {
    var l := s.loop;
    && (l.batch.Some? ==>
        && GoodBatch(cfg, s, l.batch.value, l.deadline)
        && |l.batch.value.keys| < cfg.softCap
        && (l.pc.Selecting? ==> l.pc.alarm == l.deadline && l.batch.value.admitted[|l.batch.value.admitted| - 1] <= l.deadline))
    && (l.pc.Selecting? ==> l.batch.Some?)
    && (l.pc.Receiving? ==> l.batch.None?)
    && (l.pc.Stopped? ==> l.batch.None? && s.queue == [] && !s.open)
    && (!s.open ==> AllSent(cfg, s.calls))
  }

  ghost predicate GoodQueries(cfg: Config, s: State)
    requires ValidConfig(cfg)
  {
    forall q :: q in s.loop.queries ==> GoodBatch(cfg, s, q.batch, q.due) && |q.batch.keys| < 2 * cfg.softCap
  }

  ghost predicate GoodQueue(cfg: Config, s: State)
    requires ValidConfig(cfg)
  {
    && (forall c :: 0 <= c < |s.calls| ==> s.calls[c].sent <= |ChunksOf(cfg, s.calls[c])|)
    && |s.queue| <= CAPACITY
    && forall r :: r in s.queue ==> ValidId(cfg, s.calls, r.id) && r.keys == ChunkAt(cfg, s.calls, r.id)
  }

  ghost predicate WellGathered(cfg: Config, s: State)
    requires ValidConfig(cfg)
  {
    GoodLoop(cfg, s) && GoodQueries(cfg, s) && GoodQueue(cfg, s)
  }

  lemma {:induction false} ElementsSize<T>(s: seq<T>)
    ensures |Elements(s)| <= |s|
    ensures s != [] ==> Elements(s) != {}
  {
    if s != [] {
      assert s[0] in Elements(s);
      assert Elements(s) == Elements(s[1..]) + {s[0]};
      ElementsSize(s[1..]);
    }
  }

  lemma ChunkAtSize(cfg: Config, calls: seq<Call>, id: Id)
    requires ValidConfig(cfg) && ValidId(cfg, calls, id)
    ensures 1 <= |Elements(ChunkAt(cfg, calls, id))| <= cfg.softCap
  {
    ChunkSizes(calls[id.call].keys, cfg.softCap);
    ElementsSize(ChunkAt(cfg, calls, id));
  }

  /** Calls are only added, and only send more. */
  ghost predicate CallsGrow(calls: seq<Call>, more: seq<Call>) {
    && |calls| <= |more|
    && forall c :: 0 <= c < |calls| ==> more[c].keys == calls[c].keys && calls[c].sent <= more[c].sent
  }

  lemma {:induction false} UnionStable(cfg: Config, calls: seq<Call>, more: seq<Call>, ids: seq<Id>)
    requires ValidConfig(cfg) && CallsGrow(calls, more)
    requires forall c :: 0 <= c < |more| ==> more[c].sent <= |ChunksOf(cfg, more[c])|
    requires forall id :: id in ids ==> ValidId(cfg, calls, id)
    ensures forall id :: id in ids ==> ValidId(cfg, more, id)
    ensures UnionOf(cfg, more, ids) == UnionOf(cfg, calls, ids)
  {
    if ids != [] {
      var last := ids[|ids| - 1];
      assert last in ids;
      UnionStable(cfg, calls, more, ids[..|ids| - 1]);
      assert ids == ids[..|ids| - 1] + [last];
    }
  }

  lemma UnionPlus(cfg: Config, calls: seq<Call>, ids: seq<Id>, id: Id)
    requires ValidConfig(cfg)
    ensures UnionOf(cfg, calls, ids + [id]) == UnionOf(cfg, calls, ids) + Elements(ChunkAt(cfg, calls, id))
  {
    assert (ids + [id])[..|ids|] == ids;
  }

  lemma EmptyUnion(cfg: Config, calls: seq<Call>)
    requires ValidConfig(cfg)
    ensures UnionOf(cfg, calls, []) == {}
  {
  }

  lemma KeysPlus(cfg: Config, s: State, b: Batch, req: Request)
    requires ValidConfig(cfg) && ValidId(cfg, s.calls, req.id) && req.keys == ChunkAt(cfg, s.calls, req.id)
    requires b.keys == UnionOf(cfg, s.calls, b.requesters)
    ensures var c := Extend(b, req, s.clock);
      c.keys == UnionOf(cfg, s.calls, c.requesters) && c.keys != {} && |c.keys| <= |b.keys| + cfg.softCap
  {
    ChunkAtSize(cfg, s.calls, req.id);
    UnionPlus(cfg, s.calls, b.requesters, req.id);
    UnionSize(b.keys, Elements(req.keys));
    assert req.keys[0] in Elements(req.keys);
  }

  lemma TimesPlus(b: Batch, due: nat, now: nat, times: seq<nat>)
    requires times == b.admitted + [now]
    requires forall i, j :: 0 <= i < j < |b.admitted| ==> b.admitted[i] <= b.admitted[j]
    requires b.admitted != [] ==> b.admitted[|b.admitted| - 1] <= now && b.admitted[|b.admitted| - 1] <= due
    ensures forall i, j :: 0 <= i < j < |times| ==> times[i] <= times[j]
    ensures forall i :: 0 <= i < |times| - 1 ==> times[i] <= due
  {
    var n := |b.admitted|;
    forall i | 0 <= i < n ensures times[i] <= now && times[i] <= due {
      if i < n - 1 {
        assert b.admitted[i] <= b.admitted[n - 1];
      }
    }
  }

  /** Gathering one more chunk. */
  lemma GoodBatchPlus(cfg: Config, s: State, b: Batch, due: nat, req: Request)
    requires ValidConfig(cfg) && ValidId(cfg, s.calls, req.id) && req.keys == ChunkAt(cfg, s.calls, req.id)
    requires
      || (b == Batch({}, [], []) && due == s.clock + cfg.timeLimit)
      || (GoodBatch(cfg, s, b, due) && b.admitted[|b.admitted| - 1] <= due)
    ensures GoodBatch(cfg, s, Extend(b, req, s.clock), due)
    ensures |Extend(b, req, s.clock).keys| <= |b.keys| + cfg.softCap
  {
    hide UnionOf, ChunkAt, ValidId;
    var c := Extend(b, req, s.clock);
    if b.requesters == [] {
      EmptyUnion(cfg, s.calls);
    }
    KeysPlus(cfg, s, b, req);
    TimesPlus(b, due, s.clock, c.admitted);
  }

  lemma UnionSize<T>(a: set<T>, b: set<T>)
    ensures |a + b| <= |a| + |b|
  {
    assert a + b == a + (b - a);
  }

  /** A chunk can only join a batch whose deadline has not passed at the loop head. */
  lemma JoinedIsGood(cfg: Config, s: State)
    requires ValidConfig(cfg) && WellGathered(cfg, s) && Enabled(cfg, s, Receive)
    ensures var (cur, due) := Joined(cfg, s.loop, s.clock);
      var b := Extend(cur, s.queue[0], s.clock);
      GoodBatch(cfg, s, b, due) && |b.keys| < 2 * cfg.softCap
  {
    var (cur, due) := Joined(cfg, s.loop, s.clock);
    assert s.queue[0] in s.queue;
    GoodBatchPlus(cfg, s, cur, due, s.queue[0]);
  }

  /** The facts about a batch do not depend on where the loop is. */
  lemma GoodBatchFrame(cfg: Config, s: State, v: State)
    requires ValidConfig(cfg) && s.calls == v.calls && s.clock == v.clock
    ensures forall b: Batch, due: nat :: GoodBatch(cfg, s, b, due) <==> GoodBatch(cfg, v, b, due)
  {
  }

  lemma ReceiveGathers(cfg: Config, s: State)
    requires ValidConfig(cfg) && WellGathered(cfg, s) && Enabled(cfg, s, Receive)
    ensures WellGathered(cfg, Step(cfg, s, Receive))
  {
    var v := Step(cfg, s, Receive);
    JoinedIsGood(cfg, s);
    GoodBatchFrame(cfg, s, v);
    var (cur, due) := Joined(cfg, s.loop, s.clock);
    var b := Extend(cur, s.queue[0], s.clock);
    if |b.keys| >= cfg.softCap {
      assert v.loop == Loop(Head, None, due, s.loop.queries + [Query(b, due, Pending)]);
    } else {
      assert v.loop == Loop(Head, Some(b), due, s.loop.queries);
    }
    assert GoodQueries(cfg, v);
    assert GoodQueue(cfg, v);
  }

  lemma TestGathers(cfg: Config, s: State)
    requires ValidConfig(cfg) && WellGathered(cfg, s) && Enabled(cfg, s, TestBatch)
    ensures WellGathered(cfg, Step(cfg, s, TestBatch))
  {
    GoodBatchFrame(cfg, s, Step(cfg, s, TestBatch));
  }

  lemma ClosedGathers(cfg: Config, s: State)
    requires ValidConfig(cfg) && WellGathered(cfg, s) && Enabled(cfg, s, ReceiveNone)
    ensures WellGathered(cfg, Step(cfg, s, ReceiveNone))
  {
    GoodBatchFrame(cfg, s, Step(cfg, s, ReceiveNone));
  }

  lemma AlarmGathers(cfg: Config, s: State)
    requires ValidConfig(cfg) && WellGathered(cfg, s) && Enabled(cfg, s, Alarm)
    ensures WellGathered(cfg, Step(cfg, s, Alarm))
  {
    GoodBatchFrame(cfg, s, Step(cfg, s, Alarm));
  }

  lemma LoopGathers(cfg: Config, s: State, e: Event)
    requires ValidConfig(cfg) && WellGathered(cfg, s) && Enabled(cfg, s, e)
    requires e.TestBatch? || e.ReceiveNone? || e.Alarm?
    ensures WellGathered(cfg, Step(cfg, s, e))
  {
    match e {
      case TestBatch => TestGathers(cfg, s);
      case ReceiveNone => ClosedGathers(cfg, s);
      case Alarm => AlarmGathers(cfg, s);
    }
  }

  /** A query's progress leaves its batch alone, and everything outside the queries. */
  lemma QueryShape(cfg: Config, s: State, e: Event)
    requires ValidConfig(cfg) && Enabled(cfg, s, e)
    requires e.Acquire? || e.ReadSource? || e.Reply? || e.Release?
    ensures var v := Step(cfg, s, e);
      && v == s.(loop := s.loop.(queries := v.loop.queries), permits := v.permits, answers := v.answers)
      && |v.loop.queries| == |s.loop.queries|
      && forall i :: 0 <= i < |v.loop.queries| ==>
           v.loop.queries[i].batch == s.loop.queries[i].batch && v.loop.queries[i].due == s.loop.queries[i].due
  {
  }

  lemma QueryGathers(cfg: Config, s: State, e: Event)
    requires ValidConfig(cfg) && WellGathered(cfg, s) && Enabled(cfg, s, e)
    requires e.Acquire? || e.ReadSource? || e.Reply? || e.Release?
    ensures WellGathered(cfg, Step(cfg, s, e))
  {
    QueryShape(cfg, s, e);
    QueriesFrame(cfg, s, Step(cfg, s, e));
  }

  lemma QueriesFrame(cfg: Config, s: State, v: State)
    requires ValidConfig(cfg) && WellGathered(cfg, s)
    requires v == s.(loop := s.loop.(queries := v.loop.queries), permits := v.permits, answers := v.answers)
    requires |v.loop.queries| == |s.loop.queries|
    requires forall i :: 0 <= i < |v.loop.queries| ==>
      v.loop.queries[i].batch == s.loop.queries[i].batch && v.loop.queries[i].due == s.loop.queries[i].due
    ensures WellGathered(cfg, v)
  {
    GoodBatchFrame(cfg, s, v);
    forall q | q in v.loop.queries
      ensures GoodBatch(cfg, v, q.batch, q.due) && |q.batch.keys| < 2 * cfg.softCap
    {
      var i :| 0 <= i < |v.loop.queries| && v.loop.queries[i] == q;
      assert s.loop.queries[i] in s.loop.queries;
    }
  }

  /** Steps that change neither the loop nor its queries. */
  lemma OutsideGathers(cfg: Config, s: State, e: Event)
    requires ValidConfig(cfg) && WellGathered(cfg, s) && Enabled(cfg, s, e)
    requires e.Send? || Environment(e)
    ensures WellGathered(cfg, Step(cfg, s, e))
  {
    var v := Step(cfg, s, e);
    assert CallsGrow(s.calls, v.calls);
    forall b: Batch, due: nat | GoodBatch(cfg, s, b, due)
      ensures GoodBatch(cfg, v, b, due)
    {
      UnionStable(cfg, s.calls, v.calls, b.requesters);
    }
  }

  lemma {:induction false} AlwaysWellGathered(cfg: Config, ss: seq<State>, es: seq<Event>, permits: nat, n: nat)
    requires ValidConfig(cfg) && IsTrace(cfg, ss, es) && Start(ss[0], permits) && n < |ss|
    ensures WellGathered(cfg, ss[n])
  {
    hide Step;
    if n > 0 {
      AlwaysWellGathered(cfg, ss, es, permits, n - 1);
      var s, e := ss[n - 1], es[n - 1];
      if e.Receive? {
        ReceiveGathers(cfg, s);
      } else if e.TestBatch? || e.ReceiveNone? || e.Alarm? {
        LoopGathers(cfg, s, e);
      } else if e.Send? || Environment(e) {
        OutsideGathers(cfg, s, e);
      } else {
        QueryGathers(cfg, s, e);
      }
    }
  }
}
