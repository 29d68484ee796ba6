/** The batcher gets everything done: its own steps cannot go on for ever, and it can
    only come to rest once every chunk of every call is answered. */
module BatcherProgress {
  import opened Rows
  import opened Batcher
  import opened BatcherSafety

  // --------------------------------------------------------------- permits

  function Holds(q: Query): nat {
    if q.stage.Reading? || q.stage.Replying? then 1 else 0
  }

  function Held(qs: seq<Query>): nat {
    if qs == [] then 0 else Holds(qs[0]) + Held(qs[1..])
  }

  lemma {:induction false} HeldAppend(qs: seq<Query>, q: Query)
    ensures Held(qs + [q]) == Held(qs) + Holds(q)
  {
    if qs == [] {
      assert [] + [q] == [q];
    } else {
      assert (qs + [q])[1..] == qs[1..] + [q];
      HeldAppend(qs[1..], q);
    }
  }

  lemma {:induction false} HeldUpdate(qs: seq<Query>, i: nat, q: Query)
    requires i < |qs|
    ensures Held(qs[i := q]) + Holds(qs[i]) == Held(qs) + Holds(q)
  {
    if i == 0 {
      assert qs[i := q][1..] == qs[1..];
    } else {
      assert qs[i := q][0] == qs[0] && qs[i := q][1..] == qs[1..][i - 1 := q];
      HeldUpdate(qs[1..], i - 1, q);
    }
  }

  lemma {:induction false} SomeHolder(qs: seq<Query>) returns (i: nat)
    requires Held(qs) > 0
    ensures i < |qs| && Holds(qs[i]) == 1
  {
    if Holds(qs[0]) == 1 {
      i := 0;
    } else {
      i := SomeHolder(qs[1..]);
      i := i + 1;
    }
  }

  /** What a step of the loop does to its queries: nothing, or one more, not started. */
  lemma LoopQueries(cfg: Config, s: State, e: Event)
    requires ValidConfig(cfg) && Enabled(cfg, s, e)
    requires e.TestBatch? || e.Receive? || e.ReceiveNone? || e.Alarm?
    ensures var v := Step(cfg, s, e);
      v.permits == s.permits && v.elsewhere == s.elsewhere &&
      (v.loop.queries == s.loop.queries
       || exists q: Query :: q.stage.Pending? && v.loop.queries == s.loop.queries + [q])
  {
  }

  lemma StepKeepsPermits(cfg: Config, s: State, e: Event)
    requires ValidConfig(cfg) && Enabled(cfg, s, e)
    ensures var v := Step(cfg, s, e);
      v.permits + Held(v.loop.queries) + v.elsewhere == s.permits + Held(s.loop.queries) + s.elsewhere
  {
    var v := Step(cfg, s, e);
    if e.TestBatch? || e.Receive? || e.ReceiveNone? || e.Alarm? {
      LoopQueries(cfg, s, e);
      if v.loop.queries != s.loop.queries {
        var q: Query :| q.stage.Pending? && v.loop.queries == s.loop.queries + [q];
        HeldAppend(s.loop.queries, q);
      }
    } else if e.Acquire? || e.ReadSource? || e.Reply? || e.Release? {
      HeldUpdate(s.loop.queries, e.q, v.loop.queries[e.q]);
    }
  }

  /** No permit is ever lost or invented. */
  lemma {:induction false} PermitsConserved(cfg: Config, ss: seq<State>, es: seq<Event>, permits: nat, n: nat)
    requires ValidConfig(cfg) && IsTrace(cfg, ss, es) && Start(ss[0], permits) && n < |ss|
    ensures ss[n].permits + Held(ss[n].loop.queries) + ss[n].elsewhere == permits
  {
    hide Step;
    if n > 0 {
      PermitsConserved(cfg, ss, es, permits, n - 1);
      StepKeepsPermits(cfg, ss[n - 1], es[n - 1]);
    }
  }

  // --------------------------------------------------------------- measure

  function Remaining(q: Query): nat {
    match q.stage
    case Pending => 3 + |q.batch.requesters|
    case Reading => 2 + |q.batch.requesters|
    case Replying(_, todo) => 1 + |todo|
    case Finished => 0
  }

  function RemainingAll(qs: seq<Query>): nat {
    if qs == [] then 0 else Remaining(qs[0]) + RemainingAll(qs[1..])
  }

  lemma {:induction false} RemainingAppend(qs: seq<Query>, q: Query)
    ensures RemainingAll(qs + [q]) == RemainingAll(qs) + Remaining(q)
  {
    if qs == [] {
      assert [] + [q] == [q];
    } else {
      assert (qs + [q])[1..] == qs[1..] + [q];
      RemainingAppend(qs[1..], q);
    }
  }

  lemma {:induction false} RemainingUpdate(qs: seq<Query>, i: nat, q: Query)
    requires i < |qs|
    ensures RemainingAll(qs[i := q]) + Remaining(qs[i]) == RemainingAll(qs) + Remaining(q)
  {
    if i == 0 {
      assert qs[i := q][1..] == qs[1..];
    } else {
      assert qs[i := q][0] == qs[0] && qs[i := q][1..] == qs[1..][i - 1 := q];
      RemainingUpdate(qs[1..], i - 1, q);
    }
  }

  /** Chunks the calls have still to send. */
  function Unsent(cfg: Config, calls: seq<Call>): nat
    requires ValidConfig(cfg)
  {
    if calls == [] then 0
    else
      var n := |ChunksOf(cfg, calls[0])|;
      (if calls[0].sent <= n then n - calls[0].sent else 0) + Unsent(cfg, calls[1..])
  }

  lemma {:induction false} UnsentDrops(cfg: Config, calls: seq<Call>, c: nat, call: Call)
    requires ValidConfig(cfg) && c < |calls|
    requires call.keys == calls[c].keys && call.sent == calls[c].sent + 1 <= |ChunksOf(cfg, call)|
    ensures Unsent(cfg, calls[c := call]) + 1 == Unsent(cfg, calls)
  {
    if c == 0 {
      assert calls[c := call][1..] == calls[1..];
    } else {
      assert calls[c := call][0] == calls[0] && calls[c := call][1..] == calls[1..][c - 1 := call];
      UnsentDrops(cfg, calls[1..], c - 1, call);
    }
  }

  function PcRank(pc: Pc): nat {
    match pc
    case Head => 2
    case Selecting(_) => 1
    case Receiving => 1
    case Stopped => 0
  }

  function LoopWork(l: Loop): nat {
    2 * ((if l.batch.Some? then 5 * |l.batch.value.requesters| else 0) + RemainingAll(l.queries)) + PcRank(l.pc)
  }

  /** Work still to do for everything asked so far. */
  function Work(cfg: Config, s: State): nat
    requires ValidConfig(cfg)
  {
    14 * Unsent(cfg, s.calls) + 12 * |s.queue| + LoopWork(s.loop)
  }

  lemma SendQueryWork(l: Loop)
    requires l.batch.Some? && l.batch.value.requesters != []
    ensures LoopWork(SendQuery(l)) + 2 <= LoopWork(l)
  {
    RemainingAppend(l.queries, Query(l.batch.value, l.deadline, Pending));
  }

  lemma OnChunkWork(cfg: Config, l: Loop, req: Request, now: nat)
    requires l.pc.Selecting? || l.pc.Receiving?
    ensures LoopWork(OnChunk(cfg, l, req, now)) < LoopWork(l) + 12
  {
    var (cur, deadline) := Joined(cfg, l, now);
    var b := Extend(cur, req, now);
    var l1 := Loop(Head, Some(b), deadline, l.queries);
    assert LoopWork(l1) == LoopWork(l) + 11;
    if |b.keys| >= cfg.softCap {
      SendQueryWork(l1);
    }
  }

  lemma LoopStepWorks(cfg: Config, s: State, e: Event)
    requires ValidConfig(cfg) && WellGathered(cfg, s) && Enabled(cfg, s, e)
    requires e.TestBatch? || e.Receive? || e.ReceiveNone? || e.Alarm?
    ensures Work(cfg, Step(cfg, s, e)) < Work(cfg, s)
  {
    if e.Receive? {
      OnChunkWork(cfg, s.loop, s.queue[0], s.clock);
    } else if s.loop.batch.Some? {
      SendQueryWork(s.loop);
    }
  }

  lemma QueryStepWorks(cfg: Config, s: State, e: Event)
    requires ValidConfig(cfg) && Enabled(cfg, s, e)
    requires e.Acquire? || e.ReadSource? || e.Reply? || e.Release?
    ensures Work(cfg, Step(cfg, s, e)) < Work(cfg, s)
  {
    RemainingUpdate(s.loop.queries, e.q, Step(cfg, s, e).loop.queries[e.q]);
  }

  lemma SendWorks(cfg: Config, s: State, c: nat)
    requires ValidConfig(cfg) && Enabled(cfg, s, Send(c))
    ensures Work(cfg, Step(cfg, s, Send(c))) < Work(cfg, s)
  {
    UnsentDrops(cfg, s.calls, c, Step(cfg, s, Send(c)).calls[c]);
  }

  /** Every step that is not the environment's brings the end nearer. */
  lemma StepWorks(cfg: Config, s: State, e: Event)
    requires ValidConfig(cfg) && WellGathered(cfg, s) && Enabled(cfg, s, e) && !Environment(e)
    ensures Work(cfg, Step(cfg, s, e)) < Work(cfg, s)
  {
    if e.Send? {
      SendWorks(cfg, s, e.c);
    } else if e.TestBatch? || e.Receive? || e.ReceiveNone? || e.Alarm? {
      LoopStepWorks(cfg, s, e);
    } else {
      QueryStepWorks(cfg, s, e);
    }
  }

  lemma EnvironmentWork(cfg: Config, s: State, e: Event)
    requires ValidConfig(cfg) && Enabled(cfg, s, e) && Environment(e) && !e.StartCall?
    ensures Work(cfg, Step(cfg, s, e)) == Work(cfg, s)
  {
  }

  /** How many of the events `m` up to `n` are not the environment's. */
  function OwnSteps(es: seq<Event>, m: nat, n: nat): nat
    requires m <= n <= |es|
  {
    if m == n then 0 else OwnSteps(es, m, n - 1) + (if Environment(es[n - 1]) then 0 else 1)
  }

  lemma OneStepWorks(cfg: Config, s: State, e: Event)
    requires ValidConfig(cfg) && WellGathered(cfg, s) && Enabled(cfg, s, e) && !e.StartCall?
    ensures Work(cfg, Step(cfg, s, e)) + (if Environment(e) then 0 else 1) <= Work(cfg, s)
  {
    if Environment(e) {
      EnvironmentWork(cfg, s, e);
    } else {
      StepWorks(cfg, s, e);
    }
  }

  lemma WorkAlong(cfg: Config, ss: seq<State>, es: seq<Event>, permits: nat, i: nat)
    requires ValidConfig(cfg) && IsTrace(cfg, ss, es) && Start(ss[0], permits) && i < |es| && !es[i].StartCall?
    ensures Work(cfg, ss[i + 1]) + (if Environment(es[i]) then 0 else 1) <= Work(cfg, ss[i])
  {
    hide Step, Work;
    AlwaysWellGathered(cfg, ss, es, permits, i);
    OneStepWorks(cfg, ss[i], es[i]);
  }

  /** While no new call starts, the batcher and its callers take no more steps than
      there was work when the last call started. */
  lemma {:induction false} OwnStepsBounded(cfg: Config, ss: seq<State>, es: seq<Event>, permits: nat, m: nat, n: nat)
    requires ValidConfig(cfg) && IsTrace(cfg, ss, es) && Start(ss[0], permits) && m <= n < |ss|
    requires forall i :: m <= i < n ==> !es[i].StartCall?
    ensures OwnSteps(es, m, n) + Work(cfg, ss[n]) <= Work(cfg, ss[m])
  {
    hide Enabled, Step, Work;
    if m < n {
      OwnStepsBounded(cfg, ss, es, permits, m, n - 1);
      WorkAlong(cfg, ss, es, permits, n - 1);
    }
  }

  // ------------------------------------------------------------------ rest

  /** Neither the callers nor the batcher can move, however long one waits. */
  ghost predicate AtRest(cfg: Config, s: State)
    requires ValidConfig(cfg)
  {
    && (forall e :: Enabled(cfg, s, e) ==> Environment(e))
    && (s.loop.pc.Selecting? ==> s.loop.pc.alarm <= s.clock)
  }

  lemma {:induction false} NothingOwed(qs: seq<Query>)
    requires forall q :: q in qs ==> Owed(q) == []
    ensures OwedAll(qs) == multiset{}
  {
    if qs != [] {
      assert qs[0] in qs;
      NothingOwed(qs[1..]);
    }
  }

  lemma RestingLoop(cfg: Config, s: State)
    requires ValidConfig(cfg) && WellGathered(cfg, s) && AtRest(cfg, s)
    ensures s.queue == [] && s.loop.batch.None? && AllSent(cfg, s.calls)
  {
    if s.loop.pc.Head? {
      assert Enabled(cfg, s, TestBatch);
    } else if s.loop.pc.Selecting? {
      assert Enabled(cfg, s, Alarm);
    } else {
      if s.queue != [] {
        assert Enabled(cfg, s, Receive);
      }
      forall c | 0 <= c < |s.calls|
        ensures s.calls[c].sent == |ChunksOf(cfg, s.calls[c])|
      {
        if s.open && s.calls[c].sent < |ChunksOf(cfg, s.calls[c])| {
          assert Enabled(cfg, s, Send(c));
        }
      }
    }
  }

  lemma HolderCanMove(cfg: Config, s: State, i: nat)
    requires ValidConfig(cfg) && s.log != [] && i < |s.loop.queries| && Holds(s.loop.queries[i]) == 1
    ensures exists e :: Enabled(cfg, s, e) && !Environment(e)
  {
    var q := s.loop.queries[i];
    if q.stage.Reading? {
      assert Enabled(cfg, s, ReadSource(i, true));
    } else if q.stage.todo != [] {
      assert Enabled(cfg, s, Reply(i));
    } else {
      assert Enabled(cfg, s, Release(i));
    }
  }

  lemma RestingQueries(cfg: Config, s: State)
    requires ValidConfig(cfg) && AtRest(cfg, s) && s.log != []
    requires s.permits + Held(s.loop.queries) > 0
    ensures OwedAll(s.loop.queries) == multiset{}
  {
    var qs := s.loop.queries;
    forall i | 0 <= i < |qs|
      ensures !qs[i].stage.Reading? && !qs[i].stage.Replying?
    {
      if Holds(qs[i]) == 1 {
        HolderCanMove(cfg, s, i);
      }
    }
    if s.permits == 0 {
      var i := SomeHolder(qs);
    }
    forall q | q in qs
      ensures Owed(q) == []
    {
      var i :| 0 <= i < |qs| && qs[i] == q;
      if q.stage.Pending? {
        assert Enabled(cfg, s, Acquire(i));
      }
    }
    NothingOwed(qs);
  }

  lemma {:induction false} LogNeverEmpty(cfg: Config, ss: seq<State>, es: seq<Event>, permits: nat, n: nat)
    requires ValidConfig(cfg) && IsTrace(cfg, ss, es) && Start(ss[0], permits) && n < |ss|
    ensures ss[n].log != []
  {
    if n > 0 {
      LogNeverEmpty(cfg, ss, es, permits, n - 1);
      assert ss[n - 1 + 1] == Step(cfg, ss[n - 1], es[n - 1]);
    }
  }

  /** Unless other users of the semaphore hold all its permits, a batcher that has come to
      rest has answered every chunk of every call, although calls send all their chunks
      through the bounded channel before they wait for any answer. */
  lemma RestMeansAnswered(cfg: Config, ss: seq<State>, es: seq<Event>, permits: nat, n: nat)
    requires ValidConfig(cfg) && IsTrace(cfg, ss, es) && Start(ss[0], permits) && n < |ss|
    requires ss[n].elsewhere < permits && AtRest(cfg, ss[n])
    ensures forall c, j :: 0 <= c < |ss[n].calls| && 0 <= j < |ChunksOf(cfg, ss[n].calls[c])| ==> Id(c, j) in ss[n].answers
  {
    var s := ss[n];
    AlwaysWellGathered(cfg, ss, es, permits, n);
    AnsweredExactlyOnce(cfg, ss, es, permits, n);
    PermitsConserved(cfg, ss, es, permits, n);
    LogNeverEmpty(cfg, ss, es, permits, n);
    RestingLoop(cfg, s);
    RestingQueries(cfg, s);
    assert Places(s) == multiset{};
    forall c, j | 0 <= c < |s.calls| && 0 <= j < |ChunksOf(cfg, s.calls[c])|
      ensures Id(c, j) in s.answers
    {
      assert Sent(s.calls, Id(c, j));
    }
  }
}
