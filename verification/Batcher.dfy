/** `ReadBatcher` as a protocol: callers send chunks of keys through a bounded
    channel, one loop gathers them into batches, and every batch becomes a query that
    waits for a permit, reads the source and answers its requesters one by one. */
module Batcher {
  import opened Rows

  /** `soft_cap` and `batch_time_ms`; both are non-zero types in the options. */
  datatype Config = Config(softCap: nat, timeLimit: nat)

  const CAPACITY: nat := 50

  predicate ValidConfig(cfg: Config) {
    cfg.softCap > 0 && cfg.timeLimit > 0
  }

  /** Chunk number `chunk` of the `call`-th call of `batch`. */
  datatype Id = Id(call: nat, chunk: nat)

  datatype Request = Request(id: Id, keys: seq<Key>)

  /** The batch being gathered; `admitted` records when each requester joined. */
  datatype Batch = Batch(keys: set<Key>, requesters: seq<Id>, admitted: seq<nat>)

  /** `None` for the rows stands for an error of the source. `at` is the moment of
      the read. */
  datatype Answer = Answer(rows: Option<Table>, asked: set<Key>, at: nat)

  datatype Stage =
    | Pending                                   // spawned, waiting for a permit
    | Reading                                   // holds a permit
    | Replying(answer: Answer, todo: seq<Id>)   // holds a permit
    | Finished

  datatype Query = Query(batch: Batch, due: nat, stage: Stage)

  /** Where the loop is: about to test the batch, asleep in `select!` until `alarm` or
      a chunk, asleep until a chunk, or gone. */
  datatype Pc = Head | Selecting(alarm: nat) | Receiving | Stopped

  datatype Loop = Loop(pc: Pc, batch: Option<Batch>, deadline: nat, queries: seq<Query>)

  /** One call of `batch`: its keys, how many chunks it has sent, and the moment of
      its first send. */
  datatype Call = Call(keys: seq<Key>, sent: nat, since: nat)

  datatype State = State(
    clock: nat,
    log: seq<Table>,            // the source at each moment so far; the last is now
    calls: seq<Call>,
    queue: seq<Request>,        // the channel
    open: bool,                 // some sender is alive
    loop: Loop,
    permits: nat,
    elsewhere: nat,             // permits held by other users of the semaphore
    answers: map<Id, Answer>)

  // ---------------------------------------------------------------- chunks

  function Chunks(keys: seq<Key>, cap: nat): seq<seq<Key>>
    requires cap > 0
    decreases |keys|
  {
    if keys == [] then []
    else if |keys| <= cap then [keys]
    else [keys[..cap]] + Chunks(keys[cap..], cap)
  }

  /** No chunk is empty or longer than the cap, and all but the last are as long as that. */
  lemma {:induction false} ChunkSizes(keys: seq<Key>, cap: nat)
    requires cap > 0
    ensures forall j :: 0 <= j < |Chunks(keys, cap)| ==> 1 <= |Chunks(keys, cap)[j]| <= cap
    ensures forall j :: 0 <= j < |Chunks(keys, cap)| - 1 ==> |Chunks(keys, cap)[j]| == cap
    decreases |keys|
  {
    if |keys| > cap {
      ChunkSizes(keys[cap..], cap);
    }
  }

  function Flatten<T>(ss: seq<seq<T>>): seq<T> {
    if ss == [] then [] else ss[0] + Flatten(ss[1..])
  }

  /** The chunks put together are the keys again, in order. */
  lemma {:induction false} ChunksConcatenate(keys: seq<Key>, cap: nat)
    requires cap > 0
    ensures Flatten(Chunks(keys, cap)) == keys
    decreases |keys|
  {
    if |keys| > cap {
      var rest := Chunks(keys[cap..], cap);
      ChunksConcatenate(keys[cap..], cap);
      assert Chunks(keys, cap)[1..] == rest;
      assert keys == keys[..cap] + keys[cap..];
    } else if keys != [] {
      assert Chunks(keys, cap) == [keys];
      assert [keys][1..] == [];
    }
  }

  function ChunksOf(cfg: Config, call: Call): seq<seq<Key>>
    requires ValidConfig(cfg)
  {
    Chunks(call.keys, cfg.softCap)
  }

  function Elements<T>(s: seq<T>): set<T> {
    set x | x in s
  }

  // ------------------------------------------------------ the reader loop

  /** `send_query`: the batch becomes a spawned query. */
  function SendQuery(l: Loop): Loop
    requires l.batch.Some?
  {
    l.(batch := None, queries := l.queries + [Query(l.batch.value, l.deadline, Pending)])
  }

  /** The top of the loop. */
  function AtHead(l: Loop, now: nat): Loop {
    if l.batch.None? then l.(pc := Receiving)
    else if l.deadline < now then SendQuery(l)
    else l.(pc := Selecting(l.deadline))
  }

  /** The batch a chunk joins: the current one, or a new one with its own deadline. */
  function Joined(cfg: Config, l: Loop, now: nat): (Batch, nat) {
    match l.batch
    case Some(b) => (b, l.deadline)
    case None => (Batch({}, [], []), now + cfg.timeLimit)
  }

  function Extend(b: Batch, req: Request, now: nat): Batch {
    Batch(b.keys + Elements(req.keys), b.requesters + [req.id], b.admitted + [now])
  }

  /** `poll_chunks` got a chunk: it joins, and a batch that reached the soft cap goes. */
  function OnChunk(cfg: Config, l: Loop, req: Request, now: nat): Loop {
    var (cur, deadline) := Joined(cfg, l, now);
    var b := Extend(cur, req, now);
    var l1 := Loop(Head, Some(b), deadline, l.queries);
    if |b.keys| >= cfg.softCap then SendQuery(l1) else l1
  }

  /** The channel is closed and empty: flush what is left and leave. */
  function OnClosed(l: Loop): Loop {
    (if l.batch.Some? then SendQuery(l) else l).(pc := Stopped)
  }

  function OnAlarm(l: Loop): Loop
    requires l.batch.Some?
  {
    SendQuery(l).(pc := Head)
  }

  // -------------------------------------------------------------- the steps

  datatype Event =
    | Tick(d: nat)               // time passes
    | Change(t: Table)           // somebody else changes the source
    | StartCall(keys: seq<Key>)
    | Close                      // the last sender is dropped
    | TakeElsewhere              // another user of the semaphore takes a permit
    | ReturnElsewhere
    | Send(c: nat)
    | TestBatch
    | Receive
    | ReceiveNone
    | Alarm
    | Acquire(q: nat)
    | ReadSource(q: nat, ok: bool)
    | Reply(q: nat)
    | Release(q: nat)

  predicate Environment(e: Event) {
    e.Tick? || e.Change? || e.StartCall? || e.Close? || e.TakeElsewhere? || e.ReturnElsewhere?
  }

  predicate AllSent(cfg: Config, calls: seq<Call>)
    requires ValidConfig(cfg)
  {
    forall c :: 0 <= c < |calls| ==> calls[c].sent == |ChunksOf(cfg, calls[c])|
  }

  predicate Enabled(cfg: Config, s: State, e: Event)
    requires ValidConfig(cfg)
  {
    match e
    case Tick(_) => true
    case Change(_) => true
    case StartCall(_) => s.open
    case Close => s.open && AllSent(cfg, s.calls)
    case TakeElsewhere => s.permits > 0
    case ReturnElsewhere => s.elsewhere > 0
    case Send(c) => s.open && c < |s.calls| && s.calls[c].sent < |ChunksOf(cfg, s.calls[c])| && |s.queue| < CAPACITY
    case TestBatch => s.loop.pc.Head?
    case Receive => (s.loop.pc.Selecting? || s.loop.pc.Receiving?) && s.queue != []
    case ReceiveNone => (s.loop.pc.Selecting? || s.loop.pc.Receiving?) && s.queue == [] && !s.open
    case Alarm => s.loop.pc.Selecting? && s.loop.batch.Some? && s.loop.pc.alarm <= s.clock
    case Acquire(q) => q < |s.loop.queries| && s.loop.queries[q].stage.Pending? && s.permits > 0
    case ReadSource(q, _) => q < |s.loop.queries| && s.loop.queries[q].stage.Reading? && s.log != []
    case Reply(q) => q < |s.loop.queries| && s.loop.queries[q].stage.Replying? && s.loop.queries[q].stage.todo != []
    case Release(q) => q < |s.loop.queries| && s.loop.queries[q].stage.Replying? && s.loop.queries[q].stage.todo == []
  }

  function WithStage(s: State, q: nat, stage: Stage): State
    requires q < |s.loop.queries|
  {
    s.(loop := s.loop.(queries := s.loop.queries[q := s.loop.queries[q].(stage := stage)]))
  }

  function ReadRows(t: Table, keys: set<Key>): Table {
    map k | k in keys && k in t :: t[k]
  }

  function Step(cfg: Config, s: State, e: Event): State
    requires ValidConfig(cfg) && Enabled(cfg, s, e)
  {
    match e
    case Tick(d) => s.(clock := s.clock + d)
    case Change(t) => s.(log := s.log + [t])
    case StartCall(keys) => s.(calls := s.calls + [Call(keys, 0, 0)])
    case Close => s.(open := false)
    case TakeElsewhere => s.(permits := s.permits - 1, elsewhere := s.elsewhere + 1)
    case ReturnElsewhere => s.(permits := s.permits + 1, elsewhere := s.elsewhere - 1)
    case Send(c) =>
      var call := s.calls[c];
      var since := if call.sent == 0 && s.log != [] then |s.log| - 1 else call.since;
      s.(queue := s.queue + [Request(Id(c, call.sent), ChunksOf(cfg, call)[call.sent])],
         calls := s.calls[c := Call(call.keys, call.sent + 1, since)])
    case TestBatch => s.(loop := AtHead(s.loop, s.clock))
    case Receive => s.(loop := OnChunk(cfg, s.loop, s.queue[0], s.clock), queue := s.queue[1..])
    case ReceiveNone => s.(loop := OnClosed(s.loop))
    case Alarm => s.(loop := OnAlarm(s.loop))
    case Acquire(q) => WithStage(s, q, Reading).(permits := s.permits - 1)
    case ReadSource(q, ok) =>
      var b := s.loop.queries[q].batch;
      var rows := if ok then Some(ReadRows(s.log[|s.log| - 1], b.keys)) else None;
      WithStage(s, q, Replying(Answer(rows, b.keys, |s.log| - 1), b.requesters))
    case Reply(q) =>
      var stage := s.loop.queries[q].stage;
      WithStage(s, q, Replying(stage.answer, stage.todo[1..])).(answers := s.answers[stage.todo[0] := stage.answer])
    case Release(q) => WithStage(s, q, Finished).(permits := s.permits + 1)
  }

  /** A batcher just started over a source, with the semaphore's permits. */
  predicate Start(s: State, permits: nat) {
    && |s.log| == 1
    && s.calls == [] && s.queue == [] && s.open && s.answers == map[]
    && s.loop == Loop(Head, None, s.clock, [])
    && s.permits + s.elsewhere == permits
  }

  ghost predicate IsTrace(cfg: Config, ss: seq<State>, es: seq<Event>)
    requires ValidConfig(cfg)
  {
    && |ss| == |es| + 1
    && forall i {:trigger es[i]} :: 0 <= i < |es| ==> Enabled(cfg, ss[i], es[i]) && ss[i + 1] == Step(cfg, ss[i], es[i])
  }
}
