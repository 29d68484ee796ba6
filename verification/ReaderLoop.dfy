/** The batcher's loop in place: `batch_info` and `batch_deadline` are variables that
    the polling code and the deadline test change. */
module ReaderLoop {
  import opened Rows
  import opened Batcher
  import opened BatcherSafety

  // ------------------------------------------------ what the loop owes

  /** The keys of several requests together. */
  function KeysAsked(reqs: seq<Request>): set<Key> {
    if reqs == [] then {} else KeysAsked(reqs[..|reqs| - 1]) + Elements(reqs[|reqs| - 1].keys)
  }

  /** The batch stands for exactly these requests: their requesters in order, the keys they
      asked for, a deadline fixed by the first of them, only the last of them possibly
      late, and not yet full before the last of them came. */
  ghost predicate Gathers(cfg: Config, b: Batch, due: nat, reqs: seq<Request>) {
    && reqs != [] && |b.admitted| == |reqs|
    && b.requesters == Ids(reqs) && b.keys == KeysAsked(reqs)
    && due == b.admitted[0] + cfg.timeLimit && PunctualButLast(b, due)
    && |KeysAsked(reqs[..|reqs| - 1])| < cfg.softCap
  }

  /** A query for exactly these requests, of bounded size. */
  ghost predicate Serves(cfg: Config, q: Query, reqs: seq<Request>) {
    Gathers(cfg, q.batch, q.due, reqs) && 1 <= |q.batch.keys| < 2 * cfg.softCap
  }

  /** A batch is sent once it is full or its deadline has come. */
  predicate Ripe(cfg: Config, q: Query, sentAt: nat) {
    |q.batch.keys| >= cfg.softCap || sentAt >= q.due
  }

  /** What `batch` sends: between one key and the soft cap. */
  predicate IsChunk(cfg: Config, req: Request) {
    1 <= |req.keys| <= cfg.softCap
  }

  lemma {:induction false} FlattenSnoc<T>(ss: seq<seq<T>>, s: seq<T>)
    ensures Flatten(ss + [s]) == Flatten(ss) + s
  {
    if ss == [] {
      assert [] + [s] == [s];
      assert Flatten([s]) == s + Flatten([s][1..]);
    } else {
      assert (ss + [s])[1..] == ss[1..] + [s];
      FlattenSnoc(ss[1..], s);
    }
  }

  lemma AskedPlus(cfg: Config, reqs: seq<Request>, req: Request)
    requires IsChunk(cfg, req)
    ensures KeysAsked(reqs + [req]) == KeysAsked(reqs) + Elements(req.keys)
    ensures 1 <= |KeysAsked(reqs + [req])| <= |KeysAsked(reqs)| + cfg.softCap
    ensures Ids(reqs + [req]) == Ids(reqs) + [req.id]
  {
    assert (reqs + [req])[..|reqs|] == reqs;
    ElementsSize(req.keys);
    UnionSize(KeysAsked(reqs), Elements(req.keys));
    assert req.keys[0] in KeysAsked(reqs + [req]);
  }

  /** One request more joins the batch, which was not late for its deadline when the loop
      went to sleep. */
  lemma JoinGathers(cfg: Config, l: Loop, reqs: seq<Request>, req: Request, now: nat)
    requires ValidConfig(cfg) && IsChunk(cfg, req) && Collecting(cfg, l.batch, l.deadline, reqs, now)
    requires l.batch.Some? ==> forall time :: time in l.batch.value.admitted ==> time <= l.deadline
    ensures var (cur, due) := Joined(cfg, l, now); var b := Extend(cur, req, now);
      && Gathers(cfg, b, due, reqs + [req]) && 1 <= |b.keys| < 2 * cfg.softCap
      && forall time :: time in b.admitted ==> time <= now
  {
    AskedPlus(cfg, reqs, req);
    assert (reqs + [req])[..|reqs|] == reqs;
    var (cur, due) := Joined(cfg, l, now);
    assert forall i :: 0 <= i < |cur.admitted| ==> cur.admitted[i] in cur.admitted;
  }

  lemma ServedPlus(cfg: Config, qs: seq<Query>, served: seq<seq<Request>>, sentAt: seq<nat>, q: Query, reqs: seq<Request>, at: nat)
    requires AllServed(cfg, qs, served, sentAt) && Serves(cfg, q, reqs) && Ripe(cfg, q, at)
    ensures AllServed(cfg, qs + [q], served + [reqs], sentAt + [at])
  {
  }

  /** The current batch stands for the requests gathered since the last query, and is not
      full. */
  ghost predicate Collecting(cfg: Config, batch: Option<Batch>, due: nat, reqs: seq<Request>, clock: nat) {
    match batch
    case None => reqs == []
    case Some(b) =>
      && Gathers(cfg, b, due, reqs) && 1 <= |b.keys| < cfg.softCap
      && forall time :: time in b.admitted ==> time <= clock
  }

  /** Each query serves its requests and was sent when it was ripe. */
  ghost predicate AllServed(cfg: Config, qs: seq<Query>, served: seq<seq<Request>>, sentAt: seq<nat>) {
    && |served| == |sentAt| == |qs|
    && forall i :: 0 <= i < |qs| ==> Serves(cfg, qs[i], served[i]) && Ripe(cfg, qs[i], sentAt[i])
  }

  // ------------------------------------------------------------ the loop

  class BatchLoop {
    var batchInfo: Option<Batch>
    var batchDeadline: nat
    /** The queries spawned so far. */
    var queries: seq<Query>
    var pc: Pc
    /** The requests each query serves, when it was sent, and the requests since. */
    ghost var served: seq<seq<Request>>
    ghost var sentAt: seq<nat>
    ghost var gathered: seq<Request>

    ghost function State(): Loop
      reads this
    {
      Loop(pc, batchInfo, batchDeadline, queries)
    }

    /** `handled` are the requests received up to now: every one of them is served by
        exactly one query or waits in the current batch. */
    ghost predicate Keeps(cfg: Config, handled: seq<Request>, clock: nat)
      reads this
    {
      && Flatten(served) + gathered == handled
      && AllServed(cfg, queries, served, sentAt)
      && Collecting(cfg, batchInfo, batchDeadline, gathered, clock)
      && (pc.Selecting? ==> batchInfo.Some? && pc.alarm == batchDeadline)
      && (pc.Selecting? ==> forall time :: time in batchInfo.value.admitted ==> time <= batchDeadline)
      && (pc.Receiving? ==> batchInfo.None?)
    }

    constructor (cfg: Config, now: nat)
      ensures State() == Loop(Head, None, now, []) && Keeps(cfg, [], now)
    {
      batchInfo, batchDeadline, queries, pc := None, now, [], Head;
      served, sentAt, gathered := [], [], [];
    }

    /** The batch becomes one more query. */
    method SpawnQuery(now: nat)
      requires batchInfo.Some?
      modifies this
      ensures State() == SendQuery(old(State()))
      ensures served == old(served) + [old(gathered)] && sentAt == old(sentAt) + [now] && gathered == []
      ensures Flatten(served) == Flatten(old(served)) + old(gathered)
    {
      queries := queries + [Query(batchInfo.value, batchDeadline, Pending)];
      batchInfo := None;
      FlattenSnoc(served, gathered);
      served, sentAt, gathered := served + [gathered], sentAt + [now], [];
    }

    /** The test before the loop goes to sleep: a batch past its deadline is sent. */
    method TestDeadline(cfg: Config, ghost handled: seq<Request>, now: nat)
      requires pc.Head? && Keeps(cfg, handled, now)
      modifies this
      ensures State() == AtHead(old(State()), now) && Keeps(cfg, handled, now)
      ensures pc.Head? ==> old(batchInfo).Some? && batchInfo.None?
      ensures !pc.Head? ==> (pc.Selecting? || pc.Receiving?) && batchInfo == old(batchInfo)
    {
      hide Flatten, Gathers;
      if batchInfo.Some? {
        if batchDeadline < now {
          ServedPlus(cfg, queries, served, sentAt, Query(batchInfo.value, batchDeadline, Pending), gathered, now);
          SpawnQuery(now);
        } else {
          pc := Selecting(batchDeadline);
        }
      } else {
        pc := Receiving;
      }
    }

    /** The alarm rings at the batch's deadline or later. */
    method AlarmRings(cfg: Config, ghost handled: seq<Request>, now: nat)
      requires pc.Selecting? && pc.alarm <= now && Keeps(cfg, handled, now)
      modifies this
      ensures State() == OnAlarm(old(State())) && Keeps(cfg, handled, now)
      ensures old(batchInfo).Some? && batchInfo.None? && pc.Head?
    {
      hide Flatten, Gathers;
      ServedPlus(cfg, queries, served, sentAt, Query(batchInfo.value, batchDeadline, Pending), gathered, now);
      SpawnQuery(now);
      pc := Head;
    }

    /** `poll_chunks`, a request has come: it is handled, and a full batch is sent. */
    method TakeRequest(cfg: Config, ghost handled: seq<Request>, request: Request, now: nat)
      requires ValidConfig(cfg) && IsChunk(cfg, request)
      requires (pc.Selecting? || pc.Receiving?) && Keeps(cfg, handled, now)
      modifies this
      ensures State() == OnChunk(cfg, old(State()), request, now) && Keeps(cfg, handled + [request], now)
      ensures pc.Head?
    {
      hide Flatten, Gathers;
      JoinGathers(cfg, State(), gathered, request, now);
      if batchInfo.None? {
        batchDeadline := now + cfg.timeLimit;
        batchInfo := Some(Batch({}, [], []));
      }
      var info := batchInfo.value;
      var chunk := info.keys + Elements(request.keys);
      batchInfo := Some(Batch(chunk, info.requesters + [request.id], info.admitted + [now]));
      gathered := gathered + [request];
      pc := Head;
      assert Flatten(served) + gathered == handled + [request];
      if |chunk| >= cfg.softCap {
        ServedPlus(cfg, queries, served, sentAt, Query(batchInfo.value, batchDeadline, Pending), gathered, now);
        SpawnQuery(now);
      }
    }

    /** The channel is closed and empty: what has been gathered is not lost. */
    method Leave(cfg: Config, ghost handled: seq<Request>, now: nat)
      requires Keeps(cfg, handled, now)
      modifies this
      ensures State() == OnClosed(old(State())) && pc.Stopped? && batchInfo.None?
      ensures Flatten(served) == handled && |served| == |sentAt| == |queries|
      ensures forall i :: 0 <= i < |queries| ==> Serves(cfg, queries[i], served[i])
      ensures forall i :: 0 <= i < |queries| - 1 ==> Ripe(cfg, queries[i], sentAt[i])
    {
      hide Flatten, Gathers;
      if batchInfo.Some? {
        SpawnQuery(now);
      }
      pc := Stopped;
    }

    lemma KeepsOnward(cfg: Config, handled: seq<Request>, clock: nat, later: nat)
      requires Keeps(cfg, handled, clock) && clock <= later
      ensures Keeps(cfg, handled, later)
    {
    }

    /** The clock, read after `earlier`. */
    method ReadClock(earlier: nat) returns (now: nat)
      ensures earlier <= now
    {
      var elapsed: int := *;
      now := if elapsed < 0 then earlier else earlier + elapsed;
    }

    /** The reader loop over the requests that come through the channel until it is closed.
        Time passes as it likes, and when a request and the alarm are both possible either
        may win. Whatever happens, every request is served by exactly one query, in order;
        no query has twice the soft cap of keys; all but the last are sent full or at their
        deadline, and none is lost when the channel closes. */
    method Run(cfg: Config, requests: seq<Request>, start: nat)
      requires ValidConfig(cfg) && forall req :: req in requests ==> IsChunk(cfg, req)
      requires pc.Head? && Keeps(cfg, [], start)
      modifies this
      ensures pc.Stopped? && batchInfo.None?
      ensures Flatten(served) == requests && |served| == |sentAt| == |queries|
      ensures forall i :: 0 <= i < |queries| ==> Serves(cfg, queries[i], served[i])
      ensures forall i :: 0 <= i < |queries| - 1 ==> Ripe(cfg, queries[i], sentAt[i])
    {
      hide Keeps, AtHead, OnAlarm, OnChunk, OnClosed, Flatten, Serves, Ripe;
      var clock: nat, received: nat := start, 0;
      while true
        invariant pc.Head? && received <= |requests| && Keeps(cfg, requests[..received], clock)
        decreases |requests| - received, if batchInfo.Some? then 1 else 0
      {
        ghost var handled := requests[..received];
        var now := ReadClock(clock);
        KeepsOnward(cfg, handled, clock, now);
        TestDeadline(cfg, handled, now);
        clock := now;
        if pc.Head? {
          continue;
        }
        now := ReadClock(clock);
        var alarmWins: bool := *;
        if pc.Selecting? && alarmWins {
          now := if now < pc.alarm then pc.alarm else now;
          KeepsOnward(cfg, handled, clock, now);
          AlarmRings(cfg, handled, now);
        } else {
          KeepsOnward(cfg, handled, clock, now);
          if received == |requests| {
            assert handled == requests;
            Leave(cfg, handled, now);
            break;
          }
          assert handled + [requests[received]] == requests[..received + 1];
          TakeRequest(cfg, handled, requests[received], now);
          received := received + 1;
        }
        clock := now;
      }
    }
  }
}
