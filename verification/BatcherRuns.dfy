/** Whole runs of the batcher: when a call begins, when batches are sent, and that every run
    can go on until all its calls are answered. */
module BatcherRuns {
  import opened Rows
  import opened Batcher
  import opened BatcherSafety
  import opened BatchedRead
  import opened BatcherProgress
  import opened BatcherAnswers
  import ReaderLoop

  // ------------------------------------------------------------- outside

  /** Time passes and the source changes at will; calls come while a sender is left, and the
      last sender is dropped only when every call has sent its chunks; free permits are taken
      by others and given back. */
  lemma OutsideMoves(cfg: Config, s: State, d: nat, t: Table, keys: seq<Key>)
    requires ValidConfig(cfg)
    ensures Enabled(cfg, s, Tick(d)) && Step(cfg, s, Tick(d)).clock == s.clock + d
    ensures Enabled(cfg, s, Change(t)) && Step(cfg, s, Change(t)).log == s.log + [t]
    ensures Enabled(cfg, s, StartCall(keys)) <==> s.open
    ensures s.open ==> Step(cfg, s, StartCall(keys)).calls == s.calls + [Call(keys, 0, 0)]
    ensures Enabled(cfg, s, Close) <==> s.open && AllSent(cfg, s.calls)
    ensures Enabled(cfg, s, Close) ==> !Step(cfg, s, Close).open
    ensures Enabled(cfg, s, TakeElsewhere) <==> s.permits > 0
    ensures s.permits > 0 ==> Step(cfg, s, TakeElsewhere).elsewhere == s.elsewhere + 1
    ensures Enabled(cfg, s, ReturnElsewhere) <==> s.elsewhere > 0
    ensures s.elsewhere > 0 ==> Step(cfg, s, ReturnElsewhere).elsewhere == s.elsewhere - 1
  {
  }

  /** What a call sends are requests as the loop expects them. */
  lemma ChunksAreRequests(cfg: Config, call: Call, id: Id)
    requires ValidConfig(cfg) && id.chunk < |ChunksOf(cfg, call)|
    ensures ReaderLoop.IsChunk(cfg, Request(id, ChunksOf(cfg, call)[id.chunk]))
  {
    ChunkSizes(call.keys, cfg.softCap);
  }

  // ---------------------------------------------------- when a call begins

  lemma SinceStays(cfg: Config, s: State, e: Event, c: nat)
    requires ValidConfig(cfg) && Enabled(cfg, s, e) && c < |s.calls| && s.calls[c].sent > 0
    ensures var v := Step(cfg, s, e);
      c < |v.calls| && v.calls[c].sent > 0 && v.calls[c].since == s.calls[c].since
  {
  }

  /** `since`, from which answers are fresh, is the moment the call sent its first chunk. */
  lemma {:induction false} SinceFirstSend(cfg: Config, ss: seq<State>, es: seq<Event>, permits: nat, m: nat, n: nat, c: nat)
    requires ValidConfig(cfg) && IsTrace(cfg, ss, es) && Start(ss[0], permits) && m < n < |ss|
    requires es[m] == Send(c) && c < |ss[m].calls| && ss[m].calls[c].sent == 0
    ensures c < |ss[n].calls| && ss[n].calls[c].sent > 0 && ss[n].calls[c].since == |ss[m].log| - 1
  {
    if n == m + 1 {
      LogNeverEmpty(cfg, ss, es, permits, m);
      assert ss[m + 1] == Step(cfg, ss[m], es[m]);
    } else {
      hide Step, Enabled;
      SinceFirstSend(cfg, ss, es, permits, m, n - 1, c);
      assert ss[n - 1 + 1] == Step(cfg, ss[n - 1], es[n - 1]);
      SinceStays(cfg, ss[n - 1], es[n - 1], c);
    }
  }

  // ------------------------------------------------- when batches are sent

  lemma OneSent(cfg: Config, s: State, e: Event)
    requires ValidConfig(cfg) && WellGathered(cfg, s) && Enabled(cfg, s, e)
    ensures var v := Step(cfg, s, e);
      && |s.loop.queries| <= |v.loop.queries| <= |s.loop.queries| + 1
      && (|v.loop.queries| > |s.loop.queries| ==>
            var q := v.loop.queries[|s.loop.queries|];
            q.stage.Pending? && (|q.batch.keys| >= cfg.softCap || q.due <= s.clock || (!s.open && s.queue == [])))
  {
  }

  /** A batch is sent only when it is full, when its deadline has come, or when the channel
      is closed and empty. */
  lemma SentWhenRipe(cfg: Config, ss: seq<State>, es: seq<Event>, permits: nat, n: nat)
    requires ValidConfig(cfg) && IsTrace(cfg, ss, es) && Start(ss[0], permits) && n < |es|
    ensures var before, after := ss[n].loop.queries, ss[n + 1].loop.queries;
      && |before| <= |after| <= |before| + 1
      && (|after| > |before| ==>
            var q := after[|before|];
            |q.batch.keys| >= cfg.softCap || q.due <= ss[n].clock || (!ss[n].open && ss[n].queue == []))
  {
    hide Step, Enabled;
    AlwaysWellGathered(cfg, ss, es, permits, n);
    assert ss[n + 1] == Step(cfg, ss[n], es[n]);
    OneSent(cfg, ss[n], es[n]);
  }

  // ------------------------------------------------------- coming to rest

  lemma TraceSnoc(cfg: Config, ss: seq<State>, es: seq<Event>, e: Event, v: State)
    requires ValidConfig(cfg) && IsTrace(cfg, ss, es)
    requires Enabled(cfg, ss[|es|], e) && v == Step(cfg, ss[|es|], e)
    ensures IsTrace(cfg, ss + [v], es + [e])
  {
    hide Step, Enabled;
    var us, ds := ss + [v], es + [e];
    forall i | 0 <= i < |ds| ensures Enabled(cfg, us[i], ds[i]) && us[i + 1] == Step(cfg, us[i], ds[i]) {
      if i < |es| {
        assert ds[i] == es[i];
      }
    }
  }

  /** The same calls, source and outside users. */
  ghost predicate SameOutside(s: State, v: State) {
    && v.log == s.log && v.elsewhere == s.elsewhere && |v.calls| == |s.calls|
    && forall c :: 0 <= c < |s.calls| ==> v.calls[c].keys == s.calls[c].keys
  }

  /** Time passes, or the batcher and its callers move; no read fails. */
  predicate Onward(e: Event) {
    e.Tick? || (!Environment(e) && (e.ReadSource? ==> e.ok))
  }

  lemma OnwardSame(cfg: Config, s: State, e: Event)
    requires ValidConfig(cfg) && Enabled(cfg, s, e) && Onward(e)
    ensures SameOutside(s, Step(cfg, s, e))
  {
  }

  /** Unless the batcher is at rest, some step brings it nearer, perhaps after waiting for
      the alarm. */
  lemma NextSteps(cfg: Config, s: State) returns (wait: bool, d: nat, e: Event)
    requires ValidConfig(cfg) && WellGathered(cfg, s) && !AtRest(cfg, s)
    ensures Onward(e) && !Environment(e)
    ensures var w := if wait then Step(cfg, s, Tick(d)) else s;
      Enabled(cfg, w, e) && Work(cfg, Step(cfg, w, e)) < Work(cfg, s)
  {
    if e0 :| Enabled(cfg, s, e0) && !Environment(e0) {
      wait, d := false, 0;
      e := if e0.ReadSource? then ReadSource(e0.q, true) else e0;
      StepWorks(cfg, s, e);
    } else {
      wait, d, e := true, s.loop.pc.alarm - s.clock, Alarm;
      var w := Step(cfg, s, Tick(d));
      OutsideGathers(cfg, s, Tick(d));
      EnvironmentWork(cfg, s, Tick(d));
      StepWorks(cfg, w, Alarm);
    }
  }

  /** Every run can go on, without another call and with no read failing, until the batcher
      is at rest. */
  lemma {:induction false} ComesToRest(cfg: Config, ss: seq<State>, es: seq<Event>, permits: nat)
    returns (ts: seq<State>, ds: seq<Event>)
    requires ValidConfig(cfg) && IsTrace(cfg, ss, es) && Start(ss[0], permits)
    ensures |ts| == |ds| && IsTrace(cfg, ss + ts, es + ds) && forall e :: e in ds ==> Onward(e)
    ensures var v := (ss + ts)[|es| + |ds|]; AtRest(cfg, v) && SameOutside(ss[|es|], v)
    decreases Work(cfg, ss[|es|])
  {
    hide Step, Enabled, Work, AtRest, WellGathered;
    var s := ss[|es|];
    AlwaysWellGathered(cfg, ss, es, permits, |es|);
    if AtRest(cfg, s) {
      ts, ds := [], [];
      assert ss + [] == ss && es + [] == es;
    } else {
      var wait, d, e := NextSteps(cfg, s);
      var us, cs, w := ss, es, s;
      if wait {
        TickEnabled(cfg, s, d);
        w := Step(cfg, s, Tick(d));
        OnwardSame(cfg, s, Tick(d));
        TraceSnoc(cfg, ss, es, Tick(d), w);
        us, cs := ss + [w], es + [Tick(d)];
      }
      var v := Step(cfg, w, e);
      OnwardSame(cfg, w, e);
      TraceSnoc(cfg, us, cs, e, v);
      var more, rest := ComesToRest(cfg, us + [v], cs + [e], permits);
      ts := us[|ss|..] + [v] + more;
      ds := cs[|es|..] + [e] + rest;
      assert ss + ts == us + [v] + more && es + ds == cs + [e] + rest;
    }
  }

  lemma TickEnabled(cfg: Config, s: State, d: nat)
    requires ValidConfig(cfg)
    ensures Enabled(cfg, s, Tick(d))
  {
  }

  /** A run without failed reads, of a batcher whose permits are not all held by others, can
      go on until every call has all its chunks answered with rows. */
  lemma EveryCallServable(cfg: Config, ss: seq<State>, es: seq<Event>, permits: nat)
    returns (ts: seq<State>, ds: seq<Event>)
    requires ValidConfig(cfg) && IsTrace(cfg, ss, es) && Start(ss[0], permits)
    requires ss[|es|].elsewhere < permits && ReadsSucceed(es, |es|)
    ensures |ts| == |ds| && IsTrace(cfg, ss + ts, es + ds) && forall e :: e in ds ==> Onward(e)
    ensures var v := (ss + ts)[|es| + |ds|];
      SameOutside(ss[|es|], v) && forall c :: 0 <= c < |v.calls| ==> Complete(cfg, v, c)
  {
    hide Step, Enabled, AtRest, Complete;
    ts, ds := ComesToRest(cfg, ss, es, permits);
    var n := |es| + |ds|;
    forall i | 0 <= i < n && (es + ds)[i].ReadSource? ensures (es + ds)[i].ok {
      if i < |es| {
        assert es[i] == (es + ds)[i];
      } else {
        assert (es + ds)[i] in ds;
      }
    }
    assert (ss + ts)[0] == ss[0];
    forall c | 0 <= c < |(ss + ts)[n].calls| ensures Complete(cfg, (ss + ts)[n], c) {
      RestMeansComplete(cfg, ss + ts, es + ds, permits, n, c);
    }
  }
}
