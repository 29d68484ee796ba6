/** Exclusive row locks taken one after the other by concurrent transactions. */
module LockOrder {
  import opened Rows

  type Tx(==, !new)

  /** The values of the key columns, in declared order. */
  type KeyTuple = seq<int>

  // --------------------------------------------------------- the order of keys

  predicate Less(a: KeyTuple, b: KeyTuple) {
    a != [] && b != [] && (a[0] < b[0] || (a[0] == b[0] && Less(a[1..], b[1..])))
  }

  lemma {:induction false} LessIrreflexive(a: KeyTuple)
    ensures !Less(a, a)
  {
    if a != [] {
      LessIrreflexive(a[1..]);
    }
  }

  lemma {:induction false} LessTransitive(a: KeyTuple, b: KeyTuple, c: KeyTuple)
    requires Less(a, b) && Less(b, c)
    ensures Less(a, c)
  {
    if a[0] == b[0] == c[0] {
      LessTransitive(a[1..], b[1..], c[1..]);
    }
  }

  lemma {:induction false} LessTotal(a: KeyTuple, b: KeyTuple)
    requires |a| == |b| && a != b
    ensures Less(a, b) || Less(b, a)
  {
    if a[0] == b[0] {
      assert a == [a[0]] + a[1..] && b == [b[0]] + b[1..];
      LessTotal(a[1..], b[1..]);
    }
  }

  predicate Ascending(keys: seq<KeyTuple>) {
    forall i, j :: 0 <= i < j < |keys| ==> Less(keys[i], keys[j])
  }

  lemma {:induction false} Climb(keys: seq<KeyTuple>, i: nat, j: nat)
    requires i < j < |keys| && forall m :: 0 <= m < |keys| - 1 ==> Less(keys[m], keys[m + 1])
    ensures Less(keys[i], keys[j])
    decreases j
  {
    if i + 1 < j {
      Climb(keys, i, j - 1);
      assert Less(keys[j - 1], keys[j - 1 + 1]);
      LessTransitive(keys[i], keys[j - 1], keys[j]);
    }
  }

  // ------------------------------------------------------------------ locking

  /** A transaction's rows in the order they are locked, and how many are locked. */
  datatype Batch = Batch(keys: seq<KeyTuple>, got: nat)

  type Locks = map<Tx, Batch>

  predicate Holds(s: Locks, t: Tx, k: KeyTuple) {
    t in s && s[t].got <= |s[t].keys| && k in s[t].keys[..s[t].got]
  }

  /** The transaction still has a row to lock. */
  predicate Wants(s: Locks, t: Tx) {
    t in s && s[t].got < |s[t].keys|
  }

  function Next(s: Locks, t: Tx): KeyTuple
    requires Wants(s, t)
  {
    s[t].keys[s[t].got]
  }

  datatype Event =
    | Begin(t: Tx, keys: seq<KeyTuple>)
    | Acquire(t: Tx)
    | Commit(t: Tx)
    | Rollback(t: Tx)       // at any time

  predicate Enabled(s: Locks, e: Event) {
    match e
    case Begin(t, _) => t !in s
    case Acquire(t) => Wants(s, t) && forall u :: u in s && u != t ==> !Holds(s, u, Next(s, t))
    case Commit(t) => t in s && !Wants(s, t)
    case Rollback(t) => t in s
  }

  function Step(s: Locks, e: Event): Locks
    requires Enabled(s, e)
  {
    match e
    case Begin(t, keys) => s[t := Batch(keys, 0)]
    case Acquire(t) => s[t := s[t].(got := s[t].got + 1)]
    case Commit(t) => s - {t}
    case Rollback(t) => s - {t}
  }

  /** A transaction locks its next row exactly when no other has it locked, and then holds
      that row as well. It can end by a commit once it has all its rows, and by a rollback
      at any time; then it holds nothing. Nobody else is affected. */
  lemma LockingMeans(s: Locks, t: Tx)
    requires t in s && s[t].got <= |s[t].keys|
    ensures Enabled(s, Rollback(t)) && (Enabled(s, Commit(t)) <==> s[t].got == |s[t].keys|)
    ensures Enabled(s, Acquire(t)) <==> Wants(s, t) && forall u :: u != t ==> !Holds(s, u, s[t].keys[s[t].got])
    ensures forall k :: Enabled(s, Acquire(t)) ==>
      (Holds(Step(s, Acquire(t)), t, k) <==> Holds(s, t, k) || k == s[t].keys[s[t].got])
    ensures forall u, k :: u != t && Enabled(s, Acquire(t)) ==> (Holds(Step(s, Acquire(t)), u, k) <==> Holds(s, u, k))
    ensures forall u, k :: Holds(Step(s, Rollback(t)), u, k) <==> u != t && Holds(s, u, k)
    ensures Enabled(s, Commit(t)) ==> Step(s, Commit(t)) == Step(s, Rollback(t)) && t !in Step(s, Commit(t))
  {
    if Enabled(s, Acquire(t)) {
      var n := s[t].got;
      assert s[t].keys[..n + 1] == s[t].keys[..n] + [s[t].keys[n]];
    }
  }

  /** Where the events lead from no transactions at all. */
  function Run(es: seq<Event>): Option<Locks> {
    if es == [] then Some(map[])
    else
      match Run(es[..|es| - 1])
      case None => None
      case Some(s) => if Enabled(s, es[|es| - 1]) then Some(Step(s, es[|es| - 1])) else None
  }

  /** Every transaction locks in one of the orders `allowed`. */
  ghost predicate Orders(es: seq<Event>, allowed: seq<KeyTuple> -> bool) {
    forall i :: 0 <= i < |es| && es[i].Begin? ==> allowed(es[i].keys)
  }

  ghost predicate Follow(s: Locks, allowed: seq<KeyTuple> -> bool) {
    forall t :: t in s ==> s[t].got <= |s[t].keys| && allowed(s[t].keys)
  }

  ghost predicate Exclusive(s: Locks) {
    forall t, u, k :: Holds(s, t, k) && Holds(s, u, k) ==> t == u
  }

  lemma StepKeeps(s: Locks, e: Event, allowed: seq<KeyTuple> -> bool)
    requires Enabled(s, e) && Follow(s, allowed) && Exclusive(s)
    requires e.Begin? ==> allowed(e.keys)
    ensures Follow(Step(s, e), allowed) && Exclusive(Step(s, e))
  {
    var s1 := Step(s, e);
    forall t, u, k | Holds(s1, t, k) && Holds(s1, u, k) ensures t == u {
      if e.Acquire? {
        var keys, n := s[e.t].keys, s[e.t].got;
        assert keys[..n + 1] == keys[..n] + [keys[n]];
        assert forall v :: Holds(s1, v, k) ==> Holds(s, v, k) || (v == e.t && k == keys[n]);
      } else {
        assert forall v :: Holds(s1, v, k) ==> Holds(s, v, k);
      }
    }
  }

  /** No row is ever locked by two transactions. */
  lemma {:induction false} RunKeeps(es: seq<Event>, allowed: seq<KeyTuple> -> bool)
    requires Run(es).Some? && Orders(es, allowed)
    ensures Follow(Run(es).value, allowed) && Exclusive(Run(es).value)
    decreases |es|
  {
    if es != [] {
      var init := es[..|es| - 1];
      assert forall i :: 0 <= i < |init| ==> init[i] == es[i];
      RunKeeps(init, allowed);
      StepKeeps(Run(init).value, es[|es| - 1], allowed);
    }
  }

  // --------------------------------------------------------------- waiting

  ghost predicate WaitsFor(s: Locks, t: Tx, u: Tx) {
    Wants(s, t) && u != t && Holds(s, u, Next(s, t))
  }

  ghost predicate WaitPath(s: Locks, p: seq<Tx>) {
    forall i :: 0 <= i < |p| - 1 ==> WaitsFor(s, p[i], p[i + 1])
  }

  ghost predicate Deadlocked(s: Locks) {
    exists p: seq<Tx> :: |p| >= 2 && WaitPath(s, p) && p[0] == p[|p| - 1]
  }

  /** Whoever holds the row that `t` wants wants a greater one itself. */
  lemma WaitRises(s: Locks, t: Tx, u: Tx)
    requires Follow(s, Ascending) && WaitsFor(s, t, u) && Wants(s, u)
    ensures Less(Next(s, t), Next(s, u))
  {
    var i :| 0 <= i < s[u].got && s[u].keys[..s[u].got][i] == Next(s, t);
    assert s[u].keys[i] == Next(s, t);
  }

  lemma {:induction false} PathRises(s: Locks, p: seq<Tx>)
    requires Follow(s, Ascending) && |p| >= 2 && WaitPath(s, p) && Wants(s, p[|p| - 1])
    ensures Wants(s, p[0]) && Less(Next(s, p[0]), Next(s, p[|p| - 1]))
  {
    assert WaitsFor(s, p[0], p[0 + 1]);
    if |p| == 2 {
      WaitRises(s, p[0], p[1]);
    } else {
      forall i | 0 <= i < |p[1..]| - 1 ensures WaitsFor(s, p[1..][i], p[1..][i + 1]) {
        assert WaitsFor(s, p[i + 1], p[i + 1 + 1]);
      }
      PathRises(s, p[1..]);
      WaitRises(s, p[0], p[1]);
      LessTransitive(Next(s, p[0]), Next(s, p[1]), Next(s, p[|p| - 1]));
    }
  }

  lemma AscendingAvoidsDeadlock(s: Locks)
    requires Follow(s, Ascending)
    ensures !Deadlocked(s)
  {
    if Deadlocked(s) {
      var p :| |p| >= 2 && WaitPath(s, p) && p[0] == p[|p| - 1];
      assert WaitsFor(s, p[0], p[0 + 1]);
      PathRises(s, p);
      LessIrreflexive(Next(s, p[0]));
    }
  }

  /** With locks taken in ascending order no run ever reaches a cycle of waiting. */
  lemma OrderedRunsNeverDeadlock(es: seq<Event>)
    requires Run(es).Some? && Orders(es, Ascending)
    ensures !Deadlocked(Run(es).value)
  {
    RunKeeps(es, Ascending);
    AscendingAvoidsDeadlock(Run(es).value);
  }

  function Above(s: Locks, t: Tx): set<Tx>
    requires Wants(s, t)
  {
    set u | u in s && Wants(s, u) && Less(Next(s, t), Next(s, u))
  }

  /** Following who waits for whom from `t` ends at a transaction that can go on. */
  lemma {:induction false} WalkEnds(s: Locks, t: Tx) returns (u: Tx)
    requires Follow(s, Ascending) && t in s
    ensures Enabled(s, Acquire(u)) || Enabled(s, Commit(u))
    decreases if Wants(s, t) then 1 + |Above(s, t)| else 0
  {
    if !Wants(s, t) || Enabled(s, Acquire(t)) {
      return t;
    }
    var holder :| holder in s && holder != t && Holds(s, holder, Next(s, t));
    if Wants(s, holder) {
      WaitRises(s, t, holder);
      AboveShrinks(s, t, holder);
    }
    u := WalkEnds(s, holder);
  }

  lemma AboveShrinks(s: Locks, t: Tx, u: Tx)
    requires Wants(s, t) && Wants(s, u) && Less(Next(s, t), Next(s, u))
    ensures |Above(s, u)| < |Above(s, t)|
  {
    forall v | v in Above(s, u) ensures v in Above(s, t) - {u} {
      LessTransitive(Next(s, t), Next(s, u), Next(s, v));
      LessIrreflexive(Next(s, u));
    }
    assert Above(s, u) <= Above(s, t) - {u} && u in Above(s, t);
    SubsetSize(Above(s, u), Above(s, t) - {u});
  }

  lemma {:induction false} SubsetSize(a: set<Tx>, b: set<Tx>)
    requires a <= b
    ensures |a| <= |b|
  {
    if a != {} {
      var x :| x in a;
      SubsetSize(a - {x}, b - {x});
    }
  }

  /** While any transaction is left, one of them can lock its next row or commit. */
  lemma SomeoneProceeds(es: seq<Event>)
    requires Run(es).Some? && Orders(es, Ascending) && Run(es).value != map[]
    ensures exists t :: Enabled(Run(es).value, Acquire(t)) || Enabled(Run(es).value, Commit(t))
  {
    RunKeeps(es, Ascending);
    var s := Run(es).value;
    var t :| t in s;
    var u := WalkEnds(s, t);
  }

  // ----------------------------------------------------- the order is needed

  ghost predicate Safe(keys: seq<KeyTuple>) {
    forall es :: Run(es).Some? && Orders(es, (ks: seq<KeyTuple>) => Ascending(ks) || ks == keys) ==> !Deadlocked(Run(es).value)
  }

  lemma Extend(es: seq<Event>, e: Event, s: Locks)
    requires Run(es) == Some(s) && Enabled(s, e)
    ensures Run(es + [e]) == Some(Step(s, e))
  {
    assert (es + [e])[..|es|] == es;
  }

  /** `t` locks its first `n` rows while `u` holds a row that is not among them. */
  lemma {:induction false} LockFirst(es: seq<Event>, t: Tx, u: Tx, keys: seq<KeyTuple>, other: Batch, n: nat)
    returns (more: seq<Event>)
    requires t != u && n <= |keys| && other.got <= |other.keys|
    requires Run(es) == Some(map[t := Batch(keys, 0), u := other])
    requires forall i :: 0 <= i < n ==> keys[i] !in other.keys[..other.got]
    ensures Run(es + more) == Some(map[t := Batch(keys, n), u := other])
    ensures forall e :: e in more ==> e.Acquire?
  {
    if n == 0 {
      more := [];
      assert es + more == es;
    } else {
      var init := LockFirst(es, t, u, keys, other, n - 1);
      var s := map[t := Batch(keys, n - 1), u := other];
      assert Enabled(s, Acquire(t));
      Extend(es + init, Acquire(t), s);
      more := init + [Acquire(t)];
      assert es + more == es + init + [Acquire(t)];
      assert Step(s, Acquire(t)) == map[t := Batch(keys, n), u := other];
    }
  }

  /** Two transactions, each holding the row the other wants next. */
  lemma CrossedDeadlocks(s: Locks, t: Tx, u: Tx)
    requires t != u && Wants(s, t) && Wants(s, u) && Holds(s, u, Next(s, t)) && Holds(s, t, Next(s, u))
    ensures Deadlocked(s)
  {
    var p := [t, u, t];
    assert WaitsFor(s, t, u) && WaitsFor(s, u, t);
    assert WaitPath(s, p);
  }

  /** A list that goes down once can meet an ascending one half way. */
  lemma DescentDeadlocks(keys: seq<KeyTuple>, i: nat, t: Tx, u: Tx)
    requires t != u && i + 1 < |keys| && Less(keys[i + 1], keys[i])
    requires forall m, n :: 0 <= m < n < |keys| ==> keys[m] != keys[n]
    ensures !Safe(keys)
  {
    hide Run, Deadlocked, Holds;
    var theirs := [keys[i + 1], keys[i]];
    var es := [Begin(u, theirs), Acquire(u), Begin(t, keys)];
    var other := Batch(theirs, 1);
    TwoBegin(keys, theirs, t, u);
    assert other.keys[..other.got] == [keys[i + 1]];
    var more := LockFirst(es, t, u, keys, other, i + 1);
    MeetHalfWay(keys, i, t, u);
    DescentOrders(keys, theirs, es, more, t, u);
  }

  lemma MeetHalfWay(keys: seq<KeyTuple>, i: nat, t: Tx, u: Tx)
    requires t != u && i + 1 < |keys|
    ensures Deadlocked(map[t := Batch(keys, i + 1), u := Batch([keys[i + 1], keys[i]], 1)])
  {
    var s: Locks := map[t := Batch(keys, i + 1), u := Batch([keys[i + 1], keys[i]], 1)];
    assert s[t].keys[..i + 1][i] == keys[i];
    assert s[u].keys[..1][0] == keys[i + 1];
    CrossedDeadlocks(s, t, u);
  }

  lemma DescentOrders(keys: seq<KeyTuple>, theirs: seq<KeyTuple>, es: seq<Event>, more: seq<Event>, t: Tx, u: Tx)
    requires |theirs| == 2 && Less(theirs[0], theirs[1])
    requires es == [Begin(u, theirs), Acquire(u), Begin(t, keys)] && forall e :: e in more ==> e.Acquire?
    ensures Orders(es + more, (ks: seq<KeyTuple>) => Ascending(ks) || ks == keys)
  {
    assert forall i :: 0 <= i < |more| ==> more[i] in more;
  }

  lemma TwoBegin(keys: seq<KeyTuple>, theirs: seq<KeyTuple>, t: Tx, u: Tx)
    requires t != u && |theirs| == 2
    ensures Run([Begin(u, theirs), Acquire(u), Begin(t, keys)]) == Some(map[t := Batch(keys, 0), u := Batch(theirs, 1)])
  {
    assert Run([]) == Some(map[]);
    Extend([], Begin(u, theirs), map[]);
    assert [] + [Begin(u, theirs)] == [Begin(u, theirs)];
    var s1: Locks := map[u := Batch(theirs, 0)];
    Extend([Begin(u, theirs)], Acquire(u), s1);
    assert [Begin(u, theirs)] + [Acquire(u)] == [Begin(u, theirs), Acquire(u)];
    var s2: Locks := map[u := Batch(theirs, 1)];
    assert Step(s1, Acquire(u)) == s2;
    Extend([Begin(u, theirs), Acquire(u)], Begin(t, keys), s2);
    assert [Begin(u, theirs), Acquire(u)] + [Begin(t, keys)] == [Begin(u, theirs), Acquire(u), Begin(t, keys)];
    assert Step(s2, Begin(t, keys)) == map[t := Batch(keys, 0), u := Batch(theirs, 1)];
  }

  /** Among transactions that lock in ascending order, one that locks the rows `keys` in
      the given order is free of deadlock exactly when that order is ascending too: two
      batches in one transaction are safe only if together they ascend. */
  lemma SafeIffAscending(keys: seq<KeyTuple>, width: nat, t: Tx, u: Tx)
    requires t != u && forall i :: 0 <= i < |keys| ==> |keys[i]| == width
    requires forall m, n :: 0 <= m < n < |keys| ==> keys[m] != keys[n]
    ensures Safe(keys) <==> Ascending(keys)
  {
    if Ascending(keys) {
      forall es | Run(es).Some? && Orders(es, (ks: seq<KeyTuple>) => Ascending(ks) || ks == keys)
        ensures !Deadlocked(Run(es).value)
      {
        OrderedRunsNeverDeadlock(es);
      }
    } else {
      if forall m :: 0 <= m < |keys| - 1 ==> Less(keys[m], keys[m + 1]) {
        forall i, j | 0 <= i < j < |keys| ensures Less(keys[i], keys[j]) {
          Climb(keys, i, j);
        }
        assert false;
      }
      var m :| 0 <= m < |keys| - 1 && !Less(keys[m], keys[m + 1]);
      LessTotal(keys[m], keys[m + 1]);
      DescentDeadlocks(keys, m, t, u);
    }
  }
}
