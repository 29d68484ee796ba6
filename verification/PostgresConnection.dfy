/** The connection handle of the Postgres source and the locking read made through it. */
module PostgresConnection {
  import opened Rows
  import opened LockOrder
  import Protocol

  /** A select by key, the columns it is ordered by (by position in the key), and whether
      it locks the rows it returns. */
  datatype Query = Query(keys: seq<KeyTuple>, orderBy: seq<nat>, exclusive: bool)

  predicate LessBy(cols: seq<nat>, a: KeyTuple, b: KeyTuple) {
    && cols != [] && cols[0] < |a| && cols[0] < |b|
    && (a[cols[0]] < b[cols[0]] || (a[cols[0]] == b[cols[0]] && LessBy(cols[1..], a, b)))
  }

  /** `rows` is an order in which the database may return, and lock, the rows of a query. */
  ghost predicate IsAnswer(q: Query, stored: set<KeyTuple>, rows: seq<KeyTuple>) {
    && (forall k :: k in rows <==> k in q.keys && k in stored)
    && (forall i, j :: 0 <= i < j < |rows| ==> rows[i] != rows[j])
    && forall i, j :: 0 <= i < j < |rows| ==> !LessBy(q.orderBy, rows[j], rows[i])
  }

  /** The columns from `i` on. */
  function ColumnsFrom(i: nat, width: nat): (cols: seq<nat>)
    requires i <= width
    ensures |cols| == width - i
    decreases width - i
  {
    if i == width then [] else [i] + ColumnsFrom(i + 1, width)
  }

  lemma {:induction false} LessByColumns(a: KeyTuple, b: KeyTuple, i: nat)
    requires |a| == |b| && i <= |a|
    ensures LessBy(ColumnsFrom(i, |a|), a, b) <==> Less(a[i..], b[i..])
    decreases |a| - i
  {
    if i < |a| {
      LessByColumns(a, b, i + 1);
      assert a[i..][1..] == a[i + 1..] && b[i..][1..] == b[i + 1..];
    }
  }

  /** Ordering by all key columns in turn locks in ascending key order. */
  lemma AnswerAscends(q: Query, stored: set<KeyTuple>, rows: seq<KeyTuple>, width: nat)
    requires IsAnswer(q, stored, rows) && q.orderBy == ColumnsFrom(0, width)
    requires Tuples(stored, width)
    ensures Ascending(rows)
  {
    forall i, j | 0 <= i < j < |rows| ensures Less(rows[i], rows[j]) {
      assert rows[i] in rows && rows[j] in rows;
      LessByColumns(rows[j], rows[i], 0);
      assert rows[i][0..] == rows[i] && rows[j][0..] == rows[j];
      LessTotal(rows[i], rows[j]);
    }
  }

  /** Whatever a query returns from a table with keys of this width comes, and is locked, in
      ascending key order. */
  ghost predicate InKeyOrder(q: Query, width: nat) {
    forall stored, rows :: Tuples(stored, width) && IsAnswer(q, stored, rows) ==> Ascending(rows)
  }

  ghost predicate Tuples(stored: set<KeyTuple>, width: nat) {
    forall k :: k in stored ==> |k| == width
  }

  class ConnectionHandle {
    var mode: Protocol.Mode

    constructor (m: Protocol.Mode)
      ensures mode == m
    {
      mode := m;
    }

    predicate IsTransaction()
      reads this
    {
      !mode.Plain?
    }

    /** `should_use_cache`, and `can_use_batcher`. */
    predicate ShouldUseCache()
      reads this
    {
      !IsTransaction()
    }

    /** Only a plain connection begins; `begun` is the database's answer. */
    method MaybeBeginTransaction(tx: Protocol.TxId, begun: bool) returns (ok: bool)
      modifies this
      ensures ok == (old(IsTransaction()) || begun)
      ensures mode == if old(mode).Plain? && begun then Protocol.Owned(tx) else old(mode)
      ensures ok ==> !ShouldUseCache()
    {
      if mode.Plain? {
        if !begun {
          return false;
        }
        mode := Protocol.Owned(tx);
      }
      return true;
    }

    /** Only an owned transaction commits, and only when nobody else holds it; the handle
        is a plain connection again before the outcome is known. */
    method MaybeCommit(soleOwner: bool, committed: bool) returns (ok: bool)
      modifies this
      ensures mode == if old(mode).Owned? then Protocol.Plain else old(mode)
      ensures ok == (old(mode).Owned? ==> soleOwner && committed)
    {
      if mode.Owned? {
        mode := Protocol.Plain;
        if !soleOwner {
          return false;
        }
        return committed;
      }
      return true;
    }

    /** `read_for_update`: the query, or nothing when the transaction could not begin. The
        rows it returns are locked exactly when locking is asked for, in key order, and
        then the handle no longer uses the cache. */
    method ReadForUpdate(keys: seq<KeyTuple>, width: nat, lockForUpdate: bool, tx: Protocol.TxId, begun: bool)
      returns (r: Option<Query>)
      modifies this
      ensures r.None? <==> lockForUpdate && old(mode).Plain? && !begun
      ensures mode == if lockForUpdate && old(mode).Plain? && begun then Protocol.Owned(tx) else old(mode)
      ensures r.Some? ==> r.value.exclusive == lockForUpdate && (lockForUpdate ==> !ShouldUseCache())
      ensures r.Some? ==> r.value.keys == keys
      ensures r.Some? ==> InKeyOrder(r.value, width)
    {
      var q := Query(keys, [], false);
      for i := 0 to width
        invariant q.keys == keys && !q.exclusive
        invariant q.orderBy + ColumnsFrom(i, width) == ColumnsFrom(0, width)
      {
        assert ColumnsFrom(i, width) == [i] + ColumnsFrom(i + 1, width);
        assert (q.orderBy + [i]) + ColumnsFrom(i + 1, width) == q.orderBy + ([i] + ColumnsFrom(i + 1, width));
        q := q.(orderBy := q.orderBy + [i]);
      }
      if lockForUpdate {
        var ok := MaybeBeginTransaction(tx, begun);
        if !ok {
          return None;
        }
        if IsTransaction() {
          q := q.(exclusive := true);
        }
      }
      forall stored, rows | Tuples(stored, width) && IsAnswer(q, stored, rows) ensures Ascending(rows) {
        AnswerAscends(q, stored, rows, width);
      }
      return Some(q);
    }
  }
}
