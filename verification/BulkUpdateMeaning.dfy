/** The bulk update means replacing the payload's rows one at a time, exactly when no
    stored row is given two different replacements. */
module BulkUpdateMeaning {
  import Rows
  import opened BulkUpdate

  // -------------------------------------------------- the simple update

  ghost function PutAt(schema: Schema, stored: Row, row: Row): (r: Row)
    requires GoodSchema(schema) && IsRow(schema, stored) && IsRow(schema, row)
    ensures IsRow(schema, r) && KeyOf(schema, r) == KeyOf(schema, stored)
  {
    if KeyOf(schema, stored) == KeyOf(schema, row) then row else stored
  }

  /** Replace the stored row that has `row`'s key, if there is one. */
  ghost function PutRow(schema: Schema, stored: Stored, row: Row): (r: Stored)
    requires GoodSchema(schema) && AllRows(schema, stored) && IsRow(schema, row)
    ensures r.Keys == stored.Keys && AllRows(schema, r)
    ensures forall id :: id in r ==> KeyOf(schema, r[id]) == KeyOf(schema, stored[id])
  {
    map id | id in stored :: PutAt(schema, stored[id], row)
  }

  ghost function PutRows(schema: Schema, stored: Stored, payload: seq<Row>): (r: Stored)
    requires GoodSchema(schema) && AllRows(schema, stored) && PayloadRows(schema, payload)
    ensures r.Keys == stored.Keys && AllRows(schema, r)
    ensures forall id :: id in r ==> KeyOf(schema, r[id]) == KeyOf(schema, stored[id])
  {
    if payload == [] then stored else PutRows(schema, PutRow(schema, stored, payload[0]), payload[1..])
  }

  ghost predicate Matches(schema: Schema, payload: seq<Row>, row: Row, r: int)
    requires GoodSchema(schema) && PayloadRows(schema, payload) && IsRow(schema, row)
  {
    0 <= r < |payload| && KeyOf(schema, row) == KeyOf(schema, payload[r])
  }

  /** The database's primary key: no two stored rows share one. */
  ghost predicate GoodTable(schema: Schema, stored: Stored)
    requires GoodSchema(schema)
  {
    && AllRows(schema, stored)
    && forall a, b :: a in stored && b in stored && KeyOf(schema, stored[a]) == KeyOf(schema, stored[b]) ==> a == b
  }

  ghost predicate AgreeingAt(schema: Schema, payload: seq<Row>, row: Row)
    requires GoodSchema(schema) && PayloadRows(schema, payload) && IsRow(schema, row)
  {
    forall q, r :: Matches(schema, payload, row, q) && Matches(schema, payload, row, r) ==> payload[q] == payload[r]
  }

  /** Payload rows for the same stored row are equal. */
  ghost predicate Agreeing(schema: Schema, payload: seq<Row>, stored: Stored)
    requires GoodSchema(schema) && PayloadRows(schema, payload) && AllRows(schema, stored)
  {
    forall id :: id in stored ==> AgreeingAt(schema, payload, stored[id])
  }

  /** In particular payloads with distinct keys do. */
  lemma DistinctKeysAgree(schema: Schema, payload: seq<Row>, stored: Stored)
    requires GoodSchema(schema) && PayloadRows(schema, payload) && AllRows(schema, stored)
    requires Distinct(PayloadKeys(schema, payload))
    ensures Agreeing(schema, payload, stored)
  {
    var keys := PayloadKeys(schema, payload);
    forall id, q, r | id in stored && Matches(schema, payload, stored[id], q) && Matches(schema, payload, stored[id], r)
      ensures payload[q] == payload[r]
    {
      assert keys[q] == keys[r];
    }
  }

  /** A row that is not in the payload stays; one that is becomes the payload's row. */
  lemma {:induction false} PutRowsAt(schema: Schema, stored: Stored, payload: seq<Row>, id: Id)
    requires GoodSchema(schema) && AllRows(schema, stored) && PayloadRows(schema, payload)
    requires id in stored
    requires AgreeingAt(schema, payload, stored[id])
    ensures (exists r :: Matches(schema, payload, stored[id], r))
      || PutRows(schema, stored, payload)[id] == stored[id]
    ensures forall r :: Matches(schema, payload, stored[id], r) ==> PutRows(schema, stored, payload)[id] == payload[r]
  {
    if payload != [] {
      var next, rest := PutRow(schema, stored, payload[0]), payload[1..];
      forall r | Matches(schema, rest, next[id], r)
        ensures Matches(schema, payload, stored[id], r + 1) && payload[r + 1] == rest[r]
      {
      }
      PutRowsAt(schema, next, rest, id);
      forall r | Matches(schema, payload, stored[id], r) ensures PutRows(schema, stored, payload)[id] == payload[r] {
        if r == 0 {
          assert next[id] == payload[0];
          if q :| Matches(schema, rest, next[id], q) {
            assert payload[q + 1] == payload[0];
          }
        } else {
          assert Matches(schema, rest, next[id], r - 1);
        }
      }
      if !exists r :: Matches(schema, payload, stored[id], r) {
        assert !Matches(schema, payload, stored[id], 0);
        assert next[id] == stored[id];
      }
    }
  }

  // ------------------------------------------------- what the statement says

  lemma ListValueIs(schema: Schema, payload: seq<Row>, stmt: Statement, r: int, c: Col)
    requires GoodSchema(schema) && PayloadRows(schema, payload) && IsBulkUpdate(schema, payload, stmt) && Runnable(stmt)
    requires 0 <= r < |payload| && c in stmt.vCols
    ensures c in payload[r] && ListValue(stmt, r, c) == payload[r][c]
  {
    var i := IndexOf(stmt.vCols, c);
    assert Bound(schema, payload[r], stmt.rows[r], stmt.binds, Slot(r, i, |stmt.vCols|), i);
  }

  /** The WHERE clause compares exactly the keys. */
  lemma JoinsIff(schema: Schema, payload: seq<Row>, stmt: Statement, row: Row, r: int)
    requires GoodSchema(schema) && PayloadRows(schema, payload) && IsBulkUpdate(schema, payload, stmt) && Runnable(stmt)
    requires IsRow(schema, row)
    ensures Joins(stmt, row, r) <==> Matches(schema, payload, row, r)
  {
    hide ListValue;
    if 0 <= r < |payload| {
      forall c | c in schema.pkCols ensures c in stmt.vCols && c in payload[r] && ListValue(stmt, r, c) == payload[r][c] {
        ListValueIs(schema, payload, stmt, r, c);
      }
      if Matches(schema, payload, row, r) {
        forall c | c in schema.pkCols ensures row[c] == payload[r][c] {
          assert row[c] == KeyOf(schema, row)[c] == KeyOf(schema, payload[r])[c];
        }
      }
      if Joins(stmt, row, r) {
        assert KeyOf(schema, row) == KeyOf(schema, payload[r]);
      }
    }
  }

  /** SET turns a row that joins into the payload's row, in every column. */
  lemma AssignedIs(schema: Schema, payload: seq<Row>, stmt: Statement, row: Row, r: int)
    requires GoodSchema(schema) && PayloadRows(schema, payload) && IsBulkUpdate(schema, payload, stmt) && Runnable(stmt)
    requires IsRow(schema, row) && Matches(schema, payload, row, r)
    ensures Assigned(stmt, row, r) == payload[r]
  {
    forall c | c in schema.allCols ensures Assigned(stmt, row, r)[c] == payload[r][c] {
      if c in stmt.setCols {
        ListValueIs(schema, payload, stmt, r, c);
      } else {
        assert c in schema.pkCols;
        assert row[c] == KeyOf(schema, row)[c] == KeyOf(schema, payload[r])[c];
      }
    }
  }

  /** What may be left at one stored row. */
  ghost predicate MayLeave(schema: Schema, payload: seq<Row>, row: Row, left: Row)
    requires GoodSchema(schema) && PayloadRows(schema, payload) && IsRow(schema, row)
  {
    if exists r :: Matches(schema, payload, row, r) then exists r :: Matches(schema, payload, row, r) && left == payload[r]
    else left == row
  }

  lemma LeavesAtIff(schema: Schema, payload: seq<Row>, stmt: Statement, row: Row, left: Row)
    requires GoodSchema(schema) && PayloadRows(schema, payload) && IsBulkUpdate(schema, payload, stmt) && Runnable(stmt)
    requires IsRow(schema, row)
    ensures LeavesAt(stmt, row, left) <==> MayLeave(schema, payload, row, left)
  {
    forall r
      ensures Joins(stmt, row, r) <==> Matches(schema, payload, row, r)
      ensures Matches(schema, payload, row, r) ==> Assigned(stmt, row, r) == payload[r]
    {
      JoinsIff(schema, payload, stmt, row, r);
      if Matches(schema, payload, row, r) {
        AssignedIs(schema, payload, stmt, row, r);
      }
    }
  }

  lemma LeavesIff(schema: Schema, payload: seq<Row>, stmt: Statement, before: Stored, after: Stored)
    requires GoodSchema(schema) && PayloadRows(schema, payload) && IsBulkUpdate(schema, payload, stmt) && Runnable(stmt)
    requires AllRows(schema, before)
    ensures Leaves(stmt, before, after) <==>
      after.Keys == before.Keys && forall id :: id in before ==> MayLeave(schema, payload, before[id], after[id])
  {
    if after.Keys == before.Keys {
      forall id | id in before
        ensures LeavesAt(stmt, before[id], after[id]) <==> MayLeave(schema, payload, before[id], after[id])
      {
        LeavesAtIff(schema, payload, stmt, before[id], after[id]);
      }
    }
  }

  // ---------------------------------------------------------- main results

  lemma MayLeaveOnlyPut(schema: Schema, payload: seq<Row>, before: Stored, id: Id, left: Row)
    requires GoodSchema(schema) && PayloadRows(schema, payload) && AllRows(schema, before)
    requires id in before && AgreeingAt(schema, payload, before[id])
    ensures MayLeave(schema, payload, before[id], left) <==> left == PutRows(schema, before, payload)[id]
  {
    hide PutRows, KeyOf;
    PutRowsAt(schema, before, payload, id);
  }

  lemma AgreeingLeavesPut(schema: Schema, payload: seq<Row>, stmt: Statement, before: Stored, after: Stored)
    requires GoodSchema(schema) && PayloadRows(schema, payload) && IsBulkUpdate(schema, payload, stmt) && Runnable(stmt)
    requires AllRows(schema, before) && Agreeing(schema, payload, before)
    ensures Leaves(stmt, before, after) <==> after == PutRows(schema, before, payload)
  {
    LeavesIff(schema, payload, stmt, before, after);
    MayLeaveAllOnlyPut(schema, payload, before, after);
  }

  lemma MayLeaveAllOnlyPut(schema: Schema, payload: seq<Row>, before: Stored, after: Stored)
    requires GoodSchema(schema) && PayloadRows(schema, payload)
    requires AllRows(schema, before) && Agreeing(schema, payload, before)
    ensures after.Keys == before.Keys && (forall id :: id in before ==> MayLeave(schema, payload, before[id], after[id]))
      <==> after == PutRows(schema, before, payload)
  {
    hide PutRows;
    var put := PutRows(schema, before, payload);
    if after.Keys == before.Keys {
      forall id | id in before ensures MayLeave(schema, payload, before[id], after[id]) <==> after[id] == put[id] {
        MayLeaveOnlyPut(schema, payload, before, id, after[id]);
      }
      assert (forall id :: id in before ==> after[id] == put[id]) <==> after == put;
    }
  }

  /** Running the statement leaves one result, whatever the database chooses, exactly when
      payload rows for the same stored row are equal. */
  lemma OneResultIff(schema: Schema, payload: seq<Row>, stmt: Statement, before: Stored)
    requires GoodSchema(schema) && PayloadRows(schema, payload) && IsBulkUpdate(schema, payload, stmt) && Runnable(stmt)
    requires AllRows(schema, before)
    ensures (forall after :: Leaves(stmt, before, after) ==> after == PutRows(schema, before, payload))
      <==> Agreeing(schema, payload, before)
  {
    hide PutRows, Leaves;
    if Agreeing(schema, payload, before) {
      forall after ensures Leaves(stmt, before, after) ==> after == PutRows(schema, before, payload) {
        AgreeingLeavesPut(schema, payload, stmt, before, after);
      }
    } else {
      var id, q, r :| id in before && Matches(schema, payload, before[id], q) && Matches(schema, payload, before[id], r)
        && payload[q] != payload[r];
      TwoResults(schema, payload, stmt, before, id, q);
      TwoResults(schema, payload, stmt, before, id, r);
    }
  }

  /** The database may choose any of the rows that match. */
  lemma TwoResults(schema: Schema, payload: seq<Row>, stmt: Statement, before: Stored, id: Id, r: int)
    requires GoodSchema(schema) && PayloadRows(schema, payload) && IsBulkUpdate(schema, payload, stmt) && Runnable(stmt)
    requires AllRows(schema, before) && id in before && Matches(schema, payload, before[id], r)
    ensures exists after :: Leaves(stmt, before, after) && after[id] == payload[r]
  {
    forall k | k in before ensures exists left :: MayLeave(schema, payload, before[k], left) {
      if q :| Matches(schema, payload, before[k], q) {
        assert MayLeave(schema, payload, before[k], payload[q]);
      } else {
        assert MayLeave(schema, payload, before[k], before[k]);
      }
    }
    assert MayLeave(schema, payload, before[id], payload[r]);
    var after := map k | k in before ::
      if k == id then payload[r] else var left :| MayLeave(schema, payload, before[k], left); left;
    LeavesIff(schema, payload, stmt, before, after);
  }

  ghost predicate HasKey(schema: Schema, stored: Stored, row: Row)
    requires GoodSchema(schema) && AllRows(schema, stored) && IsRow(schema, row)
  {
    exists id :: id in stored && KeyOf(schema, stored[id]) == KeyOf(schema, row)
  }

  /** The rows of the payload that were stored, each once. */
  ghost predicate Returned(schema: Schema, payload: seq<Row>, before: Stored, out: seq<Row>)
    requires GoodSchema(schema) && PayloadRows(schema, payload) && AllRows(schema, before)
  {
    && Distinct(out)
    && forall row :: row in out <==> row in payload && HasKey(schema, before, row)
  }

  ghost predicate HasRow(stored: Stored, picked: iset<Id>, row: Row) {
    exists id :: id in stored && id in picked && stored[id] == row
  }

  lemma ListedRows(schema: Schema, stored: Stored, picked: iset<Id>, out: seq<Row>, ids: seq<Id>)
    requires GoodSchema(schema) && GoodTable(schema, stored) && ListsInOrder(out, stored, picked, ids)
    ensures Distinct(out) && forall row :: row in out <==> HasRow(stored, picked, row)
  {
    forall row ensures row in out <==> HasRow(stored, picked, row) {
      if HasRow(stored, picked, row) {
        var id :| id in stored && id in picked && stored[id] == row;
        var i :| 0 <= i < |ids| && ids[i] == id;
        assert out[i] == row;
      }
      if row in out {
        var i :| 0 <= i < |out| && out[i] == row;
        assert ids[i] in ids;
      }
    }
  }

  lemma RowsListed(schema: Schema, stored: Stored, picked: iset<Id>, out: seq<Row>)
    requires GoodSchema(schema) && GoodTable(schema, stored)
    requires Distinct(out) && forall row :: row in out <==> HasRow(stored, picked, row)
    ensures Lists(out, stored, picked)
  {
    forall i | 0 <= i < |out| ensures HasRow(stored, picked, out[i]) {
      assert out[i] in out;
    }
    var ids := seq(|out|, i requires 0 <= i < |out| && HasRow(stored, picked, out[i]) =>
      var id :| id in stored && id in picked && stored[id] == out[i]; id);
    forall id ensures id in ids <==> id in stored && id in picked {
      if id in stored && id in picked {
        assert HasRow(stored, picked, stored[id]);
        var i :| 0 <= i < |out| && out[i] == stored[id];
        assert ids[i] == id;
      }
    }
    assert ListsInOrder(out, stored, picked, ids);
  }

  lemma ListsIff(schema: Schema, stored: Stored, picked: iset<Id>, out: seq<Row>)
    requires GoodSchema(schema) && GoodTable(schema, stored)
    ensures Lists(out, stored, picked) <==> Distinct(out) && forall row :: row in out <==> HasRow(stored, picked, row)
  {
    if ids :| ListsInOrder(out, stored, picked, ids) {
      ListedRows(schema, stored, picked, out, ids);
    }
    if Distinct(out) && forall row :: row in out <==> HasRow(stored, picked, row) {
      RowsListed(schema, stored, picked, out);
    }
  }

  /** The payload needs a statement with more values than one can bind. */
  predicate TooLarge(schema: Schema, payload: seq<Row>) {
    Updatable(schema) != [] && |payload| * |ListCols(schema)| > MAX_BINDS
  }

  lemma {:induction false} DistinctSize(cols: seq<Col>)
    requires Distinct(cols)
    ensures |set c | c in cols| == |cols|
  {
    if cols != [] {
      var rest := cols[1..];
      DistinctSize(rest);
      assert cols[0] !in rest;
      assert (set c | c in cols) == (set c | c in rest) + {cols[0]};
    }
  }

  /** A statement has one placeholder per row and column, and can have 65535. */
  lemma TooLargeMeans(schema: Schema, payload: seq<Row>)
    requires GoodSchema(schema)
    ensures |ListCols(schema)| == |schema.allCols|
    ensures TooLarge(schema, payload) <==> Updatable(schema) != [] && |payload| * |schema.allCols| > 65535
  {
    WithoutDistinct(schema.allCols, schema.pkCols);
    DistinctConcat(schema.pkCols, Updatable(schema));
    DistinctSize(ListCols(schema));
    DistinctSize(schema.allCols);
    assert (set c | c in ListCols(schema)) == set c | c in schema.allCols;
  }

  /** A run of `update` fails, and changes nothing, exactly when the payload is too large;
      any other replaces exactly the stored rows whose key is in the payload by the
      payload's rows, leaves all others, and returns the replacements, each once. */
  lemma UpdateMeans(schema: Schema, payload: seq<Row>, action: Action, before: Stored, after: Stored,
                    out: Rows.Option<seq<Row>>)
    requires GoodSchema(schema) && PayloadRows(schema, payload) && IsUpdate(schema, payload, action)
    requires action.Run? ==> Runnable(action.stmt)
    requires GoodTable(schema, before) && Agreeing(schema, payload, before)
    ensures Does(schema, action, before, after, out) <==>
      if TooLarge(schema, payload) then after == before && out.None?
      else after == PutRows(schema, before, payload) && out.Some? && Returned(schema, payload, before, out.value)
  {
    var rows := if out.Some? then out.value else [];
    var put := PutRows(schema, before, payload);
    match action {
      case Nothing =>
        assert rows != [] ==> rows[0] in rows;
      case ReadBack(keys) =>
        AllKeyColumns(schema, payload, before);
        var picked := iset id | id in before && KeyOf(schema, before[id]) in keys;
        PickedByKey(schema, payload, before, keys);
        ReturnedRows(schema, payload, before, picked, rows);
      case Run(stmt) =>
        AgreeingLeavesPut(schema, payload, stmt, before, after);
        var picked := iset id | id in before && Joined(stmt, before[id]);
        forall id, r | id in before ensures Joins(stmt, before[id], r) <==> Matches(schema, payload, before[id], r) {
          JoinsIff(schema, payload, stmt, before[id], r);
        }
        ReturnedRows(schema, payload, before, picked, rows);
    }
  }

  lemma PickedByKey(schema: Schema, payload: seq<Row>, before: Stored, keys: seq<map<Col, Val>>)
    requires GoodSchema(schema) && PayloadRows(schema, payload) && AllRows(schema, before)
    requires keys == PayloadKeys(schema, payload)
    ensures forall id :: id in before ==>
      (KeyOf(schema, before[id]) in keys <==> exists r :: Matches(schema, payload, before[id], r))
  {
    forall id | id in before
      ensures KeyOf(schema, before[id]) in keys <==> exists r :: Matches(schema, payload, before[id], r)
    {
      if KeyOf(schema, before[id]) in keys {
        var r :| 0 <= r < |keys| && keys[r] == KeyOf(schema, before[id]);
        assert Matches(schema, payload, before[id], r);
      }
      if r :| Matches(schema, payload, before[id], r) {
        assert keys[r] == KeyOf(schema, before[id]);
      }
    }
  }

  lemma ReturnedRows(schema: Schema, payload: seq<Row>, before: Stored, picked: iset<Id>, out: seq<Row>)
    requires GoodSchema(schema) && PayloadRows(schema, payload)
    requires GoodTable(schema, before) && Agreeing(schema, payload, before)
    requires forall id :: id in before ==> (id in picked <==> exists r :: Matches(schema, payload, before[id], r))
    ensures Lists(out, PutRows(schema, before, payload), picked) <==> Returned(schema, payload, before, out)
  {
    hide PutRows;
    var put := PutRows(schema, before, payload);
    ListsIff(schema, put, picked, out);
    forall row: Row ensures HasRow(put, picked, row) <==> row in payload && HasKey(schema, before, row) {
      if HasRow(put, picked, row) {
        var id :| id in put && id in picked && put[id] == row;
        var r :| Matches(schema, payload, before[id], r);
        PutRowsAt(schema, before, payload, id);
      }
      if row in payload && HasKey(schema, before, row) {
        var id :| id in before && KeyOf(schema, before[id]) == KeyOf(schema, row);
        var r :| 0 <= r < |payload| && payload[r] == row;
        assert Matches(schema, payload, before[id], r);
        PutRowsAt(schema, before, payload, id);
      }
    }
  }

  /** Where every column is in the key there is nothing to replace. */
  lemma AllKeyColumns(schema: Schema, payload: seq<Row>, before: Stored)
    requires GoodSchema(schema) && PayloadRows(schema, payload) && AllRows(schema, before)
    requires Updatable(schema) == []
    ensures PutRows(schema, before, payload) == before
  {
    hide PutRows;
    var put := PutRows(schema, before, payload);
    forall id | id in before ensures put[id] == before[id] {
      forall c | c in before[id] ensures put[id][c] == before[id][c] {
        assert c !in Updatable(schema);
        assert put[id][c] == KeyOf(schema, put[id])[c] == KeyOf(schema, before[id])[c];
      }
    }
  }
}
