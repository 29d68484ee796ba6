/** One statement for many rows: `UPDATE .. FROM (VALUES ..)` with numbered placeholders. */
module BulkUpdate {
  import Rows

  type Col(==, !new)

  type Val(==, !new)

  /** Where a stored row lives. */
  type Id(==, !new)

  type Row = map<Col, Val>

  type Stored = map<Id, Row>

  /** The columns of an entity: those of its primary key, and all of them. */
  datatype Schema = Schema(pkCols: seq<Col>, allCols: seq<Col>)

  predicate Distinct<T(==)>(s: seq<T>) {
    forall i, j :: 0 <= i < j < |s| ==> s[i] != s[j]
  }

  predicate GoodSchema(schema: Schema) {
    && Distinct(schema.pkCols) && Distinct(schema.allCols) && schema.pkCols != []
    && forall c :: c in schema.pkCols ==> c in schema.allCols
  }

  /** A row of the entity has a value in every column and in no other. */
  ghost predicate IsRow(schema: Schema, row: Row) {
    row.Keys == set c | c in schema.allCols
  }

  /** `pkey()`: the values of the key columns. */
  function KeyOf(schema: Schema, row: Row): map<Col, Val>
    requires GoodSchema(schema) && IsRow(schema, row)
  {
    map c | c in schema.pkCols :: row[c]
  }

  function Without(cols: seq<Col>, drop: seq<Col>): (r: seq<Col>)
    ensures forall c :: c in r <==> c in cols && c !in drop
  {
    if cols == [] then [] else (if cols[0] in drop then [] else [cols[0]]) + Without(cols[1..], drop)
  }

  lemma {:induction false} WithoutDistinct(cols: seq<Col>, drop: seq<Col>)
    requires Distinct(cols)
    ensures Distinct(Without(cols, drop))
  {
    if cols != [] {
      WithoutDistinct(cols[1..], drop);
      var rest := Without(cols[1..], drop);
      assert forall i :: 0 <= i < |rest| ==> rest[i] in cols[1..];
      assert cols[0] !in cols[1..];
    }
  }

  function Updatable(schema: Schema): seq<Col> {
    Without(schema.allCols, schema.pkCols)
  }

  // ------------------------------------------------------------- statements

  /** `UPDATE table AS t SET c = v.c, .. FROM (VALUES ($n, ..), ..) AS v (vCols)
      WHERE t.k = v.k AND .. RETURNING t.*`, with the values to bind. */
  datatype Statement = Statement(setCols: seq<Col>, vCols: seq<Col>, rows: seq<seq<nat>>, whereCols: seq<Col>, binds: seq<Val>)

  /** How many values a statement can bind: the protocol counts them in 16 bits. */
  const MAX_BINDS: nat := 65535

  /** A statement the database understands: every list it needs is there, names are not
      ambiguous, and each placeholder has a value. */
  ghost predicate Runnable(stmt: Statement) {
    && stmt.setCols != [] && stmt.rows != [] && stmt.whereCols != [] && Distinct(stmt.vCols)
    && (forall c :: c in stmt.setCols || c in stmt.whereCols ==> c in stmt.vCols)
    && forall r :: 0 <= r < |stmt.rows| ==> |stmt.rows[r]| == |stmt.vCols| && AllBound(stmt.rows[r], |stmt.binds|)
  }

  predicate AllBound(places: seq<nat>, bound: nat) {
    forall i :: 0 <= i < |places| ==> 1 <= places[i] <= bound
  }

  function IndexOf(cols: seq<Col>, c: Col): (i: nat)
    requires c in cols
    ensures i < |cols| && cols[i] == c
  {
    if cols[0] == c then 0 else 1 + IndexOf(cols[1..], c)
  }

  /** The value of `v.c` in the r-th row of the VALUES list. */
  function ListValue(stmt: Statement, r: int, c: Col): Val
    requires Runnable(stmt) && 0 <= r < |stmt.rows| && c in stmt.vCols
  {
    stmt.binds[stmt.rows[r][IndexOf(stmt.vCols, c)] - 1]
  }

  /** Whether the WHERE clause joins a stored row with the r-th row of the list. */
  predicate Joins(stmt: Statement, row: Row, r: int)
    requires Runnable(stmt)
  {
    0 <= r < |stmt.rows| && forall c :: c in stmt.whereCols ==> c in row && row[c] == ListValue(stmt, r, c)
  }

  /** A stored row after SET with the r-th row of the list. */
  function Assigned(stmt: Statement, row: Row, r: int): Row
    requires Runnable(stmt) && 0 <= r < |stmt.rows|
  {
    map c | c in row :: if c in stmt.setCols then ListValue(stmt, r, c) else row[c]
  }

  ghost predicate Joined(stmt: Statement, row: Row)
    requires Runnable(stmt)
  {
    exists r :: Joins(stmt, row, r)
  }

  /** What running the statement may leave of a stored row: one that joins nothing stays,
      one that joins is set from some row of the list that it joins; the database chooses. */
  ghost predicate LeavesAt(stmt: Statement, row: Row, left: Row)
    requires Runnable(stmt)
  {
    if Joined(stmt, row) then exists r :: Joins(stmt, row, r) && left == Assigned(stmt, row, r)
    else left == row
  }

  ghost predicate Leaves(stmt: Statement, before: Stored, after: Stored)
    requires Runnable(stmt)
  {
    after.Keys == before.Keys && forall id :: id in before ==> LeavesAt(stmt, before[id], after[id])
  }

  /** `out` lists the rows stored at `picked`, each once, in some order. */
  ghost predicate Lists(out: seq<Row>, stored: Stored, picked: iset<Id>) {
    exists ids: seq<Id> :: ListsInOrder(out, stored, picked, ids)
  }

  ghost predicate ListsInOrder(out: seq<Row>, stored: Stored, picked: iset<Id>, ids: seq<Id>) {
    && Distinct(ids) && |out| == |ids|
    && (forall id :: id in ids <==> id in stored && id in picked)
    && forall i :: 0 <= i < |ids| ==> ids[i] in stored && out[i] == stored[ids[i]]
  }

  // ------------------------------------------------------ what `update` does

  datatype Action =
    | Nothing
    | ReadBack(keys: seq<map<Col, Val>>)
    | Run(stmt: Statement)

  /** The effect of an action on the stored rows, and what it returns; `None` is an error. */
  ghost predicate Does(schema: Schema, action: Action, before: Stored, after: Stored, out: Rows.Option<seq<Row>>)
    requires GoodSchema(schema) && AllRows(schema, before)
    requires action.Run? ==> Runnable(action.stmt)
  {
    match action
    case Nothing => after == before && out == Rows.Some([])
    case ReadBack(keys) =>
      after == before && out.Some? && Lists(out.value, before, iset id | id in before && KeyOf(schema, before[id]) in keys)
    case Run(stmt) =>
      if |stmt.binds| > MAX_BINDS then after == before && out.None?
      else Leaves(stmt, before, after) && out.Some? && Lists(out.value, after, iset id | id in before && Joined(stmt, before[id]))
  }

  ghost predicate PayloadRows(schema: Schema, payload: seq<Row>) {
    forall r :: 0 <= r < |payload| ==> IsRow(schema, payload[r])
  }

  ghost predicate AllRows(schema: Schema, stored: Stored) {
    forall id :: id in stored ==> IsRow(schema, stored[id])
  }

  function PayloadKeys(schema: Schema, payload: seq<Row>): (keys: seq<map<Col, Val>>)
    requires GoodSchema(schema) && PayloadRows(schema, payload)
    ensures |keys| == |payload| && forall r :: 0 <= r < |keys| ==> keys[r] == KeyOf(schema, payload[r])
  {
    seq(|payload|, r requires 0 <= r < |payload| && IsRow(schema, payload[r]) => KeyOf(schema, payload[r]))
  }

  /** The number of the value in row `r` and column `c` of the list, from 0. */
  function Slot(r: nat, c: nat, width: nat): nat {
    r * width + c
  }

  function ListCols(schema: Schema): seq<Col> {
    schema.pkCols + Updatable(schema)
  }

  /** The first rows of the list, with the values bound for them: the placeholder in row
      `r` and column `c` is `$n` with `n == r * width + c + 1`, and names that row's value. */
  ghost predicate Filled(schema: Schema, payload: seq<Row>, rows: seq<seq<nat>>, binds: seq<Val>)
    requires GoodSchema(schema) && PayloadRows(schema, payload)
  {
    var width := |ListCols(schema)|;
    && |rows| <= |payload| && |binds| == |rows| * width
    && forall r, c :: 0 <= r < |rows| && 0 <= c < width ==> Bound(schema, payload[r], rows[r], binds, Slot(r, c, width), c)
  }

  /** Column `c` of a row of the list names the value in slot `n`, which is the row's. */
  ghost predicate Bound(schema: Schema, row: Row, places: seq<nat>, binds: seq<Val>, n: nat, c: nat)
    requires GoodSchema(schema) && IsRow(schema, row) && c < |ListCols(schema)|
  {
    && |places| == |ListCols(schema)| && n < |binds|
    && places[c] == n + 1 && binds[n] == row[ListCols(schema)[c]]
  }

  /** The statement that updates all of `payload`. */
  ghost predicate IsBulkUpdate(schema: Schema, payload: seq<Row>, stmt: Statement)
    requires GoodSchema(schema) && PayloadRows(schema, payload)
  {
    && stmt.setCols == Updatable(schema) && stmt.whereCols == schema.pkCols && stmt.vCols == ListCols(schema)
    && |stmt.rows| == |payload| && Filled(schema, payload, stmt.rows, stmt.binds)
  }

  lemma FilledMore(schema: Schema, payload: seq<Row>, rows: seq<seq<nat>>, binds: seq<Val>, places: seq<nat>, more: seq<Val>)
    requires GoodSchema(schema) && PayloadRows(schema, payload) && Filled(schema, payload, rows, binds)
    requires |rows| < |payload| && |places| == |ListCols(schema)| && |more| == |binds| + |ListCols(schema)|
    requires more[..|binds|] == binds
    requires forall c :: 0 <= c < |places| ==> places[c] == |binds| + 1 + c
    requires forall c :: 0 <= c < |places| ==> more[|binds| + c] == payload[|rows|][ListCols(schema)[c]]
    ensures Filled(schema, payload, rows + [places], more)
  {
    var width, r0 := |places|, |rows|;
    assert (r0 + 1) * width == r0 * width + width;
    forall r, c | 0 <= r < r0 + 1 && 0 <= c < width
      ensures Bound(schema, payload[r], (rows + [places])[r], more, Slot(r, c, width), c)
    {
      if r < r0 {
        var n := Slot(r, c, width);
        assert Bound(schema, payload[r], rows[r], binds, n, c);
        assert more[n] == more[..|binds|][n];
      } else {
        assert Slot(r, c, width) == |binds| + c;
      }
    }
  }

  /** One row's values in column order, pushed after those of the rows before it. */
  method PushRow(schema: Schema, row: Row, binds: seq<Val>) returns (more: seq<Val>)
    requires GoodSchema(schema) && IsRow(schema, row)
    ensures |more| == |binds| + |ListCols(schema)| && more[..|binds|] == binds
    ensures forall c :: 0 <= c < |ListCols(schema)| ==> more[|binds| + c] == row[ListCols(schema)[c]]
  {
    more := binds;
    var updatable := Updatable(schema);
    for i := 0 to |schema.pkCols|
      invariant |more| == |binds| + i && more[..|binds|] == binds
      invariant forall c :: 0 <= c < i ==> more[|binds| + c] == row[schema.pkCols[c]]
    {
      more := more + [row[schema.pkCols[i]]];
    }
    for i := 0 to |updatable|
      invariant |more| == |binds| + |schema.pkCols| + i && more[..|binds|] == binds
      invariant forall c :: 0 <= c < |schema.pkCols| + i ==> more[|binds| + c] == row[ListCols(schema)[c]]
    {
      assert ListCols(schema)[|schema.pkCols| + i] == updatable[i];
      more := more + [row[updatable[i]]];
    }
  }

  /** The statement builder of `update`. */
  method BuildUpdate(schema: Schema, payload: seq<Row>) returns (stmt: Statement)
    requires GoodSchema(schema) && PayloadRows(schema, payload)
    ensures IsBulkUpdate(schema, payload, stmt)
  {
    var width := |ListCols(schema)|;
    var binds: seq<Val> := [];
    var rows: seq<seq<nat>> := [];
    var nextIdx: nat := 1;
    for r := 0 to |payload|
      invariant |rows| == r && nextIdx == |binds| + 1
      invariant Filled(schema, payload, rows, binds)
    {
      var more := PushRow(schema, payload[r], binds);
      var places: seq<nat> := seq(width, i requires 0 <= i < width => nextIdx + i);
      FilledMore(schema, payload, rows, binds, places, more);
      binds := more;
      nextIdx := nextIdx + width;
      rows := rows + [places];
    }
    stmt := Statement(Updatable(schema), ListCols(schema), rows, schema.pkCols, binds);
  }

  /** What `update` asks the database for. */
  ghost predicate IsUpdate(schema: Schema, payload: seq<Row>, action: Action)
    requires GoodSchema(schema) && PayloadRows(schema, payload)
  {
    if payload == [] then action == Nothing
    else if Updatable(schema) == [] then action == ReadBack(PayloadKeys(schema, payload))
    else action.Run? && IsBulkUpdate(schema, payload, action.stmt)
  }

  method Update(schema: Schema, payload: seq<Row>) returns (action: Action)
    requires GoodSchema(schema) && PayloadRows(schema, payload)
    ensures IsUpdate(schema, payload, action)
    ensures action.Run? ==> Runnable(action.stmt)
  {
    if payload == [] {
      return Nothing;
    }
    if Updatable(schema) == [] {
      return ReadBack(PayloadKeys(schema, payload));
    }
    var stmt := BuildUpdate(schema, payload);
    BulkUpdateRuns(schema, payload, stmt);
    return Run(stmt);
  }

  lemma DistinctConcat(a: seq<Col>, b: seq<Col>)
    requires Distinct(a) && Distinct(b) && forall c :: c in b ==> c !in a
    ensures Distinct(a + b)
  {
    forall i, j | 0 <= i < j < |a + b| ensures (a + b)[i] != (a + b)[j] {
      if i < |a| <= j {
        assert (a + b)[j] in b && (a + b)[i] in a;
      }
    }
  }

  lemma BulkUpdateRuns(schema: Schema, payload: seq<Row>, stmt: Statement)
    requires GoodSchema(schema) && PayloadRows(schema, payload) && IsBulkUpdate(schema, payload, stmt)
    requires payload != [] && Updatable(schema) != []
    ensures Runnable(stmt)
  {
    WithoutDistinct(schema.allCols, schema.pkCols);
    var width := |ListCols(schema)|;
    DistinctConcat(schema.pkCols, Updatable(schema));
    forall r | 0 <= r < |stmt.rows|
      ensures |stmt.rows[r]| == width && AllBound(stmt.rows[r], |stmt.binds|)
    {
      assert Bound(schema, payload[r], stmt.rows[r], stmt.binds, Slot(r, 0, width), 0);
      forall i | 0 <= i < |stmt.rows[r]| ensures 1 <= stmt.rows[r][i] <= |stmt.binds| {
        assert Bound(schema, payload[r], stmt.rows[r], stmt.binds, Slot(r, i, width), i);
      }
    }
  }
}
