/** The source behind the handler, as far as the handler relies on it: statements on
    one plain connection, each of them atomic. */
module Source {
  import opened Rows

  function KeysOf(rows: seq<Row>): set<Key> {
    set r | r in rows :: r.key
  }

  predicate DistinctKeys(rows: seq<Row>) {
    forall i, j :: 0 <= i < j < |rows| ==> rows[i].key != rows[j].key
  }

  function RowsAt(t: Table, keys: set<Key>): set<Row> {
    set k | k in keys && k in t :: t[k]
  }

  function Put(t: Table, rows: seq<Row>): Table
    decreases |rows|
  {
    if rows == [] then t else Put(t[rows[0].key := rows[0]], rows[1..])
  }

  /** The rows of `rows` whose key the table has. */
  function Present(t: Table, rows: seq<Row>): (r: seq<Row>)
    ensures forall x :: x in r <==> x in rows && x.key in t
    ensures DistinctKeys(rows) ==> DistinctKeys(r)
  {
    if rows == [] then [] else
      var rest := Present(t, rows[1..]);
      if rows[0].key in t then [rows[0]] + rest else rest
  }

  /** An insert statement fails as a whole on a key that exists or comes twice. */
  predicate Acceptable(t: Table, rows: seq<Row>) {
    DistinctKeys(rows) && KeysOf(rows) !! t.Keys
  }

  /** A select by key: every row asked for that exists, once, in no particular order. */
  ghost predicate IsReadOf(t: Table, keys: seq<Key>, found: seq<Row>) {
    && DistinctKeys(found)
    && forall r :: r in found <==> r.key in keys && r.key in t && t[r.key] == r
  }

  /** An update statement: of the payload rows for a stored key it takes one, whichever the
      database chooses, and it returns the rows it took. */
  ghost predicate IsUpdateOf(t: Table, items: seq<Row>, updated: seq<Row>) {
    && DistinctKeys(updated)
    && (forall r :: r in updated ==> r in items && r.key in t)
    && forall r :: r in items && r.key in t ==> r.key in KeysOf(updated)
  }

  /** The last row of each key. */
  function LastPerKey(rows: seq<Row>): (r: seq<Row>)
    ensures DistinctKeys(r) && (forall x :: x in r ==> x in rows)
    ensures forall x :: x in rows ==> x.key in KeysOf(r)
  {
    if rows == [] then []
    else
      var rest := LastPerKey(rows[1..]);
      var all := [rows[0]] + rest;
      assert rows[0] in all && forall x :: x in rest ==> x in all;
      assert forall x :: x in rows <==> x == rows[0] || x in rows[1..];
      if rows[0].key in KeysOf(rest) then rest else all
  }

  lemma {:induction false} PutMeans(t: Table, rows: seq<Row>)
    requires DistinctKeys(rows)
    ensures Put(t, rows).Keys == t.Keys + KeysOf(rows)
    ensures forall r :: r in rows ==> Put(t, rows)[r.key] == r
    ensures forall k :: k in t && k !in KeysOf(rows) ==> Put(t, rows)[k] == t[k]
    decreases |rows|
  {
    if rows != [] {
      PutMeans(t[rows[0].key := rows[0]], rows[1..]);
      assert forall r :: r in rows <==> r == rows[0] || r in rows[1..];
      assert rows[0].key !in KeysOf(rows[1..]);
    }
  }

  /** With distinct payload keys the database has no choice. */
  lemma UpdateOfDistinct(t: Table, items: seq<Row>, updated: seq<Row>)
    requires DistinctKeys(items) && IsUpdateOf(t, items, updated)
    ensures forall r :: r in updated <==> r in Present(t, items)
    ensures Put(t, updated) == Put(t, Present(t, items))
  {
    var hit := Present(t, items);
    forall r ensures r in updated <==> r in hit {
      if r in hit {
        var u :| u in updated && u.key == r.key;
        assert u in items && r in items;
      }
    }
    PutMeans(t, updated);
    PutMeans(t, hit);
    forall k | k in Put(t, hit) ensures Put(t, updated)[k] == Put(t, hit)[k] {
      if k in KeysOf(hit) {
        var r :| r in hit && r.key == k;
      }
    }
    assert KeysOf(updated) == KeysOf(hit);
  }

  /** `u` is `t` with these rows, all of new keys, and nothing else. */
  ghost predicate Added(t: Table, u: Table, items: seq<Row>) {
    && (forall x :: x in items ==> x.key !in t && x.key in u && u[x.key] == x)
    && (forall k :: k in t ==> k in u && u[k] == t[k])
    && forall k :: k in u && k !in t ==> u[k] in items
  }

  /** `u` is `t` with the stored rows of the payload's keys replaced by payload rows. */
  ghost predicate Overwritten(t: Table, u: Table, items: seq<Row>) {
    && (forall k :: k in u <==> k in t)
    && (forall x :: x in items && x.key in t ==> u[x.key] in items && u[x.key].key == x.key)
    && forall k :: k in t && (forall x :: x in items ==> x.key != k) ==> u[k] == t[k]
  }

  /** `u` is `t` without these keys. */
  ghost predicate Removed(t: Table, u: Table, keys: seq<Key>) {
    && (forall k :: k in u <==> k in t && k !in keys)
    && forall k :: k in u ==> u[k] == t[k]
  }

  /** The keys are distinct and none of them is stored. */
  ghost predicate AllNew(t: Table, items: seq<Row>) {
    && (forall i, j :: 0 <= i < j < |items| ==> items[i].key != items[j].key)
    && forall x :: x in items ==> x.key !in t
  }

  lemma AcceptableMeans(t: Table, items: seq<Row>)
    ensures Acceptable(t, items) <==> AllNew(t, items)
    ensures Acceptable(t, items) ==> Added(t, Put(t, items), items)
  {
    forall x | x in items ensures x.key in KeysOf(items) {
    }
    if AllNew(t, items) {
      PutMeans(t, items);
      forall k | k in Put(t, items) && k !in t ensures Put(t, items)[k] in items {
        var x :| x in items && x.key == k;
      }
    }
  }

  lemma UpdateMeans(t: Table, items: seq<Row>, updated: seq<Row>)
    requires IsUpdateOf(t, items, updated)
    ensures Overwritten(t, Put(t, updated), items)
  {
    PutMeans(t, updated);
    var u := Put(t, updated);
    forall x | x in items && x.key in t ensures u[x.key] in items && u[x.key].key == x.key {
      var y :| y in updated && y.key == x.key;
    }
  }

  class CrudableSource {
    var rows: Table

    constructor (rows: Table)
      ensures this.rows == rows
    {
      this.rows := rows;
    }

    method Create(items: seq<Row>) returns (r: Option<seq<Row>>)
      modifies this
      ensures r == if Acceptable(old(rows), items) then Some(items) else None
      ensures rows == if Acceptable(old(rows), items) then Put(old(rows), items) else old(rows)
      ensures r.Some? <==> AllNew(old(rows), items)
      ensures if r.Some? then Added(old(rows), rows, items) else rows == old(rows)
    {
      AcceptableMeans(rows, items);
      if Acceptable(rows, items) {
        rows := Put(rows, items);
        r := Some(items);
      } else {
        r := None;
      }
    }

    method Read(keys: seq<Key>) returns (found: seq<Row>)
      requires KeyedTable(rows)
      ensures IsReadOf(rows, keys, found)
    {
      found := [];
      for i := 0 to |keys|
        invariant IsReadOf(rows, keys[..i], found)
      {
        var k := keys[i];
        if k in rows && rows[k] !in found {
          found := found + [rows[k]];
        }
      }
      assert keys[..|keys|] == keys;
    }

    method Update(items: seq<Row>) returns (updated: seq<Row>)
      modifies this
      ensures IsUpdateOf(old(rows), items, updated)
      ensures rows == Put(old(rows), updated) && Overwritten(old(rows), rows, items)
    {
      updated := LastPerKey(Present(rows, items));
      UpdateMeans(rows, items, updated);
      rows := Put(rows, updated);
    }

    method Delete(keys: seq<Key>) returns (deleted: seq<Row>)
      requires KeyedTable(rows)
      modifies this
      ensures IsReadOf(old(rows), keys, deleted)
      ensures rows == old(rows) - (set k | k in keys) && Removed(old(rows), rows, keys)
    {
      deleted := Read(keys);
      rows := rows - (set k | k in keys);
    }
  }
}
