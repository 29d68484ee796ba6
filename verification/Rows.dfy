/** The data every component of the CRUD stack shares: keys, rows and the two
    failure-free wrappers used throughout. */
module Rows {
  /** A primary key: only equality is needed. */
  type Key(==, !new)

  /** Everything in a row other than its key and its version. */
  type Body(==, !new)

  /** A `Crudable` value: `pkey()`, `mono_field()` and the remaining columns. */
  datatype Row = Row(key: Key, mono: int, body: Body)

  /** A table of rows; in a keyed table every row sits under its own key. */
  type Table = map<Key, Row>

  predicate KeyedTable(t: Table) {
    forall k :: k in t ==> t[k].key == k
  }

  datatype Option<+T> = None | Some(value: T)

  /** The rows of the given keys that the table has, one per occurrence, in order. */
  function Selected(t: Table, keys: seq<Key>): seq<Row> {
    if keys == [] then []
    else if keys[0] in t then [t[keys[0]]] + Selected(t, keys[1..])
    else Selected(t, keys[1..])
  }

  /** The given keys that the table does not have, in order. */
  function Missed(t: Table, keys: seq<Key>): seq<Key> {
    if keys == [] then []
    else if keys[0] in t then Missed(t, keys[1..])
    else [keys[0]] + Missed(t, keys[1..])
  }

  lemma {:induction false} SelectedSnoc(t: Table, keys: seq<Key>, k: Key)
    ensures Selected(t, keys + [k]) == Selected(t, keys) + Selected(t, [k])
    ensures Missed(t, keys + [k]) == Missed(t, keys) + Missed(t, [k])
  {
    if keys == [] {
      assert keys + [k] == [k];
    } else {
      assert (keys + [k])[1..] == keys[1..] + [k];
      SelectedSnoc(t, keys[1..], k);
    }
  }

  lemma {:induction false} NotSelected(t: Table, keys: seq<Key>, row: Row)
    requires KeyedTable(t) && row.key !in t
    ensures row !in Selected(t, keys)
  {
    if keys != [] {
      NotSelected(t, keys[1..], row);
    }
  }

  /** A row comes as often as its key is asked for. */
  lemma {:induction false} SelectedCount(t: Table, keys: seq<Key>, k: Key)
    requires KeyedTable(t) && k in t
    ensures multiset(Selected(t, keys))[t[k]] == multiset(keys)[k]
  {
    if keys != [] {
      SelectedCount(t, keys[1..], k);
      assert keys == [keys[0]] + keys[1..];
      assert keys[0] in t && keys[0] != k ==> t[keys[0]] != t[k];
    }
  }

  lemma {:induction false} SelectedElements(t: Table, keys: seq<Key>)
    ensures forall r :: r in Selected(t, keys) <==> exists k :: k in keys && k in t && t[k] == r
    ensures forall k :: k in Missed(t, keys) <==> k in keys && k !in t
  {
    if keys != [] {
      SelectedElements(t, keys[1..]);
      assert keys[0] in keys;
      assert forall k :: k in keys <==> k == keys[0] || k in keys[1..];
    }
  }

  /** Taking some keys from one table and the rest from another that agrees with it
      gives, up to order, what the other table gives for all of them. */
  lemma {:induction false} SelectedSplit(hits: Table, t: Table, keys: seq<Key>)
    requires forall k :: k in hits ==> k in t && t[k] == hits[k]
    ensures multiset(Selected(hits, keys)) + multiset(Selected(t, Missed(hits, keys))) == multiset(Selected(t, keys))
  {
    if keys != [] {
      SelectedSplit(hits, t, keys[1..]);
    }
  }
}
