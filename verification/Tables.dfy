/** Rows of a relational layout, kept in a vector and found by scanning it. */
module Tables {
  import opened Wrappers

  /** A row belongs to a linked chunk and has a key that should be unique in it. */
  datatype Row<K(==), V> = Row(lc: string, key: K, value: V)

  /** The first row of `lc` with this key, or `|rows|`. */
  function Find<K(==), V>(rows: seq<Row<K, V>>, lc: string, key: K): (r: nat)
    ensures r <= |rows|
    ensures r < |rows| ==> rows[r].lc == lc && rows[r].key == key
    ensures forall i | 0 <= i < r :: !(rows[i].lc == lc && rows[i].key == key)
  {
    if rows == [] then 0
    else if rows[0].lc == lc && rows[0].key == key then 0
    else 1 + Find(rows[1..], lc, key)
  }

  function Get<K(==), V>(rows: seq<Row<K, V>>, lc: string, key: K): Option<V> {
    var i := Find(rows, lc, key);
    if i < |rows| then Some(rows[i].value) else None
  }

  predicate Unique<K(==), V>(rows: seq<Row<K, V>>, lc: string) {
    forall i, j | 0 <= i < j < |rows| && rows[i].lc == lc && rows[j].lc == lc :: rows[i].key != rows[j].key
  }

  lemma FindIs<K, V>(rows: seq<Row<K, V>>, lc: string, i: nat)
    requires Unique(rows, lc) && i < |rows| && rows[i].lc == lc
    ensures Find(rows, lc, rows[i].key) == i
  {
  }

  lemma FindNone<K, V>(rows: seq<Row<K, V>>, lc: string, key: K)
    requires forall i | 0 <= i < |rows| && rows[i].lc == lc :: rows[i].key != key
    ensures Find(rows, lc, key) == |rows|
  {
  }

  // --- Writing a row -----------------------------------------------------------

  lemma GetSet<K, V>(rows: seq<Row<K, V>>, k: nat, v: V, lc: string, key: K)
    requires k < |rows| && k == Find(rows, rows[k].lc, rows[k].key)
    ensures var rows' := rows[k := rows[k].(value := v)];
            Get(rows', lc, key) == if lc == rows[k].lc && key == rows[k].key then Some(v) else Get(rows, lc, key)
  {
    var rows' := rows[k := rows[k].(value := v)];
    SameKeys(rows, rows', lc, key);
  }

  /** Where a row is depends only on the keys. */
  lemma {:induction false} SameKeys<K, V>(rows: seq<Row<K, V>>, rows': seq<Row<K, V>>, lc: string, key: K)
    requires |rows| == |rows'| && forall i | 0 <= i < |rows| :: rows[i].lc == rows'[i].lc && rows[i].key == rows'[i].key
    ensures Find(rows, lc, key) == Find(rows', lc, key)
  {
    if rows != [] { SameKeys(rows[1..], rows'[1..], lc, key); }
  }

  lemma UniqueSet<K, V>(rows: seq<Row<K, V>>, k: nat, v: V, lc: string)
    requires k < |rows| && Unique(rows, lc)
    ensures Unique(rows[k := rows[k].(value := v)], lc)
  {
  }

  // --- Adding a row ------------------------------------------------------------

  lemma {:induction false} GetPush<K, V>(rows: seq<Row<K, V>>, row: Row<K, V>, lc: string, key: K)
    requires Get(rows, row.lc, row.key).None?
    ensures Get(rows + [row], lc, key) == if lc == row.lc && key == row.key then Some(row.value) else Get(rows, lc, key)
  {
    if rows == [] {
      assert rows + [row] == [row];
    } else {
      assert (rows + [row])[1..] == rows[1..] + [row];
      GetPush(rows[1..], row, lc, key);
    }
  }

  lemma UniquePush<K, V>(rows: seq<Row<K, V>>, row: Row<K, V>, lc: string)
    requires Unique(rows, lc) && (lc == row.lc ==> Get(rows, row.lc, row.key).None?)
    ensures Unique(rows + [row], lc)
  {
    var rows' := rows + [row];
    assert forall i | 0 <= i < |rows| :: rows'[i] == rows[i];
  }

  // --- Removing rows -----------------------------------------------------------

  function Keep<K(==), V>(rows: seq<Row<K, V>>, keep: Row<K, V> -> bool): seq<Row<K, V>> {
    if rows == [] then []
    else if keep(rows[0]) then [rows[0]] + Keep(rows[1..], keep)
    else Keep(rows[1..], keep)
  }

  lemma {:induction false} KeepIn<K, V>(rows: seq<Row<K, V>>, keep: Row<K, V> -> bool)
    ensures forall r | r in Keep(rows, keep) :: r in rows && keep(r)
    ensures forall r | r in rows && keep(r) :: r in Keep(rows, keep)
  {
    if rows != [] {
      KeepIn(rows[1..], keep);
      assert rows == [rows[0]] + rows[1..];
    }
  }

  lemma {:induction false} UniqueKeep<K, V>(rows: seq<Row<K, V>>, keep: Row<K, V> -> bool, lc: string)
    requires Unique(rows, lc)
    ensures Unique(Keep(rows, keep), lc)
  {
    if rows != [] {
      var rest := Keep(rows[1..], keep);
      assert forall i | 0 <= i < |rows[1..]| :: rows[1..][i] == rows[i + 1];
      UniqueKeep(rows[1..], keep, lc);
      KeepIn(rows[1..], keep);
      forall j | 0 <= j < |rest| && rows[0].lc == lc && rest[j].lc == lc ensures rows[0].key != rest[j].key {
        assert rest[j] in rest && rest[j] in rows[1..];
      }
    }
  }

  /** What a row holds, by membership. */
  lemma GetIn<K, V>(rows: seq<Row<K, V>>, lc: string, key: K, v: V)
    requires Unique(rows, lc)
    ensures Get(rows, lc, key) == Some(v) <==> Row(lc, key, v) in rows
  {
    if Row(lc, key, v) in rows {
      var i :| 0 <= i < |rows| && rows[i] == Row(lc, key, v);
      FindIs(rows, lc, i);
    }
  }

  lemma GetKeep<K, V>(rows: seq<Row<K, V>>, keep: Row<K, V> -> bool, lc: string, key: K)
    requires Unique(rows, lc)
    ensures var g := Get(rows, lc, key);
            Get(Keep(rows, keep), lc, key) == if g.Some? && keep(Row(lc, key, g.value)) then g else None
  {
    UniqueKeep(rows, keep, lc);
    KeepIn(rows, keep);
    var g, g' := Get(rows, lc, key), Get(Keep(rows, keep), lc, key);
    if g.Some? { GetIn(rows, lc, key, g.value); GetIn(Keep(rows, keep), lc, key, g.value); }
    if g'.Some? { GetIn(rows, lc, key, g'.value); GetIn(Keep(rows, keep), lc, key, g'.value); }
  }

  function RemoveRow<K(==), V>(rows: seq<Row<K, V>>, k: nat): seq<Row<K, V>>
    requires k < |rows|
  {
    rows[..k] + rows[k + 1..]
  }

  lemma UniqueRemove<K, V>(rows: seq<Row<K, V>>, k: nat, lc: string)
    requires Unique(rows, lc) && k < |rows|
    ensures Unique(RemoveRow(rows, k), lc)
  {
    var rows' := RemoveRow(rows, k);
    assert forall i | 0 <= i < |rows'| :: rows'[i] == rows[if i < k then i else i + 1];
  }

  lemma GetRemove<K, V>(rows: seq<Row<K, V>>, k: nat, lc: string, key: K)
    requires k < |rows| && Unique(rows, lc)
    ensures Get(RemoveRow(rows, k), lc, key) == if lc == rows[k].lc && key == rows[k].key then None
            else Get(rows, lc, key)
  {
    UniqueRemove(rows, k, lc);
    var rows' := RemoveRow(rows, k);
    var i, j := Find(rows', lc, key), Find(rows, lc, key);
    if i < |rows'| {
      assert rows[if i < k then i else i + 1] == rows'[i];
      FindIs(rows, lc, if i < k then i else i + 1);
    }
    if j < |rows| && j != k {
      assert rows'[if j < k then j else j - 1] == rows[j];
      FindIs(rows', lc, if j < k then j else j - 1);
    }
  }
}
