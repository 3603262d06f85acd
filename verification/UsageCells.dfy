/**
 * Maps that remember the order of insertion, the USD sums per group and key, and
 * the keys in string order (groupCells and the sort of split in
 * src/modules/ai-credits/ai-credit.logic.ts). USD are whole micro-USD.
 */
module UsageCells {
  import opened Common
  import opened LedgerMonth

  datatype Entry<+V> = Entry(key: string, value: V)
  type Cells = seq<Entry<int>>

  /** A ledger row as groupCells sees it: its group, its key and its USD. */
  datatype Row = Row(group: string, key: string, usd: int)

  // ── Maps in insertion order ──

  function Lookup<V>(m: seq<Entry<V>>, key: string): Option<V> {
    if m == [] then None
    else if m[0].key == key then Some(m[0].value)
    else Lookup(m[1..], key)
  }

  /** A known key keeps its place, a new one goes last. */
  function Put<V>(m: seq<Entry<V>>, key: string, value: V): seq<Entry<V>> {
    if m == [] then [Entry(key, value)]
    else if m[0].key == key then [Entry(key, value)] + m[1..]
    else [m[0]] + Put(m[1..], key, value)
  }

  function Keys<V>(m: seq<Entry<V>>): (keys: seq<string>)
    ensures |keys| == |m| && forall i :: 0 <= i < |m| ==> keys[i] == m[i].key
  {
    seq(|m|, i requires 0 <= i < |m| => m[i].key)
  }

  lemma {:induction false} PutLookup<V>(m: seq<Entry<V>>, key: string, value: V, other: string)
    ensures Lookup(Put(m, key, value), other) == if other == key then Some(value) else Lookup(m, other)
  {
    if m != [] && m[0].key != key { PutLookup(m[1..], key, value, other); }
  }

  lemma {:induction false} PutKeys<V>(m: seq<Entry<V>>, key: string, value: V)
    ensures forall k :: k in Keys(Put(m, key, value)) <==> k == key || k in Keys(m)
    ensures NoDuplicates(Keys(m)) ==> NoDuplicates(Keys(Put(m, key, value)))
  {
    if m == [] {
      assert Keys(Put(m, key, value)) == [key];
    } else if m[0].key == key {
      assert Keys(Put(m, key, value)) == Keys(m);
    } else {
      PutKeys(m[1..], key, value);
      assert Keys(m) == [m[0].key] + Keys(m[1..]);
      assert Keys(Put(m, key, value)) == [m[0].key] + Keys(Put(m[1..], key, value));
      if NoDuplicates(Keys(m)) { TailHasNoDuplicates(m); }
    }
  }

  lemma TailHasNoDuplicates<V>(m: seq<Entry<V>>)
    requires m != [] && NoDuplicates(Keys(m))
    ensures NoDuplicates(Keys(m[1..])) && m[0].key !in Keys(m[1..])
  {
    assert Keys(m) == [m[0].key] + Keys(m[1..]);
    forall i, j | 0 <= i < j < |Keys(m[1..])| ensures Keys(m[1..])[i] != Keys(m[1..])[j] {
      assert Keys(m)[i + 1] != Keys(m)[j + 1];
    }
    forall i | 0 <= i < |Keys(m[1..])| ensures Keys(m[1..])[i] != m[0].key {
      assert Keys(m)[0] != Keys(m)[i + 1];
    }
  }

  lemma {:induction false} LookupAt<V>(m: seq<Entry<V>>, i: nat)
    requires NoDuplicates(Keys(m)) && i < |m|
    ensures Lookup(m, m[i].key) == Some(m[i].value)
  {
    if i > 0 {
      assert Keys(m)[0] != Keys(m)[i];
      TailHasNoDuplicates(m);
      LookupAt(m[1..], i - 1);
    }
  }

  lemma {:induction false} LookupFinds<V>(m: seq<Entry<V>>, key: string)
    ensures Lookup(m, key).Some? <==> key in Keys(m)
  {
    if m != [] {
      LookupFinds(m[1..], key);
      assert Keys(m) == [m[0].key] + Keys(m[1..]);
    }
  }

  // ── groupCells ──

  /** One row added to the cells of its group. */
  function AddRow(groups: seq<Entry<Cells>>, row: Row): seq<Entry<Cells>> {
    var cells := match Lookup(groups, row.group) case Some(c) => c case None => [];
    var before := match Lookup(cells, row.key) case Some(usd) => usd case None => 0;
    Put(groups, row.group, Put(cells, row.key, before + Max(0, row.usd)))
  }

  function Grouped(rows: seq<Row>): seq<Entry<Cells>> {
    if rows == [] then [] else AddRow(Grouped(rows[..|rows| - 1]), rows[|rows| - 1])
  }

  /** The USD of a group and key, straight from the rows; negative rows count as nothing. */
  function Spent(rows: seq<Row>, group: string, key: string): nat {
    if rows == [] then 0
    else
      var row := rows[|rows| - 1];
      Spent(rows[..|rows| - 1], group, key)
        + if row.group == group && row.key == key && row.usd > 0 then row.usd else 0
  }

  predicate Occurs(rows: seq<Row>, group: string, key: string) {
    exists i :: 0 <= i < |rows| && rows[i].group == group && rows[i].key == key
  }

  predicate GroupOccurs(rows: seq<Row>, group: string) {
    exists i :: 0 <= i < |rows| && rows[i].group == group
  }

  function Cell(groups: seq<Entry<Cells>>, group: string, key: string): Option<int> {
    match Lookup(groups, group)
    case None => None
    case Some(cells) => Lookup(cells, key)
  }

  lemma AddRowCell(groups: seq<Entry<Cells>>, row: Row, group: string, key: string)
    ensures var before := Cell(groups, group, key);
      Cell(AddRow(groups, row), group, key)
        == (if group == row.group && key == row.key
            then Some((match before case Some(usd) => usd case None => 0) + Max(0, row.usd))
            else before)
  {
    var cells := match Lookup(groups, row.group) case Some(c) => c case None => [];
    var before := match Lookup(cells, row.key) case Some(usd) => usd case None => 0;
    PutLookup(groups, row.group, Put(cells, row.key, before + Max(0, row.usd)), group);
    PutLookup(cells, row.key, before + Max(0, row.usd), key);
  }

  lemma OccursLast(rows: seq<Row>, group: string, key: string)
    requires rows != []
    ensures var n := |rows| - 1;
      Occurs(rows, group, key) <==> Occurs(rows[..n], group, key) || (rows[n].group == group && rows[n].key == key)
  {
    var n := |rows| - 1;
    if i :| 0 <= i < n && rows[..n][i].group == group && rows[..n][i].key == key {
      assert rows[i].group == group && rows[i].key == key;
    }
    if i :| 0 <= i < n && rows[i].group == group && rows[i].key == key {
      assert rows[..n][i].group == group && rows[..n][i].key == key;
    }
  }

  lemma GroupOccursLast(rows: seq<Row>, group: string)
    requires rows != []
    ensures var n := |rows| - 1; GroupOccurs(rows, group) <==> GroupOccurs(rows[..n], group) || rows[n].group == group
  {
    var n := |rows| - 1;
    if i :| 0 <= i < n && rows[..n][i].group == group { assert rows[i].group == group; }
    if i :| 0 <= i < n && rows[i].group == group { assert rows[..n][i].group == group; }
  }

  /** Every (group, key) of the rows has one cell holding exactly its USD; nothing else has one. */
  lemma {:induction false} GroupedIsExact(rows: seq<Row>, group: string, key: string)
    ensures Cell(Grouped(rows), group, key)
      == (if Occurs(rows, group, key) then Some(Spent(rows, group, key)) else None)
  {
    if rows != [] {
      var n := |rows| - 1;
      GroupedIsExact(rows[..n], group, key);
      AddRowCell(Grouped(rows[..n]), rows[n], group, key);
      OccursLast(rows, group, key);
      if !Occurs(rows[..n], group, key) { NothingSpent(rows[..n], group, key); }
    }
  }

  lemma {:induction false} NothingSpent(rows: seq<Row>, group: string, key: string)
    requires !Occurs(rows, group, key)
    ensures Spent(rows, group, key) == 0
  {
    if rows != [] {
      OccursLast(rows, group, key);
      NothingSpent(rows[..|rows| - 1], group, key);
    }
  }

  ghost predicate GoodCells(cells: Cells) { cells != [] && NoDuplicates(Keys(cells)) }

  ghost predicate AllGood(groups: seq<Entry<Cells>>) {
    forall i :: 0 <= i < |groups| ==> GoodCells(groups[i].value)
  }

  /** The shape of a grouping: groups and keys occur once, and no group is empty. */
  ghost predicate WellGrouped(groups: seq<Entry<Cells>>) {
    NoDuplicates(Keys(groups)) && AllGood(groups)
  }

  lemma {:induction false} PutKeepsGood(groups: seq<Entry<Cells>>, key: string, cells: Cells)
    requires AllGood(groups) && GoodCells(cells)
    ensures AllGood(Put(groups, key, cells))
  {
    if groups != [] && groups[0].key != key { PutKeepsGood(groups[1..], key, cells); }
  }

  lemma {:induction false} LookupIsGood(groups: seq<Entry<Cells>>, key: string)
    requires AllGood(groups) && Lookup(groups, key).Some?
    ensures GoodCells(Lookup(groups, key).value)
  {
    if groups[0].key != key { LookupIsGood(groups[1..], key); }
  }

  lemma AddRowKeepsShape(groups: seq<Entry<Cells>>, row: Row)
    requires WellGrouped(groups)
    ensures WellGrouped(AddRow(groups, row))
    ensures forall g :: g in Keys(AddRow(groups, row)) <==> g == row.group || g in Keys(groups)
  {
    var cells := match Lookup(groups, row.group) case Some(c) => c case None => [];
    var before := match Lookup(cells, row.key) case Some(usd) => usd case None => 0;
    var put := Put(cells, row.key, before + Max(0, row.usd));
    if Lookup(groups, row.group).Some? { LookupIsGood(groups, row.group); }
    PutKeys(cells, row.key, before + Max(0, row.usd));
    assert row.key in Keys(put);
    PutKeys(groups, row.group, put);
    PutKeepsGood(groups, row.group, put);
  }

  /** The groups are those of the rows, each once, with each of its keys once. */
  lemma {:induction false} GroupedIsWellGrouped(rows: seq<Row>)
    ensures WellGrouped(Grouped(rows))
    ensures forall g :: g in Keys(Grouped(rows)) <==> GroupOccurs(rows, g)
  {
    if rows != [] {
      var n := |rows| - 1;
      GroupedIsWellGrouped(rows[..n]);
      AddRowKeepsShape(Grouped(rows[..n]), rows[n]);
      forall g ensures g in Keys(Grouped(rows)) <==> GroupOccurs(rows, g) { GroupOccursLast(rows, g); }
    }
  }

  method GroupCells(rows: seq<Row>) returns (groups: seq<Entry<Cells>>)
    ensures groups == Grouped(rows)
  {
    groups := [];
    for i := 0 to |rows|
      invariant groups == Grouped(rows[..i])
    {
      var row := rows[i];
      var found := Lookup(groups, row.group);
      var cells := if found.Some? then found.value else [];
      var known := Lookup(cells, row.key);
      cells := Put(cells, row.key, (if known.Some? then known.value else 0) + Max(0, row.usd));
      groups := Put(groups, row.group, cells);
      assert rows[..i + 1][..i] == rows[..i];
    }
    assert rows[..|rows|] == rows;
  }

  // ── Keys in string order ──

  function InsertKey(keys: seq<string>, key: string): (t: seq<string>)
    ensures |t| == |keys| + 1 && multiset(t) == multiset(keys) + multiset{key}
  {
    if keys == [] || Less(key, keys[0]) then [key] + keys
    else
      assert keys == [keys[0]] + keys[1..];
      [keys[0]] + InsertKey(keys[1..], key)
  }

  function SortedKeys(keys: seq<string>): (t: seq<string>)
    ensures |t| == |keys| && multiset(t) == multiset(keys)
  {
    if keys == [] then []
    else
      assert keys == keys[..|keys| - 1] + [keys[|keys| - 1]];
      InsertKey(SortedKeys(keys[..|keys| - 1]), keys[|keys| - 1])
  }

  ghost predicate Ascending(keys: seq<string>) {
    forall i, j :: 0 <= i < j < |keys| ==> Less(keys[i], keys[j])
  }

  lemma {:induction false} InsertKeepsAscending(keys: seq<string>, key: string)
    requires Ascending(keys) && key !in keys
    ensures Ascending(InsertKey(keys, key))
  {
    var t := InsertKey(keys, key);
    if keys == [] {
    } else if Less(key, keys[0]) {
      forall j | 0 < j < |t| ensures Less(t[0], t[j]) {
        if j > 1 { LessIsTransitive(key, keys[0], keys[j - 1]); }
      }
    } else {
      InsertKeepsAscending(keys[1..], key);
      LessIsTotal(key, keys[0]);
      var rest := InsertKey(keys[1..], key);
      forall j | 0 <= j < |rest| ensures Less(keys[0], rest[j]) {
        assert rest[j] in multiset(rest);
        if rest[j] != key {
          assert rest[j] in keys[1..];
          var p :| 0 <= p < |keys[1..]| && keys[1..][p] == rest[j];
          assert keys[p + 1] == rest[j];
        }
      }
    }
  }

  lemma {:induction false} SortedIsAscending(keys: seq<string>)
    requires NoDuplicates(keys)
    ensures Ascending(SortedKeys(keys))
  {
    if keys != [] {
      var n := |keys| - 1;
      SortedIsAscending(keys[..n]);
      var sorted := SortedKeys(keys[..n]);
      assert forall k :: k in sorted <==> k in multiset(sorted);
      InsertKeepsAscending(sorted, keys[n]);
    }
  }

  lemma AscendingHasNoDuplicates(keys: seq<string>)
    requires Ascending(keys)
    ensures NoDuplicates(keys)
  {
    forall i, j | 0 <= i < j < |keys| ensures keys[i] != keys[j] { LessIsTotal(keys[i], keys[j]); }
  }
}
