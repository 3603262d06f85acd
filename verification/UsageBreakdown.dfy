/** Splits, groups and lines of the usage page (src/modules/ai-credits/ai-credit.logic.ts). */
module UsageBreakdown {
  import opened Common
  import opened UsageCells
  import opened Apportionment
  import opened ApportionPoints
  import opened UsagePage

  /** Nothing else is nearer: v * Nearest is within half a v of a, and exactly half only from above. */
  lemma NearestIsNearest(a: nat, v: nat)
    requires v > 0
    ensures 2 * v * Nearest(a, v) <= 2 * a + v && 2 * a < 2 * v * Nearest(a, v) + v
  {
    DivMod(2 * a + v, 2 * v);
  }

  /** More USD never shows fewer points. */
  lemma PointsGrow(usd: int, more: int, pointValue: Option<int>)
    requires usd <= more
    ensures match (PointsFromUsd(usd, pointValue), PointsFromUsd(more, pointValue)) {
              case (Some(p), Some(q)) => p <= q
              case (None, None) => true
              case _ => false
            }
  {
    if pointValue.Some? && pointValue.value > 0 {
      var v: nat := pointValue.value;
      DivGrows(2 * (TENTHS_PER_UNIT * Max(0, usd)) + v, 2 * (TENTHS_PER_UNIT * Max(0, more)) + v, 2 * v);
    }
  }

  /** The split of a total has each key once, and its parts add up to the total. */
  lemma SplitAddsUp(total: Points, cells: Cells)
    requires NoDuplicates(Keys(cells))
    ensures var s := Split(total, cells);
      && NoDuplicates(Keys(s))
      && (forall k :: k in Keys(s) <==> k in Keys(cells))
      && (forall i :: 0 <= i < |s| ==> (s[i].value.None? <==> total.None?))
      && (total.Some? && cells != [] ==> Total(PointsOf(s)) == total.value)
  {
    var keys := SortedKeys(Keys(cells));
    var w := SplitWeights(cells, keys);
    var s := Split(total, cells);
    SortedIsAscending(Keys(cells));
    AscendingHasNoDuplicates(keys);
    assert Keys(s) == keys;
    assert forall k :: k in keys <==> k in multiset(keys);
    ApportionedAddsUp(total, w);
    assert PointsOf(s) == Apportioned(total, w);
  }

  lemma {:induction false} GroupPointsConcat(a: seq<Line>, b: seq<Line>, group: string)
    ensures GroupPoints(a + b, group) == GroupPoints(a, group) + GroupPoints(b, group)
  {
    if b == [] {
      assert a + b == a;
    } else {
      var n := |b| - 1;
      assert (a + b)[..|a + b| - 1] == a + b[..n];
      GroupPointsConcat(a, b[..n], group);
    }
  }

  lemma {:induction false} GroupPointsOfOne(lines: seq<Line>, points: seq<Points>, mine: string, group: string)
    requires |lines| == |points|
    requires forall i :: 0 <= i < |lines| ==> lines[i].group == mine && lines[i].points == points[i]
    ensures GroupPoints(lines, group) == if group == mine then Total(points) else 0
  {
    if lines != [] {
      var n := |lines| - 1;
      GroupPointsOfOne(lines[..n], points[..n], mine, group);
    }
  }

  lemma LinesOfAddUp(mine: string, total: Points, cells: Cells, group: string)
    requires GoodCells(cells)
    ensures GroupPoints(LinesOf(mine, total, cells), group)
      == if group == mine && total.Some? then total.value else 0
  {
    var s := Split(total, cells);
    SplitAddsUp(total, cells);
    GroupPointsOfOne(LinesOf(mine, total, cells), PointsOf(s), mine, group);
    if total.None? { NoNumbers(PointsOf(s)); }
  }

  lemma {:induction false} NoNumbers(points: seq<Points>)
    requires forall i :: 0 <= i < |points| ==> points[i].None?
    ensures Total(points) == 0
  {
    if points != [] { NoNumbers(points[..|points| - 1]); }
  }

  lemma WellGroupedInit(groups: seq<Entry<Cells>>)
    requires groups != [] && WellGrouped(groups)
    ensures var n := |groups| - 1;
      && WellGrouped(groups[..n]) && groups[n].key !in Keys(groups[..n])
      && Keys(groups) == Keys(groups[..n]) + [groups[n].key]
  {
    var n := |groups| - 1;
    var keys := Keys(groups[..n]);
    assert Keys(groups) == keys + [groups[n].key];
    forall i, j | 0 <= i < j < |keys| ensures keys[i] != keys[j] { assert Keys(groups)[i] != Keys(groups)[j]; }
    forall i | 0 <= i < |keys| ensures keys[i] != groups[n].key { assert Keys(groups)[i] != Keys(groups)[n]; }
  }

  /** In the flat list, the lines of a group add up to the total of the group, and other groups have none. */
  lemma {:induction false} FlatAddsUp(groups: seq<Entry<Cells>>, total: Entry<Cells> -> Points, group: string)
    requires WellGrouped(groups)
    ensures group !in Keys(groups) ==> GroupPoints(Flat(groups, total), group) == 0
    ensures forall i :: 0 <= i < |groups| && groups[i].key == group && total(groups[i]).Some?
              ==> GroupPoints(Flat(groups, total), group) == total(groups[i]).value
  {
    if groups != [] {
      var n := |groups| - 1;
      var g := groups[n];
      WellGroupedInit(groups);
      FlatAddsUp(groups[..n], total, group);
      LinesOfAddUp(g.key, total(g), g.value, group);
      GroupPointsConcat(Flat(groups[..n], total), LinesOf(g.key, total(g), g.value), group);
      forall i | 0 <= i < n && groups[i].key == group && total(groups[i]).Some?
        ensures GroupPoints(Flat(groups, total), group) == total(groups[i]).value
      {
        assert groups[..n][i] == groups[i];
        assert Keys(groups)[i] != Keys(groups)[n];
      }
    }
  }

  /** Every line belongs to a cell of its group, and is a number exactly when the total of the group is. */
  lemma {:induction false} FlatLines(groups: seq<Entry<Cells>>, total: Entry<Cells> -> Points, a: nat)
    requires WellGrouped(groups) && a < |Flat(groups, total)|
    ensures var line := Flat(groups, total)[a];
      exists i :: 0 <= i < |groups| && groups[i].key == line.group && line.date in Keys(groups[i].value)
        && (line.points.None? <==> total(groups[i]).None?)
  {
    var n := |groups| - 1;
    var g, before := groups[n], Flat(groups[..n], total);
    WellGroupedInit(groups);
    if a < |before| {
      FlatLines(groups[..n], total, a);
      var i :| 0 <= i < n && groups[..n][i].key == before[a].group && before[a].date in Keys(groups[..n][i].value)
        && (before[a].points.None? <==> total(groups[..n][i]).None?);
      assert groups[i] == groups[..n][i];
    } else {
      var s := Split(total(g), g.value);
      SplitAddsUp(total(g), g.value);
      assert s[a - |before|].key == Keys(s)[a - |before|];
      assert groups[n] == g;
    }
  }

  /** No two lines are of the same group and date. */
  lemma {:induction false} FlatPairsOnce(groups: seq<Entry<Cells>>, total: Entry<Cells> -> Points, a: nat, b: nat)
    requires WellGrouped(groups) && a < b < |Flat(groups, total)|
    ensures var lines := Flat(groups, total); !(lines[a].group == lines[b].group && lines[a].date == lines[b].date)
  {
    var n := |groups| - 1;
    var g, before := groups[n], Flat(groups[..n], total);
    WellGroupedInit(groups);
    SplitAddsUp(total(g), g.value);
    if b < |before| {
      FlatPairsOnce(groups[..n], total, a, b);
    } else if a < |before| {
      FlatLines(groups[..n], total, a);
      assert before[a].group in Keys(groups[..n]);
    } else {
      var s := Split(total(g), g.value);
      assert Keys(s)[a - |before|] != Keys(s)[b - |before|];
    }
  }

  lemma HasLineConcat(a: seq<Line>, b: seq<Line>, group: string, date: string)
    ensures HasLine(a + b, group, date) <==> HasLine(a, group, date) || HasLine(b, group, date)
  {
    if i :| 0 <= i < |a| && a[i].group == group && a[i].date == date { assert (a + b)[i] == a[i]; }
    if i :| 0 <= i < |b| && b[i].group == group && b[i].date == date { assert (a + b)[|a| + i] == b[i]; }
  }

  lemma LinesOfHasLine(g: Entry<Cells>, total: Points, date: string) returns (p: nat)
    requires GoodCells(g.value) && date in Keys(g.value)
    ensures var lines := LinesOf(g.key, total, g.value);
      p < |lines| && lines[p].group == g.key && lines[p].date == date
  {
    var s := Split(total, g.value);
    SplitAddsUp(total, g.value);
    assert date in Keys(s);
    p :| 0 <= p < |Keys(s)| && Keys(s)[p] == date;
  }

  /** Every cell of a group has a line. */
  lemma {:induction false} FlatHasLine(groups: seq<Entry<Cells>>, total: Entry<Cells> -> Points, i: nat, date: string)
    requires WellGrouped(groups) && i < |groups| && date in Keys(groups[i].value)
    ensures HasLine(Flat(groups, total), groups[i].key, date)
  {
    var n := |groups| - 1;
    var g, before := groups[n], Flat(groups[..n], total);
    WellGroupedInit(groups);
    if i < n {
      FlatHasLine(groups[..n], total, i, date);
    } else {
      var p := LinesOfHasLine(g, total(g), date);
    }
    HasLineConcat(before, LinesOf(g.key, total(g), g.value), groups[i].key, date);
  }

  /** With unique keys, the map built from pairs finds the value of each pair, and nothing else. */
  lemma {:induction false} FromUniquePairs<V>(pairs: seq<Entry<V>>, key: string)
    requires NoDuplicates(Keys(pairs))
    ensures Lookup(FromPairs(pairs), key).Some? <==> key in Keys(pairs)
    ensures forall i :: 0 <= i < |pairs| && pairs[i].key == key ==>
              Lookup(FromPairs(pairs), key) == Some(pairs[i].value)
  {
    if pairs != [] {
      var n := |pairs| - 1;
      PrefixKeys(pairs, n);
      FromUniquePairs(pairs[..n], key);
      PutLookup(FromPairs(pairs[..n]), pairs[n].key, pairs[n].value, key);
      forall i | 0 <= i < n && pairs[i].key == key ensures Lookup(FromPairs(pairs), key) == Some(pairs[i].value) {
        assert Keys(pairs)[i] != Keys(pairs)[n];
        assert pairs[..n][i] == pairs[i];
      }
    }
  }

  lemma PrefixKeys<V>(m: seq<Entry<V>>, n: nat)
    requires n + 1 == |m|
    ensures Keys(m) == Keys(m[..n]) + [m[n].key]
    ensures NoDuplicates(Keys(m)) ==> NoDuplicates(Keys(m[..n]))
  {
    if NoDuplicates(Keys(m)) {
      forall i, j | 0 <= i < j < n ensures Keys(m[..n])[i] != Keys(m[..n])[j] { assert Keys(m)[i] != Keys(m)[j]; }
    }
  }

  lemma {:induction false} ListedMember(groups: seq<Entry<Cells>>, listed: seq<Entry<Points>>, e: Entry<Cells>)
    ensures e in Listed(groups, listed) <==> e in groups && Lookup(listed, e.key).Some?
  {
    if groups != [] {
      var n := |groups| - 1;
      ListedMember(groups[..n], listed, e);
      assert groups == groups[..n] + [groups[n]];
    }
  }

  lemma {:induction false} ListedKeeps(groups: seq<Entry<Cells>>, listed: seq<Entry<Points>>)
    requires WellGrouped(groups)
    ensures WellGrouped(Listed(groups, listed))
    ensures forall k :: k in Keys(Listed(groups, listed)) ==> k in Keys(groups)
  {
    if groups != [] {
      var n := |groups| - 1;
      var g, before := groups[n], Listed(groups[..n], listed);
      WellGroupedInit(groups);
      ListedKeeps(groups[..n], listed);
      assert forall k :: k in Keys(before) ==> k in Keys(groups[..n]);
      if Lookup(listed, g.key).Some? {
        assert Keys(before + [g]) == Keys(before) + [g.key];
        AppendKeepsNoDuplicates(Keys(before), g.key);
      }
    }
  }
}
