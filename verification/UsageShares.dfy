/**
 * Who gets which points on the usage page: every line carries the fair share of
 * the USD of its own rows (buildUsageBreakdown of
 * src/modules/ai-credits/ai-credit.logic.ts).
 */
module UsageShares {
  import opened Common
  import opened ApportionPoints
  import opened FairSplit
  import opened UsageBreakdown
  import opened UsageCells
  import opened UsagePage
  import opened UsageTheorems

  // ── Points of an amount ──

  /** The points of an amount are the nearest tenth to what it is worth, with halves going up. */
  lemma PointsAreNearest(usd: int, pointValue: int)
    requires pointValue > 0
    ensures var points, worth := PointsFromUsd(usd, Some(pointValue)), 100_000 * Max(0, usd);
      && points.Some?
      && 2 * pointValue * points.value <= 2 * worth + pointValue
      && 2 * worth < 2 * pointValue * points.value + pointValue
  {
    NearestIsNearest(100_000 * Max(0, usd), pointValue);
  }

  // ── The split of one group ──

  /** The keys come in string order, and the points of each are the fair share of its own USD. */
  lemma SplitIsFair(total: nat, cells: Cells, usd: seq<int>)
    requires NoDuplicates(Keys(cells)) && |usd| == |Split(Some(total), cells)|
    requires forall k :: 0 <= k < |usd| ==> Lookup(cells, Split(Some(total), cells)[k].key) == Some(usd[k])
    ensures var s := Split(Some(total), cells); Ascending(Keys(s)) && Fair(total, usd, PointsOf(s))
  {
    var keys, s := SortedKeys(Keys(cells)), Split(Some(total), cells);
    SortedIsAscending(Keys(cells));
    assert Keys(s) == keys;
    assert SplitWeights(cells, keys) == usd;
    assert PointsOf(s) == Apportioned(Some(total), usd);
    ApportionedIsFair(total, usd);
  }

  // ── The lines of one group ──

  /** The lines of a group, in the order they are listed. */
  function LinesIn(lines: seq<Line>, group: string): seq<Line> {
    if |lines| == 0 then []
    else
      var line := lines[|lines| - 1];
      LinesIn(lines[..|lines| - 1], group) + if line.group == group then [line] else []
  }

  function LinePoints(lines: seq<Line>): (p: seq<Points>)
    ensures |p| == |lines|
  {
    seq(|lines|, i requires 0 <= i < |lines| => lines[i].points)
  }

  /** The USD of the rows behind each line. */
  function LineUsd(rows: seq<Row>, lines: seq<Line>): (usd: seq<int>)
    ensures |usd| == |lines|
  {
    seq(|lines|, i requires 0 <= i < |lines| => Spent(rows, lines[i].group, lines[i].date))
  }

  ghost predicate DatesAscend(lines: seq<Line>) {
    forall i, j :: 0 <= i < j < |lines| ==> LedgerMonth.Less(lines[i].date, lines[j].date)
  }

  lemma {:induction false} LinesInConcat(a: seq<Line>, b: seq<Line>, group: string)
    ensures LinesIn(a + b, group) == LinesIn(a, group) + LinesIn(b, group)
  {
    if |b| == 0 {
      assert a + b == a;
    } else {
      assert (a + b)[..|a + b| - 1] == a + b[..|b| - 1];
      LinesInConcat(a, b[..|b| - 1], group);
    }
  }

  lemma {:induction false} LinesOfOne(lines: seq<Line>, mine: string, group: string)
    requires forall i :: 0 <= i < |lines| ==> lines[i].group == mine
    ensures LinesIn(lines, group) == if group == mine then lines else []
  {
    if |lines| > 0 { LinesOfOne(lines[..|lines| - 1], mine, group); }
  }

  lemma FlatGroupLast(groups: seq<Entry<Cells>>, total: Entry<Cells> -> Points, group: string)
    requires |groups| > 0
    ensures var n := |groups| - 1; var g := groups[n];
      LinesIn(Flat(groups, total), group) == LinesIn(Flat(groups[..n], total), group)
        + if g.key == group then LinesOf(group, total(g), g.value) else []
  {
    hide LinesIn;
    var n := |groups| - 1;
    var g := groups[n];
    var lines := LinesOf(g.key, total(g), g.value);
    LinesOfOne(lines, g.key, group);
    LinesInConcat(Flat(groups[..n], total), lines, group);
  }

  lemma {:induction false} FlatLacksGroup(groups: seq<Entry<Cells>>, total: Entry<Cells> -> Points, group: string)
    requires WellGrouped(groups) && group !in Keys(groups)
    ensures LinesIn(Flat(groups, total), group) == []
  {
    if |groups| > 0 {
      WellGroupedInit(groups);
      FlatGroupLast(groups, total, group);
      FlatLacksGroup(groups[..|groups| - 1], total, group);
      assert Keys(groups)[|groups| - 1] in Keys(groups);
    }
  }

  /** The flat list keeps the lines of each group as its split made them. */
  lemma {:induction false} FlatKeepsGroup(groups: seq<Entry<Cells>>, total: Entry<Cells> -> Points, i: nat)
    requires WellGrouped(groups) && i < |groups|
    ensures LinesIn(Flat(groups, total), groups[i].key) == LinesOf(groups[i].key, total(groups[i]), groups[i].value)
  {
    hide LinesIn, Flat, LinesOf;
    var n := |groups| - 1;
    WellGroupedInit(groups);
    FlatGroupLast(groups, total, groups[i].key);
    if i < n {
      FlatKeepsGroup(groups[..n], total, i);
      assert Keys(groups)[i] != Keys(groups)[n];
    } else {
      FlatLacksGroup(groups[..n], total, groups[n].key);
    }
  }

  /** The lines of a group, against the rows it was grouped from. */
  lemma LinesOfAreFair(rows: seq<Row>, i: nat, total: nat)
    requires i < |Grouped(rows)|
    ensures var g := Grouped(rows)[i]; var lines := LinesOf(g.key, Some(total), g.value);
      DatesAscend(lines) && Fair(total, LineUsd(rows, lines), LinePoints(lines))
  {
    var g := Grouped(rows)[i];
    var s, lines := Split(Some(total), g.value), LinesOf(g.key, Some(total), g.value);
    var usd := LineUsd(rows, lines);
    GroupedIsWellGrouped(rows);
    LookupAt(Grouped(rows), i);
    SplitAddsUp(Some(total), g.value);
    forall k | 0 <= k < |usd| ensures Lookup(g.value, s[k].key) == Some(usd[k]) {
      GroupedIsExact(rows, g.key, s[k].key);
      assert Keys(s)[k] in Keys(s);
      LookupFinds(g.value, s[k].key);
    }
    SplitIsFair(total, g.value, usd);
    assert LinePoints(lines) == PointsOf(s);
    forall a, b | 0 <= a < b < |lines| ensures LedgerMonth.Less(lines[a].date, lines[b].date) {
      assert LedgerMonth.Less(Keys(s)[a], Keys(s)[b]);
    }
  }

  // ── What a feature without a row of its own shows ──

  /** The USD of all rows of a group; negative rows count as nothing. */
  function GroupSpent(rows: seq<Row>, group: string): nat {
    if |rows| == 0 then 0
    else
      var row := rows[|rows| - 1];
      GroupSpent(rows[..|rows| - 1], group) + if row.group == group then Max(0, row.usd) else 0
  }

  lemma {:induction false} CellsSumFirst(cells: Cells)
    requires |cells| > 0
    ensures CellsSum(cells) == cells[0].value + CellsSum(cells[1..])
  {
    if |cells| > 1 {
      CellsSumFirst(cells[..|cells| - 1]);
      assert cells[..|cells| - 1][1..] == cells[1..][..|cells| - 2];
    }
  }

  lemma {:induction false} CellsSumPut(cells: Cells, key: string, value: int)
    ensures CellsSum(Put(cells, key, value))
         == CellsSum(cells) + value - match Lookup(cells, key) { case Some(usd) => usd case None => 0 }
  {
    var put := Put(cells, key, value);
    CellsSumFirst(put);
    if |cells| > 0 {
      CellsSumFirst(cells);
      if cells[0].key == key {
        assert put[1..] == cells[1..];
      } else {
        CellsSumPut(cells[1..], key, value);
        assert put[1..] == Put(cells[1..], key, value);
      }
    }
  }

  lemma AddRowSum(groups: seq<Entry<Cells>>, row: Row, group: string)
    ensures CellsSum(CellsOf(AddRow(groups, row), group))
         == CellsSum(CellsOf(groups, group)) + if group == row.group then Max(0, row.usd) else 0
  {
    hide CellsSum, Put, Lookup;
    var cells := CellsOf(groups, row.group);
    var before := match Lookup(cells, row.key) case Some(usd) => usd case None => 0;
    PutLookup(groups, row.group, Put(cells, row.key, before + Max(0, row.usd)), group);
    CellsSumPut(cells, row.key, before + Max(0, row.usd));
  }

  /** The cells of a group add up to the USD of its rows. */
  lemma {:induction false} CellsAddUp(rows: seq<Row>, group: string)
    ensures CellsSum(CellsOf(Grouped(rows), group)) == GroupSpent(rows, group)
  {
    if |rows| > 0 {
      CellsAddUp(rows[..|rows| - 1], group);
      AddRowSum(Grouped(rows[..|rows| - 1]), rows[|rows| - 1], group);
    }
  }

  // ── The page ──

  /** Every feature and person of the ledger is shown, in its order, with its calls and the points of its USD. */
  lemma EveryRowIsShown(rows: LedgerRows)
    requires Build(rows).Some?
    ensures var page := Build(rows).value;
      && |page.features| == |rows.features| && |page.users| == |rows.users|
      && (forall i :: 0 <= i < |rows.features| ==>
            var item := rows.features[i];
            page.features[i] == FeatureLine(item.feature, PointsFromUsd(item.usd, rows.pointValue), item.calls))
      && (forall i :: 0 <= i < |rows.users| ==>
            var line, item := page.users[i], rows.users[i];
            && line.userKey == item.userKey && line.person == item.person && line.calls == item.calls
            && line.points == PointsFromUsd(item.usd, rows.pointValue))
  {
  }

  lemma FeatureGroupIsFair(rows: LedgerRows, i: nat)
    requires Build(rows).Some? && i < |FeatureGroups(rows)| && DailyTotal(rows, FeatureGroups(rows)[i]).Some?
    ensures var g := FeatureGroups(rows)[i];
      var lines := LinesIn(Build(rows).value.daily, g.key);
      && DatesAscend(lines)
      && Fair(DailyTotal(rows, g).value, LineUsd(DailyCells(rows), lines), LinePoints(lines))
  {
    var groups := FeatureGroups(rows);
    GroupsAreGood(rows);
    FlatKeepsGroup(groups, g => DailyTotal(rows, g), i);
    LinesOfAreFair(DailyCells(rows), i, DailyTotal(rows, groups[i]).value);
  }

  /**
   * The points shown for a listed feature are those of its USD, and its days, in date
   * order, have the fair shares of them by the USD of their own rows.
   */
  lemma FeatureDaysAreFair(rows: LedgerRows, i: nat)
    requires UniqueRows(rows) && Build(rows).Some? && i < |rows.features|
    requires GroupOccurs(DailyCells(rows), rows.features[i].feature)
    ensures var page, item := Build(rows).value, rows.features[i];
      var lines := LinesIn(page.daily, item.feature);
      && page.features[i].points == PointsFromUsd(item.usd, rows.pointValue)
      && (page.features[i].points.Some? ==>
            && DatesAscend(lines)
            && Fair(page.features[i].points.value, LineUsd(DailyCells(rows), lines), LinePoints(lines)))
  {
    GroupedIsWellGrouped(DailyCells(rows));
    var p := GroupIsThere(FeatureGroups(rows), rows.features[i].feature);
    FeatureTotalIsShown(rows, i);
    if FeatureLines(rows)[i].points.Some? { FeatureGroupIsFair(rows, p); }
  }

  lemma UnlistedTotal(rows: LedgerRows, feature: string)
    requires UniqueRows(rows) && forall j :: 0 <= j < |rows.features| ==> rows.features[j].feature != feature
    ensures Lookup(FeatureTotals(rows), feature).None?
  {
    var lines := FeatureLines(rows);
    var pairs := seq(|lines|, j requires 0 <= j < |lines| => Entry(lines[j].feature, lines[j].points));
    assert NoDuplicates(Keys(pairs));
    FromUniquePairs(pairs, feature);
  }

  /** A feature with daily rows but no row of its own is worth what those add up to, and split the same way. */
  lemma UnlistedFeatureDaysAreFair(rows: LedgerRows, feature: string)
    requires UniqueRows(rows) && Build(rows).Some? && GroupOccurs(DailyCells(rows), feature)
    requires forall j :: 0 <= j < |rows.features| ==> rows.features[j].feature != feature
    ensures var lines := LinesIn(Build(rows).value.daily, feature);
      var worth := PointsFromUsd(GroupSpent(DailyCells(rows), feature), rows.pointValue);
      worth.Some? ==>
        DatesAscend(lines) && Fair(worth.value, LineUsd(DailyCells(rows), lines), LinePoints(lines))
  {
    var groups := FeatureGroups(rows);
    GroupedIsWellGrouped(DailyCells(rows));
    var p := GroupIsThere(groups, feature);
    UnlistedTotal(rows, feature);
    LookupAt(groups, p);
    CellsAddUp(DailyCells(rows), feature);
    if DailyTotal(rows, groups[p]).Some? { FeatureGroupIsFair(rows, p); }
  }

  /** So are the days of a listed person. */
  lemma PersonDaysAreFair(rows: LedgerRows, i: nat)
    requires UniqueRows(rows) && Build(rows).Some? && i < |rows.users|
    requires GroupOccurs(UserDayCells(rows), rows.users[i].userKey)
    ensures var page, item := Build(rows).value, rows.users[i];
      var lines := LinesIn(page.userDaily, item.userKey);
      && page.users[i].points == PointsFromUsd(item.usd, rows.pointValue)
      && (page.users[i].points.Some? ==>
            && DatesAscend(lines)
            && Fair(page.users[i].points.value, LineUsd(UserDayCells(rows), lines), LinePoints(lines)))
  {
    var all, groups, key := Grouped(UserDayCells(rows)), UserGroups(rows), rows.users[i].userKey;
    GroupsAreGood(rows);
    UserTotalIsShown(rows, i);
    var q := ListedGroupIsThere(rows, key);
    ListedMember(all, UserPoints(rows), groups[q]);
    var p :| 0 <= p < |all| && all[p] == groups[q];
    FlatKeepsGroup(groups, g => UserTotal(rows, g), q);
    if UserLines(rows)[i].points.Some? { LinesOfAreFair(UserDayCells(rows), p, UserLines(rows)[i].points.value); }
  }

  function EntryUsd(rows: seq<Row>, group: string, s: seq<Entry<Points>>): (usd: seq<int>)
    ensures |usd| == |s|
  {
    seq(|s|, i requires 0 <= i < |s| => Spent(rows, group, s[i].key))
  }

  /** And the features of each person. */
  lemma PersonFeaturesAreFair(rows: LedgerRows, i: nat)
    requires Build(rows).Some? && i < |rows.users|
    requires GroupOccurs(UserFeatureCells(rows), rows.users[i].userKey)
    ensures var user := Build(rows).value.users[i];
      user.points.Some? ==>
        && Ascending(Keys(user.features))
        && Fair(user.points.value, EntryUsd(UserFeatureCells(rows), user.userKey, user.features),
                PointsOf(user.features))
  {
    var cells, user := UserFeatureCells(rows), UserLines(rows)[i];
    GroupedIsWellGrouped(cells);
    LookupFinds(Grouped(cells), user.userKey);
    LookupIsGood(Grouped(cells), user.userKey);
    if user.points.Some? {
      var mine, s := CellsOf(Grouped(cells), user.userKey), user.features;
      var usd := EntryUsd(cells, user.userKey, s);
      SplitAddsUp(user.points, mine);
      forall k | 0 <= k < |usd| ensures Lookup(mine, s[k].key) == Some(usd[k]) {
        GroupedIsExact(cells, user.userKey, s[k].key);
        assert Keys(s)[k] in Keys(s);
        LookupFinds(mine, s[k].key);
      }
      SplitIsFair(user.points.value, mine, usd);
    }
  }
}
