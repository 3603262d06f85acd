/**
 * What the usage page promises: parts add up to what is shown, every date lies
 * in the month, and nothing is listed twice (buildUsageBreakdown of
 * src/modules/ai-credits/ai-credit.logic.ts).
 */
module UsageTheorems {
  import opened Common
  import opened LedgerMonth
  import opened UsageCells
  import opened ApportionPoints
  import opened UsageBreakdown
  import opened UsagePage

  /** A feature and a person have one row each. */
  ghost predicate UniqueRows(rows: LedgerRows) {
    && (forall i, j :: 0 <= i < j < |rows.features| ==> rows.features[i].feature != rows.features[j].feature)
    && (forall i, j :: 0 <= i < j < |rows.users| ==> rows.users[i].userKey != rows.users[j].userKey)
  }

  function FeatureGroups(rows: LedgerRows): seq<Entry<Cells>>
    requires Build(rows).Some?
  {
    Grouped(DailyCells(rows))
  }

  function UserGroups(rows: LedgerRows): seq<Entry<Cells>>
    requires Build(rows).Some?
  {
    Listed(Grouped(UserDayCells(rows)), UserPoints(rows))
  }

  lemma GroupsAreGood(rows: LedgerRows)
    requires Build(rows).Some?
    ensures WellGrouped(FeatureGroups(rows)) && WellGrouped(UserGroups(rows))
  {
    GroupedIsWellGrouped(DailyCells(rows));
    GroupedIsWellGrouped(UserDayCells(rows));
    ListedKeeps(Grouped(UserDayCells(rows)), UserPoints(rows));
  }

  lemma FeatureTotalIsShown(rows: LedgerRows, i: nat)
    requires UniqueRows(rows) && i < |rows.features|
    ensures Lookup(FeatureTotals(rows), rows.features[i].feature) == Some(FeatureLines(rows)[i].points)
  {
    var lines := FeatureLines(rows);
    var pairs := seq(|lines|, j requires 0 <= j < |lines| => Entry(lines[j].feature, lines[j].points));
    assert NoDuplicates(Keys(pairs));
    FromUniquePairs(pairs, rows.features[i].feature);
    assert pairs[i].key == rows.features[i].feature;
  }

  lemma UserTotalIsShown(rows: LedgerRows, i: nat)
    requires UniqueRows(rows) && i < |rows.users|
    ensures Lookup(UserPoints(rows), rows.users[i].userKey) == Some(UserLines(rows)[i].points)
  {
    var lines := UserLines(rows);
    var pairs := seq(|lines|, j requires 0 <= j < |lines| => Entry(lines[j].userKey, lines[j].points));
    assert NoDuplicates(Keys(pairs));
    FromUniquePairs(pairs, rows.users[i].userKey);
    assert pairs[i].key == rows.users[i].userKey;
  }

  lemma GroupIsThere(groups: seq<Entry<Cells>>, group: string) returns (i: nat)
    requires group in Keys(groups)
    ensures i < |groups| && groups[i].key == group
  {
    i :| 0 <= i < |Keys(groups)| && Keys(groups)[i] == group;
  }

  /** The lines of a listed feature are null exactly when its shown points are. */
  lemma FeatureLineIsNull(rows: LedgerRows, i: nat, a: nat)
    requires UniqueRows(rows) && Build(rows).Some? && i < |rows.features| && a < |Build(rows).value.daily|
    requires Build(rows).value.daily[a].group == rows.features[i].feature
    ensures Build(rows).value.daily[a].points.None? <==> FeatureLines(rows)[i].points.None?
  {
    var groups, line := FeatureGroups(rows), Build(rows).value.daily[a];
    GroupsAreGood(rows);
    FeatureTotalIsShown(rows, i);
    FlatLines(groups, g => DailyTotal(rows, g), a);
    var p :| 0 <= p < |groups| && groups[p].key == line.group && line.date in Keys(groups[p].value)
      && (line.points.None? <==> DailyTotal(rows, groups[p]).None?);
  }

  /**
   * The daily points of a listed feature with any daily row add up to the points
   * shown for it, and are null exactly when those are.
   */
  lemma FeatureDaysAddUp(rows: LedgerRows, i: nat)
    requires UniqueRows(rows) && Build(rows).Some? && i < |rows.features|
    requires GroupOccurs(DailyCells(rows), rows.features[i].feature)
    ensures var page := Build(rows).value;
      AddsUpTo(page.daily, page.features[i].feature, page.features[i].points)
  {
    var groups := FeatureGroups(rows);
    GroupsAreGood(rows);
    GroupedIsWellGrouped(DailyCells(rows));
    FeatureTotalIsShown(rows, i);
    var p := GroupIsThere(groups, rows.features[i].feature);
    FlatAddsUp(groups, g => DailyTotal(rows, g), rows.features[i].feature);
    assert DailyTotal(rows, groups[p]) == FeatureLines(rows)[i].points;
    var daily := Build(rows).value.daily;
    forall a | 0 <= a < |daily| && daily[a].group == rows.features[i].feature
      ensures daily[a].points.None? <==> FeatureLines(rows)[i].points.None?
    {
      FeatureLineIsNull(rows, i, a);
    }
  }

  lemma ListedGroupIsThere(rows: LedgerRows, user: string) returns (q: nat)
    requires Build(rows).Some?
    requires GroupOccurs(UserDayCells(rows), user) && Lookup(UserPoints(rows), user).Some?
    ensures q < |UserGroups(rows)| && UserGroups(rows)[q].key == user
  {
    var all := Grouped(UserDayCells(rows));
    GroupedIsWellGrouped(UserDayCells(rows));
    var p := GroupIsThere(all, user);
    ListedMember(all, UserPoints(rows), all[p]);
    q :| 0 <= q < |UserGroups(rows)| && UserGroups(rows)[q] == all[p];
  }

  /** The lines of a listed person are null exactly when their shown points are. */
  lemma PersonLineIsNull(rows: LedgerRows, i: nat, a: nat)
    requires UniqueRows(rows) && Build(rows).Some? && i < |rows.users| && a < |Build(rows).value.userDaily|
    requires Build(rows).value.userDaily[a].group == rows.users[i].userKey
    ensures Build(rows).value.userDaily[a].points.None? <==> UserLines(rows)[i].points.None?
  {
    var groups, line := UserGroups(rows), Build(rows).value.userDaily[a];
    GroupsAreGood(rows);
    UserTotalIsShown(rows, i);
    FlatLines(groups, g => UserTotal(rows, g), a);
    var p :| 0 <= p < |groups| && groups[p].key == line.group && line.date in Keys(groups[p].value)
      && (line.points.None? <==> UserTotal(rows, groups[p]).None?);
  }

  /**
   * The daily points of a listed person with any daily row add up to the points
   * shown for them, and are null exactly when those are.
   */
  lemma PersonDaysAddUp(rows: LedgerRows, i: nat)
    requires UniqueRows(rows) && Build(rows).Some? && i < |rows.users|
    requires GroupOccurs(UserDayCells(rows), rows.users[i].userKey)
    ensures var page := Build(rows).value;
      AddsUpTo(page.userDaily, page.users[i].userKey, page.users[i].points)
  {
    var groups, key := UserGroups(rows), rows.users[i].userKey;
    GroupsAreGood(rows);
    UserTotalIsShown(rows, i);
    var q := ListedGroupIsThere(rows, key);
    FlatAddsUp(groups, g => UserTotal(rows, g), key);
    assert UserTotal(rows, groups[q]) == UserLines(rows)[i].points;
    var daily := Build(rows).value.userDaily;
    forall a | 0 <= a < |daily| && daily[a].group == key
      ensures daily[a].points.None? <==> UserLines(rows)[i].points.None?
    {
      PersonLineIsNull(rows, i, a);
    }
  }

  /** The points a person spent on each feature add up to the points shown for them. */
  lemma PersonFeaturesAddUp(rows: LedgerRows, i: nat)
    requires Build(rows).Some? && i < |rows.users|
    requires GroupOccurs(UserFeatureCells(rows), rows.users[i].userKey)
    ensures var user := Build(rows).value.users[i];
      && NoDuplicates(Keys(user.features))
      && (forall k :: k in Keys(user.features) <==> Occurs(UserFeatureCells(rows), user.userKey, k))
      && (user.points.Some? ==> Total(PointsOf(user.features)) == user.points.value)
      && (forall j :: 0 <= j < |user.features| ==> (user.features[j].value.None? <==> user.points.None?))
  {
    var cells, key := UserFeatureCells(rows), rows.users[i].userKey;
    GroupedIsWellGrouped(cells);
    LookupFinds(Grouped(cells), key);
    LookupIsGood(Grouped(cells), key);
    var mine := CellsOf(Grouped(cells), key);
    SplitAddsUp(PointsFromUsd(rows.users[i].usd, rows.pointValue), mine);
    forall k ensures k in Keys(mine) <==> Occurs(cells, key, k) {
      GroupedIsExact(cells, key, k);
      LookupFinds(mine, k);
    }
  }

  /** A group's cells are the keys of its rows. */
  lemma CellsAreRows(rows: seq<Row>, i: nat, key: string)
    requires i < |Grouped(rows)|
    ensures key in Keys(Grouped(rows)[i].value) <==> Occurs(rows, Grouped(rows)[i].key, key)
  {
    var groups := Grouped(rows);
    GroupedIsWellGrouped(rows);
    LookupAt(groups, i);
    GroupedIsExact(rows, groups[i].key, key);
    LookupFinds(groups[i].value, key);
  }

  /** The daily list has a line exactly for each feature and clamped day of the daily rows. */
  lemma DailyLinesAreRows(rows: LedgerRows, feature: string, date: string)
    requires Build(rows).Some?
    ensures HasLine(Build(rows).value.daily, feature, date) <==> Occurs(DailyCells(rows), feature, date)
  {
    var groups, total := FeatureGroups(rows), g => DailyTotal(rows, g);
    GroupsAreGood(rows);
    var lines := Flat(groups, total);
    if a :| 0 <= a < |lines| && lines[a].group == feature && lines[a].date == date {
      FlatLines(groups, total, a);
      var i :| 0 <= i < |groups| && groups[i].key == feature && date in Keys(groups[i].value);
      CellsAreRows(DailyCells(rows), i, date);
    }
    if Occurs(DailyCells(rows), feature, date) {
      GroupedIsWellGrouped(DailyCells(rows));
      assert GroupOccurs(DailyCells(rows), feature);
      var i := GroupIsThere(groups, feature);
      CellsAreRows(DailyCells(rows), i, date);
      FlatHasLine(groups, total, i, date);
    }
  }

  /** The group a person's line comes from. */
  lemma PersonLineGroup(rows: LedgerRows, a: nat) returns (i: nat)
    requires Build(rows).Some? && a < |Build(rows).value.userDaily|
    ensures var line := Build(rows).value.userDaily[a];
      i < |UserGroups(rows)| && UserGroups(rows)[i].key == line.group && line.date in Keys(UserGroups(rows)[i].value)
  {
    var groups := UserGroups(rows);
    var line := Build(rows).value.userDaily[a];
    GroupsAreGood(rows);
    FlatLines(groups, g => UserTotal(rows, g), a);
    i :| 0 <= i < |groups| && groups[i].key == line.group && line.date in Keys(groups[i].value);
  }

  lemma PersonLineHasRow(rows: LedgerRows, a: nat)
    requires Build(rows).Some? && a < |Build(rows).value.userDaily|
    ensures var line := Build(rows).value.userDaily[a];
      Occurs(UserDayCells(rows), line.group, line.date) && Lookup(UserPoints(rows), line.group).Some?
  {
    var i := PersonLineGroup(rows, a);
    ListedGroupHasRow(rows, UserGroups(rows)[i], Build(rows).value.userDaily[a].date);
  }

  lemma ListedGroupHasRow(rows: LedgerRows, group: Entry<Cells>, date: string)
    requires Build(rows).Some? && group in UserGroups(rows) && date in Keys(group.value)
    ensures Occurs(UserDayCells(rows), group.key, date) && Lookup(UserPoints(rows), group.key).Some?
  {
    var all := Grouped(UserDayCells(rows));
    ListedMember(all, UserPoints(rows), group);
    var j :| 0 <= j < |all| && all[j] == group;
    CellsAreRows(UserDayCells(rows), j, date);
  }

  lemma ListedRowHasLine(rows: LedgerRows, user: string, date: string)
    requires Build(rows).Some?
    requires Occurs(UserDayCells(rows), user, date) && Lookup(UserPoints(rows), user).Some?
    ensures HasLine(Build(rows).value.userDaily, user, date)
  {
    var all, groups := Grouped(UserDayCells(rows)), UserGroups(rows);
    GroupsAreGood(rows);
    GroupedIsWellGrouped(UserDayCells(rows));
    assert GroupOccurs(UserDayCells(rows), user);
    var j := GroupIsThere(all, user);
    CellsAreRows(UserDayCells(rows), j, date);
    ListedMember(all, UserPoints(rows), all[j]);
    var i :| 0 <= i < |groups| && groups[i] == all[j];
    FlatHasLine(groups, g => UserTotal(rows, g), i, date);
  }

  /** So has the list of people's days, for the people listed. */
  lemma PersonLinesAreRows(rows: LedgerRows, user: string, date: string)
    requires Build(rows).Some?
    ensures HasLine(Build(rows).value.userDaily, user, date)
      <==> Occurs(UserDayCells(rows), user, date) && Lookup(UserPoints(rows), user).Some?
  {
    var lines := Build(rows).value.userDaily;
    if a :| 0 <= a < |lines| && lines[a].group == user && lines[a].date == date {
      PersonLineHasRow(rows, a);
    }
    if Occurs(UserDayCells(rows), user, date) && Lookup(UserPoints(rows), user).Some? {
      ListedRowHasLine(rows, user, date);
    }
  }

  /** Each feature and date, and each person and date, has at most one line. */
  lemma NothingListedTwice(rows: LedgerRows, a: nat, b: nat)
    requires Build(rows).Some? && a < b
    ensures var lines := Build(rows).value.daily;
      b < |lines| ==> !(lines[a].group == lines[b].group && lines[a].date == lines[b].date)
    ensures var lines := Build(rows).value.userDaily;
      b < |lines| ==> !(lines[a].group == lines[b].group && lines[a].date == lines[b].date)
  {
    GroupsAreGood(rows);
    var daily, mine := g => DailyTotal(rows, g), g => UserTotal(rows, g);
    if b < |Flat(FeatureGroups(rows), daily)| { FlatPairsOnce(FeatureGroups(rows), daily, a, b); }
    if b < |Flat(UserGroups(rows), mine)| { FlatPairsOnce(UserGroups(rows), mine, a, b); }
  }

  ghost predicate InMonth(date: string, period: string)
    requires IsPeriod(period)
  {
    MonthPrefix(period) <= date && AtMost(First(period), date) && AtMost(date, Last(period))
  }

  lemma RowDatesInMonth(rows: LedgerRows, group: string, date: string)
    requires Build(rows).Some?
    requires Occurs(DailyCells(rows), group, date) || Occurs(UserDayCells(rows), group, date)
    ensures IsPeriod(rows.periodStart) && InMonth(date, rows.periodStart)
  {
    var period := rows.periodStart;
    if i :| 0 <= i < |rows.daily| && DailyCells(rows)[i].key == date {
      ClampedDayIsInMonth(rows.daily[i].day, period);
    } else {
      var i :| 0 <= i < |rows.userDaily| && UserDayCells(rows)[i].key == date;
      ClampedDayIsInMonth(rows.userDaily[i].day, period);
    }
  }

  /** Every date on the page lies in the month of the period, whatever days the rows hold. */
  lemma DatesLieInMonth(rows: LedgerRows, line: Line)
    requires Build(rows).Some?
    requires line in Build(rows).value.daily || line in Build(rows).value.userDaily
    ensures IsPeriod(rows.periodStart) && InMonth(line.date, rows.periodStart)
  {
    if line in Build(rows).value.daily {
      assert HasLine(Build(rows).value.daily, line.group, line.date);
      DailyLinesAreRows(rows, line.group, line.date);
    } else {
      assert HasLine(Build(rows).value.userDaily, line.group, line.date);
      PersonLinesAreRows(rows, line.group, line.date);
    }
    RowDatesInMonth(rows, line.group, line.date);
  }
}
