/**
 * The usage page of a month (pointsFromUsd and buildUsageBreakdown of
 * src/modules/ai-credits/ai-credit.logic.ts). Points are tenths of a point, USD
 * whole micro-USD and point values whole ten-billionths of a USD. The order of
 * the two day lists, which depends on the locale, is not modelled.
 */
module UsagePage {
  import opened Common
  import opened LedgerMonth
  import opened UsageCells
  import opened ApportionPoints

  datatype FeatureRow = FeatureRow(feature: string, calls: int, usd: int)
  datatype DailyRow = DailyRow(day: string, feature: string, usd: int)
  datatype Person = Person(name: Option<string>, email: Option<string>, deleted: bool, system: bool)
  datatype UserRow = UserRow(userKey: string, person: Person, calls: int, usd: int)
  datatype UserFeatureRow = UserFeatureRow(userKey: string, feature: string, usd: int)
  datatype UserDailyRow = UserDailyRow(day: string, userKey: string, usd: int)

  datatype LedgerRows = LedgerRows(
    periodStart: string, pointValue: Option<int>,
    features: seq<FeatureRow>, daily: seq<DailyRow>,
    users: seq<UserRow>, userFeatures: seq<UserFeatureRow>, userDaily: seq<UserDailyRow>)

  type Points = Option<nat>

  datatype FeatureLine = FeatureLine(feature: string, points: Points, calls: int)
  /** A line of a day list: the points of a feature or person on a date. */
  datatype Line = Line(group: string, date: string, points: Points)
  datatype UserLine = UserLine(
    userKey: string, person: Person, points: Points, calls: int, features: seq<Entry<Points>>)

  datatype Breakdown = Breakdown(
    features: seq<FeatureLine>, daily: seq<Line>, users: seq<UserLine>, userDaily: seq<Line>)

  // ── Points of an amount ──

  /** Tenths of a point in a micro-USD over a ten-billionth of a USD. */
  const TENTHS_PER_UNIT := 100_000

  function PointsFromUsd(usd: int, pointValue: Option<int>): Points {
    match pointValue
    case None => None
    case Some(v) => if v <= 0 then None else Some(Nearest(TENTHS_PER_UNIT * Max(0, usd), v))
  }

  /** The whole number nearest to a / v, halves going up. */
  function Nearest(a: nat, v: nat): nat
    requires v > 0
  {
    (2 * a + v) / (2 * v)
  }

  // ── Splitting a total over cells ──

  function SplitWeights(cells: Cells, keys: seq<string>): (w: seq<int>)
    ensures |w| == |keys|
  {
    seq(|keys|, i requires 0 <= i < |keys| => match Lookup(cells, keys[i]) case Some(usd) => usd case None => 0)
  }

  /** The keys in string order, each with its part of the total. */
  function Split(total: Points, cells: Cells): (s: seq<Entry<Points>>)
    ensures |s| == |cells|
  {
    var keys := SortedKeys(Keys(cells));
    var parts := Apportioned(total, SplitWeights(cells, keys));
    seq(|keys|, i requires 0 <= i < |keys| => Entry(keys[i], parts[i]))
  }

  function PointsOf(s: seq<Entry<Points>>): (p: seq<Points>)
    ensures |p| == |s| && forall i :: 0 <= i < |s| ==> p[i] == s[i].value
  {
    seq(|s|, i requires 0 <= i < |s| => s[i].value)
  }

  // ── The lists ──

  function LinesOf(group: string, total: Points, cells: Cells): (lines: seq<Line>)
    ensures |lines| == |cells|
  {
    var s := Split(total, cells);
    seq(|s|, i requires 0 <= i < |s| => Line(group, s[i].key, s[i].value))
  }

  /** The lines of all groups, one group after the other. */
  function Flat(groups: seq<Entry<Cells>>, total: Entry<Cells> -> Points): seq<Line> {
    if groups == [] then []
    else
      var g := groups[|groups| - 1];
      Flat(groups[..|groups| - 1], total) + LinesOf(g.key, total(g), g.value)
  }

  /** A map built from pairs: a later pair replaces an earlier one of the same key. */
  function FromPairs<V>(pairs: seq<Entry<V>>): seq<Entry<V>> {
    if pairs == [] then []
    else Put(FromPairs(pairs[..|pairs| - 1]), pairs[|pairs| - 1].key, pairs[|pairs| - 1].value)
  }

  function CellsSum(cells: Cells): int {
    if cells == [] then 0 else CellsSum(cells[..|cells| - 1]) + cells[|cells| - 1].value
  }

  function Clamped(day: string, period: string): string
    requires IsPeriod(period)
  {
    ClampDayToMonth(day, period).value
  }

  function DailyCells(rows: LedgerRows): seq<Row>
    requires IsPeriod(rows.periodStart) || rows.daily == []
  {
    seq(|rows.daily|, i requires 0 <= i < |rows.daily| =>
      Row(rows.daily[i].feature, Clamped(rows.daily[i].day, rows.periodStart), rows.daily[i].usd))
  }

  function UserDayCells(rows: LedgerRows): seq<Row>
    requires IsPeriod(rows.periodStart) || rows.userDaily == []
  {
    seq(|rows.userDaily|, i requires 0 <= i < |rows.userDaily| =>
      Row(rows.userDaily[i].userKey, Clamped(rows.userDaily[i].day, rows.periodStart), rows.userDaily[i].usd))
  }

  function UserFeatureCells(rows: LedgerRows): seq<Row> {
    seq(|rows.userFeatures|, i requires 0 <= i < |rows.userFeatures| =>
      Row(rows.userFeatures[i].userKey, rows.userFeatures[i].feature, rows.userFeatures[i].usd))
  }

  function FeatureLines(rows: LedgerRows): (lines: seq<FeatureLine>)
    ensures |lines| == |rows.features|
  {
    seq(|rows.features|, i requires 0 <= i < |rows.features| =>
      var item := rows.features[i];
      FeatureLine(item.feature, PointsFromUsd(item.usd, rows.pointValue), item.calls))
  }

  function FeatureTotals(rows: LedgerRows): seq<Entry<Points>> {
    var lines := FeatureLines(rows);
    FromPairs(seq(|lines|, i requires 0 <= i < |lines| => Entry(lines[i].feature, lines[i].points)))
  }

  /** The points shown for a group of daily cells: the feature's, or those of the cells' sum when it is not listed. */
  function DailyTotal(rows: LedgerRows, g: Entry<Cells>): Points {
    match Lookup(FeatureTotals(rows), g.key)
    case Some(points) => points
    case None => PointsFromUsd(CellsSum(g.value), rows.pointValue)
  }

  function CellsOf(groups: seq<Entry<Cells>>, key: string): Cells {
    match Lookup(groups, key) case Some(cells) => cells case None => []
  }

  function UserLines(rows: LedgerRows): (lines: seq<UserLine>)
    ensures |lines| == |rows.users|
  {
    var groups := Grouped(UserFeatureCells(rows));
    seq(|rows.users|, i requires 0 <= i < |rows.users| =>
      var user := rows.users[i];
      var points := PointsFromUsd(user.usd, rows.pointValue);
      UserLine(user.userKey, user.person, points, user.calls, Split(points, CellsOf(groups, user.userKey))))
  }

  function UserPoints(rows: LedgerRows): seq<Entry<Points>> {
    var lines := UserLines(rows);
    FromPairs(seq(|lines|, i requires 0 <= i < |lines| => Entry(lines[i].userKey, lines[i].points)))
  }

  /** The groups of listed people. */
  function Listed(groups: seq<Entry<Cells>>, listed: seq<Entry<Points>>): seq<Entry<Cells>> {
    if groups == [] then []
    else
      var g := groups[|groups| - 1];
      Listed(groups[..|groups| - 1], listed) + if Lookup(listed, g.key).Some? then [g] else []
  }

  function UserTotal(rows: LedgerRows, g: Entry<Cells>): Points {
    match Lookup(UserPoints(rows), g.key) case Some(points) => points case None => None
  }

  /** None is the error for a period that is no month, raised by the first day that is clamped. */
  function Build(rows: LedgerRows): Option<Breakdown> {
    if !IsPeriod(rows.periodStart) && (rows.daily != [] || rows.userDaily != []) then None
    else Some(Breakdown(
                FeatureLines(rows),
                Flat(Grouped(DailyCells(rows)), g => DailyTotal(rows, g)),
                UserLines(rows),
                Flat(Listed(Grouped(UserDayCells(rows)), UserPoints(rows)), g => UserTotal(rows, g))))
  }

  // ── Sums over lines ──

  /** The points of one group in a list of lines. */
  function GroupPoints(lines: seq<Line>, group: string): nat {
    if lines == [] then 0
    else
      var line := lines[|lines| - 1];
      GroupPoints(lines[..|lines| - 1], group)
        + if line.group == group && line.points.Some? then line.points.value else 0
  }

  /** The lines of a group add up to what is shown for it, or are null where that is null, and only there. */
  ghost predicate AddsUpTo(lines: seq<Line>, group: string, shown: Points) {
    && (shown.Some? ==> GroupPoints(lines, group) == shown.value)
    && forall a :: 0 <= a < |lines| && lines[a].group == group ==> (lines[a].points.None? <==> shown.None?)
  }

  predicate HasLine(lines: seq<Line>, group: string, date: string) {
    exists a :: 0 <= a < |lines| && lines[a].group == group && lines[a].date == date
  }
}
