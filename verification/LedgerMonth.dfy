/**
 * Days and months as the strings the ledger keeps, "YYYY-MM-DD"
 * (monthStart and clampDayToMonth of src/modules/ai-credits/ai-credit.logic.ts).
 */
module LedgerMonth {
  import opened Common

  // ── The order of strings ──

  /** The order of the `<` operator on strings: by the first place where they differ. */
  predicate Less(a: string, b: string) {
    if b == "" then false
    else if a == "" then true
    else a[0] < b[0] || (a[0] == b[0] && Less(a[1..], b[1..]))
  }

  lemma {:induction false} LessIsTotal(a: string, b: string)
    ensures Less(a, b) || a == b || Less(b, a)
    ensures !(Less(a, b) && Less(b, a)) && !Less(a, a)
  {
    if a != "" && b != "" && a[0] == b[0] {
      LessIsTotal(a[1..], b[1..]);
      if a[1..] == b[1..] { assert a == [a[0]] + a[1..] == [b[0]] + b[1..] == b; }
    }
    if a != "" { LessIsTotal(a[1..], a[1..]); }
  }

  lemma {:induction false} LessIsTransitive(a: string, b: string, c: string)
    requires Less(a, b) && Less(b, c)
    ensures Less(a, c)
  {
    if a != "" && a[0] == b[0] == c[0] { LessIsTransitive(a[1..], b[1..], c[1..]); }
  }

  predicate AtMost(a: string, b: string) { !Less(b, a) }

  /** A string between two strings that begin alike begins like them. */
  lemma {:induction false} BetweenSharesPrefix(prefix: string, x: string, y: string, s: string)
    requires AtMost(prefix + x, s) && AtMost(s, prefix + y)
    ensures prefix <= s && AtMost(x, s[|prefix|..]) && AtMost(s[|prefix|..], y)
  {
    if prefix == "" {
      assert prefix + x == x && prefix + y == y && s[0..] == s;
    } else {
      assert (prefix + x)[1..] == prefix[1..] + x && (prefix + y)[1..] == prefix[1..] + y;
      BetweenSharesPrefix(prefix[1..], x, y, s[1..]);
      assert s == [s[0]] + s[1..] && prefix == [prefix[0]] + prefix[1..];
      assert s[1..][|prefix| - 1..] == s[|prefix|..];
    }
  }

  // ── Months ──

  predicate IsDigit(c: char) { '0' <= c <= '9' }

  function Digit(c: char): nat
    requires IsDigit(c)
  {
    c as int - '0' as int
  }

  /** The period starts with YYYY-MM. */
  predicate IsPeriod(s: string) {
    && |s| >= 7
    && (forall i :: 0 <= i < 4 ==> IsDigit(s[i]))
    && s[4] == '-' && IsDigit(s[5]) && IsDigit(s[6])
  }

  function Year(s: string): nat
    requires IsPeriod(s)
  {
    1000 * Digit(s[0]) + 100 * Digit(s[1]) + 10 * Digit(s[2]) + Digit(s[3])
  }

  function Month(s: string): nat
    requires IsPeriod(s)
  {
    10 * Digit(s[5]) + Digit(s[6])
  }

  /** Everything a day of the month starts with. */
  function MonthPrefix(s: string): (p: string)
    requires IsPeriod(s)
    ensures |p| == 8
  {
    s[..7] + "-"
  }

  predicate IsLeapYear(y: int) { y % 4 == 0 && (y % 100 != 0 || y % 400 == 0) }

  /**
   * The day number of Date.UTC(year, month, 0): the last day of the month, with
   * the years 0 to 99 read as 1900 to 1999 and months outside 1 to 12 rolled over.
   */
  function LastDay(year: nat, month: nat): (d: nat)
    ensures 28 <= d <= 31
  {
    var base := if year <= 99 then 1900 + year else year;
    LastOf(base + (month as int - 1) / 12, (month as int - 1) % 12)
  }

  /** The last day of a month counted from 0, January. */
  function LastOf(y: int, m: int): (d: nat)
    ensures 28 <= d <= 31
  {
    if m == 1 then (if IsLeapYear(y) then 29 else 28)
    else if m == 3 || m == 5 || m == 8 || m == 10 then 30
    else 31
  }

  // ── The calendar ──

  /** Days of whole years, each beginning in March so that the leap day comes last. */
  function YearDays(y: int): int { 365 * y + y / 4 - y / 100 + y / 400 }

  /** Days from the March of year 0 to the first of a month, in the Gregorian calendar. */
  function DaysBefore(y: int, month: nat): int
    requires 1 <= month <= 12
  {
    var sinceMarch := (month + 9) % 12;
    YearDays(if month <= 2 then y - 1 else y) + (153 * sinceMarch + 2) / 5
  }

  lemma DivStep(y: int, n: nat)
    requires n > 0
    ensures y / n - (y - 1) / n == if y % n == 0 then 1 else 0
  {
    var q, r := y / n, y % n;
    assert y == n * q + r;
    if r == 0 { QuotientIs(y - 1, n, q - 1, n - 1); } else { QuotientIs(y - 1, n, q, r - 1); }
  }

  lemma MultipleGrows(n: nat, p: int)
    ensures p >= 1 ==> n * p >= n
    ensures p <= -1 ==> n * p <= -(n as int)
  {
  }

  lemma QuotientIs(a: int, n: nat, q: int, r: int)
    requires n > 0 && a == n * q + r && 0 <= r < n
    ensures a / n == q
  {
    var p := a / n - q;
    assert n * p == r - a % n;
    MultipleGrows(n, p);
  }

  /** Every 400th year is a 100th, and every 100th a 4th. */
  lemma LeapYearsNest(y: int)
    ensures y % 400 == 0 ==> y % 100 == 0
    ensures y % 100 == 0 ==> y % 4 == 0
  {
  }

  lemma YearGrows(y: int)
    ensures YearDays(y) - YearDays(y - 1) == if IsLeapYear(y) then 366 else 365
  {
    DivStep(y, 4);
    DivStep(y, 100);
    DivStep(y, 400);
    LeapYearsNest(y);
  }

  /** Days from a month of a year to the next. */
  function DaysOf(y: int, month: nat): int
    requires 1 <= month <= 12
  {
    (if month == 12 then DaysBefore(y + 1, 1) else DaysBefore(y, month + 1)) - DaysBefore(y, month)
  }

  lemma MonthLengths(y: int, month: nat)
    requires 1 <= month <= 12
    ensures DaysOf(y, month) ==
      if month == 2 then (if IsLeapYear(y) then 29 else 28)
      else if month == 4 || month == 6 || month == 9 || month == 11 then 30
      else 31
  {
    YearGrows(y);
    hide YearDays, IsLeapYear;
    var sinceMarch := [306, 337, 0, 31, 61, 92, 122, 153, 184, 214, 245, 275];
    assert (153 * ((month + 9) % 12) + 2) / 5 == sinceMarch[month - 1];
    if month < 12 { assert (153 * ((month + 10) % 12) + 2) / 5 == sinceMarch[month]; }
  }

  /** The last day is the number of days of the month that Date.UTC rolls the year and month over to. */
  lemma LastDayIsTheCalendars(year: nat, month: nat)
    ensures var base := if year <= 99 then 1900 + year else year;
      LastDay(year, month) == DaysOf(base + (month as int - 1) / 12, (month as int - 1) % 12 + 1)
  {
    var base := if year <= 99 then 1900 + year else year;
    MonthIsTheCalendars(base + (month as int - 1) / 12, (month as int - 1) % 12);
  }

  lemma MonthIsTheCalendars(y: int, m: int)
    requires 0 <= m < 12
    ensures LastOf(y, m) == DaysOf(y, m + 1)
  {
    MonthLengths(y, m + 1);
  }

  function TwoDigits(n: nat): (s: string)
    requires n < 100
    ensures |s| == 2 && IsDigit(s[0]) && IsDigit(s[1]) && 10 * Digit(s[0]) + Digit(s[1]) == n
  {
    [('0' as int + n / 10) as char, ('0' as int + n % 10) as char]
  }

  function First(period: string): string
    requires IsPeriod(period)
  {
    MonthPrefix(period) + "01"
  }

  function Last(period: string): string
    requires IsPeriod(period)
  {
    MonthPrefix(period) + TwoDigits(LastDay(Year(period), Month(period)))
  }

  /** A day before the month becomes its first day, one after it its last; a period that is none is an error. */
  function ClampDayToMonth(day: string, period: string): Option<string> {
    if !IsPeriod(period) then None
    else if Less(day, First(period)) then Some(First(period))
    else if Less(Last(period), day) then Some(Last(period))
    else Some(day)
  }

  predicate IsDay(s: string) {
    |s| == 10 && IsPeriod(s) && s[7] == '-' && IsDigit(s[8]) && IsDigit(s[9])
  }

  function DayNumber(s: string): nat
    requires IsDay(s)
  {
    10 * Digit(s[8]) + Digit(s[9])
  }

  lemma TwoDigitsInOrder(a: string, n: nat, s: string, b: string, m: nat)
    requires n < 100 && m < 100 && a == TwoDigits(n) && b == TwoDigits(m)
    requires |s| == 2 && IsDigit(s[0]) && IsDigit(s[1]) && AtMost(a, s) && AtMost(s, b)
    ensures n <= 10 * Digit(s[0]) + Digit(s[1]) <= m
  {
    assert s[1..] == [s[1]] && a[1..] == [a[1]] && b[1..] == [b[1]];
    assert Less(s[1..], a[1..]) <==> s[1] < a[1];
    assert Less(b[1..], s[1..]) <==> b[1] < s[1];
  }

  lemma FirstBeforeLast(period: string)
    requires IsPeriod(period)
    ensures AtMost(First(period), Last(period))
  {
    var x, y := "01", TwoDigits(LastDay(Year(period), Month(period)));
    assert x[0] < y[0];
    PrependKeepsLess(MonthPrefix(period), x, y);
    LessIsTotal(First(period), Last(period));
  }

  lemma {:induction false} PrependKeepsLess(prefix: string, x: string, y: string)
    requires Less(x, y)
    ensures Less(prefix + x, prefix + y)
  {
    if prefix == "" {
      assert prefix + x == x && prefix + y == y;
    } else {
      assert (prefix + x)[1..] == prefix[1..] + x && (prefix + y)[1..] == prefix[1..] + y;
      PrependKeepsLess(prefix[1..], x, y);
    }
  }

  /**
   * Whatever string the day is, the clamped one begins with the month, lies
   * between its first and last day, and is the day itself exactly when that
   * already lay there; a real day ends up as a day number the month has.
   */
  lemma ClampedDayIsInMonth(day: string, period: string)
    requires IsPeriod(period)
    ensures var c := ClampDayToMonth(day, period).value;
      && MonthPrefix(period) <= c
      && AtMost(First(period), c) && AtMost(c, Last(period))
      && (c == day <==> AtMost(First(period), day) && AtMost(day, Last(period)))
      && (IsDay(day) ==> IsDay(c) && 1 <= DayNumber(c) <= LastDay(Year(period), Month(period)))
  {
    var c, n := ClampDayToMonth(day, period).value, LastDay(Year(period), Month(period));
    FirstBeforeLast(period);
    LessIsTotal(First(period), First(period));
    LessIsTotal(Last(period), Last(period));
    BetweenSharesPrefix(MonthPrefix(period), "01", TwoDigits(n), c);
    if IsDay(day) {
      assert TwoDigits(1) == "01";
      forall i | 0 <= i < 8 ensures c[i] == MonthPrefix(period)[i] { assert c[..8] == MonthPrefix(period); }
      TwoDigitsInOrder("01", 1, c[8..], TwoDigits(n), n);
    }
  }
}
