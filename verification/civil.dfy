/** The day-number to calendar-date conversion of gmtui/src/model.rs, proved
    against the proleptic Gregorian calendar of RFC 3339, section 5.7 and
    appendix C. */
module Civil {
  datatype Date = Date(year: int, month: int, day: int)

  // ---- the calendar ----

  predicate IsLeap(y: int) {
    y % 4 == 0 && (y % 100 != 0 || y % 400 == 0)
  }

  function YearLength(y: int): int {
    if IsLeap(y) then 366 else 365
  }

  function MonthLength(y: int, m: int): int {
    if m == 2 then (if IsLeap(y) then 29 else 28)
    else if m == 4 || m == 6 || m == 9 || m == 11 then 30
    else 31
  }

  predicate ValidDate(d: Date) {
    1 <= d.month <= 12 && 1 <= d.day <= MonthLength(d.year, d.month)
  }

  function NextDay(d: Date): Date {
    if d.day < MonthLength(d.year, d.month) then d.(day := d.day + 1)
    else if d.month < 12 then Date(d.year, d.month + 1, 1)
    else Date(d.year + 1, 1, 1)
  }

  predicate Before(a: Date, b: Date) {
    a.year < b.year || (a.year == b.year && (a.month < b.month || (a.month == b.month && a.day < b.day)))
  }

  /** Days from 1 January 1970 to 1 January y, counted year by year. */
  function DaysToYear(y: int): int
    decreases if y >= 1970 then y - 1970 else 1970 - y
  {
    if y == 1970 then 0
    else if y > 1970 then DaysToYear(y - 1) + YearLength(y - 1)
    else DaysToYear(y + 1) - YearLength(y)
  }

  function DaysToMonth(y: int, m: int): int
    decreases m
  {
    if m <= 1 then 0 else DaysToMonth(y, m - 1) + MonthLength(y, m - 1)
  }

  /** The day number of a date: days counted from 1970-01-01. */
  function DayNumber(d: Date): int {
    DaysToYear(d.year) + DaysToMonth(d.year, d.month) + d.day - 1
  }

  // ---- the conversion ----

  /** Integer division as Rust does it: truncated toward zero. */
  function TruncDiv(a: int, b: int): int
    requires b > 0
  {
    if a >= 0 then a / b else -((-a) / b)
  }

  /** March-based days before year yoe of an era. */
  function EraDays(yoe: int): int {
    365 * yoe + yoe / 4 - yoe / 100
  }

  /** The four-term quotient finds the year of the era that holds day doe. */
  lemma YearOfEra(doe: int)
    requires 0 <= doe < 146_097
    ensures var yoe := (doe - doe / 1460 + doe / 36_524 - doe / 146_096) / 365;
            0 <= yoe < 400 && EraDays(yoe) <= doe && (doe < EraDays(yoe + 1) || (yoe == 399 && doe == 146_096))
  {
    if doe < 146_096 {
      // century, four-year cycle within it, day within the cycle
      var c := doe / 36_524;
      var r := doe - 36_524 * c;
      var q := r / 1461;
      YearOfParts(doe, c, q, r - 1461 * q);
    }
  }

  lemma YearOfParts(doe: int, c: int, q: int, t: int)
    requires 0 <= c < 4 && 0 <= q < 25 && 0 <= t < 1461 && 1461 * q + t < 36_524
    requires doe == 36_524 * c + 1461 * q + t
    ensures var yoe := (doe - doe / 1460 + doe / 36_524 - doe / 146_096) / 365;
            0 <= yoe < 400 && EraDays(yoe) <= doe < EraDays(yoe + 1)
  {
    var e := if 24 * c + q + t >= 1460 then 1 else 0;
    assert doe == 1460 * (25 * c + q + e) + (24 * c + q + t - 1460 * e);
    assert doe / 1460 == 25 * c + q + e;
    assert doe / 36_524 == c && doe / 146_096 == 0;
    var y := if t - e < 365 then 0 else if t - e < 730 then 1 else if t - e < 1095 then 2 else 3;
    assert doe - doe / 1460 + doe / 36_524 - doe / 146_096 == 365 * (100 * c + 4 * q + y) + (t - e - 365 * y);
    assert (doe - doe / 1460 + doe / 36_524 - doe / 146_096) / 365 == 100 * c + 4 * q + y;
    YearOfCycle(c, q, y);
  }

  lemma YearOfCycle(c: int, q: int, y: int)
    requires 0 <= c < 4 && 0 <= q < 25 && 0 <= y < 4
    ensures EraDays(100 * c + 4 * q + y) == 36_524 * c + 1461 * q + 365 * y
    ensures EraDays(100 * c + 4 * q + y + 1) ==
            if y < 3 then 36_524 * c + 1461 * q + 365 * (y + 1)
            else if q < 24 then 36_524 * c + 1461 * (q + 1)
            else 36_524 * (c + 1)
  {
    var yoe := 100 * c + 4 * q + y;
    assert yoe / 4 == 25 * c + q && yoe / 100 == c;
  }

  function EraOf(z: int): (era: int)
    ensures 0 <= z - era * 146_097 < 146_097
  {
    TruncDiv(if z >= 0 then z else z - 146_096, 146_097)
  }

  /** The year of the era holding day doe; every subtraction stays unsigned. */
  function YearOf(doe: nat): (yoe: nat)
    requires doe < 146_097
    ensures yoe < 400 && EraDays(yoe) <= doe && (doe < EraDays(yoe + 1) || (yoe == 399 && doe == 146_096))
  {
    YearOfEra(doe);
    var a: nat := doe - doe / 1460;
    var b: nat := a + doe / 36_524 - doe / 146_096;
    b / 365
  }

  /** Month and day from the day of a year that starts on 1 March. */
  function FromMarchYear(y: int, doy: nat): Date
    requires doy < 366
  {
    var mp: nat := (5 * doy + 2) / 153;
    var d: nat := doy - (153 * mp + 2) / 5 + 1;
    var m: nat := if mp < 10 then mp + 3 else mp - 9;
    Date(if m <= 2 then y + 1 else y, m, d)
  }

  /** For every day number, negative ones included, the result is a valid
      calendar date, and counting days up to that date gives the number back. */
  function CivilFromDays(days: int): (r: Date)
    ensures ValidDate(r) && DayNumber(r) == days
  {
    hide YearOf, EraOf, FromMarchYear, EraDays;
    var z := days + 719_468;
    var era := EraOf(z);
    var doe := z - era * 146_097;
    var yoe := YearOf(doe);
    DateFromParts(era, doe, yoe);
    var doy: nat := doe - EraDays(yoe);
    FromMarchYear(yoe + era * 400, doy)
  }

  // ---- counting days in closed form ----

  function Leaps(y: int): int {
    y / 4 - y / 100 + y / 400
  }

  lemma DivStep(y: int, k: int)
    requires k > 1
    ensures y / k == (y - 1) / k + (if y % k == 0 then 1 else 0)
  {
    var q, r := y / k, y % k;
    if r == 0 {
      assert y - 1 == k * (q - 1) + (k - 1);
      DivUnique(y - 1, k, q - 1, k - 1);
    } else {
      DivUnique(y - 1, k, q, r - 1);
    }
  }

  lemma DivUnique(x: int, k: int, q: int, r: int)
    requires 0 <= r < k && x == k * q + r
    ensures x / k == q && x % k == r
  {
    var d := x / k - q;
    assert k * d == r - x % k;
    if d >= 1 {
      AtLeast(k, d);
    } else if d <= -1 {
      AtLeast(k, -d);
    }
  }

  lemma AtLeast(k: int, d: int)
    requires k > 0 && d >= 1
    ensures k * d >= k
  {
  }

  lemma LeapStep(y: int)
    ensures Leaps(y) == Leaps(y - 1) + (if IsLeap(y) then 1 else 0)
  {
    DivStep(y, 4);
    DivStep(y, 100);
    DivStep(y, 400);
  }

  /** Eras repeat: 400 years later the leap years and the leap count line up. */
  lemma EraShift(y: int, era: int)
    ensures Leaps(y + 400 * era) == Leaps(y) + 97 * era
    ensures IsLeap(y + 400 * era) == IsLeap(y)
  {
    DivUnique(y + 400 * era, 4, y / 4 + 100 * era, y % 4);
    DivUnique(y + 400 * era, 100, y / 100 + 4 * era, y % 100);
    DivUnique(y + 400 * era, 400, y / 400 + era, y % 400);
  }

  lemma {:induction false} DaysToYearClosed(y: int)
    ensures DaysToYear(y) == 365 * (y - 1970) + Leaps(y - 1) - 477
    decreases if y >= 1970 then y - 1970 else 1970 - y
  {
    if y > 1970 {
      DaysToYearClosed(y - 1);
      LeapStep(y - 1);
    } else if y < 1970 {
      DaysToYearClosed(y + 1);
      LeapStep(y);
    }
  }

  lemma DaysToMonthTable(y: int)
    ensures var l := if IsLeap(y) then 1 else 0;
            && DaysToMonth(y, 1) == 0 && DaysToMonth(y, 2) == 31 && DaysToMonth(y, 3) == 59 + l
            && DaysToMonth(y, 4) == 90 + l && DaysToMonth(y, 5) == 120 + l && DaysToMonth(y, 6) == 151 + l
            && DaysToMonth(y, 7) == 181 + l && DaysToMonth(y, 8) == 212 + l && DaysToMonth(y, 9) == 243 + l
            && DaysToMonth(y, 10) == 273 + l && DaysToMonth(y, 11) == 304 + l && DaysToMonth(y, 12) == 334 + l
            && DaysToMonth(y, 13) == 365 + l
  {
    assert DaysToMonth(y, 4) == 90 + (if IsLeap(y) then 1 else 0);
    assert DaysToMonth(y, 7) == 181 + (if IsLeap(y) then 1 else 0);
    assert DaysToMonth(y, 10) == 273 + (if IsLeap(y) then 1 else 0);
  }

  // ---- order ----

  lemma {:induction false} DaysToYearGap(y1: int, y2: int)
    requires y1 < y2
    ensures DaysToYear(y1) + YearLength(y1) <= DaysToYear(y2)
    decreases y2 - y1
  {
    DaysToYearClosed(y2);
    DaysToYearClosed(y2 - 1);
    LeapStep(y2 - 1);
    if y1 < y2 - 1 {
      DaysToYearGap(y1, y2 - 1);
    }
  }

  lemma {:induction false} DaysToMonthGap(y: int, m1: int, m2: int)
    requires 1 <= m1 < m2
    ensures DaysToMonth(y, m1) + MonthLength(y, m1) <= DaysToMonth(y, m2)
    decreases m2 - m1
  {
    if m1 < m2 - 1 {
      DaysToMonthGap(y, m1, m2 - 1);
    }
  }

  /** Day numbers follow the calendar order of valid dates. */
  lemma DayNumberMonotone(a: Date, b: Date)
    requires ValidDate(a) && ValidDate(b) && Before(a, b)
    ensures DayNumber(a) < DayNumber(b)
  {
    if a.year < b.year {
      DaysToYearGap(a.year, b.year);
      DaysToMonthTable(a.year);
      DaysToMonthTable(b.year);
      if a.month < 12 {
        DaysToMonthGap(a.year, a.month, 13);
      }
    } else if a.month < b.month {
      DaysToMonthGap(a.year, a.month, b.month);
    }
  }

  // ---- main results ----

  lemma FromMarchYearCorrect(y: int, doy: nat)
    requires doy < YearLength(y + 1)
    ensures ValidDate(FromMarchYear(y, doy))
    ensures DayNumber(FromMarchYear(y, doy)) == DaysToYear(y) + DaysToMonth(y, 3) + doy
  {
    var mp := (5 * doy + 2) / 153;
    DaysToMonthTable(y);
    DaysToMonthTable(y + 1);
    DaysToYearClosed(y);
    DaysToYearClosed(y + 1);
    LeapStep(y);
    MarchMonths(doy, mp);
  }

  lemma MarchMonths(doy: int, mp: int)
    requires 0 <= doy < 366 && mp == (5 * doy + 2) / 153
    ensures 0 <= mp < 12
    ensures var s := (153 * mp + 2) / 5; var e := (153 * (mp + 1) + 2) / 5;
            s <= doy < e && s == [0, 31, 61, 92, 122, 153, 184, 214, 245, 275, 306, 337][mp]
  {
  }

  /** Days from the epoch to 1 March of a year of an era. */
  lemma MarchFirst(yoe: int, era: int)
    requires 0 <= yoe < 400
    ensures var y := yoe + 400 * era;
            && DaysToYear(y) + DaysToMonth(y, 3) == EraDays(yoe) + 146_097 * era - 719_468
            && YearLength(y + 1) == YearLength(yoe + 1)
  {
    var y := yoe + 400 * era;
    EraShift(yoe, era);
    EraShift(yoe + 1, era);
    assert yoe + 1 + 400 * era == y + 1;
    DaysToYearClosed(y);
    LeapStep(y);
    DaysToMonthTable(y);
  }

  lemma DayOfYear(doe: nat, yoe: nat)
    requires yoe < 400 && EraDays(yoe) <= doe
    requires doe < EraDays(yoe + 1) || (yoe == 399 && doe == 146_096)
    ensures doe - EraDays(yoe) < YearLength(yoe + 1) <= 366
  {
  }

  lemma DateFromParts(era: int, doe: nat, yoe: nat)
    requires yoe < 400 && EraDays(yoe) <= doe
    requires doe < EraDays(yoe + 1) || (yoe == 399 && doe == 146_096)
    ensures doe - EraDays(yoe) < 366
    ensures var d := FromMarchYear(yoe + era * 400, doe - EraDays(yoe));
            ValidDate(d) && DayNumber(d) == doe + 146_097 * era - 719_468
  {
    hide EraDays, YearLength, ValidDate, DayNumber, FromMarchYear, DaysToYear, DaysToMonth;
    DayOfYear(doe, yoe);
    MarchFirst(yoe, era);
    FromMarchYearCorrect(yoe + era * 400, doe - EraDays(yoe));
  }

  /** Every valid date is the conversion of its own day number. */
  lemma CivilIsLeftInverse(d: Date)
    requires ValidDate(d)
    ensures CivilFromDays(DayNumber(d)) == d
  {
    var e := CivilFromDays(DayNumber(d));
    if Before(d, e) {
      DayNumberMonotone(d, e);
    } else if Before(e, d) {
      DayNumberMonotone(e, d);
    }
  }

  /** Strictly increasing: later days convert to later dates, and only they do. */
  lemma {:induction false} CivilIsIncreasing(a: int, b: int)
    ensures a < b <==> Before(CivilFromDays(a), CivilFromDays(b))
  {
    var d, e := CivilFromDays(a), CivilFromDays(b);
    if Before(d, e) {
      DayNumberMonotone(d, e);
    } else if Before(e, d) {
      DayNumberMonotone(e, d);
    }
  }

  /** Consecutive day numbers are consecutive calendar days, from the epoch on. */
  lemma {:induction false} CivilStep(days: int)
    ensures CivilFromDays(0) == Date(1970, 1, 1)
    ensures CivilFromDays(days + 1) == NextDay(CivilFromDays(days))
  {
    hide CivilFromDays;
    var d := CivilFromDays(days);
    NextDayNumber(d);
    CivilIsLeftInverse(NextDay(d));
    CivilIsLeftInverse(Date(1970, 1, 1));
  }

  lemma NextDayNumber(d: Date)
    requires ValidDate(d)
    ensures ValidDate(NextDay(d)) && DayNumber(NextDay(d)) == DayNumber(d) + 1
  {
    if NextDay(d).year > d.year {
      DaysToMonthTable(d.year);
      DaysToYearClosed(d.year);
      DaysToYearClosed(d.year + 1);
      LeapStep(d.year);
    }
  }

  // ---- the list badge built on it ----

  const DAY_MS := 86_400_000

  datatype Badge = Blank | Seconds(n: int) | Minutes(n: int) | Hours(n: int) | Days(n: int) | OnDate(date: Date)

  function FormatTs(ts: int, now: int): Badge {
    if ts <= 0 then Blank else
    var delta := (if now - ts > 0 then now - ts else 0) / 1000;
    if delta <= 59 then Seconds(delta)
    else if delta <= 3599 then Minutes(delta / 60)
    else if delta <= 86_399 then Hours(delta / 3600)
    else if delta / 86_400 <= 30 then Days(delta / 86_400)
    else OnDate(CivilFromDays(ts / DAY_MS))
  }

  /** A message gets a calendar date exactly when it is 31 days old or older,
      and that date is the UTC day on which it was sent. */
  lemma BadgeDateIsTheDayOfTheMessage(ts: int, now: int)
    ensures FormatTs(ts, now).OnDate? <==> ts > 0 && now - ts >= 31 * DAY_MS
    ensures FormatTs(ts, now).OnDate? ==>
              var d := FormatTs(ts, now).date;
              ValidDate(d) && DayNumber(d) * DAY_MS <= ts < (DayNumber(d) + 1) * DAY_MS
  {
    hide CivilFromDays, ValidDate, DayNumber;
  }

  /** How long ago the message was, in the largest unit of which it is at least one, rounded
      down; a message of the future was sent just now. */
  lemma BadgeIsTheAge(ts: int, now: int)
    ensures var ago := if now > ts then now - ts else 0;
      match FormatTs(ts, now)
      case Blank => ts <= 0
      case Seconds(n) => ts > 0 && n < 60 && 1000 * n <= ago < 1000 * (n + 1)
      case Minutes(n) => ts > 0 && 1 <= n < 60 && 60_000 * n <= ago < 60_000 * (n + 1)
      case Hours(n) => ts > 0 && 1 <= n < 24 && 3_600_000 * n <= ago < 3_600_000 * (n + 1)
      case Days(n) => ts > 0 && 1 <= n < 31 && 86_400_000 * n <= ago < 86_400_000 * (n + 1)
      case OnDate(_) => ts > 0 && 31 * 86_400_000 <= ago
  {
    hide CivilFromDays;
  }
}
