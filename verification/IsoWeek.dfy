/** ISO week labels of UTC calendar days, counted from 1 January 1970. */
module IsoWeek {
  predicate Leap(year: int) {
    year % 4 == 0 && (year % 100 != 0 || year % 400 == 0)
  }

  function DayFromYear(year: int): int {
    365 * (year - 1970) + (year - 1969) / 4 - (year - 1901) / 100 + (year - 1601) / 400
  }

  lemma YearLength(year: int)
    ensures DayFromYear(year + 1) - DayFromYear(year) == if Leap(year) then 366 else 365
  {
    Fourths(year);
    Hundredths(year);
    FourHundredths(year);
  }

  lemma Fourths(year: int)
    ensures (year - 1968) / 4 == (year - 1969) / 4 + if year % 4 == 0 then 1 else 0
  {
  }

  lemma Hundredths(year: int)
    ensures (year - 1900) / 100 == (year - 1901) / 100 + if year % 100 == 0 then 1 else 0
    ensures year % 100 == 0 ==> year % 4 == 0
  {
    if year % 100 == 0 { assert year == 4 * (25 * (year / 100)); }
  }

  lemma FourHundredths(year: int)
    ensures (year - 1600) / 400 == (year - 1601) / 400 + if year % 400 == 0 then 1 else 0
    ensures year % 400 == 0 ==> year % 100 == 0
  {
    Quotient(year - 1600, year / 400 - 4, year % 400);
    if year % 400 == 0 {
      Quotient(year - 1601, year / 400 - 5, 399);
      assert year == 100 * (4 * (year / 400));
    } else {
      Quotient(year - 1601, year / 400 - 4, year % 400 - 1);
    }
  }

  lemma Quotient(x: int, n: int, r: int)
    requires x == 400 * n + r && 0 <= r < 400
    ensures x / 400 == n
  {
  }

  lemma {:induction false} YearsApart(a: int, b: int)
    requires a <= b
    ensures DayFromYear(a) + 365 * (b - a) <= DayFromYear(b) <= DayFromYear(a) + 366 * (b - a)
    decreases b - a
  {
    if a < b {
      YearsApart(a, b - 1);
      YearLength(b - 1);
    }
  }

  /** The largest year that has begun by this day. */
  function YearOf(day: int): (year: int)
    ensures DayFromYear(year) <= day < DayFromYear(year + 1)
  {
    var guess := 1970 + if day >= 0 then day / 366 else day / 365;
    if day >= 0 then YearsApart(1970, guess); LaterYear(day, guess)
    else YearsApart(guess, 1970); LaterYear(day, guess)
  }

  function LaterYear(day: int, from: int): (year: int)
    requires DayFromYear(from) <= day
    ensures DayFromYear(year) <= day < DayFromYear(year + 1)
    decreases day - DayFromYear(from)
  {
    YearLength(from);
    if day < DayFromYear(from + 1) then from else LaterYear(day, from + 1)
  }

  lemma YearOrder(day: int, year: int)
    ensures DayFromYear(year) <= day <==> year <= YearOf(day)
  {
    if year <= YearOf(day) { YearsApart(year, YearOf(day)); } else { YearsApart(YearOf(day) + 1, year); }
  }

  const CUMULATIVE: seq<int> := [0, 31, 59, 90, 120, 151, 181, 212, 243, 273, 304, 334, 365]

  /** Days of the year before month `m`, counted from 0; 12 stands for the year's end. */
  function MonthStart(leap: bool, m: nat): int
    requires m <= 12
  {
    CUMULATIVE[m] + if leap && m >= 2 then 1 else 0
  }

  function MonthOf(leap: bool, yearDay: int, from: nat): (m: nat)
    requires from < 12 && MonthStart(leap, from) <= yearDay < MonthStart(leap, 12)
    ensures m < 12 && MonthStart(leap, m) <= yearDay < MonthStart(leap, m + 1)
    decreases 12 - from
  {
    if from == 11 || yearDay < MonthStart(leap, from + 1) then from else MonthOf(leap, yearDay, from + 1)
  }

  /** `Date.UTC` reads the years 0 to 99 as 1900 to 1999. */
  function FullYear(year: int): int {
    if 0 <= year <= 99 then 1900 + year else year
  }

  /** `Date.UTC` of the year, month and day of month a day has. */
  function Midnight(day: int): int {
    var year := YearOf(day);
    var leap := Leap(year);
    YearLength(year);
    var yearDay := day - DayFromYear(year);
    var month := MonthOf(leap, yearDay, 0);
    DayFromYear(FullYear(year)) + MonthStart(Leap(FullYear(year)), month) + (yearDay - MonthStart(leap, month))
  }

  /** 1 for Monday to 7 for Sunday: `getUTCDay() || 7`. */
  function WeekDay(day: int): int {
    var sundayZero := (day + 4) % 7;
    if sundayZero == 0 then 7 else sundayZero
  }

  function ThursdayOf(day: int): int { day + 4 - WeekDay(day) }

  datatype Label = Label(year: int, week: int)

  function CeilingOfSevenths(n: int): int { (n + 6) / 7 }

  function LabelOf(date: int): Label {
    var thursday := ThursdayOf(Midnight(date));
    var year := YearOf(thursday);
    var yearStart := DayFromYear(FullYear(year));
    Label(year, CeilingOfSevenths(thursday - yearStart + 1))
  }

  /** The Monday of the week that holds the fourth day of a year. */
  function MondayNear(start: int): int {
    start + 3 + 1 - WeekDay(start + 3)
  }

  /** The standard's own terms: week 1 is the Monday-to-Sunday week that holds 4 January. */
  function FirstMonday(year: int): int { MondayNear(DayFromYear(year)) }

  predicate InWeek(date: int, l: Label) {
    Counted(date, l.week, FirstMonday(l.year), FirstMonday(l.year + 1))
  }

  predicate Counted(date: int, week: int, first: int, next: int) {
    week >= 1 && first + 7 * (week - 1) <= date < first + 7 * week && date < next
  }

  /** Day 0 was a Thursday, so the week around any day has a Thursday that is a multiple of 7. */
  lemma WeekAround(day: int) returns (n: int)
    ensures 7 * n - 3 <= day <= 7 * n + 3
    ensures WeekDay(day) == day - 7 * n + 4 && ThursdayOf(day) == 7 * n
  {
    n := (day + 3) / 7;
    assert (day + 3) % 7 == day + 3 - 7 * n;
    assert (day + 4) % 7 == if (day + 3) % 7 == 6 then 0 else (day + 3) % 7 + 1;
  }

  /** Equivalently, week 1 holds the year's first Thursday. */
  lemma FirstThursday(start: int) returns (n: int)
    ensures MondayNear(start) == 7 * n - 3 && start <= 7 * n < start + 7
  {
    n := WeekAround(start + 3);
  }

  lemma MondaysApart(start: int, next: int)
    requires start + 365 <= next
    ensures MondayNear(start) + 364 <= MondayNear(next)
  {
    var m := FirstThursday(start);
    var n := FirstThursday(next);
  }

  lemma FirstMondays(a: int, b: int)
    requires a < b
    ensures FirstMonday(a) + 364 <= FirstMonday(b)
  {
    YearsApart(a, b);
    MondaysApart(DayFromYear(a), DayFromYear(b));
  }

  /** Counting weeks to the Thursday of a date's week, from the start of that Thursday's year. */
  lemma WeekWithin(date: int, start: int, next: int)
    requires start <= ThursdayOf(date) < next && start + 365 <= next <= start + 366
    ensures var week := CeilingOfSevenths(ThursdayOf(date) - start + 1);
      week <= 53 && Counted(date, week, MondayNear(start), MondayNear(next))
  {
    var t := WeekAround(date);
    var m := FirstThursday(start);
    var n := FirstThursday(next);
    CeilingOfWeeks(t, m, start);
  }

  lemma CeilingOfWeeks(t: int, first: int, start: int)
    requires start <= 7 * first < start + 7
    ensures CeilingOfSevenths(7 * t - start + 1) == t - first + 1
  {
  }

  lemma AtMostOneWeek(date: int, l: Label, m: Label)
    requires InWeek(date, l) && InWeek(date, m)
    ensures l == m
  {
    if l.year < m.year && l.year + 1 < m.year { FirstMondays(l.year + 1, m.year); }
    if m.year < l.year && m.year + 1 < l.year { FirstMondays(m.year + 1, l.year); }
  }

  predicate CenturyZero(year: int) { 0 <= year <= 99 }

  lemma MidnightElsewhere(date: int)
    ensures !CenturyZero(YearOf(date)) ==> Midnight(date) == date
    ensures CenturyZero(YearOf(date)) ==> Midnight(date) >= DayFromYear(1900)
  {
    if CenturyZero(YearOf(date)) { YearsApart(1900, 1900 + YearOf(date)); }
  }

  /** A date whose year `Date.UTC` shifts is labelled as a date of the twentieth century. */
  lemma ShiftedDate(date: int)
    requires CenturyZero(YearOf(date))
    ensures LabelOf(date).year >= 1899 && !InWeek(date, LabelOf(date))
  {
    MidnightElsewhere(date);
    YearOrder(date, 100);
    YearLength(1899);
    var t := WeekAround(Midnight(date));
    YearOrder(ThursdayOf(Midnight(date)), 1899);
    var year := LabelOf(date).year;
    YearsApart(100, 1899);
    YearsApart(1899, year);
    var n := FirstThursday(DayFromYear(year));
  }

  /** A week whose Thursday lies in a year that `Date.UTC` shifts is counted from the wrong January. */
  lemma ShiftedThursday(date: int)
    requires Midnight(date) == date && CenturyZero(YearOf(ThursdayOf(date)))
    ensures LabelOf(date).week < 0
  {
    var year := YearOf(ThursdayOf(date));
    YearsApart(year + 1, year + 1900);
  }

  function PlainLabel(date: int): Label {
    var year := YearOf(ThursdayOf(date));
    Label(year, CeilingOfSevenths(ThursdayOf(date) - DayFromYear(year) + 1))
  }

  lemma PlainDate(date: int)
    requires Faithful(date)
    ensures LabelOf(date) == PlainLabel(date)
  {
    MidnightElsewhere(date);
  }

  lemma PlainWeek(date: int)
    ensures PlainLabel(date).week <= 53 && InWeek(date, PlainLabel(date))
  {
    var year := YearOf(ThursdayOf(date));
    YearLength(year);
    WeekOfYear(date, year, DayFromYear(year), DayFromYear(year + 1));
  }

  lemma WeekOfYear(date: int, year: int, start: int, next: int)
    requires start == DayFromYear(year) && next == DayFromYear(year + 1)
    requires start <= ThursdayOf(date) < next && start + 365 <= next <= start + 366
    ensures var week := CeilingOfSevenths(ThursdayOf(date) - start + 1); week <= 53 && InWeek(date, Label(year, week))
  {
    WeekWithin(date, start, next);
  }

  /** Neither the date nor the Thursday of its week falls in the years 0 to 99. */
  predicate Faithful(date: int) { !CenturyZero(YearOf(date)) && !CenturyZero(YearOf(ThursdayOf(date))) }

  /** The code's label is the standard's week exactly on the faithful dates. */
  lemma IsoWeekIff(date: int)
    ensures InWeek(date, LabelOf(date)) <==> Faithful(date)
  {
    if CenturyZero(YearOf(date)) {
      ShiftedDate(date);
    } else if CenturyZero(YearOf(ThursdayOf(date))) {
      MidnightElsewhere(date);
      ShiftedThursday(date);
    } else {
      PlainDate(date);
      PlainWeek(date);
    }
  }

  /** A concrete failure: 1 January of the year 1. */
  lemma YearOneMislabelled()
    ensures YearOf(DayFromYear(1)) == 1 && LabelOf(DayFromYear(1)).year >= 1899
    ensures !InWeek(DayFromYear(1), LabelOf(DayFromYear(1)))
  {
    NewYearMislabelled(1, DayFromYear(1));
  }

  lemma NewYearMislabelled(year: int, day: int)
    requires CenturyZero(year) && day == DayFromYear(year)
    ensures YearOf(day) == year && LabelOf(day).year >= 1899 && !InWeek(day, LabelOf(day))
  {
    YearLength(year);
    YearOrder(day, year);
    YearOrder(day, year + 1);
    ShiftedDate(day);
  }

  /** Weeks are numbered 1 to 53 and take the year of their Thursday. */
  lemma LabelRange(date: int)
    requires Faithful(date)
    ensures 1 <= LabelOf(date).week <= 53 && LabelOf(date).year == YearOf(ThursdayOf(date))
  {
    PlainDate(date);
    PlainWeek(date);
  }

  lemma SameWeek(a: int, b: int)
    requires Faithful(a) && Faithful(b)
    ensures LabelOf(a) == LabelOf(b) <==> ThursdayOf(a) == ThursdayOf(b)
  {
    PlainDate(a);
    PlainDate(b);
    if PlainLabel(a) == PlainLabel(b) { SamePlainWeek(a, b); }
  }

  lemma SamePlainWeek(a: int, b: int)
    requires PlainLabel(a) == PlainLabel(b)
    ensures ThursdayOf(a) == ThursdayOf(b)
  {
    SameCeiling(a, b, DayFromYear(PlainLabel(a).year));
  }

  lemma SameCeiling(a: int, b: int, start: int)
    requires CeilingOfSevenths(ThursdayOf(a) - start + 1) == CeilingOfSevenths(ThursdayOf(b) - start + 1)
    ensures ThursdayOf(a) == ThursdayOf(b)
  {
    var m := WeekAround(a);
    var n := WeekAround(b);
  }

  lemma ThursdayAhead(monday: int, day: int)
    requires WeekDay(monday) == 1 && monday <= day < monday + 7
    ensures ThursdayOf(day) == ThursdayOf(monday)
  {
    var m := WeekAround(monday);
    var n := WeekAround(day);
  }

  lemma ThursdayChanges(date: int)
    ensures ThursdayOf(date - 1) != ThursdayOf(date) <==> WeekDay(date) == 1
  {
    var before := WeekAround(date - 1);
    var n := WeekAround(date);
  }

  /** All seven days from a Monday share one label, and the label changes exactly at each Monday. */
  lemma OneLabelPerWeek(monday: int, day: int)
    requires WeekDay(monday) == 1 && monday <= day < monday + 7 && Faithful(monday) && Faithful(day)
    ensures LabelOf(day) == LabelOf(monday)
  {
    ThursdayAhead(monday, day);
    SameWeek(monday, day);
  }

  lemma ChangesAtMondays(date: int)
    requires Faithful(date - 1) && Faithful(date)
    ensures LabelOf(date - 1) != LabelOf(date) <==> WeekDay(date) == 1
  {
    ThursdayChanges(date);
    SameWeek(date - 1, date);
  }

  lemma LongYearBetween(start: int, next: int)
    requires start + 365 <= next <= start + 366
    ensures MondayNear(next) - MondayNear(start)
      == if WeekDay(start) == 4 || (next == start + 366 && WeekDay(start) == 3) then 371 else 364
  {
    var first := FirstThursday(start);
    var last := FirstThursday(next);
    var n := WeekAround(start);
  }

  /** A year has a week 53 exactly when it starts on a Thursday, or is a leap year that starts on a Wednesday. */
  lemma LongYearIff(year: int)
    ensures FirstMonday(year + 1) - FirstMonday(year)
      == if WeekDay(DayFromYear(year)) == 4 || (Leap(year) && WeekDay(DayFromYear(year)) == 3) then 371 else 364
  {
    YearLength(year);
    LongYearBetween(DayFromYear(year), DayFromYear(year + 1));
  }
}
