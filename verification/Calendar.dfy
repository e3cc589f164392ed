/** Closed-form Gregorian date arithmetic against a day-by-day calendar. */
module Calendar {

  datatype Date = Date(year: int, month: int, day: int)

  // -------------------------------------------------------------------------
  // The calendar, one day at a time
  // -------------------------------------------------------------------------

  predicate IsLeap(y: int) {
    y % 4 == 0 && (y % 100 != 0 || y % 400 == 0)
  }

  function DaysInMonth(y: int, m: int): int {
    if m == 2 then (if IsLeap(y) then 29 else 28)
    else if m == 4 || m == 6 || m == 9 || m == 11 then 30
    else 31
  }

  predicate ValidDate(t: Date) {
    1 <= t.month <= 12 && 1 <= t.day <= DaysInMonth(t.year, t.month)
  }

  function NextDay(t: Date): Date {
    if t.day < DaysInMonth(t.year, t.month) then t.(day := t.day + 1)
    else if t.month < 12 then Date(t.year, t.month + 1, 1)
    else Date(t.year + 1, 1, 1)
  }

  function PrevDay(t: Date): Date {
    if t.day > 1 then t.(day := t.day - 1)
    else if t.month > 1 then Date(t.year, t.month - 1, DaysInMonth(t.year, t.month - 1))
    else Date(t.year - 1, 12, 31)
  }

  const EPOCH := Date(1970, 1, 1)

  /** The date `n` days after the epoch, or `-n` days before it, by counting. */
  function DateAt(n: int): Date
    decreases if n < 0 then -n else n
  {
    if n == 0 then EPOCH else if n > 0 then NextDay(DateAt(n - 1)) else PrevDay(DateAt(n + 1))
  }

  lemma PrevThenNext(t: Date)
    requires ValidDate(t)
    ensures ValidDate(PrevDay(t)) && NextDay(PrevDay(t)) == t
  {
  }

  // -------------------------------------------------------------------------
  // The closed forms
  // -------------------------------------------------------------------------

  function DaysFromCivil(t: Date): int {
    var y := if t.month <= 2 then t.year - 1 else t.year;
    var era := y / 400;
    var yoe := y - era * 400;
    var mp := (t.month + 9) % 12;
    var doy := (153 * mp + 2) / 5 + t.day - 1;
    var doe := yoe * 365 + yoe / 4 - yoe / 100 + doy;
    era * 146097 + doe - 719468
  }

  function YearOfEra(doe: int): int {
    (doe - doe / 1460 + doe / 36524 - doe / 146096) / 365
  }

  function FromMarch(y: int, mp: int, d: int): Date {
    var m := if mp < 10 then mp + 3 else mp - 9;
    Date(if m <= 2 then y + 1 else y, m, d)
  }

  function CivilOf(era: int, doe: int): Date {
    var yoe := YearOfEra(doe);
    var doy := doe - (365 * yoe + yoe / 4 - yoe / 100);
    var mp := (5 * doy + 2) / 153;
    var d := doy - (153 * mp + 2) / 5 + 1;
    FromMarch(yoe + era * 400, mp, d)
  }

  function CivilFromDays(days: int): Date {
    var z := days + 719468;
    var era := z / 146097;
    CivilOf(era, z - era * 146097)
  }

  // -------------------------------------------------------------------------
  // Years that start in March
  // -------------------------------------------------------------------------

  /** Days before 1 March of year `y`, counted from 1 March of year 0. */
  function YearStart(y: int): int {
    365 * y + y / 4 - y / 100 + y / 400
  }

  /** The year whose March starts the year the date falls in, and the month since March. */
  function MarchYear(t: Date): int {
    if t.month <= 2 then t.year - 1 else t.year
  }

  function MarchMonth(t: Date): int {
    if t.month <= 2 then t.month + 9 else t.month - 3
  }

  function MonthStart(mp: int): int {
    (153 * mp + 2) / 5
  }

  lemma EraSplit(y: int)
    ensures var era := y / 400; var yoe := y - era * 400;
            0 <= yoe < 400 && era * 146097 + yoe * 365 + yoe / 4 - yoe / 100 == YearStart(y)
  {
    var era := y / 400;
    var yoe := y - era * 400;
    assert y / 100 == 4 * era + yoe / 100;
    assert y / 4 == 100 * era + yoe / 4;
  }

  function MarchDays(y: int, mp: int, d: int): int {
    YearStart(y) + MonthStart(mp) + d - 1 - 719468
  }

  lemma DaysByMarchYear(t: Date)
    requires 1 <= t.month <= 12
    ensures DaysFromCivil(t) == MarchDays(MarchYear(t), MarchMonth(t), t.day)
  {
    EraSplit(MarchYear(t));
  }

  lemma YearLength(y: int)
    ensures YearStart(y + 1) - YearStart(y) == if IsLeap(y + 1) then 366 else 365
  {
    Carry(y, 4);
    Carry(y, 100);
    Carry(y, 400);
    assert (y + 1) % 400 == 0 ==> (y + 1) % 100 == 0;
    assert (y + 1) % 100 == 0 ==> (y + 1) % 4 == 0;
  }

  lemma Carry(y: int, n: int)
    requires n == 4 || n == 100 || n == 400
    ensures (y + 1) / n - y / n == if (y + 1) % n == 0 then 1 else 0
  {
  }

  lemma MonthLengths(y: int, m: int)
    requires 1 <= m <= 12 && m != 2
    ensures DaysInMonth(y, m) == MonthStart((m + 9) % 12 + 1) - MonthStart((m + 9) % 12)
  {
  }

  // -------------------------------------------------------------------------
  // Counting day by day
  // -------------------------------------------------------------------------

  lemma NextMarchDay(t: Date)
    requires ValidDate(t)
    ensures var u := NextDay(t);
            MarchDays(MarchYear(u), MarchMonth(u), u.day) == MarchDays(MarchYear(t), MarchMonth(t), t.day) + 1
  {
    if t.day == DaysInMonth(t.year, t.month) {
      if t.month == 2 {
        FirstOfMarch(t);
      } else {
        FirstOfMonth(t);
      }
    }
  }

  lemma FirstOfMarch(t: Date)
    requires t.month == 2 && t.day == DaysInMonth(t.year, 2)
    ensures MarchDays(t.year, 0, 1) == MarchDays(t.year - 1, 11, t.day) + 1
  {
    YearLength(t.year - 1);
  }

  lemma FirstOfMonth(t: Date)
    requires 1 <= t.month <= 12 && t.month != 2 && t.day == DaysInMonth(t.year, t.month)
    ensures MarchDays(MarchYear(t), MarchMonth(t) + 1, 1) == MarchDays(MarchYear(t), MarchMonth(t), t.day) + 1
  {
    MonthLengths(t.year, t.month);
  }

  lemma NextDayCountsOne(t: Date)
    requires ValidDate(t)
    ensures ValidDate(NextDay(t)) && DaysFromCivil(NextDay(t)) == DaysFromCivil(t) + 1
  {
    var n, m := DaysFromCivil(t), DaysFromCivil(NextDay(t));
    assert m == n + 1 by {
      DaysByMarchYear(t);
      DaysByMarchYear(NextDay(t));
      NextMarchDay(t);
    }
  }

  /** The closed form counts days from the epoch, in both directions. */
  lemma {:induction false} DaysFromCivilCounts(n: int)
    ensures ValidDate(DateAt(n)) && DaysFromCivil(DateAt(n)) == n
    decreases if n < 0 then -n else n
  {
    if n > 0 {
      DaysFromCivilCounts(n - 1);
      NextDayCountsOne(DateAt(n - 1));
    } else if n < 0 {
      DaysFromCivilCounts(n + 1);
      PrevThenNext(DateAt(n + 1));
      NextDayCountsOne(DateAt(n));
    }
  }

  // -------------------------------------------------------------------------
  // The inverse
  // -------------------------------------------------------------------------

  /** Day `doy` of year `yoe` of an era exists; day 365 only ends in a leap February. */
  predicate DayOfEra(yoe: int, doy: int) {
    0 <= yoe < 400 && 0 <= doy <= 365 && (doy == 365 ==> IsLeap(yoe + 1))
  }

  lemma YearOfEraCorrect(yoe: int, doy: int)
    requires DayOfEra(yoe, doy)
    ensures YearOfEra(365 * yoe + yoe / 4 - yoe / 100 + doy) == yoe
    ensures 0 <= 365 * yoe + yoe / 4 - yoe / 100 + doy < 146097
  {
    var c, p := yoe / 100, yoe % 100;
    var q, r := p / 4, p % 4;
    assert yoe == 100 * c + 4 * q + r && yoe / 4 == 25 * c + q;
    YearOfEraParts(c, q, r, doy);
  }

  /** The same with the year split into centuries, four-year blocks and years. */
  lemma YearOfEraParts(c: int, q: int, r: int, doy: int)
    requires 0 <= c <= 3 && 0 <= q <= 24 && 0 <= r <= 3 && 0 <= doy <= 365
    requires doy == 365 ==> r == 3 && (q < 24 || c == 3)
    ensures var doe := 36524 * c + 1461 * q + 365 * r + doy;
            0 <= doe < 146097 && YearOfEra(doe) == 100 * c + 4 * q + r
  {
    var doe := 36524 * c + 1461 * q + 365 * r + doy;
    var u := 24 * c + q + 365 * r + doy;
    var carry := if u >= 1460 then 1 else 0;
    Quotient(doe, 1460, 25 * c + q + carry);
    var last := if doe == 146096 then 1 else 0;
    Quotient(doe, 36524, c + last);
    Quotient(doe, 146096, last);
    Quotient(365 * (100 * c + 4 * q + r) + doy - carry, 365, 100 * c + 4 * q + r);
  }

  lemma Quotient(x: int, d: int, k: int)
    requires d == 365 || d == 1460 || d == 36524 || d == 146096 || d == 146097
    requires d * k <= x < d * k + d
    ensures x / d == k
  {
  }

  lemma MonthOfDay(mp: int, d: int)
    requires 0 <= mp <= 11 && 1 <= d && (if mp == 11 then d <= 29 else d <= MonthStart(mp + 1) - MonthStart(mp))
    ensures (5 * (MonthStart(mp) + d - 1) + 2) / 153 == mp
  {
  }

  lemma LeapInEra(y: int)
    ensures IsLeap(y + 1) == IsLeap(y % 400 + 1)
  {
    EraMod(y / 400, y % 400 + 1);
  }

  lemma EraMod(era: int, x: int)
    ensures (400 * era + x) % 4 == x % 4
    ensures (400 * era + x) % 100 == x % 100
    ensures (400 * era + x) % 400 == x % 400
  {
    Remainder(400 * era + x, 4, 100 * era + x / 4, x % 4);
    Remainder(400 * era + x, 100, 4 * era + x / 100, x % 100);
    Remainder(400 * era + x, 400, era + x / 400, x % 400);
  }

  lemma Remainder(x: int, n: int, k: int, r: int)
    requires n == 4 || n == 100 || n == 400
    requires x == n * k + r && 0 <= r < n
    ensures x % n == r
  {
  }

  lemma DayOfYearExists(t: Date)
    requires ValidDate(t)
    ensures DayOfEra(MarchYear(t) % 400, MonthStart(MarchMonth(t)) + t.day - 1)
    ensures (5 * (MonthStart(MarchMonth(t)) + t.day - 1) + 2) / 153 == MarchMonth(t)
  {
    LeapInEra(MarchYear(t));
    if t.month != 2 {
      MonthLengths(t.year, t.month);
    }
    MonthOfDay(MarchMonth(t), t.day);
  }

  lemma CivilOfEra(era: int, yoe: int, mp: int, d: int)
    requires 0 <= mp <= 11
    requires DayOfEra(yoe, MonthStart(mp) + d - 1)
    requires (5 * (MonthStart(mp) + d - 1) + 2) / 153 == mp
    ensures var doe := 365 * yoe + yoe / 4 - yoe / 100 + MonthStart(mp) + d - 1;
            0 <= doe < 146097 && CivilOf(era, doe) == FromMarch(yoe + era * 400, mp, d)
  {
    var doy := MonthStart(mp) + d - 1;
    YearOfEraCorrect(yoe, doy);
  }

  /** Days of `t` into its 400-year era, counted from a 1 March. */
  function DayInEra(t: Date): int {
    var yoe := MarchYear(t) % 400;
    365 * yoe + yoe / 4 - yoe / 100 + MonthStart(MarchMonth(t)) + t.day - 1
  }

  lemma DaysByEra(t: Date)
    requires ValidDate(t)
    ensures DaysFromCivil(t) + 719468 == 146097 * (MarchYear(t) / 400) + DayInEra(t)
  {
  }

  lemma CivilByEra(t: Date)
    requires ValidDate(t)
    ensures 0 <= DayInEra(t) < 146097 && CivilOf(MarchYear(t) / 400, DayInEra(t)) == t
  {
    var era, yoe, mp := MarchYear(t) / 400, MarchYear(t) % 400, MarchMonth(t);
    DayOfYearExists(t);
    CivilOfEra(era, yoe, mp, t.day);
    assert FromMarch(yoe + era * 400, mp, t.day) == t;
  }

  lemma CivilInEra(days: int, era: int, n: int)
    requires days + 719468 == 146097 * era + n && 0 <= n < 146097
    ensures CivilFromDays(days) == CivilOf(era, n)
  {
    Quotient(days + 719468, 146097, era);
  }

  /** Converting a date to days and back gives the date. */
  lemma CivilOfDays(t: Date)
    requires ValidDate(t)
    ensures CivilFromDays(DaysFromCivil(t)) == t
  {
    var days, era, n := DaysFromCivil(t), MarchYear(t) / 400, DayInEra(t);
    DaysByEra(t);
    CivilByEra(t);
    CivilInEra(days, era, n);
  }

  /** Both closed forms agree with the day-by-day calendar on every integer and
      every valid date, and are inverse to each other. */
  lemma ClosedFormsAreTheCalendar(n: int)
    ensures CivilFromDays(n) == DateAt(n)
    ensures ValidDate(CivilFromDays(n)) && DaysFromCivil(CivilFromDays(n)) == n
  {
    DaysFromCivilCounts(n);
    CivilOfDays(DateAt(n));
  }

  lemma EveryDateIsCounted(t: Date)
    requires ValidDate(t)
    ensures DateAt(DaysFromCivil(t)) == t
  {
    CivilOfDays(t);
    ClosedFormsAreTheCalendar(DaysFromCivil(t));
  }
}
