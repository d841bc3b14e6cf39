/** The proleptic Gregorian calendar that JavaScript's `Date` uses, over
    day numbers: day 0 is 1 January 1970 (a Thursday). Time of day and the
    local time-zone offset are not modelled. */
module Calendar {

  /** A calendar date; `month` runs 1..12 and `day` 1..31. */
  datatype Civil = Civil(year: int, month: int, day: int)

  predicate IsLeapYear(y: int)
  {
    y % 4 == 0 && (y % 100 != 0 || y % 400 == 0)
  }

  function DaysInMonth(y: int, m: int): int
    requires 1 <= m <= 12
  {
    if m == 2 then (if IsLeapYear(y) then 29 else 28)
    else if m == 4 || m == 6 || m == 9 || m == 11 then 30
    else 31
  }

  predicate ValidCivil(c: Civil)
  {
    1 <= c.month <= 12 && 1 <= c.day <= DaysInMonth(c.year, c.month)
  }

  /** Days from 1 March of year 0 of a 400-year era to 1 March of its year
      `yoe`. */
  function YearStart(yoe: int): int
  {
    365 * yoe + yoe / 4 - yoe / 100
  }

  /** Days from 1 March to the first of month `mp`, counting March as 0. */
  function MonthStart(mp: int): int
  {
    (153 * mp + 2) / 5
  }

  /** The day number of a date (years counted from 1 March, so that the
      leap day closes the year). */
  function DaysFromCivil(c: Civil): int
  {
    var y := if c.month <= 2 then c.year - 1 else c.year;
    var era := y / 400;
    var yoe := y - era * 400;
    var mp := (c.month + 9) % 12;
    var doe := YearStart(yoe) + MonthStart(mp) + c.day - 1;
    era * 146097 + doe - 719468
  }

  /** The year of era of day `doe` of a 400-year era. */
  function YearOfEra(doe: int): int
  {
    (doe - doe / 1460 + doe / 36524 - doe / 146096) / 365
  }

  /** The date of a day number. */
  function CivilFromDays(z: int): (c: Civil)
  {
    var z' := z + 719468;
    var era := z' / 146097;
    CivilOfEraDay(era, z' - era * 146097)
  }

  /** The date of day `doe` of 400-year era `era`. */
  function CivilOfEraDay(era: int, doe: int): Civil
  {
    var yoe := YearOfEra(doe);
    CivilOfYearDay(era, yoe, doe - YearStart(yoe))
  }

  /** The date of day `doy` of the March-based year `yoe` of era `era`. */
  function CivilOfYearDay(era: int, yoe: int, doy: int): Civil
  {
    var mp := (5 * doy + 2) / 153;
    var m := MonthFromMarch(mp);
    Civil(yoe + era * 400 + (if m <= 2 then 1 else 0), m, doy - MonthStart(mp) + 1)
  }

  /** `getFullYear`. */
  function YearOf(z: int): int
  {
    CivilFromDays(z).year
  }

  /** `getMonth`: 0 for January .. 11 for December. */
  function MonthOf(z: int): int
  {
    CivilFromDays(z).month - 1
  }

  /** `getDay`: 0 for Sunday .. 6 for Saturday. */
  function WeekdayOf(z: int): (w: int)
    ensures 0 <= w < 7
  {
    (z + 4) % 7
  }
  /** Going back `getDay()` days from any day lands on a Sunday. */
  lemma SundayOnOrBefore(z: int)
    ensures WeekdayOf(z - WeekdayOf(z)) == 0
  {
    var q := (z + 4) / 7;
    assert z + 4 == 7 * q + WeekdayOf(z);
    assert z - WeekdayOf(z) + 4 == 7 * q;
  }


  /** Day `doe` of an era, written with the era's centuries `a`,
      four-year cycles `b`, years `t` and day `doy` of the March-based
      year: the year-of-era formula finds the year `100a + 4b + t`. */
  lemma {:induction false} YearOfEraAt(a: int, b: int, t: int, doy: int, doe: int)
    requires 0 <= a < 4 && 0 <= b < 25 && 0 <= t < 4
    requires 0 <= doy < 365 || (doy == 365 && t == 3 && (b < 24 || a == 3))
    requires doe == 36524 * a + 1461 * b + 365 * t + doy
    ensures YearOfEra(doe) == 100 * a + 4 * b + t
  {
    if doe != 146096 {
      assert doe / 146096 == 0;
      assert doe / 36524 == a;
      var bump := if 24 * a + b + 365 * t + doy >= 1460 then 1 else 0;
      assert doe == 1460 * (25 * a + b) + (24 * a + b + 365 * t + doy);
      assert doe / 1460 == 25 * a + b + bump;
      assert doe - doe / 1460 + doe / 36524 - doe / 146096 == 365 * (100 * a + 4 * b + t) + doy - bump;
    }
  }

  lemma YearStartSplit(a: int, b: int, t: int, yoe: int)
    requires 0 <= a < 4 && 0 <= b < 25 && 0 <= t < 4
    requires yoe == 100 * a + 4 * b + t
    ensures YearStart(yoe) == 36524 * a + 1461 * b + 365 * t
  {
    assert yoe / 4 == 25 * a + b;
    assert yoe / 100 == a;
  }

  /** The length of the March-based year `yoe`: 366 days when the
      calendar year holding its February is a leap year. */
  function YearDays(yoe: int): int
  {
    if IsLeapYear(yoe + 1) then 366 else 365
  }

  /** Consecutive years of an era start `YearDays` apart; the era's last
      year ends where the next era starts. */
  lemma YearLength(yoe: int)
    requires 0 <= yoe < 400
    ensures (if yoe == 399 then 146097 else YearStart(yoe + 1)) - YearStart(yoe) == YearDays(yoe)
  {
    assert (yoe + 1) / 4 == yoe / 4 + (if (yoe + 1) % 4 == 0 then 1 else 0);
    assert (yoe + 1) / 100 == yoe / 100 + (if (yoe + 1) % 100 == 0 then 1 else 0);
    assert (yoe + 1) % 100 == 0 ==> (yoe + 1) % 4 == 0;
    assert (yoe + 1) % 400 == 0 <==> yoe == 399;
  }

  /** Every year of an era ends by the end of the era. */
  lemma YearStartBelowEraEnd(yoe: int)
    requires 0 <= yoe < 400
    ensures YearStart(yoe) + YearDays(yoe) <= 146097
  {
    YearLength(yoe);
    if yoe < 399 {
      assert YearStart(yoe + 1) <= YearStart(399);
    }
  }

  /** Day `doe` of an era split into centuries, four-year cycles, years
      and a day of the year; only the last year of a cycle, and of the
      era's last century, reaches day 365. */
  lemma EraDayParts(doe: int) returns (a: int, b: int, t: int, doy: int)
    requires 0 <= doe < 146097
    ensures 0 <= a < 4 && 0 <= b < 25 && 0 <= t < 4
    ensures 0 <= doy < 365 || (doy == 365 && t == 3 && (b < 24 || a == 3))
    ensures doe == 36524 * a + 1461 * b + 365 * t + doy
  {
    a := if doe / 36524 < 4 then doe / 36524 else 3;
    var r := doe - 36524 * a;
    b := if r / 1461 < 25 then r / 1461 else 24;
    var s := r - 1461 * b;
    t := if s / 365 < 4 then s / 365 else 3;
    doy := s - 365 * t;
  }

  /** Year `100a + 4b + 3` with `b < 24` or `a == 3` holds a leap day. */
  lemma LeapDay(a: int, b: int, yoe: int)
    requires 0 <= a < 4 && 0 <= b < 25 && (b < 24 || a == 3)
    requires yoe == 100 * a + 4 * b + 3
    ensures YearDays(yoe) == 366
  {
    assert (yoe + 1) % 4 == 0;
    if b < 24 {
      assert (yoe + 1) % 100 == 4 * (b + 1);
    } else {
      assert yoe + 1 == 400;
    }
  }

  /** A year whose February has a leap day is the last of a four-year
      cycle, and not the end of a century other than the era's last. */
  lemma LeapParts(a: int, b: int, t: int, yoe: int)
    requires 0 <= a < 4 && 0 <= b < 25 && 0 <= t < 4
    requires yoe == 100 * a + 4 * b + t
    requires YearDays(yoe) == 366
    ensures t == 3 && (b < 24 || a == 3)
  {
    assert (yoe + 1) % 4 == 0;
    if b == 24 && t == 3 {
      assert yoe + 1 == 100 * (a + 1);
      assert (yoe + 1) % 400 == 0;
    }
  }

  /** The year of era of every day of an era, and where that year starts. */
  lemma YearOfEraBounds(doe: int) returns (yoe: int, doy: int)
    requires 0 <= doe < 146097
    ensures YearOfEra(doe) == yoe && 0 <= yoe < 400
    ensures 0 <= doy < YearDays(yoe) && doe == YearStart(yoe) + doy
  {
    var a, b, t;
    a, b, t, doy := EraDayParts(doe);
    yoe := 100 * a + 4 * b + t;
    YearStartSplit(a, b, t, yoe);
    YearOfEraAt(a, b, t, doy, doe);
    if doy == 365 {
      LeapDay(a, b, yoe);
    }
  }

  /** The year of era of day `doy` of year `yoe` is `yoe`. */
  lemma YearOfEraOfDay(yoe: int, doy: int, doe: int)
    requires 0 <= yoe < 400 && 0 <= doy < YearDays(yoe)
    requires doe == YearStart(yoe) + doy
    ensures YearOfEra(doe) == yoe && 0 <= doe < 146097
  {
    var a, b, t := yoe / 100, (yoe % 100) / 4, yoe % 4;
    assert yoe == 100 * a + 4 * b + t;
    YearStartSplit(a, b, t, yoe);
    if doy == 365 {
      LeapParts(a, b, t, yoe);
    }
    YearOfEraAt(a, b, t, doy, doe);
    YearStartBelowEraEnd(yoe);
  }

  /** The month (counted from March) and first day of that month for day
      `doy` of a March-based year. */
  lemma MonthOfYearDay(doy: int)
    requires 0 <= doy < 366
    ensures 0 <= (5 * doy + 2) / 153 < 12
    ensures MonthStart((5 * doy + 2) / 153) <= doy < MonthStart((5 * doy + 2) / 153 + 1)
  {
  }

  /** The month number of month `mp` counted from March. */
  function MonthFromMarch(mp: int): int
  {
    if mp < 10 then mp + 3 else mp - 9
  }

  /** The day number of day `doy` of year `yoe` of era `era`. */
  lemma DaysOfYearDay(era: int, yoe: int, doy: int)
    requires 0 <= yoe < 400 && 0 <= doy < 366
    ensures DaysFromCivil(CivilOfYearDay(era, yoe, doy)) == era * 146097 + YearStart(yoe) + doy - 719468
  {
    MonthOfYearDay(doy);
    var mp := (5 * doy + 2) / 153;
    var m := MonthFromMarch(mp);
    var y := yoe + era * 400;
    assert y / 400 == era;
    assert (m + 9) % 12 == mp;
  }

  /** Every day number is a day `doy` of a year `yoe` of an era `era`. */
  lemma DayParts(z: int) returns (era: int, yoe: int, doy: int)
    ensures 0 <= yoe < 400 && 0 <= doy < YearDays(yoe)
    ensures z == era * 146097 + YearStart(yoe) + doy - 719468
  {
    era := (z + 719468) / 146097;
    var doe := z + 719468 - era * 146097;
    yoe, doy := YearOfEraBounds(doe);
  }

  /** Day `doe` of era `era` is found in that era. */
  lemma EraOfDay(era: int, doe: int, z: int)
    requires 0 <= doe < 146097
    requires z == era * 146097 + doe - 719468
    ensures CivilFromDays(z) == CivilOfEraDay(era, doe)
  {
    assert (z + 719468) / 146097 == era;
  }

  lemma CivilOfEraDayAt(era: int, doe: int, yoe: int, doy: int)
    requires YearOfEra(doe) == yoe && doy == doe - YearStart(yoe)
    ensures CivilOfEraDay(era, doe) == CivilOfYearDay(era, yoe, doy)
  {
  }

  /** The date of day number `z`, given as day `doy` of the March-based
      year `yoe` of an era. */
  lemma CivilFromParts(era: int, yoe: int, doy: int, z: int)
    requires 0 <= yoe < 400 && 0 <= doy < YearDays(yoe)
    requires z == era * 146097 + YearStart(yoe) + doy - 719468
    ensures CivilFromDays(z) == CivilOfYearDay(era, yoe, doy)
  {
    var doe := YearStart(yoe) + doy;
    YearOfEraOfDay(yoe, doy, doe);
    EraOfDay(era, doe, z);
    CivilOfEraDayAt(era, doe, yoe, doy);
  }

  /** Turning a day number into a date and back gives the same day number. */
  lemma DaysCivilDays(z: int)
    ensures DaysFromCivil(CivilFromDays(z)) == z
  {
    var era, yoe, doy := DayParts(z);
    CivilFromParts(era, yoe, doy, z);
    DaysOfYearDay(era, yoe, doy);
  }

  lemma ShiftRemainder(y: int, n: int, k: int)
    requires n == 4 || n == 100 || n == 400
    ensures (y + n * k) % n == y % n
  {
  }

  /** Leap years repeat every 400 years. */
  lemma LeapEra(y: int, era: int)
    ensures IsLeapYear(y + era * 400) == IsLeapYear(y)
  {
    ShiftRemainder(y, 4, era * 100);
    ShiftRemainder(y, 100, era * 4);
    ShiftRemainder(y, 400, era);
  }

  /** From March to January, month `mp` counted from March is as long as
      the gap to the next month's start. */
  lemma MonthLength(y: int, mp: int)
    requires 0 <= mp < 11
    ensures MonthStart(mp + 1) - MonthStart(mp) == DaysInMonth(y, MonthFromMarch(mp))
  {
  }

  /** Every day of a March-based year names a valid date. */
  lemma YearDayValid(era: int, yoe: int, doy: int)
    requires 0 <= yoe < 400 && 0 <= doy < YearDays(yoe)
    ensures ValidCivil(CivilOfYearDay(era, yoe, doy))
  {
    MonthOfYearDay(doy);
    var mp := (5 * doy + 2) / 153;
    var c := CivilOfYearDay(era, yoe, doy);
    if mp < 11 {
      MonthLength(c.year, mp);
    } else {
      LeapEra(yoe + 1, era);
      assert c.year == yoe + 1 + era * 400;
    }
  }

  /** Every day number names a valid date. */
  lemma CivilFromDaysValid(z: int)
    ensures ValidCivil(CivilFromDays(z))
  {
    var era, yoe, doy := DayParts(z);
    CivilFromParts(era, yoe, doy, z);
    YearDayValid(era, yoe, doy);
  }

  /** A valid date as day `doy` of the March-based year `yoe` of era `era`. */
  lemma CivilParts(c: Civil) returns (era: int, yoe: int, doy: int)
    requires ValidCivil(c)
    ensures 0 <= yoe < 400 && 0 <= doy < YearDays(yoe)
    ensures DaysFromCivil(c) == era * 146097 + YearStart(yoe) + doy - 719468
    ensures c == CivilOfYearDay(era, yoe, doy)
  {
    var y := if c.month <= 2 then c.year - 1 else c.year;
    era := y / 400;
    yoe := y - era * 400;
    var mp := (c.month + 9) % 12;
    assert MonthFromMarch(mp) == c.month;
    doy := MonthStart(mp) + c.day - 1;
    assert 0 <= doy < YearDays(yoe) by {
      if mp == 11 {
        LeapEra(yoe + 1, era);
        assert c.year == yoe + 1 + era * 400;
      }
    }
    assert (5 * doy + 2) / 153 == mp;
  }

  /** Turning a valid date into a day number and back gives the same date. */
  lemma CivilDaysCivil(c: Civil)
    requires ValidCivil(c)
    ensures CivilFromDays(DaysFromCivil(c)) == c
  {
    var era, yoe, doy := CivilParts(c);
    CivilFromParts(era, yoe, doy, DaysFromCivil(c));
  }

  /** Within a month, day numbers run on one per day. */
  lemma DaysWithinMonth(y: int, m: int, d: int)
    ensures DaysFromCivil(Civil(y, m, d)) == DaysFromCivil(Civil(y, m, 1)) + d - 1
  {
  }

  /** Counting `d - 1` days on from the first of a month lands on day `d`
      of that month, when the month has one. */
  lemma DayOfMonth(y: int, m: int, d: int, z: int)
    requires ValidCivil(Civil(y, m, d))
    requires z == DaysFromCivil(Civil(y, m, 1)) + d - 1
    ensures CivilFromDays(z) == Civil(y, m, d)
  {
    var c := Civil(y, m, d);
    DaysWithinMonth(y, m, d);
    assert DaysFromCivil(c) == z;
    CivilDaysCivil(c);
  }

  /** Day 0 is Thursday 1 January 1970. */
  lemma Epoch()
    ensures DaysFromCivil(Civil(1970, 1, 1)) == 0 && WeekdayOf(0) == 4
  {
    DaysOfYearDay(4, 369, 306);
    assert CivilOfYearDay(4, 369, 306) == Civil(1970, 1, 1);
    assert YearStart(369) == 134774;
  }
}
