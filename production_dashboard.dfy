/** The production dashboard's statistics (src/pages/ProductionDashboard.tsx):
    the records sorted latest first, one pass over the records that adds
    each record's weights into the week, month, year and all-time buckets
    of the latest record's date, the environmental totals, day-on-day
    growth, and the daily-target gauge.

    What the page gets from `parseCustomDate(r.date)` is the parameter
    `dateOf`: a `Moment`, the day number of the date (day 0 = 1970-01-01)
    with the values of its `getFullYear`, `getMonth` and `getDay`. The
    `DateUtils` module models that parser, and `Agrees` ties the getters to
    the civil calendar of `Calendar`. */
module ProductionDashboard {
  import opened Types
  import opened Lists
  import opened Calendar

  // ---------------------------------------------------------------------
  // Records (src/types/productionAnalyzer.ts)
  // ---------------------------------------------------------------------

  datatype ColorGroupData = ColorGroupData(groupName: string, weight: real, percentage: Option<real>)

  /** `total` is `None` where `Number(total)` is NaN. */
  datatype IndustryData = IndustryData(
    name: string,
    total: Option<real>,
    loadingCap: Option<real>,
    colorGroups: seq<ColorGroupData>,
    inhouse: real,
    subContract: real)

  /** `totalProduction` is `None` where `Number(totalProduction)` is NaN. */
  datatype ProductionRecord = ProductionRecord(
    id: string,
    date: string,
    lantabur: IndustryData,
    taqwa: IndustryData,
    totalProduction: Option<real>,
    createdAt: string)

  /** The two industries of the group. */
  datatype Brand = Lantabur | Taqwa

  function Industry(r: ProductionRecord, b: Brand): IndustryData
  {
    match b
    case Lantabur => r.lantabur
    case Taqwa => r.taqwa
  }

  /** `RATES`: revenue per kg of each industry, water litres and CO2 kg
      per kg produced; and `DAILY_TARGET` in kg. */
  const LantaburRate: real := 1.25
  const TaqwaRate: real := 1.18
  const WaterPerKg: real := 45.0
  const Co2PerKg: real := 2.3
  const DailyTarget: real := 60000.0

  /** A parsed date: its day number and what its getters return. */
  datatype Moment = Moment(day: int, year: int, month: int, weekday: int)

  /** The getters are those of the proleptic Gregorian calendar. */
  predicate Agrees(t: Moment)
  {
    t.year == YearOf(t.day) && t.month == MonthOf(t.day) && t.weekday == WeekdayOf(t.day)
  }

  // ---------------------------------------------------------------------
  // Latest first: `[...records].sort((a, b) => time(b) - time(a))`
  // ---------------------------------------------------------------------

  predicate SortedByDate(s: seq<ProductionRecord>, dateOf: string -> Moment)
  {
    forall i, j :: 0 <= i < j < |s| ==> dateOf(s[j].date).day <= dateOf(s[i].date).day
  }

  /** `x` placed before the first record of `s` that is not later than it. */
  function Insert(x: ProductionRecord, s: seq<ProductionRecord>, dateOf: string -> Moment)
    : (r: seq<ProductionRecord>)
    ensures |r| == |s| + 1
    ensures multiset(r) == multiset(s) + multiset{x}
  {
    if s == [] || dateOf(s[0].date).day <= dateOf(x.date).day then [x] + s
    else
      assert s == [s[0]] + s[1..];
      [s[0]] + Insert(x, s[1..], dateOf)
  }

  /** The records latest first; records of the same day keep their order
      (the sort is stable). */
  function SortByDate(rs: seq<ProductionRecord>, dateOf: string -> Moment): (r: seq<ProductionRecord>)
    ensures |r| == |rs|
    ensures multiset(r) == multiset(rs)
  {
    if rs == [] then []
    else
      assert rs == [rs[0]] + rs[1..];
      Insert(rs[0], SortByDate(rs[1..], dateOf), dateOf)
  }

  lemma {:induction false} InsertSorted(x: ProductionRecord, s: seq<ProductionRecord>, dateOf: string -> Moment)
    requires SortedByDate(s, dateOf)
    ensures SortedByDate(Insert(x, s, dateOf), dateOf)
  {
    if s != [] && dateOf(s[0].date).day > dateOf(x.date).day {
      InsertSorted(x, s[1..], dateOf);
      var t := Insert(x, s[1..], dateOf);
      assert t[0] in multiset(s[1..]) + multiset{x};
    }
  }

  lemma {:induction false} SortByDateSorted(rs: seq<ProductionRecord>, dateOf: string -> Moment)
    ensures SortedByDate(SortByDate(rs, dateOf), dateOf)
  {
    if rs != [] {
      SortByDateSorted(rs[1..], dateOf);
      InsertSorted(rs[0], SortByDate(rs[1..], dateOf), dateOf);
    }
  }

  /** The records dated `day`. */
  function OnDay(dateOf: string -> Moment, day: int): ProductionRecord -> bool
  {
    (r: ProductionRecord) => dateOf(r.date).day == day
  }

  lemma {:induction false} InsertKeepsDayOrder(x: ProductionRecord, s: seq<ProductionRecord>, dateOf: string -> Moment, day: int)
    ensures Filter(Insert(x, s, dateOf), OnDay(dateOf, day))
            == (if dateOf(x.date).day == day then [x] else []) + Filter(s, OnDay(dateOf, day))
  {
    if s != [] && dateOf(s[0].date).day > dateOf(x.date).day {
      InsertKeepsDayOrder(x, s[1..], dateOf, day);
      assert Insert(x, s, dateOf)[1..] == Insert(x, s[1..], dateOf);
    } else {
      assert ([x] + s)[1..] == s;
    }
  }

  /** Stability: the records of any one day appear in the sorted list in
      their original order. */
  lemma {:induction false} SortKeepsDayOrder(rs: seq<ProductionRecord>, dateOf: string -> Moment, day: int)
    ensures Filter(SortByDate(rs, dateOf), OnDay(dateOf, day)) == Filter(rs, OnDay(dateOf, day))
  {
    if rs != [] {
      SortKeepsDayOrder(rs[1..], dateOf, day);
      InsertKeepsDayOrder(rs[0], SortByDate(rs[1..], dateOf), dateOf, day);
    }
  }

  /** `latest = sorted[0]` is dated on or after every record. */
  lemma LatestIsLatest(rs: seq<ProductionRecord>, dateOf: string -> Moment)
    requires rs != []
    ensures forall r :: r in rs ==> dateOf(r.date).day <= dateOf(SortByDate(rs, dateOf)[0].date).day
  {
    var sorted := SortByDate(rs, dateOf);
    SortByDateSorted(rs, dateOf);
    forall r | r in rs ensures dateOf(r.date).day <= dateOf(sorted[0].date).day {
      assert r in multiset(sorted);
    }
  }

  /** Among records of the latest date, `latest` is the first in the given
      order. */
  lemma LatestIsFirstOfItsDay(rs: seq<ProductionRecord>, dateOf: string -> Moment) returns (i: nat)
    requires rs != []
    ensures i < |rs| && rs[i] == SortByDate(rs, dateOf)[0]
    ensures forall j :: 0 <= j < i ==> dateOf(rs[j].date).day != dateOf(rs[i].date).day
  {
    var sorted := SortByDate(rs, dateOf);
    var p := OnDay(dateOf, dateOf(sorted[0].date).day);
    SortKeepsDayOrder(rs, dateOf, dateOf(sorted[0].date).day);
    assert Filter(sorted, p) == [sorted[0]] + Filter(sorted[1..], p);
    i := FilterHead(rs, p);
  }

  /** Once `latest` is taken out, the remaining sorted records are the
      other records. */
  lemma RestAreTheOthers(rs: seq<ProductionRecord>, dateOf: string -> Moment)
    requires rs != []
    ensures var sorted := SortByDate(rs, dateOf);
      multiset(sorted[1..]) == multiset(rs) - multiset{sorted[0]}
  {
    var sorted := SortByDate(rs, dateOf);
    assert sorted == [sorted[0]] + sorted[1..];
  }

  /** `prev = sorted[1]` is dated on or after every other record but
      `latest`. */
  lemma PreviousIsLatestOfRest(rs: seq<ProductionRecord>, dateOf: string -> Moment)
    requires |rs| >= 2
    ensures var sorted := SortByDate(rs, dateOf);
      forall r :: r in sorted[1..] ==> dateOf(r.date).day <= dateOf(sorted[1].date).day
  {
    var sorted := SortByDate(rs, dateOf);
    SortByDateSorted(rs, dateOf);
    forall r | r in sorted[1..] ensures dateOf(r.date).day <= dateOf(sorted[1].date).day {
      var k :| 1 <= k < |sorted| && sorted[k] == r;
      assert dateOf(sorted[k].date).day <= dateOf(sorted[1].date).day;
    }
  }

  // ---------------------------------------------------------------------
  // Buckets
  // ---------------------------------------------------------------------

  /** `startOfWeek`: `setDate(getDate() - getDay())`, the day number of the
      Sunday on or before `ref`. */
  function StartOfWeek(ref: Moment): (d: int)
    ensures ref.weekday == WeekdayOf(ref.day) ==> d <= ref.day < d + 7 && WeekdayOf(d) == 0
  {
    SundayOnOrBefore(ref.day);
    ref.day - ref.weekday
  }

  datatype Period = Week | Month | Year | AllTime

  /** `isWithinWeek`, `isSameMonth`, `isSameYear` for a record dated `d`
      when the latest record is dated `ref`; every record counts all-time. */
  predicate InPeriod(p: Period, d: Moment, ref: Moment)
  {
    match p
    case Week => StartOfWeek(ref) <= d.day <= ref.day
    case Month => d.month == ref.month && d.year == ref.year
    case Year => d.year == ref.year
    case AllTime => true
  }

  /** What a bucket adds up: the total production or one industry's total. */
  datatype Measure = Production | BrandTotal(brand: Brand)

  /** `Number(x) || 0` of the measured field. */
  function Amount(r: ProductionRecord, m: Measure): real
  {
    match m
    case Production => OrZero(r.totalProduction)
    case BrandTotal(b) => OrZero(Industry(r, b).total)
  }

  /** The measure summed over the records of `rs` that fall in period `p`. */
  function PeriodSum(rs: seq<ProductionRecord>, p: Period, m: Measure, ref: Moment, dateOf: string -> Moment): real
  {
    if rs == [] then 0.0
    else
      var r := rs[|rs| - 1];
      PeriodSum(rs[..|rs| - 1], p, m, ref, dateOf) + (if InPeriod(p, dateOf(r.date), ref) then Amount(r, m) else 0.0)
  }

  /** One more record adds its amount to every bucket whose period it
      falls in. */
  lemma PeriodSumStep(rs: seq<ProductionRecord>, i: nat, ref: Moment, dateOf: string -> Moment)
    requires i < |rs|
    ensures forall p, m :: PeriodSum(rs[..i + 1], p, m, ref, dateOf)
                           == PeriodSum(rs[..i], p, m, ref, dateOf)
                              + (if InPeriod(p, dateOf(rs[i].date), ref) then Amount(rs[i], m) else 0.0)
  {
    assert rs[..i + 1][..i] == rs[..i];
  }

  /** A bucket whose period contains another's holds at least as much,
      when no amount is negative. */
  lemma {:induction false} PeriodSumWithin(rs: seq<ProductionRecord>, p: Period, q: Period, m: Measure, ref: Moment, dateOf: string -> Moment)
    requires forall i :: 0 <= i < |rs| ==> Amount(rs[i], m) >= 0.0
    requires forall i :: 0 <= i < |rs| ==> InPeriod(p, dateOf(rs[i].date), ref) ==> InPeriod(q, dateOf(rs[i].date), ref)
    ensures PeriodSum(rs, p, m, ref, dateOf) <= PeriodSum(rs, q, m, ref, dateOf)
  {
    if rs != [] {
      PeriodSumWithin(rs[..|rs| - 1], p, q, m, ref, dateOf);
    }
  }

  /** With no negative amount, this month's bucket is within this year's
      and this year's within the all-time total. */
  lemma BucketsNested(rs: seq<ProductionRecord>, m: Measure, ref: Moment, dateOf: string -> Moment)
    requires forall i :: 0 <= i < |rs| ==> Amount(rs[i], m) >= 0.0
    ensures PeriodSum(rs, Month, m, ref, dateOf) <= PeriodSum(rs, Year, m, ref, dateOf)
    ensures PeriodSum(rs, Year, m, ref, dateOf) <= PeriodSum(rs, AllTime, m, ref, dateOf)
  {
    PeriodSumWithin(rs, Month, Year, m, ref, dateOf);
    PeriodSumWithin(rs, Year, AllTime, m, ref, dateOf);
  }

  /** A calendar date lies in its own week, month and year, so a single
      record's buckets each hold its own amount. */
  lemma SingleRecordBuckets(r: ProductionRecord, p: Period, m: Measure, dateOf: string -> Moment)
    requires Agrees(dateOf(r.date))
    ensures PeriodSum([r], p, m, dateOf(r.date), dateOf) == Amount(r, m)
  {
    assert [r][..0] == [];
    assert InPeriod(p, dateOf(r.date), dateOf(r.date));
  }

  // ---------------------------------------------------------------------
  // Revenue, growth and the daily target
  // ---------------------------------------------------------------------

  /** `lantabur.total * 1.25 + taqwa.total * 1.18`; NaN in either is NaN. */
  function Revenue(r: ProductionRecord): (v: Option<real>)
    ensures v.Some? <==> r.lantabur.total.Some? && r.taqwa.total.Some?
    ensures v.Some? && r.lantabur.total.value >= 0.0 && r.taqwa.total.value >= 0.0 ==>
              TaqwaRate * (r.lantabur.total.value + r.taqwa.total.value) <= v.value
              <= LantaburRate * (r.lantabur.total.value + r.taqwa.total.value)
  {
    if r.lantabur.total.Some? && r.taqwa.total.Some? then
      Some(r.lantabur.total.value * LantaburRate + r.taqwa.total.value * TaqwaRate)
    else None
  }

  /** `(latest - prev) / Math.max(1, prev) * 100`; NaN in either is NaN. */
  function Growth(latest: Option<real>, prev: Option<real>): (g: Option<real>)
    ensures g.Some? <==> latest.Some? && prev.Some?
    ensures g.Some? ==> (g.value > 0.0 <==> latest.value > prev.value)
    ensures g.Some? ==> (g.value == 0.0 <==> latest.value == prev.value)
    ensures g.Some? && prev.value >= 1.0 ==> g.value == (latest.value / prev.value - 1.0) * 100.0
    ensures g.Some? && prev.value <= 1.0 ==> g.value == (latest.value - prev.value) * 100.0
  {
    if latest.Some? && prev.Some? then
      var g := (latest.value - prev.value) / Max(1.0, prev.value) * 100.0;
      assert prev.value >= 1.0 ==> g == (latest.value / prev.value - 1.0) * 100.0 by {
        if prev.value >= 1.0 {
          var a, b := latest.value, prev.value;
          assert (a - b) / b == a / b - b / b;
          assert b / b == 1.0;
        }
      }
      Some(g)
    else None
  }

  /** `Math.min(100, totalProduction / DAILY_TARGET * 100)`. */
  function ProgressPercent(totalProduction: Option<real>): (p: Option<real>)
    ensures p.Some? <==> totalProduction.Some?
    ensures p.Some? ==> p.value <= 100.0
    ensures p.Some? ==> (p.value == 100.0 <==> totalProduction.value >= DailyTarget)
    ensures p.Some? && totalProduction.value >= 0.0 ==> p.value >= 0.0
  {
    if totalProduction.Some? then Some(Min(100.0, totalProduction.value / DailyTarget * 100.0)) else None
  }

  /** `Math.max(0, DAILY_TARGET - totalProduction)`. */
  function Shortfall(totalProduction: Option<real>): (s: Option<real>)
    ensures s.Some? <==> totalProduction.Some?
    ensures s.Some? ==> s.value >= 0.0
    ensures s.Some? ==> (s.value == 0.0 <==> totalProduction.value >= DailyTarget)
  {
    if totalProduction.Some? then Some(Max(0.0, DailyTarget - totalProduction.value)) else None
  }

  /** The gauge and the shortfall tell the same story: the percentage
      reached is what the shortfall leaves of the target. */
  lemma ProgressAndShortfall(totalProduction: real)
    ensures ProgressPercent(Some(totalProduction)).value
            == 100.0 - Shortfall(Some(totalProduction)).value / DailyTarget * 100.0
  {
  }

  // ---------------------------------------------------------------------
  // The statistics
  // ---------------------------------------------------------------------

  /** `brandStats.lantabur` / `brandStats.taqwa`. */
  datatype BrandStats = BrandStats(today: Option<real>, week: real, month: real, year: real)

  /** The `stats` object; `refMonth` (0..11) stands for the localised
      `monthName`. */
  datatype Stats = Stats(
    latest: ProductionRecord,
    latestRevenue: Option<real>,
    totalWeight: real,
    monthWeight: real,
    yearWeight: real,
    growthWeight: Option<real>,
    growthRev: Option<real>,
    lantabur: BrandStats,
    taqwa: BrandStats,
    totalWater: real,
    totalCO2: real,
    refMonth: int,
    refYear: int)

  /** An industry's tallies: today is the latest record's own total, the
      rest are its buckets. */
  predicate Tallies(bs: BrandStats, b: Brand, rs: seq<ProductionRecord>, latest: ProductionRecord, ref: Moment, dateOf: string -> Moment)
  {
    && bs.today == Industry(latest, b).total
    && bs.week == PeriodSum(rs, Week, BrandTotal(b), ref, dateOf)
    && bs.month == PeriodSum(rs, Month, BrandTotal(b), ref, dateOf)
    && bs.year == PeriodSum(rs, Year, BrandTotal(b), ref, dateOf)
  }

  /** The weights of the production total in the three wide buckets, and
      the environmental totals as multiples of the all-time weight. */
  predicate Weights(s: Stats, rs: seq<ProductionRecord>, ref: Moment, dateOf: string -> Moment)
  {
    && s.totalWeight == PeriodSum(rs, AllTime, Production, ref, dateOf)
    && s.monthWeight == PeriodSum(rs, Month, Production, ref, dateOf)
    && s.yearWeight == PeriodSum(rs, Year, Production, ref, dateOf)
    && s.totalWater == WaterPerKg * s.totalWeight
    && s.totalCO2 == Co2PerKg * s.totalWeight
  }

  /** The `records.forEach` pass: every record's weights go into the
      buckets its date falls in, relative to the latest record `latest`
      dated `refDate`. */
  method AccumulateBuckets(rs: seq<ProductionRecord>, latest: ProductionRecord, refDate: Moment, dateOf: string -> Moment)
    returns (lantabur: BrandStats, taqwa: BrandStats,
             totalWeight: real, monthWeight: real, yearWeight: real, totalWater: real, totalCO2: real)
    ensures totalWeight == PeriodSum(rs, AllTime, Production, refDate, dateOf)
    ensures monthWeight == PeriodSum(rs, Month, Production, refDate, dateOf)
    ensures yearWeight == PeriodSum(rs, Year, Production, refDate, dateOf)
    ensures totalWater == WaterPerKg * totalWeight
    ensures totalCO2 == Co2PerKg * totalWeight
    ensures Tallies(lantabur, Lantabur, rs, latest, refDate, dateOf)
    ensures Tallies(taqwa, Taqwa, rs, latest, refDate, dateOf)
  {
    var refMonth := refDate.month;
    var refYear := refDate.year;
    var startOfWeek := StartOfWeek(refDate);

    lantabur := BrandStats(latest.lantabur.total, 0.0, 0.0, 0.0);
    taqwa := BrandStats(latest.taqwa.total, 0.0, 0.0, 0.0);
    totalWeight, monthWeight, yearWeight, totalWater, totalCO2 := 0.0, 0.0, 0.0, 0.0, 0.0;

    var i := 0;
    while i < |rs|
      invariant 0 <= i <= |rs|
      invariant totalWeight == PeriodSum(rs[..i], AllTime, Production, refDate, dateOf)
      invariant monthWeight == PeriodSum(rs[..i], Month, Production, refDate, dateOf)
      invariant yearWeight == PeriodSum(rs[..i], Year, Production, refDate, dateOf)
      invariant totalWater == WaterPerKg * totalWeight
      invariant totalCO2 == Co2PerKg * totalWeight
      invariant Tallies(lantabur, Lantabur, rs[..i], latest, refDate, dateOf)
      invariant Tallies(taqwa, Taqwa, rs[..i], latest, refDate, dateOf)
    {
      var r := rs[i];
      var d := dateOf(r.date);
      var isSameMonth := d.month == refMonth && d.year == refYear;
      var isSameYear := d.year == refYear;
      var isWithinWeek := d.day >= startOfWeek && d.day <= refDate.day;
      PeriodSumStep(rs, i, refDate, dateOf);

      var weight := OrZero(r.totalProduction);
      totalWeight := totalWeight + weight;
      totalWater := totalWater + weight * WaterPerKg;
      totalCO2 := totalCO2 + weight * Co2PerKg;

      if isWithinWeek {
        lantabur := lantabur.(week := lantabur.week + OrZero(r.lantabur.total));
        taqwa := taqwa.(week := taqwa.week + OrZero(r.taqwa.total));
      }
      if isSameMonth {
        lantabur := lantabur.(month := lantabur.month + OrZero(r.lantabur.total));
        taqwa := taqwa.(month := taqwa.month + OrZero(r.taqwa.total));
        monthWeight := monthWeight + weight;
      }
      if isSameYear {
        lantabur := lantabur.(year := lantabur.year + OrZero(r.lantabur.total));
        taqwa := taqwa.(year := taqwa.year + OrZero(r.taqwa.total));
        yearWeight := yearWeight + weight;
      }
      i := i + 1;
    }
    assert rs[..i] == rs;
  }

  /** The `stats` memo: no records, no statistics; otherwise the latest
      record, its reference month and year, the buckets filled by one pass
      over the records in their given order, and growth against the
      runner-up (0 when there is none). */
  method ComputeStats(records: Option<seq<ProductionRecord>>, dateOf: string -> Moment) returns (stats: Option<Stats>)
    ensures stats.None? <==> records.None? || records.value == []
    ensures stats.Some? ==>
              var rs := records.value;
              var sorted := SortByDate(rs, dateOf);
              var ref := dateOf(sorted[0].date);
              var s := stats.value;
              && s.latest == sorted[0]
              && s.refMonth == ref.month && s.refYear == ref.year
              && Weights(s, rs, ref, dateOf)
              && Tallies(s.lantabur, Lantabur, rs, sorted[0], ref, dateOf)
              && Tallies(s.taqwa, Taqwa, rs, sorted[0], ref, dateOf)
              && s.latestRevenue == Revenue(sorted[0])
              && s.growthWeight == (if |rs| >= 2 then Growth(sorted[0].totalProduction, sorted[1].totalProduction) else Some(0.0))
              && s.growthRev == (if |rs| >= 2 then Growth(Revenue(sorted[0]), Revenue(sorted[1])) else Some(0.0))
  {
    if records.None? || records.value == [] {
      return None;
    }
    var rs := records.value;
    var sorted := SortByDate(rs, dateOf);
    var latest := sorted[0];
    var refDate := dateOf(latest.date);
    var refMonth := refDate.month;
    var refYear := refDate.year;

    var lantabur, taqwa, totalWeight, monthWeight, yearWeight, totalWater, totalCO2 :=
      AccumulateBuckets(rs, latest, refDate, dateOf);

    var latestRevenue := Revenue(latest);
    var growthWeight, growthRev := Some(0.0), Some(0.0);
    if |rs| >= 2 {
      var prev := sorted[1];
      growthWeight := Growth(latest.totalProduction, prev.totalProduction);
      growthRev := Growth(latestRevenue, Revenue(prev));
    }
    stats := Some(Stats(latest, latestRevenue, totalWeight, monthWeight, yearWeight, growthWeight, growthRev,
                        lantabur, taqwa, totalWater, totalCO2, refMonth, refYear));
  }

  /** Over the records the page is given, with no negative amount: the
      month's weight is within the year's, the year's within the total,
      and likewise for each industry's month and year. */
  lemma StatsBucketsNested(records: seq<ProductionRecord>, s: Stats, dateOf: string -> Moment)
    requires records != []
    requires forall i :: 0 <= i < |records| ==> Amount(records[i], Production) >= 0.0
    requires forall i, b :: 0 <= i < |records| ==> Amount(records[i], BrandTotal(b)) >= 0.0
    requires var sorted := SortByDate(records, dateOf);
      var ref := dateOf(sorted[0].date);
      Weights(s, records, ref, dateOf)
      && Tallies(s.lantabur, Lantabur, records, sorted[0], ref, dateOf)
      && Tallies(s.taqwa, Taqwa, records, sorted[0], ref, dateOf)
    ensures s.monthWeight <= s.yearWeight <= s.totalWeight
    ensures s.lantabur.month <= s.lantabur.year && s.taqwa.month <= s.taqwa.year
  {
    var ref := dateOf(SortByDate(records, dateOf)[0].date);
    BucketsNested(records, Production, ref, dateOf);
    BucketsNested(records, BrandTotal(Lantabur), ref, dateOf);
    BucketsNested(records, BrandTotal(Taqwa), ref, dateOf);
  }

  /** With a single record whose industry total is a number, that
      industry's week, month and year all equal its today. */
  lemma SingleRecordStats(r: ProductionRecord, bs: BrandStats, b: Brand, dateOf: string -> Moment)
    requires Agrees(dateOf(r.date))
    requires Industry(r, b).total.Some?
    requires Tallies(bs, b, [r], SortByDate([r], dateOf)[0], dateOf(SortByDate([r], dateOf)[0].date), dateOf)
    ensures bs.today == Some(bs.week) && bs.week == bs.month == bs.year
  {
    assert SortByDate([r], dateOf) == [r];
    SingleRecordBuckets(r, Week, BrandTotal(b), dateOf);
    SingleRecordBuckets(r, Month, BrandTotal(b), dateOf);
    SingleRecordBuckets(r, Year, BrandTotal(b), dateOf);
  }
}
