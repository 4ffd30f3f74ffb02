/** The monthly series behind the chart (src/plot.rs): a stream of entries in
    date order is cut into calendar months, each month's converted amounts are
    totalled into money in and money out, and one text row per month is written
    with the running sum. Amounts are summed as exact `real`s; the source sums
    `f64`s. */
module Plot {
  import opened Results
  import Text
  import Dec
  import Db

  type Month = m: int | 1 <= m <= 12 witness 1
  type Day = d: int | 1 <= d <= 31 witness 1

  /** `chrono::NaiveDate`. */
  datatype CalDate = CalDate(year: int, month: Month, day: Day)

  /** Months since January of year 0. */
  function MonthIndex(d: CalDate): int
  {
    12 * d.year + d.month - 1
  }

  /** A key that orders dates by year, then month, then day. */
  function DayKey(d: CalDate): int
  {
    32 * MonthIndex(d) + d.day
  }

  /** `<=` on `NaiveDate`. */
  predicate DateLe(a: CalDate, b: CalDate)
  {
    DayKey(a) <= DayKey(b)
  }

  /** The order is the calendar order: by year, then month, then day. */
  lemma DateLeCalendar(a: CalDate, b: CalDate)
    ensures DateLe(a, b) <==>
            a.year < b.year || (a.year == b.year && (a.month < b.month || (a.month == b.month && a.day <= b.day)))
  {
  }

  predicate SameMonth(a: CalDate, b: CalDate)
  {
    a.year == b.year && a.month == b.month
  }

  /** Two dates fall in the same calendar month exactly when their month indices agree,
      and a date is never later than a date of a later month. */
  lemma MonthIndexOrder(a: CalDate, b: CalDate)
    ensures SameMonth(a, b) <==> MonthIndex(a) == MonthIndex(b)
    ensures DateLe(a, b) ==> MonthIndex(a) <= MonthIndex(b)
    ensures MonthIndex(a) < MonthIndex(b) ==> DateLe(a, b) && a != b
    ensures a.day == 1 ==> (DateLe(a, b) <==> MonthIndex(a) <= MonthIndex(b))
  {
  }

  /** The first day of the calendar month after `d`'s. */
  function NextMonth(d: CalDate): CalDate
  {
    if d.month == 12 then CalDate(d.year + 1, 1, 1) else CalDate(d.year, d.month + 1, 1)
  }

  /** `DateSeries::next` computes the step as: the year grows by `month / 12`,
      the month becomes `month % 12 + 1`, the day is the first. That is the
      first day of the following calendar month. */
  lemma NextMonthArith(d: CalDate)
    ensures NextMonth(d) == CalDate(d.year + d.month / 12, d.month % 12 + 1, 1)
  {
    if d.month == 12 {
      assert d.month / 12 == 1 && d.month % 12 == 0;
    } else {
      assert d.month / 12 == 0 && d.month % 12 == d.month;
    }
  }

  /** The next date is the first day of the following calendar month, so it is later. */
  lemma NextMonthStep(d: CalDate)
    ensures MonthIndex(NextMonth(d)) == MonthIndex(d) + 1
    ensures NextMonth(d).day == 1
    ensures DateLe(d, NextMonth(d)) && d != NextMonth(d)
  {
  }

  /** `DateSeries`: an endless iterator over the first days of the months after its start. */
  class DateSeries {
    var d: CalDate

    /** `DateSeries::new`. */
    constructor (start: CalDate)
      ensures d == start
    {
      d := start;
    }

    /** `Iterator::next`: yields the current date and moves to the next month; never ends. */
    method Next() returns (r: Option<CalDate>)
      modifies this
      ensures r == Some(old(d))
      ensures d == NextMonth(old(d))
    {
      r := Some(d);
      NextMonthArith(d);
      d := CalDate(d.year + d.month / 12, d.month % 12 + 1, 1);
    }
  }

  /** How many more dates a series at `d` yields before passing `end`. */
  function MonthsLeft(d: CalDate, end: CalDate): nat
  {
    MonthIndexOrder(d, end);
    if DateLe(d, end) then MonthIndex(end) - MonthIndex(d) + 1 else 0
  }

  lemma MonthsLeftNext(d: CalDate, end: CalDate)
    requires DateLe(d, end)
    ensures MonthsLeft(NextMonth(d), end) < MonthsLeft(d, end)
  {
    NextMonthStep(d);
    MonthIndexOrder(NextMonth(d), end);
  }

  /** `DateSeries::new(d).take_while(|x| x <= end)`. */
  function Series(d: CalDate, end: CalDate): seq<CalDate>
    decreases MonthsLeft(d, end)
  {
    if !DateLe(d, end) then []
    else
      MonthsLeftNext(d, end);
      [d] + Series(NextMonth(d), end)
  }

  /** The series starts at its start date, steps one calendar month at a time,
      stays within `end` and has one date per month up to `end`'s month. */
  lemma {:induction false} SeriesShape(d: CalDate, end: CalDate)
    ensures var s := Series(d, end);
            && |s| == MonthsLeft(d, end)
            && (|s| > 0 ==> s[0] == d)
            && (forall k :: 0 <= k < |s| ==> MonthIndex(s[k]) == MonthIndex(d) + k && DateLe(s[k], end))
            && (forall k :: 0 < k < |s| ==> s[k].day == 1 && s[k] == NextMonth(s[k - 1]))
    decreases MonthsLeft(d, end)
  {
    if DateLe(d, end) {
      var n := NextMonth(d);
      MonthsLeftNext(d, end);
      NextMonthStep(d);
      MonthIndexOrder(n, end);
      MonthIndexOrder(d, end);
      SeriesShape(n, end);
      var s := Series(d, end);
      assert s == [d] + Series(n, end);
    }
  }

  lemma SeriesCons(d: CalDate, end: CalDate)
    requires DateLe(d, end)
    ensures Series(d, end) == [d] + Series(NextMonth(d), end)
  {
  }

  /** From 2020-04-01 up to 2021-04-01 the series yields thirteen dates. */
  lemma SeriesThirteenMonths(start: CalDate, end: CalDate)
    requires start == CalDate(2020, 4, 1) && end == CalDate(2021, 4, 1)
    ensures Series(start, end) ==
      [CalDate(2020, 4, 1), CalDate(2020, 5, 1), CalDate(2020, 6, 1), CalDate(2020, 7, 1),
       CalDate(2020, 8, 1), CalDate(2020, 9, 1), CalDate(2020, 10, 1), CalDate(2020, 11, 1),
       CalDate(2020, 12, 1), CalDate(2021, 1, 1), CalDate(2021, 2, 1), CalDate(2021, 3, 1),
       CalDate(2021, 4, 1)]
  {
    var s := Series(start, end);
    SeriesShape(start, end);
    assert |s| == 13;
    assert s[1] == CalDate(2020, 5, 1);
    assert s[2] == CalDate(2020, 6, 1);
    assert s[3] == CalDate(2020, 7, 1);
    assert s[4] == CalDate(2020, 8, 1);
    assert s[5] == CalDate(2020, 9, 1);
    assert s[6] == CalDate(2020, 10, 1);
    assert s[7] == CalDate(2020, 11, 1);
    assert s[8] == CalDate(2020, 12, 1);
    assert s[9] == CalDate(2021, 1, 1);
    assert s[10] == CalDate(2021, 2, 1);
    assert s[11] == CalDate(2021, 3, 1);
    assert s[12] == CalDate(2021, 4, 1);
  }


  /** `series.take_while(|x| x <= end).collect()`: the dates a series started
      at `start` yields up to `end`. */
  method CollectSeries(start: CalDate, end: CalDate) returns (v: seq<CalDate>)
    ensures v == Series(start, end)
  {
    var series := new DateSeries(start);
    v := [];
    while true
      invariant Series(start, end) == v + Series(series.d, end)
      decreases MonthsLeft(series.d, end)
    {
      var next := series.Next();
      var x := next.value;
      if !DateLe(x, end) {
        break;
      }
      SeriesCons(x, end);
      MonthsLeftNext(x, end);
      assert v + Series(x, end) == (v + [x]) + Series(NextMonth(x), end);
      v := v + [x];
    }
    assert Series(start, end) == v + [];
  }

  /** A ledger entry as the chart reads it: `db::Entry` with a calendar date. */
  datatype Entry = Entry(date: CalDate, amount: Dec.Decimal, currency: Db.Code, tag: char, text: string)

  /** Euro value of one unit of each known currency. */
  type Rates = map<Db.Code, Dec.Decimal>

  /** The entry's amount in euro. */
  function Converted(e: Entry, rate: Dec.Decimal): real
  {
    Dec.Value(e.amount) * Dec.Value(rate)
  }

  predicate AllRated(es: seq<Entry>, rates: Rates)
  {
    forall k :: 0 <= k < |es| ==> es[k].currency in rates
  }

  /** The euro value of all the entries together. */
  function Net(es: seq<Entry>, rates: Rates): real
    requires AllRated(es, rates)
  {
    if es == [] then 0.0 else Converted(es[0], rates[es[0].currency]) + Net(es[1..], rates)
  }

  /** Position of the first entry whose currency has no rate (`|es|` when every one has). */
  function FirstUnrated(es: seq<Entry>, rates: Rates): (i: nat)
    ensures i <= |es|
    ensures i < |es| ==> es[i].currency !in rates
    ensures forall k :: 0 <= k < i ==> es[k].currency in rates
  {
    if es == [] || es[0].currency !in rates then 0 else 1 + FirstUnrated(es[1..], rates)
  }

  /** An amount times its rate. */
  function Times(a: real, r: real): real
  {
    a * r
  }

  /** Adds `v` to money in `p` when it is not negative, else to money out `n`. */
  function Shift(p: real, n: real, v: real): (real, real)
  {
    if v >= 0.0 then (p + v, n) else (p, n + v)
  }

  /** `db::Entry::total_with_conversion`: the entries converted to euro and
      summed separately into money in (`pos`) and money out (`neg`); an entry
      in a currency without a rate fails the whole month with `NoRate`. */
  function TotalWithConversion(es: seq<Entry>, rates: Rates): Result<(real, real), Db.DbError>
  {
    if es == [] then Ok((0.0, 0.0))
    else if es[0].currency !in rates then Err(Db.NoRate(es[0].currency))
    else
      match TotalWithConversion(es[1..], rates)
      case Err(e) => Err(e)
      case Ok((p, n)) =>
        var v := Converted(es[0], rates[es[0].currency]);
        Ok(Shift(p, n, v))
  }

  /** The total succeeds exactly when every currency has a rate; money in is
      never negative, money out never positive, and together they are the net
      euro value; otherwise the error names the first currency without a rate. */
  lemma {:induction false} TotalWithConversionSpec(es: seq<Entry>, rates: Rates)
    ensures var r := TotalWithConversion(es, rates);
            && (r.Ok? <==> AllRated(es, rates))
            && (r.Ok? ==> r.value.0 >= 0.0 && r.value.1 <= 0.0 && r.value.0 + r.value.1 == Net(es, rates))
            && (r.Err? ==> FirstUnrated(es, rates) < |es|
                           && r.error == Db.NoRate(es[FirstUnrated(es, rates)].currency))
  {
    if es != [] && es[0].currency in rates {
      TotalWithConversionSpec(es[1..], rates);
      assert AllRated(es, rates) <==> AllRated(es[1..], rates) by {
        if AllRated(es[1..], rates) {
          forall k | 0 <= k < |es| ensures es[k].currency in rates {
            if k > 0 {
              assert es[k] == es[1..][k - 1];
            }
          }
        }
      }
    }
  }

  /** Each entry reduced to what conversion needs: its currency and the value
      of its amount. */
  function Flows(es: seq<Entry>): (r: seq<(Db.Code, real)>)
    ensures |r| == |es|
  {
    if es == [] then [] else [(es[0].currency, Dec.Value(es[0].amount))] + Flows(es[1..])
  }

  /** The value of each rate. */
  function RateValues(rates: Rates): (r: map<Db.Code, real>)
    ensures r.Keys == rates.Keys
  {
    map c | c in rates :: Dec.Value(rates[c])
  }

  /** The sum of the non-negative amounts in currency `c`, in that currency. */
  function AmountsIn(fs: seq<(Db.Code, real)>, c: Db.Code): real
  {
    if fs == [] then 0.0
    else (if fs[0].0 == c && fs[0].1 >= 0.0 then fs[0].1 else 0.0) + AmountsIn(fs[1..], c)
  }

  /** The sum of the negative amounts in currency `c`, in that currency. */
  function AmountsOut(fs: seq<(Db.Code, real)>, c: Db.Code): real
  {
    if fs == [] then 0.0
    else (if fs[0].0 == c && fs[0].1 < 0.0 then fs[0].1 else 0.0) + AmountsOut(fs[1..], c)
  }

  predicate Distinct(cs: seq<Db.Code>)
  {
    forall i, j :: 0 <= i < j < |cs| ==> cs[i] != cs[j]
  }

  predicate RatedCodes(cs: seq<Db.Code>, rv: map<Db.Code, real>)
  {
    forall i :: 0 <= i < |cs| ==> cs[i] in rv
  }

  /** The sum of a sequence of amounts. */
  function SumOf(xs: seq<real>): real
  {
    if xs == [] then 0.0 else xs[0] + SumOf(xs[1..])
  }

  /** Sums of sequences added element by element add up. */
  lemma {:induction false} SumOfAdd(xs: seq<real>, ys: seq<real>, zs: seq<real>)
    requires |xs| == |ys| == |zs|
    requires forall i :: 0 <= i < |xs| ==> xs[i] == ys[i] + zs[i]
    ensures SumOf(xs) == SumOf(ys) + SumOf(zs)
  {
    if xs != [] {
      SumOfAdd(xs[1..], ys[1..], zs[1..]);
    }
  }

  /** A sequence that is zero except perhaps at `j` sums to its element at `j`. */
  lemma {:induction false} SumOfOne(xs: seq<real>, j: nat)
    requires j < |xs| && forall i :: 0 <= i < |xs| && i != j ==> xs[i] == 0.0
    ensures SumOf(xs) == xs[j]
  {
    if j == 0 {
      SumOfZero(xs[1..]);
    } else {
      SumOfOne(xs[1..], j - 1);
    }
  }

  /** A sequence of zeros sums to zero. */
  lemma {:induction false} SumOfZero(xs: seq<real>)
    requires forall i :: 0 <= i < |xs| ==> xs[i] == 0.0
    ensures SumOf(xs) == 0.0
  {
    if xs != [] {
      SumOfZero(xs[1..]);
    }
  }

  /** Each currency's money in, converted: its total of non-negative amounts
      times its rate, one term per currency of `cs`. */
  function PerCurrencyIn(cs: seq<Db.Code>, fs: seq<(Db.Code, real)>, rv: map<Db.Code, real>): (r: seq<real>)
    requires RatedCodes(cs, rv)
    ensures |r| == |cs| && forall i :: 0 <= i < |cs| ==> r[i] == AmountsIn(fs, cs[i]) * rv[cs[i]]
  {
    seq(|cs|, i requires 0 <= i < |cs| => AmountsIn(fs, cs[i]) * rv[cs[i]])
  }

  /** Each currency's money out, converted: its total of negative amounts times its rate. */
  function PerCurrencyOut(cs: seq<Db.Code>, fs: seq<(Db.Code, real)>, rv: map<Db.Code, real>): (r: seq<real>)
    requires RatedCodes(cs, rv)
    ensures |r| == |cs| && forall i :: 0 <= i < |cs| ==> r[i] == AmountsOut(fs, cs[i]) * rv[cs[i]]
  {
    seq(|cs|, i requires 0 <= i < |cs| => AmountsOut(fs, cs[i]) * rv[cs[i]])
  }

  /** Money in computed currency by currency: each currency's total of
      non-negative amounts times its rate, summed over the currencies `cs`. */
  function ByCurrencyIn(cs: seq<Db.Code>, fs: seq<(Db.Code, real)>, rv: map<Db.Code, real>): real
    requires RatedCodes(cs, rv)
  {
    SumOf(PerCurrencyIn(cs, fs, rv))
  }

  /** Money out computed currency by currency, from the negative amounts. */
  function ByCurrencyOut(cs: seq<Db.Code>, fs: seq<(Db.Code, real)>, rv: map<Db.Code, real>): real
    requires RatedCodes(cs, rv)
  {
    SumOf(PerCurrencyOut(cs, fs, rv))
  }

  lemma Distribute(x: real, y: real, r: real)
    ensures (x + y) * r == x * r + y * r
  {
  }

  /** What amount `f` adds to money in when its currency is `c`, at rate `r`. */
  function InPart(f: (Db.Code, real), c: Db.Code, r: real): real
  {
    if f.0 == c && f.1 >= 0.0 then f.1 * r else 0.0
  }

  /** What amount `f` adds to money out when its currency is `c`, at rate `r`. */
  function OutPart(f: (Db.Code, real), c: Db.Code, r: real): real
  {
    if f.0 == c && f.1 < 0.0 then f.1 * r else 0.0
  }

  /** The amounts of currency `c` on the money-in side, each converted at rate `r`. */
  function ScaledIn(fs: seq<(Db.Code, real)>, c: Db.Code, r: real): real
  {
    if fs == [] then 0.0 else InPart(fs[0], c, r) + ScaledIn(fs[1..], c, r)
  }

  /** The amounts of currency `c` on the money-out side, each converted at rate `r`. */
  function ScaledOut(fs: seq<(Db.Code, real)>, c: Db.Code, r: real): real
  {
    if fs == [] then 0.0 else OutPart(fs[0], c, r) + ScaledOut(fs[1..], c, r)
  }

  /** The first amount's share of a currency's money in, converted at rate `r`. */
  lemma HeadIn(fs: seq<(Db.Code, real)>, c: Db.Code, r: real)
    requires fs != []
    ensures AmountsIn(fs, c) * r == InPart(fs[0], c, r) + AmountsIn(fs[1..], c) * r
  {
    if fs[0].0 == c && fs[0].1 >= 0.0 {
      Distribute(fs[0].1, AmountsIn(fs[1..], c), r);
    }
  }

  /** The first amount's share of a currency's money out, converted at rate `r`. */
  lemma HeadOut(fs: seq<(Db.Code, real)>, c: Db.Code, r: real)
    requires fs != []
    ensures AmountsOut(fs, c) * r == OutPart(fs[0], c, r) + AmountsOut(fs[1..], c) * r
  {
    if fs[0].0 == c && fs[0].1 < 0.0 {
      Distribute(fs[0].1, AmountsOut(fs[1..], c), r);
    }
  }

  /** Converting a currency's summed money in at once is converting it amount by amount. */
  lemma {:induction false} AmountsScaledIn(fs: seq<(Db.Code, real)>, c: Db.Code, r: real)
    ensures AmountsIn(fs, c) * r == ScaledIn(fs, c, r)
  {
    if fs != [] {
      AmountsScaledIn(fs[1..], c, r);
      HeadIn(fs, c, r);
    }
  }

  /** The same for money out. */
  lemma {:induction false} AmountsScaledOut(fs: seq<(Db.Code, real)>, c: Db.Code, r: real)
    ensures AmountsOut(fs, c) * r == ScaledOut(fs, c, r)
  {
    if fs != [] {
      AmountsScaledOut(fs[1..], c, r);
      HeadOut(fs, c, r);
    }
  }

  /** Each currency's converted money in, from the amounts converted one by one. */
  function SpreadIn(cs: seq<Db.Code>, fs: seq<(Db.Code, real)>, rv: map<Db.Code, real>): (r: seq<real>)
    requires RatedCodes(cs, rv)
    ensures |r| == |cs| && forall i :: 0 <= i < |cs| ==> r[i] == ScaledIn(fs, cs[i], rv[cs[i]])
  {
    seq(|cs|, i requires 0 <= i < |cs| => ScaledIn(fs, cs[i], rv[cs[i]]))
  }

  /** Each currency's converted money out, from the amounts converted one by one. */
  function SpreadOut(cs: seq<Db.Code>, fs: seq<(Db.Code, real)>, rv: map<Db.Code, real>): (r: seq<real>)
    requires RatedCodes(cs, rv)
    ensures |r| == |cs| && forall i :: 0 <= i < |cs| ==> r[i] == ScaledOut(fs, cs[i], rv[cs[i]])
  {
    seq(|cs|, i requires 0 <= i < |cs| => ScaledOut(fs, cs[i], rv[cs[i]]))
  }

  /** The per-currency money in is the sum of the amounts converted one by one. */
  lemma SpreadSumIn(cs: seq<Db.Code>, fs: seq<(Db.Code, real)>, rv: map<Db.Code, real>)
    requires RatedCodes(cs, rv)
    ensures ByCurrencyIn(cs, fs, rv) == SumOf(SpreadIn(cs, fs, rv))
  {
    forall i | 0 <= i < |cs| ensures PerCurrencyIn(cs, fs, rv)[i] == SpreadIn(cs, fs, rv)[i] {
      AmountsScaledIn(fs, cs[i], rv[cs[i]]);
    }
    assert PerCurrencyIn(cs, fs, rv) == SpreadIn(cs, fs, rv);
  }

  /** The per-currency money out is the sum of the amounts converted one by one. */
  lemma SpreadSumOut(cs: seq<Db.Code>, fs: seq<(Db.Code, real)>, rv: map<Db.Code, real>)
    requires RatedCodes(cs, rv)
    ensures ByCurrencyOut(cs, fs, rv) == SumOf(SpreadOut(cs, fs, rv))
  {
    forall i | 0 <= i < |cs| ensures PerCurrencyOut(cs, fs, rv)[i] == SpreadOut(cs, fs, rv)[i] {
      AmountsScaledOut(fs, cs[i], rv[cs[i]]);
    }
    assert PerCurrencyOut(cs, fs, rv) == SpreadOut(cs, fs, rv);
  }

  /** What amount `f` adds to each currency's money in. */
  function FlowsIn(f: (Db.Code, real), cs: seq<Db.Code>, rv: map<Db.Code, real>): (r: seq<real>)
    requires RatedCodes(cs, rv)
    ensures |r| == |cs| && forall i :: 0 <= i < |cs| ==> r[i] == InPart(f, cs[i], rv[cs[i]])
  {
    seq(|cs|, i requires 0 <= i < |cs| => InPart(f, cs[i], rv[cs[i]]))
  }

  /** What amount `f` adds to each currency's money out. */
  function FlowsOut(f: (Db.Code, real), cs: seq<Db.Code>, rv: map<Db.Code, real>): (r: seq<real>)
    requires RatedCodes(cs, rv)
    ensures |r| == |cs| && forall i :: 0 <= i < |cs| ==> r[i] == OutPart(f, cs[i], rv[cs[i]])
  {
    seq(|cs|, i requires 0 <= i < |cs| => OutPart(f, cs[i], rv[cs[i]]))
  }

  /** Taking the first amount away from the spread money in removes exactly its share. */
  lemma SpreadStepIn(cs: seq<Db.Code>, fs: seq<(Db.Code, real)>, rv: map<Db.Code, real>)
    requires fs != [] && RatedCodes(cs, rv)
    ensures SumOf(SpreadIn(cs, fs, rv)) == SumOf(SpreadIn(cs, fs[1..], rv)) + SumOf(FlowsIn(fs[0], cs, rv))
  {
    SumOfAdd(SpreadIn(cs, fs, rv), SpreadIn(cs, fs[1..], rv), FlowsIn(fs[0], cs, rv));
  }

  /** Taking the first amount away from the spread money out removes exactly its share. */
  lemma SpreadStepOut(cs: seq<Db.Code>, fs: seq<(Db.Code, real)>, rv: map<Db.Code, real>)
    requires fs != [] && RatedCodes(cs, rv)
    ensures SumOf(SpreadOut(cs, fs, rv)) == SumOf(SpreadOut(cs, fs[1..], rv)) + SumOf(FlowsOut(fs[0], cs, rv))
  {
    SumOfAdd(SpreadOut(cs, fs, rv), SpreadOut(cs, fs[1..], rv), FlowsOut(fs[0], cs, rv));
  }

  /** Over distinct currencies that include the amount's own, the amount adds
      its converted value to money in once when it is not negative. */
  lemma FlowMemberIn(f: (Db.Code, real), cs: seq<Db.Code>, rv: map<Db.Code, real>)
    requires RatedCodes(cs, rv) && Distinct(cs) && f.0 in cs
    ensures f.0 in rv
    ensures SumOf(FlowsIn(f, cs, rv)) == (if f.1 >= 0.0 then f.1 * rv[f.0] else 0.0)
  {
    var j :| 0 <= j < |cs| && cs[j] == f.0;
    SumOfOne(FlowsIn(f, cs, rv), j);
  }

  /** The same for money out and a negative amount. */
  lemma FlowMemberOut(f: (Db.Code, real), cs: seq<Db.Code>, rv: map<Db.Code, real>)
    requires RatedCodes(cs, rv) && Distinct(cs) && f.0 in cs
    ensures f.0 in rv
    ensures SumOf(FlowsOut(f, cs, rv)) == (if f.1 < 0.0 then f.1 * rv[f.0] else 0.0)
  {
    var j :| 0 <= j < |cs| && cs[j] == f.0;
    SumOfOne(FlowsOut(f, cs, rv), j);
  }

  /** With no amounts, every currency's money in and out is zero. */
  lemma ByCurrencyNone(cs: seq<Db.Code>, rv: map<Db.Code, real>)
    requires RatedCodes(cs, rv)
    ensures ByCurrencyIn(cs, [], rv) == 0.0 && ByCurrencyOut(cs, [], rv) == 0.0
  {
    SumOfZero(PerCurrencyIn(cs, [], rv));
    SumOfZero(PerCurrencyOut(cs, [], rv));
  }

  /** The per-entry total of `TotalWithConversion` taken over the amounts'
      values and the rates' values, for amounts whose currencies all have rates. */
  function TotalOfFlows(fs: seq<(Db.Code, real)>, rv: map<Db.Code, real>): (real, real)
    requires forall k :: 0 <= k < |fs| ==> fs[k].0 in rv
  {
    if fs == [] then (0.0, 0.0)
    else
      var t := TotalOfFlows(fs[1..], rv);
      Shift(t.0, t.1, Times(fs[0].1, rv[fs[0].0]))
  }

  lemma TotalOfFlowsCons(fs: seq<(Db.Code, real)>, rv: map<Db.Code, real>)
    requires fs != [] && forall k :: 0 <= k < |fs| ==> fs[k].0 in rv
    ensures forall k :: 0 <= k < |fs[1..]| ==> fs[1..][k].0 in rv
    ensures TotalOfFlows(fs, rv)
            == Shift(TotalOfFlows(fs[1..], rv).0, TotalOfFlows(fs[1..], rv).1, Times(fs[0].1, rv[fs[0].0]))
  {
    forall k | 0 <= k < |fs[1..]| ensures fs[1..][k].0 in rv {
      assert fs[1..][k] == fs[k + 1];
    }
  }

  /** One step of the per-entry total, over the values of the first amount and its rate. */
  lemma TotalCons(es: seq<Entry>, rates: Rates)
    requires es != [] && es[0].currency in rates && TotalWithConversion(es[1..], rates).Ok?
    ensures TotalWithConversion(es, rates)
            == Ok(Shift(TotalWithConversion(es[1..], rates).value.0, TotalWithConversion(es[1..], rates).value.1,
                        Times(Flows(es)[0].1, RateValues(rates)[Flows(es)[0].0])))
  {
    assert TotalWithConversion(es, rates)
           == Ok(Shift(TotalWithConversion(es[1..], rates).value.0, TotalWithConversion(es[1..], rates).value.1,
                       Converted(es[0], rates[es[0].currency])));
    assert Flows(es)[0] == (es[0].currency, Dec.Value(es[0].amount));
    ShiftConverted(TotalWithConversion(es[1..], rates).value.0, TotalWithConversion(es[1..], rates).value.1,
                   es[0], rates[es[0].currency], Flows(es)[0].1, RateValues(rates)[Flows(es)[0].0]);
  }

  lemma ShiftConverted(p: real, n: real, e: Entry, rate: Dec.Decimal, a: real, r: real)
    requires a == Dec.Value(e.amount) && r == Dec.Value(rate)
    ensures Shift(p, n, Converted(e, rate)) == Shift(p, n, Times(a, r))
  {
    assert Times(a, r) == Times(Dec.Value(e.amount), Dec.Value(rate));
    assert Converted(e, rate) == Times(Dec.Value(e.amount), Dec.Value(rate));
  }

  /** With every currency rated, `TotalWithConversion` is the total over the values. */
  lemma {:induction false} TotalIsTotalOfFlows(es: seq<Entry>, rates: Rates)
    requires AllRated(es, rates)
    ensures forall k :: 0 <= k < |Flows(es)| ==> Flows(es)[k].0 in RateValues(rates)
    ensures TotalWithConversion(es, rates) == Ok(TotalOfFlows(Flows(es), RateValues(rates)))
  {
    var fs, rv := Flows(es), RateValues(rates);
    if es != [] {
      assert es[0].currency in rates;
      assert AllRated(es[1..], rates) by {
        forall k | 0 <= k < |es[1..]| ensures es[1..][k].currency in rates {
          assert es[1..][k] == es[k + 1];
        }
      }
      TotalIsTotalOfFlows(es[1..], rates);
      assert fs == [(es[0].currency, Dec.Value(es[0].amount))] + Flows(es[1..]);
      forall k | 0 <= k < |fs| ensures fs[k].0 in rv {
        if k > 0 {
          assert fs[k] == Flows(es[1..])[k - 1];
        }
      }
      assert fs[1..] == Flows(es[1..]);
      TotalCons(es, rates);
      TotalOfFlowsCons(fs, rv);
    }
  }

  /** With a rate that is not negative, adding the converted amount `a * r` to
      the side of its own sign adds it to the side of the amount's sign. */
  lemma CombineStep(total: (real, real), rest: (real, real), a: real, r: real,
                    pAll: real, nAll: real, inPart: real, outPart: real)
    requires r >= 0.0 && total == Shift(rest.0, rest.1, Times(a, r))
    requires pAll == rest.0 + inPart && nAll == rest.1 + outPart
    requires inPart == (if a >= 0.0 then a * r else 0.0)
    requires outPart == (if a < 0.0 then a * r else 0.0)
    ensures total == (pAll, nAll)
  {
    if a < 0.0 {
      assert a * r <= 0.0;
    }
  }

  /** The converted non-negative amounts, summed entry by entry. */
  function SumIn(fs: seq<(Db.Code, real)>, rv: map<Db.Code, real>): real
    requires forall k :: 0 <= k < |fs| ==> fs[k].0 in rv
  {
    if fs == [] then 0.0
    else (if fs[0].1 >= 0.0 then fs[0].1 * rv[fs[0].0] else 0.0) + SumIn(fs[1..], rv)
  }

  /** The converted negative amounts, summed entry by entry. */
  function SumOut(fs: seq<(Db.Code, real)>, rv: map<Db.Code, real>): real
    requires forall k :: 0 <= k < |fs| ==> fs[k].0 in rv
  {
    if fs == [] then 0.0
    else (if fs[0].1 < 0.0 then fs[0].1 * rv[fs[0].0] else 0.0) + SumOut(fs[1..], rv)
  }

  /** With rates that are not negative, the per-entry total sorts each amount by
      its own sign. */
  lemma {:induction false} TotalOfFlowsBySign(fs: seq<(Db.Code, real)>, rv: map<Db.Code, real>)
    requires forall k :: 0 <= k < |fs| ==> fs[k].0 in rv && rv[fs[k].0] >= 0.0
    ensures TotalOfFlows(fs, rv) == (SumIn(fs, rv), SumOut(fs, rv))
  {
    if fs != [] {
      TotalOfFlowsCons(fs, rv);
      forall k | 0 <= k < |fs[1..]| ensures fs[1..][k].0 in rv && rv[fs[1..][k].0] >= 0.0 {
        assert fs[1..][k] == fs[k + 1];
      }
      TotalOfFlowsBySign(fs[1..], rv);
      CombineStep(TotalOfFlows(fs, rv), TotalOfFlows(fs[1..], rv), fs[0].1, rv[fs[0].0],
                  SumIn(fs, rv), SumOut(fs, rv),
                  if fs[0].1 >= 0.0 then fs[0].1 * rv[fs[0].0] else 0.0,
                  if fs[0].1 < 0.0 then fs[0].1 * rv[fs[0].0] else 0.0);
    }
  }

  /** The per-currency money in is that of the amounts after the first plus the first amount's share. */
  lemma ByCurrencyShareIn(cs: seq<Db.Code>, fs: seq<(Db.Code, real)>, rv: map<Db.Code, real>)
    requires fs != [] && RatedCodes(cs, rv)
    ensures ByCurrencyIn(cs, fs, rv) == ByCurrencyIn(cs, fs[1..], rv) + SumOf(FlowsIn(fs[0], cs, rv))
  {
    SpreadSumIn(cs, fs, rv);
    SpreadSumIn(cs, fs[1..], rv);
    SpreadStepIn(cs, fs, rv);
  }

  /** Taking the first amount away from the per-currency money in removes its
      converted value when it is not negative. */
  lemma ByCurrencyConsIn(cs: seq<Db.Code>, fs: seq<(Db.Code, real)>, rv: map<Db.Code, real>)
    requires fs != [] && RatedCodes(cs, rv) && Distinct(cs) && fs[0].0 in cs
    ensures fs[0].0 in rv
    ensures ByCurrencyIn(cs, fs, rv) == ByCurrencyIn(cs, fs[1..], rv) + (if fs[0].1 >= 0.0 then fs[0].1 * rv[fs[0].0] else 0.0)
  {
    ByCurrencyShareIn(cs, fs, rv);
    FlowMemberIn(fs[0], cs, rv);
  }

  /** The per-currency money out is that of the amounts after the first plus the first amount's share. */
  lemma ByCurrencyShareOut(cs: seq<Db.Code>, fs: seq<(Db.Code, real)>, rv: map<Db.Code, real>)
    requires fs != [] && RatedCodes(cs, rv)
    ensures ByCurrencyOut(cs, fs, rv) == ByCurrencyOut(cs, fs[1..], rv) + SumOf(FlowsOut(fs[0], cs, rv))
  {
    SpreadSumOut(cs, fs, rv);
    SpreadSumOut(cs, fs[1..], rv);
    SpreadStepOut(cs, fs, rv);
  }

  /** Taking the first amount away from the per-currency money out removes its
      converted value when it is negative. */
  lemma ByCurrencyConsOut(cs: seq<Db.Code>, fs: seq<(Db.Code, real)>, rv: map<Db.Code, real>)
    requires fs != [] && RatedCodes(cs, rv) && Distinct(cs) && fs[0].0 in cs
    ensures fs[0].0 in rv
    ensures ByCurrencyOut(cs, fs, rv) == ByCurrencyOut(cs, fs[1..], rv) + (if fs[0].1 < 0.0 then fs[0].1 * rv[fs[0].0] else 0.0)
  {
    ByCurrencyShareOut(cs, fs, rv);
    FlowMemberOut(fs[0], cs, rv);
  }

  /** Summing the converted amounts currency by currency regroups the same terms. */
  lemma {:induction false} ByCurrencyRegroups(fs: seq<(Db.Code, real)>, rv: map<Db.Code, real>, cs: seq<Db.Code>)
    requires Distinct(cs) && RatedCodes(cs, rv)
    requires forall k :: 0 <= k < |fs| ==> fs[k].0 in cs
    ensures forall k :: 0 <= k < |fs| ==> fs[k].0 in rv
    ensures ByCurrencyIn(cs, fs, rv) == SumIn(fs, rv) && ByCurrencyOut(cs, fs, rv) == SumOut(fs, rv)
  {
    forall k | 0 <= k < |fs| ensures fs[k].0 in rv {
      var i :| 0 <= i < |cs| && cs[i] == fs[k].0;
    }
    if fs == [] {
      ByCurrencyNone(cs, rv);
    } else {
      forall k | 0 <= k < |fs[1..]| ensures fs[1..][k].0 in cs {
        assert fs[1..][k] == fs[k + 1];
      }
      ByCurrencyRegroups(fs[1..], rv, cs);
      ByCurrencyConsIn(cs, fs, rv);
      ByCurrencyConsOut(cs, fs, rv);
    }
  }

  /** Over the values, the per-entry total is the per-currency total when the
      rates are not negative. */
  lemma TotalOfFlowsByCurrency(fs: seq<(Db.Code, real)>, rv: map<Db.Code, real>, cs: seq<Db.Code>)
    requires Distinct(cs) && RatedCodes(cs, rv)
    requires forall i :: 0 <= i < |cs| ==> rv[cs[i]] >= 0.0
    requires forall k :: 0 <= k < |fs| ==> fs[k].0 in cs
    ensures forall k :: 0 <= k < |fs| ==> fs[k].0 in rv
    ensures TotalOfFlows(fs, rv) == (ByCurrencyIn(cs, fs, rv), ByCurrencyOut(cs, fs, rv))
  {
    ByCurrencyRegroups(fs, rv, cs);
    forall k | 0 <= k < |fs| ensures rv[fs[k].0] >= 0.0 {
      var i :| 0 <= i < |cs| && cs[i] == fs[k].0;
    }
    TotalOfFlowsBySign(fs, rv);
  }

  /** With rates that are not negative, the per-entry total equals the total
      taken currency by currency: each currency's money in (its non-negative
      amounts) and money out (its negative amounts), times its rate, summed
      over the distinct currencies `cs` of the entries. */
  lemma TotalByCurrency(es: seq<Entry>, rates: Rates, cs: seq<Db.Code>)
    requires Distinct(cs) && RatedCodes(cs, RateValues(rates))
    requires forall i :: 0 <= i < |cs| ==> RateValues(rates)[cs[i]] >= 0.0
    requires forall k :: 0 <= k < |es| ==> es[k].currency in cs
    ensures TotalWithConversion(es, rates)
            == Ok((ByCurrencyIn(cs, Flows(es), RateValues(rates)), ByCurrencyOut(cs, Flows(es), RateValues(rates))))
  {
    var fs, rv := Flows(es), RateValues(rates);
    forall k | 0 <= k < |es| ensures es[k].currency in rates {
      var i :| 0 <= i < |cs| && cs[i] == es[k].currency;
    }
    TotalIsTotalOfFlows(es, rates);
    FlowCodes(es);
    TotalOfFlowsByCurrency(fs, rv, cs);
  }

  /** Each amount keeps its entry's currency. */
  lemma {:induction false} FlowCodes(es: seq<Entry>)
    ensures forall k :: 0 <= k < |es| ==> Flows(es)[k].0 == es[k].currency
  {
    if es != [] {
      FlowCodes(es[1..]);
      forall k | 0 < k < |es| ensures Flows(es)[k].0 == es[k].currency {
        assert Flows(es)[k] == Flows(es[1..])[k - 1];
        assert es[k] == es[1..][k - 1];
      }
    }
  }

  /** `{:.2}` of an `f64`: the nearest number of cents, ties to the even one. */
  function RoundCents(x: real): int
  {
    var y := x * 100.0;
    var f := y.Floor;
    if y - f as real < 0.5 then f
    else if y - f as real > 0.5 then f + 1
    else if f % 2 == 0 then f
    else f + 1
  }

  /** The cents are the nearest ones, and even when two are equally near. */
  lemma RoundCentsNearest(x: real)
    ensures var c := RoundCents(x) as real;
            && -0.5 <= c - x * 100.0 <= 0.5
            && ((c - x * 100.0 == 0.5 || c - x * 100.0 == -0.5) ==> RoundCents(x) % 2 == 0)
  {
  }

  /** An amount written with exactly two decimals. */
  function Amount2(x: real): string
  {
    Dec.Show(Dec.Decimal(RoundCents(x), 2))
  }

  /** What is written reads back as the rounded amount. */
  lemma Amount2Reads(x: real)
    ensures Dec.ParseDecimal(Amount2(x)) == Some(Dec.Decimal(RoundCents(x), 2))
  {
    Dec.ParseShow(Dec.Decimal(RoundCents(x), 2));
  }

  /** `{}` of an integer. */
  function IntText(y: int): string
  {
    if y < 0 then "-" + Dec.NatToString(-y) else Dec.NatToString(y)
  }

  /** A whole amount is written as the integer followed by `.00`. */
  lemma Amount2Whole(n: int)
    ensures Amount2(n as real) == IntText(n) + ".00"
  {
    assert RoundCents(n as real) == 100 * n;
    var m := Dec.Abs(100 * n);
    assert m == 100 * Dec.Abs(n);
    assert Dec.Quot(m, Dec.Pow10(2)) == Dec.Abs(n);
    assert m % Dec.Pow10(2) == 0;
    assert Dec.PadDigits(0, 2) == "00";
  }

  /** One month of the chart data. */
  datatype Row = Row(date: CalDate, pos: real, neg: real, net: real, sum: real)

  /** One piece of a `write!` format: literal text, `{}` of an integer, `{:02}`
      of a number below 100, or `{:.2}` of an amount. */
  datatype Piece = Lit(s: string) | Display(i: int) | Pad2(n: nat) | Fixed2(x: real)

  function PieceText(p: Piece): string
  {
    match p
    case Lit(s) => s
    case Display(i) => IntText(i)
    case Pad2(n) => Dec.PadDigits(n, 2)
    case Fixed2(x) => Amount2(x)
  }

  /** The text a format writes: its pieces one after another. */
  function Format(ps: seq<Piece>): (s: string)
    ensures ps == [] ==> s == ""
  {
    if ps == [] then "" else PieceText(ps[0]) + Format(ps[1..])
  }

  /** A row as `"{}-{:02} {:.2} {:.2} {:.2} {:.2}"` writes year, month, pos, neg, net and sum. */
  function RowPieces(r: Row): seq<Piece>
  {
    [Display(r.date.year), Lit("-"), Pad2(r.date.month), Lit(" "), Fixed2(r.pos), Lit(" "),
     Fixed2(r.neg), Lit(" "), Fixed2(r.net), Lit(" "), Fixed2(r.sum)]
  }

  function RowText(r: Row): string
  {
    Format(RowPieces(r))
  }

  /** A format of eleven pieces writes their texts in order. */
  lemma {:induction false} FormatEleven(ps: seq<Piece>)
    requires |ps| == 11
    ensures Format(ps) == PieceText(ps[0]) + (PieceText(ps[1]) + (PieceText(ps[2]) + (PieceText(ps[3])
                          + (PieceText(ps[4]) + (PieceText(ps[5]) + (PieceText(ps[6]) + (PieceText(ps[7])
                          + (PieceText(ps[8]) + (PieceText(ps[9]) + PieceText(ps[10]))))))))))
  {
    assert Format(ps[10..]) == PieceText(ps[10]) by { assert ps[10..][1..] == []; }
    assert Format(ps[9..]) == PieceText(ps[9]) + Format(ps[10..]) by { assert ps[9..][1..] == ps[10..]; }
    assert Format(ps[8..]) == PieceText(ps[8]) + Format(ps[9..]) by { assert ps[8..][1..] == ps[9..]; }
    assert Format(ps[7..]) == PieceText(ps[7]) + Format(ps[8..]) by { assert ps[7..][1..] == ps[8..]; }
    assert Format(ps[6..]) == PieceText(ps[6]) + Format(ps[7..]) by { assert ps[6..][1..] == ps[7..]; }
    assert Format(ps[5..]) == PieceText(ps[5]) + Format(ps[6..]) by { assert ps[5..][1..] == ps[6..]; }
    assert Format(ps[4..]) == PieceText(ps[4]) + Format(ps[5..]) by { assert ps[4..][1..] == ps[5..]; }
    assert Format(ps[3..]) == PieceText(ps[3]) + Format(ps[4..]) by { assert ps[3..][1..] == ps[4..]; }
    assert Format(ps[2..]) == PieceText(ps[2]) + Format(ps[3..]) by { assert ps[2..][1..] == ps[3..]; }
    assert Format(ps[1..]) == PieceText(ps[1]) + Format(ps[2..]) by { assert ps[1..][1..] == ps[2..]; }
    assert Format(ps[0..]) == PieceText(ps[0]) + Format(ps[1..]) by { assert ps[0..][1..] == ps[1..]; }
    assert ps[0..] == ps;
  }

  /** The row's line, written out: the year, a dash, the two-digit month, then
      the four amounts with two decimals, separated by single spaces. */
  lemma RowTextFields(r: Row)
    ensures RowText(r) == IntText(r.date.year) + ("-" + (Dec.PadDigits(r.date.month, 2) + (" " + (Amount2(r.pos)
                          + (" " + (Amount2(r.neg) + (" " + (Amount2(r.net) + (" " + Amount2(r.sum))))))))))
  {
    FormatEleven(RowPieces(r));
  }

  /** The lines of the rows, one per row. */
  function RowTexts(rows: seq<Row>): (ts: seq<string>)
    ensures |ts| == |rows|
  {
    if rows == [] then [] else [RowText(rows[0])] + RowTexts(rows[1..])
  }

  lemma RowTextsCons(row: Row, rows: seq<Row>)
    ensures RowTexts([row] + rows) == [RowText(row)] + RowTexts(rows)
  {
    assert ([row] + rows)[1..] == rows;
  }

  /** The rows written one after another, each ended by a line feed. */
  function Render(rows: seq<Row>): string
  {
    Text.Unlines(RowTexts(rows))
  }

  /** The number of stream items from position `pos` that `gen_data`'s inner
      loop takes for month `d`: entries of that month, up to an error or an
      entry of another month. */
  function Group(items: seq<Result<Entry, Db.DbError>>, pos: nat, d: CalDate): (n: nat)
    requires pos <= |items|
    ensures pos + n <= |items|
    decreases |items| - pos
  {
    if pos < |items| && items[pos].Ok? && SameMonth(items[pos].value.date, d) then 1 + Group(items, pos + 1, d)
    else 0
  }

  /** The month's items are entries of month `d`, and the item after them is not. */
  lemma {:induction false} GroupSpan(items: seq<Result<Entry, Db.DbError>>, pos: nat, d: CalDate)
    requires pos <= |items|
    ensures var n := Group(items, pos, d);
            && (forall k :: pos <= k < pos + n ==> items[k].Ok? && SameMonth(items[k].value.date, d))
            && (pos + n < |items| ==> !(items[pos + n].Ok? && SameMonth(items[pos + n].value.date, d)))
    decreases |items| - pos
  {
    if pos < |items| && items[pos].Ok? && SameMonth(items[pos].value.date, d) {
      GroupSpan(items, pos + 1, d);
    }
  }

  /** The entries of the successful stream items from `lo` up to `hi`. */
  function Values(items: seq<Result<Entry, Db.DbError>>, lo: nat, hi: nat): (es: seq<Entry>)
    requires lo <= hi <= |items|
    requires forall k :: lo <= k < hi ==> items[k].Ok?
    ensures |es| == hi - lo
  {
    seq(hi - lo, k requires 0 <= k < hi - lo => items[lo + k].value)
  }

  /** One month of `gen_data` read from position `pos`: where the month's
      entries end, with their money in and money out, or the error that stops
      the read (an error item where they end, or a missing rate). */
  function MonthTotal(items: seq<Result<Entry, Db.DbError>>, pos: nat, d: CalDate, rates: Rates)
    : (r: Result<(nat, real, real), Db.DbError>)
    requires pos <= |items|
    ensures r.Ok? ==> pos <= r.value.0 <= |items|
  {
    GroupSpan(items, pos, d);
    var next := pos + Group(items, pos, d);
    if next < |items| && items[next].Err? then Err(items[next].error)
    else
      match TotalWithConversion(Values(items, pos, next), rates)
      case Err(e) => Err(e)
      case Ok(t) => Ok((next, t.0, t.1))
  }

  /** The rows `gen_data` computes for the months from `d` to `end`, reading the
      stream from position `pos` and continuing the running sum from `sum`. */
  function MonthRows(items: seq<Result<Entry, Db.DbError>>, pos: nat, d: CalDate, end: CalDate,
                     rates: Rates, sum: real): Result<seq<Row>, Db.DbError>
    requires pos <= |items|
    decreases MonthsLeft(d, end)
  {
    if !DateLe(d, end) then Ok([])
    else
      match MonthTotal(items, pos, d, rates)
      case Err(e) => Err(e)
      case Ok((next, p, n)) =>
        var s := sum + (p + n);
        MonthsLeftNext(d, end);
        match MonthRows(items, next, NextMonth(d), end, rates, s)
        case Err(e) => Err(e)
        case Ok(rows) => Ok([Row(d, p, n, p + n, s)] + rows)
  }

  /** The rows of `gen_data`: none for an empty stream, the stream's error when
      it starts with one, else the months from the first entry's date to `end`. */
  function GenRows(items: seq<Result<Entry, Db.DbError>>, rates: Rates, end: CalDate): Result<seq<Row>, Db.DbError>
  {
    if items == [] then Ok([])
    else if items[0].Err? then Err(items[0].error)
    else MonthRows(items, 0, items[0].value.date, end, rates, 0.0)
  }

  /** `out` followed by the rendering of the rows, or the error. */
  function Emit(out: string, r: Result<seq<Row>, Db.DbError>): Result<string, Db.DbError>
  {
    match r
    case Ok(rows) => Ok(out + Render(rows))
    case Err(e) => Err(e)
  }

  /** `gen_data`'s whole output, or its error. */
  function GenDataSpec(items: seq<Result<Entry, Db.DbError>>, rates: Rates, end: CalDate): Result<string, Db.DbError>
  {
    Emit("", GenRows(items, rates, end))
  }

  /** What one month's read comes to once the grouping loop has stopped at
      `next`: the error item there, the missing rate, or the month's totals. */
  lemma MonthTotalAt(items: seq<Result<Entry, Db.DbError>>, pos: nat, next: nat, d: CalDate, rates: Rates)
    requires pos <= next <= |items|
    requires next == pos + Group(items, pos, d)
    requires forall k :: pos <= k < next ==> items[k].Ok?
    ensures MonthTotal(items, pos, d, rates)
            == if next < |items| && items[next].Err? then Err(items[next].error)
               else match TotalWithConversion(Values(items, pos, next), rates)
                    case Err(e) => Err(e)
                    case Ok(t) => Ok((next, t.0, t.1))
  {
  }

  /** A month whose read fails makes the whole of `gen_data` fail with that error. */
  lemma MonthRowsError(items: seq<Result<Entry, Db.DbError>>, pos: nat, d: CalDate, end: CalDate,
                       rates: Rates, sum: real, e: Db.DbError)
    requires pos <= |items| && DateLe(d, end)
    requires MonthTotal(items, pos, d, rates) == Err(e)
    ensures MonthRows(items, pos, d, end, rates, sum) == Err(e)
  {
  }

  /** `gen_data` on a stream whose first item is an entry starts at that entry's month. */
  lemma GenDataStart(items: seq<Result<Entry, Db.DbError>>, rates: Rates, end: CalDate)
    requires items != [] && items[0].Ok?
    ensures GenDataSpec(items, rates, end) == Emit("", MonthRows(items, 0, items[0].value.date, end, rates, 0.0))
  {
  }

  /** A month's rows when its items are all entries of the month: its own row,
      then the rows of the months after it. */
  lemma MonthRowsUnfold(items: seq<Result<Entry, Db.DbError>>, pos: nat, next: nat, d: CalDate, end: CalDate,
                        rates: Rates, sum: real, row: Row)
    requires pos <= |items| && DateLe(d, end)
    requires MonthTotal(items, pos, d, rates) == Ok((next, row.pos, row.neg))
    requires row == Row(d, row.pos, row.neg, row.pos + row.neg, sum + (row.pos + row.neg))
    ensures next <= |items|
    ensures MonthRows(items, pos, d, end, rates, sum)
            == match MonthRows(items, next, NextMonth(d), end, rates, row.sum)
               case Ok(rows) => Ok([row] + rows)
               case Err(e) => Err(e)
  {
    MonthsLeftNext(d, end);
    var tail := MonthRows(items, next, NextMonth(d), end, rates, row.sum);
    assert MonthRows(items, pos, d, end, rates, sum)
           == match tail case Err(e) => Err(e) case Ok(rows) => Ok([Row(d, row.pos, row.neg, row.pos + row.neg, row.sum)] + rows);
  }

  /** Writing one row and then the rest is writing all of them. */
  lemma EmitCons(out: string, row: Row, tail: Result<seq<Row>, Db.DbError>)
    ensures Emit(out, match tail case Ok(rows) => Ok([row] + rows) case Err(e) => Err(e))
            == Emit(out + (RowText(row) + "\n"), tail)
  {
    if tail.Ok? {
      var t := RowText(row);
      var ts := RowTexts(tail.value);
      RowTextsCons(row, tail.value);
      Text.UnlinesCons(t, ts);
      Text.AppendAssoc(out, t + "\n", Text.Unlines(ts));
    }
  }

  /** After one month, `gen_data`'s remaining output is its row's line followed
      by the output for the months after it. */
  lemma MonthStep(out: string, items: seq<Result<Entry, Db.DbError>>, pos: nat, next: nat, d: CalDate,
                  end: CalDate, rates: Rates, sum: real, row: Row)
    requires pos <= |items| && DateLe(d, end)
    requires MonthTotal(items, pos, d, rates) == Ok((next, row.pos, row.neg))
    requires row == Row(d, row.pos, row.neg, row.pos + row.neg, sum + (row.pos + row.neg))
    ensures next <= |items|
    ensures Emit(out, MonthRows(items, pos, d, end, rates, sum))
            == Emit(out + (RowText(row) + "\n"), MonthRows(items, next, NextMonth(d), end, rates, row.sum))
  {
    MonthRowsUnfold(items, pos, next, d, end, rates, sum, row);
    EmitCons(out, row, MonthRows(items, next, NextMonth(d), end, rates, row.sum));
  }

  lemma ValuesSnoc(items: seq<Result<Entry, Db.DbError>>, lo: nat, hi: nat)
    requires lo <= hi < |items|
    requires forall k :: lo <= k <= hi ==> items[k].Ok?
    ensures Values(items, lo, hi + 1) == Values(items, lo, hi) + [items[hi].value]
  {
  }

  lemma EmitNothing(out: string)
    ensures Emit(out, Ok([])) == Ok(out)
  {
    assert RowTexts([]) == [];
    assert out + Text.Unlines([]) == out;
  }

  /** The months the rows are for. */
  function Dates(rows: seq<Row>): (ds: seq<CalDate>)
    ensures |ds| == |rows|
  {
    if rows == [] then [] else [rows[0].date] + Dates(rows[1..])
  }

  /** Money in is never negative, money out never positive, and the net is both together. */
  predicate Signed(r: Row)
  {
    r.pos >= 0.0 && r.neg <= 0.0 && r.net == r.pos + r.neg
  }

  /** Each row's sum is the previous row's (at first `sum`) plus its own net. */
  predicate Cumulative(rows: seq<Row>, sum: real)
  {
    rows == [] || (rows[0].sum == sum + rows[0].net && Cumulative(rows[1..], rows[0].sum))
  }

  /** The last running sum after the rows, starting from `sum`. */
  function LastSum(rows: seq<Row>, sum: real): real
  {
    if rows == [] then sum else rows[|rows| - 1].sum
  }

  /** The total of the rows' nets. */
  function NetTotal(rows: seq<Row>): real
  {
    if rows == [] then 0.0 else rows[0].net + NetTotal(rows[1..])
  }

  /** A running sum ends at its start plus every net added to it. */
  lemma {:induction false} CumulativeTotal(rows: seq<Row>, sum: real)
    requires Cumulative(rows, sum)
    ensures LastSum(rows, sum) == sum + NetTotal(rows)
  {
    if rows != [] {
      CumulativeTotal(rows[1..], rows[0].sum);
      if |rows| > 1 {
        assert rows[1..][|rows[1..]| - 1] == rows[|rows| - 1];
      }
    }
  }

  /** When `gen_data` succeeds it writes one row for each date of the series from
      the first month to `end`, in order; each row's totals have the right signs
      and the fifth column is the running sum of the nets. */
  lemma {:induction false} MonthRowsShape(items: seq<Result<Entry, Db.DbError>>, pos: nat, d: CalDate, end: CalDate,
                                          rates: Rates, sum: real)
    requires pos <= |items|
    ensures var r := MonthRows(items, pos, d, end, rates, sum);
            r.Ok? ==> && Dates(r.value) == Series(d, end)
                      && Cumulative(r.value, sum)
                      && (forall k :: 0 <= k < |r.value| ==> Signed(r.value[k]))
    decreases MonthsLeft(d, end)
  {
    if DateLe(d, end) {
      var t := MonthTotal(items, pos, d, rates);
      if t.Ok? {
        var (next, p, n) := t.value;
        GroupSpan(items, pos, d);
        var g := pos + Group(items, pos, d);
        MonthTotalAt(items, pos, g, d, rates);
        TotalWithConversionSpec(Values(items, pos, g), rates);
        assert p >= 0.0 && n <= 0.0;
        var row := Row(d, p, n, p + n, sum + (p + n));
        MonthRowsUnfold(items, pos, next, d, end, rates, sum, row);
        MonthsLeftNext(d, end);
        MonthRowsShape(items, next, NextMonth(d), end, rates, row.sum);
        var tail := MonthRows(items, next, NextMonth(d), end, rates, row.sum);
        if tail.Ok? {
          var rows := [row] + tail.value;
          assert rows[1..] == tail.value;
          SeriesCons(d, end);
          assert Dates(rows) == [d] + Dates(tail.value);
          forall k | 0 <= k < |rows|
            ensures Signed(rows[k])
          {
            if k > 0 {
              assert rows[k] == tail.value[k - 1];
            }
          }
        }
      }
    }
  }

  /** A failure of `gen_data` is an error read from the stream or a currency without a rate. */
  lemma {:induction false} MonthRowsErrorFrom(items: seq<Result<Entry, Db.DbError>>, pos: nat, d: CalDate,
                                              end: CalDate, rates: Rates, sum: real)
    requires pos <= |items|
    ensures var r := MonthRows(items, pos, d, end, rates, sum);
            r.Err? ==> r.error.NoRate? || exists k :: pos <= k < |items| && items[k] == Err(r.error)
    decreases MonthsLeft(d, end)
  {
    if DateLe(d, end) {
      GroupSpan(items, pos, d);
      var g := pos + Group(items, pos, d);
      MonthTotalAt(items, pos, g, d, rates);
      var t := MonthTotal(items, pos, d, rates);
      if t.Err? {
        MonthRowsError(items, pos, d, end, rates, sum, t.error);
        if g < |items| && items[g].Err? {
          assert items[g] == Err(t.error);
        } else {
          TotalWithConversionSpec(Values(items, pos, g), rates);
        }
      } else {
        var (next, p, n) := t.value;
        var row := Row(d, p, n, p + n, sum + (p + n));
        MonthRowsUnfold(items, pos, next, d, end, rates, sum, row);
        MonthsLeftNext(d, end);
        MonthRowsErrorFrom(items, next, NextMonth(d), end, rates, row.sum);
      }
    }
  }

  predicate AllOk(items: seq<Result<Entry, Db.DbError>>)
  {
    forall k :: 0 <= k < |items| ==> items[k].Ok?
  }

  /** The entries come in date order, as `read_db` yields them after sorting. */
  predicate DateSorted(items: seq<Result<Entry, Db.DbError>>)
    requires AllOk(items)
  {
    forall i, j :: 0 <= i <= j < |items| ==> DateLe(items[i].value.date, items[j].value.date)
  }

  /** The entries come in month order, which date order implies. */
  predicate MonthSorted(items: seq<Result<Entry, Db.DbError>>)
    requires AllOk(items)
  {
    forall i, j {:trigger MonthIndex(items[i].value.date), MonthIndex(items[j].value.date)}
      :: 0 <= i <= j < |items| ==> MonthIndex(items[i].value.date) <= MonthIndex(items[j].value.date)
  }

  lemma DateSortedMonths(items: seq<Result<Entry, Db.DbError>>)
    requires AllOk(items) && DateSorted(items)
    ensures MonthSorted(items)
  {
    forall i, j | 0 <= i <= j < |items|
      ensures MonthIndex(items[i].value.date) <= MonthIndex(items[j].value.date)
    {
      MonthIndexOrder(items[i].value.date, items[j].value.date);
    }
  }

  lemma {:induction false} NetAppend(a: seq<Entry>, b: seq<Entry>, rates: Rates)
    requires AllRated(a, rates) && AllRated(b, rates)
    ensures AllRated(a + b, rates)
    ensures Net(a + b, rates) == Net(a, rates) + Net(b, rates)
  {
    if a == [] {
      assert a + b == b;
    } else {
      assert (a + b)[1..] == a[1..] + b;
      NetAppend(a[1..], b, rates);
    }
  }

  lemma ValuesAppend(items: seq<Result<Entry, Db.DbError>>, lo: nat, mid: nat, hi: nat)
    requires lo <= mid <= hi <= |items|
    requires forall k :: lo <= k < hi ==> items[k].Ok?
    ensures Values(items, lo, hi) == Values(items, lo, mid) + Values(items, mid, hi)
  {
  }

  lemma LastSumCons(row: Row, rows: seq<Row>, sum: real)
    ensures LastSum([row] + rows, sum) == LastSum(rows, row.sum)
  {
  }

  lemma ValuesRated(items: seq<Result<Entry, Db.DbError>>, lo: nat, hi: nat, rates: Rates)
    requires lo <= hi <= |items| && AllOk(items)
    requires forall k :: 0 <= k < |items| ==> items[k].value.currency in rates
    ensures AllRated(Values(items, lo, hi), rates)
  {
    var es := Values(items, lo, hi);
    forall k | 0 <= k < |es| ensures es[k].currency in rates {
      assert es[k] == items[lo + k].value;
    }
  }

  /** Past `end` no entry of a stream ending by `end` is left unread. */
  lemma ConservePast(items: seq<Result<Entry, Db.DbError>>, pos: nat, d: CalDate, end: CalDate)
    requires pos <= |items| && AllOk(items) && MonthSorted(items)
    requires |items| > 0 ==> DateLe(items[|items| - 1].value.date, end)
    requires pos < |items| ==> MonthIndex(d) <= MonthIndex(items[pos].value.date)
    requires d.day == 1 && !DateLe(d, end)
    ensures pos == |items|
  {
    MonthIndexOrder(d, end);
    if pos < |items| {
      MonthIndexOrder(items[|items| - 1].value.date, end);
      assert false;
    }
  }

  /** In date order, the entry that ends a month belongs to a later month. */
  lemma ConserveNext(items: seq<Result<Entry, Db.DbError>>, pos: nat, d: CalDate)
    requires pos <= |items| && AllOk(items) && MonthSorted(items)
    requires pos < |items| ==> MonthIndex(d) <= MonthIndex(items[pos].value.date)
    ensures var g := pos + Group(items, pos, d);
            g < |items| ==> MonthIndex(NextMonth(d)) <= MonthIndex(items[g].value.date)
  {
    GroupSpan(items, pos, d);
    var g := pos + Group(items, pos, d);
    NextMonthStep(d);
    if g < |items| {
      MonthIndexOrder(items[g].value.date, d);
    }
  }

  /** For a stream of entries in date order, all with rates and none after
      `end`, `gen_data` succeeds and its last running sum is `sum` plus the euro
      value of every entry from `pos` on: no entry is skipped or counted twice. */
  lemma {:induction false} MonthRowsConserve(items: seq<Result<Entry, Db.DbError>>, pos: nat, d: CalDate,
                                             end: CalDate, rates: Rates, sum: real)
    requires pos <= |items| && AllOk(items) && MonthSorted(items)
    requires forall k :: 0 <= k < |items| ==> items[k].value.currency in rates
    requires |items| > 0 ==> DateLe(items[|items| - 1].value.date, end)
    requires pos < |items| ==> MonthIndex(d) <= MonthIndex(items[pos].value.date)
    requires d.day == 1 || DateLe(d, end)
    ensures var r := MonthRows(items, pos, d, end, rates, sum);
            && r.Ok?
            && AllRated(Values(items, pos, |items|), rates)
            && LastSum(r.value, sum) == sum + Net(Values(items, pos, |items|), rates)
    decreases MonthsLeft(d, end)
  {
    if !DateLe(d, end) {
      ConserveEnd(items, pos, d, end, rates, sum);
    } else {
      var g, s := ConserveReady(items, pos, d, end, rates, sum);
      MonthRowsConserve(items, g, NextMonth(d), end, rates, s);
      ConserveStep(items, pos, g, d, end, rates, sum, s);
    }
  }

  /** Past the last month there are no rows, and no entries are left. */
  lemma ConserveEnd(items: seq<Result<Entry, Db.DbError>>, pos: nat, d: CalDate,
                    end: CalDate, rates: Rates, sum: real)
    requires pos <= |items| && AllOk(items) && MonthSorted(items)
    requires |items| > 0 ==> DateLe(items[|items| - 1].value.date, end)
    requires pos < |items| ==> MonthIndex(d) <= MonthIndex(items[pos].value.date)
    requires d.day == 1 && !DateLe(d, end)
    ensures var r := MonthRows(items, pos, d, end, rates, sum);
            && r.Ok?
            && AllRated(Values(items, pos, |items|), rates)
            && LastSum(r.value, sum) == sum + Net(Values(items, pos, |items|), rates)
  {
    ConservePast(items, pos, d, end);
    assert Values(items, pos, |items|) == [];
  }

  /** Within the range of months, the next month's call meets what the
      conservation argument asks of its arguments. */
  lemma ConserveReady(items: seq<Result<Entry, Db.DbError>>, pos: nat, d: CalDate,
                      end: CalDate, rates: Rates, sum: real) returns (g: nat, s: real)
    requires pos <= |items| && AllOk(items) && MonthSorted(items)
    requires forall k :: 0 <= k < |items| ==> items[k].value.currency in rates
    requires pos < |items| ==> MonthIndex(d) <= MonthIndex(items[pos].value.date)
    requires DateLe(d, end)
    ensures g == pos + Group(items, pos, d)
    ensures AllRated(Values(items, pos, g), rates)
    ensures s == sum + Net(Values(items, pos, g), rates)
    ensures g < |items| ==> MonthIndex(NextMonth(d)) <= MonthIndex(items[g].value.date)
    ensures NextMonth(d).day == 1
    ensures MonthsLeft(NextMonth(d), end) < MonthsLeft(d, end)
  {
    g := pos + Group(items, pos, d);
    ValuesRated(items, pos, g, rates);
    s := sum + Net(Values(items, pos, g), rates);
    ConserveNext(items, pos, d);
    MonthsLeftNext(d, end);
    NextMonthStep(d);
  }

  /** One month of the conservation argument: if the running sum is conserved
      from the next month on, starting from this month's closing sum, it is
      conserved from this month on. */
  lemma ConserveStep(items: seq<Result<Entry, Db.DbError>>, pos: nat, g: nat, d: CalDate,
                     end: CalDate, rates: Rates, sum: real, s: real)
    requires pos <= |items| && AllOk(items)
    requires forall k :: 0 <= k < |items| ==> items[k].value.currency in rates
    requires DateLe(d, end) && g == pos + Group(items, pos, d)
    requires AllRated(Values(items, pos, g), rates)
    requires s == sum + Net(Values(items, pos, g), rates)
    requires var t := MonthRows(items, g, NextMonth(d), end, rates, s);
             && t.Ok?
             && AllRated(Values(items, g, |items|), rates)
             && LastSum(t.value, s) == s + Net(Values(items, g, |items|), rates)
    ensures var r := MonthRows(items, pos, d, end, rates, sum);
            && r.Ok?
            && AllRated(Values(items, pos, |items|), rates)
            && LastSum(r.value, sum) == sum + Net(Values(items, pos, |items|), rates)
  {
    GroupSpan(items, pos, d);
    MonthTotalAt(items, pos, g, d, rates);
    var month := Values(items, pos, g);
    var rest := Values(items, g, |items|);
    ValuesAppend(items, pos, g, |items|);
    TotalWithConversionSpec(month, rates);
    var (p, n) := TotalWithConversion(month, rates).value;
    NetAppend(month, rest, rates);
    var net := Net(month, rates);
    assert p + n == net;
    var row := Row(d, p, n, p + n, sum + net);
    MonthRowsUnfold(items, pos, g, d, end, rates, sum, row);
    var tail := MonthRows(items, g, NextMonth(d), end, rates, s).value;
    LastSumCons(row, tail, sum);
    assert MonthRows(items, pos, d, end, rates, sum) == Ok([row] + tail);
  }

  /** The chart's last running sum is the euro value of the whole ledger, when
      the entries are in date order, all have rates and none is after `end`. */
  lemma GenRowsConserve(items: seq<Result<Entry, Db.DbError>>, rates: Rates, end: CalDate)
    requires AllOk(items) && DateSorted(items)
    requires forall k :: 0 <= k < |items| ==> items[k].value.currency in rates
    requires |items| > 0 ==> DateLe(items[|items| - 1].value.date, end)
    ensures var r := GenRows(items, rates, end);
            && r.Ok?
            && AllRated(Values(items, 0, |items|), rates)
            && LastSum(r.value, 0.0) == Net(Values(items, 0, |items|), rates)
  {
    if items != [] {
      DateSortedMonths(items);
      MonthRowsConserve(items, 0, items[0].value.date, end, rates, 0.0);
    }
  }

  /** The entries of the stream that fall in the calendar month of `d`, in stream order. */
  function MonthOf(items: seq<Result<Entry, Db.DbError>>, d: CalDate): seq<Entry>
    requires AllOk(items)
  {
    if items == [] then []
    else (if SameMonth(items[0].value.date, d) then [items[0].value] else [])
         + MonthOf(items[1..], d)
  }

  /** When the entries of month `d` are exactly those at positions `lo` up to
      `hi`, they are the values there. */
  lemma {:induction false} MonthOfRange(items: seq<Result<Entry, Db.DbError>>, d: CalDate, lo: nat, hi: nat)
    requires AllOk(items) && lo <= hi <= |items|
    requires forall k :: 0 <= k < |items| ==> (SameMonth(items[k].value.date, d) <==> lo <= k < hi)
    ensures MonthOf(items, d) == Values(items, lo, hi)
  {
    if items != [] {
      var t := items[1..];
      var lo', hi' := if lo == 0 then 0 else lo - 1, if hi == 0 then 0 else hi - 1;
      forall k | 0 <= k < |t| ensures (SameMonth(t[k].value.date, d) <==> lo' <= k < hi') {
        assert t[k] == items[k + 1];
      }
      MonthOfRange(t, d, lo', hi');
      if lo == 0 && hi > 0 {
        assert Values(items, lo, hi) == [items[0].value] + Values(t, lo', hi');
      } else {
        assert Values(items, lo, hi) == Values(t, lo', hi');
      }
    }
  }

  /** In a date-sorted stream read up to the months before `d`, the group
      `gen_data` takes for `d` is every entry of month `d` in the whole stream. */
  lemma {:induction false} GroupIsMonth(items: seq<Result<Entry, Db.DbError>>, pos: nat, d: CalDate)
    requires pos <= |items| && AllOk(items) && MonthSorted(items)
    requires forall k :: 0 <= k < pos ==> MonthIndex(items[k].value.date) < MonthIndex(d)
    requires pos < |items| ==> MonthIndex(d) <= MonthIndex(items[pos].value.date)
    ensures MonthOf(items, d) == Values(items, pos, pos + Group(items, pos, d))
  {
    var g := pos + Group(items, pos, d);
    GroupRun(items, pos, d);
    MonthOfRun(items, pos, g, d);
  }

  /** Positions `pos` up to `g` hold month `d`: what comes before is from
      earlier months and the entry after them from a later month. */
  predicate MonthRun(items: seq<Result<Entry, Db.DbError>>, pos: nat, g: nat, d: CalDate)
    requires pos <= g <= |items| && AllOk(items)
  {
    && (forall i :: 0 <= i < pos ==> MonthIndex(items[i].value.date) < MonthIndex(d))
    && (forall i :: pos <= i < g ==> SameMonth(items[i].value.date, d))
    && (g < |items| ==> MonthIndex(d) < MonthIndex(items[g].value.date))
  }

  /** The group for `d` is the run of month `d`. */
  lemma GroupRun(items: seq<Result<Entry, Db.DbError>>, pos: nat, d: CalDate)
    requires pos <= |items| && AllOk(items) && MonthSorted(items)
    requires forall k :: 0 <= k < pos ==> MonthIndex(items[k].value.date) < MonthIndex(d)
    requires pos < |items| ==> MonthIndex(d) <= MonthIndex(items[pos].value.date)
    ensures MonthRun(items, pos, pos + Group(items, pos, d), d)
  {
    GroupSpan(items, pos, d);
    ConserveNext(items, pos, d);
    NextMonthStep(d);
  }

  /** The entries of month `d` are the run of month `d`. */
  lemma MonthOfRun(items: seq<Result<Entry, Db.DbError>>, pos: nat, g: nat, d: CalDate)
    requires pos <= g <= |items| && AllOk(items) && MonthSorted(items)
    requires MonthRun(items, pos, g, d)
    ensures MonthOf(items, d) == Values(items, pos, g)
  {
    forall k | 0 <= k < |items| ensures (SameMonth(items[k].value.date, d) <==> pos <= k < g) {
      InMonthIff(items, pos, g, d, k);
    }
    MonthOfRange(items, d, pos, g);
  }

  /** In date order, an entry is in month `d` exactly when it lies in the run
      `pos` up to `g` that is in month `d`, with earlier months before it and
      a later month after it. */
  lemma InMonthIff(items: seq<Result<Entry, Db.DbError>>, pos: nat, g: nat, d: CalDate, k: nat)
    requires pos <= g <= |items| && k < |items| && AllOk(items) && MonthSorted(items)
    requires forall i :: 0 <= i < pos ==> MonthIndex(items[i].value.date) < MonthIndex(d)
    requires forall i :: pos <= i < g ==> SameMonth(items[i].value.date, d)
    requires g < |items| ==> MonthIndex(d) < MonthIndex(items[g].value.date)
    ensures SameMonth(items[k].value.date, d) <==> pos <= k < g
  {
    MonthIndexOrder(items[k].value.date, d);
  }

  /** Each row's money in and money out total exactly the entries of its month. */
  predicate RowsByMonth(items: seq<Result<Entry, Db.DbError>>, rates: Rates, rows: seq<Row>)
    requires AllOk(items)
  {
    forall k :: 0 <= k < |rows| ==>
      TotalWithConversion(MonthOf(items, rows[k].date), rates) == Ok((rows[k].pos, rows[k].neg))
  }

  lemma RowsByMonthCons(items: seq<Result<Entry, Db.DbError>>, rates: Rates, row: Row, rows: seq<Row>)
    requires AllOk(items)
    requires TotalWithConversion(MonthOf(items, row.date), rates) == Ok((row.pos, row.neg))
    requires RowsByMonth(items, rates, rows)
    ensures RowsByMonth(items, rates, [row] + rows)
  {
    var all := [row] + rows;
    forall k | 0 <= k < |all|
      ensures TotalWithConversion(MonthOf(items, all[k].date), rates) == Ok((all[k].pos, all[k].neg))
    {
      if k > 0 {
        assert all[k] == rows[k - 1];
      }
    }
  }

  /** The month read from `pos` succeeds, ends where the group ends, and its
      totals are those of every entry of month `d` in the stream. */
  lemma MonthHead(items: seq<Result<Entry, Db.DbError>>, pos: nat, d: CalDate, rates: Rates)
    requires pos <= |items| && AllOk(items) && MonthSorted(items)
    requires forall k :: 0 <= k < |items| ==> items[k].value.currency in rates
    requires forall k :: 0 <= k < pos ==> MonthIndex(items[k].value.date) < MonthIndex(d)
    requires pos < |items| ==> MonthIndex(d) <= MonthIndex(items[pos].value.date)
    ensures var t := MonthTotal(items, pos, d, rates);
            && t.Ok? && t.value.0 == pos + Group(items, pos, d)
            && TotalWithConversion(MonthOf(items, d), rates) == Ok((t.value.1, t.value.2))
  {
    GroupSpan(items, pos, d);
    var g := pos + Group(items, pos, d);
    MonthTotalAt(items, pos, g, d, rates);
    GroupIsMonth(items, pos, d);
    ValuesRated(items, pos, g, rates);
    TotalWithConversionSpec(Values(items, pos, g), rates);
  }

  /** After the group of month `d`, every entry read is from an earlier month
      than the next one, and the next entry is not. */
  lemma MonthsBefore(items: seq<Result<Entry, Db.DbError>>, pos: nat, d: CalDate)
    requires pos <= |items| && AllOk(items) && MonthSorted(items)
    requires forall k :: 0 <= k < pos ==> MonthIndex(items[k].value.date) < MonthIndex(d)
    requires pos < |items| ==> MonthIndex(d) <= MonthIndex(items[pos].value.date)
    ensures var g := pos + Group(items, pos, d);
            && (forall k :: 0 <= k < g ==> MonthIndex(items[k].value.date) < MonthIndex(NextMonth(d)))
            && (g < |items| ==> MonthIndex(NextMonth(d)) <= MonthIndex(items[g].value.date))
  {
    GroupSpan(items, pos, d);
    var g := pos + Group(items, pos, d);
    ConserveNext(items, pos, d);
    NextMonthStep(d);
    forall k | pos <= k < g ensures MonthIndex(items[k].value.date) < MonthIndex(NextMonth(d)) {
      MonthIndexOrder(items[k].value.date, d);
    }
  }

  /** Each row's money in and money out are the total of exactly the entries
      of its own month, from `pos` on: no entry lands in another month's row. */
  lemma {:induction false} MonthRowsByMonth(items: seq<Result<Entry, Db.DbError>>, pos: nat, d: CalDate,
                                            end: CalDate, rates: Rates, sum: real)
    requires pos <= |items| && AllOk(items) && MonthSorted(items)
    requires forall k :: 0 <= k < |items| ==> items[k].value.currency in rates
    requires forall k :: 0 <= k < pos ==> MonthIndex(items[k].value.date) < MonthIndex(d)
    requires pos < |items| ==> MonthIndex(d) <= MonthIndex(items[pos].value.date)
    ensures var r := MonthRows(items, pos, d, end, rates, sum);
            r.Ok? && RowsByMonth(items, rates, r.value)
    decreases MonthsLeft(d, end)
  {
    if DateLe(d, end) {
      MonthHead(items, pos, d, rates);
      var (g, p, n) := MonthTotal(items, pos, d, rates).value;
      var row := Row(d, p, n, p + n, sum + (p + n));
      MonthRowsUnfold(items, pos, g, d, end, rates, sum, row);
      MonthsLeftNext(d, end);
      MonthsBefore(items, pos, d);
      MonthRowsByMonth(items, g, NextMonth(d), end, rates, row.sum);
      RowsByMonthCons(items, rates, row, MonthRows(items, g, NextMonth(d), end, rates, row.sum).value);
    }
  }

  /** For a stream of entries in date order, all with rates, every row of
      `gen_data` totals exactly the entries of its month in the whole stream. */
  lemma GenRowsByMonth(items: seq<Result<Entry, Db.DbError>>, rates: Rates, end: CalDate)
    requires AllOk(items) && DateSorted(items)
    requires forall k :: 0 <= k < |items| ==> items[k].value.currency in rates
    ensures var r := GenRows(items, rates, end);
            && r.Ok?
            && forall k :: 0 <= k < |r.value| ==>
                 TotalWithConversion(MonthOf(items, r.value[k].date), rates) == Ok((r.value[k].pos, r.value[k].neg))
  {
    if items != [] {
      DateSortedMonths(items);
      MonthRowsByMonth(items, 0, items[0].value.date, end, rates, 0.0);
    }
  }

  /** `gen_data`'s inner loop: takes the entries of month `d` from position
      `start` on, stopping at an error or at an entry of another month. */
  method TakeMonth(items: seq<Result<Entry, Db.DbError>>, start: nat, d: CalDate)
    returns (pos: nat, filtered: seq<Entry>)
    requires start <= |items|
    ensures pos == start + Group(items, start, d)
    ensures forall k :: start <= k < pos ==> items[k].Ok? && SameMonth(items[k].value.date, d)
    ensures filtered == Values(items, start, pos)
  {
    pos := start;
    filtered := [];
    while pos < |items| && items[pos].Ok? && SameMonth(items[pos].value.date, d)
      invariant start <= pos <= |items|
      invariant forall k :: start <= k < pos ==> items[k].Ok? && SameMonth(items[k].value.date, d)
      invariant filtered == Values(items, start, pos)
    {
      ValuesSnoc(items, start, pos);
      filtered := filtered + [items[pos].value];
      pos := pos + 1;
    }
    GroupEnd(items, start, pos, d);
  }

  /** Where the grouping loop stops is where `Group` says the month's items end. */
  lemma GroupEnd(items: seq<Result<Entry, Db.DbError>>, start: nat, pos: nat, d: CalDate)
    requires start <= pos <= |items|
    requires forall k :: start <= k < pos ==> items[k].Ok? && SameMonth(items[k].value.date, d)
    requires !(pos < |items| && items[pos].Ok? && SameMonth(items[pos].value.date, d))
    ensures Group(items, start, d) == pos - start
  {
    GroupSpan(items, start, d);
  }

  /** One month of `gen_data`'s loop: take the month's entries from `start`,
      then total them; an error item met on the way is the month's error. */
  method ReadMonth(items: seq<Result<Entry, Db.DbError>>, start: nat, d: CalDate, rates: Rates)
    returns (pos: nat, total: Result<(real, real), Db.DbError>)
    requires start <= |items|
    ensures pos <= |items|
    ensures total.Err? ==> MonthTotal(items, start, d, rates) == Err(total.error)
    ensures total.Ok? ==> MonthTotal(items, start, d, rates) == Ok((pos, total.value.0, total.value.1))
  {
    var filtered;
    pos, filtered := TakeMonth(items, start, d);
    MonthTotalAt(items, start, pos, d, rates);
    if pos < |items| && items[pos].Err? {
      return pos, Err(items[pos].error);
    }
    total := TotalWithConversion(filtered, rates);
  }

  /** `gen_data`: one row per month from the first entry's month up to `end`,
      reading the stream in order; the first error ends it with no output. */
  method GenData(items: seq<Result<Entry, Db.DbError>>, rates: Rates, end: CalDate)
    returns (res: Result<string, Db.DbError>)
    ensures res == GenDataSpec(items, rates, end)
  {
    var out := "";
    if |items| == 0 {
      EmitNothing(out);
      return Ok(out);
    }
    if items[0].Err? {
      return Err(items[0].error);
    }
    ghost var goal := GenDataSpec(items, rates, end);
    GenDataStart(items, rates, end);
    var series := new DateSeries(items[0].value.date);
    var sum := 0.0;
    var pos: nat := 0;
    while true
      invariant pos <= |items|
      invariant goal == Emit(out, MonthRows(items, pos, series.d, end, rates, sum))
      decreases MonthsLeft(series.d, end)
    {
      ghost var rest := MonthRows(items, pos, series.d, end, rates, sum);
      var next := series.Next();
      var d := next.value;
      if !DateLe(d, end) {
        EmitNothing(out);
        break;
      }
      MonthsLeftNext(d, end);
      var start: nat := pos;
      var total;
      pos, total := ReadMonth(items, start, d, rates);
      if total.Err? {
        MonthRowsError(items, start, d, end, rates, sum, total.error);
        return Err(total.error);
      }
      var (p, n) := total.value;
      var net := p + n;
      var row := Row(d, p, n, net, sum + net);
      ghost var after := MonthRows(items, pos, NextMonth(d), end, rates, row.sum);
      MonthStep(out, items, start, pos, d, end, rates, sum, row);
      assert rest == MonthRows(items, start, d, end, rates, sum);
      assert goal == Emit(out + (RowText(row) + "\n"), after);
      sum := row.sum;
      out := out + (RowText(row) + "\n");
    }
    return Ok(out);
  }
}
