/**
 * The daily-forecast aggregation of the weather job: a list of 3-hour samples
 * is grouped by local calendar date, and every date gets its minimum and
 * maximum temperature, its most frequent description (capitalised), and its
 * mean wind speed converted from m/s to km/h; only the first four dates are
 * kept.
 *
 * `ProcessForecast` is the accumulating loop written as the source writes it
 * (a dict of per-day accumulators, each with a running min and max started at
 * plus and minus infinity, a wind sum and count, and a description counter);
 * it is proved equal to `DailyForecasts`, a definition that only speaks of the
 * samples of each date. The lemmas after it state what that definition means.
 */
module ForecastAggregation {
  import opened Text
  import opened Counting

  /** A local calendar date (a day number: later days are larger). */
  type Date = int

  /** One 3-hour sample of the feed: `dt`, `main.temp`, `wind.speed` and `weather[0].description`. */
  datatype Sample = Sample(dt: int, temp: real, windSpeed: real, description: string)

  /** A running bound that may still be one of the two infinities it starts at. */
  datatype Bound = NegInf | Finite(v: real) | PosInf

  /** `x < b` with `b` possibly infinite. */
  predicate Below(x: real, b: Bound)
  {
    match b
    case NegInf => false
    case Finite(v) => x < v
    case PosInf => true
  }

  /** `x > b` with `b` possibly infinite. */
  predicate Above(x: real, b: Bound)
  {
    match b
    case NegInf => true
    case Finite(v) => x > v
    case PosInf => false
  }

  /** One summarised day, with the fields of the dict the aggregation emits. */
  datatype DailyForecast = DailyForecast(
    date: Date,
    tempMin: real,
    tempMax: real,
    description: string,
    windKmh: real,
    windDirection: string,
    visibility: int)

  /** The wind direction every day is given, since the free feed has no daily direction. */
  const SimulatedWindDirection: string := "Oeste"
  /** The visibility every day is given. */
  const SimulatedVisibility: int := 10000
  /** Number of days kept: today and the three following. */
  const Horizon: nat := 4
  /** m/s to km/h. */
  const KmhPerMs: real := 3.6

  // ---------------------------------------------------------------------
  // What a day is made of
  // ---------------------------------------------------------------------

  /** The local date of every sample, in input order. */
  function DatesOf(samples: seq<Sample>, localDate: int -> Date): (r: seq<Date>)
    ensures |r| == |samples|
    ensures forall k :: 0 <= k < |r| ==> r[k] == localDate(samples[k].dt)
  {
    if samples == [] then []
    else DatesOf(samples[..|samples| - 1], localDate) + [localDate(samples[|samples| - 1].dt)]
  }

  /** The samples whose local date is `d`, in input order. */
  function DaySamples(samples: seq<Sample>, localDate: int -> Date, d: Date): (r: seq<Sample>)
    ensures r != [] <==> d in DatesOf(samples, localDate)
  {
    if samples == [] then []
    else
      var p := samples[..|samples| - 1];
      var x := samples[|samples| - 1];
      assert samples == p + [x];
      assert DatesOf(samples, localDate) == DatesOf(p, localDate) + [localDate(x.dt)];
      DaySamples(p, localDate, d) + (if localDate(x.dt) == d then [x] else [])
  }

  /** The running minimum of the temperatures, started at plus infinity. */
  function LowBound(day: seq<Sample>): (r: Bound)
    ensures day == [] <==> r == PosInf
    ensures r != NegInf
  {
    if day == [] then PosInf
    else
      var p := day[..|day| - 1];
      var x := day[|day| - 1];
      assert day == p + [x];
      var b := LowBound(p);
      if Below(x.temp, b) then Finite(x.temp) else b
  }

  /** The running maximum of the temperatures, started at minus infinity. */
  function HighBound(day: seq<Sample>): (r: Bound)
    ensures day == [] <==> r == NegInf
    ensures r != PosInf
  {
    if day == [] then NegInf
    else
      var p := day[..|day| - 1];
      var x := day[|day| - 1];
      assert day == p + [x];
      var b := HighBound(p);
      if Above(x.temp, b) then Finite(x.temp) else b
  }

  /** Sum of the wind speeds. */
  function WindSum(day: seq<Sample>): real
  {
    if day == [] then 0.0 else WindSum(day[..|day| - 1]) + day[|day| - 1].windSpeed
  }

  /** The descriptions, in input order. */
  function Descriptions(day: seq<Sample>): (r: seq<string>)
    ensures |r| == |day|
    ensures forall k :: 0 <= k < |r| ==> r[k] == day[k].description
  {
    if day == [] then [] else Descriptions(day[..|day| - 1]) + [day[|day| - 1].description]
  }

  /** `total / count`, or 0 when nothing was counted (the source's guarded average). */
  function Mean(total: real, count: nat): real
  {
    if count != 0 then total / (count as real) else 0.0
  }

  /** A speed in m/s expressed in km/h. */
  function ToKmh(metersPerSecond: real): real
  {
    metersPerSecond * KmhPerMs
  }

  /** The summary of one date, given that date's samples. */
  function DaySummary(d: Date, day: seq<Sample>): DailyForecast
    requires day != []
  {
    var descriptions := Descriptions(day);
    assert descriptions[0] in Distinct(descriptions);
    DailyForecast(
      d,
      LowBound(day).v,
      HighBound(day).v,
      Capitalize(MostFrequent(Distinct(descriptions), Tally(descriptions))),
      ToKmh(Mean(WindSum(day), |day|)),
      SimulatedWindDirection,
      SimulatedVisibility)
  }

  /** Python's `s[:n]`. */
  function Take<T>(s: seq<T>, n: nat): (r: seq<T>)
    ensures |r| == if |s| <= n then |s| else n
    ensures r == s[..|r|]
  {
    if |s| <= n then s else s[..n]
  }

  /** The distinct dates of the samples, in order of first occurrence. */
  function Days(samples: seq<Sample>, localDate: int -> Date): seq<Date>
  {
    Distinct(DatesOf(samples, localDate))
  }

  /** One summary per distinct date, in order of first occurrence, cut to the first four. */
  function DailyForecasts(samples: seq<Sample>, localDate: int -> Date): seq<DailyForecast>
  {
    var days := Days(samples, localDate);
    Take(seq(|days|, k requires 0 <= k < |days| => DaySummary(days[k], DaySamples(samples, localDate, days[k]))), Horizon)
  }

  // ---------------------------------------------------------------------
  // The aggregation as the job runs it
  // ---------------------------------------------------------------------

  /** The per-day accumulator of the aggregation loop. */
  datatype DayAccumulator = DayAccumulator(
    date: Date,
    low: Bound,
    high: Bound,
    windSum: real,
    windCount: nat,
    descriptionOrder: seq<string>,
    descriptionCount: map<string, nat>)

  /** The accumulator a new date starts with (the `defaultdict` factory). */
  function FreshAccumulator(d: Date): DayAccumulator
  {
    DayAccumulator(d, PosInf, NegInf, 0.0, 0, [], map[])
  }

  /** `acc` holds exactly what has been accumulated from the samples `day` of date `d`. */
  ghost predicate Accumulated(acc: DayAccumulator, d: Date, day: seq<Sample>)
  {
    && acc.date == d
    && acc.low == LowBound(day)
    && acc.high == HighBound(day)
    && acc.windSum == WindSum(day)
    && acc.windCount == |day|
    && acc.descriptionOrder == Distinct(Descriptions(day))
    && acc.descriptionCount == Tally(Descriptions(day))
  }

  /** The per-field effect of appending one sample to a day. */
  lemma DaySnoc(day: seq<Sample>, x: Sample)
    ensures LowBound(day + [x]) == if Below(x.temp, LowBound(day)) then Finite(x.temp) else LowBound(day)
    ensures HighBound(day + [x]) == if Above(x.temp, HighBound(day)) then Finite(x.temp) else HighBound(day)
    ensures WindSum(day + [x]) == WindSum(day) + x.windSpeed
    ensures Descriptions(day + [x]) == Descriptions(day) + [x.description]
  {
    assert (day + [x])[..|day|] == day;
  }

  /**
   * The loop body's effect on one day's accumulator: a strictly lower or
   * higher reading replaces the running bound, the wind reading is summed and
   * counted, and the description counter is incremented (a new description
   * goes to the end of the counter's key order).
   */
  function Absorb(acc: DayAccumulator, x: Sample, d: Date): DayAccumulator
  {
    var seen := if x.description in acc.descriptionCount then acc.descriptionCount[x.description] else 0;
    DayAccumulator(
      d,
      if Below(x.temp, acc.low) then Finite(x.temp) else acc.low,
      if Above(x.temp, acc.high) then Finite(x.temp) else acc.high,
      acc.windSum + x.windSpeed,
      acc.windCount + 1,
      if x.description in acc.descriptionCount then acc.descriptionOrder else acc.descriptionOrder + [x.description],
      acc.descriptionCount[x.description := seen + 1])
  }

  /** Folding one more sample of the same date into an accumulator. */
  lemma AccumulateStep(acc: DayAccumulator, d: Date, day: seq<Sample>, x: Sample)
    requires Accumulated(acc, d, day)
    ensures Accumulated(Absorb(acc, x, d), d, day + [x])
  {
    DaySnoc(day, x);
    CounterStep(acc, day, x, Absorb(acc, x, d));
  }

  /** The description counter and its key order after one more sample. */
  lemma CounterStep(acc: DayAccumulator, day: seq<Sample>, x: Sample, acc': DayAccumulator)
    requires acc.descriptionOrder == Distinct(Descriptions(day))
    requires acc.descriptionCount == Tally(Descriptions(day))
    requires acc'.descriptionOrder ==
               (if x.description in acc.descriptionCount then acc.descriptionOrder
                else acc.descriptionOrder + [x.description])
    requires acc'.descriptionCount ==
               acc.descriptionCount[x.description :=
                 (if x.description in acc.descriptionCount then acc.descriptionCount[x.description] else 0) + 1]
    ensures acc'.descriptionOrder == Distinct(Descriptions(day + [x]))
    ensures acc'.descriptionCount == Tally(Descriptions(day + [x]))
  {
    DaySnoc(day, x);
    var ds := Descriptions(day);
    DistinctSnoc(ds, x.description);
    TallySnoc(ds, x.description);
    assert x.description in acc.descriptionCount <==> x.description in ds;
  }

  /** Adding a sample changes only the bucket of its own date. */
  lemma DaySamplesStep(samples: seq<Sample>, localDate: int -> Date, i: nat, d: Date)
    requires i < |samples|
    ensures DaySamples(samples[..i + 1], localDate, d) ==
            DaySamples(samples[..i], localDate, d) + (if localDate(samples[i].dt) == d then [samples[i]] else [])
    ensures DatesOf(samples[..i + 1], localDate) == DatesOf(samples[..i], localDate) + [localDate(samples[i].dt)]
  {
    assert samples[..i + 1][..i] == samples[..i];
  }

  /** The accumulator found (or created) for a sample's date holds that date's earlier samples. */
  lemma BucketBefore(samples: seq<Sample>, localDate: int -> Date, i: nat, order: seq<Date>,
                     buckets: map<Date, DayAccumulator>)
    requires i < |samples|
    requires order == Distinct(DatesOf(samples[..i], localDate))
    requires forall d :: d in buckets <==> d in order
    requires forall d | d in buckets :: Accumulated(buckets[d], d, DaySamples(samples[..i], localDate, d))
    ensures var d := localDate(samples[i].dt);
            Accumulated(if d in buckets then buckets[d] else FreshAccumulator(d), d, DaySamples(samples[..i], localDate, d))
  {
    var d := localDate(samples[i].dt);
    if d !in buckets {
      assert d !in DatesOf(samples[..i], localDate);
      assert Descriptions([]) == [];
    }
  }

  /** After storing the updated accumulator, every bucket holds its date's samples one step further. */
  lemma BucketAfterAt(samples: seq<Sample>, localDate: int -> Date, i: nat,
                      buckets: map<Date, DayAccumulator>, acc': DayAccumulator, e: Date)
    requires i < |samples|
    requires forall d | d in buckets :: Accumulated(buckets[d], d, DaySamples(samples[..i], localDate, d))
    requires var d := localDate(samples[i].dt);
             Accumulated(acc', d, DaySamples(samples[..i], localDate, d) + [samples[i]])
    requires e in buckets[localDate(samples[i].dt) := acc']
    ensures Accumulated(buckets[localDate(samples[i].dt) := acc'][e], e, DaySamples(samples[..i + 1], localDate, e))
  {
    DaySamplesStep(samples, localDate, i, e);
    var d := localDate(samples[i].dt);
    var day := DaySamples(samples[..i + 1], localDate, e);
    if e == d {
      assert day == DaySamples(samples[..i], localDate, d) + [samples[i]];
    } else {
      assert day == DaySamples(samples[..i], localDate, e);
      assert buckets[d := acc'][e] == buckets[e];
    }
  }

  /** Storing the updated accumulator re-establishes the grouping invariant one sample further. */
  lemma BucketAfter(samples: seq<Sample>, localDate: int -> Date, i: nat, order: seq<Date>,
                    buckets: map<Date, DayAccumulator>, acc': DayAccumulator,
                    order': seq<Date>, buckets': map<Date, DayAccumulator>)
    requires i < |samples|
    requires order == Distinct(DatesOf(samples[..i], localDate))
    requires forall d :: d in buckets <==> d in order
    requires forall d | d in buckets :: Accumulated(buckets[d], d, DaySamples(samples[..i], localDate, d))
    requires var d := localDate(samples[i].dt);
             && Accumulated(acc', d, DaySamples(samples[..i], localDate, d) + [samples[i]])
             && order' == (if d in buckets then order else order + [d])
             && buckets' == buckets[d := acc']
    ensures order' == Distinct(DatesOf(samples[..i + 1], localDate))
    ensures forall d :: d in buckets' <==> d in order'
    ensures forall d | d in buckets' :: Accumulated(buckets'[d], d, DaySamples(samples[..i + 1], localDate, d))
  {
    var d := localDate(samples[i].dt);
    DaySamplesStep(samples, localDate, i, d);
    DistinctSnoc(DatesOf(samples[..i], localDate), d);
    forall e | e in buckets'
      ensures Accumulated(buckets'[e], e, DaySamples(samples[..i + 1], localDate, e))
    {
      BucketAfterAt(samples, localDate, i, buckets, acc', e);
    }
  }

  /**
   * The state of the grouping loop after the samples `prefix`: the dict's key
   * order is the distinct dates in order of first occurrence, and each date's
   * accumulator holds exactly that date's samples.
   */
  ghost predicate Grouped(prefix: seq<Sample>, localDate: int -> Date, order: seq<Date>, buckets: map<Date, DayAccumulator>)
  {
    && order == Distinct(DatesOf(prefix, localDate))
    && (forall d :: d in buckets <==> d in order)
    && (forall d | d in buckets :: Accumulated(buckets[d], d, DaySamples(prefix, localDate, d)))
  }

  /** The accumulator of the next sample's date, with that sample absorbed, holds the date's samples so far. */
  lemma AbsorbBucket(samples: seq<Sample>, localDate: int -> Date, i: nat, order: seq<Date>,
                     buckets: map<Date, DayAccumulator>)
    requires i < |samples|
    requires order == Distinct(DatesOf(samples[..i], localDate))
    requires forall d :: d in buckets <==> d in order
    requires forall d | d in buckets :: Accumulated(buckets[d], d, DaySamples(samples[..i], localDate, d))
    ensures var d := localDate(samples[i].dt);
            var acc := if d in buckets then buckets[d] else FreshAccumulator(d);
            Accumulated(Absorb(acc, samples[i], d), d, DaySamples(samples[..i], localDate, d) + [samples[i]])
  {
    var d := localDate(samples[i].dt);
    var acc := if d in buckets then buckets[d] else FreshAccumulator(d);
    BucketBefore(samples, localDate, i, order, buckets);
    AccumulateStep(acc, d, DaySamples(samples[..i], localDate, d), samples[i]);
  }

  /**
   * The completed accumulator of a date, turned into the summary the source
   * emits: extremes, the first most frequent description capitalised, the
   * mean wind converted to km/h and the simulated placeholders.
   */
  function Finish(acc: DayAccumulator): DailyForecast
    requires acc.low.Finite? && acc.high.Finite?
    requires acc.descriptionOrder != []
    requires forall s | s in acc.descriptionOrder :: s in acc.descriptionCount
  {
    DailyForecast(
      acc.date,
      acc.low.v,
      acc.high.v,
      Capitalize(MostFrequent(acc.descriptionOrder, acc.descriptionCount)),
      ToKmh(Mean(acc.windSum, acc.windCount)),
      SimulatedWindDirection,
      SimulatedVisibility)
  }

  /** Finishing an accumulator that holds a non-empty day gives that day's summary. */
  lemma FinishAccumulated(acc: DayAccumulator, d: Date, day: seq<Sample>)
    requires day != [] && Accumulated(acc, d, day)
    ensures acc.low.Finite? && acc.high.Finite?
    ensures acc.descriptionOrder != []
    ensures forall s | s in acc.descriptionOrder :: s in acc.descriptionCount
    ensures Finish(acc) == DaySummary(d, day)
  {
    var ds := Descriptions(day);
    assert ds[0] in Distinct(ds);
    var m := MostFrequent(acc.descriptionOrder, acc.descriptionCount);
    assert m == MostFrequent(Distinct(ds), Tally(ds));
    assert Finish(acc) == DailyForecast(d, LowBound(day).v, HighBound(day).v, Capitalize(m),
                                        ToKmh(Mean(WindSum(day), |day|)), SimulatedWindDirection, SimulatedVisibility);
  }

  /** The summaries of the dates in first-occurrence order, cut to four, are `DailyForecasts`. */
  lemma SummariesAreDailyForecasts(samples: seq<Sample>, localDate: int -> Date, order: seq<Date>, all: seq<DailyForecast>)
    requires order == Days(samples, localDate) && |all| == |order|
    requires forall k :: 0 <= k < |order| ==>
               DaySamples(samples, localDate, order[k]) != [] &&
               all[k] == DaySummary(order[k], DaySamples(samples, localDate, order[k]))
    ensures Take(all, Horizon) == DailyForecasts(samples, localDate)
  {
    var days := Days(samples, localDate);
    var summaries := seq(|days|, k requires 0 <= k < |days| => DaySummary(days[k], DaySamples(samples, localDate, days[k])));
    assert all == summaries;
  }

  /** One iteration of the grouping loop: the same three facts hold one sample further on. */
  lemma GroupStep(samples: seq<Sample>, localDate: int -> Date, i: nat, order: seq<Date>,
                  buckets: map<Date, DayAccumulator>, order': seq<Date>, buckets': map<Date, DayAccumulator>)
    requires i < |samples|
    requires order == Distinct(DatesOf(samples[..i], localDate))
    requires forall d :: d in buckets <==> d in order
    requires forall d | d in buckets :: Accumulated(buckets[d], d, DaySamples(samples[..i], localDate, d))
    requires var d := localDate(samples[i].dt);
             && order' == (if d in buckets then order else order + [d])
             && buckets' == buckets[d := Absorb(if d in buckets then buckets[d] else FreshAccumulator(d), samples[i], d)]
    ensures order' == Distinct(DatesOf(samples[..i + 1], localDate))
    ensures forall d :: d in buckets' <==> d in order'
    ensures forall d | d in buckets' :: Accumulated(buckets'[d], d, DaySamples(samples[..i + 1], localDate, d))
  {
    var d := localDate(samples[i].dt);
    var acc := if d in buckets then buckets[d] else FreshAccumulator(d);
    AbsorbBucket(samples, localDate, i, order, buckets);
    BucketAfter(samples, localDate, i, order, buckets, Absorb(acc, samples[i], d), order', buckets');
  }

  /** The grouping loop of `_procesar_datos_pronostico`. */
  method GroupByDate(samples: seq<Sample>, localDate: int -> Date)
    returns (order: seq<Date>, buckets: map<Date, DayAccumulator>)
    ensures Grouped(samples, localDate, order, buckets)
  {
    order := [];
    buckets := map[];
    var i := 0;
    while i < |samples|
      invariant 0 <= i <= |samples|
      invariant order == Distinct(DatesOf(samples[..i], localDate))
      invariant forall d :: d in buckets <==> d in order
      invariant forall d | d in buckets :: Accumulated(buckets[d], d, DaySamples(samples[..i], localDate, d))
    {
      var d := localDate(samples[i].dt);
      var acc := if d in buckets then buckets[d] else FreshAccumulator(d);
      var order' := if d in buckets then order else order + [d];
      var buckets' := buckets[d := Absorb(acc, samples[i], d)];
      GroupStep(samples, localDate, i, order, buckets, order', buckets');
      assert order' == Distinct(DatesOf(samples[..i + 1], localDate));
      order, buckets, i := order', buckets', i + 1;
    }
    assert samples[..i] == samples;
  }

  /** Every key of a completed grouping has a non-empty day, and its accumulator holds that day. */
  lemma GroupedBucket(samples: seq<Sample>, localDate: int -> Date, order: seq<Date>,
                      buckets: map<Date, DayAccumulator>, j: nat)
    requires Grouped(samples, localDate, order, buckets) && j < |order|
    ensures order[j] in buckets
    ensures DaySamples(samples, localDate, order[j]) != []
    ensures Accumulated(buckets[order[j]], order[j], DaySamples(samples, localDate, order[j]))
  {
    assert order[j] in DatesOf(samples, localDate);
  }

  /** The finishing loop of `_procesar_datos_pronostico`: one summary per key, in key order. */
  method Summarize(samples: seq<Sample>, localDate: int -> Date, order: seq<Date>, buckets: map<Date, DayAccumulator>)
    returns (all: seq<DailyForecast>)
    requires Grouped(samples, localDate, order, buckets)
    ensures |all| == |order|
    ensures forall k :: 0 <= k < |order| ==>
              DaySamples(samples, localDate, order[k]) != [] &&
              all[k] == DaySummary(order[k], DaySamples(samples, localDate, order[k]))
  {
    all := [];
    var j := 0;
    while j < |order|
      invariant 0 <= j <= |order| && |all| == j
      invariant forall k :: 0 <= k < j ==>
                  DaySamples(samples, localDate, order[k]) != [] &&
                  all[k] == DaySummary(order[k], DaySamples(samples, localDate, order[k]))
    {
      var d := order[j];
      ghost var day := DaySamples(samples, localDate, d);
      assert d in buckets && day != [] && Accumulated(buckets[d], d, day) by {
        GroupedBucket(samples, localDate, order, buckets, j);
      }
      FinishAccumulated(buckets[d], d, day);
      var summary := Finish(buckets[d]);
      all := all + [summary];
      j := j + 1;
    }
  }

  /**
   * `_procesar_datos_pronostico`: group the samples by local date, keep a
   * running min and max, a wind sum and count and a description counter per
   * date, then emit one summary per date and keep the first four.
   */
  method ProcessForecast(samples: seq<Sample>, localDate: int -> Date) returns (forecasts: seq<DailyForecast>)
    ensures forecasts == DailyForecasts(samples, localDate)
  {
    var order, buckets := GroupByDate(samples, localDate);
    var all := Summarize(samples, localDate, order, buckets);
    SummariesAreDailyForecasts(samples, localDate, order, all);
    forecasts := Take(all, Horizon);
  }
}
