/**
 * What the daily-forecast definition means: each summary speaks of exactly
 * its own date's samples (extremes, first-seen mode, mean wind), the list has
 * one entry per distinct date in order of first occurrence, cut to four, and
 * the placeholder fields never vary.
 */
module ForecastProperties {
  import opened Text
  import opened Counting
  import opened ForecastAggregation

  // ---------------------------------------------------------------------
  // One day
  // ---------------------------------------------------------------------

  /** A date's bucket holds samples of that date only, and every sample of that date. */
  lemma {:induction false} DaySamplesAreThatDay(samples: seq<Sample>, localDate: int -> Date, d: Date)
    ensures forall x | x in DaySamples(samples, localDate, d) :: x in samples && localDate(x.dt) == d
    ensures forall k | 0 <= k < |samples| && localDate(samples[k].dt) == d :: samples[k] in DaySamples(samples, localDate, d)
  {
    if samples != [] {
      var p, x := samples[..|samples| - 1], samples[|samples| - 1];
      assert samples == p + [x];
      DaySamplesAreThatDay(p, localDate, d);
      forall k | 0 <= k < |samples| - 1 && localDate(samples[k].dt) == d
        ensures samples[k] in DaySamples(samples, localDate, d)
      {
        assert samples[k] == p[k];
      }
    }
  }

  /** The running minimum of a non-empty day is the smallest temperature of the day. */
  lemma {:induction false} LowBoundIsMinimum(day: seq<Sample>)
    requires day != []
    ensures LowBound(day).Finite?
    ensures forall k :: 0 <= k < |day| ==> LowBound(day).v <= day[k].temp
    ensures exists k :: 0 <= k < |day| && day[k].temp == LowBound(day).v
  {
    var p, x := day[..|day| - 1], day[|day| - 1];
    assert day == p + [x];
    if p == [] {
      assert day[0].temp == LowBound(day).v;
    } else {
      LowBoundIsMinimum(p);
      var k :| 0 <= k < |p| && p[k].temp == LowBound(p).v;
      assert day[k] == p[k];
      forall j | 0 <= j < |day|
        ensures LowBound(day).v <= day[j].temp
      {
        if j < |p| {
          assert day[j] == p[j];
        }
      }
      if !Below(x.temp, LowBound(p)) {
        assert day[k].temp == LowBound(day).v;
      } else {
        assert day[|p|].temp == LowBound(day).v;
      }
    }
  }

  /** The running maximum of a non-empty day is the largest temperature of the day. */
  lemma {:induction false} HighBoundIsMaximum(day: seq<Sample>)
    requires day != []
    ensures HighBound(day).Finite?
    ensures forall k :: 0 <= k < |day| ==> day[k].temp <= HighBound(day).v
    ensures exists k :: 0 <= k < |day| && day[k].temp == HighBound(day).v
  {
    var p, x := day[..|day| - 1], day[|day| - 1];
    assert day == p + [x];
    if p == [] {
      assert day[0].temp == HighBound(day).v;
    } else {
      HighBoundIsMaximum(p);
      var k :| 0 <= k < |p| && p[k].temp == HighBound(p).v;
      assert day[k] == p[k];
      forall j | 0 <= j < |day|
        ensures day[j].temp <= HighBound(day).v
      {
        if j < |p| {
          assert day[j] == p[j];
        }
      }
      if !Above(x.temp, HighBound(p)) {
        assert day[k].temp == HighBound(day).v;
      } else {
        assert day[|p|].temp == HighBound(day).v;
      }
    }
  }

  /**
   * A day's `temp_min` and `temp_max` are the smallest and the largest of its
   * temperatures, both attained, so the minimum never exceeds the maximum.
   */
  lemma SummaryTemperatures(d: Date, day: seq<Sample>)
    requires day != []
    ensures forall k :: 0 <= k < |day| ==> DaySummary(d, day).tempMin <= day[k].temp <= DaySummary(d, day).tempMax
    ensures exists k :: 0 <= k < |day| && day[k].temp == DaySummary(d, day).tempMin
    ensures exists k :: 0 <= k < |day| && day[k].temp == DaySummary(d, day).tempMax
    ensures DaySummary(d, day).tempMin <= DaySummary(d, day).tempMax
  {
    LowBoundIsMinimum(day);
    HighBoundIsMaximum(day);
    assert LowBound(day).v <= day[0].temp <= HighBound(day).v;
  }

  /**
   * A day's description is its most frequent description, ties going to the
   * one seen first, capitalised.
   */
  lemma SummaryDescription(d: Date, day: seq<Sample>)
    requires day != []
    ensures exists m :: IsFirstMode(Descriptions(day), m) && DaySummary(d, day).description == Capitalize(m)
  {
    var ds := Descriptions(day);
    MostFrequentOfTallyIsFirstMode(ds);
    var m := MostFrequent(Distinct(ds), Tally(ds));
    assert IsFirstMode(ds, m) && DaySummary(d, day).description == Capitalize(m);
  }

  /** A day's wind is the mean of its wind speeds (never a division by zero), in km/h. */
  lemma SummaryWind(d: Date, day: seq<Sample>)
    requires day != []
    ensures DaySummary(d, day).windKmh == WindSum(day) / (|day| as real) * 3.6
  {
  }

  /** The date of a summary is the day it was asked for, and the placeholders never vary. */
  lemma SummaryPlaceholders(d: Date, day: seq<Sample>)
    requires day != []
    ensures DaySummary(d, day).date == d
    ensures DaySummary(d, day).windDirection == "Oeste"
    ensures DaySummary(d, day).visibility == 10000
  {
  }

  // ---------------------------------------------------------------------
  // The list of days
  // ---------------------------------------------------------------------

  /**
   * The output has one entry per distinct date, in the order of `Days`, up to
   * four, each the summary of that date's non-empty bucket.
   */
  lemma DailyForecastsShape(samples: seq<Sample>, localDate: int -> Date)
    ensures |DailyForecasts(samples, localDate)| ==
            if |Days(samples, localDate)| <= Horizon then |Days(samples, localDate)| else Horizon
    ensures forall k :: 0 <= k < |DailyForecasts(samples, localDate)| ==>
              var d := Days(samples, localDate)[k];
              && DaySamples(samples, localDate, d) != []
              && DailyForecasts(samples, localDate)[k] == DaySummary(d, DaySamples(samples, localDate, d))
              && DailyForecasts(samples, localDate)[k].date == d
  {
    var days := Days(samples, localDate);
    forall k | 0 <= k < |DailyForecasts(samples, localDate)|
      ensures DaySamples(samples, localDate, days[k]) != []
    {
      assert days[k] in DatesOf(samples, localDate);
    }
  }

  /** No two days of the output share a date. */
  lemma DailyForecastDatesDistinct(samples: seq<Sample>, localDate: int -> Date)
    ensures forall i, j :: 0 <= i < j < |DailyForecasts(samples, localDate)| ==>
              DailyForecasts(samples, localDate)[i].date != DailyForecasts(samples, localDate)[j].date
  {
    DailyForecastsShape(samples, localDate);
  }

  /** Every date of the output is the date of some sample. */
  lemma DailyForecastDatesFromSamples(samples: seq<Sample>, localDate: int -> Date)
    ensures forall k :: 0 <= k < |DailyForecasts(samples, localDate)| ==>
              exists n :: 0 <= n < |samples| && localDate(samples[n].dt) == DailyForecasts(samples, localDate)[k].date
  {
    DailyForecastsShape(samples, localDate);
    var days := Days(samples, localDate);
    var ds := DatesOf(samples, localDate);
    forall k | 0 <= k < |DailyForecasts(samples, localDate)|
      ensures exists n :: 0 <= n < |samples| && localDate(samples[n].dt) == DailyForecasts(samples, localDate)[k].date
    {
      var n := FirstIndex(ds, days[k]);
      assert localDate(samples[n].dt) == days[k];
    }
  }

  /** The days come out in the order in which their dates first occur in the feed. */
  lemma DailyForecastsInFirstOccurrenceOrder(samples: seq<Sample>, localDate: int -> Date, i: nat, j: nat)
    requires i < j < |DailyForecasts(samples, localDate)|
    ensures DailyForecasts(samples, localDate)[i].date in DatesOf(samples, localDate)
    ensures DailyForecasts(samples, localDate)[j].date in DatesOf(samples, localDate)
    ensures FirstIndex(DatesOf(samples, localDate), DailyForecasts(samples, localDate)[i].date) <
            FirstIndex(DatesOf(samples, localDate), DailyForecasts(samples, localDate)[j].date)
  {
    DailyForecastsShape(samples, localDate);
    DistinctKeepsFirstOccurrenceOrder(DatesOf(samples, localDate), i, j);
  }

  /** A feed whose samples come in date order gives its days in strictly ascending date order. */
  lemma DailyForecastsAscendingForSortedFeed(samples: seq<Sample>, localDate: int -> Date, i: nat, j: nat)
    requires forall a, b :: 0 <= a < b < |samples| ==> localDate(samples[a].dt) <= localDate(samples[b].dt)
    requires i < j < |DailyForecasts(samples, localDate)|
    ensures DailyForecasts(samples, localDate)[i].date < DailyForecasts(samples, localDate)[j].date
  {
    var ds := DatesOf(samples, localDate);
    var fs := DailyForecasts(samples, localDate);
    DailyForecastsInFirstOccurrenceOrder(samples, localDate, i, j);
    DailyForecastDatesDistinct(samples, localDate);
    var a, b := FirstIndex(ds, fs[i].date), FirstIndex(ds, fs[j].date);
    assert ds[a] == fs[i].date && ds[b] == fs[j].date;
    assert localDate(samples[a].dt) <= localDate(samples[b].dt);
  }

  /**
   * A feed whose samples come in date order keeps its earliest dates: a
   * sample whose date gets no summary is later than every day that does.
   */
  lemma DailyForecastsKeepEarliestForSortedFeed(samples: seq<Sample>, localDate: int -> Date, n: nat, k: nat)
    requires forall a, b :: 0 <= a < b < |samples| ==> localDate(samples[a].dt) <= localDate(samples[b].dt)
    requires n < |samples| && k < |DailyForecasts(samples, localDate)|
    requires forall m :: 0 <= m < |DailyForecasts(samples, localDate)| ==>
               DailyForecasts(samples, localDate)[m].date != localDate(samples[n].dt)
    ensures DailyForecasts(samples, localDate)[k].date < localDate(samples[n].dt)
  {
    var ds := DatesOf(samples, localDate);
    var days := Days(samples, localDate);
    var fs := DailyForecasts(samples, localDate);
    var e := localDate(samples[n].dt);
    DailyForecastsShape(samples, localDate);
    assert ds[n] == e;
    var p := FirstIndex(days, e);
    assert days[p] == e;
    assert p >= |fs|;
    DistinctKeepsFirstOccurrenceOrder(ds, k, p);
    var a, b := FirstIndex(ds, days[k]), FirstIndex(ds, e);
    assert localDate(samples[a].dt) <= localDate(samples[b].dt);
    assert days[k] != e;
  }

  /** When the feed spans at most four dates, every one of them gets a summary. */
  lemma DailyForecastsCoverFewDates(samples: seq<Sample>, localDate: int -> Date, n: nat)
    requires |Days(samples, localDate)| <= Horizon && n < |samples|
    ensures exists k :: 0 <= k < |DailyForecasts(samples, localDate)| &&
                        DailyForecasts(samples, localDate)[k].date == localDate(samples[n].dt)
  {
    DailyForecastsShape(samples, localDate);
    var days := Days(samples, localDate);
    assert DatesOf(samples, localDate)[n] == localDate(samples[n].dt);
    var k := FirstIndex(days, localDate(samples[n].dt));
    assert DailyForecasts(samples, localDate)[k].date == localDate(samples[n].dt);
  }

  /** The output is empty exactly when the feed is. */
  lemma DailyForecastsEmptyIff(samples: seq<Sample>, localDate: int -> Date)
    ensures DailyForecasts(samples, localDate) == [] <==> samples == []
  {
    DailyForecastsShape(samples, localDate);
    if samples != [] {
      assert DatesOf(samples, localDate)[0] in Days(samples, localDate);
    }
  }

  // ---------------------------------------------------------------------
  // Worked days
  // ---------------------------------------------------------------------

  /** Samples [12.0, 15.5, 9.2] on one day give a minimum of 9.2 and a maximum of 15.5. */
  lemma ExtremesExample(d: Date)
    ensures var day := [Sample(0, 12.0, 0.0, "x"), Sample(1, 15.5, 0.0, "x"), Sample(2, 9.2, 0.0, "x")];
            DaySummary(d, day).tempMin == 9.2 && DaySummary(d, day).tempMax == 15.5
  {
    var day := [Sample(0, 12.0, 0.0, "x"), Sample(1, 15.5, 0.0, "x"), Sample(2, 9.2, 0.0, "x")];
    assert day[..2][..1] == [day[0]];
    assert LowBound(day[..2][..1]) == Finite(12.0);
    assert HighBound(day[..2][..1]) == Finite(12.0);
  }

  /** Wind speeds 2.0 and 4.0 m/s give 10.8 km/h. */
  lemma WindExample(d: Date)
    ensures var day := [Sample(0, 0.0, 2.0, "x"), Sample(1, 0.0, 4.0, "x")];
            DaySummary(d, day).windKmh == 10.8
  {
    var day := [Sample(0, 0.0, 2.0, "x"), Sample(1, 0.0, 4.0, "x")];
    assert day[..1] == [day[0]];
    assert day[..1][..0] == [];
    assert WindSum(day) == 6.0;
  }

  /** Two samples with different descriptions tie, and the tie goes to the first one seen. */
  lemma TieGoesToFirst(d: Date, day: seq<Sample>)
    requires |day| == 2 && day[0].description != day[1].description
    ensures DaySummary(d, day).description == Capitalize(day[0].description)
  {
    var ds := Descriptions(day);
    assert ds == [day[0].description, day[1].description];
    TiedMode(day[0].description, day[1].description);
  }

  /** A dict filled from one key, or from the same key twice, holds that key alone. */
  lemma RepeatedKey<T>(a: T)
    ensures Distinct([a]) == [a]
    ensures Distinct([a, a]) == [a]
  {
    var none: seq<T> := [];
    assert none + [a] == [a] && [a] + [a] == [a, a];
    DistinctSnoc(none, a);
    DistinctSnoc([a], a);
  }

  /** A dict filled from two different keys keeps both, in order. */
  lemma TiedKeys<T>(a: T, b: T)
    requires a != b
    ensures Distinct([a, b]) == [a, b]
  {
    RepeatedKey(a);
    assert [a] + [b] == [a, b];
    DistinctSnoc([a], b);
  }

  /** A counter filled from two different keys counts each once. */
  lemma TiedCounts<T>(a: T, b: T)
    requires a != b
    ensures Tally([a, b]) == map[a := 1, b := 1]
  {
    var none: seq<T> := [];
    assert none + [a] == [a] && [a] + [b] == [a, b];
    TallySnoc(none, a);
    TallySnoc([a], b);
  }

  /** Of two different keys counted once each, the first one seen wins. */
  lemma TiedMode<T>(a: T, b: T)
    requires a != b
    ensures MostFrequent(Distinct([a, b]), Tally([a, b])) == a
  {
    TiedKeys(a, b);
    TiedCounts(a, b);
    var keys := [a, b];
    assert keys[..1] == [a];
  }

  /** A dict filled from `a`, `a`, `b` keeps `a` once, then `b`. */
  lemma RepeatedKeys<T>(a: T, b: T)
    requires a != b
    ensures Distinct([a, a, b]) == [a, b]
  {
    RepeatedKey(a);
    assert [a, a] + [b] == [a, a, b];
    DistinctSnoc([a, a], b);
  }

  /** A counter filled from `a`, `a`, `b` counts `a` twice and `b` once. */
  lemma RepeatedCounts<T>(a: T, b: T)
    requires a != b
    ensures Tally([a, a, b]) == map[a := 2, b := 1]
  {
    var none: seq<T> := [];
    assert none + [a] == [a] && [a] + [a] == [a, a] && [a, a] + [b] == [a, a, b];
    TallySnoc(none, a);
    TallySnoc([a], a);
    TallySnoc([a, a], b);
  }

  /** Of `a`, `a`, `b`, the key seen twice wins. */
  lemma RepeatedMode<T>(a: T, b: T)
    requires a != b
    ensures MostFrequent(Distinct([a, a, b]), Tally([a, a, b])) == a
  {
    RepeatedKeys(a, b);
    RepeatedCounts(a, b);
    var keys := [a, b];
    assert keys[..1] == [a];
  }

  /** Of three samples, two with the same description and a different third, the repeated description wins. */
  lemma MajorityWins(d: Date, day: seq<Sample>)
    requires |day| == 3 && day[0].description == day[1].description != day[2].description
    ensures DaySummary(d, day).description == Capitalize(day[0].description)
  {
    var ds := Descriptions(day);
    assert ds == [day[0].description, day[0].description, day[2].description];
    RepeatedMode(day[0].description, day[2].description);
  }
}
