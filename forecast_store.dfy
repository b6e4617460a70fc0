/**
 * The stored daily forecasts (`PronosticoDiario`) and the jobs around them:
 * `_actualizar_pronostico`, which validates a feed response, aggregates it and
 * upserts one row per day keyed on (crossing, date); `actualizar_automatico`,
 * which runs it for the first crossing; and `get_pronostico`, which reads
 * the four latest days of a crossing in ascending date order.
 *
 * A failed commit is rolled back: the table is left exactly as it was.
 */
module ForecastStore {
  import opened Wrappers
  import opened ForecastAggregation
  import opened ForecastProperties
  import StatusStore

  /** A stored day: identity, owning crossing, date, and the six aggregate fields. */
  datatype ForecastRow = ForecastRow(
    id: nat,
    pasoId: nat,
    date: Date,
    tempMin: real,
    tempMax: real,
    description: string,
    windKmh: real,
    windDirection: string,
    visibility: int)

  /** The table's rows in insertion order, and the next identifier to hand out. */
  datatype Table = Table(rows: seq<ForecastRow>, nextId: nat)

  /** The row is the one for crossing `pasoId` and date `date`. */
  predicate HasKey(row: ForecastRow, pasoId: nat, date: Date)
  {
    row.pasoId == pasoId && row.date == date
  }

  /** At most one row per (crossing, date), unique identifiers, every identifier handed out. */
  ghost predicate WellFormed(t: Table)
  {
    && (forall i, j :: 0 <= i < j < |t.rows| ==> !HasKey(t.rows[j], t.rows[i].pasoId, t.rows[i].date))
    && (forall i, j :: 0 <= i < j < |t.rows| ==> t.rows[i].id != t.rows[j].id)
    && (forall i :: 0 <= i < |t.rows| ==> t.rows[i].id < t.nextId)
  }

  /** `filter_by(paso_id=..., fecha_pronostico=...).first()`: the first row with the key. */
  function IndexOf(rows: seq<ForecastRow>, pasoId: nat, date: Date): (r: Option<nat>)
    ensures r.Some? ==> r.value < |rows| && HasKey(rows[r.value], pasoId, date)
    ensures r.Some? ==> forall k :: 0 <= k < r.value ==> !HasKey(rows[k], pasoId, date)
    ensures r.None? <==> forall k :: 0 <= k < |rows| ==> !HasKey(rows[k], pasoId, date)
  {
    if rows == [] then None
    else if HasKey(rows[0], pasoId, date) then Some(0)
    else
      match IndexOf(rows[1..], pasoId, date)
      case None => None
      case Some(i) => Some(i + 1)
  }

  /** The six aggregate fields of the row are those of the summary. */
  predicate Agrees(row: ForecastRow, f: DailyForecast)
  {
    && row.tempMin == f.tempMin && row.tempMax == f.tempMax
    && row.description == f.description && row.windKmh == f.windKmh
    && row.windDirection == f.windDirection && row.visibility == f.visibility
  }

  /** An existing row with its six aggregate fields overwritten. */
  function Overwrite(row: ForecastRow, f: DailyForecast): (r: ForecastRow)
    ensures r.id == row.id && r.pasoId == row.pasoId && r.date == row.date
    ensures Agrees(r, f)
  {
    row.(tempMin := f.tempMin, tempMax := f.tempMax, description := f.description,
         windKmh := f.windKmh, windDirection := f.windDirection, visibility := f.visibility)
  }

  /** A new row for a summary: the given identity and crossing, and every field of the summary. */
  function NewRow(id: nat, pasoId: nat, f: DailyForecast): (r: ForecastRow)
    ensures r.id == id && HasKey(r, pasoId, f.date) && Agrees(r, f)
  {
    ForecastRow(id, pasoId, f.date, f.tempMin, f.tempMax, f.description, f.windKmh, f.windDirection, f.visibility)
  }

  /** One iteration of the upsert loop. */
  function Upsert(t: Table, pasoId: nat, f: DailyForecast): Table
  {
    match IndexOf(t.rows, pasoId, f.date)
    case Some(i) => Table(t.rows[i := Overwrite(t.rows[i], f)], t.nextId)
    case None => Table(t.rows + [NewRow(t.nextId, pasoId, f)], t.nextId + 1)
  }

  /** The whole upsert loop, over the days in order. */
  function UpsertAll(t: Table, pasoId: nat, fs: seq<DailyForecast>): Table
  {
    if fs == [] then t else Upsert(UpsertAll(t, pasoId, fs[..|fs| - 1]), pasoId, fs[|fs| - 1])
  }

  /** What the feed request produced: no answer, or a body with or without its `list` of samples. */
  datatype FeedResponse = Unreachable | Received(list: Option<seq<Sample>>)

  /** The job's report. */
  datatype SyncOutcome =
    | ConnectionFailed
    | InvalidResponse
    | NoData
    | Saved(days: nat)
    | StorageFailed

  /** A report together with the table it leaves. */
  datatype SyncRun = SyncRun(outcome: SyncOutcome, table: Table)

  /**
   * `_actualizar_pronostico` for crossing `pasoId`: the checks in order, then
   * the upserts, kept only if the commit succeeds (`commitOk`).
   */
  function ForecastSync(t: Table, pasoId: nat, response: FeedResponse, localDate: int -> Date, commitOk: bool): SyncRun
  {
    match response
    case Unreachable => SyncRun(ConnectionFailed, t)
    case Received(None) => SyncRun(InvalidResponse, t)
    case Received(Some(samples)) =>
      var fs := DailyForecasts(samples, localDate);
      if fs == [] then SyncRun(NoData, t)
      else if !commitOk then SyncRun(StorageFailed, t)
      else SyncRun(Saved(|fs|), UpsertAll(t, pasoId, fs))
  }

  // ---------------------------------------------------------------------
  // Upsert by key
  // ---------------------------------------------------------------------

  /** The key of a row and its aggregate fields agree with the summary. */
  ghost predicate Holds(t: Table, pasoId: nat, f: DailyForecast)
  {
    var r := IndexOf(t.rows, pasoId, f.date);
    r.Some? && Agrees(t.rows[r.value], f)
  }

  /**
   * An upsert overwrites the row with the key in place, keeping its identity,
   * or appends exactly one new row when there is none; no other row changes.
   */
  lemma UpsertFrame(t: Table, pasoId: nat, f: DailyForecast)
    ensures var t' := Upsert(t, pasoId, f);
            |t'.rows| == |t.rows| + (if IndexOf(t.rows, pasoId, f.date).None? then 1 else 0)
    ensures var t' := Upsert(t, pasoId, f);
            forall k :: 0 <= k < |t.rows| ==>
              && t'.rows[k].id == t.rows[k].id
              && t'.rows[k].pasoId == t.rows[k].pasoId
              && t'.rows[k].date == t.rows[k].date
              && (!HasKey(t.rows[k], pasoId, f.date) ==> t'.rows[k] == t.rows[k])
    ensures var t' := Upsert(t, pasoId, f);
            IndexOf(t.rows, pasoId, f.date).None? ==>
              t'.rows[|t.rows|] == NewRow(t.nextId, pasoId, f) && t'.nextId == t.nextId + 1
    ensures IndexOf(t.rows, pasoId, f.date).Some? ==> Upsert(t, pasoId, f).nextId == t.nextId
  {
  }

  /** After an upsert the summary's row is found and agrees with it. */
  lemma UpsertEstablishes(t: Table, pasoId: nat, f: DailyForecast)
    ensures Holds(Upsert(t, pasoId, f), pasoId, f)
  {
    var t' := Upsert(t, pasoId, f);
    UpsertFrame(t, pasoId, f);
    var r := IndexOf(t.rows, pasoId, f.date);
    if r.Some? {
      assert forall k :: 0 <= k < r.value ==> !HasKey(t'.rows[k], pasoId, f.date);
      assert IndexOf(t'.rows, pasoId, f.date) == r;
    } else {
      assert forall k :: 0 <= k < |t.rows| ==> !HasKey(t'.rows[k], pasoId, f.date);
      assert IndexOf(t'.rows, pasoId, f.date) == Some(|t.rows|);
    }
  }

  /** An upsert for another date leaves a summary that held still holding. */
  lemma UpsertKeepsHolds(t: Table, pasoId: nat, f: DailyForecast, g: DailyForecast)
    requires Holds(t, pasoId, g) && g.date != f.date
    ensures Holds(Upsert(t, pasoId, f), pasoId, g)
  {
    var t' := Upsert(t, pasoId, f);
    UpsertFrame(t, pasoId, f);
    var i := IndexOf(t.rows, pasoId, g.date).value;
    assert t'.rows[i] == t.rows[i];
    assert forall k :: 0 <= k < i ==> !HasKey(t'.rows[k], pasoId, g.date);
    IndexOfFirst(t'.rows, pasoId, g.date, i);
  }

  /** Upserting a summary that already holds changes nothing. */
  lemma UpsertNoOp(t: Table, pasoId: nat, f: DailyForecast)
    requires Holds(t, pasoId, f)
    ensures Upsert(t, pasoId, f) == t
  {
    var i := IndexOf(t.rows, pasoId, f.date).value;
    assert Overwrite(t.rows[i], f) == t.rows[i];
    assert t.rows[i := t.rows[i]] == t.rows;
  }

  /** An upsert keeps the table well formed. */
  lemma UpsertPreservesWellFormed(t: Table, pasoId: nat, f: DailyForecast)
    requires WellFormed(t)
    ensures WellFormed(Upsert(t, pasoId, f))
  {
    UpsertFrame(t, pasoId, f);
    var t' := Upsert(t, pasoId, f);
    if IndexOf(t.rows, pasoId, f.date).None? {
      forall i, j | 0 <= i < j < |t'.rows|
        ensures !HasKey(t'.rows[j], t'.rows[i].pasoId, t'.rows[i].date) && t'.rows[i].id != t'.rows[j].id
      {
        if j == |t.rows| {
          assert !HasKey(t.rows[i], pasoId, f.date);
        }
      }
    }
  }

  /** Days with pairwise different dates. */
  predicate DistinctDates(fs: seq<DailyForecast>)
  {
    forall i, j :: 0 <= i < j < |fs| ==> fs[i].date != fs[j].date
  }

  /** After the upsert loop over days with different dates, every day's row holds. */
  lemma {:induction false} UpsertAllEstablishes(t: Table, pasoId: nat, fs: seq<DailyForecast>)
    requires DistinctDates(fs)
    ensures forall k :: 0 <= k < |fs| ==> Holds(UpsertAll(t, pasoId, fs), pasoId, fs[k])
  {
    if fs != [] {
      var p, f := fs[..|fs| - 1], fs[|fs| - 1];
      var before := UpsertAll(t, pasoId, p);
      UpsertAllEstablishes(t, pasoId, p);
      UpsertEstablishes(before, pasoId, f);
      forall k | 0 <= k < |p|
        ensures Holds(UpsertAll(t, pasoId, fs), pasoId, fs[k])
      {
        assert fs[k] == p[k];
        UpsertKeepsHolds(before, pasoId, f, p[k]);
      }
    }
  }

  /** The upsert loop changes nothing when every day's row already holds. */
  lemma {:induction false} UpsertAllNoOp(t: Table, pasoId: nat, fs: seq<DailyForecast>)
    requires forall k :: 0 <= k < |fs| ==> Holds(t, pasoId, fs[k])
    ensures UpsertAll(t, pasoId, fs) == t
  {
    if fs != [] {
      var p := fs[..|fs| - 1];
      assert forall k :: 0 <= k < |p| ==> p[k] == fs[k];
      UpsertAllNoOp(t, pasoId, p);
      UpsertNoOp(t, pasoId, fs[|fs| - 1]);
    }
  }

  /** Running the upsert loop twice over the same days is running it once. */
  lemma UpsertAllIdempotent(t: Table, pasoId: nat, fs: seq<DailyForecast>)
    requires DistinctDates(fs)
    ensures UpsertAll(UpsertAll(t, pasoId, fs), pasoId, fs) == UpsertAll(t, pasoId, fs)
  {
    UpsertAllEstablishes(t, pasoId, fs);
    UpsertAllNoOp(UpsertAll(t, pasoId, fs), pasoId, fs);
  }

  /** A date not among the days. */
  predicate NotAmong(date: Date, fs: seq<DailyForecast>)
  {
    forall k :: 0 <= k < |fs| ==> fs[k].date != date
  }

  /**
   * The upsert loop keeps every existing row's identity and key, leaves rows
   * of other crossings and other dates untouched, adds at most one row per
   * day, and keeps the table well formed.
   */
  lemma {:induction false} UpsertAllFrame(t: Table, pasoId: nat, fs: seq<DailyForecast>)
    requires WellFormed(t)
    ensures var t' := UpsertAll(t, pasoId, fs);
            && WellFormed(t')
            && |t.rows| <= |t'.rows| <= |t.rows| + |fs|
            && forall k :: 0 <= k < |t.rows| ==>
                 && t'.rows[k].id == t.rows[k].id
                 && t'.rows[k].pasoId == t.rows[k].pasoId
                 && t'.rows[k].date == t.rows[k].date
                 && (t.rows[k].pasoId != pasoId || NotAmong(t.rows[k].date, fs) ==> t'.rows[k] == t.rows[k])
  {
    if fs != [] {
      var p, f := fs[..|fs| - 1], fs[|fs| - 1];
      var before := UpsertAll(t, pasoId, p);
      UpsertAllFrame(t, pasoId, p);
      UpsertFrame(before, pasoId, f);
      UpsertPreservesWellFormed(before, pasoId, f);
      forall k | 0 <= k < |t.rows| && NotAmong(t.rows[k].date, fs)
        ensures NotAmong(t.rows[k].date, p)
      {
        assert forall m :: 0 <= m < |p| ==> p[m] == fs[m];
      }
    }
  }

  // ---------------------------------------------------------------------
  // The synchronisation job
  // ---------------------------------------------------------------------

  /**
   * An unreachable feed, a body without `list`, a feed with no days and a
   * failed commit each leave the table exactly as it was.
   */
  lemma SyncFailuresWriteNothing(t: Table, pasoId: nat, response: FeedResponse, localDate: int -> Date, commitOk: bool)
    ensures var run := ForecastSync(t, pasoId, response, localDate, commitOk);
            !run.outcome.Saved? ==> run.table == t
    ensures ForecastSync(t, pasoId, Unreachable, localDate, commitOk).outcome == ConnectionFailed
    ensures ForecastSync(t, pasoId, Received(None), localDate, commitOk).outcome == InvalidResponse
    ensures ForecastSync(t, pasoId, Received(Some([])), localDate, commitOk).outcome == NoData
    ensures ForecastSync(t, pasoId, response, localDate, false).table == t
  {
    DailyForecastsEmptyIff([], localDate);
  }

  /** A saved run reports between one and four days, one per distinct date of the feed. */
  lemma SyncSavedDays(t: Table, pasoId: nat, samples: seq<Sample>, localDate: int -> Date)
    ensures var run := ForecastSync(t, pasoId, Received(Some(samples)), localDate, true);
            run.outcome.Saved? <==> samples != []
    ensures var run := ForecastSync(t, pasoId, Received(Some(samples)), localDate, true);
            run.outcome.Saved? ==>
              && 1 <= run.outcome.days <= Horizon
              && run.outcome.days == |DailyForecasts(samples, localDate)|
              && (forall k :: 0 <= k < |DailyForecasts(samples, localDate)| ==>
                    Holds(run.table, pasoId, DailyForecasts(samples, localDate)[k]))
  {
    DailyForecastsEmptyIff(samples, localDate);
    DailyForecastsShape(samples, localDate);
    DailyForecastDatesDistinct(samples, localDate);
    UpsertAllEstablishes(t, pasoId, DailyForecasts(samples, localDate));
  }

  /** A run keeps the table well formed, and leaves other crossings' rows as they were. */
  lemma SyncPreservesTable(t: Table, pasoId: nat, response: FeedResponse, localDate: int -> Date, commitOk: bool)
    requires WellFormed(t)
    ensures var t' := ForecastSync(t, pasoId, response, localDate, commitOk).table;
            && WellFormed(t')
            && |t.rows| <= |t'.rows| <= |t.rows| + Horizon
            && forall k :: 0 <= k < |t.rows| ==>
                 t'.rows[k].id == t.rows[k].id && (t.rows[k].pasoId != pasoId ==> t'.rows[k] == t.rows[k])
  {
    if response.Received? && response.list.Some? {
      var fs := DailyForecasts(response.list.value, localDate);
      DailyForecastsShape(response.list.value, localDate);
      UpsertAllFrame(t, pasoId, fs);
    }
  }

  /** Running the job twice on the same feed leaves the table as running it once. */
  lemma SyncIdempotent(t: Table, pasoId: nat, response: FeedResponse, localDate: int -> Date, commitOk: bool)
    ensures var once := ForecastSync(t, pasoId, response, localDate, commitOk);
            ForecastSync(once.table, pasoId, response, localDate, commitOk).table == once.table
    ensures var once := ForecastSync(t, pasoId, response, localDate, commitOk);
            ForecastSync(once.table, pasoId, response, localDate, commitOk).outcome == once.outcome
  {
    if response.Received? && response.list.Some? {
      var fs := DailyForecasts(response.list.value, localDate);
      DailyForecastDatesDistinct(response.list.value, localDate);
      UpsertAllIdempotent(t, pasoId, fs);
    }
  }

  // ---------------------------------------------------------------------
  // Reading the latest days
  // ---------------------------------------------------------------------

  /** The rows of one crossing, in table order. */
  function OfPass(rows: seq<ForecastRow>, pasoId: nat): (r: seq<ForecastRow>)
    ensures forall x | x in r :: x in rows && x.pasoId == pasoId
    ensures forall k :: 0 <= k < |rows| && rows[k].pasoId == pasoId ==> rows[k] in r
    ensures |r| <= |rows|
  {
    if rows == [] then []
    else
      var rest := OfPass(rows[1..], pasoId);
      assert forall k :: 1 <= k < |rows| ==> rows[k] == rows[1..][k - 1];
      if rows[0].pasoId == pasoId then [rows[0]] + rest else rest
  }

  /** The filter keeps every row of the crossing exactly as often as it is stored, and no other row. */
  lemma {:induction false} OfPassCounts(rows: seq<ForecastRow>, pasoId: nat)
    ensures forall x :: multiset(OfPass(rows, pasoId))[x] == if x.pasoId == pasoId then multiset(rows)[x] else 0
    ensures multiset(OfPass(rows, pasoId)) <= multiset(rows)
  {
    if rows != [] {
      var h, t := rows[0], rows[1..];
      OfPassCounts(t, pasoId);
      assert rows == [h] + t;
      assert multiset(rows) == multiset{h} + multiset(t);
      if h.pasoId == pasoId {
        assert OfPass(rows, pasoId) == [h] + OfPass(t, pasoId);
        assert multiset(OfPass(rows, pasoId)) == multiset{h} + multiset(OfPass(t, pasoId));
      } else {
        assert OfPass(rows, pasoId) == OfPass(t, pasoId);
      }
    }
  }

  /** Latest date first. */
  predicate NewestFirst(xs: seq<ForecastRow>)
  {
    forall i, j :: 0 <= i < j < |xs| ==> xs[i].date >= xs[j].date
  }

  /** Insert a row into a newest-first list. */
  function InsertNewestFirst(x: ForecastRow, xs: seq<ForecastRow>): (r: seq<ForecastRow>)
    requires NewestFirst(xs)
    ensures NewestFirst(r)
    ensures multiset(r) == multiset(xs) + multiset{x}
  {
    if xs == [] || x.date >= xs[0].date then [x] + xs
    else
      var rest := InsertNewestFirst(x, xs[1..]);
      assert xs == [xs[0]] + xs[1..];
      HeadIsNewest(x, xs, rest);
      ConsNewestFirst(xs[0], rest);
      [xs[0]] + rest
  }

  /** A row no older than every row of a newest-first list can go in front of it. */
  lemma ConsNewestFirst(h: ForecastRow, rest: seq<ForecastRow>)
    requires NewestFirst(rest)
    requires forall k :: 0 <= k < |rest| ==> rest[k].date <= h.date
    ensures NewestFirst([h] + rest)
  {
    var r := [h] + rest;
    forall i, j | 0 <= i < j < |r|
      ensures r[i].date >= r[j].date
    {
      assert r[j] == rest[j - 1];
      assert i > 0 ==> r[i] == rest[i - 1];
    }
  }

  /** What is inserted behind an older head stays behind it. */
  lemma HeadIsNewest(x: ForecastRow, xs: seq<ForecastRow>, rest: seq<ForecastRow>)
    requires xs != [] && NewestFirst(xs) && x.date < xs[0].date
    requires multiset(rest) == multiset(xs[1..]) + multiset{x}
    ensures forall k :: 0 <= k < |rest| ==> rest[k].date <= xs[0].date
  {
    forall k | 0 <= k < |rest|
      ensures rest[k].date <= xs[0].date
    {
      assert rest[k] in multiset(rest);
      if rest[k] != x {
        assert rest[k] in multiset(xs[1..]);
        var j :| 0 <= j < |xs[1..]| && xs[1..][j] == rest[k];
        assert xs[j + 1] == rest[k];
      }
    }
  }

  /** `order_by(fecha_pronostico.desc())`. */
  function SortNewestFirst(xs: seq<ForecastRow>): (r: seq<ForecastRow>)
    ensures NewestFirst(r)
    ensures multiset(r) == multiset(xs)
  {
    if xs == [] then []
    else
      assert xs == [xs[0]] + xs[1..];
      InsertNewestFirst(xs[0], SortNewestFirst(xs[1..]))
  }

  /** `list.reverse()`. */
  function Reverse<T>(xs: seq<T>): (r: seq<T>)
    ensures |r| == |xs|
    ensures forall k :: 0 <= k < |xs| ==> r[k] == xs[|xs| - 1 - k]
    ensures multiset(r) == multiset(xs)
  {
    if xs == [] then []
    else
      assert xs == [xs[0]] + xs[1..];
      Reverse(xs[1..]) + [xs[0]]
  }

  /** The answer of the read endpoint. */
  datatype ForecastRead = NoForecasts | Forecasts(days: seq<ForecastRow>)

  /** `get_pronostico`: the four latest days of the crossing, earliest first; 404 when it has none. */
  function GetForecast(rows: seq<ForecastRow>, pasoId: nat): ForecastRead
  {
    var mine := OfPass(rows, pasoId);
    if mine == [] then NoForecasts else Forecasts(Reverse(Take(SortNewestFirst(mine), Horizon)))
  }

  /** The read reports none (a 404) exactly when the crossing has no rows. */
  lemma GetForecastEmptyIff(rows: seq<ForecastRow>, pasoId: nat)
    ensures GetForecast(rows, pasoId).NoForecasts? <==> forall k :: 0 <= k < |rows| ==> rows[k].pasoId != pasoId
  {
    var mine := OfPass(rows, pasoId);
    if mine != [] {
      var x := mine[0];
      assert x in mine;
    }
  }

  /** The read gives as many rows as the crossing has, up to four. */
  lemma GetForecastSize(rows: seq<ForecastRow>, pasoId: nat)
    ensures GetForecast(rows, pasoId).Forecasts? ==>
              var r := GetForecast(rows, pasoId).days;
              && 1 <= |r| <= Horizon
              && |r| == (if |OfPass(rows, pasoId)| <= Horizon then |OfPass(rows, pasoId)| else Horizon)
  {
    var mine := OfPass(rows, pasoId);
    var sorted := SortNewestFirst(mine);
    assert |sorted| == |mine| by {
      assert |multiset(sorted)| == |multiset(mine)|;
    }
  }

  /** The rows read are in ascending date order. */
  lemma GetForecastAscending(rows: seq<ForecastRow>, pasoId: nat)
    ensures GetForecast(rows, pasoId).Forecasts? ==>
              var r := GetForecast(rows, pasoId).days;
              forall i, j :: 0 <= i < j < |r| ==> r[i].date <= r[j].date
  {
    TopReversedAscending(SortNewestFirst(OfPass(rows, pasoId)), Horizon);
  }

  /**
   * The rows read are rows of the crossing, each read at most as often as
   * it is stored: no row is repeated.
   */
  lemma GetForecastFromPass(rows: seq<ForecastRow>, pasoId: nat)
    ensures GetForecast(rows, pasoId).Forecasts? ==>
              forall x | x in GetForecast(rows, pasoId).days :: x in rows && x.pasoId == pasoId
    ensures GetForecast(rows, pasoId).Forecasts? ==>
              multiset(GetForecast(rows, pasoId).days) <= multiset(OfPass(rows, pasoId))
    ensures GetForecast(rows, pasoId).Forecasts? ==>
              multiset(GetForecast(rows, pasoId).days) <= multiset(rows)
  {
    var mine := OfPass(rows, pasoId);
    var sorted := SortNewestFirst(mine);
    TopReversedFromList(sorted, Horizon);
    TopReversedCounts(sorted, Horizon);
    OfPassCounts(rows, pasoId);
    forall x | x in sorted
      ensures x in mine
    {
      assert x in multiset(mine);
    }
  }

  /** Any row of the crossing that the read leaves out is no later than every row it gives. */
  lemma GetForecastKeepsLatest(rows: seq<ForecastRow>, pasoId: nat, k: nat)
    requires k < |rows| && rows[k].pasoId == pasoId
    ensures GetForecast(rows, pasoId).Forecasts?
    ensures var r := GetForecast(rows, pasoId).days;
            rows[k] in r || forall m :: 0 <= m < |r| ==> rows[k].date <= r[m].date
  {
    var mine := OfPass(rows, pasoId);
    var sorted := SortNewestFirst(mine);
    assert rows[k] in mine;
    assert rows[k] in multiset(sorted);
    LeftOutAreOlder(sorted, Horizon, rows[k]);
  }

  /** The first `n` of a newest-first list, reversed, are in ascending date order. */
  lemma TopReversedAscending(sorted: seq<ForecastRow>, n: nat)
    requires NewestFirst(sorted)
    ensures var r := Reverse(Take(sorted, n));
            forall i, j :: 0 <= i < j < |r| ==> r[i].date <= r[j].date
  {
    var top := Take(sorted, n);
    var r := Reverse(top);
    forall i, j | 0 <= i < j < |r|
      ensures r[i].date <= r[j].date
    {
      assert r[i] == sorted[|top| - 1 - i] && r[j] == sorted[|top| - 1 - j];
    }
  }

  /** The first `n` of a list, reversed, hold none of its elements more often than the list does. */
  lemma TopReversedCounts(sorted: seq<ForecastRow>, n: nat)
    ensures multiset(Reverse(Take(sorted, n))) <= multiset(sorted)
  {
    var top := Take(sorted, n);
    assert sorted == top + sorted[|top|..];
    assert multiset(sorted) == multiset(top) + multiset(sorted[|top|..]);
  }

  /** The first `n` of a list, reversed, come from the list. */
  lemma TopReversedFromList(sorted: seq<ForecastRow>, n: nat)
    ensures forall x | x in Reverse(Take(sorted, n)) :: x in sorted
  {
    var top := Take(sorted, n);
    var r := Reverse(top);
    forall x | x in r
      ensures x in sorted
    {
      var m :| 0 <= m < |r| && r[m] == x;
      assert x == sorted[|top| - 1 - m];
    }
  }

  /** What a newest-first list has beyond its first `n` is no later than any of them. */
  lemma LeftOutAreOlder(sorted: seq<ForecastRow>, n: nat, x: ForecastRow)
    requires NewestFirst(sorted) && x in sorted
    ensures var r := Reverse(Take(sorted, n));
            x in r || forall m :: 0 <= m < |r| ==> x.date <= r[m].date
  {
    var top := Take(sorted, n);
    var r := Reverse(top);
    var j :| 0 <= j < |sorted| && sorted[j] == x;
    if j < |top| {
      assert r[|top| - 1 - j] == x;
    } else {
      forall m | 0 <= m < |r|
        ensures x.date <= r[m].date
      {
        assert r[m] == sorted[|top| - 1 - m];
      }
    }
  }

  // ---------------------------------------------------------------------
  // The table as the application holds it
  // ---------------------------------------------------------------------

  /** The `PronosticoDiario` table. */
  class ForecastTable {
    var rows: seq<ForecastRow>
    var nextId: nat

    function State(): Table
      reads this
    {
      Table(rows, nextId)
    }

    ghost predicate Valid()
      reads this
    {
      WellFormed(State())
    }

    /** An empty table. */
    constructor ()
      ensures rows == [] && nextId == 0 && Valid()
    {
      rows := [];
      nextId := 0;
    }

    /** The lookup of the row for a crossing and a date. */
    method Find(pasoId: nat, date: Date) returns (r: Option<nat>)
      ensures r == IndexOf(rows, pasoId, date)
    {
      var i := 0;
      while i < |rows|
        invariant 0 <= i <= |rows|
        invariant forall k :: 0 <= k < i ==> !HasKey(rows[k], pasoId, date)
      {
        if HasKey(rows[i], pasoId, date) {
          IndexOfFirst(rows, pasoId, date, i);
          return Some(i);
        }
        i := i + 1;
      }
      r := None;
    }

    /** One iteration of the upsert loop: overwrite the day's row, or add it. */
    method UpsertDay(pasoId: nat, f: DailyForecast)
      modifies this
      ensures State() == Upsert(old(State()), pasoId, f)
    {
      var existing := Find(pasoId, f.date);
      if existing.Some? {
        var i := existing.value;
        rows := rows[i := Overwrite(rows[i], f)];
      } else {
        rows := rows + [NewRow(nextId, pasoId, f)];
        nextId := nextId + 1;
      }
    }

    /**
     * `_actualizar_pronostico`: check the response, aggregate it, upsert every
     * day, and roll everything back when the commit fails.
     */
    method Sync(pasoId: nat, response: FeedResponse, localDate: int -> Date, commitOk: bool)
      returns (outcome: SyncOutcome)
      requires Valid()
      modifies this
      ensures SyncRun(outcome, State()) == ForecastSync(old(State()), pasoId, response, localDate, commitOk)
      ensures Valid()
    {
      SyncPreservesTable(State(), pasoId, response, localDate, commitOk);
      if response.Unreachable? {
        outcome := ConnectionFailed;
      } else if response.list.None? {
        outcome := InvalidResponse;
      } else {
        var fs := ProcessForecast(response.list.value, localDate);
        if fs == [] {
          outcome := NoData;
        } else {
          SaveDays(pasoId, fs, commitOk);
          outcome := if commitOk then Saved(|fs|) else StorageFailed;
        }
      }
    }

    /** Upsert every day in order, then keep the result only if the commit succeeds. */
    method SaveDays(pasoId: nat, fs: seq<DailyForecast>, commitOk: bool)
      modifies this
      ensures State() == if commitOk then UpsertAll(old(State()), pasoId, fs) else old(State())
    {
      var savedRows, savedNextId := rows, nextId;
      var k := 0;
      while k < |fs|
        invariant 0 <= k <= |fs|
        invariant State() == UpsertAll(old(State()), pasoId, fs[..k])
      {
        assert fs[..k + 1][..k] == fs[..k];
        UpsertDay(pasoId, fs[k]);
        k := k + 1;
      }
      assert fs[..k] == fs;
      if !commitOk {
        rows, nextId := savedRows, savedNextId;
      }
    }
  }

  /** A first match found by a scan is the first index with the key. */
  lemma IndexOfFirst(rows: seq<ForecastRow>, pasoId: nat, date: Date, i: nat)
    requires i < |rows| && HasKey(rows[i], pasoId, date)
    requires forall k :: 0 <= k < i ==> !HasKey(rows[k], pasoId, date)
    ensures IndexOf(rows, pasoId, date) == Some(i)
  {
    var r := IndexOf(rows, pasoId, date);
    assert r.Some?;
    assert !(r.value < i);
  }

  /**
   * `actualizar_automatico`: without any crossing there is nothing to do and
   * no forecast is written; otherwise the job runs for the first crossing.
   */
  method AutoSync(passes: StatusStore.PasoTable, forecasts: ForecastTable, response: FeedResponse,
                  localDate: int -> Date, commitOk: bool)
    returns (r: Option<SyncOutcome>)
    requires forecasts.Valid()
    modifies forecasts
    ensures forecasts.Valid()
    ensures passes.rows == [] ==> r.None? && forecasts.State() == old(forecasts.State())
    ensures passes.rows != [] ==>
              r.Some? &&
              SyncRun(r.value, forecasts.State()) ==
              ForecastSync(old(forecasts.State()), passes.rows[0].id, response, localDate, commitOk)
  {
    var first := passes.First();
    if first.None? {
      return None;
    }
    var outcome := forecasts.Sync(first.value.id, response, localDate, commitOk);
    r := Some(outcome);
  }
}
