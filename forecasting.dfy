/**
 * Per-station forecasting and assembly in `forecast_pm25`
 * (work/myflow/test_ml.py:40-103). The model fit is a parameter: a total
 * function from a station's time-sorted series to either the predicted
 * means or an error.
 */
module Forecasting {
  import opened Wrappers
  import opened Sequences
  import opened Cleaning
  import opened Ranking

  /** `n_predictions`. */
  const Horizon: nat := 6
  /** `min_observations`. */
  const MinObservations: nat := 4

  /** One observation of a station's series: timestamp index and value. */
  datatype Point = Point(timestamp: int, value: Option<real>)

  /** A forecast row: `Horizon` cells, `None` where no forecast is available. */
  type Row = seq<Option<real>>

  /** The fit-and-forecast step (ARIMA(1,0,1), `get_forecast(steps=6)`):
      the predicted means, of any length, or the error it raised. */
  type Model = seq<Point> -> Result<seq<real>, string>

  // ---------------------------------------------------------------- series

  /** The rows of station `loc`, in table order. */
  function StationRows(t: seq<Record>, loc: string): (r: seq<Record>)
    ensures forall x :: x in r <==> x in t && x.station == loc
  {
    FilterMembershipAll(t, (x: Record) => x.station == loc);
    Filter(t, (x: Record) => x.station == loc)
  }

  function ToPoints(rows: seq<Record>): (r: seq<Point>)
    ensures |r| == |rows|
  {
    seq(|rows|, i requires 0 <= i < |rows| => Point(rows[i].timestamp, rows[i].value))
  }

  predicate SortedByTime(s: seq<Point>) {
    forall i, j :: 0 <= i < j < |s| ==> s[i].timestamp <= s[j].timestamp
  }

  /** Inserts `p` before the first point with a later or equal timestamp. */
  function InsertByTime(p: Point, s: seq<Point>): (r: seq<Point>)
    ensures multiset(r) == multiset(s) + multiset{p}
    ensures |r| == |s| + 1
    ensures forall x :: x in r <==> x == p || x in s
    decreases |s|
  {
    if s == [] || p.timestamp <= s[0].timestamp then [p] + s
    else
      assert s == [s[0]] + s[1..];
      [s[0]] + InsertByTime(p, s[1..])
  }

  /** Stable sort by timestamp (`sort_index`). */
  function SortByTime(s: seq<Point>): (r: seq<Point>)
    ensures multiset(r) == multiset(s)
    ensures |r| == |s|
    decreases |s|
  {
    if s == [] then []
    else
      assert s == [s[0]] + s[1..];
      InsertByTime(s[0], SortByTime(s[1..]))
  }

  lemma {:induction false} InsertKeepsSorted(p: Point, s: seq<Point>)
    requires SortedByTime(s)
    ensures SortedByTime(InsertByTime(p, s))
    decreases |s|
  {
    if s != [] && p.timestamp > s[0].timestamp {
      var tail := InsertByTime(p, s[1..]);
      assert SortedByTime(s[1..]);
      InsertKeepsSorted(p, s[1..]);
      assert forall x :: x in tail ==> s[0].timestamp <= x.timestamp by {
        forall x | x in tail ensures s[0].timestamp <= x.timestamp {
          if x != p {
            var k :| 0 <= k < |s[1..]| && s[1..][k] == x;
            assert s[k + 1] == x;
          }
        }
      }
      var r := [s[0]] + tail;
      assert r == InsertByTime(p, s);
      forall i, j | 0 <= i < j < |r| ensures r[i].timestamp <= r[j].timestamp {
        assert r[j] == tail[j - 1];
        if i == 0 {
          assert tail[j - 1] in tail;
        } else {
          assert r[i] == tail[i - 1];
        }
      }
    }
  }

  lemma {:induction false} SortIsSorted(s: seq<Point>)
    ensures SortedByTime(SortByTime(s))
    decreases |s|
  {
    if s != [] {
      SortIsSorted(s[1..]);
      InsertKeepsSorted(s[0], SortByTime(s[1..]));
    }
  }

  /** `location_data`: the station's points sorted by time. */
  function Series(t: seq<Record>, loc: string): seq<Point> {
    SortByTime(ToPoints(StationRows(t, loc)))
  }

  /** The series of a station is sorted by time, has one point per row of
      that station, and holds exactly those rows' timestamps and values. */
  lemma SeriesProperties(t: seq<Record>, loc: string)
    ensures SortedByTime(Series(t, loc))
    ensures |Series(t, loc)| == |StationRows(t, loc)|
    ensures multiset(Series(t, loc)) == multiset(ToPoints(StationRows(t, loc)))
    ensures forall p :: p in Series(t, loc) ==> Record(p.timestamp, loc, p.value) in t
  {
    var rows := StationRows(t, loc);
    SortIsSorted(ToPoints(rows));
    forall p | p in Series(t, loc) ensures Record(p.timestamp, loc, p.value) in t {
      assert p in multiset(ToPoints(rows));
      var k :| 0 <= k < |rows| && ToPoints(rows)[k] == p;
      assert rows[k] in rows;
      assert rows[k] == Record(p.timestamp, loc, p.value);
    }
  }

  // ------------------------------------------------------------- one station

  /** `[None] * n_predictions`. */
  function Unavailable(): (r: Row)
    ensures |r| == Horizon && forall i :: 0 <= i < Horizon ==> r[i] == None
  {
    seq(Horizon, i => None)
  }

  /** The fitted means as a row: taken as they are when there are exactly
      `Horizon` of them, otherwise reindexed to positions `0..Horizon-1`. */
  function ForecastRow(values: seq<real>): (r: Row)
    ensures |r| == Horizon
    ensures forall i :: 0 <= i < Horizon ==>
              r[i] == if i < |values| then Some(values[i]) else None
  {
    if |values| == Horizon then seq(Horizon, i requires 0 <= i < Horizon => Some(values[i]))
    else seq(Horizon, i requires 0 <= i < Horizon => if i < |values| then Some(values[i]) else None)
  }

  /** Where one station's result goes: into the top-5 dictionary, into the
      other dictionary, or nowhere. */
  datatype Placement = TopRow(row: Row) | OtherRow(row: Row) | NoRow

  /** The loop body for one station. */
  function Place(t: seq<Record>, top: seq<string>, fit: Model, loc: string): Placement {
    var series := Series(t, loc);
    if |series| < MinObservations then
      if loc in top then NoRow else OtherRow(Unavailable())
    else
      match fit(series)
      case Ok(values) =>
        if loc in top then TopRow(ForecastRow(values)) else OtherRow(ForecastRow(values))
      case Err(_) =>
        if loc in top then NoRow else OtherRow(Unavailable())
  }

  /** A station outside the top list always gets a row; a top station gets one
      only when its series is long enough and its fit succeeds; every row has
      `Horizon` cells, holding the fitted means when there are any and
      `None` throughout on the short-series and fit-error paths. */
  lemma PlaceCases(t: seq<Record>, top: seq<string>, fit: Model, loc: string)
    ensures Place(t, top, fit, loc).OtherRow? <==> loc !in top
    ensures Place(t, top, fit, loc).TopRow? <==>
              loc in top && |Series(t, loc)| >= MinObservations && fit(Series(t, loc)).Ok?
    ensures !Place(t, top, fit, loc).NoRow? ==>
              |Place(t, top, fit, loc).row| == Horizon &&
              Place(t, top, fit, loc).row ==
                if |Series(t, loc)| >= MinObservations && fit(Series(t, loc)).Ok?
                then ForecastRow(fit(Series(t, loc)).value) else Unavailable()
  {
  }

  // ------------------------------------------------------ ordered dictionary

  /** A Python dict: its keys in insertion order, and the key-value map. */
  datatype Dict = Dict(keys: seq<string>, entries: map<string, Row>)

  ghost predicate ValidDict(d: Dict) {
    Distinct(d.keys) && forall k :: k in d.entries <==> k in d.keys
  }

  const EmptyDict := Dict([], map[])

  /** `d[k] = v`: a new key goes to the end, an existing key keeps its place. */
  function Put(d: Dict, k: string, v: Row): (r: Dict)
    requires ValidDict(d)
    ensures ValidDict(r)
    ensures r.entries == d.entries[k := v]
    ensures r.keys == if k in d.entries then d.keys else d.keys + [k]
  {
    if k in d.entries then Dict(d.keys, d.entries[k := v])
    else Dict(d.keys + [k], d.entries[k := v])
  }

  /** The items in insertion order (what `DataFrame.from_dict` turns into rows). */
  function Items(d: Dict): (r: seq<(string, Row)>)
    requires ValidDict(d)
    ensures |r| == |d.keys|
  {
    seq(|d.keys|, i requires 0 <= i < |d.keys| => (d.keys[i], d.entries[d.keys[i]]))
  }

  lemma PutNewKey(d: Dict, k: string, v: Row)
    requires ValidDict(d) && k !in d.entries
    ensures Items(Put(d, k, v)) == Items(d) + [(k, v)]
  {
    var a := Items(Put(d, k, v));
    var b := Items(d) + [(k, v)];
    forall i | 0 <= i < |a| ensures a[i] == b[i] {
      if i < |d.keys| {
        assert d.keys[i] in d.entries;
      }
    }
  }

  // ------------------------------------------------------- the station loop

  /** The loop body as a function of the station alone. */
  function Placer(t: seq<Record>, top: seq<string>, fit: Model): string -> Placement {
    loc => Place(t, top, fit, loc)
  }

  /** The items the loop leaves in one of the two dictionaries after visiting
      `locs` in order, each station placed by `place`: `wantTop` selects the
      top-5 dictionary. */
  function Collect(place: string -> Placement, locs: seq<string>, wantTop: bool): (r: seq<(string, Row)>)
    ensures |r| <= |locs|
    decreases |locs|
  {
    if locs == [] then []
    else
      var prev := Collect(place, locs[..|locs| - 1], wantTop);
      var loc := locs[|locs| - 1];
      match place(loc)
      case TopRow(r) => if wantTop then prev + [(loc, r)] else prev
      case OtherRow(r) => if wantTop then prev else prev + [(loc, r)]
      case NoRow => prev
  }

  /** The stations whose series the loop hands to the model, in order. */
  function FitCalls(t: seq<Record>, locs: seq<string>): (r: seq<string>)
    decreases |locs|
  {
    if locs == [] then []
    else
      var prev := FitCalls(t, locs[..|locs| - 1]);
      var loc := locs[|locs| - 1];
      if |Series(t, loc)| >= MinObservations then prev + [loc] else prev
  }

  /** One more station extends each dictionary by at most its own row. */
  lemma CollectSnoc(place: string -> Placement, t: seq<Record>, locs: seq<string>, i: nat)
    requires i < |locs|
    ensures Collect(place, locs[..i + 1], true) ==
              Collect(place, locs[..i], true) +
              (if place(locs[i]).TopRow? then [(locs[i], place(locs[i]).row)] else [])
    ensures Collect(place, locs[..i + 1], false) ==
              Collect(place, locs[..i], false) +
              (if place(locs[i]).OtherRow? then [(locs[i], place(locs[i]).row)] else [])
    ensures FitCalls(t, locs[..i + 1]) ==
              FitCalls(t, locs[..i]) + (if |Series(t, locs[i])| >= MinObservations then [locs[i]] else [])
  {
    assert locs[..i + 1][..i] == locs[..i];
  }

  /** The `for location in df_cleaned['nameTH'].unique()` loop. Besides the two
      dictionaries it returns the stations it fitted, in call order. */
  method ForecastStations(t: seq<Record>, top: seq<string>, fit: Model)
    returns (topForecasts: Dict, otherForecasts: Dict, fitted: seq<string>)
    ensures ValidDict(topForecasts) && ValidDict(otherForecasts)
    ensures Items(topForecasts) == Collect(Placer(t, top, fit), Stations(t), true)
    ensures Items(otherForecasts) == Collect(Placer(t, top, fit), Stations(t), false)
    ensures fitted == FitCalls(t, Stations(t))
  {
    var locations := Stations(t);
    StationsExact(t, "");
    topForecasts, otherForecasts, fitted := EmptyDict, EmptyDict, [];
    var i := 0;
    while i < |locations|
      invariant 0 <= i <= |locations|
      invariant ValidDict(topForecasts) && ValidDict(otherForecasts)
      invariant forall k :: k in topForecasts.entries ==> k in locations[..i]
      invariant forall k :: k in otherForecasts.entries ==> k in locations[..i]
      invariant Items(topForecasts) == Collect(Placer(t, top, fit), locations[..i], true)
      invariant Items(otherForecasts) == Collect(Placer(t, top, fit), locations[..i], false)
      invariant fitted == FitCalls(t, locations[..i])
    {
      var location := locations[i];
      assert location !in locations[..i];
      CollectSnoc(Placer(t, top, fit), t, locations, i);
      assert Placer(t, top, fit)(location) == Place(t, top, fit, location);
      var locationData := Series(t, location);
      if |locationData| < MinObservations {
        assert Place(t, top, fit, location) == if location in top then NoRow else OtherRow(Unavailable());
        if location !in top {
          PutNewKey(otherForecasts, location, Unavailable());
          otherForecasts := Put(otherForecasts, location, Unavailable());
        }
      } else {
        fitted := fitted + [location];
        var outcome := fit(locationData);
        match outcome
        case Ok(values) =>
          var row := ForecastRow(values);
          if location in top {
            assert Place(t, top, fit, location) == TopRow(row);
            PutNewKey(topForecasts, location, row);
            topForecasts := Put(topForecasts, location, row);
          } else {
            assert Place(t, top, fit, location) == OtherRow(row);
            PutNewKey(otherForecasts, location, row);
            otherForecasts := Put(otherForecasts, location, row);
          }
        case Err(_) =>
          assert Place(t, top, fit, location) == if location in top then NoRow else OtherRow(Unavailable());
          if location !in top {
            PutNewKey(otherForecasts, location, Unavailable());
            otherForecasts := Put(otherForecasts, location, Unavailable());
          }
      }
      i := i + 1;
    }
    assert locations[..i] == locations;
  }

  // ------------------------------------------------------------- assembly

  /** A result table: column labels, then one `(station, row)` pair per row
      in index order. */
  datatype ForecastTable = ForecastTable(columns: seq<string>, rows: seq<(string, Row)>)

  /** `pd.DataFrame()`. */
  const EmptyTable := ForecastTable([], [])

  function Digit(d: nat): char
    requires d < 10
  {
    "0123456789"[d]
  }

  /** Decimal text of `n`, as an f-string prints it. */
  function Decimal(n: nat): string
    decreases n
  {
    if n < 10 then [Digit(n)] else Decimal(n / 10) + [Digit(n % 10)]
  }

  /** `[f't+{i+1}hr' for i in range(n_predictions)]`. */
  function Labels(): (r: seq<string>)
    ensures |r| == Horizon
  {
    seq(Horizon, i requires 0 <= i < Horizon => "t+" + Decimal(i + 1) + "hr")
  }

  /** `DataFrame.from_dict(d, orient='index')` followed by relabelling the
      columns when the frame is not empty. */
  function FromItems(items: seq<(string, Row)>): ForecastTable {
    if items == [] then EmptyTable else ForecastTable(Labels(), items)
  }

  /** `pd.concat([a, b])`: rows of `a` then rows of `b`, the columns of `a`
      followed by those of `b` that `a` lacks. */
  function Concat(a: ForecastTable, b: ForecastTable): (r: ForecastTable)
    ensures r.rows == a.rows + b.rows
  {
    ForecastTable(a.columns + Filter(b.columns, c => c !in a.columns), a.rows + b.rows)
  }

  /** The table `forecast_pm25` returns for a cleaned table. */
  function ForecastSpec(t: seq<Record>, fit: Model): ForecastTable {
    if t == [] then EmptyTable
    else
      var top := Rank(t);
      Concat(FromItems(Collect(Placer(t, top, fit), Stations(t), true)),
             FromItems(Collect(Placer(t, top, fit), Stations(t), false)))
  }

  /** `forecast_pm25`: the result table and the stations whose series were
      fitted. On an empty table nothing is fitted and the result is empty. */
  method ForecastPm25(t: seq<Record>, fit: Model) returns (table: ForecastTable, fitted: seq<string>)
    ensures table == ForecastSpec(t, fit)
    ensures fitted == if t == [] then [] else FitCalls(t, Stations(t))
    ensures t == [] ==> table == EmptyTable && fitted == []
  {
    if t == [] {
      return EmptyTable, [];
    }
    var top5 := Rank(t);
    var topForecasts, otherForecasts;
    topForecasts, otherForecasts, fitted := ForecastStations(t, top5, fit);
    var allForecasts := FromItems(Items(topForecasts));
    var others := FromItems(Items(otherForecasts));
    table := Concat(allForecasts, others);
  }
}
