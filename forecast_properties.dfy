/**
 * What `forecast_pm25` (work/myflow/test_ml.py:40-103) guarantees about the
 * table it returns: uniform width and labels, one row per station at most,
 * exactly which stations get a row, the row contents, and the row order.
 */
module ForecastProperties {
  import opened Wrappers
  import opened Sequences
  import opened Cleaning
  import opened Ranking
  import opened Forecasting

  /** The row index of a table: its station names in order. */
  function Keys(items: seq<(string, Row)>): (r: seq<string>)
    ensures |r| == |items|
    ensures forall i :: 0 <= i < |items| ==> r[i] == items[i].0
  {
    seq(|items|, i requires 0 <= i < |items| => items[i].0)
  }

  predicate InGroup(p: Placement, wantTop: bool) {
    if wantTop then p.TopRow? else p.OtherRow?
  }

  /** Number of stations among `locs` that end up in neither dictionary. */
  function Dropped(place: string -> Placement, locs: seq<string>): nat
    decreases |locs|
  {
    if locs == [] then 0
    else Dropped(place, locs[..|locs| - 1]) + (if place(locs[|locs| - 1]).NoRow? then 1 else 0)
  }

  // ------------------------------------------------------------ the groups

  /** Every item of a dictionary is a visited station placed in that
      dictionary, with the row its placement computed. */
  lemma {:induction false} CollectEntry(place: string -> Placement, locs: seq<string>, wantTop: bool, i: nat)
    requires i < |Collect(place, locs, wantTop)|
    ensures Collect(place, locs, wantTop)[i].0 in locs
    ensures InGroup(place(Collect(place, locs, wantTop)[i].0), wantTop)
    ensures Collect(place, locs, wantTop)[i].1 == place(Collect(place, locs, wantTop)[i].0).row
    decreases |locs|
  {
    var init := locs[..|locs| - 1];
    var prev := Collect(place, init, wantTop);
    assert locs == init + [locs[|locs| - 1]];
    if i < |prev| {
      assert Collect(place, locs, wantTop)[i] == prev[i];
      CollectEntry(place, init, wantTop, i);
    }
  }

  /** Every visited station placed in a dictionary is in it. */
  lemma {:induction false} CollectComplete(place: string -> Placement, locs: seq<string>, wantTop: bool, s: string)
    requires s in locs && InGroup(place(s), wantTop)
    ensures s in Keys(Collect(place, locs, wantTop))
    decreases |locs|
  {
    var init := locs[..|locs| - 1];
    var c := Collect(place, locs, wantTop);
    var prev := Collect(place, init, wantTop);
    assert locs == init + [locs[|locs| - 1]];
    if s == locs[|locs| - 1] {
      assert c[|c| - 1].0 == s;
      assert Keys(c)[|c| - 1] == s;
    } else {
      CollectComplete(place, init, wantTop, s);
      var k :| 0 <= k < |prev| && Keys(prev)[k] == s;
      assert c[k] == prev[k];
      assert Keys(c)[k] == s;
    }
  }

  /** Each dictionary lists its stations in the order they were visited. */
  lemma {:induction false} CollectOrder(place: string -> Placement, locs: seq<string>, wantTop: bool)
    ensures IsSubsequence(Keys(Collect(place, locs, wantTop)), locs)
    decreases |locs|
  {
    if locs != [] {
      var init := locs[..|locs| - 1];
      var last := locs[|locs| - 1];
      var prev := Collect(place, init, wantTop);
      var c := Collect(place, locs, wantTop);
      CollectOrder(place, init, wantTop);
      assert locs == init + [last];
      if |c| == |prev| {
        assert c == prev;
        SubsequenceExtend(Keys(prev), init, last);
      } else {
        assert c == prev + [c[|c| - 1]] && c[|c| - 1].0 == last;
        assert Keys(c)[..|Keys(c)| - 1] == Keys(prev);
      }
    }
  }

  /** Each visited station lands in exactly one place. */
  lemma {:induction false} CollectCount(place: string -> Placement, locs: seq<string>)
    ensures |Collect(place, locs, true)| + |Collect(place, locs, false)| + Dropped(place, locs) == |locs|
    decreases |locs|
  {
    if locs != [] {
      CollectCount(place, locs[..|locs| - 1]);
    }
  }

  lemma {:induction false} DroppedNone(place: string -> Placement, locs: seq<string>)
    ensures Dropped(place, locs) == 0 <==> forall s :: s in locs ==> !place(s).NoRow?
    decreases |locs|
  {
    if locs != [] {
      var init := locs[..|locs| - 1];
      DroppedNone(place, init);
      assert locs == init + [locs[|locs| - 1]];
    }
  }

  // ------------------------------------------------------ rows for any top list

  /** The rows assembled for a non-empty table when the top list is `top`:
      the top-5 dictionary's items, then the other dictionary's. */
  function Rows(t: seq<Record>, top: seq<string>, fit: Model): seq<(string, Row)> {
    Collect(Placer(t, top, fit), Stations(t), true) + Collect(Placer(t, top, fit), Stations(t), false)
  }

  lemma KeysAppend(a: seq<(string, Row)>, b: seq<(string, Row)>)
    ensures Keys(a + b) == Keys(a) + Keys(b)
  {
  }

  /** Which dictionary an item of the two concatenated dictionaries comes
      from, and how it was placed. */
  lemma PairEntry(place: string -> Placement, locs: seq<string>, i: nat)
    requires i < |Collect(place, locs, true) + Collect(place, locs, false)|
    ensures var e := (Collect(place, locs, true) + Collect(place, locs, false))[i];
            e.0 in locs &&
            InGroup(place(e.0), i < |Collect(place, locs, true)|) &&
            e.1 == place(e.0).row
  {
    var a, b := Collect(place, locs, true), Collect(place, locs, false);
    if i < |a| {
      assert (a + b)[i] == a[i];
      CollectEntry(place, locs, true, i);
    } else {
      assert (a + b)[i] == b[i - |a|];
      CollectEntry(place, locs, false, i - |a|);
    }
  }

  /** Which group a row belongs to, and how it was placed. */
  lemma RowsGroup(t: seq<Record>, top: seq<string>, fit: Model, i: nat)
    requires i < |Rows(t, top, fit)|
    ensures var e := Rows(t, top, fit)[i];
            e.0 in Stations(t) &&
            InGroup(Placer(t, top, fit)(e.0), i < |Collect(Placer(t, top, fit), Stations(t), true)|) &&
            e.1 == Placer(t, top, fit)(e.0).row
  {
    PairEntry(Placer(t, top, fit), Stations(t), i);
  }

  lemma PlacerIsPlace(t: seq<Record>, top: seq<string>, fit: Model, s: string)
    ensures Placer(t, top, fit)(s) == Place(t, top, fit, s)
  {
  }

  /** A station is placed in the top-5 dictionary only if it is in the top
      list, and in the other one only if it is not. */
  lemma GroupMeansTop(t: seq<Record>, top: seq<string>, fit: Model, s: string, wantTop: bool)
    requires InGroup(Placer(t, top, fit)(s), wantTop)
    ensures wantTop <==> s in top
  {
    PlacerIsPlace(t, top, fit, s);
    PlaceCases(t, top, fit, s);
  }

  /** Which group a row belongs to, and where its cells come from. */
  lemma RowsEntry(t: seq<Record>, top: seq<string>, fit: Model, i: nat)
    requires i < |Rows(t, top, fit)|
    ensures var e := Rows(t, top, fit)[i];
            e.0 in Stations(t) &&
            (i < |Collect(Placer(t, top, fit), Stations(t), true)| <==> e.0 in top) &&
            !Place(t, top, fit, e.0).NoRow? &&
            e.1 == Place(t, top, fit, e.0).row
  {
    RowsGroup(t, top, fit, i);
    var e := Rows(t, top, fit)[i];
    PlacerIsPlace(t, top, fit, e.0);
    PlaceCases(t, top, fit, e.0);
  }

  lemma RowsHas(t: seq<Record>, top: seq<string>, fit: Model, s: string)
    ensures s in Keys(Rows(t, top, fit)) <==>
              s in Stations(t) && (s !in top || (|Series(t, s)| >= MinObservations && fit(Series(t, s)).Ok?))
  {
    var place := Placer(t, top, fit);
    var a, b := Collect(place, Stations(t), true), Collect(place, Stations(t), false);
    assert place(s) == Place(t, top, fit, s);
    PlaceCases(t, top, fit, s);
    KeysAppend(a, b);
    if s in Keys(Rows(t, top, fit)) {
      var i :| 0 <= i < |Rows(t, top, fit)| && Keys(Rows(t, top, fit))[i] == s;
      RowsEntry(t, top, fit, i);
    }
    if s in Stations(t) && (s !in top || (|Series(t, s)| >= MinObservations && fit(Series(t, s)).Ok?)) {
      if s in top {
        CollectComplete(place, Stations(t), true, s);
      } else {
        CollectComplete(place, Stations(t), false, s);
      }
    }
  }

  lemma RowsTopFirst(t: seq<Record>, top: seq<string>, fit: Model, i: nat, j: nat)
    requires i < j < |Rows(t, top, fit)| && Rows(t, top, fit)[j].0 in top
    ensures Rows(t, top, fit)[i].0 in top
  {
    RowsEntry(t, top, fit, i);
    RowsEntry(t, top, fit, j);
  }

  lemma RowsGroupIndex(t: seq<Record>, top: seq<string>, fit: Model, i: nat)
    requires i < |Rows(t, top, fit)|
    ensures i < |Collect(Placer(t, top, fit), Stations(t), true)| <==> Rows(t, top, fit)[i].0 in top
  {
    RowsGroup(t, top, fit, i);
    GroupMeansTop(t, top, fit, Rows(t, top, fit)[i].0, i < |Collect(Placer(t, top, fit), Stations(t), true)|);
  }

  /** Within one dictionary, items follow the first appearance of their
      station in the column the stations were drawn from. */
  lemma GroupFirstAppearance(c: seq<(string, Row)>, col: seq<string>, i: nat, j: nat)
    requires IsSubsequence(Keys(c), Unique(col))
    requires i < j < |c|
    ensures c[i].0 in col && c[j].0 in col
    ensures FirstIndex(col, c[i].0) < FirstIndex(col, c[j].0)
  {
    assert Keys(c)[i] == c[i].0 && Keys(c)[j] == c[j].0;
    SubsequenceOfUniqueOrder(Keys(c), col, i, j);
  }

  /** Two items of the same dictionary, after the top-5 items are followed
      by the others, keep first-appearance order. */
  lemma PairFirstAppearance(a: seq<(string, Row)>, b: seq<(string, Row)>, col: seq<string>, i: nat, j: nat)
    requires IsSubsequence(Keys(a), Unique(col)) && IsSubsequence(Keys(b), Unique(col))
    requires i < j < |a + b| && (i < |a|) == (j < |a|)
    ensures (a + b)[i].0 in col && (a + b)[j].0 in col
    ensures FirstIndex(col, (a + b)[i].0) < FirstIndex(col, (a + b)[j].0)
  {
    if j < |a| {
      assert (a + b)[i] == a[i] && (a + b)[j] == a[j];
      GroupFirstAppearance(a, col, i, j);
    } else {
      assert (a + b)[i] == b[i - |a|] && (a + b)[j] == b[j - |a|];
      GroupFirstAppearance(b, col, i - |a|, j - |a|);
    }
  }

  lemma RowsFirstAppearance(t: seq<Record>, top: seq<string>, fit: Model, i: nat, j: nat)
    requires i < j < |Rows(t, top, fit)|
    requires (Rows(t, top, fit)[i].0 in top) == (Rows(t, top, fit)[j].0 in top)
    ensures Rows(t, top, fit)[i].0 in StationsColumn(t) && Rows(t, top, fit)[j].0 in StationsColumn(t)
    ensures FirstIndex(StationsColumn(t), Rows(t, top, fit)[i].0) < FirstIndex(StationsColumn(t), Rows(t, top, fit)[j].0)
  {
    var place := Placer(t, top, fit);
    RowsGroupIndex(t, top, fit, i);
    RowsGroupIndex(t, top, fit, j);
    CollectOrder(place, Stations(t), true);
    CollectOrder(place, Stations(t), false);
    PairFirstAppearance(Collect(place, Stations(t), true), Collect(place, Stations(t), false), StationsColumn(t), i, j);
  }

  lemma RowsDistinct(t: seq<Record>, top: seq<string>, fit: Model)
    ensures Distinct(Keys(Rows(t, top, fit)))
  {
    var rows := Rows(t, top, fit);
    forall i, j | 0 <= i < j < |rows| ensures Keys(rows)[i] != Keys(rows)[j] {
      RowsEntry(t, top, fit, i);
      RowsEntry(t, top, fit, j);
      if (rows[i].0 in top) == (rows[j].0 in top) {
        RowsFirstAppearance(t, top, fit, i, j);
      }
    }
  }

  lemma RowsCount(t: seq<Record>, top: seq<string>, fit: Model)
    ensures |Rows(t, top, fit)| <= |Stations(t)|
    ensures |Rows(t, top, fit)| == |Stations(t)| <==>
              forall s :: s in Stations(t) && s in top ==> |Series(t, s)| >= MinObservations && fit(Series(t, s)).Ok?
  {
    var place := Placer(t, top, fit);
    CollectCount(place, Stations(t));
    DroppedNone(place, Stations(t));
    forall s | s in Stations(t)
      ensures place(s).NoRow? <==> s in top && !(|Series(t, s)| >= MinObservations && fit(Series(t, s)).Ok?)
    {
      assert place(s) == Place(t, top, fit, s);
      PlaceCases(t, top, fit, s);
    }
  }

  // ------------------------------------------------------------- the table

  lemma TableRows(t: seq<Record>, fit: Model)
    ensures ForecastSpec(t, fit).rows == if t == [] then [] else Rows(t, Rank(t), fit)
  {
  }

  lemma LabelsText()
    ensures Labels() == ["t+1hr", "t+2hr", "t+3hr", "t+4hr", "t+5hr", "t+6hr"]
  {
    var l := Labels();
    assert l[0] == "t+" + Decimal(1) + "hr" == "t+1hr";
    assert l[1] == "t+" + Decimal(2) + "hr" == "t+2hr";
    assert l[2] == "t+" + Decimal(3) + "hr" == "t+3hr";
    assert l[3] == "t+" + Decimal(4) + "hr" == "t+4hr";
    assert l[4] == "t+" + Decimal(5) + "hr" == "t+5hr";
    assert l[5] == "t+" + Decimal(6) + "hr" == "t+6hr";
  }

  /** Columns are `t+1hr .. t+6hr` whenever there is a row; a table with no
      rows has no columns at all (`pd.DataFrame()`). */
  lemma ForecastColumns(t: seq<Record>, fit: Model)
    ensures ForecastSpec(t, fit).columns ==
              if ForecastSpec(t, fit).rows == [] then [] else ["t+1hr", "t+2hr", "t+3hr", "t+4hr", "t+5hr", "t+6hr"]
  {
    LabelsText();
    if t != [] {
      var top := Rank(t);
      var a := FromItems(Collect(Placer(t, top, fit), Stations(t), true));
      var b := FromItems(Collect(Placer(t, top, fit), Stations(t), false));
      if a.rows == [] {
        FilterKeepsAll(b.columns, c => c !in a.columns);
      } else {
        FilterDropsAll(b.columns, c => c !in a.columns);
      }
    }
  }

  /** Every row has exactly `n_predictions` cells: the fitted means, padded
      with `None` or truncated, when the series is long enough and the fit
      succeeds, and `None` throughout otherwise. */
  lemma ForecastRowContent(t: seq<Record>, fit: Model, i: nat)
    requires i < |ForecastSpec(t, fit).rows|
    ensures var e := ForecastSpec(t, fit).rows[i];
            e.0 in Stations(t) && |e.1| == Horizon &&
            e.1 == if |Series(t, e.0)| >= MinObservations && fit(Series(t, e.0)).Ok?
                   then ForecastRow(fit(Series(t, e.0)).value) else Unavailable()
  {
    TableRows(t, fit);
    var top := Rank(t);
    RowsEntry(t, top, fit, i);
    PlaceCases(t, top, fit, Rows(t, top, fit)[i].0);
  }

  /** Which stations get a row: every station outside the top list, and a
      top station only when its series has at least four points and its fit
      succeeds. */
  lemma ForecastMembership(t: seq<Record>, fit: Model, s: string)
    ensures s in Keys(ForecastSpec(t, fit).rows) <==>
              s in Stations(t) &&
              (s !in Rank(t) || (|Series(t, s)| >= MinObservations && fit(Series(t, s)).Ok?))
  {
    TableRows(t, fit);
    StationsExact(t, s);
    RowsHas(t, Rank(t), fit, s);
  }

  /** The code's quirk: a top-5 station with fewer than four points, or whose
      fit raises, gets no row at all, while any other station with the same
      history gets an all-`None` row. */
  lemma TopStationWithoutForecastHasNoRow(t: seq<Record>, fit: Model, s: string)
    requires s in Rank(t)
    requires |Series(t, s)| < MinObservations || fit(Series(t, s)).Err?
    ensures s !in Keys(ForecastSpec(t, fit).rows)
  {
    ForecastMembership(t, fit, s);
  }

  /** All top-list rows come before all other rows. */
  lemma ForecastTopFirst(t: seq<Record>, fit: Model, i: nat, j: nat)
    requires i < j < |ForecastSpec(t, fit).rows|
    requires ForecastSpec(t, fit).rows[j].0 in Rank(t)
    ensures ForecastSpec(t, fit).rows[i].0 in Rank(t)
  {
    TableRows(t, fit);
    RowsTopFirst(t, Rank(t), fit, i, j);
  }

  /** Within each group, rows follow the first appearance of their station
      in the cleaned table (not the rank order). */
  lemma ForecastFirstAppearance(t: seq<Record>, fit: Model, i: nat, j: nat)
    requires i < j < |ForecastSpec(t, fit).rows|
    requires (ForecastSpec(t, fit).rows[i].0 in Rank(t)) == (ForecastSpec(t, fit).rows[j].0 in Rank(t))
    ensures ForecastSpec(t, fit).rows[i].0 in StationsColumn(t)
    ensures ForecastSpec(t, fit).rows[j].0 in StationsColumn(t)
    ensures FirstIndex(StationsColumn(t), ForecastSpec(t, fit).rows[i].0)
            < FirstIndex(StationsColumn(t), ForecastSpec(t, fit).rows[j].0)
  {
    TableRows(t, fit);
    RowsFirstAppearance(t, Rank(t), fit, i, j);
  }

  /** No station has two rows. */
  lemma ForecastDistinct(t: seq<Record>, fit: Model)
    ensures Distinct(Keys(ForecastSpec(t, fit).rows))
  {
    TableRows(t, fit);
    if t != [] {
      RowsDistinct(t, Rank(t), fit);
    }
  }

  /** At most one row per distinct station, and one for every station exactly
      when every top station has at least four points and a successful fit. */
  lemma ForecastRowCount(t: seq<Record>, fit: Model)
    ensures |ForecastSpec(t, fit).rows| <= |Stations(t)|
    ensures |ForecastSpec(t, fit).rows| == |Stations(t)| <==>
              forall s :: s in Rank(t) ==> |Series(t, s)| >= MinObservations && fit(Series(t, s)).Ok?
  {
    TableRows(t, fit);
    RankProperties(t);
    if t == [] {
      assert Stations(t) == [];
    } else {
      RowsCount(t, Rank(t), fit);
    }
  }
}
