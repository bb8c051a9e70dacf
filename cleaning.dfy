/**
 * The input table and `preprocess_data` (work/myflow/test_ml.py:21-37):
 * check the three required columns, project onto them, keep the rows whose
 * value is `>= 0` and drop two hard-coded stations.
 */
module Cleaning {
  import opened Wrappers
  import opened Sequences

  /** One measurement as it appears in the three required columns.
      `value == None` is a missing or NaN `PM25.value` cell. */
  datatype Record = Record(timestamp: int, station: string, value: Option<real>)

  /** A loaded table: its column names and its rows. Only the three
      required fields of a row are represented; the names of any other
      columns are kept in `columns`. */
  datatype Frame = Frame(columns: seq<string>, rows: seq<Record>)

  const TimestampColumn := "timestamp"
  const StationColumn := "nameTH"
  const ValueColumn := "PM25.value"
  const RequiredColumns: seq<string> := [TimestampColumn, StationColumn, ValueColumn]

  /** The two station names that are always removed (the second one ends in a space). */
  const ExcludedStations: seq<string> := ["สำนักงานเขตบางคอแหลม (Mobile)", "การเคหะชุมชนห้วยขวาง "]

  /** `pd.DataFrame()`: no columns and no rows. */
  const EmptyFrame := Frame([], [])

  /** pandas' `DataFrame.empty`: true when either axis has length zero. */
  predicate IsEmpty(f: Frame) {
    |f.columns| == 0 || |f.rows| == 0
  }

  /** The required columns that the frame lacks, in the order they are required. */
  function MissingColumns(f: Frame): (r: seq<string>)
    ensures forall c :: c in r <==> c in RequiredColumns && c !in f.columns
  {
    FilterMembershipAll(RequiredColumns, c => c !in f.columns);
    Filter(RequiredColumns, c => c !in f.columns)
  }

  /** `PM25.value >= 0`; a missing or NaN value compares false. */
  predicate NonNegative(r: Record) {
    r.value.Some? && r.value.value >= 0.0
  }

  predicate NotExcluded(r: Record) {
    r.station !in ExcludedStations
  }

  /** A row survives cleaning exactly when both masks keep it. */
  predicate Kept(r: Record) {
    NonNegative(r) && NotExcluded(r)
  }

  /** `preprocess_data`: the empty table when a required column is missing,
      otherwise the two masks applied one after the other. */
  function Preprocess(f: Frame): seq<Record> {
    if MissingColumns(f) != [] then []
    else
      var filtered := Filter(f.rows, NonNegative);
      Filter(filtered, NotExcluded)
  }

  /** A frame without one of the three required columns cleans to nothing. */
  lemma MissingColumnGivesEmpty(f: Frame, c: string)
    requires c in RequiredColumns && c !in f.columns
    ensures Preprocess(f) == []
  {
    assert c in MissingColumns(f);
  }

  /** With every required column present, cleaning is the single mask `Kept`. */
  lemma {:induction false} PreprocessIsKeptMask(f: Frame)
    requires MissingColumns(f) == []
    ensures Preprocess(f) == Filter(f.rows, Kept)
  {
    FilterFilter(f.rows, NonNegative, NotExcluded, Kept);
  }

  /** The cleaned table is an order-preserving subsequence of the input rows,
      every kept row is non-negative and not excluded, and no row that passes
      both tests is lost. Rows are kept whole: no field is altered. */
  lemma PreprocessSound(f: Frame)
    ensures IsSubsequence(Preprocess(f), f.rows)
    ensures forall r :: r in Preprocess(f) ==> r in f.rows && NonNegative(r) && NotExcluded(r)
    ensures MissingColumns(f) == [] ==>
              forall r :: r in f.rows && Kept(r) ==> r in Preprocess(f)
  {
    if MissingColumns(f) == [] {
      PreprocessIsKeptMask(f);
      FilterIsSubsequence(f.rows, Kept);
      FilterMembershipAll(f.rows, Kept);
    }
  }

  /** Every record of a cleaned table has a present, non-negative value and
      a station outside the exclusion list. */
  lemma {:induction false} CleanedValuesPresent(f: Frame, i: nat)
    requires i < |Preprocess(f)|
    ensures Preprocess(f)[i].value.Some? && Preprocess(f)[i].value.value >= 0.0
    ensures NotExcluded(Preprocess(f)[i])
  {
    PreprocessSound(f);
    assert Preprocess(f)[i] in Preprocess(f);
  }
}
