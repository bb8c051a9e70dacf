/**
 * `save_forecast_to_lakefs` (work/myflow/test_ml.py:105-124): split the save
 * path into bucket and key, refuse a missing bucket, skip an empty table,
 * otherwise write. The object store is a map from path to table; whether a
 * bucket exists and whether the write fails are inputs.
 */
module Storage {
  import opened Wrappers
  import opened Forecasting

  /** `s.split(sep)` with an explicit separator. */
  function Split(s: string, sep: char): (r: seq<string>)
    ensures |r| >= 1
    ensures forall i :: 0 <= i < |r| ==> sep !in r[i]
    decreases |s|
  {
    if s == [] then [""]
    else
      var rest := Split(s[1..], sep);
      if s[0] == sep then [""] + rest
      else [[s[0]] + rest[0]] + rest[1..]
  }

  /** `sep.join(parts)`. */
  function Join(parts: seq<string>, sep: char): string
    decreases |parts|
  {
    if |parts| == 0 then ""
    else if |parts| == 1 then parts[0]
    else parts[0] + [sep] + Join(parts[1..], sep)
  }

  /** Joining the pieces of a split gives the string back. */
  lemma {:induction false} JoinSplit(s: string, sep: char)
    ensures Join(Split(s, sep), sep) == s
    decreases |s|
  {
    if s != [] {
      var rest := Split(s[1..], sep);
      JoinSplit(s[1..], sep);
      if s[0] == sep {
        assert ([""] + rest)[1..] == rest;
      } else {
        var r := [[s[0]] + rest[0]] + rest[1..];
        assert r[1..] == rest[1..];
        if |rest| > 1 {
          assert Join(rest, sep) == rest[0] + [sep] + Join(rest[1..], sep);
        }
      }
    }
  }

  /** Splitting at a separator splits the two sides independently. */
  lemma {:induction false} SplitAppend(a: string, b: string, sep: char)
    ensures Split(a + [sep] + b, sep) == Split(a, sep) + Split(b, sep)
    decreases |a|
  {
    var s := a + [sep] + b;
    if a == [] {
      assert s == [sep] + b && s[1..] == b;
    } else {
      assert s[1..] == a[1..] + [sep] + b;
      SplitAppend(a[1..], b, sep);
    }
  }

  lemma {:induction false} SplitNoSeparator(a: string, sep: char)
    requires sep !in a
    ensures Split(a, sep) == [a]
    decreases |a|
  {
    if a != [] {
      SplitNoSeparator(a[1..], sep);
      assert [a[0]] + a[1..] == a;
    }
  }

  /** Splitting the join of separator-free pieces gives the pieces back. */
  lemma {:induction false} SplitJoin(parts: seq<string>, sep: char)
    requires |parts| >= 1 && forall i :: 0 <= i < |parts| ==> sep !in parts[i]
    ensures Split(Join(parts, sep), sep) == parts
    decreases |parts|
  {
    if |parts| == 1 {
      SplitNoSeparator(parts[0], sep);
    } else {
      SplitJoin(parts[1..], sep);
      SplitAppend(parts[0], Join(parts[1..], sep), sep);
      SplitNoSeparator(parts[0], sep);
      assert [parts[0]] + parts[1..] == parts;
    }
  }

  lemma {:induction false} JoinAppend(a: seq<string>, b: seq<string>, sep: char)
    requires |a| >= 1 && |b| >= 1
    ensures Join(a + b, sep) == Join(a, sep) + [sep] + Join(b, sep)
    decreases |a|
  {
    if |a| == 1 {
      assert (a + b)[1..] == b;
    } else {
      assert (a + b)[1..] == a[1..] + b;
      JoinAppend(a[1..], b, sep);
    }
  }

  datatype SaveError =
    | PathIndexError          // `path.split('/')[2]` on a path with fewer than three segments
    | BucketNotFound(bucket: string)
    | WriteError              // `to_parquet` raised

  /** `bucket_name` and `file_path`: the third `/`-segment and the rest. */
  function SplitSavePath(path: string): Result<(string, string), SaveError> {
    var parts := Split(path, '/');
    if |parts| < 3 then Err(PathIndexError)
    else Ok((parts[2], Join(parts[3..], '/')))
  }

  /** The bucket is one segment, and putting the first two segments, the
      bucket and the key back together with `/` gives the path (the key is
      empty when the path has exactly three segments). */
  lemma SavePathParts(path: string)
    ensures SplitSavePath(path).Ok? <==> |Split(path, '/')| >= 3
    ensures SplitSavePath(path).Ok? ==>
              var (bucket, key) := SplitSavePath(path).value;
              var parts := Split(path, '/');
              '/' !in bucket && bucket == parts[2] &&
              path == Join(parts[..2], '/') + "/" + bucket + (if |parts| == 3 then "" else "/" + key)
  {
    var parts := Split(path, '/');
    if |parts| >= 3 {
      JoinSplit(path, '/');
      if |parts| == 3 {
        assert parts == parts[..2] + [parts[2]];
        JoinAppend(parts[..2], [parts[2]], '/');
      } else {
        assert parts == parts[..2] + ([parts[2]] + parts[3..]);
        JoinAppend(parts[..2], [parts[2]] + parts[3..], '/');
        assert ([parts[2]] + parts[3..])[1..] == parts[3..];
      }
    }
  }

  lemma {:induction false} SplitAfterSegment(a: string, b: string, sep: char)
    requires sep !in a
    ensures Split(a + [sep] + b, sep) == [a] + Split(b, sep)
  {
    SplitAppend(a, b, sep);
    SplitNoSeparator(a, sep);
  }

  /** A path `scheme://bucket/branch/file` names that bucket and the key `branch/file`. */
  lemma SavePathOf(scheme: string, bucket: string, branch: string, file: string)
    requires '/' !in scheme && '/' !in bucket && '/' !in branch && '/' !in file
    ensures SplitSavePath(scheme + "/" + "/" + bucket + "/" + (branch + "/" + file)) == Ok((bucket, branch + "/" + file))
  {
    var key := branch + "/" + file;
    var afterScheme := "" + "/" + (bucket + "/" + key);
    assert scheme + "/" + "/" + bucket + "/" + key == scheme + "/" + afterScheme;
    SplitAfterSegment(scheme, afterScheme, '/');
    SplitAfterSegment("", bucket + "/" + key, '/');
    SplitAfterSegment(bucket, key, '/');
    SplitAfterSegment(branch, file, '/');
    SplitNoSeparator(file, '/');
    var parts := [scheme, "", bucket, branch, file];
    assert Split(scheme + "/" + afterScheme, '/') == parts;
    assert parts[3..] == [branch, file];
    assert Join([branch, file], '/') == key;
  }

  /** The object store: one table per path. */
  type Store = map<string, ForecastTable>

  /** pandas' `DataFrame.empty`. */
  predicate IsEmptyTable(table: ForecastTable) {
    |table.columns| == 0 || |table.rows| == 0
  }

  /** `save_forecast_to_lakefs`: the store after the call, or the error it
      raised. A missing bucket is reported before the empty-table check, an
      empty table leaves the store as it was, and a write replaces whatever
      was stored at the path and nothing else. */
  function SaveForecast(table: ForecastTable, path: string, buckets: set<string>, store: Store, writeFails: bool)
    : (r: Result<Store, SaveError>)
    ensures r.Ok? <==> SplitSavePath(path).Ok? && SplitSavePath(path).value.0 in buckets
                       && (IsEmptyTable(table) || !writeFails)
    ensures SplitSavePath(path).Ok? && SplitSavePath(path).value.0 !in buckets ==>
              r == Err(BucketNotFound(SplitSavePath(path).value.0))
    ensures r.Ok? && IsEmptyTable(table) ==> r.value == store
    ensures r.Ok? && !IsEmptyTable(table) ==>
              path in r.value && r.value[path] == table &&
              forall p :: p != path ==> (p in r.value <==> p in store) && (p in store ==> r.value[p] == store[p])
  {
    match SplitSavePath(path)
    case Err(e) => Err(e)
    case Ok((bucket, _)) =>
      if bucket !in buckets then Err(BucketNotFound(bucket))
      else if IsEmptyTable(table) then Ok(store)
      else if writeFails then Err(WriteError)
      else Ok(store[path := table])
  }
}
