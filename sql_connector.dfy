/**
 * The temperature-monitoring connector: depth discovery from a station's
 * column names, one instantaneous reading, and the per-sensor average over
 * a time window. The database behind the connection is modelled as data:
 * one table per station, with its column names and its records.
 */
module SqlConnector {
  import opened Wrappers
  import opened Decimal

  /** Value stored for a missing reading. */
  const Sentinel: real := -100.0

  /** Base column id of each sensor; a channel's column id is base + depth (in tenths). */
  const Sensors: seq<int> := [1000, 2000, 2300, 2600]

  /** One stored row: its timestamp and its value per column name. */
  datatype Record = Record(time: int, cells: map<string, real>)

  /** A station's table: the names of its columns and its rows, in storage order. */
  datatype Table = Table(columns: seq<string>, records: seq<Record>)

  /** What the store guarantees of a table: every row has a value in every column. */
  predicate WellFormed(t: Table) {
    forall r, c :: r in t.records && c in t.columns ==> c in r.cells
  }

  predicate StoreWellFormed(store: map<int, Table>) {
    forall s :: s in store ==> WellFormed(store[s])
  }

  /** The table of a station; a station unknown to the store has no columns and no rows. */
  function TableOf(store: map<int, Table>, station: int): (t: Table)
    ensures station !in store ==> t.columns == [] && t.records == []
    ensures StoreWellFormed(store) ==> WellFormed(t)
  {
    if station in store then store[station] else Table([], [])
  }

  /** The values of a record in the given columns, in column order. */
  function Select(rec: Record, names: seq<string>): (vals: seq<real>)
    requires forall n :: n in names ==> n in rec.cells
    ensures |vals| == |names|
  {
    seq(|names|, j requires 0 <= j < |names| => rec.cells[names[j]])
  }

  // ---------------------------------------------------------------------
  // Depth discovery
  // ---------------------------------------------------------------------

  /** A column name that denotes a first-sensor channel. */
  predicate IsDepthColumn(name: string) {
    IsDigitString(name) && Sensors[0] <= Parse(name) < Sensors[1]
  }

  /**
   * The integer values of the digit-only column names that fall in the
   * first sensor's range, in column order.
   */
  function DepthColumns(names: seq<string>): (columns: seq<int>)
    ensures forall c :: c in columns <==>
      exists i :: 0 <= i < |names| && IsDepthColumn(names[i]) && Parse(names[i]) == c
    ensures forall c :: c in columns ==> Sensors[0] <= c < Sensors[1]
  {
    if names == [] then []
    else
      var rest := DepthColumns(names[1..]);
      assert forall i :: 0 < i < |names| ==> names[i] == names[1..][i - 1];
      if IsDepthColumn(names[0]) then [Parse(names[0])] + rest else rest
  }

  /** The depths (in tenths) monitored at a station with the given column names. */
  function Depths(names: seq<string>): (depths: set<int>)
    ensures forall d :: d in depths <==>
      exists i :: 0 <= i < |names| && IsDepthColumn(names[i]) && Parse(names[i]) == Sensors[0] + d
    ensures forall d :: d in depths ==> 0 <= d < Sensors[1] - Sensors[0]
  {
    var columns := DepthColumns(names);
    var depths := Offsets(columns);
    assert forall d :: d in depths <==> Sensors[0] + d in columns;
    depths
  }

  /** The depths the given first-sensor column ids stand for. */
  function Offsets(columns: seq<int>): set<int> {
    set c | c in columns :: c - Sensors[0]
  }

  lemma OffsetsAppend(columns: seq<int>, c: int)
    ensures Offsets(columns + [c]) == Offsets(columns) + {c - Sensors[0]}
  {
    forall d | d in Offsets(columns + [c]) ensures d in Offsets(columns) + {c - Sensors[0]} {
      var e :| e in columns + [c] && d == e - Sensors[0];
      if e != c {
        assert e in columns;
      }
    }
    forall d | d in Offsets(columns) ensures d in Offsets(columns + [c]) {
      var e :| e in columns && d == e - Sensors[0];
      assert e in columns + [c];
    }
    assert c in columns + [c];
  }

  /** The column id of every sensor at a depth, in sensor order. */
  function ColumnIds(depth: int): (ids: seq<int>)
    ensures |ids| == |Sensors|
  {
    seq(|Sensors|, k requires 0 <= k < |Sensors| => Sensors[k] + depth)
  }

  /** How an integer column id is spelled in a query. */
  function ColumnName(id: int): string {
    if id >= 0 then Show(id) else "-" + Show(-id)
  }

  /** The column names queried for a depth, one per sensor. */
  function QueryNames(depth: int): (names: seq<string>)
    ensures |names| == |Sensors|
  {
    var ids := ColumnIds(depth);
    seq(|ids|, k requires 0 <= k < |ids| => ColumnName(ids[k]))
  }

  /**
   * For a monitored depth the four channels are the columns 1000, 2000,
   * 2300 and 2600 past the depth, and the first of them is a column whose
   * name made the depth monitored; when that name is spelled without
   * leading zeros it is exactly the name the query uses.
   */
  lemma {:induction false} MonitoredDepthChannels(names: seq<string>, depth: int)
    requires depth in Depths(names)
    ensures ColumnIds(depth) == [1000 + depth, 2000 + depth, 2300 + depth, 2600 + depth]
    ensures 0 <= depth < 1000
    ensures exists i :: 0 <= i < |names| && IsDigitString(names[i]) && Parse(names[i]) == ColumnIds(depth)[0]
    ensures (forall i :: 0 <= i < |names| && IsDigitString(names[i]) ==> Canonical(names[i])) ==>
      QueryNames(depth)[0] in names
  {
    var i :| 0 <= i < |names| && IsDepthColumn(names[i]) && Parse(names[i]) == Sensors[0] + depth;
    if forall j :: 0 <= j < |names| && IsDigitString(names[j]) ==> Canonical(names[j]) {
      ShowParse(names[i]);
      assert QueryNames(depth)[0] == names[i];
    }
  }

  /** The query's column names are all present in the table. */
  predicate ColumnsExist(t: Table, names: seq<string>) {
    forall n :: n in names ==> n in t.columns
  }

  // ---------------------------------------------------------------------
  // Instantaneous reading
  // ---------------------------------------------------------------------

  /** Each sentinel becomes None, every other value is kept. */
  function NoneForSentinel(values: seq<real>): (r: seq<Option<real>>)
    ensures |r| == |values|
    ensures forall i :: 0 <= i < |values| ==>
      (r[i] == None <==> values[i] == Sentinel) && (r[i].Some? ==> r[i].value == values[i])
  {
    seq(|values|, i requires 0 <= i < |values| => if values[i] == Sentinel then None else Some(values[i]))
  }

  /** The store's encoding of a tuple with missing readings. */
  function SentinelForNone(readings: seq<Option<real>>): (r: seq<real>)
    ensures |r| == |readings|
  {
    seq(|readings|, i requires 0 <= i < |readings| => if readings[i].None? then Sentinel else readings[i].value)
  }

  /** Masking loses nothing: the stored values can be recovered. */
  lemma SentinelRoundTrip(values: seq<real>)
    ensures SentinelForNone(NoneForSentinel(values)) == values
  {
  }

  /** Readings that never hold the sentinel as a value survive encoding and masking. */
  lemma NoneRoundTrip(readings: seq<Option<real>>)
    requires forall i :: 0 <= i < |readings| ==> readings[i] != Some(Sentinel)
    ensures NoneForSentinel(SentinelForNone(readings)) == readings
  {
  }

  /** Index of the first record stored at exactly the given time, |records| if there is none. */
  function FirstIndexAt(records: seq<Record>, time: int): (i: nat)
    ensures i <= |records|
    ensures forall j :: 0 <= j < i ==> records[j].time != time
    ensures i < |records| ==> records[i].time == time
  {
    if records == [] || records[0].time == time then 0
    else 1 + FirstIndexAt(records[1..], time)
  }

  /** The record a single-row fetch at exactly the given time returns, if any. */
  function FirstAt(records: seq<Record>, time: int): (r: Option<Record>)
    ensures r.Some? ==> r.value in records
  {
    var i := FirstIndexAt(records, time);
    if i < |records| then Some(records[i]) else None
  }

  // ---------------------------------------------------------------------
  // Averaging over a window
  // ---------------------------------------------------------------------

  /** The records whose time lies in the half-open window [start, stop), in storage order. */
  function Window(records: seq<Record>, start: int, stop: int): (w: seq<Record>)
    ensures forall r :: r in w <==> r in records && start <= r.time < stop
    ensures |w| <= |records|
  {
    if records == [] then []
    else
      var rest := Window(records[1..], start, stop);
      assert forall r :: r in records <==> r == records[0] || r in records[1..];
      if start <= records[0].time < stop then [records[0]] + rest else rest
  }

  /** The rows a range query returns: one value per queried column for every in-window record. */
  function Fetch(t: Table, names: seq<string>, start: int, stop: int): (rows: seq<seq<real>>)
    requires WellFormed(t) && ColumnsExist(t, names)
    ensures |rows| == |Window(t.records, start, stop)|
    ensures forall i :: 0 <= i < |rows| ==> |rows[i]| == |names|
  {
    var w := Window(t.records, start, stop);
    seq(|w|, i requires 0 <= i < |w| => assert w[i] in w; Select(w[i], names))
  }

  /** The values of one column in the window, in storage order. */
  function ColumnValues(t: Table, name: string, start: int, stop: int): (vals: seq<real>)
    requires WellFormed(t) && name in t.columns
    ensures |vals| == |Window(t.records, start, stop)|
  {
    var w := Window(t.records, start, stop);
    seq(|w|, i requires 0 <= i < |w| => assert w[i] in w; w[i].cells[name])
  }

  /** The k-th entry of every row. */
  function Column(rows: seq<seq<real>>, k: nat): (col: seq<real>)
    requires forall i :: 0 <= i < |rows| ==> k < |rows[i]|
    ensures |col| == |rows|
  {
    seq(|rows|, i requires 0 <= i < |rows| => rows[i][k])
  }

  /** The real readings: every value except the sentinel, in order. */
  function Present(vals: seq<real>): (r: seq<real>)
    ensures |r| <= |vals|
  {
    if vals == [] then []
    else
      var last := vals[|vals| - 1];
      Present(vals[..|vals| - 1]) + (if last == Sentinel then [] else [last])
  }

  function Sum(vals: seq<real>): real {
    if vals == [] then 0.0 else Sum(vals[..|vals| - 1]) + vals[|vals| - 1]
  }

  /** The arithmetic mean, absent for no values. */
  function Mean(vals: seq<real>): (m: Option<real>)
    ensures m.None? <==> vals == []
  {
    if vals == [] then None else Some(Sum(vals) / |vals| as real)
  }

  /** The average of one channel over the window: sentinels count neither in the sum nor in the count. */
  function ChannelAverage(t: Table, name: string, start: int, stop: int): Option<real>
    requires WellFormed(t) && name in t.columns
  {
    Mean(Present(ColumnValues(t, name, start, stop)))
  }

  /**
   * The averaged tuple of a station's table: ValueError for a depth not
   * monitored there, QuerySyntaxError when a channel column is missing,
   * otherwise one average per sensor, in sensor order.
   */
  function AverageTemperature(t: Table, start: int, interval: int, depth: int): Result<seq<Option<real>>, Exception>
    requires WellFormed(t)
  {
    if depth !in Depths(t.columns) then Err(ValueError)
    else if !ColumnsExist(t, QueryNames(depth)) then Err(QuerySyntaxError)
    else Ok(Averages(t, QueryNames(depth), start, start + interval))
  }

  /** The average of every queried channel over the window, in query order. */
  function Averages(t: Table, names: seq<string>, start: int, stop: int): (avgs: seq<Option<real>>)
    requires WellFormed(t) && ColumnsExist(t, names)
    ensures |avgs| == |names|
  {
    seq(|names|, k requires 0 <= k < |names| => assert names[k] in names; ChannelAverage(t, names[k], start, stop))
  }

  // Facts about the sequence helpers used by the averaging proofs.

  lemma {:induction false} PresentConcat(a: seq<real>, b: seq<real>)
    ensures Present(a + b) == Present(a) + Present(b)
  {
    if b != [] {
      var b' := b[..|b| - 1];
      var last := b[|b| - 1];
      assert (a + b)[..|a + b| - 1] == a + b';
      assert (a + b)[|a + b| - 1] == last;
      PresentConcat(a, b');
      assert Present(b) == Present(b') + (if last == Sentinel then [] else [last]);
    } else {
      assert a + b == a;
    }
  }

  lemma PresentAppend(vals: seq<real>, x: real)
    ensures Present(vals + [x]) == Present(vals) + (if x == Sentinel then [] else [x])
  {
    assert (vals + [x])[..|vals|] == vals;
  }

  lemma SumAppend(vals: seq<real>, x: real)
    ensures Sum(vals + [x]) == Sum(vals) + x
  {
    assert (vals + [x])[..|vals|] == vals;
  }

  lemma {:induction false} PresentOfSentinels(vals: seq<real>)
    requires forall i :: 0 <= i < |vals| ==> vals[i] == Sentinel
    ensures Present(vals) == []
  {
    if vals != [] {
      PresentOfSentinels(vals[..|vals| - 1]);
    }
  }

  lemma {:induction false} SumBounds(vals: seq<real>, lo: real, hi: real)
    requires forall i :: 0 <= i < |vals| ==> lo <= vals[i] <= hi
    ensures |vals| as real * lo <= Sum(vals) <= |vals| as real * hi
  {
    if vals != [] {
      SumBounds(vals[..|vals| - 1], lo, hi);
    }
  }

  // Properties of the averaged tuple.

  lemma {:induction false} PresentWithin(vals: seq<real>, lo: real, hi: real)
    requires forall i :: 0 <= i < |vals| && vals[i] != Sentinel ==> lo <= vals[i] <= hi
    ensures forall i :: 0 <= i < |Present(vals)| ==> lo <= Present(vals)[i] <= hi
  {
    if vals != [] {
      PresentWithin(vals[..|vals| - 1], lo, hi);
    }
  }

  lemma QuotientWithin(s: real, n: real, lo: real, hi: real)
    requires n > 0.0 && n * lo <= s <= n * hi
    ensures lo <= s / n <= hi
  {
  }

  lemma MeanWithin(vals: seq<real>, lo: real, hi: real)
    requires forall i :: 0 <= i < |vals| ==> lo <= vals[i] <= hi
    ensures Mean(vals).Some? ==> lo <= Mean(vals).value <= hi
  {
    if vals != [] {
      SumBounds(vals, lo, hi);
      QuotientWithin(Sum(vals), |vals| as real, lo, hi);
    }
  }

  /** A mean lies between the smallest and the largest real reading. */
  lemma MeanWithinReadings(vals: seq<real>, lo: real, hi: real)
    requires forall i :: 0 <= i < |vals| && vals[i] != Sentinel ==> lo <= vals[i] <= hi
    ensures Mean(Present(vals)).Some? ==> lo <= Mean(Present(vals)).value <= hi
  {
    PresentWithin(vals, lo, hi);
    MeanWithin(Present(vals), lo, hi);
  }

  /** Sentinels are left out of both the sum and the count: [20, missing, 22] averages to 21. */
  lemma SentinelExcludedFromMean()
    ensures Mean(Present([20.0, Sentinel, 22.0])) == Some(21.0)
  {
    assert Present([20.0]) == [20.0] by {
      assert [20.0][..0] == [];
    }
    assert Present([20.0, Sentinel]) == [20.0] by {
      assert [20.0, Sentinel][..1] == [20.0];
    }
    assert [20.0, Sentinel, 22.0][..2] == [20.0, Sentinel];
    assert Present([20.0, Sentinel, 22.0]) == [20.0, 22.0];
    assert [20.0, 22.0][..1] == [20.0];
  }

  /** A channel whose in-window readings are all missing averages to None, never to zero or the sentinel. */
  lemma AllMissingIsAbsent(t: Table, name: string, start: int, stop: int)
    requires WellFormed(t) && name in t.columns
    requires forall r :: r in t.records && start <= r.time < stop ==> r.cells[name] == Sentinel
    ensures ChannelAverage(t, name, start, stop) == None
  {
    var w := Window(t.records, start, stop);
    var vals := ColumnValues(t, name, start, stop);
    forall i | 0 <= i < |vals| ensures vals[i] == Sentinel {
      assert w[i] in w;
    }
    PresentOfSentinels(vals);
  }

  /** With no record in the window, every sensor's average is None. */
  lemma EmptyWindowIsAbsent(t: Table, start: int, interval: int, depth: int)
    requires WellFormed(t)
    requires forall r :: r in t.records ==> !(start <= r.time < start + interval)
    ensures AverageTemperature(t, start, interval, depth).Ok? ==>
      AverageTemperature(t, start, interval, depth).value == [None, None, None, None]
  {
    if AverageTemperature(t, start, interval, depth).Ok? {
      var names := QueryNames(depth);
      forall k | 0 <= k < |Sensors| ensures ChannelAverage(t, names[k], start, start + interval) == None {
        AllMissingIsAbsent(t, names[k], start, start + interval);
      }
    }
  }

  lemma {:induction false} WindowAppend(records: seq<Record>, r: Record, start: int, stop: int)
    ensures Window(records + [r], start, stop) ==
      Window(records, start, stop) + (if start <= r.time < stop then [r] else [])
  {
    if records != [] {
      assert (records + [r])[1..] == records[1..] + [r];
      WindowAppend(records[1..], r, start, stop);
    } else {
      assert Window([r], start, stop) == (if start <= r.time < stop then [r] else []) + Window([], start, stop);
    }
  }

  /** The table after one more record is stored at its end. */
  function Appended(t: Table, r: Record): Table {
    Table(t.columns, t.records + [r])
  }

  lemma ColumnValuesAppend(t: Table, r: Record, name: string, start: int, stop: int)
    requires WellFormed(t) && WellFormed(Appended(t, r)) && name in t.columns
    ensures start <= r.time < stop ==>
      ColumnValues(Appended(t, r), name, start, stop) == ColumnValues(t, name, start, stop) + [r.cells[name]]
    ensures !(start <= r.time < stop) ==>
      ColumnValues(Appended(t, r), name, start, stop) == ColumnValues(t, name, start, stop)
  {
    WindowAppend(t.records, r, start, stop);
    assert r in Appended(t, r).records;
    if !(start <= r.time < stop) {
      assert Window(Appended(t, r).records, start, stop) == Window(t.records, start, stop);
    }
  }

  /**
   * The window is half-open: a record stored at the window's end (or
   * anywhere else outside it) changes no average.
   */
  lemma OutsideRecordIgnored(t: Table, r: Record, start: int, interval: int, depth: int)
    requires WellFormed(t) && WellFormed(Appended(t, r))
    requires !(start <= r.time < start + interval)
    ensures AverageTemperature(Appended(t, r), start, interval, depth) == AverageTemperature(t, start, interval, depth)
  {
    var stop := start + interval;
    if depth in Depths(t.columns) && ColumnsExist(t, QueryNames(depth)) {
      var names := QueryNames(depth);
      var t' := Appended(t, r);
      forall k | 0 <= k < |names|
        ensures Averages(t', names, start, stop)[k] == Averages(t, names, start, stop)[k]
      {
        assert names[k] in names;
        ColumnValuesAppend(t, r, names[k], start, stop);
      }
      assert Averages(t', names, start, stop) == Averages(t, names, start, stop);
    }
  }

  /** One real reading is enough for a channel to have an average. */
  lemma RealReadingAverages(vals: seq<real>, x: real)
    requires x != Sentinel
    ensures Mean(Present(vals + [x])).Some?
  {
    PresentAppend(vals, x);
  }

  /** A record stored at the window's start with a real reading gives its channel an average. */
  lemma StartRecordCounted(t: Table, r: Record, name: string, interval: int)
    requires WellFormed(t) && WellFormed(Appended(t, r)) && name in t.columns && interval > 0
    requires r.cells[name] != Sentinel
    ensures ChannelAverage(Appended(t, r), name, r.time, r.time + interval).Some?
  {
    var stop := r.time + interval;
    var vals, x := ColumnValues(t, name, r.time, stop), r.cells[name];
    ColumnValuesAppend(t, r, name, r.time, stop);
    var vals' := ColumnValues(Appended(t, r), name, r.time, stop);
    assert vals' == vals + [x];
    RealReadingAverages(vals, x);
  }

  // ---------------------------------------------------------------------
  // The numeric matrix of the averaging step
  // ---------------------------------------------------------------------

  /** The seed row of sentinels adds nothing to any channel of the fetched rows. */
  lemma ChannelsOfRows(t: Table, names: seq<string>, start: int, stop: int, rows: seq<seq<real>>)
    requires WellFormed(t) && ColumnsExist(t, names) && |names| == |Sensors|
    requires rows == [seq(|Sensors|, _ => Sentinel)] + Fetch(t, names, start, stop)
    ensures forall k :: 0 <= k < |Sensors| ==>
      Present(Column(rows, k)) == Present(ColumnValues(t, names[k], start, stop))
  {
    forall k | 0 <= k < |Sensors|
      ensures Present(Column(rows, k)) == Present(ColumnValues(t, names[k], start, stop))
    {
      var vals := ColumnValues(t, names[k], start, stop);
      assert Column(rows, k) == [Sentinel] + vals;
      PresentConcat([Sentinel], vals);
      assert Present([Sentinel]) == [] by {
        assert [Sentinel][..0] == [];
      }
    }
  }

  /** A matrix cell: a number or NaN. */
  datatype Cell = Num(value: real) | NaN

  /** The cell a stored value becomes once sentinels are replaced by NaN. */
  function Masked(v: real): Cell {
    if v == Sentinel then NaN else Num(v)
  }

  /** Replaces every sentinel cell of the matrix by NaN, in place. */
  method MaskSentinels(mtx: array2<Cell>)
    modifies mtx
    ensures forall i, j :: 0 <= i < mtx.Length0 && 0 <= j < mtx.Length1 ==>
      mtx[i, j] == (if old(mtx[i, j]) == Num(Sentinel) then NaN else old(mtx[i, j]))
  {
    var i := 0;
    while i < mtx.Length0
      invariant 0 <= i <= mtx.Length0
      invariant forall a, b :: 0 <= a < mtx.Length0 && 0 <= b < mtx.Length1 ==>
        mtx[a, b] == (if a < i && old(mtx[a, b]) == Num(Sentinel) then NaN else old(mtx[a, b]))
    {
      var j := 0;
      while j < mtx.Length1
        invariant 0 <= j <= mtx.Length1
        invariant forall a, b :: 0 <= a < mtx.Length0 && 0 <= b < mtx.Length1 ==>
          mtx[a, b] == (if (a < i || (a == i && b < j)) && old(mtx[a, b]) == Num(Sentinel) then NaN else old(mtx[a, b]))
      {
        if mtx[i, j] == Num(Sentinel) {
          mtx[i, j] := NaN;
        }
        j := j + 1;
      }
      i := i + 1;
    }
  }

  /** The matrix holds `rows`, with sentinels masked as NaN. */
  ghost predicate MaskedRows(mtx: array2<Cell>, rows: seq<seq<real>>)
    reads mtx
  {
    && |rows| == mtx.Length0
    && (forall i :: 0 <= i < |rows| ==> |rows[i]| == mtx.Length1)
    && forall i, j :: 0 <= i < mtx.Length0 && 0 <= j < mtx.Length1 ==> mtx[i, j] == Masked(rows[i][j])
  }

  /** The NaN-ignoring mean of one column, NaN for a column without any number. */
  method ColumnNanMean(mtx: array2<Cell>, k: nat, ghost rows: seq<seq<real>>) returns (m: Cell)
    requires k < mtx.Length1 && MaskedRows(mtx, rows)
    ensures match Mean(Present(Column(rows, k)))
      case None => m == NaN
      case Some(v) => m == Num(v)
  {
    var sum, count := 0.0, 0;
    var i := 0;
    while i < mtx.Length0
      invariant 0 <= i <= mtx.Length0
      invariant sum == Sum(Present(Column(rows[..i], k)))
      invariant count == |Present(Column(rows[..i], k))|
    {
      ghost var before := Column(rows[..i], k);
      ghost var x := rows[i][k];
      assert Column(rows[..i + 1], k) == before + [x];
      PresentAppend(before, x);
      assert mtx[i, k] == Masked(x);
      if mtx[i, k].Num? {
        assert x != Sentinel && mtx[i, k].value == x;
        assert Present(Column(rows[..i + 1], k)) == Present(before) + [x];
        SumAppend(Present(before), x);
        sum, count := sum + mtx[i, k].value, count + 1;
      } else {
        assert Present(Column(rows[..i + 1], k)) == Present(before);
      }
      i := i + 1;
    }
    assert rows[..i] == rows;
    m := if count == 0 then NaN else Num(sum / count as real);
  }

  /** The NaN-ignoring mean of every column, in column order. */
  method NanMean(mtx: array2<Cell>, ghost rows: seq<seq<real>>) returns (means: seq<Cell>)
    requires MaskedRows(mtx, rows)
    ensures |means| == mtx.Length1
    ensures forall k :: 0 <= k < |means| ==>
      match Mean(Present(Column(rows, k)))
      case None => means[k] == NaN
      case Some(v) => means[k] == Num(v)
  {
    means := [];
    var k := 0;
    while k < mtx.Length1
      invariant 0 <= k <= mtx.Length1 && |means| == k
      invariant forall c :: 0 <= c < k ==>
        match Mean(Present(Column(rows, c)))
        case None => means[c] == NaN
        case Some(v) => means[c] == Num(v)
    {
      var m := ColumnNanMean(mtx, k, rows);
      means := means + [m];
      k := k + 1;
    }
  }

  // ---------------------------------------------------------------------
  // The connector
  // ---------------------------------------------------------------------

  class MonitorSqlConnector {
    /** Base column id of each sensor. */
    const sensors: seq<int>
    /** The tables of the database the connection reaches, by station number. */
    const store: map<int, Table>

    predicate Valid() {
      sensors == Sensors && StoreWellFormed(store)
    }

    constructor (store: map<int, Table>)
      requires StoreWellFormed(store)
      ensures Valid() && this.store == store
    {
      this.sensors := Sensors;
      this.store := store;
    }

    /** All depths (in tenths) monitored at a station. */
    method GetDepths(station: int) returns (result: set<int>)
      requires Valid()
      ensures result == Depths(TableOf(store, station).columns)
    {
      var columns := DepthColumns(TableOf(store, station).columns);
      result := {};
      var i := 0;
      while i < |columns|
        invariant 0 <= i <= |columns|
        invariant result == Offsets(columns[..i])
      {
        assert columns[..i + 1] == columns[..i] + [columns[i]];
        OffsetsAppend(columns[..i], columns[i]);
        result := result + {columns[i] - sensors[0]};
        i := i + 1;
      }
      assert columns[..i] == columns;
    }

    /**
     * The readings of every sensor at a station, depth and exact time,
     * with missing readings as None.
     */
    method GetTemperature(station: int, timestamp: int, depth: int) returns (r: Result<seq<Option<real>>, Exception>)
      requires Valid()
      ensures var t := TableOf(store, station);
        if depth !in Depths(t.columns) then r == Err(ValueError)
        else if !ColumnsExist(t, QueryNames(depth)) then r == Err(QuerySyntaxError)
        else match FirstAt(t.records, timestamp)
          case None => r == Err(TypeError)
          case Some(rec) => r == Ok(NoneForSentinel(Select(rec, QueryNames(depth))))
    {
      var depths := GetDepths(station);
      if depth !in depths {
        return Err(ValueError);
      }
      var t := TableOf(store, station);
      var names := QueryNames(depth);
      if !ColumnsExist(t, names) {
        return Err(QuerySyntaxError);
      }
      var row := FirstAt(t.records, timestamp);
      if row.None? {
        return Err(TypeError);
      }
      r := Ok(NoneForSentinel(Select(row.value, names)));
    }

    /**
     * The average of every sensor at a station and depth over the window
     * [start, start + interval): a seed row of sentinels is stacked on the
     * fetched rows, the all-sentinel case yields all None, and otherwise
     * sentinels become NaN before the column means.
     */
    method GetAverageTemperature(station: int, start: int, interval: int, depth: int)
      returns (r: Result<seq<Option<real>>, Exception>)
      requires Valid()
      ensures r == AverageTemperature(TableOf(store, station), start, interval, depth)
    {
      var depths := GetDepths(station);
      if depth !in depths {
        return Err(ValueError);
      }
      var t := TableOf(store, station);
      var result := [seq(|sensors|, _ => Sentinel)];
      var names := QueryNames(depth);
      var stop := start + interval;
      if !ColumnsExist(t, names) {
        return Err(QuerySyntaxError);
      }
      result := result + Fetch(t, names, start, stop);

      var width := |sensors|;
      assert forall i :: 0 <= i < |result| ==> |result[i]| == width;
      var mtx := new Cell[|result|, width]((i: nat, j: nat) =>
        if i < |result| && j < |result[i]| then Num(result[i][j]) else NaN);
      ChannelsOfRows(t, names, start, stop, result);

      if forall i, j | 0 <= i < mtx.Length0 && 0 <= j < mtx.Length1 :: mtx[i, j] == Num(Sentinel) {
        forall k | 0 <= k < width ensures Present(Column(result, k)) == [] {
          forall i | 0 <= i < |result| ensures Column(result, k)[i] == Sentinel {
            assert mtx[i, k] == Num(Sentinel);
          }
          PresentOfSentinels(Column(result, k));
        }
        r := Ok(seq(width, _ => None));
        assert r.value == Averages(t, names, start, stop);
      } else {
        MaskSentinels(mtx);
        assert MaskedRows(mtx, result);
        var means := NanMean(mtx, result);
        r := Ok(seq(width, k requires 0 <= k < width => if means[k].NaN? then None else Some(means[k].value)));
        assert r.value == Averages(t, names, start, stop);
      }
    }
  }
}
