/**
 * The application's data assembly: resolving a structure to its stations
 * and sensor coordinates, gathering the day-averaged readings of every
 * station in station order, and listing the depths offered for a structure.
 */
module App {
  import opened Wrappers
  import opened SqlConnector

  /** Length of the averaging window: one day, in seconds. */
  const DayLength: int := 24 * 3600

  datatype Point = Point(x: real, y: real)

  /** One station of a structure: its number in the database and the coordinates of its sensors. */
  datatype StationInfo = StationInfo(number: int, coordinates: seq<Point>)

  /** A structure: the size of its footprint and its stations, in their configured order. */
  datatype StructureInfo = StructureInfo(size: (real, real), stations: seq<StationInfo>)

  /** The structure data, by structure name. */
  type Data = map<string, StructureInfo>

  // ---------------------------------------------------------------------
  // Structure information
  // ---------------------------------------------------------------------

  /** The station numbers, in station order. */
  function Numbers(stations: seq<StationInfo>): (numbers: seq<int>)
    ensures |numbers| == |stations|
  {
    seq(|stations|, i requires 0 <= i < |stations| => stations[i].number)
  }

  /** Every station's coordinate list, concatenated in station order. */
  function Coordinates(stations: seq<StationInfo>): seq<Point> {
    if stations == [] then []
    else Coordinates(stations[..|stations| - 1]) + stations[|stations| - 1].coordinates
  }

  /** Size, station numbers and sensor points of a named structure; KeyError for an unknown name. */
  method GetStructureInfo(data: Data, structure: string)
    returns (r: Result<((real, real), seq<int>, seq<Point>), Exception>)
    ensures structure !in data ==> r == Err(KeyError)
    ensures structure in data ==>
      r == Ok((data[structure].size, Numbers(data[structure].stations), Coordinates(data[structure].stations)))
  {
    if structure !in data {
      return Err(KeyError);
    }
    var stations: seq<int> := [];
    var points: seq<Point> := [];
    var info := data[structure];
    var size := info.size;
    var stationInfo := info.stations;
    var i := 0;
    while i < |stationInfo|
      invariant 0 <= i <= |stationInfo|
      invariant stations == Numbers(stationInfo[..i])
      invariant points == Coordinates(stationInfo[..i])
    {
      stations := stations + [stationInfo[i].number];
      points := points + stationInfo[i].coordinates;
      assert stationInfo[..i + 1][..i] == stationInfo[..i];
      i := i + 1;
    }
    assert stationInfo[..i] == stationInfo;
    r := Ok((size, stations, points));
  }

  lemma {:induction false} CoordinatesAppend(stations: seq<StationInfo>, more: seq<StationInfo>)
    ensures Coordinates(stations + more) == Coordinates(stations) + Coordinates(more)
    decreases |more|
  {
    if more != [] {
      var init := more[..|more| - 1];
      assert (stations + more)[..|stations + more| - 1] == stations + init;
      CoordinatesAppend(stations, init);
    } else {
      assert stations + more == stations;
    }
  }

  /**
   * The points are each station's coordinates in turn: when every station
   * has one coordinate per sensor, the points of station i are exactly the
   * four points at positions 4i to 4i + 3.
   */
  lemma {:induction false} CoordinatesLayout(stations: seq<StationInfo>)
    requires forall i :: 0 <= i < |stations| ==> |stations[i].coordinates| == |Sensors|
    ensures |Coordinates(stations)| == |Sensors| * |stations|
    ensures forall i :: 0 <= i < |stations| ==>
      Coordinates(stations)[|Sensors| * i .. |Sensors| * (i + 1)] == stations[i].coordinates
  {
    if stations != [] {
      var init := stations[..|stations| - 1];
      CoordinatesLayout(init);
      var n := |Sensors|;
      var points := Coordinates(stations);
      assert points == Coordinates(init) + stations[|stations| - 1].coordinates;
      forall i | 0 <= i < |stations| ensures points[n * i .. n * (i + 1)] == stations[i].coordinates {
        if i < |init| {
          assert points[n * i .. n * (i + 1)] == Coordinates(init)[n * i .. n * (i + 1)];
        }
      }
    }
  }

  // ---------------------------------------------------------------------
  // Values
  // ---------------------------------------------------------------------

  /**
   * The averaged tuples of the stations over the day starting at
   * `timestamp`, concatenated in station order; the first station whose
   * average fails makes the whole gathering fail.
   */
  function Values(store: map<int, Table>, stations: seq<int>, timestamp: int, depth: int)
    : Result<seq<Option<real>>, Exception>
    requires StoreWellFormed(store)
  {
    if stations == [] then Ok([])
    else
      match AverageTemperature(TableOf(store, stations[0]), timestamp, DayLength, depth)
      case Err(e) => Err(e)
      case Ok(first) => Prefixed(first, Values(store, stations[1..], timestamp, depth))
  }

  /** A successful result with `head` put in front, or the same failure. */
  function Prefixed(head: seq<Option<real>>, r: Result<seq<Option<real>>, Exception>): Result<seq<Option<real>>, Exception> {
    match r
    case Err(e) => Err(e)
    case Ok(rest) => Ok(head + rest)
  }

  lemma PrefixedEmpty(r: Result<seq<Option<real>>, Exception>)
    ensures Prefixed([], r) == r
  {
    if r.Ok? {
      assert [] + r.value == r.value;
    }
  }

  lemma PrefixedConcat(a: seq<Option<real>>, b: seq<Option<real>>, r: Result<seq<Option<real>>, Exception>)
    ensures Prefixed(a, Prefixed(b, r)) == Prefixed(a + b, r)
  {
    if r.Ok? {
      assert a + (b + r.value) == (a + b) + r.value;
    }
  }

  /**
   * Gathering succeeds exactly when every station's average succeeds; the
   * values then hold four entries per station, and the entries of station i
   * are its averaged tuple for the one-day window.
   */
  lemma {:induction false} ValuesLayout(store: map<int, Table>, stations: seq<int>, timestamp: int, depth: int)
    requires StoreWellFormed(store)
    ensures Values(store, stations, timestamp, depth).Ok? <==>
      forall i :: 0 <= i < |stations| ==> AverageTemperature(TableOf(store, stations[i]), timestamp, DayLength, depth).Ok?
    ensures Values(store, stations, timestamp, depth).Ok? ==>
      var vs := Values(store, stations, timestamp, depth).value;
      |vs| == |Sensors| * |stations| &&
      forall i :: 0 <= i < |stations| ==>
        vs[|Sensors| * i .. |Sensors| * (i + 1)] == AverageTemperature(TableOf(store, stations[i]), timestamp, DayLength, depth).value
  {
    if stations != [] {
      var rest := stations[1..];
      ValuesLayout(store, rest, timestamp, depth);
      var head := AverageTemperature(TableOf(store, stations[0]), timestamp, DayLength, depth);
      forall i | 0 < i < |stations| ensures stations[i] == rest[i - 1] { }
      if head.Ok? && Values(store, rest, timestamp, depth).Ok? {
        var n := |Sensors|;
        var tail := Values(store, rest, timestamp, depth).value;
        var vs := head.value + tail;
        forall i | 0 <= i < |stations|
          ensures vs[n * i .. n * (i + 1)] == AverageTemperature(TableOf(store, stations[i]), timestamp, DayLength, depth).value
        {
          if i > 0 {
            assert vs[n * i .. n * (i + 1)] == tail[n * (i - 1) .. n * i];
          }
        }
      }
    }
  }

  /** The averaged tuple of every station for the day starting at `timestamp`, concatenated in station order. */
  method GetValues(connection: MonitorSqlConnector, stations: seq<int>, timestamp: int, depth: int)
    returns (r: Result<seq<Option<real>>, Exception>)
    requires connection.Valid()
    ensures r == Values(connection.store, stations, timestamp, depth)
  {
    var values: seq<Option<real>> := [];
    var interval := DayLength;
    var i := 0;
    assert stations[i..] == stations;
    PrefixedEmpty(Values(connection.store, stations, timestamp, depth));
    while i < |stations|
      invariant 0 <= i <= |stations|
      invariant Values(connection.store, stations, timestamp, depth) ==
        Prefixed(values, Values(connection.store, stations[i..], timestamp, depth))
    {
      var avg := connection.GetAverageTemperature(stations[i], timestamp, interval, depth);
      assert stations[i..][1..] == stations[i + 1..];
      if avg.Err? {
        return Err(avg.error);
      }
      PrefixedConcat(values, avg.value, Values(connection.store, stations[i + 1..], timestamp, depth));
      values := values + avg.value;
      i := i + 1;
    }
    assert values + [] == values;
    r := Ok(values);
  }

  /**
   * Points and values line up: when every station has one coordinate per
   * sensor and the gathering succeeds, there are as many points as values,
   * and position 4i + k holds, on both sides, sensor k of station i: its
   * coordinate in the points and its day average in the values.
   */
  lemma PointsMatchValues(info: StructureInfo, store: map<int, Table>, timestamp: int, depth: int)
    requires StoreWellFormed(store)
    requires forall i :: 0 <= i < |info.stations| ==> |info.stations[i].coordinates| == |Sensors|
    requires Values(store, Numbers(info.stations), timestamp, depth).Ok?
    ensures |Coordinates(info.stations)| == |Sensors| * |info.stations|
    ensures |Values(store, Numbers(info.stations), timestamp, depth).value| == |Sensors| * |info.stations|
    ensures forall i, k :: 0 <= i < |info.stations| && 0 <= k < |Sensors| ==>
      && Coordinates(info.stations)[|Sensors| * i + k] == info.stations[i].coordinates[k]
      && AverageTemperature(TableOf(store, info.stations[i].number), timestamp, DayLength, depth).Ok?
      && Values(store, Numbers(info.stations), timestamp, depth).value[|Sensors| * i + k] ==
        AverageTemperature(TableOf(store, info.stations[i].number), timestamp, DayLength, depth).value[k]
  {
    var stations := info.stations;
    var n := |Sensors|;
    var points := Coordinates(stations);
    var numbers := Numbers(stations);
    CoordinatesLayout(stations);
    ValuesLayout(store, numbers, timestamp, depth);
    var vs := Values(store, numbers, timestamp, depth).value;
    forall i, k | 0 <= i < |stations| && 0 <= k < n
      ensures points[n * i + k] == stations[i].coordinates[k]
      ensures AverageTemperature(TableOf(store, stations[i].number), timestamp, DayLength, depth).Ok?
      ensures vs[n * i + k] == AverageTemperature(TableOf(store, stations[i].number), timestamp, DayLength, depth).value[k]
    {
      assert numbers[i] == stations[i].number;
      assert points[n * i + k] == points[n * i .. n * (i + 1)][k];
      assert vs[n * i + k] == vs[n * i .. n * (i + 1)][k];
    }
  }

  // ---------------------------------------------------------------------
  // Depth list
  // ---------------------------------------------------------------------

  predicate IsLeast(m: int, s: set<int>) {
    m in s && forall y :: y in s ==> m <= y
  }

  /** Every non-empty finite set of integers has a least element. */
  lemma {:induction false} HasLeast(s: set<int>)
    requires s != {}
    ensures exists m :: IsLeast(m, s)
    decreases s
  {
    // A non-empty set has an element; this case split lets the `:|` below go through.
    if forall y :: y !in s {
      assert false;
    }
    var x :| x in s;
    if s == {x} {
      assert IsLeast(x, s);
    } else {
      var rest := s - {x};
      HasLeast(rest);
      var m :| IsLeast(m, rest);
      forall y | y in s ensures y == x || y in rest { }
      if x < m {
        assert IsLeast(x, s);
      } else {
        assert IsLeast(m, s);
      }
    }
  }

  /** The elements of a finite set of integers in ascending order. */
  function Sorted(s: set<int>): (r: seq<int>)
    ensures |r| == |s|
    ensures forall x :: x in r <==> x in s
    ensures forall i, j :: 0 <= i < j < |r| ==> r[i] < r[j]
    decreases s
  {
    if s == {} then []
    else
      HasLeast(s);
      var m :| IsLeast(m, s);
      [m] + Sorted(s - {m})
  }

  /** A depth stored in tenths, as offered for selection. */
  function Tenths(d: int): real {
    d as real / 10.0
  }

  /** `c` is one of `depths`, converted from tenths. */
  predicate IsTenthsOf(c: real, depths: set<int>) {
    exists d :: d in depths && c == Tenths(d)
  }

  /** The depths offered for selection: ascending, converted from tenths. */
  function DepthChoices(depths: set<int>): (choices: seq<real>)
    ensures |choices| == |depths|
    ensures forall i, j :: 0 <= i < j < |choices| ==> choices[i] < choices[j]
    ensures forall d :: d in depths ==> Tenths(d) in choices
    ensures forall i :: 0 <= i < |choices| ==> IsTenthsOf(choices[i], depths)
  {
    var sorted := Sorted(depths);
    var choices := Scaled(sorted);
    ScaledAscending(sorted, choices);
    ScaledMembers(depths, sorted, choices);
    choices
  }

  /** Each depth of `tenths` converted from tenths. */
  function Scaled(tenths: seq<int>): (r: seq<real>)
    ensures |r| == |tenths|
    ensures forall i :: 0 <= i < |tenths| ==> r[i] == Tenths(tenths[i])
  {
    seq(|tenths|, i requires 0 <= i < |tenths| => Tenths(tenths[i]))
  }

  lemma ScaledAscending(sorted: seq<int>, choices: seq<real>)
    requires forall i, j :: 0 <= i < j < |sorted| ==> sorted[i] < sorted[j]
    requires |choices| == |sorted| && forall i :: 0 <= i < |sorted| ==> choices[i] == Tenths(sorted[i])
    ensures forall i, j :: 0 <= i < j < |choices| ==> choices[i] < choices[j]
  {
    forall i, j | 0 <= i < j < |choices| ensures choices[i] < choices[j] {
      assert sorted[i] < sorted[j];
    }
  }

  lemma ScaledMembers(depths: set<int>, sorted: seq<int>, choices: seq<real>)
    requires forall x :: x in sorted <==> x in depths
    requires |choices| == |sorted| && forall i :: 0 <= i < |sorted| ==> choices[i] == Tenths(sorted[i])
    ensures forall d :: d in depths ==> Tenths(d) in choices
    ensures forall i :: 0 <= i < |choices| ==> IsTenthsOf(choices[i], depths)
  {
    forall d | d in depths ensures Tenths(d) in choices {
      var i :| 0 <= i < |sorted| && sorted[i] == d;
      assert choices[i] == Tenths(d);
    }
    forall i | 0 <= i < |choices| ensures IsTenthsOf(choices[i], depths) {
      assert sorted[i] in sorted;
      assert sorted[i] in depths && choices[i] == Tenths(sorted[i]);
    }
  }

  /**
   * The depths offered for a structure, as read from its first station.
   * KeyError for an unknown structure, IndexError for one without stations.
   */
  method UpdateDepths(connection: MonitorSqlConnector, data: Data, structure: string)
    returns (r: Result<seq<real>, Exception>)
    requires connection.Valid()
    ensures structure !in data ==> r == Err(KeyError)
    ensures structure in data && data[structure].stations == [] ==> r == Err(IndexError)
    ensures structure in data && data[structure].stations != [] ==>
      r == Ok(DepthChoices(Depths(TableOf(connection.store, data[structure].stations[0].number).columns)))
  {
    if structure !in data {
      return Err(KeyError);
    }
    var info := data[structure];
    if info.stations == [] {
      return Err(IndexError);
    }
    var stationNum := info.stations[0].number;
    var depths := connection.GetDepths(stationNum);
    r := Ok(DepthChoices(depths));
  }
}
