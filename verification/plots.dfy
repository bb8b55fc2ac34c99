/** The data side of visualization.py: rows bucketed by sensor, each sensor's times made
    relative to its first-seen time (the bias), and the choice of sensors to plot. The
    drawing itself is not modelled; a `Plot` is the data one chart would show. */
module Plots {
  import opened Base
  import opened Numbers
  import opened Registry
  import opened Faults
  import opened Store

  /** What visualization.py keeps for one sensor across `data_dict` and `time_dict`:
      the bias, the distances and the times relative to the bias, in row order. */
  datatype Series = Series(bias: int, distances: seq<Decimal>, times: seq<int>)

  type Buckets = map<string, Series>

  /** `format_timestamp(timestamp, time_dict, sensor_id)`: the time relative to the
      sensor's bias, recording the bias first when the sensor is new. */
  function FormatTimestamp(time: int, b: Buckets, sensor: string): (r: (int, Buckets))
    ensures sensor in r.1 && r.0 == time - r.1[sensor].bias
    ensures sensor !in b ==> r.0 == 0
    ensures sensor in b ==> r.1 == b
    ensures r.1.Keys == b.Keys + {sensor}
    ensures forall s :: s in b ==> r.1[s] == b[s]
  {
    if sensor in b then (time - b[sensor].bias, b)
    else (0, b[sensor := Series(time, [], [])])
  }

  /** `update_dictionaries(data_entry, data_dict, time_dict)`: one row appended to its
      own sensor's series. */
  function UpdateDictionaries(row: Row, b: Buckets): (r: Buckets)
    ensures r.Keys == b.Keys + {row.sensor}
    ensures forall s :: s in b && s != row.sensor ==> r[s] == b[s]
    ensures row.sensor in b ==> r[row.sensor].bias == b[row.sensor].bias
  {
    var (time, b') := FormatTimestamp(row.timing, b, row.sensor);
    var prior := b'[row.sensor];
    b'[row.sensor := Series(prior.bias, prior.distances + [row.distance], prior.times + [time])]
  }

  /** The bucketing loop of `plot_data` over the rows, starting from `b`. */
  function BucketRows(b: Buckets, rows: seq<Row>): (r: Buckets)
    ensures b.Keys <= r.Keys
    decreases |rows|
  {
    if |rows| == 0 then b else BucketRows(UpdateDictionaries(rows[0], b), rows[1..])
  }

  /** The buckets `plot_data` builds from the rows of one query. */
  function Bucketize(rows: seq<Row>): Buckets {
    BucketRows(map[], rows)
  }

  // Reference definitions of what a bucket should hold

  /** The rows of one sensor, in their original order. */
  function OfSensor(rows: seq<Row>, sensor: string): (r: seq<Row>)
    ensures |r| <= |rows|
    decreases |rows|
  {
    if |rows| == 0 then []
    else (if rows[0].sensor == sensor then [rows[0]] else []) + OfSensor(rows[1..], sensor)
  }

  function Distances(rows: seq<Row>): (r: seq<Decimal>)
    ensures |r| == |rows|
  {
    seq(|rows|, i requires 0 <= i < |rows| => rows[i].distance)
  }

  function RelativeTimes(rows: seq<Row>, bias: int): (r: seq<int>)
    ensures |r| == |rows|
  {
    seq(|rows|, i requires 0 <= i < |rows| => rows[i].timing - bias)
  }

  /** A series with the given rows appended, their times taken relative to its bias. */
  function Extend(s: Series, rows: seq<Row>): Series {
    Series(s.bias, s.distances + Distances(rows), s.times + RelativeTimes(rows, s.bias))
  }

  lemma ExtendOne(s: Series, r: Row, rest: seq<Row>)
    ensures Extend(s, [r] + rest)
         == Extend(Series(s.bias, s.distances + [r.distance], s.times + [r.timing - s.bias]), rest)
  {
    assert Distances([r] + rest) == [r.distance] + Distances(rest);
    assert RelativeTimes([r] + rest, s.bias) == [r.timing - s.bias] + RelativeTimes(rest, s.bias);
  }

  /** The bucketing loop extends a known sensor's series by exactly that sensor's rows,
      in order, keeping its bias. */
  lemma {:induction false} BucketRowsKnown(b: Buckets, rows: seq<Row>, sensor: string)
    requires sensor in b
    ensures sensor in BucketRows(b, rows)
    ensures BucketRows(b, rows)[sensor] == Extend(b[sensor], OfSensor(rows, sensor))
    decreases |rows|
  {
    if |rows| == 0 {
      assert Distances([]) == [] && RelativeTimes([], b[sensor].bias) == [];
      assert b[sensor].distances + [] == b[sensor].distances;
      assert b[sensor].times + [] == b[sensor].times;
    } else {
      var r, rest := rows[0], rows[1..];
      var b' := UpdateDictionaries(r, b);
      BucketRowsKnown(b', rest, sensor);
      if r.sensor == sensor {
        assert OfSensor(rows, sensor) == [r] + OfSensor(rest, sensor);
        ExtendOne(b[sensor], r, OfSensor(rest, sensor));
      } else {
        assert OfSensor(rows, sensor) == OfSensor(rest, sensor);
      }
    }
  }

  /** The bucketing loop gives a new sensor a series exactly when some row is its; the
      series starts at that sensor's first row, which fixes its bias. */
  lemma {:induction false} BucketRowsNew(b: Buckets, rows: seq<Row>, sensor: string)
    requires sensor !in b
    ensures sensor in BucketRows(b, rows) <==> OfSensor(rows, sensor) != []
    ensures OfSensor(rows, sensor) != [] ==>
              BucketRows(b, rows)[sensor]
              == Extend(Series(OfSensor(rows, sensor)[0].timing, [], []), OfSensor(rows, sensor))
    decreases |rows|
  {
    if |rows| > 0 {
      var r, rest := rows[0], rows[1..];
      var b' := UpdateDictionaries(r, b);
      if r.sensor == sensor {
        assert OfSensor(rows, sensor) == [r] + OfSensor(rest, sensor);
        BucketRowsKnown(b', rest, sensor);
        ExtendOne(Series(r.timing, [], []), r, OfSensor(rest, sensor));
        assert b'[sensor] == Series(r.timing, [] + [r.distance], [] + [r.timing - r.timing]);
      } else {
        assert OfSensor(rows, sensor) == OfSensor(rest, sensor);
        BucketRowsNew(b', rest, sensor);
      }
    }
  }

  /** The bucketing loop appends each row to its own sensor's series and to no other:
      a known sensor's series is extended by its rows, and a new sensor's series
      starts at its first row, which also fixes its bias. */
  lemma BucketRowsSpec(b: Buckets, rows: seq<Row>, sensor: string)
    ensures sensor in b ==> sensor in BucketRows(b, rows)
                            && BucketRows(b, rows)[sensor] == Extend(b[sensor], OfSensor(rows, sensor))
    ensures sensor !in b ==> (sensor in BucketRows(b, rows) <==> OfSensor(rows, sensor) != [])
    ensures sensor !in b && OfSensor(rows, sensor) != [] ==>
              BucketRows(b, rows)[sensor]
              == Extend(Series(OfSensor(rows, sensor)[0].timing, [], []), OfSensor(rows, sensor))
  {
    if sensor in b {
      BucketRowsKnown(b, rows, sensor);
    } else {
      BucketRowsNew(b, rows, sensor);
    }
  }

  /** The buckets of a query: a sensor has a bucket exactly when some row is its, its
      bias is its first row's time, and its distances and relative times list its rows
      in order. */
  lemma BucketizeSpec(rows: seq<Row>, sensor: string)
    ensures sensor in Bucketize(rows) <==> OfSensor(rows, sensor) != []
    ensures sensor in Bucketize(rows) ==>
              var own := OfSensor(rows, sensor);
              && Bucketize(rows)[sensor].bias == own[0].timing
              && Bucketize(rows)[sensor].distances == Distances(own)
              && Bucketize(rows)[sensor].times == RelativeTimes(own, own[0].timing)
  {
    BucketRowsSpec(map[], rows, sensor);
  }

  /** A sensor's first reading sits at relative time 0, every later reading at its time
      minus that first time, and its distance and time lists have equal length. */
  lemma FirstReadingIsOrigin(rows: seq<Row>, sensor: string)
    requires sensor in Bucketize(rows)
    ensures |Bucketize(rows)[sensor].times| == |Bucketize(rows)[sensor].distances| >= 1
    ensures |Bucketize(rows)[sensor].times| == |OfSensor(rows, sensor)|
    ensures Bucketize(rows)[sensor].times[0] == 0
    ensures forall i :: 0 <= i < |OfSensor(rows, sensor)| ==>
              Bucketize(rows)[sensor].times[i] == OfSensor(rows, sensor)[i].timing - OfSensor(rows, sensor)[0].timing
  {
    BucketizeSpec(rows, sensor);
  }

  // The number of bucketed points

  /** The number of points in the buckets of the given sensors. */
  ghost function PointsOf(b: Buckets, sensors: set<string>): nat
    requires sensors <= b.Keys
    decreases sensors
  {
    if sensors == {} then 0
    else
      var k :| k in sensors;
      |b[k].times| + PointsOf(b, sensors - {k})
  }

  /** The number of points over all buckets. */
  ghost function TotalPoints(b: Buckets): nat {
    PointsOf(b, b.Keys)
  }

  /** The count does not depend on which bucket is counted first. */
  lemma {:induction false} PointsOfWithout(b: Buckets, sensors: set<string>, k: string)
    requires sensors <= b.Keys && k in sensors
    ensures PointsOf(b, sensors) == |b[k].times| + PointsOf(b, sensors - {k})
    decreases sensors
  {
    var k' :| k' in sensors && PointsOf(b, sensors) == |b[k'].times| + PointsOf(b, sensors - {k'});
    if k' != k {
      PointsOfWithout(b, sensors - {k'}, k);
      PointsOfWithout(b, sensors - {k}, k');
      assert sensors - {k'} - {k} == sensors - {k} - {k'};
    }
  }

  /** The count only looks at the buckets of the sensors counted. */
  lemma {:induction false} PointsOfAgree(b: Buckets, b': Buckets, sensors: set<string>)
    requires sensors <= b.Keys && sensors <= b'.Keys
    requires forall s :: s in sensors ==> |b[s].times| == |b'[s].times|
    ensures PointsOf(b, sensors) == PointsOf(b', sensors)
    decreases sensors
  {
    if sensors != {} {
      var k :| k in sensors && PointsOf(b, sensors) == |b[k].times| + PointsOf(b, sensors - {k});
      PointsOfWithout(b', sensors, k);
      PointsOfAgree(b, b', sensors - {k});
    }
  }

  /** Bucketing one row adds exactly one point. */
  lemma UpdateAddsOnePoint(row: Row, b: Buckets)
    ensures TotalPoints(UpdateDictionaries(row, b)) == TotalPoints(b) + 1
  {
    var b' := UpdateDictionaries(row, b);
    var s := row.sensor;
    PointsOfWithout(b', b'.Keys, s);
    PointsOfAgree(b, b', b.Keys - {s});
    if s in b {
      PointsOfWithout(b, b.Keys, s);
      assert b'.Keys - {s} == b.Keys - {s};
    } else {
      assert b'.Keys - {s} == b.Keys - {s} == b.Keys;
      assert b'[s].times == [] + [0];
    }
  }

  /** Bucketing adds one point per row. */
  lemma {:induction false} BucketRowsCountsRows(b: Buckets, rows: seq<Row>)
    ensures TotalPoints(BucketRows(b, rows)) == TotalPoints(b) + |rows|
    decreases |rows|
  {
    if |rows| > 0 {
      UpdateAddsOnePoint(rows[0], b);
      BucketRowsCountsRows(UpdateDictionaries(rows[0], b), rows[1..]);
    }
  }

  /** Every row of a query lands in exactly one bucket: the points total the rows. */
  lemma BucketizeCountsRows(rows: seq<Row>)
    ensures TotalPoints(Bucketize(rows)) == |rows|
  {
    BucketRowsCountsRows(map[], rows);
    var empty: Buckets := map[];
    assert TotalPoints(empty) == 0 by { assert empty.Keys == {}; }
  }

  // Choosing what to plot

  /** The data of one chart: a sensor's times relative to its bias against its distances. */
  datatype Plot = Plot(group: string, sensor: string, bias: int, times: seq<int>, distances: seq<Decimal>)

  /** `plot_sensor_data(group, sensor_id, data_dict, time_dict, display)`: nothing for a
      sensor that has no bucket. */
  function PlotSensorData(group: string, sensor: string, b: Buckets): (r: Option<Plot>)
    ensures r.None? <==> sensor !in b
    ensures r.Some? ==> r.value.sensor == sensor && r.value.bias == b[sensor].bias
                        && r.value.times == b[sensor].times && r.value.distances == b[sensor].distances
  {
    if sensor in b then
      var s := b[sensor];
      Some(Plot(group, sensor, s.bias, s.times, s.distances))
    else None
  }

  /** The sensors `plot_data` tries to plot: the one asked for, else the group's registered set. */
  function SelectedSensors(group: string, sensor: Option<string>): (r: set<string>)
    requires group in Groups
    ensures sensor.None? ==> r == Groups[group]
    ensures sensor.Some? ==> r == {sensor.value}
  {
    if sensor.None? then Groups[group] else {sensor.value}
  }

  /** `plot_data(db_data, group_id, sensor)`: the charts drawn, by sensor. The lookup of
      `GROUPS[group_id]` raises a KeyError for an unregistered group. */
  function PlotData(rows: seq<Row>, group: string, sensor: Option<string>): (r: Result<map<string, Plot>, Fault>)
    ensures group !in Groups <==> r == Err(MissingKey(group))
    ensures r.Ok? ==> r.value.Keys == SelectedSensors(group, sensor) * Bucketize(rows).Keys
    ensures r.Ok? ==> forall s :: s in r.value ==> PlotSensorData(group, s, Bucketize(rows)) == Some(r.value[s])
  {
    if group !in Groups then Err(MissingKey(group))
    else
      var b := Bucketize(rows);
      var chosen := SelectedSensors(group, sensor);
      Ok(map s | s in chosen && s in b :: PlotSensorData(group, s, b).value)
  }

  /** With no sensor named, the charts are those of the group's registered sensors that
      have rows: a registered sensor without rows is skipped, and a row of a sensor
      outside the registry is never drawn. */
  lemma DefaultPlotsAreRegisteredSensors(rows: seq<Row>, group: string, sensor: string)
    requires group in Groups
    ensures PlotData(rows, group, None).Ok?
    ensures sensor in PlotData(rows, group, None).value <==>
              sensor in Groups[group] && OfSensor(rows, sensor) != []
  {
    BucketizeSpec(rows, sensor);
  }
}
