/**
  The pure computations of the batch details view: the temperature-breach
  flag, the chart series, the badge variant and the map marker and route lists.
 */
module BatchDetails {
  import opened Wrappers
  import opened Domain

  // ---------------------------------------------------------------------------
  // Temperature breach

  /**
    A checkpoint reading counts only when it is truthy in JavaScript: an
    absent reading and a reading of exactly 0 are both skipped.
   */
  predicate CheckpointReadingAbove(cp: Checkpoint, limit: real) {
    cp.temperatureCelsius.Some? && cp.temperatureCelsius.value != 0.0 && cp.temperatureCelsius.value > limit
  }

  /** `logs.some(log => log.temperatureCelsius > limit)`. */
  function AnyLogAbove(logs: seq<TemperatureLog>, limit: real): (r: bool)
    ensures r <==> exists i | 0 <= i < |logs| :: logs[i].temperatureCelsius > limit
  {
    if logs == [] then false
    else if logs[0].temperatureCelsius > limit then true
    else
      var rest := AnyLogAbove(logs[1..], limit);
      assert forall i | 1 <= i < |logs| :: logs[i] == logs[1..][i - 1];
      rest
  }

  /** `cps.some(cp => cp.temperatureCelsius && cp.temperatureCelsius > limit)`. */
  function AnyCheckpointAbove(cps: seq<Checkpoint>, limit: real): (r: bool)
    ensures r <==> exists i | 0 <= i < |cps| :: CheckpointReadingAbove(cps[i], limit)
  {
    if cps == [] then false
    else if CheckpointReadingAbove(cps[0], limit) then true
    else
      var rest := AnyCheckpointAbove(cps[1..], limit);
      assert forall i | 1 <= i < |cps| :: cps[i] == cps[1..][i - 1];
      rest
  }

  /** `isTemperatureBreached` of the details view. */
  function IsTemperatureBreached(b: Batch): (r: bool)
    ensures r <==>
      (exists i | 0 <= i < |b.temperatureLogs| :: b.temperatureLogs[i].temperatureCelsius > b.temperatureLimitCelsius)
      || (exists i | 0 <= i < |b.checkpoints| :: CheckpointReadingAbove(b.checkpoints[i], b.temperatureLimitCelsius))
  {
    AnyLogAbove(b.temperatureLogs, b.temperatureLimitCelsius)
    || AnyCheckpointAbove(b.checkpoints, b.temperatureLimitCelsius)
  }

  /** The readings the breach test looks at: every log reading and every truthy checkpoint reading. */
  function Readings(b: Batch): multiset<real> {
    multiset(LogReadings(b.temperatureLogs)) + multiset(CheckpointReadings(b.checkpoints))
  }

  function LogReadings(logs: seq<TemperatureLog>): (r: seq<real>)
    ensures |r| == |logs|
    ensures forall i | 0 <= i < |logs| :: r[i] == logs[i].temperatureCelsius
  {
    seq(|logs|, i requires 0 <= i < |logs| => logs[i].temperatureCelsius)
  }

  function CheckpointReadings(cps: seq<Checkpoint>): (r: seq<real>)
    ensures forall x | x in r :: x != 0.0
    ensures forall i | 0 <= i < |cps| && cps[i].temperatureCelsius.Some? && cps[i].temperatureCelsius.value != 0.0
              :: cps[i].temperatureCelsius.value in r
    ensures forall x | x in r :: exists i | 0 <= i < |cps| :: cps[i].temperatureCelsius == Some(x)
  {
    if cps == [] then []
    else
      var rest := CheckpointReadings(cps[1..]);
      assert forall i | 1 <= i < |cps| :: cps[i] == cps[1..][i - 1];
      match cps[0].temperatureCelsius
      case Some(t) => if t != 0.0 then [t] + rest else rest
      case None => rest
  }

  /**
    A batch is breached exactly when one of its readings lies strictly above
    its limit; a reading equal to the limit never counts.
   */
  lemma {:induction false} BreachedIffReadingAboveLimit(b: Batch)
    ensures IsTemperatureBreached(b) <==> exists x | x in Readings(b) :: x > b.temperatureLimitCelsius
  {
    var limit := b.temperatureLimitCelsius;
    var logs, cps := b.temperatureLogs, b.checkpoints;
    if IsTemperatureBreached(b) {
      if AnyLogAbove(logs, limit) {
        var i :| 0 <= i < |logs| && logs[i].temperatureCelsius > limit;
        assert LogReadings(logs)[i] in multiset(LogReadings(logs));
        assert LogReadings(logs)[i] in Readings(b);
      } else {
        var i :| 0 <= i < |cps| && CheckpointReadingAbove(cps[i], limit);
        assert cps[i].temperatureCelsius.value in multiset(CheckpointReadings(cps));
        assert cps[i].temperatureCelsius.value in Readings(b);
      }
    }
    if exists x | x in Readings(b) :: x > limit {
      var x :| x in Readings(b) && x > limit;
      if x in multiset(LogReadings(logs)) {
        assert x in LogReadings(logs);
        var i :| 0 <= i < |logs| && LogReadings(logs)[i] == x;
        assert logs[i].temperatureCelsius > limit;
        assert AnyLogAbove(logs, limit);
      } else {
        assert x in multiset(CheckpointReadings(cps));
        assert x in CheckpointReadings(cps);
        var i :| 0 <= i < |cps| && cps[i].temperatureCelsius == Some(x);
        assert CheckpointReadingAbove(cps[i], limit);
        assert AnyCheckpointAbove(cps, limit);
      }
    }
  }

  /** Rearranging the logs or the checkpoints does not change the flag. */
  lemma ReorderingKeepsBreach(b: Batch, logs: seq<TemperatureLog>, cps: seq<Checkpoint>)
    requires multiset(logs) == multiset(b.temperatureLogs)
    requires multiset(cps) == multiset(b.checkpoints)
    ensures IsTemperatureBreached(b.(temperatureLogs := logs, checkpoints := cps)) == IsTemperatureBreached(b)
  {
    var limit := b.temperatureLimitCelsius;
    forall i | 0 <= i < |logs| ensures logs[i] in multiset(b.temperatureLogs) {
      assert logs[i] in multiset(logs);
    }
    forall i | 0 <= i < |b.temperatureLogs| ensures b.temperatureLogs[i] in multiset(logs) {
      assert b.temperatureLogs[i] in multiset(b.temperatureLogs);
    }
    forall i | 0 <= i < |cps| ensures cps[i] in multiset(b.checkpoints) {
      assert cps[i] in multiset(cps);
    }
    forall i | 0 <= i < |b.checkpoints| ensures b.checkpoints[i] in multiset(cps) {
      assert b.checkpoints[i] in multiset(b.checkpoints);
    }
  }

  /** Recording one more log reading never clears a breach. */
  lemma AddingLogKeepsBreach(b: Batch, log: TemperatureLog)
    requires IsTemperatureBreached(b)
    ensures IsTemperatureBreached(b.(temperatureLogs := b.temperatureLogs + [log]))
  {
    var logs := b.temperatureLogs + [log];
    if AnyLogAbove(b.temperatureLogs, b.temperatureLimitCelsius) {
      var i :| 0 <= i < |b.temperatureLogs| && b.temperatureLogs[i].temperatureCelsius > b.temperatureLimitCelsius;
      assert logs[i] == b.temperatureLogs[i];
    }
  }

  /** Recording one more checkpoint never clears a breach. */
  lemma AddingCheckpointKeepsBreach(b: Batch, cp: Checkpoint)
    requires IsTemperatureBreached(b)
    ensures IsTemperatureBreached(b.(checkpoints := b.checkpoints + [cp]))
  {
    var cps := b.checkpoints + [cp];
    if AnyCheckpointAbove(b.checkpoints, b.temperatureLimitCelsius) {
      var i :| 0 <= i < |b.checkpoints| && CheckpointReadingAbove(b.checkpoints[i], b.temperatureLimitCelsius);
      assert cps[i] == b.checkpoints[i];
    }
  }

  /**
    A checkpoint reading of exactly 0 is ignored even below a negative limit,
    while a log reading of 0 is not.
   */
  lemma ZeroReadingQuirk(b: Batch)
    requires b.temperatureLimitCelsius < 0.0
    ensures var cp := Checkpoint("", "", "", "", Some(0.0), None, Manufacturer);
      IsTemperatureBreached(b.(checkpoints := b.checkpoints + [cp])) == IsTemperatureBreached(b)
    ensures IsTemperatureBreached(b.(temperatureLogs := b.temperatureLogs + [TemperatureLog("", 0.0, None)]))
  {
    var cp := Checkpoint("", "", "", "", Some(0.0), None, Manufacturer);
    var cps := b.checkpoints + [cp];
    var logs := b.temperatureLogs + [TemperatureLog("", 0.0, None)];
    assert logs[|logs| - 1].temperatureCelsius > b.temperatureLimitCelsius;
    if AnyCheckpointAbove(cps, b.temperatureLimitCelsius) {
      var i :| 0 <= i < |cps| && CheckpointReadingAbove(cps[i], b.temperatureLimitCelsius);
      assert i < |b.checkpoints| && cps[i] == b.checkpoints[i];
    }
    if AnyCheckpointAbove(b.checkpoints, b.temperatureLimitCelsius) {
      var i :| 0 <= i < |b.checkpoints| && CheckpointReadingAbove(b.checkpoints[i], b.temperatureLimitCelsius);
      assert cps[i] == b.checkpoints[i];
    }
  }

  // ---------------------------------------------------------------------------
  // Chart, badge, map

  /** One chart point; the source formats the time label for display, here it is the raw timestamp. */
  datatype ChartPoint = ChartPoint(time: string, temperature: real, limit: real)

  function ChartData(b: Batch): (r: seq<ChartPoint>)
    ensures |r| == |b.temperatureLogs|
    ensures forall i | 0 <= i < |r| ::
      r[i].time == b.temperatureLogs[i].timestamp
      && r[i].temperature == b.temperatureLogs[i].temperatureCelsius
      && r[i].limit == b.temperatureLimitCelsius
  {
    seq(|b.temperatureLogs|, i requires 0 <= i < |b.temperatureLogs| =>
      ChartPoint(b.temperatureLogs[i].timestamp, b.temperatureLogs[i].temperatureCelsius, b.temperatureLimitCelsius))
  }

  /** The chart draws a point above its own limit line exactly when the batch's logs breach. */
  lemma ChartShowsLogBreach(b: Batch)
    ensures AnyLogAbove(b.temperatureLogs, b.temperatureLimitCelsius)
      <==> exists i | 0 <= i < |ChartData(b)| :: ChartData(b)[i].temperature > ChartData(b)[i].limit
  {
    var logs, chart := b.temperatureLogs, ChartData(b);
    if AnyLogAbove(logs, b.temperatureLimitCelsius) {
      var i :| 0 <= i < |logs| && logs[i].temperatureCelsius > b.temperatureLimitCelsius;
      assert chart[i].temperature > chart[i].limit;
    }
    if exists i | 0 <= i < |chart| :: chart[i].temperature > chart[i].limit {
      var i :| 0 <= i < |chart| && chart[i].temperature > chart[i].limit;
      assert logs[i].temperatureCelsius > b.temperatureLimitCelsius;
    }
  }

  datatype BadgeVariant = Destructive | Default | Secondary

  function StatusBadge(b: Batch): (v: BadgeVariant)
    ensures v == Destructive <==> IsTemperatureBreached(b)
    ensures v == Default <==> !IsTemperatureBreached(b) && b.status == Delivered
    ensures v == Secondary <==> !IsTemperatureBreached(b) && b.status != Delivered
  {
    if IsTemperatureBreached(b) then Destructive
    else if b.status == Delivered then Default
    else Secondary
  }

  datatype Marker = Marker(gps: string, caption: string)

  /**
    Origin marker (first checkpoint's GPS, or the current GPS when there is
    no checkpoint or its GPS is empty), one marker per checkpoint, and a
    destination marker whose position is the destination's name.
   */
  function MapMarkers(b: Batch): (r: seq<Marker>)
    ensures |r| == |b.checkpoints| + 2
    ensures r[0].caption == b.origin
    ensures r[0].gps == if |b.checkpoints| > 0 && b.checkpoints[0].gpsCoordinates != "" then b.checkpoints[0].gpsCoordinates else b.currentLocationGps
    ensures forall i | 0 <= i < |b.checkpoints| ::
      r[i + 1] == Marker(b.checkpoints[i].gpsCoordinates, b.checkpoints[i].locationName)
    ensures r[|r| - 1] == Marker(b.destination, "Dest: " + b.destination)
  {
    var cps := b.checkpoints;
    var origin := if |cps| > 0 && cps[0].gpsCoordinates != "" then cps[0].gpsCoordinates else b.currentLocationGps;
    [Marker(origin, b.origin)]
    + seq(|cps|, i requires 0 <= i < |cps| => Marker(cps[i].gpsCoordinates, cps[i].locationName))
    + [Marker(b.destination, "Dest: " + b.destination)]
  }

  /** `.filter(Boolean)` on a list of GPS texts: drop the empty ones, keep the order. */
  function DropEmpty(xs: seq<string>): (r: seq<string>)
    ensures |r| <= |xs|
    ensures forall i | 0 <= i < |r| :: r[i] != ""
    ensures forall x :: x in r <==> x in xs && x != ""
    ensures (forall i | 0 <= i < |xs| :: xs[i] != "") ==> r == xs
  {
    if xs == [] then []
    else
      var rest := DropEmpty(xs[1..]);
      assert xs == [xs[0]] + xs[1..];
      if xs[0] == "" then rest else [xs[0]] + rest
  }

  /** Dropping distributes over concatenation, so the kept entries keep their order. */
  lemma {:induction false} DropEmptyAppend(xs: seq<string>, ys: seq<string>)
    ensures DropEmpty(xs + ys) == DropEmpty(xs) + DropEmpty(ys)
  {
    if xs == [] {
      assert xs + ys == ys;
    } else {
      var x, xs' := xs[0], xs[1..];
      assert xs + ys == [x] + (xs' + ys);
      assert (xs + ys)[1..] == xs' + ys;
      DropEmptyAppend(xs', ys);
      if x != "" {
        assert [x] + (DropEmpty(xs') + DropEmpty(ys)) == ([x] + DropEmpty(xs')) + DropEmpty(ys);
      }
    }
  }

  function CheckpointGps(cps: seq<Checkpoint>): (r: seq<string>)
    ensures |r| == |cps| && forall i | 0 <= i < |cps| :: r[i] == cps[i].gpsCoordinates
  {
    seq(|cps|, i requires 0 <= i < |cps| => cps[i].gpsCoordinates)
  }

  /**
    `[cps[0]?.gps, ...cps.map(gps), currentGps].filter(Boolean)`; a missing
    first checkpoint contributes nothing, like `undefined` in the source.
   */
  function RoutePolyline(b: Batch): (r: seq<string>)
    ensures forall x :: x in r <==>
      (x != "" && (x == b.currentLocationGps || exists i | 0 <= i < |b.checkpoints| :: b.checkpoints[i].gpsCoordinates == x))
  {
    var cps := b.checkpoints;
    var first := if |cps| > 0 then [cps[0].gpsCoordinates] else [];
    var all := first + CheckpointGps(cps) + [b.currentLocationGps];
    assert forall x :: x in all <==>
      (x == b.currentLocationGps || exists i | 0 <= i < |cps| :: cps[i].gpsCoordinates == x) by {
      forall x | x in all ensures x == b.currentLocationGps || exists i | 0 <= i < |cps| :: cps[i].gpsCoordinates == x {
        if x in first { assert cps[0].gpsCoordinates == x; }
        else if x in CheckpointGps(cps) { var i :| 0 <= i < |cps| && CheckpointGps(cps)[i] == x; }
      }
      forall x | exists i | 0 <= i < |cps| :: cps[i].gpsCoordinates == x ensures x in all {
        var i :| 0 <= i < |cps| && cps[i].gpsCoordinates == x;
        assert CheckpointGps(cps)[i] == x;
      }
    }
    DropEmpty(all)
  }

  /**
    The route has no empty entry and at most |checkpoints| + 2 points; it
    starts at the first checkpoint's GPS (drawn twice) and ends at the
    current GPS whenever those are non-empty, and with no empty GPS at all
    it is exactly first checkpoint, every checkpoint, current position.
   */
  lemma RoutePolylineShape(b: Batch)
    ensures var r, cps := RoutePolyline(b), b.checkpoints;
      && |r| <= |cps| + 2
      && (forall i | 0 <= i < |r| :: r[i] != "")
      && (b.currentLocationGps != "" ==> |r| > 0 && r[|r| - 1] == b.currentLocationGps)
      && (|cps| > 0 && cps[0].gpsCoordinates != "" ==> |r| >= 2 && r[0] == r[1] == cps[0].gpsCoordinates)
      && ((forall i | 0 <= i < |cps| :: cps[i].gpsCoordinates != "") && b.currentLocationGps != "" && |cps| > 0
          ==> r == [cps[0].gpsCoordinates] + CheckpointGps(cps) + [b.currentLocationGps])
  {
    var cps := b.checkpoints;
    var first := if |cps| > 0 then [cps[0].gpsCoordinates] else [];
    var gps := CheckpointGps(cps);
    var cur := [b.currentLocationGps];
    DropEmptyAppend(first + gps, cur);
    DropEmptyAppend(first, gps);
    if |cps| > 0 && cps[0].gpsCoordinates != "" {
      DropEmptyAppend([cps[0].gpsCoordinates], gps[1..]);
      assert gps == [cps[0].gpsCoordinates] + gps[1..];
    }
  }
}
