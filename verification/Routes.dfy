/** The route row of internal/db/models/route.go, and how processLog in internal/logparser/queue.go
    folds one decoded segment into it. */
module Routes {
  import opened Prelude
  import opened MachineInts
  import opened Decoder

  const MILES_PER_METER: real := 0.000621371

  datatype Time = ZeroTime | UnixNanos(nanos: int64)

  datatype Route = Route(
    deviceID: nat, routeID: string,
    firstClockWallTimeNanos: uint64, firstClockLogMonoTime: uint64, initLogMonoTime: uint64,
    gitBranch: string, gitRemote: string, gitDirty: bool, gitCommit: string,
    platform: string, radar: bool, version: string,
    startTime: Time, endTime: Time, startLat: real, startLng: real, endLat: real, endLng: real,
    length: real, allSegmentsProcessed: bool,
    segmentStartTimes: seq<int64>, segmentEndTimes: seq<int64>, segmentNumbers: seq<int64>)
  {
    /** GetWallTimeFromBootTime: two wrapping operations, left to right. */
    function WallTime(bootTime: uint64): uint64 {
      WrapUint64(WrapUint64(firstClockWallTimeNanos + bootTime) - firstClockLogMonoTime)
    }
  }

  /** The row processLog builds when no route is stored yet. */
  function FreshRoute(deviceID: nat, routeID: string, s: SegmentData): Route {
    Route(deviceID, routeID, 0, 0, s.initLogMonoTime, s.gitBranch, s.gitRemote, s.gitDirty, s.gitCommit,
          s.carModel, true, s.version, ZeroTime, ZeroTime, 0.0, 0.0, 0.0, 0.0, 0.0, false, [], [], [])
  }

  /** The two clock fields after a segment: each is latched by itself, while it is still zero. */
  function LatchClocks(r: Route, s: SegmentData): Route {
    r.(firstClockLogMonoTime := if r.firstClockLogMonoTime == 0 then s.firstClockLogMonoTime
                                else r.firstClockLogMonoTime,
       firstClockWallTimeNanos := if r.firstClockWallTimeNanos == 0 then s.firstClockWallTimeNanos
                                  else r.firstClockWallTimeNanos)
  }

  /** The start time after a segment whose clocks have been latched already. */
  function StartTime(r: Route, s: SegmentData): Time {
    var wall := r.WallTime(s.initLogMonoTime);
    if r.startTime == ZeroTime && s.initLogMonoTime != 0 && 0 < wall <= MAX_INT64
    then UnixNanos(wall) else r.startTime
  }

  /** The row after the fields that only the earliest segments set. */
  function Started(r: Route, s: SegmentData): Route {
    var c := LatchClocks(r, s);
    var located := r.startLat == 0.0 && r.startLng == 0.0 && s.kalmanPositions != [];
    c.(startTime := StartTime(c, s),
       startLat := if located then s.kalmanPositions[0].latitude else r.startLat,
       startLng := if located then s.kalmanPositions[0].longitude else r.startLng)
  }

  /** The row after the fields that every segment extends. */
  function Extended(c: Route, s: SegmentData): Route {
    var ps := s.kalmanPositions;
    var end := ToInt64(c.WallTime(s.endLogMonoTime));
    c.(segmentStartTimes := c.segmentStartTimes + [ToInt64(c.WallTime(s.initLogMonoTime))],
       segmentEndTimes := c.segmentEndTimes + [end],
       segmentNumbers := c.segmentNumbers + [WrapInt64(|c.segmentNumbers| + 1)],
       length := c.length + Miles(s),
       endLat := if s.endOfRoute && ps != [] then ps[|ps| - 1].latitude else c.endLat,
       endLng := if s.endOfRoute && ps != [] then ps[|ps| - 1].longitude else c.endLng,
       endTime := if s.endOfRoute then UnixNanos(end) else c.endTime,
       allSegmentsProcessed := c.allSegmentsProcessed || s.endOfRoute)
  }

  /** A segment folded into a route: the specification of the updates processLog makes in place. */
  function ApplySegment(r: Route, s: SegmentData): Route { Extended(Started(r, s), s) }

  function Miles(s: SegmentData): real {
    if s.totalDistance > 0.0 then s.totalDistance * MILES_PER_METER else 0.0
  }

  /** One job's effect on the row it found. */
  function FoldSegment(row: Option<Route>, deviceID: nat, routeID: string, s: SegmentData): Route {
    ApplySegment(if row.Some? then row.value else FreshRoute(deviceID, routeID, s), s)
  }

  /** The sequential fold of a list of jobs, in order. */
  function FoldAll(row: Option<Route>, deviceID: nat, routeID: string, segs: seq<SegmentData>): Option<Route> {
    if segs == [] then row
    else
      var n := |segs| - 1;
      Some(FoldSegment(FoldAll(row, deviceID, routeID, segs[..n]), deviceID, routeID, segs[n]))
  }

  /** The statements of processLog between the lookup of the route and the save, in their order. */
  method UpdateRoute(row: Option<Route>, deviceID: nat, routeID: string, s: SegmentData) returns (route: Route)
    ensures route == FoldSegment(row, deviceID, routeID, s)
  {
    if row.Some? {
      route := row.value;
    } else {
      route := FreshRoute(deviceID, routeID, s);
    }
    route := StartRoute(route, s);
    route := ExtendRoute(route, s);
  }

  method StartRoute(r: Route, s: SegmentData) returns (route: Route)
    ensures route == Started(r, s)
  {
    route := r;
    if route.firstClockLogMonoTime == 0 && s.firstClockLogMonoTime != 0 {
      route := route.(firstClockLogMonoTime := s.firstClockLogMonoTime);
    }
    if route.firstClockWallTimeNanos == 0 && s.firstClockWallTimeNanos != 0 {
      route := route.(firstClockWallTimeNanos := s.firstClockWallTimeNanos);
    }
    var startTime := FirstStartTime(route, s);
    route := route.(startTime := startTime);
    if route.startLat == 0.0 && route.startLng == 0.0 && |s.kalmanPositions| > 0 {
      route := route.(startLat := s.kalmanPositions[0].latitude, startLng := s.kalmanPositions[0].longitude);
    }
  }

  method FirstStartTime(route: Route, s: SegmentData) returns (startTime: Time)
    ensures startTime == StartTime(route, s)
  {
    startTime := route.startTime;
    if startTime == ZeroTime && s.initLogMonoTime != 0 {
      var wallTime := route.WallTime(s.initLogMonoTime);
      if wallTime > 0 && wallTime <= MAX_INT64 {
        startTime := UnixNanos(wallTime);
      }
    }
  }

  method ExtendRoute(r: Route, s: SegmentData) returns (route: Route)
    ensures route == Extended(r, s)
  {
    var start := ToInt64(r.WallTime(s.initLogMonoTime));
    var end := ToInt64(r.WallTime(s.endLogMonoTime));
    route := r.(segmentStartTimes := r.segmentStartTimes + [start]);
    route := route.(segmentEndTimes := route.segmentEndTimes + [end]);
    var nextSegmentNum := |route.segmentNumbers| + 1;
    if nextSegmentNum >= 0 {
      route := route.(segmentNumbers := route.segmentNumbers + [WrapInt64(nextSegmentNum)]);
    }
    if s.totalDistance > 0.0 {
      route := route.(length := route.length + s.totalDistance * MILES_PER_METER);
    }
    if s.endOfRoute {
      if |s.kalmanPositions| > 0 {
        var lastPos := s.kalmanPositions[|s.kalmanPositions| - 1];
        route := route.(endLat := lastPos.latitude, endLng := lastPos.longitude);
      }
      route := route.(endTime := UnixNanos(end), allSegmentsProcessed := true);
    }
  }

  // ----- Wall-clock arithmetic -----

  /** Boot-to-wall conversion is exact whenever the true result fits, even if the sum wraps. */
  lemma WallTimeIsExact(r: Route, bootTime: uint64)
    ensures var exact := r.firstClockWallTimeNanos + bootTime - r.firstClockLogMonoTime;
            r.WallTime(bootTime) == exact <==> 0 <= exact < TWO_64
  {
    var sum := r.firstClockWallTimeNanos + bootTime;
    var exact := sum - r.firstClockLogMonoTime;
    ModOfMod(sum, r.firstClockLogMonoTime);
    assert r.WallTime(bootTime) == exact % TWO_64;
  }

  lemma ModOfMod(a: int, b: int)
    ensures (a % TWO_64 - b) % TWO_64 == (a - b) % TWO_64
  {
    var q := a / TWO_64;
    assert a - b == (a % TWO_64 - b) + q * TWO_64;
    AddMultiple(a % TWO_64 - b, q);
  }

  lemma AddMultiple(x: int, q: int)
    ensures (x + q * TWO_64) % TWO_64 == x % TWO_64
  {
    var k := x / TWO_64;
    var y := x + q * TWO_64;
    assert y == (k + q) * TWO_64 + x % TWO_64;
    assert 0 <= x % TWO_64 < TWO_64;
  }

  /** It is strictly monotone on the boot times whose true wall time fits. */
  lemma WallTimeIsMonotone(r: Route, b1: uint64, b2: uint64)
    requires b1 < b2
    requires 0 <= r.firstClockWallTimeNanos + b1 - r.firstClockLogMonoTime
    requires r.firstClockWallTimeNanos + b2 - r.firstClockLogMonoTime < TWO_64
    ensures r.WallTime(b1) < r.WallTime(b2)
    ensures r.WallTime(b2) - r.WallTime(b1) == b2 - b1
  {
    WallTimeIsExact(r, b1);
    WallTimeIsExact(r, b2);
  }

  /** Each appended end minus start is the segment's mono-time difference, modulo 2^64, whatever
      clocks the route has latched. */
  lemma AppendedSpanIsMonoSpan(r: Route, s: SegmentData)
    ensures var t, n := ApplySegment(r, s), |r.segmentStartTimes|;
            var m := |r.segmentEndTimes|;
            && |t.segmentStartTimes| == n + 1
            && |t.segmentEndTimes| == m + 1
            && WrapUint64(t.segmentEndTimes[m] as int - t.segmentStartTimes[n] as int)
               == WrapUint64(s.endLogMonoTime as int - s.initLogMonoTime as int)
  {
    var c := LatchClocks(r, s);
    WallSpan(c, s.initLogMonoTime, s.endLogMonoTime);
  }

  lemma WallSpan(c: Route, b1: uint64, b2: uint64)
    ensures WrapUint64(ToInt64(c.WallTime(b2)) - ToInt64(c.WallTime(b1))) == WrapUint64(b2 - b1)
  {
    var w, m := c.firstClockWallTimeNanos, c.firstClockLogMonoTime;
    ModOfMod(w + b1, m);
    ModOfMod(w + b2, m);
    var q1, q2 := (w + b1 - m) / TWO_64, (w + b2 - m) / TWO_64;
    var x1, x2 := c.WallTime(b1), c.WallTime(b2);
    var o1 := if x1 < TWO_63 then 0 else 1;
    var o2 := if x2 < TWO_63 then 0 else 1;
    assert ToInt64(x2) - ToInt64(x1) == (b2 - b1) + (q1 - q2 + o1 - o2) * TWO_64;
    AddMultiple(b2 - b1, q1 - q2 + o1 - o2);
  }

  // ----- What a whole fold leaves in the row -----

  /** The three arrays of a row grow together and the numbers are 1, 2, 3, ... */
  ghost predicate WellNumbered(r: Route) {
    && |r.segmentStartTimes| == |r.segmentEndTimes| == |r.segmentNumbers| <= MAX_INT64
    && forall k | 0 <= k < |r.segmentNumbers| :: r.segmentNumbers[k] == k + 1
  }

  function TotalMiles(segs: seq<SegmentData>): real {
    if segs == [] then 0.0 else TotalMiles(segs[..|segs| - 1]) + Miles(segs[|segs| - 1])
  }

  /** A mile is 1609.344 metres, to six decimals of the factor. */
  lemma MilesAreMiles(s: SegmentData)
    ensures 0.999999 < 1609.344 * MILES_PER_METER < 1.000001
    ensures s.totalDistance > 0.0 ==> Miles(s) == s.totalDistance * 0.000621371
    ensures s.totalDistance <= 0.0 ==> Miles(s) == 0.0
  {
  }

  lemma FoldSnoc(row: Option<Route>, deviceID: nat, routeID: string, segs: seq<SegmentData>, s: SegmentData)
    ensures FoldAll(row, deviceID, routeID, segs + [s]) ==
            Some(FoldSegment(FoldAll(row, deviceID, routeID, segs), deviceID, routeID, s))
  {
    assert (segs + [s])[..|segs|] == segs;
  }

  /** How many entries a row has, and how long it is; a row not stored yet has none and no length. */
  function RowCount(row: Option<Route>): nat { if row.Some? then |row.value.segmentNumbers| else 0 }

  function RowLength(row: Option<Route>): real { if row.Some? then row.value.length else 0.0 }

  function RowDone(row: Option<Route>): bool { row.Some? && row.value.allSegmentsProcessed }

  ghost predicate GoodRow(row: Option<Route>) { row.Some? ==> WellNumbered(row.value) }

  lemma CountStep(row: Option<Route>, deviceID: nat, routeID: string, s: SegmentData)
    requires GoodRow(row) && RowCount(row) < MAX_INT64
    ensures var r := FoldSegment(row, deviceID, routeID, s);
            WellNumbered(r) && |r.segmentNumbers| == RowCount(row) + 1
  {
    WrapIsIdentityInRange(RowCount(row) + 1);
  }

  /** Jobs folded into a row, stored or not, add one entry each and go on counting. */
  lemma {:induction false} FoldCounts(row: Option<Route>, deviceID: nat, routeID: string, segs: seq<SegmentData>)
    requires GoodRow(row) && RowCount(row) + |segs| <= MAX_INT64
    ensures var r := FoldAll(row, deviceID, routeID, segs);
            && (r.Some? <==> row.Some? || segs != [])
            && GoodRow(r) && RowCount(r) == RowCount(row) + |segs|
  {
    if segs != [] {
      var init, last := segs[..|segs| - 1], segs[|segs| - 1];
      assert init + [last] == segs;
      FoldCounts(row, deviceID, routeID, init);
      FoldSnoc(row, deviceID, routeID, init, last);
      CountStep(FoldAll(row, deviceID, routeID, init), deviceID, routeID, last);
    }
  }

  lemma SumStep(row: Option<Route>, deviceID: nat, routeID: string, s: SegmentData)
    ensures var r := FoldSegment(row, deviceID, routeID, s);
            && r.length == RowLength(row) + Miles(s)
            && r.deviceID == (if row.Some? then row.value.deviceID else deviceID)
            && r.routeID == (if row.Some? then row.value.routeID else routeID)
            && r.allSegmentsProcessed == (RowDone(row) || s.endOfRoute)
  {
  }

  /** They add their distances, and the row is complete if it was or some job saw the end. */
  lemma {:induction false} FoldSums(row: Option<Route>, deviceID: nat, routeID: string, segs: seq<SegmentData>)
    ensures var r := FoldAll(row, deviceID, routeID, segs);
            RowLength(r) == RowLength(row) + TotalMiles(segs) && (RowDone(r) <==> RowDone(row) || SomeEnd(segs))
  {
    if segs != [] {
      var init, last := segs[..|segs| - 1], segs[|segs| - 1];
      assert init + [last] == segs;
      FoldSums(row, deviceID, routeID, init);
      FoldSnoc(row, deviceID, routeID, init, last);
      SumStep(FoldAll(row, deviceID, routeID, init), deviceID, routeID, last);
      SomeEndSnoc(init, last);
    }
  }

  lemma {:induction false} FoldKeepsKey(deviceID: nat, routeID: string, segs: seq<SegmentData>)
    requires segs != []
    ensures var r := FoldAll(None, deviceID, routeID, segs);
            r.Some? && r.value.deviceID == deviceID && r.value.routeID == routeID
  {
    var n := |segs| - 1;
    if n > 0 { FoldKeepsKey(deviceID, routeID, segs[..n]); }
    SumStep(FoldAll(None, deviceID, routeID, segs[..n]), deviceID, routeID, segs[n]);
  }

  /** A row folded from nothing: one entry per job in each array, numbers 1..n, the sum of the
      distances, and a completion flag that says some job saw the end of the route. */
  lemma FoldFromScratch(deviceID: nat, routeID: string, segs: seq<SegmentData>)
    requires 0 < |segs| <= MAX_INT64
    ensures var r := FoldAll(None, deviceID, routeID, segs);
            && r.Some? && WellNumbered(r.value) && |r.value.segmentNumbers| == |segs|
            && r.value.length == TotalMiles(segs)
            && r.value.deviceID == deviceID && r.value.routeID == routeID
            && (r.value.allSegmentsProcessed <==> SomeEnd(segs))
  {
    FoldCounts(None, deviceID, routeID, segs);
    FoldSums(None, deviceID, routeID, segs);
    FoldKeepsKey(deviceID, routeID, segs);
  }

  ghost predicate SomeEnd(segs: seq<SegmentData>) { exists i :: 0 <= i < |segs| && segs[i].endOfRoute }

  lemma SomeEndSnoc(segs: seq<SegmentData>, s: SegmentData)
    ensures SomeEnd(segs + [s]) <==> SomeEnd(segs) || s.endOfRoute
  {
    var all := segs + [s];
    assert all[|segs|] == s;
    if i :| 0 <= i < |segs| && segs[i].endOfRoute { assert all[i].endOfRoute; }
  }

  // ----- Where a whole fold starts and ends -----

  /** The segment has a first position that is not taken for an unset one. */
  predicate Locates(s: SegmentData) {
    s.kalmanPositions != [] && !(s.kalmanPositions[0].latitude == 0.0 && s.kalmanPositions[0].longitude == 0.0)
  }

  predicate EndsLocated(s: SegmentData) { s.endOfRoute && s.kalmanPositions != [] }

  ghost predicate IsFirst(segs: seq<SegmentData>, p: SegmentData -> bool, i: int) {
    0 <= i < |segs| && p(segs[i]) && forall j | 0 <= j < i :: !p(segs[j])
  }

  ghost predicate IsLast(segs: seq<SegmentData>, p: SegmentData -> bool, i: int) {
    0 <= i < |segs| && p(segs[i]) && forall j | i < j < |segs| :: !p(segs[j])
  }

  /** What identifies the recording comes from the first job, whatever the later ones carry. */
  lemma {:induction false} IdentityFromFirstJob(deviceID: nat, routeID: string, segs: seq<SegmentData>)
    requires segs != []
    ensures var r := FoldAll(None, deviceID, routeID, segs);
            && r.Some?
            && (r.value.gitBranch, r.value.gitRemote, r.value.gitDirty, r.value.gitCommit) ==
               (segs[0].gitBranch, segs[0].gitRemote, segs[0].gitDirty, segs[0].gitCommit)
            && (r.value.platform, r.value.version, r.value.initLogMonoTime) ==
               (segs[0].carModel, segs[0].version, segs[0].initLogMonoTime)
            && r.value.radar
  {
    var n := |segs| - 1;
    if n > 0 { IdentityFromFirstJob(deviceID, routeID, segs[..n]); }
  }

  function StartOf(row: Option<Route>): (real, real) {
    if row.Some? then (row.value.startLat, row.value.startLng) else (0.0, 0.0)
  }

  function EndOf(row: Option<Route>): (real, real) {
    if row.Some? then (row.value.endLat, row.value.endLng) else (0.0, 0.0)
  }

  function FirstPosition(s: SegmentData): (real, real)
    requires s.kalmanPositions != []
  {
    (s.kalmanPositions[0].latitude, s.kalmanPositions[0].longitude)
  }

  function LastPosition(s: SegmentData): (real, real)
    requires s.kalmanPositions != []
  {
    var last := s.kalmanPositions[|s.kalmanPositions| - 1];
    (last.latitude, last.longitude)
  }

  lemma StartStep(row: Option<Route>, deviceID: nat, routeID: string, segs: seq<SegmentData>, s: SegmentData)
    ensures FoldAll(row, deviceID, routeID, segs + [s]).Some?
    ensures var before := StartOf(FoldAll(row, deviceID, routeID, segs));
            StartOf(FoldAll(row, deviceID, routeID, segs + [s])) ==
            if before == (0.0, 0.0) && Locates(s) then FirstPosition(s) else before
  {
    FoldSnoc(row, deviceID, routeID, segs, s);
  }

  /** The start of a route is the first position of the first job that has one other than 0, 0. */
  lemma {:induction false} StartsAtFirstPosition(deviceID: nat, routeID: string, segs: seq<SegmentData>, i: nat)
    requires IsFirst(segs, Locates, i)
    ensures var r := FoldAll(None, deviceID, routeID, segs); r.Some? && StartOf(r) == FirstPosition(segs[i])
    decreases |segs|
  {
    var n := |segs| - 1;
    var init := segs[..n];
    assert init + [segs[n]] == segs;
    StartStep(None, deviceID, routeID, init, segs[n]);
    if i < n {
      assert init[i] == segs[i];
      StartsAtFirstPosition(deviceID, routeID, init, i);
    } else {
      StartsNowhere(deviceID, routeID, init);
    }
  }

  /** Without such a job the start stays at 0, 0. */
  lemma {:induction false} StartsNowhere(deviceID: nat, routeID: string, segs: seq<SegmentData>)
    requires forall j | 0 <= j < |segs| :: !Locates(segs[j])
    ensures var r := FoldAll(None, deviceID, routeID, segs); (segs != [] ==> r.Some?) && StartOf(r) == (0.0, 0.0)
  {
    if segs != [] {
      var init, last := segs[..|segs| - 1], segs[|segs| - 1];
      assert init + [last] == segs;
      StartStep(None, deviceID, routeID, init, last);
      StartsNowhere(deviceID, routeID, init);
    }
  }

  lemma EndStep(row: Option<Route>, deviceID: nat, routeID: string, segs: seq<SegmentData>, s: SegmentData)
    ensures FoldAll(row, deviceID, routeID, segs + [s]).Some?
    ensures EndOf(FoldAll(row, deviceID, routeID, segs + [s])) ==
            if EndsLocated(s) then LastPosition(s) else EndOf(FoldAll(row, deviceID, routeID, segs))
  {
    FoldSnoc(row, deviceID, routeID, segs, s);
  }

  /** The end of a route is the last position of the last folded job that saw the end of the route and
      has a position. */
  lemma {:induction false} EndsAtLastPosition(deviceID: nat, routeID: string, segs: seq<SegmentData>, i: nat)
    requires IsLast(segs, EndsLocated, i)
    ensures var r := FoldAll(None, deviceID, routeID, segs); r.Some? && EndOf(r) == LastPosition(segs[i])
    decreases |segs|
  {
    var n := |segs| - 1;
    var init := segs[..n];
    assert init + [segs[n]] == segs;
    EndStep(None, deviceID, routeID, init, segs[n]);
    if i < n {
      assert init[i] == segs[i];
      EndsAtLastPosition(deviceID, routeID, init, i);
    }
  }

  /** When no job did, the end stays at 0, 0. */
  lemma {:induction false} EndsNowhere(deviceID: nat, routeID: string, segs: seq<SegmentData>)
    requires forall j | 0 <= j < |segs| :: !EndsLocated(segs[j])
    ensures var r := FoldAll(None, deviceID, routeID, segs); (segs != [] ==> r.Some?) && EndOf(r) == (0.0, 0.0)
  {
    if segs != [] {
      var init, last := segs[..|segs| - 1], segs[|segs| - 1];
      assert init + [last] == segs;
      EndStep(None, deviceID, routeID, init, last);
      EndsNowhere(deviceID, routeID, init);
    }
  }

  /** What one job does to the times of the row, in terms of the clocks latched afterwards. */
  lemma TimesStep(row: Option<Route>, deviceID: nat, routeID: string, s: SegmentData)
    ensures var r := FoldSegment(row, deviceID, routeID, s);
            var (starts, ends, startTime) :=
              if row.Some? then (row.value.segmentStartTimes, row.value.segmentEndTimes, row.value.startTime)
              else ([], [], ZeroTime);
            && r.segmentStartTimes == starts + [ToInt64(r.WallTime(s.initLogMonoTime))]
            && r.segmentEndTimes == ends + [ToInt64(r.WallTime(s.endLogMonoTime))]
            && r.startTime == (if startTime == ZeroTime && StartsRoute(r, s)
                               then UnixNanos(r.WallTime(s.initLogMonoTime)) else startTime)
            && r.endTime == if s.endOfRoute then UnixNanos(ToInt64(r.WallTime(s.endLogMonoTime)))
                            else if row.Some? then row.value.endTime else ZeroTime
  {
  }

  /** The segment's start is one that the row's clocks make sense of. */
  predicate StartsRoute(r: Route, s: SegmentData) {
    s.initLogMonoTime != 0 && 0 < r.WallTime(s.initLogMonoTime) <= MAX_INT64
  }

  /** The row after the i-th job, with the clocks latched by then. */
  function RowAfter(deviceID: nat, routeID: string, segs: seq<SegmentData>, i: nat): Route
    requires i < |segs|
  {
    FoldAll(None, deviceID, routeID, segs[..i + 1]).value
  }

  /** The row before the i-th job. */
  function RowBefore(deviceID: nat, routeID: string, segs: seq<SegmentData>, i: nat): Option<Route>
    requires i < |segs|
  {
    if i == 0 then None else Some(RowAfter(deviceID, routeID, segs, i - 1))
  }

  lemma RowAfterSteps(deviceID: nat, routeID: string, segs: seq<SegmentData>, i: nat)
    requires i < |segs|
    ensures RowAfter(deviceID, routeID, segs, i) ==
            FoldSegment(RowBefore(deviceID, routeID, segs, i), deviceID, routeID, segs[i])
  {
    assert segs[..i + 1] == segs[..i] + [segs[i]];
    FoldSnoc(None, deviceID, routeID, segs[..i], segs[i]);
    if i > 0 {
      assert segs[..i] == segs[..i - 1] + [segs[i - 1]];
      FoldSnoc(None, deviceID, routeID, segs[..i - 1], segs[i - 1]);
    }
  }

  lemma {:induction false} EntriesCount(deviceID: nat, routeID: string, segs: seq<SegmentData>, last: nat)
    requires last < |segs|
    ensures var r := RowAfter(deviceID, routeID, segs, last);
            |r.segmentStartTimes| == |r.segmentEndTimes| == last + 1
    decreases last
  {
    RowAfterSteps(deviceID, routeID, segs, last);
    TimesStep(RowBefore(deviceID, routeID, segs, last), deviceID, routeID, segs[last]);
    if last > 0 { EntriesCount(deviceID, routeID, segs, last - 1); }
  }

  /** The i-th entries of the time arrays are the i-th job's mono times, converted with the clocks
      latched by then; later jobs do not revise them. */
  lemma {:induction false} EntriesUseClocksSoFar(
    deviceID: nat, routeID: string, segs: seq<SegmentData>, i: nat, last: nat)
    requires i <= last < |segs|
    ensures var r, c := RowAfter(deviceID, routeID, segs, last), RowAfter(deviceID, routeID, segs, i);
            && |r.segmentStartTimes| == |r.segmentEndTimes| == last + 1
            && r.segmentStartTimes[i] == ToInt64(c.WallTime(segs[i].initLogMonoTime))
            && r.segmentEndTimes[i] == ToInt64(c.WallTime(segs[i].endLogMonoTime))
    decreases last
  {
    EntriesCount(deviceID, routeID, segs, last);
    RowAfterSteps(deviceID, routeID, segs, last);
    TimesStep(RowBefore(deviceID, routeID, segs, last), deviceID, routeID, segs[last]);
    if last > 0 { EntriesCount(deviceID, routeID, segs, last - 1); }
    if i < last { EntriesUseClocksSoFar(deviceID, routeID, segs, i, last - 1); }
  }

  ghost predicate HasStart(deviceID: nat, routeID: string, segs: seq<SegmentData>, i: nat)
    requires i < |segs|
  {
    StartsRoute(RowAfter(deviceID, routeID, segs, i), segs[i])
  }

  /** The start time of a route is set by the first job whose start the clocks latched by then make
      sense of, and later jobs do not revise it; before such a job it is unset. */
  lemma {:induction false} StartsWithFirstTimedJob(
    deviceID: nat, routeID: string, segs: seq<SegmentData>, i: nat, last: nat)
    requires i <= last + 1 <= |segs|
    requires forall j: nat | j < i :: !HasStart(deviceID, routeID, segs, j)
    requires i <= last ==> HasStart(deviceID, routeID, segs, i)
    ensures RowAfter(deviceID, routeID, segs, last).startTime ==
            if i <= last then UnixNanos(RowAfter(deviceID, routeID, segs, i).WallTime(segs[i].initLogMonoTime))
            else ZeroTime
    decreases last
  {
    RowAfterSteps(deviceID, routeID, segs, last);
    TimesStep(RowBefore(deviceID, routeID, segs, last), deviceID, routeID, segs[last]);
    if last > 0 {
      StartsWithFirstTimedJob(deviceID, routeID, segs, if i <= last then i else last, last - 1);
    }
    if i > last { assert !HasStart(deviceID, routeID, segs, last); }
  }

  /** The end time of a route is that of the last folded job that saw the end of the route, converted with
      the clocks latched by then; without one it is unset. */
  lemma {:induction false} EndsWithLastEndingJob(
    deviceID: nat, routeID: string, segs: seq<SegmentData>, i: int, last: nat)
    requires -1 <= i <= last < |segs| && forall j | i < j <= last :: !segs[j].endOfRoute
    requires i >= 0 ==> segs[i].endOfRoute
    ensures RowAfter(deviceID, routeID, segs, last).endTime ==
            if i < 0 then ZeroTime
            else UnixNanos(ToInt64(RowAfter(deviceID, routeID, segs, i).WallTime(segs[i].endLogMonoTime)))
    decreases last
  {
    RowAfterSteps(deviceID, routeID, segs, last);
    TimesStep(RowBefore(deviceID, routeID, segs, last), deviceID, routeID, segs[last]);
    if i < last && last > 0 { EndsWithLastEndingJob(deviceID, routeID, segs, i, last - 1); }
  }

  /** From recordings to the row: the start of a route is the latitude and longitude of the first measured
      event of the first recording whose first one is not at 0, 0. */
  lemma StartIsReading(dist: Distance, deviceID: nat, routeID: string, logs: seq<seq<Item>>, segs: seq<SegmentData>,
                       i: nat) returns (j: nat)
    requires |segs| == |logs| && forall x | 0 <= x < |logs| :: Clean(logs[x]) && segs[x] == Summary(dist, logs[x])
    requires IsFirst(segs, Locates, i)
    ensures FirstMeasured(logs[i], j)
    ensures StartOf(FoldAll(None, deviceID, routeID, segs)) == Coordinates(logs[i][j])
  {
    StartsAtFirstPosition(deviceID, routeID, segs, i);
    var last;
    j, last := EndpointsAreReadings(logs[i]);
  }

  /** The end is that of the last measured event of the last recording with an end marker and such an event. */
  lemma EndIsReading(dist: Distance, deviceID: nat, routeID: string, logs: seq<seq<Item>>, segs: seq<SegmentData>,
                     i: nat) returns (j: nat)
    requires |segs| == |logs| && forall x | 0 <= x < |logs| :: Clean(logs[x]) && segs[x] == Summary(dist, logs[x])
    requires IsLast(segs, EndsLocated, i)
    ensures LastMeasured(logs[i], j)
    ensures EndOf(FoldAll(None, deviceID, routeID, segs)) == Coordinates(logs[i][j])
  {
    EndsAtLastPosition(deviceID, routeID, segs, i);
    var first;
    first, j := EndpointsAreReadings(logs[i]);
  }

  // ----- Clock latching over a whole fold -----

  /** The first non-zero number of a list, or zero. */
  function FirstNonZero(xs: seq<uint64>): uint64 {
    if xs == [] then 0 else if xs[0] != 0 then xs[0] else FirstNonZero(xs[1..])
  }

  function WallTimes(segs: seq<SegmentData>): (xs: seq<uint64>)
    ensures |xs| == |segs| && forall i | 0 <= i < |segs| :: xs[i] == segs[i].firstClockWallTimeNanos
  {
    seq(|segs|, i requires 0 <= i < |segs| => segs[i].firstClockWallTimeNanos)
  }

  function MonoTimes(segs: seq<SegmentData>): (xs: seq<uint64>)
    ensures |xs| == |segs| && forall i | 0 <= i < |segs| :: xs[i] == segs[i].firstClockLogMonoTime
  {
    seq(|segs|, i requires 0 <= i < |segs| => segs[i].firstClockLogMonoTime)
  }

  lemma {:induction false} FirstNonZeroSnoc(xs: seq<uint64>, x: uint64)
    ensures FirstNonZero(xs + [x]) == if FirstNonZero(xs) != 0 then FirstNonZero(xs) else x
  {
    if xs == [] {
      assert [x][1..] == [];
    } else {
      assert (xs + [x])[1..] == xs[1..] + [x];
      FirstNonZeroSnoc(xs[1..], x);
    }
  }

  /** The two clock fields are latched independently: each is the first non-zero value among the
      segments, in the order the jobs were folded. */
  lemma {:induction false} ClocksAreLatchedSeparately(deviceID: nat, routeID: string, segs: seq<SegmentData>)
    requires segs != []
    ensures var r := FoldAll(None, deviceID, routeID, segs);
            && r.Some?
            && r.value.firstClockWallTimeNanos == FirstNonZero(WallTimes(segs))
            && r.value.firstClockLogMonoTime == FirstNonZero(MonoTimes(segs))
  {
    var n := |segs| - 1;
    var before := segs[..n];
    assert WallTimes(segs) == WallTimes(before) + [segs[n].firstClockWallTimeNanos];
    assert MonoTimes(segs) == MonoTimes(before) + [segs[n].firstClockLogMonoTime];
    FirstNonZeroSnoc(WallTimes(before), segs[n].firstClockWallTimeNanos);
    FirstNonZeroSnoc(MonoTimes(before), segs[n].firstClockLogMonoTime);
    if n > 0 {
      ClocksAreLatchedSeparately(deviceID, routeID, before);
    } else {
      assert before == [];
    }
  }

  /** Where the first non-zero entry stands. */
  function FirstNonZeroAt(xs: seq<uint64>): (k: nat)
    ensures k <= |xs|
    ensures forall j | 0 <= j < k :: xs[j] == 0
    ensures k < |xs| ==> xs[k] != 0 && xs[k] == FirstNonZero(xs)
    ensures k == |xs| ==> FirstNonZero(xs) == 0
  {
    if xs == [] then 0
    else if xs[0] != 0 then 0
    else 1 + FirstNonZeroAt(xs[1..])
  }

  /** When each segment has both clock values or neither, the latched pair is the pair of the first
      segment processed that has one. */
  lemma LatchedPairFromOneSegment(deviceID: nat, routeID: string, segs: seq<SegmentData>)
    requires segs != []
    requires forall i | 0 <= i < |segs| ::
               segs[i].firstClockWallTimeNanos == 0 <==> segs[i].firstClockLogMonoTime == 0
    ensures var r, k := FoldAll(None, deviceID, routeID, segs), FirstNonZeroAt(WallTimes(segs));
            && r.Some?
            && (r.value.firstClockWallTimeNanos, r.value.firstClockLogMonoTime) ==
               (if k == |segs| then (0, 0)
                else (segs[k].firstClockWallTimeNanos, segs[k].firstClockLogMonoTime))
  {
    ClocksAreLatchedSeparately(deviceID, routeID, segs);
    var k, m := FirstNonZeroAt(WallTimes(segs)), FirstNonZeroAt(MonoTimes(segs));
    if k < |segs| { assert WallTimes(segs)[k] != 0; assert MonoTimes(segs)[k] != 0; }
    if m < |segs| { assert MonoTimes(segs)[m] != 0; assert WallTimes(segs)[m] != 0; }
    assert k == m;
  }

  predicate IsClocksItem(item: Item) { item.Event? && item.body.Clocks? }

  /** For whole recordings: when every clocks event carries non-zero wall and mono times, the pair
      the route latches is the pair of one event, the first clocks event of the first processed
      recording that has one. */
  lemma LatchedPairFromOneEvent(dist: Distance, deviceID: nat, routeID: string, logs: seq<seq<Item>>,
                                segs: seq<SegmentData>)
    requires logs != [] && |segs| == |logs|
    requires forall i | 0 <= i < |logs| :: Clean(logs[i]) && segs[i] == Summary(dist, logs[i])
    requires forall i, j | 0 <= i < |logs| && 0 <= j < |logs[i]| && IsClocksItem(logs[i][j]) ::
               logs[i][j].body.wallTimeNanos != 0 && logs[i][j].logMonoTime != 0
    ensures var r := FoldAll(None, deviceID, routeID, segs);
            && r.Some?
            && var pair := (r.value.firstClockWallTimeNanos, r.value.firstClockLogMonoTime);
            && (pair == (0, 0) ==>
                  forall i, j | 0 <= i < |logs| && 0 <= j < |logs[i]| :: !IsClocksItem(logs[i][j]))
            && (pair != (0, 0) ==>
                exists i, j :: 0 <= i < |logs| && 0 <= j < |logs[i]| && IsClocksItem(logs[i][j])
                               && pair == (logs[i][j].body.wallTimeNanos, logs[i][j].logMonoTime)
                               && (forall j' | 0 <= j' < j :: !IsClocksItem(logs[i][j']))
                               && (forall i' | 0 <= i' < i :: ClockPair(logs[i']) == (0, 0)))
  {
    forall i | 0 <= i < |logs|
      ensures segs[i].firstClockWallTimeNanos == 0 <==> segs[i].firstClockLogMonoTime == 0
      ensures (segs[i].firstClockWallTimeNanos, segs[i].firstClockLogMonoTime) == ClockPair(logs[i])
    {
      ClockPairFromOneEvent(logs[i]);
    }
    LatchedPairFromOneSegment(deviceID, routeID, segs);
    var k := FirstNonZeroAt(WallTimes(segs));
    if k < |segs| {
      ClockPairFromOneEvent(logs[k]);
      var j :| 0 <= j < |logs[k]| && logs[k][j].body.Clocks?
               && ClockPair(logs[k]) == (logs[k][j].body.wallTimeNanos, logs[k][j].logMonoTime)
               && forall j' | 0 <= j' < j :: !logs[k][j'].body.Clocks?;
      forall i' | 0 <= i' < k ensures ClockPair(logs[i']) == (0, 0) {
        assert WallTimes(segs)[i'] == 0;
      }
    } else {
      forall i | 0 <= i < |logs| ensures forall j | 0 <= j < |logs[i]| :: !IsClocksItem(logs[i][j]) {
        assert WallTimes(segs)[i] == 0;
        ClockPairFromOneEvent(logs[i]);
      }
    }
  }

  // ----- Exactly when the two clock fields come from one place -----

  /** The pair of clock fields was latched whole: it is unset, or some job found both fields unset and
      left both as they are at the end. */
  ghost predicate LatchedTogether(deviceID: nat, routeID: string, segs: seq<SegmentData>) {
    var r := FoldAll(None, deviceID, routeID, segs);
    && r.Some?
    && var pair := (r.value.firstClockWallTimeNanos, r.value.firstClockLogMonoTime);
       pair == (0, 0) || exists i :: 0 <= i < |segs| && LatchesWhole(segs, i, pair)
  }

  /** Job i carries the pair, and no job before it carries any clock value. */
  ghost predicate LatchesWhole(segs: seq<SegmentData>, i: int, pair: (uint64, uint64))
    requires 0 <= i < |segs|
  {
    && pair == (segs[i].firstClockWallTimeNanos, segs[i].firstClockLogMonoTime)
    && forall j | 0 <= j < i :: segs[j].firstClockWallTimeNanos == 0 && segs[j].firstClockLogMonoTime == 0
  }

  /** Exactly when: the first wall time and the first mono time are in the same job, or there is no wall
      time or no mono time at all. */
  lemma LatchedTogetherIff(deviceID: nat, routeID: string, segs: seq<SegmentData>)
    requires segs != []
    ensures var n, k, m := |segs|, FirstNonZeroAt(WallTimes(segs)), FirstNonZeroAt(MonoTimes(segs));
            LatchedTogether(deviceID, routeID, segs) <==> k == m || k == n || m == n
  {
    ClocksAreLatchedSeparately(deviceID, routeID, segs);
    var n, k, m := |segs|, FirstNonZeroAt(WallTimes(segs)), FirstNonZeroAt(MonoTimes(segs));
    var pair := (FirstNonZero(WallTimes(segs)), FirstNonZero(MonoTimes(segs)));
    if k == m || k == n || m == n {
      var i := if k < m then k else m;
      if i < n { assert LatchesWhole(segs, i, pair); }
    }
  }

  /** The same on values, when a wall time never comes without a mono time and the mono times differ: the
      latched pair is one job's own, or unset, exactly when no job before the first wall time has a
      mono time. */
  lemma LatchedPairIsOwnIff(deviceID: nat, routeID: string, segs: seq<SegmentData>)
    requires segs != []
    requires forall i | 0 <= i < |segs| :: segs[i].firstClockWallTimeNanos != 0 ==> segs[i].firstClockLogMonoTime != 0
    requires forall i, j | 0 <= i < j < |segs| && segs[i].firstClockLogMonoTime != 0 ::
               segs[i].firstClockLogMonoTime != segs[j].firstClockLogMonoTime
    ensures var r, k := FoldAll(None, deviceID, routeID, segs), FirstNonZeroAt(WallTimes(segs));
            && r.Some?
            && var pair := (r.value.firstClockWallTimeNanos, r.value.firstClockLogMonoTime);
            (pair == (0, 0) || exists i :: 0 <= i < |segs|
                                 && pair == (segs[i].firstClockWallTimeNanos, segs[i].firstClockLogMonoTime))
            <==> k == |segs| || forall j | 0 <= j < k :: segs[j].firstClockLogMonoTime == 0
  {
    ClocksAreLatchedSeparately(deviceID, routeID, segs);
    var n, k, m := |segs|, FirstNonZeroAt(WallTimes(segs)), FirstNonZeroAt(MonoTimes(segs));
    if k < n { assert WallTimes(segs)[k] != 0 && MonoTimes(segs)[k] != 0; }
    if m < n { assert MonoTimes(segs)[m] != 0; }
    assert m <= k;
    assert k < n ==> ((forall j | 0 <= j < k :: segs[j].firstClockLogMonoTime == 0) <==> m == k);
    if m < n {
      assert forall i | 0 <= i < n && segs[i].firstClockLogMonoTime == segs[m].firstClockLogMonoTime :: i == m;
    }
  }

  /** A recording contains a clocks event, or one with a wall time. */
  ghost predicate HasClocks(log: seq<Item>) { exists j :: 0 <= j < |log| && IsClocksItem(log[j]) }

  ghost predicate HasTimedClocks(log: seq<Item>) {
    exists j :: 0 <= j < |log| && IsClocksItem(log[j]) && log[j].body.wallTimeNanos != 0
  }

  lemma ClockPairShowsClocks(log: seq<Item>)
    requires Clean(log) && forall j | 0 <= j < |log| && IsClocksItem(log[j]) :: log[j].logMonoTime != 0
    ensures ClockPair(log).0 != 0 <==> HasTimedClocks(log)
    ensures ClockPair(log).1 != 0 <==> HasClocks(log)
  {
    FirstTimedClocksIsTimed(log);
    FirstTimedClocksIsFirst(log);
    var last := LastEvent(log, IsClocks);
    assert forall j | 0 <= j < |log| :: IsClocksItem(log[j]) == IsClocks(log[j].body);
    if FirstTimedClocks(log).None? && last.Some? {
      var j :| 0 <= j < |log| && log[j] == last.value;
      assert IsClocksItem(log[j]);
    }
    if j :| 0 <= j < |log| && IsClocksItem(log[j]) {
      assert IsClocks(log[j].body);
    }
  }

  /** For whole recordings whose clocks events have mono times: the pair comes from one event exactly
      when no recording before the first one with a timed clocks event contains any clocks event. */
  lemma RecordingsLatchTogetherIff(dist: Distance, deviceID: nat, routeID: string, logs: seq<seq<Item>>,
                                   segs: seq<SegmentData>)
    requires logs != [] && |segs| == |logs|
    requires forall i | 0 <= i < |logs| :: Clean(logs[i]) && segs[i] == Summary(dist, logs[i])
    requires forall i, j | 0 <= i < |logs| && 0 <= j < |logs[i]| && IsClocksItem(logs[i][j]) ::
               logs[i][j].logMonoTime != 0
    ensures LatchedTogether(deviceID, routeID, segs) <==>
            forall i, k | 0 <= i < k < |logs| && HasTimedClocks(logs[k]) && HasClocks(logs[i]) ::
              exists j :: 0 <= j <= i && HasTimedClocks(logs[j])
  {
    var n, k, m := |segs|, FirstNonZeroAt(WallTimes(segs)), FirstNonZeroAt(MonoTimes(segs));
    LatchedTogetherIff(deviceID, routeID, segs);
    forall i | 0 <= i < n
      ensures WallTimes(segs)[i] != 0 <==> HasTimedClocks(logs[i])
      ensures MonoTimes(segs)[i] != 0 <==> HasClocks(logs[i])
    {
      ClockPairShowsClocks(logs[i]);
    }
    if m < k < n {
      assert HasClocks(logs[m]) && HasTimedClocks(logs[k]);
    }
  }

  /** And it does fail: a recording whose only clocks event has no wall time sets the route's mono time,
      the next recording sets its wall time. */
  lemma LatchedPairCanMixSegments(dist: Distance, deviceID: nat, routeID: string)
    ensures var a := Summary(dist, [Event(5, Clocks(0))]);
            var b := Summary(dist, [Event(9, Clocks(7))]);
            var r := FoldAll(None, deviceID, routeID, [a, b]);
            && (a.firstClockWallTimeNanos, a.firstClockLogMonoTime) == (0, 5)
            && (b.firstClockWallTimeNanos, b.firstClockLogMonoTime) == (7, 9)
            && r.Some? && (r.value.firstClockWallTimeNanos, r.value.firstClockLogMonoTime) == (7, 5)
  {
    OneClocksEvent(dist, 5, 0);
    OneClocksEvent(dist, 9, 7);
    var a := Summary(dist, [Event(5, Clocks(0))]);
    var b := Summary(dist, [Event(9, Clocks(7))]);
    ClocksAreLatchedSeparately(deviceID, routeID, [a, b]);
    assert WallTimes([a, b]) == [0, 7] && MonoTimes([a, b]) == [5, 9];
    assert [0, 7][1..] == [7];
    assert FirstNonZero([0, 7]) == FirstNonZero([7]);
  }

  lemma OneClocksEvent(dist: Distance, mono: uint64, wall: uint64)
    ensures var s := Summary(dist, [Event(mono, Clocks(wall))]);
            (s.firstClockWallTimeNanos, s.firstClockLogMonoTime) == (wall, mono)
  {
    var e := Event(mono, Clocks(wall));
    ClockPairSnoc([], e);
    assert [] + [e] == [e];
  }
}
