/** The segment decoder of internal/logparser/parser.go, as a loop over decoded log messages. */
module Decoder {
  import opened Prelude
  import opened MachineInts

  datatype Position = Position(x: real, y: real, z: real, latitude: real, longitude: real)

  /** The distance between two ECEF positions; the code's Euclidean norm is one instance. */
  type Distance = (Position, Position) -> real

  datatype SentinelType = StartOfRoute | EndOfRoute | OtherSentinel

  datatype InitInfo = InitInfo(
    gitRemote: string, gitBranch: string, gitDirty: bool, gitCommit: string,
    version: string, deviceType: int, dongleID: string, params: seq<(string, string)>)

  /** The events the decoder looks at. The sequences are the value lists of a valid measurement,
      None a measurement that is missing, unreadable or not valid. */
  datatype Body =
    | LiveLocation(ecef: Option<seq<real>>, geodetic: Option<seq<real>>)
    | Sentinel(kind: SentinelType)
    | Clocks(wallTimeNanos: uint64)
    | InitData(info: InitInfo)
    | OtherEvent

  /** One turn of the stream: a readable event, or one of the three ways reading fails. */
  datatype Item =
    | Event(logMonoTime: uint64, body: Body)
    | BrokenStream
    | UnreadableEvent
    | UnreadableBody(logMonoTime: uint64)

  datatype DecodeError = DecodeFailed | ReadEventFailed | AccessorFailed

  datatype SegmentData = SegmentData(
    endLogMonoTime: uint64, firstClockWallTimeNanos: uint64, firstClockLogMonoTime: uint64,
    gitDirty: bool, gitCommit: string, version: string, dongleID: string, initLogMonoTime: uint64,
    deviceType: int, carModel: string, gitRemote: string, gitBranch: string,
    startOfRoute: bool, endOfRoute: bool, kalmanPositions: seq<Position>, totalDistance: real)

  const EMPTY_SEGMENT: SegmentData :=
    SegmentData(0, 0, 0, false, "", "", "", 0, 0, "", "", "", false, false, [], 0.0)

  /** The position a live-location event contributes, if any. */
  function AcceptedPosition(body: Body): Option<Position> {
    if body.LiveLocation? && body.ecef.Some? && |body.ecef.value| >= 3 then
      var v := body.ecef.value;
      var g := if body.geodetic.Some? && |body.geodetic.value| >= 2
               then (body.geodetic.value[0], body.geodetic.value[1]) else (0.0, 0.0);
      Some(Position(v[0], v[1], v[2], g.0, g.1))
    else
      None
  }

  /** The last CarModel parameter, or the one already known. */
  function CarModel(params: seq<(string, string)>, known: string): string {
    if params == [] then known
    else if params[|params| - 1].0 == "CarModel" then params[|params| - 1].1
    else CarModel(params[..|params| - 1], known)
  }

  function ReadError(item: Item): Option<DecodeError> {
    match item
    case BrokenStream => Some(DecodeFailed)
    case UnreadableEvent => Some(ReadEventFailed)
    case UnreadableBody(_) => Some(AccessorFailed)
    case Event(_, _) => None
  }

  // ----- What the decoder has to compute, field by field, from the events of a clean stream -----

  predicate Clean(items: seq<Item>) { forall i | 0 <= i < |items| :: items[i].Event? }

  /** All positions the stream contributes, in order. */
  function Positions(items: seq<Item>): (ps: seq<Position>)
    requires Clean(items)
  {
    if items == [] then []
    else
      var n := |items| - 1;
      var p := AcceptedPosition(items[n].body);
      Positions(items[..n]) + if p.Some? then [p.value] else []
  }

  /** The length of the polygonal path through the positions. */
  function PathLength(dist: Distance, ps: seq<Position>): real {
    if |ps| < 2 then 0.0
    else PathLength(dist, ps[..|ps| - 1]) + dist(ps[|ps| - 2], ps[|ps| - 1])
  }

  /** The last event satisfying a test. */
  function LastEvent(items: seq<Item>, p: Body -> bool): (r: Option<Item>)
    requires Clean(items)
    ensures r.Some? ==> r.value in items && r.value.Event? && p(r.value.body)
    ensures r.None? ==> forall i | 0 <= i < |items| :: !p(items[i].body)
  {
    if items == [] then None
    else
      var n := |items| - 1;
      if p(items[n].body) then Some(items[n]) else LastEvent(items[..n], p)
  }

  predicate IsInit(b: Body) { b.InitData? }
  predicate IsRouteStart(b: Body) { b == Sentinel(StartOfRoute) }
  predicate IsRouteEnd(b: Body) { b == Sentinel(EndOfRoute) }
  predicate IsClocks(b: Body) { b.Clocks? }
  predicate IsTimedClocks(b: Body) { b.Clocks? && b.wallTimeNanos != 0 }

  /** The first clocks event that carries a wall time. */
  function FirstTimedClocks(items: seq<Item>): Option<Item>
    requires Clean(items)
  {
    if items == [] then None
    else if IsTimedClocks(items[0].body) then Some(items[0])
    else FirstTimedClocks(items[1..])
  }

  /** The latched clock pair: the first clocks event with a wall time; without one, wall time zero
      and the mono time of the last clocks event. */
  function ClockPair(items: seq<Item>): (uint64, uint64)
    requires Clean(items)
  {
    match FirstTimedClocks(items)
    case Some(e) => (if e.Event? && e.body.Clocks? then (e.body.wallTimeNanos, e.logMonoTime) else (0, 0))
    case None =>
      match LastEvent(items, IsClocks) {
        case Some(e) => (0, e.logMonoTime)
        case None => (0, 0)
      }
  }

  /** The car model after the stream: every initData event may overwrite it. */
  function FinalCarModel(items: seq<Item>): string
    requires Clean(items)
  {
    if items == [] then ""
    else
      var n := |items| - 1;
      var before := FinalCarModel(items[..n]);
      if items[n].body.InitData? then CarModel(items[n].body.info.params, before) else before
  }

  function Summary(dist: Distance, items: seq<Item>): SegmentData
    requires Clean(items)
  {
    var init := LastEvent(items, IsInit);
    var clock := ClockPair(items);
    var info := if init.Some? then init.value.body.info else InitInfo("", "", false, "", "", 0, "", []);
    SegmentData(
      if items == [] then 0 else items[|items| - 1].logMonoTime,
      clock.0, clock.1,
      info.gitDirty, info.gitCommit, info.version, info.dongleID,
      if init.Some? then init.value.logMonoTime else 0,
      info.deviceType, FinalCarModel(items), info.gitRemote, info.gitBranch,
      LastEvent(items, IsRouteStart).Some?,
      LastEvent(items, IsRouteEnd).Some?,
      Positions(items), PathLength(dist, Positions(items)))
  }

  /** The index of the first failing item, or the length of the stream. */
  function FirstFailure(items: seq<Item>): (k: nat)
    ensures k <= |items|
    ensures Clean(items[..k])
    ensures k < |items| ==> !items[k].Event?
  {
    if items == [] then 0
    else if !items[0].Event? then 0
    else
      var k := FirstFailure(items[1..]);
      assert items[..1 + k] == [items[0]] + items[1..][..k];
      1 + k
  }

  // ----- One event at a time -----

  lemma {:induction false} FirstTimedClocksSnoc(items: seq<Item>, e: Item)
    requires Clean(items) && e.Event?
    ensures FirstTimedClocks(items + [e]) ==
            if FirstTimedClocks(items).Some? then FirstTimedClocks(items)
            else if IsTimedClocks(e.body) then Some(e) else None
  {
    if items == [] {
      assert ([e])[1..] == [];
    } else {
      assert (items + [e])[1..] == items[1..] + [e];
      FirstTimedClocksSnoc(items[1..], e);
    }
  }

  lemma {:induction false} FirstTimedClocksIsTimed(items: seq<Item>)
    requires Clean(items)
    ensures var r := FirstTimedClocks(items);
            r.Some? ==> r.value in items && r.value.Event? && IsTimedClocks(r.value.body)
  {
    if items != [] {
      FirstTimedClocksIsTimed(items[1..]);
    }
  }

  /** How the clock pair moves when one event is read: it is overwritten while the wall time is zero. */
  lemma ClockPairSnoc(items: seq<Item>, e: Item)
    requires Clean(items) && e.Event?
    ensures ClockPair(items + [e]) ==
            if e.body.Clocks? && ClockPair(items).0 == 0 then (e.body.wallTimeNanos, e.logMonoTime)
            else ClockPair(items)
  {
    FirstTimedClocksSnoc(items, e);
    FirstTimedClocksIsTimed(items);
    assert (items + [e])[..|items|] == items;
  }

  /** What one event does to the data gathered so far. */
  function Advance(dist: Distance, s: SegmentData, e: Item): SegmentData
    requires e.Event?
  {
    var t := s.(endLogMonoTime := e.logMonoTime);
    match e.body
    case LiveLocation(_, _) =>
      var p := AcceptedPosition(e.body);
      if p.None? then t
      else
        var leg := if s.kalmanPositions == [] then 0.0
                   else dist(s.kalmanPositions[|s.kalmanPositions| - 1], p.value);
        t.(totalDistance := s.totalDistance + leg, kalmanPositions := s.kalmanPositions + [p.value])
    case Sentinel(kind) =>
      t.(startOfRoute := s.startOfRoute || kind == StartOfRoute, endOfRoute := s.endOfRoute || kind == EndOfRoute)
    case Clocks(wall) =>
      if s.firstClockWallTimeNanos != 0 then t
      else t.(firstClockWallTimeNanos := wall, firstClockLogMonoTime := e.logMonoTime)
    case InitData(info) =>
      t.(gitRemote := info.gitRemote, gitBranch := info.gitBranch, initLogMonoTime := e.logMonoTime,
         gitDirty := info.gitDirty, gitCommit := info.gitCommit, version := info.version,
         deviceType := info.deviceType, dongleID := info.dongleID,
         carModel := CarModel(info.params, s.carModel))
    case OtherEvent => t
  }

  /** The summary of a longer stream is the summary of the shorter one, advanced. */
  lemma SummarySnoc(dist: Distance, items: seq<Item>, e: Item)
    requires Clean(items) && e.Event?
    ensures Summary(dist, items + [e]) == Advance(dist, Summary(dist, items), e)
  {
    match e.body
    case LiveLocation(_, _) => LocationSnoc(dist, items, e);
    case InitData(_) => InitSnoc(dist, items, e);
    case _ =>
      ClockPairSnoc(items, e);
      HistorySnoc(items, e);
      assert Positions(items + [e]) == Positions(items);
  }

  lemma LocationSnoc(dist: Distance, items: seq<Item>, e: Item)
    requires Clean(items) && e.Event? && e.body.LiveLocation?
    ensures Summary(dist, items + [e]) == Advance(dist, Summary(dist, items), e)
  {
    ClockPairSnoc(items, e);
    HistorySnoc(items, e);
    PathSnoc(dist, items, e);
  }

  lemma PathSnoc(dist: Distance, items: seq<Item>, e: Item)
    requires Clean(items) && e.Event?
    ensures var ps, p := Positions(items), AcceptedPosition(e.body);
            && Positions(items + [e]) == (if p.Some? then ps + [p.value] else ps)
            && PathLength(dist, Positions(items + [e])) ==
               PathLength(dist, ps) + if p.Some? && ps != [] then dist(ps[|ps| - 1], p.value) else 0.0
  {
    HistorySnoc(items, e);
    if AcceptedPosition(e.body).Some? {
      PathLengthSnoc(dist, Positions(items), AcceptedPosition(e.body).value);
    } else {
      assert Positions(items + [e]) == Positions(items);
    }
  }

  lemma InitSnoc(dist: Distance, items: seq<Item>, e: Item)
    requires Clean(items) && e.Event? && e.body.InitData?
    ensures Summary(dist, items + [e]) == Advance(dist, Summary(dist, items), e)
  {
    ClockPairSnoc(items, e);
    HistorySnoc(items, e);
    assert Positions(items + [e]) == Positions(items);
  }

  lemma HistorySnoc(items: seq<Item>, e: Item)
    requires Clean(items) && e.Event?
    ensures forall p: Body -> bool ::
              LastEvent(items + [e], p) == if p(e.body) then Some(e) else LastEvent(items, p)
    ensures FinalCarModel(items + [e]) ==
            if e.body.InitData? then CarModel(e.body.info.params, FinalCarModel(items)) else FinalCarModel(items)
    ensures Positions(items + [e]) ==
            Positions(items) + if AcceptedPosition(e.body).Some? then [AcceptedPosition(e.body).value] else []
  {
    assert (items + [e])[..|items|] == items;
  }

  lemma PathLengthSnoc(dist: Distance, ps: seq<Position>, p: Position)
    ensures PathLength(dist, ps + [p]) ==
            PathLength(dist, ps) + if ps == [] then 0.0 else dist(ps[|ps| - 1], p)
  {
    assert (ps + [p])[..|ps|] == ps;
  }

  /** Go's DecodeSegmentData: fails with the first unreadable item, and otherwise computes the
      summary of the whole stream. */
  method DecodeSegmentData(dist: Distance, items: seq<Item>) returns (r: Result<SegmentData, DecodeError>)
    ensures var k := FirstFailure(items);
            r == if k == |items| then Ok(Summary(dist, items)) else Err(ReadError(items[k]).value)
  {
    var data := EMPTY_SEGMENT;
    var i := 0;
    while i < |items|
      invariant 0 <= i <= |items|
      invariant Clean(items[..i])
      invariant data == Summary(dist, items[..i])
    {
      match items[i] {
        case BrokenStream => FailureIsFirst(items, i); return Err(DecodeFailed);
        case UnreadableEvent => FailureIsFirst(items, i); return Err(ReadEventFailed);
        case UnreadableBody(_) => FailureIsFirst(items, i); return Err(AccessorFailed);
        case Event(_, _) =>
      }
      assert items[..i + 1] == items[..i] + [items[i]];
      SummarySnoc(dist, items[..i], items[i]);
      data := ReadEvent(dist, data, items[i]);
      i := i + 1;
    }
    assert items[..i] == items;
    NoFailure(items);
    return Ok(data);
  }

  /** The body of the loop, for an event that could be read. */
  method ReadEvent(dist: Distance, s: SegmentData, e: Item) returns (data: SegmentData)
    requires e.Event?
    ensures data == Advance(dist, s, e)
  {
    data := s.(endLogMonoTime := e.logMonoTime);
    match e.body
    case LiveLocation(_, _) =>
      var position := AcceptedPosition(e.body);
      if position.Some? {
        if |data.kalmanPositions| > 0 {
          var last := data.kalmanPositions[|data.kalmanPositions| - 1];
          data := data.(totalDistance := data.totalDistance + dist(last, position.value));
        }
        data := data.(kalmanPositions := data.kalmanPositions + [position.value]);
      }
    case Sentinel(kind) =>
      match kind {
        case StartOfRoute => data := data.(startOfRoute := true);
        case EndOfRoute => data := data.(endOfRoute := true);
        case OtherSentinel =>
      }
    case Clocks(wall) =>
      if data.firstClockWallTimeNanos == 0 {
        data := data.(firstClockWallTimeNanos := wall, firstClockLogMonoTime := e.logMonoTime);
      }
    case InitData(info) =>
      data := data.(gitRemote := info.gitRemote, gitBranch := info.gitBranch, initLogMonoTime := e.logMonoTime);
      data := data.(gitDirty := info.gitDirty, gitCommit := info.gitCommit, version := info.version);
      data := data.(deviceType := info.deviceType, dongleID := info.dongleID);
      var model := ScanParams(info.params, data.carModel);
      data := data.(carModel := model);
    case OtherEvent =>
  }

  /** The inner loop over the init parameters. */
  method ScanParams(params: seq<(string, string)>, known: string) returns (model: string)
    ensures model == CarModel(params, known)
  {
    model := known;
    var i := 0;
    while i < |params|
      invariant 0 <= i <= |params|
      invariant model == CarModel(params[..i], known)
    {
      assert params[..i + 1][..i] == params[..i];
      if params[i].0 == "CarModel" {
        model := params[i].1;
      }
      i := i + 1;
    }
    assert params[..i] == params;
  }

  lemma {:induction false} FailureIsFirst(items: seq<Item>, i: nat)
    requires i < |items| && Clean(items[..i]) && !items[i].Event?
    ensures FirstFailure(items) == i
  {
    if i > 0 {
      assert items[0] == items[..i][0];
      assert items[1..][..i - 1] == items[..i][1..];
      FailureIsFirst(items[1..], i - 1);
    }
  }

  lemma {:induction false} NoFailure(items: seq<Item>)
    requires Clean(items)
    ensures FirstFailure(items) == |items|
  {
    if items != [] {
      NoFailure(items[1..]);
    }
  }

  // ----- Which measured value becomes which field -----

  /** A location event with at least three valid ECEF values. */
  predicate Measured(e: Item) {
    e.Event? && e.body.LiveLocation? && e.body.ecef.Some? && |e.body.ecef.value| >= 3
  }

  /** The geodetic values of a location event, latitude first; zeros without two of them. */
  function Coordinates(e: Item): (real, real)
    requires Measured(e)
  {
    var g := e.body.geodetic;
    if g.Some? && |g.value| >= 2 then (g.value[0], g.value[1]) else (0.0, 0.0)
  }

  predicate IsReading(p: Position, e: Item)
    requires Measured(e)
  {
    && p.x == e.body.ecef.value[0] && p.y == e.body.ecef.value[1] && p.z == e.body.ecef.value[2]
    && p.latitude == Coordinates(e).0 && p.longitude == Coordinates(e).1
  }

  /** The positions ps are, in order, the readings of all measured events; at lists where these stand. */
  ghost predicate AreReadings(items: seq<Item>, at: seq<nat>, ps: seq<Position>) {
    && |at| == |ps|
    && (forall i, j | 0 <= i < j < |at| :: at[i] < at[j])
    && (forall j | 0 <= j < |at| :: at[j] < |items| && Measured(items[at[j]]) && IsReading(ps[j], items[at[j]]))
    && forall i: nat | i < |items| && Measured(items[i]) :: i in at
  }

  lemma ReadingAdded(items: seq<Item>, e: Item, at: seq<nat>, ps: seq<Position>, p: Position)
    requires AreReadings(items, at, ps) && Measured(e) && IsReading(p, e)
    ensures AreReadings(items + [e], at + [|items|], ps + [p])
  {
    var all, more := items + [e], at + [|items|];
    assert more[|at|] == |items|;
    forall i: nat | i < |all| && Measured(all[i]) ensures i in more {
      if i < |items| { assert all[i] == items[i] && i in at; }
    }
  }

  lemma NoReadingAdded(items: seq<Item>, e: Item, at: seq<nat>, ps: seq<Position>)
    requires AreReadings(items, at, ps) && !Measured(e)
    ensures AreReadings(items + [e], at, ps)
  {
    var all := items + [e];
    forall i: nat | i < |all| && Measured(all[i]) ensures i in at {
      assert i < |items| && all[i] == items[i];
    }
  }

  lemma {:induction false} PositionsAreReadings(items: seq<Item>) returns (at: seq<nat>)
    requires Clean(items)
    ensures AreReadings(items, at, Positions(items))
  {
    at := [];
    if items != [] {
      var init, e := items[..|items| - 1], items[|items| - 1];
      assert init + [e] == items;
      at := PositionsAreReadings(init);
      if Measured(e) {
        ReadingAdded(init, e, at, Positions(init), AcceptedPosition(e.body).value);
        at := at + [|init|];
      } else {
        NoReadingAdded(init, e, at, Positions(init));
      }
    }
  }

  predicate FirstMeasured(items: seq<Item>, i: int) {
    0 <= i < |items| && Measured(items[i]) && forall j | 0 <= j < i :: !Measured(items[j])
  }

  predicate LastMeasured(items: seq<Item>, i: int) {
    0 <= i < |items| && Measured(items[i]) && forall j | i < j < |items| :: !Measured(items[j])
  }

  /** The first and the last position are the readings of the first and the last measured event. */
  lemma EndpointsAreReadings(items: seq<Item>) returns (first: nat, last: nat)
    requires Clean(items) && Positions(items) != []
    ensures FirstMeasured(items, first) && IsReading(Positions(items)[0], items[first])
    ensures LastMeasured(items, last) && IsReading(Positions(items)[|Positions(items)| - 1], items[last])
  {
    var at := PositionsAreReadings(items);
    first, last := at[0], at[|at| - 1];
    forall i: nat | i < |items| && Measured(items[i]) ensures first <= i <= last {
      var j :| 0 <= j < |at| && at[j] == i;
    }
  }

  /** The car model is the value of the last parameter named CarModel, if there is one. */
  lemma {:induction false} CarModelIsLastParam(params: seq<(string, string)>, known: string, i: int)
    requires -1 <= i < |params| && forall j | i < j < |params| :: params[j].0 != "CarModel"
    requires i >= 0 ==> params[i].0 == "CarModel"
    ensures CarModel(params, known) == if i < 0 then known else params[i].1
    decreases |params|
  {
    if params != [] && i < |params| - 1 {
      CarModelIsLastParam(params[..|params| - 1], known, i);
    }
  }

  predicate NamesCarModel(e: Item) {
    e.Event? && e.body.InitData? && exists i :: 0 <= i < |e.body.info.params| && e.body.info.params[i].0 == "CarModel"
  }

  /** ... of the last init event that has one, whatever the later ones lack. */
  lemma {:induction false} FinalCarModelIsLast(items: seq<Item>, i: int)
    requires Clean(items) && -1 <= i < |items| && forall j | i < j < |items| :: !NamesCarModel(items[j])
    requires i >= 0 ==> NamesCarModel(items[i])
    ensures FinalCarModel(items) == if i < 0 then "" else CarModel(items[i].body.info.params, "")
    decreases |items|
  {
    if items != [] {
      var n := |items| - 1;
      if i < n {
        FinalCarModelIsLast(items[..n], i);
        if items[n].body.InitData? { CarModelIsLastParam(items[n].body.info.params, FinalCarModel(items[..n]), -1); }
      } else {
        CarModelForgets(items[n].body.info.params, FinalCarModel(items[..n]), "");
      }
    }
  }

  lemma {:induction false} CarModelForgets(params: seq<(string, string)>, a: string, b: string)
    requires exists i :: 0 <= i < |params| && params[i].0 == "CarModel"
    ensures CarModel(params, a) == CarModel(params, b)
  {
    var n := |params| - 1;
    if params[n].0 != "CarModel" {
      var i :| 0 <= i < |params| && params[i].0 == "CarModel";
      assert params[..n][i].0 == "CarModel";
      CarModelForgets(params[..n], a, b);
    }
  }

  // ----- What the summary means -----

  ghost predicate Metric(dist: Distance) {
    && (forall p, q :: dist(p, q) >= 0.0)
    && (forall p :: dist(p, p) == 0.0)
    && (forall p, q, m :: dist(p, q) <= dist(p, m) + dist(m, q))
  }

  /** The distance driven is never less than the straight line from the first to any later position. */
  lemma {:induction false} DistanceCoversDisplacement(dist: Distance, ps: seq<Position>)
    requires Metric(dist) && ps != []
    ensures dist(ps[0], ps[|ps| - 1]) <= PathLength(dist, ps)
  {
    if |ps| >= 2 {
      DistanceCoversDisplacement(dist, ps[..|ps| - 1]);
    }
  }

  /** If every clocks event carries a non-zero wall and mono time, the segment's clock pair is both
      zero or both non-zero, and comes from one event. */
  lemma ClockPairFromOneEvent(items: seq<Item>)
    requires Clean(items)
    requires forall i | 0 <= i < |items| && items[i].body.Clocks? ::
               items[i].body.wallTimeNanos != 0 && items[i].logMonoTime != 0
    ensures ClockPair(items).0 == 0 <==> ClockPair(items).1 == 0
    ensures ClockPair(items) != (0, 0) ==>
              exists i :: 0 <= i < |items| && items[i].body.Clocks?
                          && ClockPair(items) == (items[i].body.wallTimeNanos, items[i].logMonoTime)
                          && forall j | 0 <= j < i :: !items[j].body.Clocks?
    ensures ClockPair(items) == (0, 0) ==> forall i | 0 <= i < |items| :: !items[i].body.Clocks?
  {
    FirstTimedClocksIsTimed(items);
    FirstTimedClocksIsFirst(items);
  }

  lemma {:induction false} FirstTimedClocksIsFirst(items: seq<Item>)
    requires Clean(items)
    ensures var r := FirstTimedClocks(items);
            if r.Some? then
              exists i :: 0 <= i < |items| && items[i] == r.value
                          && forall j | 0 <= j < i :: !IsTimedClocks(items[j].body)
            else forall j | 0 <= j < |items| :: !IsTimedClocks(items[j].body)
  {
    if items != [] && !IsTimedClocks(items[0].body) {
      FirstTimedClocksIsFirst(items[1..]);
      var r := FirstTimedClocks(items[1..]);
      if r.Some? {
        var i :| 0 <= i < |items[1..]| && items[1..][i] == r.value
                 && forall j | 0 <= j < i :: !IsTimedClocks(items[1..][j].body);
        assert items[i + 1] == r.value;
        forall j | 0 <= j < i + 1 ensures !IsTimedClocks(items[j].body) {
          if j > 0 { assert items[j] == items[1..][j - 1]; }
        }
      } else {
        forall j | 0 <= j < |items| ensures !IsTimedClocks(items[j].body) {
          if j > 0 { assert items[j] == items[1..][j - 1]; }
        }
      }
    }
  }
}
