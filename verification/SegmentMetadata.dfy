/** The merge of stored and uploaded segments in internal/server/controllers/v1/route_files.go, and the
    times the API gives them. */
module SegmentMetadata {
  import opened Prelude
  import opened MachineInts
  import opened Sorting
  import opened Decoder
  import R = Routes

  const SEGMENT_MILLIS: int := 60 * 1000
  const MAX_INT32: int := 0x7FFF_FFFF

  /** What routeSegmentMetadata reads of a route row: the three arrays, and its start and end time in
      milliseconds, None for a zero end time. */
  datatype StoredRoute = StoredRoute(
    numbers: seq<int64>, starts: seq<int64>, ends: seq<int64>, startMillis: int64, endMillis: Option<int64>)

  /** Time.UnixMilli, for the zero time and for the times processLog sets. */
  function UnixMilli(t: R.Time): int64 {
    match t
    case ZeroTime => -62135596800000
    case UnixNanos(n) => n / 1_000_000
  }

  function Stored(r: R.Route): StoredRoute {
    StoredRoute(r.segmentNumbers, r.segmentStartTimes, r.segmentEndTimes, UnixMilli(r.startTime),
                if r.endTime == R.ZeroTime then None else Some(UnixMilli(r.endTime)))
  }

  // ----- Specifications -----

  predicate InRange(x: int) { 0 <= x <= MAX_INT32 }

  function KeepInRange(xs: seq<int64>): seq<int> {
    if xs == [] then []
    else KeepInRange(xs[..|xs| - 1]) + if InRange(xs[|xs| - 1]) then [xs[|xs| - 1] as int] else []
  }

  /** The uploaded segments not seen before, each at its first occurrence. */
  function KeepNew(xs: seq<int>, seen: set<int>): seq<int> {
    if xs == [] then []
    else
      var n := |xs| - 1;
      KeepNew(xs[..n], seen) + if xs[n] in seen || xs[n] in xs[..n] then [] else [xs[n]]
  }

  function Elements(xs: seq<int>): set<int> { set x | x in xs }

  /** The merged segments before sorting. */
  function Merged(numbers: seq<int64>, uploaded: seq<int>): seq<int> {
    KeepInRange(numbers) + KeepNew(uploaded, Elements(KeepInRange(numbers)))
  }

  /** normalizeAPITime: nanoseconds become milliseconds. */
  function Normalize(value: int64): int64 {
    if value > 1_000_000_000_000_000 then value / 1_000_000 else value
  }

  predicate SameLengths(r: StoredRoute) { |r.numbers| == |r.starts| == |r.ends| }

  /** The position of a segment's first entry in the stored arrays; -1 when there is none or the arrays
      disagree in length. */
  function SegmentIndex(r: StoredRoute, segment: int): (i: int)
    ensures -1 <= i < |r.numbers|
    ensures i >= 0 ==> SameLengths(r) && r.numbers[i] == segment && forall j | 0 <= j < i :: r.numbers[j] != segment
    ensures i < 0 && SameLengths(r) ==> forall j | 0 <= j < |r.numbers| :: r.numbers[j] != segment
  {
    if !SameLengths(r) then -1 else FirstAt(r.numbers, segment, 0)
  }

  function FirstAt(xs: seq<int64>, x: int, from: nat): (i: int)
    requires from <= |xs|
    ensures -1 <= i < |xs|
    ensures i >= 0 ==> from <= i && xs[i] == x && forall j | from <= j < i :: xs[j] != x
    ensures i < 0 ==> forall j | from <= j < |xs| :: xs[j] != x
    decreases |xs| - from
  {
    if from == |xs| then -1 else if xs[from] == x then from else FirstAt(xs, x, from + 1)
  }

  /** The segment has stored times the code accepts. */
  predicate HasStoredTimes(r: StoredRoute, segment: int) {
    var i := SegmentIndex(r, segment);
    i >= 0 && Normalize(r.starts[i]) > 0 && Normalize(r.ends[i]) > Normalize(r.starts[i])
  }

  function FallbackStart(r: StoredRoute, segment: int): int64 {
    WrapInt64(r.startMillis + WrapInt64(segment * SEGMENT_MILLIS))
  }

  function FallbackEnd(r: StoredRoute, start: int64): int64 {
    var full := WrapInt64(start + SEGMENT_MILLIS);
    var clipped := if r.endMillis.Some? && full > r.endMillis.value then r.endMillis.value else full;
    if clipped <= start then full else clipped
  }

  /** The start and end the API reports for a segment. */
  function TimesOf(r: StoredRoute, segment: int): (int64, int64) {
    if HasStoredTimes(r, segment) then
      var i := SegmentIndex(r, segment);
      (Normalize(r.starts[i]), Normalize(r.ends[i]))
    else
      var start := FallbackStart(r, segment);
      (start, FallbackEnd(r, start))
  }

  // ----- The code -----

  method RouteSegmentIndex(r: StoredRoute, segment: int) returns (i: int)
    ensures i == SegmentIndex(r, segment)
  {
    if |r.numbers| != |r.starts| || |r.numbers| != |r.ends| {
      return -1;
    }
    i := 0;
    while i < |r.numbers|
      invariant 0 <= i <= |r.numbers|
      invariant forall j | 0 <= j < i :: r.numbers[j] != segment
    {
      if r.numbers[i] == segment {
        return;
      }
      i := i + 1;
    }
    return -1;
  }

  method MergeSegments(numbers: seq<int64>, uploaded: seq<int>) returns (segments: seq<int>)
    ensures segments == Merged(numbers, uploaded)
  {
    segments := [];
    var seen: set<int> := {};
    var i := 0;
    while i < |numbers|
      invariant 0 <= i <= |numbers|
      invariant segments == KeepInRange(numbers[..i]) && seen == Elements(segments)
    {
      assert numbers[..i + 1][..i] == numbers[..i];
      if numbers[i] >= 0 && numbers[i] <= MAX_INT32 {
        segments := segments + [numbers[i] as int];
        seen := seen + {numbers[i] as int};
      }
      i := i + 1;
    }
    assert numbers[..i] == numbers;
    ghost var stored := segments;
    i := 0;
    while i < |uploaded|
      invariant 0 <= i <= |uploaded|
      invariant segments == stored + KeepNew(uploaded[..i], Elements(stored))
      invariant seen == Elements(stored) + Elements(uploaded[..i])
    {
      assert uploaded[..i + 1][..i] == uploaded[..i];
      assert uploaded[..i + 1] == uploaded[..i] + [uploaded[i]];
      if uploaded[i] !in seen {
        segments := segments + [uploaded[i]];
      }
      seen := seen + {uploaded[i]};
      i := i + 1;
    }
    assert uploaded[..i] == uploaded;
  }

  /** The merged segments in order, or just segment zero. */
  method SortedSegments(numbers: seq<int64>, uploaded: seq<int>) returns (segments: seq<int>)
    ensures |segments| > 0 && Ascending(segments)
    ensures Permutation(segments, if Merged(numbers, uploaded) == [] then [0] else Merged(numbers, uploaded))
  {
    var merged := MergeSegments(numbers, uploaded);
    segments := SortInts(merged);
    PermutationElements(segments, merged);
    if |segments| == 0 {
      segments := [0];
    }
  }

  /** routeSegmentMetadata. */
  method RouteSegmentMetadata(r: StoredRoute, uploaded: seq<int>)
    returns (starts: seq<int64>, ends: seq<int64>, segments: seq<int>)
    ensures |starts| == |ends| == |segments| > 0
    ensures Ascending(segments)
    ensures Permutation(segments, if Merged(r.numbers, uploaded) == [] then [0] else Merged(r.numbers, uploaded))
    ensures forall i | 0 <= i < |segments| :: (starts[i], ends[i]) == TimesOf(r, segments[i])
  {
    segments := SortedSegments(r.numbers, uploaded);
    starts, ends := [], [];
    var i := 0;
    while i < |segments|
      invariant 0 <= i <= |segments|
      invariant |starts| == |ends| == i
      invariant forall j | 0 <= j < i :: (starts[j], ends[j]) == TimesOf(r, segments[j])
    {
      var start, end := TimesOfSegment(r, segments[i]);
      starts, ends := starts + [start], ends + [end];
      i := i + 1;
    }
  }

  /** The body of the loop over the merged segments. */
  method TimesOfSegment(r: StoredRoute, segment: int) returns (start: int64, end: int64)
    ensures (start, end) == TimesOf(r, segment)
  {
    var idx := RouteSegmentIndex(r, segment);
    if idx >= 0 {
      start := Normalize(r.starts[idx]);
      end := Normalize(r.ends[idx]);
      if start > 0 && end > start {
        return;
      }
    }
    start := WrapInt64(r.startMillis + WrapInt64(segment * SEGMENT_MILLIS));
    end := WrapInt64(start + SEGMENT_MILLIS);
    if r.endMillis.Some? && end > r.endMillis.value {
      end := r.endMillis.value;
    }
    if end <= start {
      end := WrapInt64(start + SEGMENT_MILLIS);
    }
  }

  /** What normalizeAPITime does to a time given in nanoseconds, ms milliseconds and a rest: it comes out in
      milliseconds exactly when it lies beyond 10^15. */
  lemma NanosecondsBecomeMillis(ms: nat, rest: nat)
    requires 0 < ms * 1_000_000 + rest <= MAX_INT64 && rest < 1_000_000
    ensures Normalize(ms * 1_000_000 + rest) == ms <==> ms * 1_000_000 + rest > 1_000_000_000_000_000
    ensures Normalize(ms) == ms
  {
  }

  // ----- The merged segments -----

  lemma {:induction false} InRangeElements(xs: seq<int64>, x: int)
    ensures x in KeepInRange(xs) <==> InRange(x) && exists i :: 0 <= i < |xs| && xs[i] as int == x
  {
    if xs != [] {
      var n := |xs| - 1;
      InRangeElements(xs[..n], x);
      if i :| 0 <= i < |xs| && xs[i] as int == x {
        assert i < n ==> xs[..n][i] as int == x;
      }
      if i :| 0 <= i < n && xs[..n][i] as int == x {
        assert xs[i] as int == x;
      }
    }
  }

  lemma {:induction false} NewElements(xs: seq<int>, seen: set<int>, x: int)
    ensures x in KeepNew(xs, seen) <==> x in xs && x !in seen
  {
    if xs != [] {
      var n := |xs| - 1;
      NewElements(xs[..n], seen, x);
      assert xs == xs[..n] + [xs[n]];
    }
  }

  /** The merged numbers are exactly the stored ones in range and the uploaded ones. */
  lemma MergedExactly(numbers: seq<int64>, uploaded: seq<int>, x: int)
    ensures x in Merged(numbers, uploaded) <==>
            x in uploaded || (0 <= x <= 2_147_483_647 && exists i :: 0 <= i < |numbers| && numbers[i] as int == x)
  {
    InRangeElements(numbers, x);
    NewElements(uploaded, Elements(KeepInRange(numbers)), x);
  }

  lemma {:induction false} NewAreDistinct(xs: seq<int>, seen: set<int>)
    ensures Distinct(KeepNew(xs, seen))
  {
    if xs != [] {
      var n := |xs| - 1;
      NewAreDistinct(xs[..n], seen);
      NewElements(xs[..n], seen, xs[n]);
    }
  }

  /** Duplicates in the merged list come from the stored numbers alone. */
  lemma MergedDistinct(numbers: seq<int64>, uploaded: seq<int>)
    requires Distinct(KeepInRange(numbers))
    ensures Distinct(Merged(numbers, uploaded))
  {
    var stored := KeepInRange(numbers);
    var unseen := KeepNew(uploaded, Elements(stored));
    NewAreDistinct(uploaded, Elements(stored));
    forall i, j | 0 <= i < |stored| && 0 <= j < |unseen| ensures stored[i] != unseen[j] {
      NewElements(uploaded, Elements(stored), unseen[j]);
      assert unseen[j] in unseen;
    }
  }

  // ----- When every reported interval is positive -----

  /** Exactly when a reported interval is positive, with Go's wrap-around: the segment has accepted
      stored times, or adding a minute to its computed start does not overflow. */
  lemma PositiveIffNoOverflow(r: StoredRoute, segment: int)
    ensures TimesOf(r, segment).1 > TimesOf(r, segment).0 <==>
            HasStoredTimes(r, segment) || FallbackStart(r, segment) <= MAX_INT64 - SEGMENT_MILLIS
  {
    if !HasStoredTimes(r, segment) {
      MinuteLater(FallbackStart(r, segment));
    }
  }

  lemma MinuteLater(start: int64)
    ensures WrapInt64(start + SEGMENT_MILLIS) ==
            if start <= MAX_INT64 - SEGMENT_MILLIS then start + SEGMENT_MILLIS else start + SEGMENT_MILLIS - TWO_64
  {
  }

  lemma FallbackStartExact(r: StoredRoute, segment: int)
    requires -(TWO_63 / 2) <= r.startMillis <= TWO_63 / 2 && InRange(segment)
    ensures FallbackStart(r, segment) == r.startMillis + segment * SEGMENT_MILLIS <= MAX_INT64 - SEGMENT_MILLIS
  {
    WrapIsIdentityInRange(segment * SEGMENT_MILLIS);
    WrapIsIdentityInRange(r.startMillis + segment * SEGMENT_MILLIS);
  }

  /** Away from overflow the computed start is exact and every interval is positive: for any start time
      within 2^62 milliseconds of 1970 and any 32-bit segment number. */
  lemma BoundedTimesArePositive(r: StoredRoute, segment: int)
    requires -(TWO_63 / 2) <= r.startMillis <= TWO_63 / 2 && InRange(segment)
    ensures FallbackStart(r, segment) == r.startMillis + segment * 60_000
    ensures TimesOf(r, segment).1 > TimesOf(r, segment).0
  {
    FallbackStartExact(r, segment);
    PositiveIffNoOverflow(r, segment);
  }

  /** Computed intervals of neighbouring segments tile: the earlier one ends where the later one starts,
      or before it when the route's end falls inside it. */
  lemma ComputedTimesTile(r: StoredRoute, segment: int)
    requires -(TWO_63 / 2) <= r.startMillis <= TWO_63 / 2 && InRange(segment) && InRange(segment + 1)
    requires !HasStoredTimes(r, segment) && !HasStoredTimes(r, segment + 1)
    ensures var start, end, next := TimesOf(r, segment).0, TimesOf(r, segment).1, TimesOf(r, segment + 1).0;
            && end <= next && next == start + 60_000
            && (end < next <==> r.endMillis.Some? && start < r.endMillis.value < next)
            && (end < next ==> end == r.endMillis.value)
  {
    FallbackStartExact(r, segment);
    FallbackStartExact(r, segment + 1);
    ComputedTimes(r, segment);
    ComputedTimes(r, segment + 1);
    ComputedEndBounds(r, FallbackStart(r, segment));
  }

  /** The end of a computed interval away from overflow. */
  function ComputedEnd(r: StoredRoute, start: int64): int {
    if r.endMillis.Some? && start < r.endMillis.value < start + SEGMENT_MILLIS then r.endMillis.value
    else start + SEGMENT_MILLIS
  }

  lemma ComputedEndBounds(r: StoredRoute, start: int64)
    ensures var end, next := ComputedEnd(r, start), start + SEGMENT_MILLIS;
            && end <= next
            && (end < next <==> r.endMillis.Some? && start < r.endMillis.value < next)
            && (end < next ==> end == r.endMillis.value)
  {
  }

  lemma ComputedTimes(r: StoredRoute, segment: int)
    requires !HasStoredTimes(r, segment) && FallbackStart(r, segment) <= MAX_INT64 - SEGMENT_MILLIS
    ensures TimesOf(r, segment).0 == FallbackStart(r, segment)
    ensures TimesOf(r, segment).1 == ComputedEnd(r, FallbackStart(r, segment))
  {
    FallbackEndExact(r, FallbackStart(r, segment));
  }

  lemma FallbackEndExact(r: StoredRoute, start: int64)
    requires start <= MAX_INT64 - SEGMENT_MILLIS
    ensures FallbackEnd(r, start) == ComputedEnd(r, start)
  {
    MinuteLater(start);
  }

  /** Without the bound it can fail: an uploaded segment number near the 64-bit limit. */
  lemma HugeSegmentHasNoInterval()
    ensures var r := StoredRoute([], [], [], 0, None);
            var segment := 153722867280912;
            && MIN_INT64 <= segment <= MAX_INT64
            && TimesOf(r, segment).1 < TimesOf(r, segment).0
  {
    var r := StoredRoute([], [], [], 0, None);
    assert !HasStoredTimes(r, 153722867280912);
  }

  // ----- Routes built by the log parser -----

  /** For a route folded from nothing, the k-th stored segment is found at position k - 1. */
  lemma ProcessedRouteIndex(deviceID: nat, routeID: string, segs: seq<SegmentData>, k: int)
    requires 0 < |segs| <= MAX_INT64
    ensures var r := R.FoldAll(None, deviceID, routeID, segs);
            && r.Some?
            && SegmentIndex(Stored(r.value), k) == if 1 <= k <= |segs| then k - 1 else -1
  {
    R.FoldFromScratch(deviceID, routeID, segs);
    var r := R.FoldAll(None, deviceID, routeID, segs).value;
    if 1 <= k <= |segs| {
      assert r.segmentNumbers[k - 1] == k;
    }
  }

  /** The times reported for the k-th segment of such a route: its own times in milliseconds, if these are
      in the range of wall times and it lasts at least a millisecond. */
  lemma ProcessedSegmentTimes(deviceID: nat, routeID: string, segs: seq<SegmentData>, k: nat)
    requires 1 <= k <= |segs| <= MAX_INT64
    ensures var r := R.FoldAll(None, deviceID, routeID, segs);
            && r.Some? && |r.value.segmentStartTimes| == |r.value.segmentEndTimes| == |segs|
            && var start: int, end: int := r.value.segmentStartTimes[k - 1], r.value.segmentEndTimes[k - 1];
               start > 1_000_000_000_000_000 && end >= start + 1_000_000 ==>
               TimesOf(Stored(r.value), k).0 == start / 1_000_000 && TimesOf(Stored(r.value), k).1 == end / 1_000_000
  {
    R.FoldFromScratch(deviceID, routeID, segs);
    ProcessedRouteIndex(deviceID, routeID, segs, k);
  }

  /** A segment number such a route has no entry for, such as the uploaded segment zero: it starts a minute
      for each segment after the route's start, and ends a minute later or with the route. */
  lemma UnprocessedSegmentTimes(r: R.Route, segment: int)
    requires SegmentIndex(Stored(r), segment) < 0 && 0 <= segment <= 2_147_483_647
    ensures var start := segment * 60_000 +
                         (match r.startTime case ZeroTime => -62_135_596_800_000 case UnixNanos(n) => n / 1_000_000);
            && TimesOf(Stored(r), segment).0 == start
            && TimesOf(Stored(r), segment).1 ==
               match r.endTime
               case ZeroTime => start + 60_000
               case UnixNanos(n) =>
                 if start < n / 1_000_000 < start + 60_000 then n / 1_000_000 else start + 60_000
  {
    FallbackStartExact(Stored(r), segment);
    ComputedTimes(Stored(r), segment);
  }
}
