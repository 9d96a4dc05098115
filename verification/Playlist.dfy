/** The HLS playlist of GETRouteQCameraM3U8 in internal/server/controllers/v1/me.go. Durations are whole
    milliseconds. */
module Playlist {
  import opened Prelude
  import opened MachineInts
  import opened Sorting
  import opened UploadIndex
  import R = Routes
  import M = SegmentMetadata

  const DEFAULT_SECONDS: int := 60

  /** One EXTINF line with its URI. */
  datatype Line = Line(millis: int, url: string)

  /** math.Ceil of a number of milliseconds in seconds. */
  function CeilSeconds(millis: int): int { (millis + 999) / 1000 }

  /** A number of milliseconds in seconds, rounded to the nearest. */
  function NearestSeconds(millis: int): (s: int)
    ensures 1000 * s - 500 <= millis < 1000 * s + 500 && s <= CeilSeconds(millis)
  {
    (millis + 500) / 1000
  }

  /** Rounding up gives the least number of seconds that is enough. */
  lemma CeilIsLeast(millis: int)
    ensures 1000 * (CeilSeconds(millis) - 1) < millis <= 1000 * CeilSeconds(millis)
  {
  }

  /** The position of a segment in the uploaded list; -1 when it is not there. */
  function PositionOf(segments: seq<int>, segment: int): (i: int)
    ensures -1 <= i < |segments|
    ensures i >= 0 ==> segments[i] == segment && forall j | 0 <= j < i :: segments[j] != segment
    ensures i < 0 ==> forall j | 0 <= j < |segments| :: segments[j] != segment
  {
    if segments == [] then -1
    else if segments[0] == segment then 0
    else
      var i := PositionOf(segments[1..], segment);
      if i < 0 then -1 else i + 1
  }

  /** The inner loop of both passes. */
  method FindPosition(segments: seq<int>, segment: int) returns (idx: int)
    ensures idx == PositionOf(segments, segment)
  {
    idx := -1;
    var i := 0;
    while i < |segments|
      invariant 0 <= i <= |segments|
      invariant idx == -1 && forall j | 0 <= j < i :: segments[j] != segment
    {
      if segments[i] == segment {
        return i;
      }
      i := i + 1;
    }
  }

  /** The length of an interval, as Go's 64-bit subtraction gives it. */
  function Interval(starts: seq<int64>, ends: seq<int64>, i: int): int64
    requires 0 <= i < |starts| == |ends|
  {
    WrapInt64(ends[i] as int - starts[i] as int)
  }

  /** The duration printed for a file. */
  function Duration(segments: seq<int>, starts: seq<int64>, ends: seq<int64>, segment: int): int
    requires |segments| <= |starts| == |ends|
  {
    var i := PositionOf(segments, segment);
    if i >= 0 && ends[i] > starts[i] then Interval(starts, ends, i) else DEFAULT_SECONDS * 1000
  }

  /** The target duration: the greatest of the default and every looked-up interval, rounded up. */
  function TargetDuration(segments: seq<int>, starts: seq<int64>, ends: seq<int64>, files: seq<UploadedFile>): int
    requires |segments| <= |starts| == |ends|
  {
    if files == [] then DEFAULT_SECONDS
    else
      var n := |files| - 1;
      var before := TargetDuration(segments, starts, ends, files[..n]);
      var i := PositionOf(segments, files[n].segment);
      if i >= 0 && CeilSeconds(Interval(starts, ends, i)) > before then CeilSeconds(Interval(starts, ends, i))
      else before
  }

  /** i is the first position of a segment in the uploaded list. */
  predicate IsIndexOf(segments: seq<int>, segment: int, i: int) {
    0 <= i < |segments| && segments[i] == segment && forall j | 0 <= j < i :: segments[j] != segment
  }

  /** What is printed for a file of a segment: its end minus its start, when that is positive and fits in 64
      bits, and then the target is at least that, rounded up; a minute when there is no such interval. */
  ghost predicate PrintsTruly(
    segments: seq<int>, starts: seq<int64>, ends: seq<int64>, segment: int, target: int, millis: int)
    requires |segments| <= |starts| == |ends|
  {
    && target >= 60
    && (segment !in segments ==> millis == 60_000)
    && forall i | IsIndexOf(segments, segment, i) ::
         && (ends[i] <= starts[i] ==> millis == 60_000)
         && (0 < ends[i] as int - starts[i] as int <= MAX_INT64 ==>
               millis == ends[i] as int - starts[i] as int && ends[i] as int - starts[i] as int <= 1000 * target)
  }

  lemma IndexIsPosition(segments: seq<int>, segment: int, i: int)
    requires IsIndexOf(segments, segment, i)
    ensures PositionOf(segments, segment) == i
  {
  }

  lemma IntervalIsDifference(starts: seq<int64>, ends: seq<int64>, i: nat)
    requires i < |starts| == |ends| && 0 < ends[i] as int - starts[i] as int <= MAX_INT64
    ensures Interval(starts, ends, i) == ends[i] as int - starts[i] as int
  {
    WrapIsIdentityInRange(ends[i] as int - starts[i] as int);
  }

  lemma DurationIsTrue(segments: seq<int>, starts: seq<int64>, ends: seq<int64>, files: seq<UploadedFile>, k: nat)
    requires |segments| <= |starts| == |ends| && k < |files|
    ensures PrintsTruly(segments, starts, ends, files[k].segment, TargetDuration(segments, starts, ends, files),
                        Duration(segments, starts, ends, files[k].segment))
  {
    var segment := files[k].segment;
    var target, millis := TargetDuration(segments, starts, ends, files), Duration(segments, starts, ends, segment);
    TargetBoundsDuration(segments, starts, ends, files, k);
    CeilIsLeast(millis);
    if segment !in segments {
      assert PositionOf(segments, segment) == -1;
    }
    forall i | IsIndexOf(segments, segment, i)
      ensures ends[i] <= starts[i] ==> millis == 60_000
      ensures 0 < ends[i] as int - starts[i] as int <= MAX_INT64 ==>
                millis == ends[i] as int - starts[i] as int && ends[i] as int - starts[i] as int <= 1000 * target
    {
      IndexIsPosition(segments, segment, i);
      if 0 < ends[i] as int - starts[i] as int <= MAX_INT64 { IntervalIsDifference(starts, ends, i); }
    }
  }

  /** Every printed duration is positive, exactly unless the difference overflows 64 bits. */
  lemma DurationIsPositiveIff(segments: seq<int>, starts: seq<int64>, ends: seq<int64>, segment: int)
    requires |segments| <= |starts| == |ends|
    ensures Duration(segments, starts, ends, segment) > 0 <==>
            forall i | IsIndexOf(segments, segment, i) :: ends[i] as int - starts[i] as int <= MAX_INT64
  {
    var i := PositionOf(segments, segment);
    if i >= 0 {
      assert IsIndexOf(segments, segment, i);
      Difference(ends[i] as int - starts[i] as int);
      forall j | IsIndexOf(segments, segment, j) ensures j == i {
      }
    }
  }

  lemma Difference(d: int)
    ensures 0 < d < TWO_64 ==> (WrapInt64(d) > 0 <==> d <= MAX_INT64)
  {
  }

  /** The two passes over the camera files. The requires is what keeps every index within the arrays. */
  method WritePlaylist(files: seq<UploadedFile>, segments: seq<int>, starts: seq<int64>, ends: seq<int64>)
    returns (target: int, lines: seq<Line>)
    requires |segments| <= |starts| == |ends|
    ensures target == TargetDuration(segments, starts, ends, files)
    ensures |lines| == |files|
    ensures forall k | 0 <= k < |files| ::
              lines[k] == Line(Duration(segments, starts, ends, files[k].segment), files[k].url)
    ensures forall k | 0 <= k < |lines| :: CeilSeconds(lines[k].millis) <= target
    ensures forall k | 0 <= k < |files| ::
              PrintsTruly(segments, starts, ends, files[k].segment, target, lines[k].millis)
  {
    target := DEFAULT_SECONDS;
    var k := 0;
    while k < |files|
      invariant 0 <= k <= |files|
      invariant target == TargetDuration(segments, starts, ends, files[..k])
    {
      assert files[..k + 1][..k] == files[..k];
      var idx := FindPosition(segments, files[k].segment);
      if idx >= 0 {
        var duration := CeilSeconds(Interval(starts, ends, idx));
        if duration > target {
          target := duration;
        }
      }
      k := k + 1;
    }
    assert files[..k] == files;
    lines := [];
    k := 0;
    while k < |files|
      invariant 0 <= k == |lines| <= |files|
      invariant forall j | 0 <= j < k ::
                  lines[j] == Line(Duration(segments, starts, ends, files[j].segment), files[j].url)
    {
      var duration: int := DEFAULT_SECONDS * 1000;
      var idx := FindPosition(segments, files[k].segment);
      if idx >= 0 && ends[idx] > starts[idx] {
        duration := Interval(starts, ends, idx);
      }
      lines := lines + [Line(duration, files[k].url)];
      k := k + 1;
    }
    forall j | 0 <= j < |lines|
      ensures CeilSeconds(lines[j].millis) <= target
      ensures PrintsTruly(segments, starts, ends, files[j].segment, target, lines[j].millis)
    {
      TargetBoundsDuration(segments, starts, ends, files, j);
      DurationIsTrue(segments, starts, ends, files, j);
    }
  }

  /** The playlist of a summary: the times come from the merged metadata of the route and the uploaded
      segments, and the indices from the uploaded segments alone. */
  method RoutePlaylist(route: M.StoredRoute, files: seq<UploadedFile>, segments: seq<int>)
    returns (target: int, lines: seq<Line>, ghost starts: seq<int64>, ghost ends: seq<int64>, ghost merged: seq<int>)
    requires StrictlyIncreasing(segments)
    ensures |segments| <= |merged| == |starts| == |ends| && MergeOf(route, segments, merged)
    ensures forall i | 0 <= i < |merged| :: (starts[i], ends[i]) == M.TimesOf(route, merged[i])
    ensures target == TargetDuration(segments, starts, ends, files)
    ensures |lines| == |files|
    ensures forall k | 0 <= k < |files| ::
              lines[k] == Line(Duration(segments, starts, ends, files[k].segment), files[k].url)
    ensures forall k | 0 <= k < |lines| :: CeilSeconds(lines[k].millis) <= target
    ensures forall k | 0 <= k < |files| ::
              PrintsTruly(segments, starts, ends, files[k].segment, target, lines[k].millis)
  {
    var startTimes, endTimes, all := M.RouteSegmentMetadata(route, segments);
    MergedCoversUploaded(route, segments, all);
    target, lines := WritePlaylist(files, segments, startTimes, endTimes);
    starts, ends, merged := startTimes, endTimes, all;
  }

  /** The sorted merge of a route's stored numbers with the uploaded segments, or just zero. */
  ghost predicate MergeOf(route: M.StoredRoute, segments: seq<int>, merged: seq<int>) {
    var raw := M.Merged(route.numbers, segments);
    Permutation(merged, if raw == [] then [0] else raw) && Ascending(merged)
  }

  // ----- Every index used is within the merged arrays -----

  lemma {:induction false} SubsetLength(xs: seq<int>, ys: seq<int>)
    requires Distinct(xs) && forall x | x in xs :: x in ys
    ensures |xs| <= |ys|
    decreases |xs|
  {
    if xs != [] {
      var n := |xs| - 1;
      assert xs[n] in xs && xs[n] in ys;
      var i :| 0 <= i < |ys| && ys[i] == xs[n];
      var rest := ys[..i] + ys[i + 1..];
      forall x | x in xs[..n] ensures x in rest {
        assert x in xs && x != xs[n];
        var j :| 0 <= j < |ys| && ys[j] == x;
        assert if j < i then rest[j] == x else rest[j - 1] == x;
      }
      SubsetLength(xs[..n], rest);
    }
  }

  lemma MergedCoversUploaded(route: M.StoredRoute, segments: seq<int>, merged: seq<int>)
    requires StrictlyIncreasing(segments)
    requires MergeOf(route, segments, merged)
    ensures |segments| <= |merged|
    ensures forall x | x in segments :: x in merged
  {
    var raw := M.Merged(route.numbers, segments);
    forall x | x in segments ensures x in raw {
      M.MergedExactly(route.numbers, segments, x);
    }
    PermutationElements(merged, if raw == [] then [0] else raw);
    SubsetLength(segments, merged);
  }

  // ----- The bound of RFC 8216, section 4.3.3.1 -----

  /** No printed duration exceeds the target, rounded up or, as the RFC has it, to the nearest second. */
  lemma {:induction false} TargetBoundsDuration(
    segments: seq<int>, starts: seq<int64>, ends: seq<int64>, files: seq<UploadedFile>, k: nat)
    requires |segments| <= |starts| == |ends| && k < |files|
    ensures var target := TargetDuration(segments, starts, ends, files);
            && target >= DEFAULT_SECONDS
            && CeilSeconds(Duration(segments, starts, ends, files[k].segment)) <= target
            && NearestSeconds(Duration(segments, starts, ends, files[k].segment)) <= target
    decreases |files|
  {
    var n := |files| - 1;
    TargetAtLeastDefault(segments, starts, ends, files[..n]);
    if k < n {
      TargetBoundsDuration(segments, starts, ends, files[..n], k);
      assert files[..n][k] == files[k];
    }
  }

  lemma {:induction false} TargetAtLeastDefault(
    segments: seq<int>, starts: seq<int64>, ends: seq<int64>, files: seq<UploadedFile>)
    requires |segments| <= |starts| == |ends|
    ensures TargetDuration(segments, starts, ends, files) >= DEFAULT_SECONDS
    decreases |files|
  {
    if files != [] {
      TargetAtLeastDefault(segments, starts, ends, files[..|files| - 1]);
    }
  }

  /** The target is no larger than it has to be: the default, or the rounded-up interval of a file. */
  lemma {:induction false} TargetIsAttained(
    segments: seq<int>, starts: seq<int64>, ends: seq<int64>, files: seq<UploadedFile>)
    requires |segments| <= |starts| == |ends|
    ensures var target := TargetDuration(segments, starts, ends, files);
            target == 60 || exists k :: 0 <= k < |files| && RoundsTo(segments, starts, ends, files[k].segment, target)
    decreases |files|
  {
    if files != [] {
      var n := |files| - 1;
      var before := TargetDuration(segments, starts, ends, files[..n]);
      var target := TargetDuration(segments, starts, ends, files);
      TargetIsAttained(segments, starts, ends, files[..n]);
      if target != before {
        var i := PositionOf(segments, files[n].segment);
        CeilIsLeast(Interval(starts, ends, i));
        assert IsIndexOf(segments, files[n].segment, i);
        assert RoundsTo(segments, starts, ends, files[n].segment, target);
      } else if target != 60 {
        var k :| 0 <= k < n && RoundsTo(segments, starts, ends, files[..n][k].segment, target);
        assert files[..n][k] == files[k];
      }
    }
  }

  /** The interval of the segment, as 64-bit subtraction gives it, is target seconds when rounded up. */
  ghost predicate RoundsTo(segments: seq<int>, starts: seq<int64>, ends: seq<int64>, segment: int, target: int)
    requires |segments| <= |starts| == |ends|
  {
    exists i :: IsIndexOf(segments, segment, i)
                && 1000 * (target - 1) < WrapInt64(ends[i] as int - starts[i] as int) <= 1000 * target
  }

  // ----- Which segment an uploaded index denotes in the merged arrays -----

  /** How many merged entries lie below a segment. */
  function Below(merged: seq<int>, segment: int): nat {
    if merged == [] then 0 else Below(merged[..|merged| - 1], segment) + if merged[|merged| - 1] < segment then 1 else 0
  }

  lemma {:induction false} BelowSplits(merged: seq<int>, segment: int)
    requires Ascending(merged)
    ensures var b := Below(merged, segment);
            && b <= |merged|
            && (forall i | 0 <= i < b :: merged[i] < segment)
            && (forall i | b <= i < |merged| :: merged[i] >= segment)
    decreases |merged|
  {
    if merged != [] {
      var n := |merged| - 1;
      BelowSplits(merged[..n], segment);
      var b := Below(merged[..n], segment);
      assert forall i | 0 <= i < n :: merged[..n][i] == merged[i];
      assert forall i | 0 <= i < n :: merged[i] <= merged[n];
    }
  }

  /** The index that the playlist uses denotes the file's own segment exactly when as many merged
      entries lie below the segment as uploaded ones. */
  lemma IndexDenotesOwnSegment(merged: seq<int>, segments: seq<int>, idx: nat)
    requires Ascending(merged) && StrictlyIncreasing(segments)
    requires (forall x | x in segments :: x in merged) && idx < |segments| <= |merged|
    ensures merged[idx] == segments[idx] <==> Below(merged, segments[idx]) == idx
  {
    var seg, b := segments[idx], Below(merged, segments[idx]);
    BelowSplits(merged, seg);
    assert seg in merged;
    var p :| 0 <= p < |merged| && merged[p] == seg;
    assert merged[b] == seg by { assert merged[b] <= merged[p]; }
    forall x | x in segments[..idx] ensures x in merged[..b] {
      assert x in segments;
      var j :| 0 <= j < |merged| && merged[j] == x;
      assert j < b;
      assert merged[..b][j] == x;
    }
    SubsetLength(segments[..idx], merged[..b]);
  }

  /** When no stored number is repeated: exactly when no unuploaded merged segment precedes it. */
  lemma IndexDenotesOwnUnlessUnuploadedPrecedes(
    route: M.StoredRoute, merged: seq<int>, segments: seq<int>, idx: nat)
    requires MergeOf(route, segments, merged) && Distinct(M.KeepInRange(route.numbers))
    requires StrictlyIncreasing(segments) && idx < |segments|
    ensures |segments| <= |merged|
    ensures merged[idx] == segments[idx] <==> forall x | x in merged && x < segments[idx] :: x in segments
  {
    MergedCoversUploaded(route, segments, merged);
    M.MergedDistinct(route.numbers, segments);
    SortedDistinct(if M.Merged(route.numbers, segments) == [] then [0] else M.Merged(route.numbers, segments), merged);
    StrictMergeDenotesOwn(merged, segments, idx);
  }

  /** An uploaded index can denote another segment: with 1 and 2 stored and only 2 uploaded, the file of
      segment 2 is given the times of segment 1. */
  lemma ShiftedIndex(starts: seq<int64>, ends: seq<int64>)
    requires |starts| == |ends| == 2
    ensures var route := M.StoredRoute([1, 2], starts, ends, 0, None);
            MergeOf(route, [2], [1, 2]) && PositionOf([2], 2) == 0 && [1, 2][0] != 2
  {
    var numbers: seq<int64> := [1, 2];
    assert numbers[..1] == [1] && numbers[..1][..0] == [];
    assert M.KeepInRange(numbers[..1]) == [1];
    assert M.KeepInRange(numbers) == [1, 2];
    assert 2 in M.Elements([1, 2]) by { assert [1, 2][1] == 2; }
    assert M.KeepNew([2], M.Elements([1, 2])) == [];
  }

  lemma StrictMergeDenotesOwn(merged: seq<int>, segments: seq<int>, idx: nat)
    requires StrictlyIncreasing(merged) && StrictlyIncreasing(segments)
    requires (forall x | x in segments :: x in merged) && idx < |segments| <= |merged|
    ensures merged[idx] == segments[idx] <==> forall x | x in merged && x < segments[idx] :: x in segments
  {
    var seg, b := segments[idx], Below(merged, segments[idx]);
    IndexDenotesOwnSegment(merged, segments, idx);
    BelowSplits(merged, seg);
    if forall x | x in merged && x < seg :: x in segments {
      forall x | x in merged[..b] ensures x in segments[..idx] {
        var i :| 0 <= i < b && merged[..b][i] == x;
        assert merged[i] == x && x in merged;
        var j :| 0 <= j < |segments| && segments[j] == x;
        assert segments[..idx][j] == x;
      }
      SubsetLength(merged[..b], segments[..idx]);
      AtLeastUploaded(merged, segments, idx);
    }
    if b == idx {
      forall x | x in merged && x < seg ensures x in segments {
        var i :| 0 <= i < |merged| && merged[i] == x;
        assert x in merged[..b] by { assert merged[..b][i] == x; }
        AtLeastUploaded(merged, segments, idx);
        SameSizeSubset(segments[..idx], merged[..b]);
        assert x in segments[..idx];
      }
    }
  }

  /** A route folded from nothing by the log parser repeats no number. */
  lemma ProcessedNumbersDistinct(r: R.Route)
    requires R.WellNumbered(r)
    ensures Distinct(M.KeepInRange(M.Stored(r).numbers))
  {
    DistinctKept(r.segmentNumbers);
  }

  lemma {:induction false} DistinctKept(xs: seq<int64>)
    requires forall i, j | 0 <= i < j < |xs| :: xs[i] != xs[j]
    ensures Distinct(M.KeepInRange(xs))
  {
    if xs != [] {
      var n := |xs| - 1;
      DistinctKept(xs[..n]);
      M.InRangeElements(xs[..n], xs[n]);
    }
  }

  lemma AtLeastUploaded(merged: seq<int>, segments: seq<int>, idx: nat)
    requires Ascending(merged) && StrictlyIncreasing(segments)
    requires (forall x | x in segments :: x in merged) && idx < |segments|
    ensures var b := Below(merged, segments[idx]);
            idx <= b <= |merged| && forall x | x in segments[..idx] :: x in merged[..b]
  {
    var b := Below(merged, segments[idx]);
    BelowSplits(merged, segments[idx]);
    forall x | x in segments[..idx] ensures x in merged[..b] {
      var k :| 0 <= k < idx && segments[k] == x;
      assert x in segments && x < segments[idx];
      var j :| 0 <= j < |merged| && merged[j] == x;
      assert merged[..b][j] == x;
    }
    SubsetLength(segments[..idx], merged[..b]);
  }

  lemma SameSizeSubset(xs: seq<int>, ys: seq<int>)
    requires Distinct(xs) && Distinct(ys) && |xs| == |ys| && forall x | x in xs :: x in ys
    ensures forall y | y in ys :: y in xs
  {
    forall y | y in ys ensures y in xs {
      if y !in xs {
        SubsetLength(xs + [y], ys);
      }
    }
  }
}
