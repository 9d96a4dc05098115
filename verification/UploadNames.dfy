/** Names of uploaded segments: the route regexes and newRouteInfoFromPath of
    internal/server/controllers/v1.4/upload.go, and segmentFromUploadDir, routeNameBase, routeFileURL
    and routeURLSegment of internal/server/controllers/v1/route_files.go. */
module UploadNames {
  import opened Prelude
  import opened MachineInts
  import opened Strconv
  import opened Text

  predicate IsHex(c: char) { '0' <= c <= '9' || 'a' <= c <= 'f' || 'A' <= c <= 'F' }

  predicate HexRun(s: string) { s != "" && forall i | 0 <= i < |s| :: IsHex(s[i]) }

  predicate DigitRun(s: string) { s != "" && AllDigits(s) }

  /** The length of the longest prefix of characters satisfying p: what a greedy class matches. */
  function Span(s: string, p: char -> bool): (n: nat)
    ensures n <= |s|
    ensures forall i | 0 <= i < n :: p(s[i])
    ensures n < |s| ==> !p(s[n])
  {
    if s == "" || !p(s[0]) then 0 else 1 + Span(s[1..], p)
  }

  /** One group [0-9a-fA-F]+ and the double dash after it, with what follows. */
  function MatchRun(s: string): Option<(string, string)> {
    var i := Span(s, IsHex);
    if i == 0 || !("--" <= s[i..]) then None else Some((s[..i], s[i + 2..]))
  }

  /** The front both regexes share, two such groups, with what follows them. */
  function MatchFront(s: string): Option<(string, string, string)> {
    var a := MatchRun(s);
    if a.None? then None
    else
      var b := MatchRun(a.value.1);
      if b.None? then None else Some((a.value.0, b.value.0, b.value.1))
  }

  datatype RouteInfo = RouteInfo(motonic: string, route: string, segment: string)

  /** newUploadRouteDirRegex: the whole name has to match; the groups are its three parts. */
  function MatchDir(name: string): Option<(string, string, string)> {
    var f := MatchFront(name);
    if f.Some? && DigitRun(f.value.2) then f else None
  }

  /** newRouteRegex: a prefix of the path has to match; the segment takes all the digits there are. */
  function MatchPath(path: string): Option<(string, string, string)> {
    var f := MatchFront(path);
    if f.None? then None
    else
      var n := Span(f.value.2, IsDigit);
      if n == 0 then None else Some((f.value.0, f.value.1, f.value.2[..n]))
  }

  /** newRouteInfoFromPath: a loop over the named groups of the match. */
  method NewRouteInfoFromPath(path: string) returns (result: RouteInfo, ok: bool)
    ensures ok <==> MatchPath(path).Some?
    ensures result == if ok then var m := MatchPath(path).value; RouteInfo(m.0, m.0 + "--" + m.1, m.2)
                      else RouteInfo("", "", "")
  {
    result := RouteInfo("", "", "");
    var groups := MatchPath(path);
    if groups.None? {
      return result, false;
    }
    var submatches := [path, groups.value.0, groups.value.1, groups.value.2];
    var names := ["", "motonic", "route", "segment"];
    var routeSuffix := "";
    var i := 0;
    while i < |names|
      invariant 0 <= i <= 4
      invariant result.motonic == if i >= 2 then groups.value.0 else ""
      invariant routeSuffix == if i >= 3 then groups.value.1 else ""
      invariant result.segment == if i >= 4 then groups.value.2 else ""
    {
      if names[i] == "motonic" {
        result := result.(motonic := submatches[i]);
      } else if names[i] == "route" {
        routeSuffix := submatches[i];
      } else if names[i] == "segment" {
        result := result.(segment := submatches[i]);
      }
      i := i + 1;
    }
    result := result.(route := result.motonic + "--" + routeSuffix);
    return result, true;
  }

  /** Atoi followed by the test for a non-negative number. */
  function SegmentNumber(s: string): Option<int64> {
    var n := ParseInt(s);
    if n.Some? && n.value >= 0 then n else None
  }

  function SegmentFromUploadDir(routeBase: string, dirName: string): Option<int64> {
    var m := MatchDir(dirName);
    if m.Some? && m.value.1 == routeBase then SegmentNumber(m.value.2)
    else if routeBase + "--" <= dirName then SegmentNumber(dirName[|routeBase| + 2..])
    else None
  }

  /** The route name up to its last colon. */
  function RouteNameBase(routeName: string): string {
    var i := LastIndex(routeName, ':');
    if i >= 0 then routeName[..i] else routeName
  }

  function RouteFileURL(backend: string, dongleID: string, routeName: string, segment: int, fileName: string): string {
    TrimRight(backend, '/') + "/v1/route_file/" + dongleID + "/" + routeName + "/" + FormatInt(segment) + "/" + fileName
  }

  /** The second last path element as a number, or -1. */
  function RouteURLSegment(url: string): int {
    var parts := Split(TrimRight(url, '/'), '/');
    if |parts| < 2 then -1
    else
      var n := ParseInt(parts[|parts| - 2]);
      if n.None? then -1 else n.value
  }

  // ----- The regexes mean what they say -----

  lemma {:induction false} SpanOfRun(a: string, b: string, p: char -> bool)
    requires forall i | 0 <= i < |a| :: p(a[i])
    requires b != "" ==> !p(b[0])
    ensures Span(a + b, p) == |a|
  {
    if a == "" {
      assert a + b == b;
    } else {
      assert (a + b)[1..] == a[1..] + b;
      SpanOfRun(a[1..], b, p);
    }
  }

  lemma RunsAre(s: string)
    ensures HexRun(s) <==> s != "" && forall i | 0 <= i < |s| :: s[i] in "0123456789abcdefABCDEF"
    ensures DigitRun(s) <==> s != "" && forall i | 0 <= i < |s| :: s[i] in "0123456789"
  {
    forall c ensures IsHex(c) <==> c in "0123456789abcdefABCDEF" { HexDigitsAre(c); }
    forall c ensures IsDigit(c) <==> c in "0123456789" { DigitsAre(c); }
  }

  lemma HexDigitsAre(c: char)
    ensures IsHex(c) <==> c in "0123456789abcdefABCDEF"
  {
    var digits := "0123456789abcdefABCDEF";
    if '0' <= c <= '9' {
      assert c == digits[c as int - '0' as int];
    } else if 'a' <= c <= 'f' {
      assert c == digits[c as int - 'a' as int + 10];
    } else if 'A' <= c <= 'F' {
      assert c == digits[c as int - 'A' as int + 16];
    }
  }

  lemma RunIff(s: string, run: string, rest: string)
    ensures MatchRun(s) == Some((run, rest)) <==> HexRun(run) && s == run + "--" + rest
  {
    if MatchRun(s) == Some((run, rest)) {
      var i := Span(s, IsHex);
      assert s[i..] == "--" + rest;
      assert s == s[..i] + s[i..];
    }
    if HexRun(run) && s == run + "--" + rest {
      assert s == run + ("--" + rest);
      SpanOfRun(run, "--" + rest, IsHex);
      assert s[|run|..] == "--" + rest;
    }
  }

  /** The match exists exactly when the name is two hex runs and a rest joined by double dashes, and
      its groups are those parts. */
  lemma FrontIff(s: string, m: string, r: string, rest: string)
    ensures MatchFront(s) == Some((m, r, rest)) <==> HexRun(m) && HexRun(r) && s == m + "--" + r + "--" + rest
  {
    var tail := r + "--" + rest;
    assert m + "--" + r + "--" + rest == m + "--" + tail;
    RunIff(s, m, tail);
    RunIff(tail, r, rest);
    if MatchFront(s) == Some((m, r, rest)) {
      var t := MatchRun(s).value.1;
      RunIff(t, r, rest);
    }
  }

  /** A directory name matches exactly when it is two hex runs and a digit run. */
  lemma DirMatchIff(name: string, m: string, r: string, s: string)
    ensures MatchDir(name) == Some((m, r, s)) <==>
            HexRun(m) && HexRun(r) && DigitRun(s) && name == m + "--" + r + "--" + s
  {
    FrontIff(name, m, r, s);
  }

  predicate Ends(tail: string) { tail == "" || tail[0] !in "0123456789" }

  /** An upload path matches exactly when it begins with those three parts, and goes on with no digit. */
  lemma PathMatchIff(path: string, m: string, r: string, s: string)
    ensures MatchPath(path) == Some((m, r, s)) <==>
            && HexRun(m) && HexRun(r) && DigitRun(s)
            && exists tail :: Ends(tail) && path == m + "--" + r + "--" + s + tail
  {
    if MatchPath(path) == Some((m, r, s)) {
      var tail := MatchedTail(path, m, r, s);
    }
    forall tail | HexRun(m) && HexRun(r) && DigitRun(s) && Ends(tail) && path == m + "--" + r + "--" + s + tail
      ensures MatchPath(path) == Some((m, r, s))
    {
      PathWithTail(m, r, s, tail);
    }
  }

  lemma MatchedTail(path: string, m: string, r: string, s: string) returns (tail: string)
    requires MatchPath(path) == Some((m, r, s))
    ensures HexRun(m) && HexRun(r) && DigitRun(s) && Ends(tail) && path == m + "--" + r + "--" + s + tail
  {
    var rest := MatchFront(path).value.2;
    FrontIff(path, m, r, rest);
    tail := rest[|s|..];
    assert rest == s + tail;
    if tail != "" { DigitsAre(tail[0]); }
  }

  lemma PathWithTail(m: string, r: string, s: string, tail: string)
    requires HexRun(m) && HexRun(r) && DigitRun(s) && Ends(tail)
    ensures MatchPath(m + "--" + r + "--" + s + tail) == Some((m, r, s))
  {
    if tail != "" { DigitsAre(tail[0]); }
    assert m + "--" + r + "--" + s + tail == m + "--" + r + "--" + (s + tail);
    FrontIff(m + "--" + r + "--" + s + tail, m, r, s + tail);
    SpanOfRun(s, tail, IsDigit);
    assert (s + tail)[..|s|] == s;
  }

  // ----- Upload, listing and route id agree -----

  /** The directory is the base and a number, or the two hex runs of an upload, the second one the base. */
  predicate Spells(base: string, dir: string, m: string, s: string) {
    || dir == base + "--" + s
    || (HexRun(m) && HexRun(base) && DigitRun(s) && dir == m + "--" + base + "--" + s)
  }

  /** The directories of a route's segment, for every base and every name. */
  lemma DirectoryIff(base: string, dir: string, n: int64)
    ensures SegmentFromUploadDir(base, dir) == Some(n) <==>
            exists m, s :: Spells(base, dir, m, s) && ParseInt(s) == Some(n) && n >= 0
  {
    if SegmentFromUploadDir(base, dir) == Some(n) {
      SpelledDirectory(base, dir, n);
    }
    forall m, s | Spells(base, dir, m, s) && ParseInt(s) == Some(n) && n >= 0
      ensures SegmentFromUploadDir(base, dir) == Some(n)
    {
      DirectorySpelled(base, dir, n, m, s);
    }
  }

  lemma SpelledDirectory(base: string, dir: string, n: int64)
    requires SegmentFromUploadDir(base, dir) == Some(n)
    ensures exists m, s :: Spells(base, dir, m, s) && ParseInt(s) == Some(n) && n >= 0
  {
    var d := MatchDir(dir);
    if d.Some? && d.value.1 == base {
      DirMatchIff(dir, d.value.0, base, d.value.2);
      assert Spells(base, dir, d.value.0, d.value.2);
    } else {
      var s := dir[|base| + 2..];
      assert dir == base + "--" + s;
      assert Spells(base, dir, "", s);
    }
  }

  lemma DirectorySpelled(base: string, dir: string, n: int64, m: string, s: string)
    requires Spells(base, dir, m, s) && ParseInt(s) == Some(n) && n >= 0
    ensures SegmentFromUploadDir(base, dir) == Some(n)
  {
    if HexRun(m) && HexRun(base) && DigitRun(s) && dir == m + "--" + base + "--" + s {
      DirMatchIff(dir, m, base, s);
    } else {
      assert dir[|base| + 2..] == s;
      var d := MatchDir(dir);
      if d.Some? && d.value.1 == base { UploadOfBaseHasNoNumber(base, s); }
    }
  }

  lemma UploadOfBaseHasNoNumber(base: string, s: string)
    requires var d := MatchDir(base + "--" + s); d.Some? && d.value.1 == base
    ensures ParseInt(s).None?
  {
    var dir := base + "--" + s;
    var (m, _, number) := MatchDir(dir).value;
    DirMatchIff(dir, m, base, number);
    assert dir == m + "--" + (base + "--" + number);
    SameRun(base, s, m, base + "--" + number);
    DashesAreNoNumber(base, number);
  }

  lemma SameRun(run1: string, rest1: string, run2: string, rest2: string)
    requires HexRun(run1) && HexRun(run2) && run1 + "--" + rest1 == run2 + "--" + rest2
    ensures run1 == run2 && rest1 == rest2
  {
    RunIff(run1 + "--" + rest1, run1, rest1);
    RunIff(run1 + "--" + rest1, run2, rest2);
  }

  lemma DashesAreNoNumber(base: string, rest: string)
    requires HexRun(base)
    ensures ParseInt(base + "--" + rest).None?
  {
    var s := base + "--" + rest;
    assert IsHex(s[0]);
    assert s[|base|] == '-' && s[1..][|base| - 1] == '-';
  }

  /** The number of a digit string, when it fits. */
  lemma SegmentOfDigits(s: string)
    requires DigitRun(s)
    ensures SegmentNumber(s) == if NatValue(s) <= MAX_INT64 then Some(NatValue(s)) else None
  {
    assert IsDigit(s[0]);
  }

  lemma FullIdHasDash(m: string, r: string)
    ensures !HexRun(m + "--" + r)
  {
    assert (m + "--" + r)[|m|] == '-';
  }

  /** For an upload m--r--s followed by anything that is not a digit: the parsed route id is m--r, and
      both it and the short id r find the directory m--r--s as the segment that s denotes. */
  lemma UploadMatchesItsDirectory(m: string, r: string, s: string, tail: string)
    requires HexRun(m) && HexRun(r) && DigitRun(s) && (tail != "" ==> !IsDigit(tail[0]))
    ensures var dir := m + "--" + r + "--" + s;
            && MatchPath(dir + tail) == Some((m, r, s))
            && SegmentFromUploadDir(m + "--" + r, dir) == SegmentNumber(s)
            && SegmentFromUploadDir(r, dir) == SegmentNumber(s)
  {
    var dir := m + "--" + r + "--" + s;
    assert dir + tail == m + "--" + r + "--" + (s + tail);
    FrontIff(dir + tail, m, r, s + tail);
    SpanOfRun(s, tail, IsDigit);
    assert (s + tail)[..|s|] == s;
    FrontIff(dir, m, r, s);
    FullIdHasDash(m, r);
    var base := m + "--" + r;
    assert dir == base + "--" + s;
    assert dir[|base| + 2..] == s;
  }

  /** A directory that a full route id finds is that id, a double dash and a segment number. */
  lemma FullIdDirectory(m: string, r: string, dir: string)
    requires HexRun(m) && HexRun(r)
    ensures SegmentFromUploadDir(m + "--" + r, dir) ==
            if m + "--" + r + "--" <= dir then SegmentNumber(dir[|m + "--" + r| + 2..]) else None
  {
    FullIdHasDash(m, r);
    var d := MatchDir(dir);
    if d.Some? {
      FrontIff(dir, d.value.0, d.value.1, d.value.2);
    }
  }

  lemma FullIdFront(m: string, r: string, dir: string)
    requires HexRun(m) && HexRun(r) && SegmentFromUploadDir(m + "--" + r, dir).Some?
    ensures MatchFront(dir).Some? && MatchFront(dir).value.0 == m && MatchFront(dir).value.1 == r
  {
    FullIdDirectory(m, r, dir);
    var x := dir[|m + "--" + r| + 2..];
    assert dir == m + "--" + r + "--" + x;
    FrontIff(dir, m, r, x);
  }

  /** No directory is found by two different full route ids. */
  lemma FullIdIsUnique(m1: string, r1: string, m2: string, r2: string, dir: string)
    requires HexRun(m1) && HexRun(r1) && HexRun(m2) && HexRun(r2)
    requires SegmentFromUploadDir(m1 + "--" + r1, dir).Some? && SegmentFromUploadDir(m2 + "--" + r2, dir).Some?
    ensures m1 == m2 && r1 == r2
  {
    FullIdFront(m1, r1, dir);
    FullIdFront(m2, r2, dir);
  }

  /** A directory is found under a route base and also under that base's own base exactly when no colon
      is left in it. */
  lemma ColonHidesDirectory(base: string, dir: string)
    requires SegmentFromUploadDir(base, dir).Some?
    ensures SegmentFromUploadDir(RouteNameBase(base), dir) == SegmentFromUploadDir(base, dir) <==> ':' !in base
  {
    BaseOfBase(base);
    if ':' in base {
      var shorter, m := RouteNameBase(base), MatchDir(dir);
      if m.Some? {
        FrontIff(dir, m.value.0, m.value.1, m.value.2);
        NoColonInMatch(m.value.0, m.value.1, m.value.2);
      }
      assert base + "--" <= dir;
      assert dir[|shorter|] == base[|shorter|] == ':';
    }
  }

  lemma NoColonInMatch(m: string, r: string, s: string)
    requires HexRun(m) && HexRun(r) && DigitRun(s)
    ensures ':' !in m + "--" + r + "--" + s && ':' !in r
  {
  }

  // ----- URLs -----

  /** The URL of a file splits into whatever the base splits into, then the segment and the name. */
  lemma URLParts(backend: string, dongleID: string, routeName: string, segment: int, fileName: string)
    requires '/' !in fileName
    ensures Split(RouteFileURL(backend, dongleID, routeName, segment, fileName), '/') ==
            Split(TrimRight(backend, '/') + "/v1/route_file/" + dongleID + "/" + routeName, '/')
            + [FormatInt(segment), fileName]
  {
    var base := TrimRight(backend, '/') + "/v1/route_file/" + dongleID + "/" + routeName;
    var number := FormatInt(segment);
    assert RouteFileURL(backend, dongleID, routeName, segment, fileName)
           == (base + ['/'] + number) + ['/'] + fileName;
    SplitConcat(base + ['/'] + number, fileName, '/');
    SplitConcat(base, number, '/');
    NoSlashInNumber(segment);
    SplitWithout(number, '/');
    SplitWithout(fileName, '/');
  }

  lemma NoSlashInNumber(n: int)
    ensures '/' !in FormatInt(n)
  {
    var s := FormatInt(n);
    if !AllDigits(s) {
      assert s == [s[0]] + s[1..];
    }
  }

  lemma NoTrailingSlash(s: string, fileName: string)
    requires fileName != "" && '/' !in fileName
    ensures TrimRight(s + fileName, '/') == s + fileName
  {
    assert (s + fileName)[|s + fileName| - 1] == fileName[|fileName| - 1];
  }

  /** The segment printed into a file's URL is read back from it, for every backend URL, dongle and
      route name. */
  lemma URLSegmentRoundTrip(backend: string, dongleID: string, routeName: string, segment: int64, fileName: string)
    requires fileName != "" && '/' !in fileName
    ensures RouteURLSegment(RouteFileURL(backend, dongleID, routeName, segment, fileName)) == segment
  {
    var front :=
      TrimRight(backend, '/') + "/v1/route_file/" + dongleID + "/" + routeName + "/" + FormatInt(segment) + "/";
    NoTrailingSlash(front, fileName);
    URLParts(backend, dongleID, routeName, segment, fileName);
    ParseFormat(segment);
  }

  /** The base of a route name is its own base exactly when no colon is left in it. */
  lemma BaseOfBase(routeName: string)
    ensures RouteNameBase(routeName) == routeName <==> ':' !in routeName
  {
    var i := LastIndex(routeName, ':');
    if i >= 0 {
      assert |RouteNameBase(routeName)| < |routeName|;
    }
  }

  /** Only what follows the last colon is cut off. */
  lemma BaseBeforeColon(base: string, rest: string)
    requires ':' !in rest
    ensures RouteNameBase(base + ":" + rest) == base
  {
    var s := base + ":" + rest;
    assert s[|base|] == ':' && forall j | |base| < j < |s| :: s[j] in rest;
    assert s[..|base|] == base;
  }

  /** What is read out of a URL, trailing slashes or not: its second last part, when that is a number. */
  lemma URLSegmentIs(parts: seq<string>, slashes: string)
    requires parts != [] && parts[|parts| - 1] != ""
    requires forall i | 0 <= i < |parts| :: '/' !in parts[i]
    requires forall i | 0 <= i < |slashes| :: slashes[i] == '/'
    ensures RouteURLSegment(Join(parts, '/') + slashes) ==
            if |parts| >= 2 && ParseInt(parts[|parts| - 2]).Some? then ParseInt(parts[|parts| - 2]).value else -1
  {
    JoinEndsLike(parts);
    TrimmedRight(Join(parts, '/'), slashes, (x: char) => x == '/');
    SplitJoin(parts, '/');
  }

  lemma {:induction false} JoinEndsLike(parts: seq<string>)
    requires parts != [] && parts[|parts| - 1] != ""
    ensures var s, last := Join(parts, '/'), parts[|parts| - 1]; s != "" && s[|s| - 1] == last[|last| - 1]
  {
    if |parts| > 1 {
      JoinEndsLike(parts[1..]);
    }
  }
}
