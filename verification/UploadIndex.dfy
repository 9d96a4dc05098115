/** The index of a route's uploaded files, and the lookup of a segment's directory, in
    internal/server/controllers/v1/route_files.go. */
module UploadIndex {
  import opened Prelude
  import opened MachineInts
  import opened Strconv
  import opened Text
  import opened UploadNames
  import opened Sorting

  datatype Kind = QLogs | QCameras | Logs | Cameras | DCameras | ECameras

  /** uploadFileTypeByName. */
  function FileKind(name: string): Option<Kind> {
    if name == "qcamera.ts" then Some(QCameras)
    else if name == "fcamera.hevc" then Some(Cameras)
    else if name == "dcamera.hevc" then Some(DCameras)
    else if name == "ecamera.hevc" then Some(ECameras)
    else if name == "qlog.bz2" || name == "qlog.zst" then Some(QLogs)
    else if name == "rlog.bz2" || name == "rlog.zst" then Some(Logs)
    else None
  }

  /** The names of each kind. */
  lemma KindNames(name: string, k: Kind)
    ensures FileKind(name) == Some(k) <==>
            name in (match k
                     case QLogs => {"qlog.bz2", "qlog.zst"}
                     case QCameras => {"qcamera.ts"}
                     case Logs => {"rlog.bz2", "rlog.zst"}
                     case Cameras => {"fcamera.hevc"}
                     case DCameras => {"dcamera.hevc"}
                     case ECameras => {"ecamera.hevc"})
  {
  }

  const UPLOAD_RESPONSE_KEYS: seq<Kind> := [QLogs, QCameras, Logs, Cameras, DCameras, ECameras]

  lemma KeysAreAllKinds()
    ensures forall k: Kind :: k in UPLOAD_RESPONSE_KEYS
    ensures forall i, j | 0 <= i < j < |UPLOAD_RESPONSE_KEYS| :: UPLOAD_RESPONSE_KEYS[i] != UPLOAD_RESPONSE_KEYS[j]
  {
    forall k: Kind ensures k in UPLOAD_RESPONSE_KEYS {
      match k
      case QLogs => assert UPLOAD_RESPONSE_KEYS[0] == k;
      case QCameras => assert UPLOAD_RESPONSE_KEYS[1] == k;
      case Logs => assert UPLOAD_RESPONSE_KEYS[2] == k;
      case Cameras => assert UPLOAD_RESPONSE_KEYS[3] == k;
      case DCameras => assert UPLOAD_RESPONSE_KEYS[4] == k;
      case ECameras => assert UPLOAD_RESPONSE_KEYS[5] == k;
    }
  }

  datatype FileEntry = FileEntry(name: string, isDir: bool)

  /** A directory entry under the device root, with its own listing when that can be read. */
  datatype Entry = Entry(name: string, isDir: bool, children: Option<seq<FileEntry>>)

  datatype UploadedFile = UploadedFile(segment: int64, name: string, kind: Kind, url: string)

  /** The parts of the request and configuration that end up in URLs. */
  datatype Request = Request(backend: string, dongleID: string, routeName: string)

  /** What the index needs of them: the route base, and the URL of a segment's file. */
  datatype Context = Context(base: string, url: (int64, string) -> string)

  function ContextOf(r: Request): Context {
    var base := RouteNameBase(r.routeName);
    Context(base, (segment: int64, name: string) => RouteFileURL(r.backend, r.dongleID, base, segment, name))
  }

  function FileOf(c: Context, segment: int64, name: string): UploadedFile
    requires FileKind(name).Some?
  {
    UploadedFile(segment, name, FileKind(name).value, c.url(segment, name))
  }

  /** Whether a file entry is one the server recognises. */
  predicate IsUpload(f: FileEntry) { !f.isDir && FileKind(f.name).Some? }

  /** The segment whose files a directory entry lists, if it lists any. */
  function ListedSegment(base: string, e: Entry): Option<int64> {
    if e.isDir && e.children.Some? then SegmentFromUploadDir(base, e.name) else None
  }

  function FilesIn(c: Context, segment: int64, children: seq<FileEntry>): seq<UploadedFile> {
    if children == [] then []
    else
      var n := |children| - 1;
      FilesIn(c, segment, children[..n]) +
      if IsUpload(children[n]) then [FileOf(c, segment, children[n].name)] else []
  }

  /** Every recognised file of the route, in the order of the listings. */
  function Recognised(c: Context, entries: seq<Entry>): seq<UploadedFile> {
    if entries == [] then []
    else
      Recognised(c, entries[..|entries| - 1]) + FilesOf(c, entries[|entries| - 1])
  }

  /** The recognised files one directory entry lists. */
  function FilesOf(c: Context, e: Entry): seq<UploadedFile> {
    var s := ListedSegment(c.base, e);
    if s.Some? then FilesIn(c, s.value, e.children.value) else []
  }

  function OfKind(fs: seq<UploadedFile>, k: Kind): seq<UploadedFile> {
    if fs == [] then []
    else OfKind(fs[..|fs| - 1], k) + if fs[|fs| - 1].kind == k then [fs[|fs| - 1]] else []
  }

  function URLs(fs: seq<UploadedFile>): (r: seq<string>)
    ensures |r| == |fs| && forall i | 0 <= i < |fs| :: r[i] == fs[i].url
  {
    seq(|fs|, i requires 0 <= i < |fs| => fs[i].url)
  }

  function MaxSegment(fs: seq<UploadedFile>): int {
    if fs == [] then -1
    else
      var m := MaxSegment(fs[..|fs| - 1]);
      if fs[|fs| - 1].segment > m then fs[|fs| - 1].segment else m
  }

  /** The segments of a list of files. */
  function SegmentSet(fs: seq<UploadedFile>): set<int> { set f | f in fs :: f.segment as int }

  function SegmentKey(f: UploadedFile): int { f.segment }

  /** The lists after the loops have gone through the files fs, for one kind of file. */
  ghost predicate KindGathered(urls: Option<seq<string>>, max: Option<int>, fs: seq<UploadedFile>, k: Kind) {
    urls == Some(URLs(OfKind(fs, k))) && max == Some(MaxSegment(OfKind(fs, k)))
  }

  ghost predicate SegmentsGathered(segments: seq<int>, seen: set<int>, fs: seq<UploadedFile>) {
    && Distinct(segments) && seen == SegmentSet(fs)
    && (forall x: int :: x in segments <==> x in seen)
  }

  ghost predicate IsSortOf(us: Option<seq<string>>, vs: Option<seq<string>>) {
    us.Some? && vs.Some? && Permutation(us.value, vs.value) && SortedBy(us.value, RouteURLSegment)
  }

  /** The finished list of one kind: a permutation of its files' URLs, ordered by segment. */
  ghost predicate KindIndexed(urls: Option<seq<string>>, max: Option<int>, fs: seq<UploadedFile>, k: Kind) {
    IsSortOf(urls, Some(URLs(OfKind(fs, k)))) && max == Some(MaxSegment(OfKind(fs, k)))
  }

  /** The summary while it is built, and its fields as they are finally returned. */
  class Summary {
    var files: map<Kind, seq<string>>
    var segments: seq<int>
    var maxByType: map<Kind, int>
    var qcameras: seq<UploadedFile>
    var seenSegments: set<int>

    constructor ()
      ensures Gathered([])
    {
      files := map[QLogs := [], QCameras := [], Logs := [], Cameras := [], DCameras := [], ECameras := []];
      maxByType := map[QLogs := -1, QCameras := -1, Logs := -1, Cameras := -1, DCameras := -1, ECameras := -1];
      segments, qcameras, seenSegments := [], [], {};
      new;
      forall k: Kind ensures KindGathered(Lookup(files, k), Lookup(maxByType, k), [], k) {
        assert URLs(OfKind([], k)) == [];
        match k
        case QLogs =>
        case QCameras =>
        case Logs =>
        case Cameras =>
        case DCameras =>
        case ECameras =>
      }
    }

    /** The fields after the loops have gone through the files fs. */
    ghost predicate Gathered(fs: seq<UploadedFile>)
      reads this
    {
      && (forall k: Kind :: KindGathered(Lookup(files, k), Lookup(maxByType, k), fs, k))
      && qcameras == OfKind(fs, QCameras)
      && SegmentsGathered(segments, seenSegments, fs)
    }

    /** The finished summary of the files fs: every list is a permutation of the recognised files it is
        for, ordered by segment; the segments are exactly theirs, strictly increasing. */
    ghost predicate Indexed(fs: seq<UploadedFile>)
      reads this
    {
      && (forall k: Kind :: KindIndexed(Lookup(files, k), Lookup(maxByType, k), fs, k))
      && StrictlyIncreasing(segments) && (forall x: int :: x in segments <==> x in SegmentSet(fs))
      && Permutation(qcameras, OfKind(fs, QCameras)) && SortedBy(qcameras, SegmentKey)
    }

    /** The body of the inner loop for a recognised file. */
    method AddFile(file: UploadedFile, ghost fs: seq<UploadedFile>)
      requires Gathered(fs)
      modifies this
      ensures Gathered(fs + [file])
    {
      AddURL(file, fs);
      OfKindSnoc(fs, file, QCameras);
      if file.kind == QCameras {
        qcameras := qcameras + [file];
      }
      SegmentSetSnoc(fs, file);
      if file.segment !in seenSegments {
        segments := segments + [file.segment];
        seenSegments := seenSegments + {file.segment};
      }
      assert seenSegments == SegmentSet(fs + [file]);
    }

    method AddURL(file: UploadedFile, ghost fs: seq<UploadedFile>)
      requires forall k: Kind :: KindGathered(Lookup(files, k), Lookup(maxByType, k), fs, k)
      modifies `files, `maxByType
      ensures forall k: Kind :: KindGathered(Lookup(files, k), Lookup(maxByType, k), fs + [file], k)
    {
      ghost var files0, max0 := files, maxByType;
      assert KindGathered(Lookup(files, file.kind), Lookup(maxByType, file.kind), fs, file.kind);
      files := files[file.kind := files[file.kind] + [file.url]];
      if file.segment > maxByType[file.kind] {
        maxByType := maxByType[file.kind := file.segment];
      }
      forall k: Kind ensures KindGathered(Lookup(files, k), Lookup(maxByType, k), fs + [file], k) {
        assert KindGathered(Lookup(files0, k), Lookup(max0, k), fs, k);
        OfKindSnoc(fs, file, k);
        if k != file.kind { assert URLs(OfKind(fs + [file], k)) == URLs(OfKind(fs, k)); }
      }
    }

    /** The inner loop over one directory's files. */
    method AddDirectory(c: Context, segment: int64, children: seq<FileEntry>, ghost fs: seq<UploadedFile>)
      requires Gathered(fs)
      modifies this
      ensures Gathered(fs + FilesIn(c, segment, children))
    {
      var i := 0;
      ghost var all := fs;
      while i < |children|
        invariant 0 <= i <= |children|
        invariant all == fs + FilesIn(c, segment, children[..i])
        invariant Gathered(all)
      {
        var child := children[i];
        assert children[..i + 1][..i] == children[..i];
        if !child.isDir && FileKind(child.name).Some? {
          var file := FileOf(c, segment, child.name);
          AddFile(file, all);
          all := all + [file];
        }
        i := i + 1;
      }
      assert children[..i] == children;
    }

    /** The body of the outer loop, for one directory entry. */
    method AddEntry(c: Context, entry: Entry, ghost fs: seq<UploadedFile>)
      requires Gathered(fs)
      modifies this
      ensures Gathered(fs + FilesOf(c, entry))
    {
      assert fs + [] == fs;
      if entry.isDir {
        var segment := SegmentFromUploadDir(c.base, entry.name);
        if segment.Some? && entry.children.Some? {
          AddDirectory(c, segment.value, entry.children.value, fs);
        }
      }
    }

    /** The three sorts at the end. */
    method SortAll(ghost fs: seq<UploadedFile>)
      requires Gathered(fs)
      modifies this
      ensures Indexed(fs)
    {
      ghost var gathered := segments;
      segments := SortInts(segments);
      SortedDistinct(gathered, segments);
      qcameras := SortSlice(qcameras, SegmentKey);
      KeysAreAllKinds();
      ghost var urls := files;
      forall k | k in UPLOAD_RESPONSE_KEYS ensures k in files {
        assert KindGathered(Lookup(files, k), Lookup(maxByType, k), fs, k);
      }
      SortFiles(UPLOAD_RESPONSE_KEYS);
      forall k: Kind ensures KindIndexed(Lookup(files, k), Lookup(maxByType, k), fs, k) {
        assert k in UPLOAD_RESPONSE_KEYS;
        assert KindGathered(Lookup(urls, k), Lookup(maxByType, k), fs, k);
      }
    }

    method SortFiles(keys: seq<Kind>)
      requires forall i, j | 0 <= i < j < |keys| :: keys[i] != keys[j]
      requires forall k | k in keys :: k in files
      modifies `files
      ensures forall k | k in keys :: IsSortOf(Lookup(files, k), Lookup(old(files), k))
    {
      var i := 0;
      while i < |keys|
        invariant 0 <= i <= |keys| && files.Keys == old(files.Keys)
        invariant forall j | 0 <= j < i :: IsSortOf(Lookup(files, keys[j]), Lookup(old(files), keys[j]))
        invariant forall j | i <= j < |keys| :: Lookup(files, keys[j]) == Lookup(old(files), keys[j])
      {
        assert keys[i] in keys;
        SortKind(keys[i]);
        i := i + 1;
      }
    }

    method SortKind(k: Kind)
      requires k in files
      modifies `files
      ensures files.Keys == old(files.Keys) && IsSortOf(Lookup(files, k), Lookup(old(files), k))
      ensures forall other: Kind | other != k :: Lookup(files, other) == Lookup(old(files), other)
    {
      var sorted := SortSlice(files[k], RouteURLSegment);
      files := files[k := sorted];
    }
  }

  /** summarizeUploadedRoute; entries is None when the root or the device directory cannot be listed. */
  method SummarizeUploadedRoute(r: Request, entries: Option<seq<Entry>>) returns (summary: Summary)
    ensures fresh(summary)
    ensures summary.Indexed(if entries.Some? then Recognised(ContextOf(r), entries.value) else [])
  {
    var c := ContextOf(r);
    summary := new Summary();
    if entries.None? {
      summary.SortAll([]);
      return;
    }
    var es := entries.value;
    var i := 0;
    while i < |es|
      invariant 0 <= i <= |es|
      invariant fresh(summary) && summary.Gathered(Recognised(c, es[..i]))
    {
      assert es[..i + 1][..i] == es[..i];
      summary.AddEntry(c, es[i], Recognised(c, es[..i]));
      i := i + 1;
    }
    assert es[..i] == es;
    summary.SortAll(Recognised(c, es));
  }

  ghost predicate IsMaxSegment(fs: seq<UploadedFile>, m: int) {
    if fs == [] then m == -1
    else (exists f | f in fs :: f.segment == m) && (forall f | f in fs :: f.segment <= m)
  }

  lemma OfKindSnoc(fs: seq<UploadedFile>, f: UploadedFile, k: Kind)
    ensures OfKind(fs + [f], k) == OfKind(fs, k) + if f.kind == k then [f] else []
    ensures URLs(OfKind(fs + [f], k)) == URLs(OfKind(fs, k)) + if f.kind == k then [f.url] else []
    ensures MaxSegment(OfKind(fs + [f], k)) ==
            var m := MaxSegment(OfKind(fs, k)); if f.kind == k && f.segment > m then f.segment else m
  {
    assert (fs + [f])[..|fs|] == fs;
    var xs := OfKind(fs, k);
    assert (xs + [f])[..|xs|] == xs;
    assert xs + [] == xs;
  }

  lemma SegmentSetSnoc(fs: seq<UploadedFile>, f: UploadedFile)
    ensures SegmentSet(fs + [f]) == SegmentSet(fs) + {f.segment as int}
  {
    forall x | x in SegmentSet(fs) ensures x in SegmentSet(fs + [f]) {
      var g :| g in fs && g.segment as int == x;
      assert g in fs + [f];
    }
    assert f in fs + [f];
  }

  lemma {:induction false} MaxSegmentIsMax(fs: seq<UploadedFile>)
    requires forall f | f in fs :: f.segment >= 0
    ensures IsMaxSegment(fs, MaxSegment(fs))
  {
    if fs != [] {
      var n := |fs| - 1;
      MaxSegmentIsMax(fs[..n]);
      assert fs == fs[..n] + [fs[n]];
    }
  }

  // ----- What the finished summary means -----

  /** The directory entry lists the file f: it is a directory of f's segment, and f is in it. */
  ghost predicate ListsFile(c: Context, e: Entry, f: UploadedFile) {
    && e.isDir && SegmentFromUploadDir(c.base, e.name) == Some(f.segment)
    && e.children.Some? && FileEntry(f.name, false) in e.children.value
    && FileKind(f.name) == Some(f.kind) && f.url == c.url(f.segment, f.name)
  }

  lemma {:induction false} FilesInAreFiles(c: Context, segment: int64, children: seq<FileEntry>, f: UploadedFile)
    ensures f in FilesIn(c, segment, children) <==>
            FileKind(f.name).Some? && f == FileOf(c, segment, f.name) && FileEntry(f.name, false) in children
  {
    if children != [] {
      var n := |children| - 1;
      FilesInAreFiles(c, segment, children[..n], f);
      assert children == children[..n] + [children[n]];
      if IsUpload(children[n]) {
        assert children[n] == FileEntry(children[n].name, false);
      }
    }
  }

  /** The recognised files are exactly the files of a known name in the directories of the route. */
  lemma {:induction false} RecognisedExactly(c: Context, entries: seq<Entry>, f: UploadedFile)
    ensures f in Recognised(c, entries) <==> SomeListsFile(c, entries, f)
  {
    if entries != [] {
      RecognisedExactly(c, entries[..|entries| - 1], f);
      LastEntryFiles(c, entries, f);
      LastEntryLists(c, entries, f);
    }
  }

  ghost predicate SomeListsFile(c: Context, entries: seq<Entry>, f: UploadedFile) {
    exists e :: e in entries && ListsFile(c, e, f)
  }

  lemma LastEntryLists(c: Context, entries: seq<Entry>, f: UploadedFile)
    requires entries != []
    ensures var n := |entries| - 1;
            SomeListsFile(c, entries, f) <==> SomeListsFile(c, entries[..n], f) || ListsFile(c, entries[n], f)
  {
    var n := |entries| - 1;
    forall e ensures e in entries <==> e in entries[..n] || e == entries[n] {
      assert entries == entries[..n] + [entries[n]];
    }
  }

  lemma LastEntryFiles(c: Context, entries: seq<Entry>, f: UploadedFile)
    requires entries != []
    ensures var n := |entries| - 1;
            f in Recognised(c, entries) <==> f in Recognised(c, entries[..n]) || ListsFile(c, entries[n], f)
  {
    var last := entries[|entries| - 1];
    var s := ListedSegment(c.base, last);
    if s.Some? {
      FilesInAreFiles(c, s.value, last.children.value, f);
    }
  }

  /** The base and the URLs of a request: the address without its trailing slashes, the device, the route
      up to the last colon, the segment and the name. */
  lemma RequestURLs(backend: string, slashes: string, dongleID: string, routeName: string, segment: int64, name: string)
    requires backend != "" ==> backend[|backend| - 1] != '/'
    requires forall i | 0 <= i < |slashes| :: slashes[i] == '/'
    ensures var c := ContextOf(Request(backend + slashes, dongleID, routeName));
            && c.base == RouteNameBase(routeName)
            && c.url(segment, name)
               == backend + "/v1/route_file/" + dongleID + "/" + c.base + "/" + FormatInt(segment) + "/" + name
  {
    TrimmedRight(backend, slashes, (x: char) => x == '/');
  }

  /** The URLs of the context give the segment back. */
  ghost predicate GoodURLs(c: Context) {
    forall segment: int64, name: string | FileKind(name).Some? :: RouteURLSegment(c.url(segment, name)) == segment
  }

  lemma KnownNamesAreBare(name: string)
    requires FileKind(name).Some?
    ensures name != "" && '/' !in name
  {
  }

  lemma RequestURLsAreGood(r: Request)
    ensures GoodURLs(ContextOf(r))
  {
    forall segment: int64, name: string | FileKind(name).Some?
      ensures RouteURLSegment(ContextOf(r).url(segment, name)) == segment
    {
      KnownNamesAreBare(name);
      URLSegmentRoundTrip(r.backend, r.dongleID, RouteNameBase(r.routeName), segment, name);
    }
  }

  lemma RecognisedURL(c: Context, entries: seq<Entry>, f: UploadedFile)
    requires GoodURLs(c) && f in Recognised(c, entries)
    ensures RouteURLSegment(f.url) == f.segment && f.segment >= 0
  {
    RecognisedExactly(c, entries, f);
    var e :| e in entries && ListsFile(c, e, f);
    ListedFileURL(c, e, f);
  }

  lemma ListedFileURL(c: Context, e: Entry, f: UploadedFile)
    requires GoodURLs(c) && ListsFile(c, e, f)
    ensures RouteURLSegment(f.url) == f.segment && f.segment >= 0
  {
    assert RouteURLSegment(c.url(f.segment, f.name)) == f.segment;
    ListedIsNonNegative(c.base, e);
  }

  lemma ListedIsNonNegative(base: string, e: Entry)
    ensures var s := ListedSegment(base, e); s.Some? ==> s.value >= 0
  {
  }

  lemma {:induction false} OfKindMembers(fs: seq<UploadedFile>, k: Kind, f: UploadedFile)
    ensures f in OfKind(fs, k) <==> f in fs && f.kind == k
  {
    if fs != [] {
      var n := |fs| - 1;
      OfKindMembers(fs[..n], k, f);
      assert fs == fs[..n] + [fs[n]];
    }
  }

  /** The greatest recognised segment of each kind, or -1. */
  lemma MaxByTypeIsMax(r: Request, entries: seq<Entry>, k: Kind)
    ensures var fs := OfKind(Recognised(ContextOf(r), entries), k); IsMaxSegment(fs, MaxSegment(fs))
  {
    var c := ContextOf(r);
    var fs := Recognised(c, entries);
    RequestURLsAreGood(r);
    forall f | f in OfKind(fs, k) ensures f.segment >= 0 {
      OfKindMembers(fs, k, f);
      RecognisedURL(c, entries, f);
    }
    MaxSegmentIsMax(OfKind(fs, k));
  }

  lemma CancelOne(a: multiset<string>, b: multiset<string>, x: string)
    requires a + multiset{x} == b + multiset{x}
    ensures a == b
  {
    assert a == (a + multiset{x}) - multiset{x};
    assert b == (b + multiset{x}) - multiset{x};
  }

  lemma WithoutOne(fs: seq<UploadedFile>, i: nat)
    requires i < |fs|
    ensures var rest := fs[..i] + fs[i + 1..];
            && multiset(fs) == multiset(rest) + multiset{fs[i]}
            && multiset(URLs(fs)) == multiset(URLs(rest)) + multiset{fs[i].url}
  {
    var rest := fs[..i] + fs[i + 1..];
    assert fs == fs[..i] + [fs[i]] + fs[i + 1..];
    assert URLs(fs) == URLs(fs)[..i] + [fs[i].url] + URLs(fs)[i + 1..];
    assert URLs(rest) == URLs(fs)[..i] + URLs(fs)[i + 1..];
  }

  /** A permutation of the URLs is the URLs of a permutation of the files. */
  lemma {:induction false} PermutedFiles(us: seq<string>, fs: seq<UploadedFile>) returns (gs: seq<UploadedFile>)
    requires Permutation(us, URLs(fs))
    ensures Permutation(gs, fs) && URLs(gs) == us
    decreases |us|
  {
    PermutationElements(us, URLs(fs));
    if us == [] {
      gs := [];
    } else {
      var n := |us| - 1;
      assert us == us[..n] + [us[n]];
      assert us[n] in URLs(fs);
      var i :| 0 <= i < |fs| && URLs(fs)[i] == us[n];
      WithoutOne(fs, i);
      var rest := fs[..i] + fs[i + 1..];
      assert multiset(us) == multiset(us[..n]) + multiset{us[n]};
      CancelOne(multiset(us[..n]), multiset(URLs(rest)), us[n]);
      var hs := PermutedFiles(us[..n], rest);
      gs := hs + [fs[i]];
      assert URLs(gs) == URLs(hs) + [us[n]];
    }
  }

  /** In a finished summary each list of URLs is that of all recognised files of its kind, ordered by
      segment: sorting by the number parsed back out of a URL is sorting the files. */
  lemma FilesOrderedBySegment(r: Request, entries: seq<Entry>, us: seq<string>, k: Kind) returns (gs: seq<UploadedFile>)
    requires Permutation(us, URLs(OfKind(Recognised(ContextOf(r), entries), k))) && SortedBy(us, RouteURLSegment)
    ensures Permutation(gs, OfKind(Recognised(ContextOf(r), entries), k)) && URLs(gs) == us && SortedBy(gs, SegmentKey)
  {
    var c := ContextOf(r);
    var fs := Recognised(c, entries);
    RequestURLsAreGood(r);
    gs := PermutedFiles(us, OfKind(fs, k));
    PermutationElements(gs, OfKind(fs, k));
    forall i | 0 <= i < |gs| ensures SegmentKey(gs[i]) == RouteURLSegment(us[i]) {
      assert gs[i] in gs;
      OfKindMembers(fs, k, gs[i]);
      RecognisedURL(c, entries, gs[i]);
      assert us[i] == URLs(gs)[i];
    }
  }

  // ----- Looking a listed file up again -----

  predicate DirMatches(base: string, segment: int64, e: Entry) {
    e.isDir && SegmentFromUploadDir(base, e.name) == Some(segment)
  }

  /** The first directory entry of a segment, from a given one on. */
  function FirstMatch(base: string, segment: int64, entries: seq<Entry>, from: nat := 0): (i: nat)
    requires from <= |entries|
    ensures from <= i <= |entries|
    ensures i < |entries| ==> DirMatches(base, segment, entries[i])
    ensures forall j | from <= j < i :: !DirMatches(base, segment, entries[j])
    decreases |entries| - from
  {
    if from == |entries| || DirMatches(base, segment, entries[from]) then from
    else FirstMatch(base, segment, entries, from + 1)
  }

  /** findRouteSegmentDir; entries is None when the device directory cannot be listed. */
  method FindRouteSegmentDir(base: string, segment: int64, entries: Option<seq<Entry>>) returns (name: Option<string>)
    ensures name == if entries.None? then None
                    else var i := FirstMatch(base, segment, entries.value);
                         if i == |entries.value| then None else Some(entries.value[i].name)
  {
    if entries.None? {
      return None;
    }
    var es := entries.value;
    var i := 0;
    while i < |es|
      invariant 0 <= i <= |es|
      invariant FirstMatch(base, segment, es, i) == FirstMatch(base, segment, es)
    {
      if es[i].isDir {
        var entrySegment := SegmentFromUploadDir(base, es[i].name);
        if entrySegment == Some(segment) {
          return Some(es[i].name);
        }
      }
      i := i + 1;
    }
    return None;
  }

  /** Looking up the segment of a listed directory finds the first directory of that segment: the
      listed one exactly when no earlier directory spells the same segment. */
  lemma LookupFindsFirst(base: string, entries: seq<Entry>, i: nat, segment: int64)
    requires i < |entries| && ListedSegment(base, entries[i]) == Some(segment)
    ensures var j := FirstMatch(base, segment, entries);
            && j <= i && SegmentFromUploadDir(base, entries[j].name) == Some(segment)
            && (j == i <==> forall l | 0 <= l < i :: !DirMatches(base, segment, entries[l]))
  {
    assert DirMatches(base, segment, entries[i]);
  }

  /** The last three path elements of a listed file's URL are the route base, the segment and the name. */
  lemma ListedURLParts(r: Request, segment: int64, name: string)
    requires FileKind(name).Some? && '/' !in RouteNameBase(r.routeName)
    ensures var parts := Split(ContextOf(r).url(segment, name), '/');
            var n := |parts|;
            && n >= 3 && parts[n - 1] == name && ParseInt(parts[n - 2]) == Some(segment)
            && parts[n - 3] == RouteNameBase(r.routeName)
  {
    var base := RouteNameBase(r.routeName);
    var front := TrimRight(r.backend, '/') + "/v1/route_file/" + r.dongleID;
    KnownNamesAreBare(name);
    URLParts(r.backend, r.dongleID, base, segment, name);
    assert front + "/" + base == front + ['/'] + base;
    SplitConcat(front, base, '/');
    SplitWithout(base, '/');
    ParseFormat(segment);
  }

  /** A URL of a file of segment s, taken apart again: route base, segment and file name. */
  ghost predicate TakesApart(url: string, base: string, segment: int64, name: string) {
    var parts := Split(url, '/');
    var n := |parts|;
    && n >= 3 && parts[n - 1] == name && ParseInt(parts[n - 2]) == Some(segment)
    && RouteNameBase(parts[n - 3]) == base
  }

  lemma URLTakesApart(r: Request, segment: int64, name: string)
    requires FileKind(name).Some?
    requires ':' !in RouteNameBase(r.routeName) && '/' !in RouteNameBase(r.routeName)
    ensures TakesApart(ContextOf(r).url(segment, name), RouteNameBase(r.routeName), segment, name)
  {
    ListedURLParts(r, segment, name);
    BaseOfBase(RouteNameBase(r.routeName));
  }

  lemma ListedFacts(c: Context, e: Entry, f: UploadedFile)
    requires ListsFile(c, e, f)
    ensures FileKind(f.name) == Some(f.kind) && f.url == c.url(f.segment, f.name)
    ensures ListedSegment(c.base, e) == Some(f.segment)
  {
  }

  /** Every URL in a summary resolves: taken apart into route base, segment and file name, and looked up
      under that base, it finds a directory of its segment, and the directory it was listed in exactly
      when no earlier one spells the same segment. The base must have no colon left. */
  lemma ListedURLResolves(r: Request, entries: seq<Entry>, f: UploadedFile, i: nat)
    requires i < |entries| && ListsFile(ContextOf(r), entries[i], f)
    requires ':' !in RouteNameBase(r.routeName) && '/' !in RouteNameBase(r.routeName)
    ensures var base := RouteNameBase(r.routeName);
            var j := FirstMatch(base, f.segment, entries);
            && TakesApart(f.url, base, f.segment, f.name) && FileKind(f.name) == Some(f.kind)
            && j <= i && SegmentFromUploadDir(base, entries[j].name) == Some(f.segment)
            && (j == i <==> forall l | 0 <= l < i :: !DirMatches(base, f.segment, entries[l]))
  {
    ListedFacts(ContextOf(r), entries[i], f);
    URLTakesApart(r, f.segment, f.name);
    LookupFindsFirst(RouteNameBase(r.routeName), entries, i, f.segment);
  }
}
