/** The recursive directory maker of internal/storage/filesystem.go, over an abstract directory tree, with
    Go's filepath.Dir and Clean. */
module MkdirAll {
  import opened Prelude
  import opened Text

  // ----- filepath.Clean and filepath.Dir -----

  /** One path element applied to the elements kept so far. */
  function Push(rooted: bool, stack: seq<string>, part: string): seq<string> {
    if part == "" || part == "." then stack
    else if part == ".." then
      if stack != [] && stack[|stack| - 1] != ".." then stack[..|stack| - 1]
      else if rooted then stack
      else stack + [".."]
    else stack + [part]
  }

  function CleanStack(rooted: bool, parts: seq<string>): seq<string> {
    if parts == [] then [] else Push(rooted, CleanStack(rooted, parts[..|parts| - 1]), parts[|parts| - 1])
  }

  predicate Rooted(path: string) { "/" <= path }

  function Clean(path: string): string {
    if path == "" then "."
    else
      var out := (if Rooted(path) then "/" else "") + Join(CleanStack(Rooted(path), Split(path, '/')), '/');
      if out == "" then "." else out
  }

  /** Everything up to the last slash, cleaned. Dir("a") is ".". */
  function Dir(path: string): string { Clean(path[..LastIndex(path, '/') + 1]) }

  /** Where the recursion ends. */
  predicate IsBase(path: string) { path == "" || path == "." || path == "/" }

  /** The measure of the recursion: the length, except that the paths it ends at count nothing. */
  function Measure(path: string): nat { if IsBase(path) then 0 else |path| }

  // ----- The measure decreases -----

  /** The size of a list of elements with a separator after each. */
  function Weight(parts: seq<string>): nat {
    if parts == [] then 0 else Weight(parts[..|parts| - 1]) + |parts[|parts| - 1]| + 1
  }

  /** The same, empty elements not counted. */
  function FullWeight(parts: seq<string>): nat {
    if parts == [] then 0
    else FullWeight(parts[..|parts| - 1]) + if parts[|parts| - 1] == "" then 0 else |parts[|parts| - 1]| + 1
  }

  function Empties(parts: seq<string>): nat {
    if parts == [] then 0 else Empties(parts[..|parts| - 1]) + if parts[|parts| - 1] == "" then 1 else 0
  }

  lemma {:induction false} FullWeightIs(parts: seq<string>)
    ensures FullWeight(parts) + Empties(parts) == Weight(parts)
  {
    if parts != [] { FullWeightIs(parts[..|parts| - 1]); }
  }

  lemma {:induction false} CleaningLosesWeight(rooted: bool, parts: seq<string>)
    ensures Weight(CleanStack(rooted, parts)) <= FullWeight(parts)
  {
    if parts != [] {
      var n := |parts| - 1;
      CleaningLosesWeight(rooted, parts[..n]);
      var s := CleanStack(rooted, parts[..n]);
      assert (s + [parts[n]])[..|s|] == s;
      assert (s + [".."])[..|s|] == s;
    }
  }

  lemma {:induction false} WeightCons(p: string, parts: seq<string>)
    ensures Weight([p] + parts) == |p| + 1 + Weight(parts)
    ensures Empties([p] + parts) == (if p == "" then 1 else 0) + Empties(parts)
    decreases |parts|
  {
    if parts == [] {
      assert ([p] + parts)[..0] == [];
    } else {
      var n := |parts| - 1;
      WeightCons(p, parts[..n]);
      assert ([p] + parts)[..n + 1] == [p] + parts[..n];
    }
  }

  lemma {:induction false} SplitWeight(s: string)
    ensures Weight(Split(s, '/')) == |s| + 1
  {
    if s == "" {
      assert [""][..0] == [];
    } else {
      SplitWeight(s[1..]);
      var rest := Split(s[1..], '/');
      assert rest == [rest[0]] + rest[1..];
      WeightCons(rest[0], rest[1..]);
      if s[0] == '/' {
        WeightCons("", rest);
      } else {
        WeightCons([s[0]] + rest[0], rest[1..]);
      }
    }
  }

  lemma {:induction false} JoinWeight(parts: seq<string>)
    ensures |Join(parts, '/')| == if parts == [] then 0 else Weight(parts) - 1
    decreases |parts|
  {
    if |parts| == 1 {
      assert parts[..0] == [];
    } else if |parts| > 1 {
      JoinWeight(parts[1..]);
      assert parts == [parts[0]] + parts[1..];
      WeightCons(parts[0], parts[1..]);
    }
  }

  /** A text that ends in a slash has an empty last element, and one that also starts with one has two
      empty elements. */
  lemma SlashMakesEmpty(s: string)
    requires s != "" && s[|s| - 1] == '/'
    ensures Empties(Split(s, '/')) >= if s[0] == '/' then 2 else 1
  {
    var front := s[..|s| - 1];
    assert s == front + ['/'] + "";
    SplitConcat(front, "", '/');
    var all := Split(front, '/');
    assert Split("", '/') == [""] && (all + [""])[..|all|] == all;
    assert Empties(all + [""]) == Empties(all) + 1;
    if s[0] == '/' { LeadingSlashMakesEmpty(front); }
  }

  lemma LeadingSlashMakesEmpty(front: string)
    requires front == "" || front[0] == '/'
    ensures Empties(Split(front, '/')) >= 1
  {
    if front == "" {
      assert [""][..0] == [];
    } else {
      WeightCons("", Split(front[1..], '/'));
    }
  }

  /** Every step of the recursion gets closer to its end, Dir("a") = "." included. */
  lemma DirDecreases(path: string)
    requires !IsBase(path)
    ensures Measure(Dir(path)) < Measure(path)
  {
    var i := LastIndex(path, '/');
    if i >= 0 {
      CleanShortens(path[..i + 1]);
    } else {
      assert path[..i + 1] == "";
    }
  }

  /** Cleaning a path that ends in a slash makes it shorter. */
  lemma CleanShortens(d: string)
    requires d != "" && d[|d| - 1] == '/'
    ensures Measure(Clean(d)) < |d|
  {
    var parts := Split(d, '/');
    assert Rooted(d) <==> d[0] == '/';
    SlashMakesEmpty(d);
    SplitWeight(d);
    FullWeightIs(parts);
    CleaningLosesWeight(Rooted(d), parts);
    JoinWeight(CleanStack(Rooted(d), parts));
  }

  // ----- Cleaning keeps what a path means -----

  /** Where path elements lead from a location, going by the names alone; above the root is the root. */
  function Follow(base: seq<string>, parts: seq<string>): seq<string> {
    if parts == [] then base
    else
      var here, part := Follow(base, parts[..|parts| - 1]), parts[|parts| - 1];
      if part == "" || part == "." then here
      else if part != ".." then here + [part]
      else if here == [] then [] else here[..|here| - 1]
  }

  /** The location a path names, taken from base unless it is rooted. */
  function Denotes(base: seq<string>, path: string): seq<string> {
    Follow(if "/" <= path then [] else base, Split(path, '/'))
  }

  /** Elements with nothing left to clean. */
  ghost predicate Tidy(rooted: bool, stack: seq<string>) {
    && (forall i | 0 <= i < |stack| :: stack[i] != "" && stack[i] != "." && '/' !in stack[i])
    && (forall i, j | 0 <= i <= j < |stack| && stack[j] == ".." :: !rooted && stack[i] == "..")
  }

  lemma {:induction false} FollowConcat(base: seq<string>, a: seq<string>, b: seq<string>)
    ensures Follow(base, a + b) == Follow(Follow(base, a), b)
    decreases |b|
  {
    if b == [] {
      assert a + b == a;
    } else {
      var n := |b| - 1;
      assert (a + b)[..|a| + n] == a + b[..n];
      FollowConcat(base, a, b[..n]);
    }
  }

  lemma {:induction false} CleanStackIsTidy(rooted: bool, parts: seq<string>)
    requires forall i | 0 <= i < |parts| :: '/' !in parts[i]
    ensures Tidy(rooted, CleanStack(rooted, parts))
  {
    if parts != [] { CleanStackIsTidy(rooted, parts[..|parts| - 1]); }
  }

  lemma {:induction false} TidyIsClean(rooted: bool, stack: seq<string>)
    requires Tidy(rooted, stack)
    ensures CleanStack(rooted, stack) == stack
  {
    if stack != [] {
      var n := |stack| - 1;
      TidyIsClean(rooted, stack[..n]);
      assert stack == stack[..n] + [stack[n]];
      if n > 0 { assert stack[..n][n - 1] == stack[n - 1]; }
    }
  }

  lemma {:induction false} CleanStackFollows(rooted: bool, base: seq<string>, parts: seq<string>)
    requires forall i | 0 <= i < |parts| :: '/' !in parts[i]
    requires rooted ==> base == []
    ensures Follow(base, CleanStack(rooted, parts)) == Follow(base, parts)
  {
    if parts != [] {
      var init, part := parts[..|parts| - 1], parts[|parts| - 1];
      CleanStackFollows(rooted, base, init);
      CleanStackIsTidy(rooted, init);
      PushFollows(rooted, base, CleanStack(rooted, init), part);
      assert parts == init + [part];
      FollowConcat(base, init, [part]);
    }
  }

  lemma PushFollows(rooted: bool, base: seq<string>, stack: seq<string>, part: string)
    requires Tidy(rooted, stack)
    requires rooted ==> base == []
    ensures Follow(base, Push(rooted, stack, part)) == Follow(Follow(base, stack), [part])
  {
    assert [part][..0] == [];
    if Push(rooted, stack, part) == stack + [part] { FollowConcat(base, stack, [part]); }
  }

  /** A cleaned path splits into its tidy elements, after a blank one if it is rooted. */
  lemma CleanSplits(path: string) returns (stack: seq<string>)
    ensures stack == CleanStack(Rooted(path), Split(path, '/')) && Tidy(Rooted(path), stack)
    ensures Rooted(Clean(path)) <==> Rooted(path)
    ensures Split(Clean(path), '/') ==
            if Rooted(path) then [""] + (if stack == [] then [""] else stack)
            else if stack == [] then ["."] else stack
  {
    JoinSplit(path, '/');
    stack := CleanStack(Rooted(path), Split(path, '/'));
    CleanStackIsTidy(Rooted(path), Split(path, '/'));
    TidyJoin(Rooted(path), stack);
    CleanIs(path, stack);
    if Rooted(path) {
      assert Clean(path)[1..] == Join(stack, '/');
    }
    SplitWithout(".", '/');
  }

  lemma CleanIs(path: string, stack: seq<string>)
    requires stack == CleanStack(Rooted(path), Split(path, '/'))
    requires Join(stack, '/') == "" <==> stack == []
    ensures Clean(path) == if Rooted(path) then "/" + Join(stack, '/')
                           else if stack == [] then "." else Join(stack, '/')
  {
    assert "" + Join(stack, '/') == Join(stack, '/');
    if path == "" {
      assert Split(path, '/') == [""] && [""][..0] == [];
      assert CleanStack(false, [""]) == [];
    }
  }

  lemma TidyJoin(rooted: bool, stack: seq<string>)
    requires Tidy(rooted, stack)
    ensures Split(Join(stack, '/'), '/') == if stack == [] then [""] else stack
    ensures var s := Join(stack, '/'); !Rooted(s) && (stack != [] ==> s != "")
  {
    if stack != [] {
      SplitJoin(stack, '/');
      assert Join(stack, '/')[0] == stack[0][0];
    }
  }

  lemma BlankFollows(base: seq<string>, stack: seq<string>)
    ensures Follow(base, [""] + stack) == Follow(base, stack)
  {
    FollowConcat(base, [""], stack);
    assert [""][..0] == [];
  }

  /** A cleaned path names what the path names, from every location. */
  lemma CleanDenotesTheSame(base: seq<string>, path: string)
    ensures Denotes(base, Clean(path)) == Denotes(base, path)
  {
    var stack := CleanSplits(path);
    JoinSplit(path, '/');
    var from := if Rooted(path) then [] else base;
    CleanStackFollows(Rooted(path), from, Split(path, '/'));
    BlankFollows(from, stack);
    BlankFollows(from, [""]);
    assert [""][..0] == [] && ["."][..0] == [];
  }

  /** Cleaning twice changes nothing more. */
  lemma CleanIsIdempotent(path: string)
    ensures Clean(Clean(path)) == Clean(path)
  {
    var stack := CleanSplits(path);
    TidyIsClean(Rooted(path), stack);
    CleanStackBlank(Rooted(path), stack);
    CleanStackBlank(Rooted(path), [""]);
    assert [""][..0] == [] && ["."][..0] == [];
  }

  lemma {:induction false} CleanStackBlank(rooted: bool, parts: seq<string>)
    ensures CleanStack(rooted, [""] + parts) == CleanStack(rooted, parts)
    decreases |parts|
  {
    if parts == [] {
      assert ([""] + parts)[..0] == [];
    } else {
      var n := |parts| - 1;
      assert ([""] + parts)[..n + 1] == [""] + parts[..n];
      CleanStackBlank(rooted, parts[..n]);
    }
  }

  /** Dir names the place from which the last element leads to what the path names. */
  lemma DirIsParent(base: seq<string>, path: string)
    ensures Denotes(base, path) == Follow(Denotes(base, Dir(path)), [path[LastIndex(path, '/') + 1..]])
  {
    var i := LastIndex(path, '/');
    CleanDenotesTheSame(base, path[..i + 1]);
    DenotesFront(base, path, i);
  }

  lemma DenotesFront(base: seq<string>, path: string, i: int)
    requires -1 <= i < |path| && '/' !in path[i + 1..] && (i >= 0 ==> path[i] == '/')
    ensures Denotes(base, path) == Follow(Denotes(base, path[..i + 1]), [path[i + 1..]])
  {
    if i < 0 {
      DenotesSingle(base, path);
      assert path[i + 1..] == path && path[..i + 1] == "";
    } else {
      DenotesCut(base, path, i);
    }
  }

  lemma DenotesCut(base: seq<string>, path: string, i: nat)
    requires i < |path| && path[i] == '/' && '/' !in path[i + 1..]
    ensures Denotes(base, path) == Follow(Denotes(base, path[..i + 1]), [path[i + 1..]])
  {
    assert path == path[..i] + ['/'] + path[i + 1..] && path[..i + 1] == path[..i] + ['/'];
    DenotesLast(base, path[..i], path[i + 1..]);
  }

  lemma DenotesSingle(base: seq<string>, part: string)
    requires '/' !in part
    ensures Denotes(base, part) == Follow(base, [part]) && Denotes(base, "") == base
  {
    SplitWithout(part, '/');
    assert [""][..0] == [];
  }

  lemma DenotesLast(base: seq<string>, front: string, last: string)
    requires '/' !in last
    ensures Denotes(base, front + ['/'] + last) == Follow(Denotes(base, front + ['/']), [last])
  {
    var from := if front == "" || "/" <= front then [] else base;
    var parts := Split(front, '/');
    SplitConcat(front, last, '/');
    SplitConcat(front, "", '/');
    SplitWithout(last, '/');
    assert front + ['/'] + "" == front + ['/'];
    FollowConcat(from, parts, [last]);
    FollowConcat(from, parts, [""]);
    assert [""][..0] == [];
  }

  // ----- The directory tree -----

  datatype Kind = Directory | File

  /** What lies below the root, by location; the root itself is a directory. */
  type Tree = map<seq<string>, Kind>

  predicate IsDirectory(t: Tree, loc: seq<string>) { loc == [] || (loc in t && t[loc].Directory?) }

  predicate Exists(t: Tree, loc: seq<string>) { loc == [] || loc in t }

  ghost predicate WellFormed(t: Tree) {
    forall loc | loc in t :: loc != [] && IsDirectory(t, loc[..|loc| - 1])
  }

  /** Following path elements from the root: what comes before an element, "." and ".." included, has to
      be a directory, and ".." must not leave the root. Repeated and trailing slashes count nothing. */
  function Walk(t: Tree, parts: seq<string>): Option<seq<string>> {
    if parts == [] then Some([])
    else
      var part := parts[|parts| - 1];
      var here := Walk(t, parts[..|parts| - 1]);
      if part == "" then here
      else if here.None? || !IsDirectory(t, here.value) then None
      else if part == "." then here
      else if part == ".." then (if here.value == [] then None else Some(here.value[..|here.value| - 1]))
      else Some(here.value + [part])
  }

  /** The location a path names inside the root; None when it cannot be resolved. */
  function Locate(t: Tree, path: string): Option<seq<string>> {
    if path == "" || Rooted(path) then None else Walk(t, Split(path, '/'))
  }

  /** An element that is not blank is looked up in a directory, and ".." not in the root. */
  predicate Resolves(t: Tree, here: seq<string>, part: string) {
    part != "" ==> IsDirectory(t, here) && (part == ".." ==> here != [])
  }

  ghost predicate AllResolve(t: Tree, parts: seq<string>) {
    forall i | 0 <= i < |parts| :: Resolves(t, Follow([], parts[..i]), parts[i])
  }

  /** The path elements resolve exactly when each does where the earlier ones lead. */
  lemma {:induction false} WalkIff(t: Tree, parts: seq<string>)
    ensures Walk(t, parts).Some? <==> AllResolve(t, parts)
    ensures Walk(t, parts).Some? ==> Walk(t, parts).value == Follow([], parts)
  {
    if parts != [] {
      var n := |parts| - 1;
      WalkIff(t, parts[..n]);
      WalkLast(t, parts);
      AllResolveLast(t, parts);
    }
  }

  lemma AllResolveLast(t: Tree, parts: seq<string>)
    requires parts != []
    ensures var n := |parts| - 1;
            AllResolve(t, parts) <==> AllResolve(t, parts[..n]) && Resolves(t, Follow([], parts[..n]), parts[n])
  {
    var n := |parts| - 1;
    forall i | 0 <= i < n ensures parts[..n][..i] == parts[..i] && parts[..n][i] == parts[i] {
    }
  }

  lemma WalkLast(t: Tree, parts: seq<string>)
    requires parts != []
    requires var here := Walk(t, parts[..|parts| - 1]); here.Some? ==> here.value == Follow([], parts[..|parts| - 1])
    ensures var n := |parts| - 1;
            Walk(t, parts) == if Walk(t, parts[..n]).Some? && Resolves(t, Follow([], parts[..n]), parts[n])
                              then Some(Follow([], parts)) else None
  {
  }

  datatype Outcome = Created | AlreadyExists | Failed

  /** os.Root.Mkdir, where the system refuses to create the locations in denied. */
  function MkdirOutcome(t: Tree, denied: set<seq<string>>, path: string): Outcome {
    match Locate(t, path)
    case None => Failed
    case Some(loc) => if Exists(t, loc) then AlreadyExists else if loc in denied then Failed else Created
  }

  function MkdirTree(t: Tree, denied: set<seq<string>>, path: string): Tree {
    if MkdirOutcome(t, denied, path).Created? then t[Locate(t, path).value := Directory] else t
  }

  /** Success, and the tree left behind. */
  function MakeAll(t: Tree, denied: set<seq<string>>, path: string): (bool, Tree)
    decreases Measure(path)
  {
    if IsBase(path) then (true, t)
    else if !MkdirOutcome(t, denied, path).Failed? then (true, MkdirTree(t, denied, path))
    else
      DirDecreases(path);
      var (ok, u) := MakeAll(t, denied, Dir(path));
      if !ok then (false, u)
      else (!MkdirOutcome(u, denied, path).Failed?, MkdirTree(u, denied, path))
  }

  class Filesystem {
    const denied: set<seq<string>>
    var tree: Tree

    constructor (tree: Tree, denied: set<seq<string>>)
      ensures this.tree == tree && this.denied == denied
    {
      this.tree, this.denied := tree, denied;
    }

    method Mkdir(path: string) returns (r: Outcome)
      modifies this
      ensures r == MkdirOutcome(old(tree), denied, path) && tree == MkdirTree(old(tree), denied, path)
    {
      r := MkdirOutcome(tree, denied, path);
      if r.Created? {
        tree := tree[Locate(tree, path).value := Directory];
      }
    }

    method MkdirAll(path: string) returns (ok: bool)
      modifies this
      ensures (ok, tree) == MakeAll(old(tree), denied, path)
      decreases Measure(path)
    {
      if path == "" || path == "." || path == "/" {
        return true;
      }
      var r := Mkdir(path);
      if r.Created? || r.AlreadyExists? {
        return true;
      }
      DirDecreases(path);
      ok := MkdirAll(Dir(path));
      if !ok {
        return false;
      }
      r := Mkdir(path);
      if r.Failed? {
        return false;
      }
      return true;
    }
  }

  // ----- For every path whatever -----

  /** A rooted path is refused, unless it is the root, and nothing is created. */
  lemma {:induction false} RootedIsRefused(t: Tree, denied: set<seq<string>>, path: string)
    requires "/" < path
    ensures MakeAll(t, denied, path) == (false, t)
    decreases Measure(path)
  {
    DirDecreases(path);
    var i := LastIndex(path, '/');
    assert "/" <= path[..i + 1] by { assert path[0] == '/'; }
    if Dir(path) != "/" { RootedIsRefused(t, denied, Dir(path)); }
  }

  /** u is t with some directories added. */
  ghost predicate OnlyAddsDirectories(t: Tree, u: Tree) {
    && (forall loc | loc in t :: loc in u && u[loc] == t[loc])
    && (forall loc | loc in u && loc !in t :: u[loc].Directory?)
  }

  lemma {:induction false} WalkedParentIsDirectory(t: Tree, parts: seq<string>)
    requires WellFormed(t) && Walk(t, parts).Some?
    ensures var loc := Walk(t, parts).value; loc == [] || IsDirectory(t, loc[..|loc| - 1])
  {
    if parts != [] {
      var n := |parts| - 1;
      WalkedParentIsDirectory(t, parts[..n]);
      var here := Walk(t, parts[..n]);
      if parts[n] == ".." && IsDirectory(t, here.value) && |here.value| >= 2 {
        var up := here.value[..|here.value| - 1];
        assert IsDirectory(t, up);
        assert up in t;
      }
    }
  }

  lemma MkdirKeeps(t: Tree, denied: set<seq<string>>, path: string)
    requires WellFormed(t)
    ensures var u := MkdirTree(t, denied, path); WellFormed(u) && OnlyAddsDirectories(t, u)
  {
    if MkdirOutcome(t, denied, path).Created? {
      WalkedParentIsDirectory(t, Split(path, '/'));
      var loc := Locate(t, path).value;
      assert loc != [];
    }
  }

  /** The tree stays well formed, nothing is removed or changed, and only directories are added, whether
      the call succeeds or not. */
  lemma {:induction false} OnlyAdds(t: Tree, denied: set<seq<string>>, path: string)
    requires WellFormed(t)
    ensures var u := MakeAll(t, denied, path).1; WellFormed(u) && OnlyAddsDirectories(t, u)
    decreases Measure(path)
  {
    if !IsBase(path) {
      MkdirKeeps(t, denied, path);
      if MkdirOutcome(t, denied, path).Failed? {
        DirDecreases(path);
        OnlyAdds(t, denied, Dir(path));
        MkdirKeeps(MakeAll(t, denied, Dir(path)).1, denied, path);
      }
    }
  }

  /** Creating what a path names does not change what it names. */
  lemma {:induction false} WalkAfterAdding(t: Tree, parts: seq<string>, loc: seq<string>)
    requires Walk(t, parts).Some? && loc !in t
    ensures Walk(t[loc := Directory], parts) == Walk(t, parts)
  {
    if parts != [] {
      WalkAfterAdding(t, parts[..|parts| - 1], loc);
    }
  }

  /** The paths the recursion goes through: the path, its parent, and so on up to where it ends. */
  function DirChain(path: string): seq<string>
    decreases Measure(path)
  {
    if IsBase(path) then []
    else
      DirDecreases(path);
      [path] + DirChain(Dir(path))
  }

  /** Every location added is named by one of those paths. */
  ghost predicate AddedByChain(t: Tree, u: Tree, chain: seq<string>) {
    forall loc | loc in u && loc !in t :: exists p :: p in chain && Locate(u, p) == Some(loc)
  }

  lemma MkdirExtendsChain(t: Tree, u: Tree, denied: set<seq<string>>, path: string, chain: seq<string>)
    requires AddedByChain(t, u, chain)
    ensures AddedByChain(t, MkdirTree(u, denied, path), [path] + chain)
  {
    var v := MkdirTree(u, denied, path);
    forall loc | loc in v && loc !in t ensures exists p :: p in [path] + chain && Locate(v, p) == Some(loc) {
      if loc in u {
        var p :| p in chain && Locate(u, p) == Some(loc);
        if v != u { WalkAfterAdding(u, Split(p, '/'), Locate(u, path).value); }
        assert p in [path] + chain;
      } else {
        MkdirLeavesIt(u, denied, path);
        assert path in [path] + chain && Locate(v, path) == Some(loc);
      }
    }
  }

  /** Nothing is added but what the path and its parents name, whether the call succeeds or not. */
  lemma {:induction false} AddsOnlyItsParents(t: Tree, denied: set<seq<string>>, path: string)
    ensures AddedByChain(t, MakeAll(t, denied, path).1, DirChain(path))
    decreases Measure(path)
  {
    if !IsBase(path) {
      DirDecreases(path);
      if !MkdirOutcome(t, denied, path).Failed? {
        MkdirExtendsChain(t, t, denied, path, DirChain(Dir(path)));
      } else {
        AddsOnlyItsParents(t, denied, Dir(path));
        var u := MakeAll(t, denied, Dir(path)).1;
        MkdirExtendsChain(t, u, denied, path, DirChain(Dir(path)));
        assert MkdirTree(t, denied, path) == t;
        forall loc | loc in u && loc !in t ensures exists p :: p in DirChain(path) && Locate(u, p) == Some(loc) {
          var p :| p in DirChain(Dir(path)) && Locate(u, p) == Some(loc);
          assert p in DirChain(path);
        }
      }
    }
  }

  /** In a well-formed tree everything above a location that exists is a directory. */
  lemma {:induction false} AncestorsAreDirectories(t: Tree, loc: seq<string>, a: seq<string>)
    requires WellFormed(t) && Exists(t, loc) && a < loc
    ensures IsDirectory(t, a)
    decreases |loc|
  {
    var parent := loc[..|loc| - 1];
    if a != parent {
      assert a < parent;
      AncestorsAreDirectories(t, parent, a);
    }
  }

  predicate Above(a: seq<string>, loc: seq<string>) { a < loc }

  ghost predicate DirectoriesAbove(t: Tree, loc: seq<string>) {
    forall a :: Above(a, loc) ==> IsDirectory(t, a)
  }

  lemma MkdirLeavesIt(t: Tree, denied: set<seq<string>>, path: string)
    requires !MkdirOutcome(t, denied, path).Failed?
    ensures var u := MkdirTree(t, denied, path); Locate(u, path) == Locate(t, path) && Exists(u, Locate(u, path).value)
  {
    if MkdirOutcome(t, denied, path).Created? {
      WalkAfterAdding(t, Split(path, '/'), Locate(t, path).value);
    }
  }

  lemma MakeAllLeavesIt(t: Tree, denied: set<seq<string>>, path: string)
    requires !IsBase(path) && MakeAll(t, denied, path).0
    ensures var u := MakeAll(t, denied, path).1; Locate(u, path).Some? && Exists(u, Locate(u, path).value)
  {
    if !MkdirOutcome(t, denied, path).Failed? {
      MkdirLeavesIt(t, denied, path);
    } else {
      DirDecreases(path);
      MkdirLeavesIt(MakeAll(t, denied, Dir(path)).1, denied, path);
    }
  }

  /** Success means the path exists and everything above it is a directory, for every path that is not
      one of the three the recursion ends at. */
  lemma SuccessMeansItExists(t: Tree, denied: set<seq<string>>, path: string)
    requires WellFormed(t) && !IsBase(path) && MakeAll(t, denied, path).0
    ensures var u := MakeAll(t, denied, path).1;
            && Locate(u, path).Some? && Exists(u, Locate(u, path).value)
            && DirectoriesAbove(u, Locate(u, path).value)
  {
    OnlyAdds(t, denied, path);
    MakeAllLeavesIt(t, denied, path);
    var u := MakeAll(t, denied, path).1;
    var loc := Locate(u, path).value;
    forall a | Above(a, loc) ensures IsDirectory(u, a) {
      AncestorsAreDirectories(u, loc, a);
    }
  }

  /** Whether what exists after success is a directory: exactly when the path does not name a file, which
      is then one that stood there before. */
  lemma SuccessIsDirectoryIff(t: Tree, denied: set<seq<string>>, path: string)
    requires WellFormed(t) && !IsBase(path) && MakeAll(t, denied, path).0
    ensures var u := MakeAll(t, denied, path).1;
            && Locate(u, path).Some?
            && var loc := Locate(u, path).value;
               IsDirectory(u, loc) <==> !(loc in t && t[loc].File?)
  {
    OnlyAdds(t, denied, path);
    MakeAllLeavesIt(t, denied, path);
  }

  /** A repeat of a successful call succeeds and changes nothing. */
  lemma RepeatChangesNothing(t: Tree, denied: set<seq<string>>, path: string)
    requires WellFormed(t) && MakeAll(t, denied, path).0
    ensures var u := MakeAll(t, denied, path).1; MakeAll(u, denied, path) == (true, u)
  {
    if !IsBase(path) {
      SuccessMeansItExists(t, denied, path);
    }
  }

  // ----- Exactly what happens for a plain path -----

  /** The elements of a path accepted by fs.ValidPath, other than ".". */
  ghost predicate Plain(parts: seq<string>) {
    parts != [] && forall i | 0 <= i < |parts| ::
      parts[i] != "" && parts[i] != "." && parts[i] != ".." && '/' !in parts[i]
  }

  lemma {:induction false} CleanStackPlain(parts: seq<string>)
    requires forall i | 0 <= i < |parts| :: parts[i] != "" && parts[i] != "." && parts[i] != ".."
    ensures CleanStack(false, parts) == parts
  {
    if parts != [] {
      CleanStackPlain(parts[..|parts| - 1]);
      assert parts[..|parts| - 1] + [parts[|parts| - 1]] == parts;
    }
  }

  lemma {:induction false} JoinSnoc(parts: seq<string>, last: string)
    requires parts != []
    ensures Join(parts + [last], '/') == Join(parts, '/') + "/" + last
    decreases |parts|
  {
    if |parts| > 1 {
      assert (parts + [last])[1..] == parts[1..] + [last];
      JoinSnoc(parts[1..], last);
    } else {
      assert (parts + [last])[1..] == [last];
    }
  }

  lemma PlainPath(parts: seq<string>)
    requires Plain(parts)
    ensures var path := Join(parts, '/'); !IsBase(path) && !Rooted(path) && Split(path, '/') == parts
  {
    SplitJoin(parts, '/');
    var path := Join(parts, '/');
    assert Split("", '/') == [""];
    if path != "" {
      assert path[0] == parts[0][0] by { if |parts| > 1 { assert path == parts[0] + (['/'] + Join(parts[1..], '/')); } }
    }
    if path == "." {
      SplitWithout(".", '/');
    }
  }

  lemma LastIndexIs(s: string, c: char, k: nat)
    requires k < |s| && s[k] == c && c !in s[k + 1..]
    ensures LastIndex(s, c) == k
  {
    forall j | k < j < |s| ensures s[j] != c {
      assert s[j] == s[k + 1..][j - k - 1];
    }
  }

  /** Cleaning a plain path with a slash after it takes the slash away. */
  lemma CleanOfPlain(parts: seq<string>)
    requires Plain(parts)
    ensures Clean(Join(parts, '/') + "/") == Join(parts, '/')
  {
    var front := Join(parts, '/');
    var d := front + "/";
    PlainPath(parts);
    assert front != "" && !Rooted(d) by { assert d[0] == front[0]; }
    assert Split(d, '/') == parts + [""] by {
      assert d == front + ['/'] + "";
      SplitConcat(front, "", '/');
      assert Split("", '/') == [""];
    }
    CleanStackTrailing(parts);
    CleanRelative(d, parts);
  }

  lemma CleanStackTrailing(parts: seq<string>)
    requires Plain(parts)
    ensures CleanStack(false, parts + [""]) == parts
  {
    CleanStackPlain(parts);
    assert (parts + [""])[..|parts|] == parts;
  }

  lemma CleanRelative(path: string, stack: seq<string>)
    requires path != "" && !Rooted(path) && CleanStack(false, Split(path, '/')) == stack && Join(stack, '/') != ""
    ensures Clean(path) == Join(stack, '/')
  {
    assert "" + Join(stack, '/') == Join(stack, '/');
  }

  /** The parent of a plain path is the path without its last element, or "." */
  lemma DirOfPlain(parts: seq<string>)
    requires Plain(parts)
    ensures Dir(Join(parts, '/')) == if |parts| == 1 then "." else Join(parts[..|parts| - 1], '/')
  {
    var n := |parts| - 1;
    if n > 0 {
      var init, last := parts[..n], parts[n];
      assert init + [last] == parts;
      DirOfSnoc(init, last);
      assert Dir(Join(parts, '/')) == Join(init, '/');
    } else {
      assert Join(parts, '/') == parts[0];
      DirOfSingle(parts[0]);
      assert Dir(Join(parts, '/')) == ".";
    }
  }

  lemma DirOfSnoc(init: seq<string>, last: string)
    requires Plain(init) && '/' !in last
    ensures Dir(Join(init + [last], '/')) == Join(init, '/')
  {
    JoinSnoc(init, last);
    DirCuts(Join(init, '/'), last);
    CleanOfPlain(init);
  }

  lemma DirOfSingle(part: string)
    requires '/' !in part
    ensures Dir(part) == "."
  {
    var i := LastIndex(part, '/');
    assert i == -1 && part[..0] == "";
  }

  lemma DirCuts(front: string, last: string)
    requires '/' !in last
    ensures Dir(front + "/" + last) == Clean(front + "/")
  {
    var path := front + "/" + last;
    assert path[|front| + 1..] == last && path[..|front| + 1] == front + "/";
    LastIndexIs(path, '/', |front|);
  }

  /** What lies above a location: its parent, and what lies above that. */
  lemma AboveParent(loc: seq<string>)
    requires loc != []
    ensures var parent := loc[..|loc| - 1]; forall a :: Above(a, loc) <==> a == parent || Above(a, parent)
  {
    var parent := loc[..|loc| - 1];
    forall a ensures Above(a, loc) <==> a == parent || Above(a, parent) {
      if a < loc && |a| == |parent| { assert a == loc[..|a|]; }
    }
  }

  lemma WalkSnoc(t: Tree, init: seq<string>, last: string)
    requires last != "" && last != "." && last != ".."
    ensures var here := Walk(t, init);
            Walk(t, init + [last]) ==
            if here.Some? && IsDirectory(t, here.value) then Some(here.value + [last]) else None
  {
    assert (init + [last])[..|init|] == init;
  }

  lemma {:induction false} WalkPlain(t: Tree, parts: seq<string>)
    requires forall i | 0 <= i < |parts| :: parts[i] != "" && parts[i] != "." && parts[i] != ".."
    ensures Walk(t, parts) == if DirectoriesAbove(t, parts) then Some(parts) else None
  {
    if parts != [] {
      var init, last := parts[..|parts| - 1], parts[|parts| - 1];
      assert init + [last] == parts;
      WalkPlain(t, init);
      WalkSnoc(t, init, last);
      AboveSnoc(t, parts);
    }
  }

  lemma AboveSnoc(t: Tree, parts: seq<string>)
    requires parts != []
    ensures var init := parts[..|parts| - 1];
            DirectoriesAbove(t, parts) <==> DirectoriesAbove(t, init) && IsDirectory(t, init)
  {
    AboveParent(parts);
    assert Above(parts[..|parts| - 1], parts);
  }

  lemma LocatePlain(t: Tree, parts: seq<string>)
    requires Plain(parts)
    ensures Locate(t, Join(parts, '/')) == if DirectoriesAbove(t, parts) then Some(parts) else None
  {
    PlainPath(parts);
    WalkPlain(t, parts);
  }

  /** Every proper prefix is a directory or missing. */
  ghost predicate NoFileAbove(t: Tree, parts: seq<string>) {
    forall loc :: loc in t && Above(loc, parts) ==> t[loc].Directory?
  }

  /** No missing prefix, the whole path included, is one the system refuses. */
  ghost predicate NothingDenied(t: Tree, denied: set<seq<string>>, parts: seq<string>) {
    forall loc :: loc in denied && loc != [] && (loc == parts || Above(loc, parts)) ==> loc in t
  }

  /** The tree with every missing prefix added as a directory. */
  ghost predicate PrefixesAdded(t: Tree, u: Tree, parts: seq<string>) {
    && OnlyAddsDirectories(t, u)
    && (forall loc :: loc in u && loc !in t <==> loc !in t && loc != [] && (loc == parts || Above(loc, parts)))
  }

  lemma PlainWalks(t: Tree, parts: seq<string>)
    requires Plain(parts) && WellFormed(t)
    ensures DirectoriesAbove(t, parts) <==> IsDirectory(t, parts[..|parts| - 1])
    ensures parts in t ==> DirectoriesAbove(t, parts)
  {
    var init := parts[..|parts| - 1];
    AboveParent(parts);
    assert Above(init, parts);
    if IsDirectory(t, init) {
      forall a | Above(a, parts) ensures IsDirectory(t, a) {
        if a != init { AncestorsAreDirectories(t, init, a); }
      }
    }
  }

  lemma PlainOutcome(t: Tree, denied: set<seq<string>>, parts: seq<string>)
    requires Plain(parts) && WellFormed(t)
    ensures MkdirOutcome(t, denied, Join(parts, '/')) ==
            if parts in t then AlreadyExists
            else if IsDirectory(t, parts[..|parts| - 1]) && parts !in denied then Created else Failed
    ensures MkdirOutcome(t, denied, Join(parts, '/')).Created? ==>
            MkdirTree(t, denied, Join(parts, '/')) == t[parts := Directory]
  {
    LocatePlain(t, parts);
    PlainWalks(t, parts);
  }

  /** For a plain path MkdirAll succeeds exactly when the path exists already, or no file stands above
      it and the system refuses none of the missing directories; and then it has added exactly the
      missing prefixes of the path. */
  lemma {:induction false} PlainPathExactly(t: Tree, denied: set<seq<string>>, parts: seq<string>)
    requires Plain(parts) && WellFormed(t)
    ensures var (ok, u) := MakeAll(t, denied, Join(parts, '/'));
            && (ok <==> parts in t || (NoFileAbove(t, parts) && NothingDenied(t, denied, parts)))
            && (ok && parts in t ==> u == t)
            && (ok ==> PrefixesAdded(t, u, parts))
            && (!ok ==> parts !in u)
    decreases |parts|
  {
    var init := parts[..|parts| - 1];
    MakeAllPlain(t, denied, parts);
    if parts in t {
      ExistingPrefixes(t, parts);
    } else if IsDirectory(t, init) {
      ParentThere(t, denied, parts);
    } else {
      PlainPathExactly(t, denied, init);
      var (ok, u) := MakeAll(t, denied, Join(init, '/'));
      OnlyAdds(t, denied, Join(init, '/'));
      PlainOutcome(u, denied, parts);
      ParentMadeIff(t, u, denied, parts, ok);
      if ok && IsDirectory(u, init) { ParentMadeTree(t, u, parts); }
    }
  }

  /** For a plain path: after success it is a directory exactly when no file stood there. */
  lemma PlainPathIsDirectoryIff(t: Tree, denied: set<seq<string>>, parts: seq<string>)
    requires Plain(parts) && WellFormed(t) && MakeAll(t, denied, Join(parts, '/')).0
    ensures IsDirectory(MakeAll(t, denied, Join(parts, '/')).1, parts) <==> !(parts in t && t[parts].File?)
  {
    PlainPathExactly(t, denied, parts);
    assert parts in t || parts in MakeAll(t, denied, Join(parts, '/')).1;
  }

  /** Success does not promise a directory: a file of that name is enough. */
  lemma FileIsEnough(denied: set<seq<string>>)
    ensures var t: Tree := map[["f"] := File];
            WellFormed(t) && MakeAll(t, denied, "f") == (true, t) && !IsDirectory(t, ["f"])
  {
    var t: Tree := map[["f"] := File];
    assert ["f"][..0] == [] && Plain(["f"]) && Join(["f"], '/') == "f";
    PlainPath(["f"]);
    PlainOutcome(t, denied, ["f"]);
  }

  /** One call on a plain path, in terms of the call on its parent. */
  lemma MakeAllPlain(t: Tree, denied: set<seq<string>>, parts: seq<string>)
    requires Plain(parts) && WellFormed(t)
    ensures var path, init := Join(parts, '/'), parts[..|parts| - 1];
            MakeAll(t, denied, path) ==
            if parts in t then (true, t)
            else if IsDirectory(t, init) then
              (if parts in denied then (false, t) else (true, t[parts := Directory]))
            else
              var (ok, u) := MakeAll(t, denied, Join(init, '/'));
              if !ok then (false, u) else (!MkdirOutcome(u, denied, path).Failed?, MkdirTree(u, denied, path))
  {
    var path, init := Join(parts, '/'), parts[..|parts| - 1];
    PlainPath(parts);
    PlainOutcome(t, denied, parts);
    DirOfPlain(parts);
    if parts !in t && IsDirectory(t, init) && parts in denied {
      DirDecreases(path);
      if |parts| > 1 {
        PlainPath(init);
        PlainOutcome(t, denied, init);
      }
    }
  }

  lemma ExistingPrefixes(t: Tree, parts: seq<string>)
    requires WellFormed(t) && parts in t
    ensures PrefixesAdded(t, t, parts)
  {
    forall loc | loc != [] && Above(loc, parts) ensures loc in t {
      AncestorsAreDirectories(t, parts, loc);
    }
  }

  lemma ParentThere(t: Tree, denied: set<seq<string>>, parts: seq<string>)
    requires WellFormed(t) && Plain(parts) && parts !in t && IsDirectory(t, parts[..|parts| - 1])
    ensures NoFileAbove(t, parts) && (NothingDenied(t, denied, parts) <==> parts !in denied)
    ensures PrefixesAdded(t, t[parts := Directory], parts)
  {
    PlainWalks(t, parts);
    ParentThereTree(t, parts);
  }

  lemma ParentThereTree(t: Tree, parts: seq<string>)
    requires parts != [] && parts !in t && DirectoriesAbove(t, parts)
    ensures PrefixesAdded(t, t[parts := Directory], parts)
  {
    forall loc | loc != [] && Above(loc, parts) ensures loc in t {
      assert IsDirectory(t, loc);
    }
  }

  lemma ParentMadeIff(t: Tree, u: Tree, denied: set<seq<string>>, parts: seq<string>, ok: bool)
    requires Plain(parts) && |parts| > 1 && parts !in t
    requires var init := parts[..|parts| - 1];
             && !IsDirectory(t, init) && WellFormed(u)
             && (ok <==> init in t || (NoFileAbove(t, init) && NothingDenied(t, denied, init)))
             && (ok && init in t ==> u == t)
             && (ok ==> PrefixesAdded(t, u, init))
             && (!ok ==> init !in u)
    ensures var init := parts[..|parts| - 1];
            && parts !in u
            && ((ok && IsDirectory(u, init) && parts !in denied) <==>
                NoFileAbove(t, parts) && NothingDenied(t, denied, parts))
  {
    var init := parts[..|parts| - 1];
    AboveParent(parts);
    assert Above(init, parts);
  }

  lemma ParentMadeTree(t: Tree, u: Tree, parts: seq<string>)
    requires parts != [] && parts !in t && parts !in u && PrefixesAdded(t, u, parts[..|parts| - 1])
    ensures PrefixesAdded(t, u[parts := Directory], parts)
  {
    AboveParent(parts);
  }
}
