/** The string functions the code uses from Go's strings package, on sequences of characters. */
module Text {

  /** strings.Split for a one-character separator. */
  function Split(s: string, c: char): (parts: seq<string>)
    ensures |parts| >= 1
  {
    if s == "" then [""]
    else
      var rest := Split(s[1..], c);
      if s[0] == c then [""] + rest else [[s[0]] + rest[0]] + rest[1..]
  }

  /** strings.Join for a one-character separator. */
  function Join(parts: seq<string>, c: char): string {
    if parts == [] then ""
    else if |parts| == 1 then parts[0]
    else parts[0] + [c] + Join(parts[1..], c)
  }

  /** unicode.IsSpace, as strings.TrimSpace uses it. */
  predicate IsSpace(c: char) {
    var n := c as int;
    || 0x09 <= n <= 0x0D || n == 0x20 || n == 0x85 || n == 0xA0 || n == 0x1680
    || 0x2000 <= n <= 0x200A || n == 0x2028 || n == 0x2029 || n == 0x202F || n == 0x205F || n == 0x3000
  }

  /** In ASCII the blanks are the space and the five control characters from tab to carriage return. */
  lemma AsciiBlanks(c: char)
    requires c as int < 128
    ensures IsSpace(c) <==> c in [' ', '\t', '\n', '\U{0B}', '\U{0C}', '\r']
  {
  }

  function TrimLeftBy(s: string, p: char -> bool): string {
    if s != "" && p(s[0]) then TrimLeftBy(s[1..], p) else s
  }

  function TrimRightBy(s: string, p: char -> bool): string {
    if s != "" && p(s[|s| - 1]) then TrimRightBy(s[..|s| - 1], p) else s
  }

  function TrimSpace(s: string): string { TrimRightBy(TrimLeftBy(s, IsSpace), IsSpace) }

  function TrimRight(s: string, c: char): string { TrimRightBy(s, (x: char) => x == c) }

  function Trim(s: string, c: char): string { TrimRight(TrimLeftBy(s, (x: char) => x == c), c) }

  predicate HasSuffix(s: string, suffix: string) { |s| >= |suffix| && s[|s| - |suffix|..] == suffix }

  lemma HasSuffixIff(s: string, suffix: string)
    ensures HasSuffix(s, suffix) <==> exists front :: s == front + suffix
  {
    if HasSuffix(s, suffix) {
      assert s == s[..|s| - |suffix|] + suffix;
    }
  }

  /** strings.LastIndex for a one-character needle; -1 when it does not occur. */
  function LastIndex(s: string, c: char): (i: int)
    ensures -1 <= i < |s|
    ensures i >= 0 ==> s[i] == c
    ensures forall j | i < j < |s| :: s[j] != c
  {
    if s == "" then -1
    else if s[|s| - 1] == c then |s| - 1
    else LastIndex(s[..|s| - 1], c)
  }

  /** Splitting at a separator that is really there. */
  lemma {:induction false} SplitConcat(a: string, b: string, c: char)
    ensures Split(a + [c] + b, c) == Split(a, c) + Split(b, c)
  {
    if a == "" {
      assert (a + [c] + b)[1..] == b;
    } else {
      assert (a + [c] + b)[1..] == a[1..] + [c] + b;
      SplitConcat(a[1..], b, c);
    }
  }

  lemma {:induction false} SplitWithout(a: string, c: char)
    requires c !in a
    ensures Split(a, c) == [a]
  {
    if a != "" {
      SplitWithout(a[1..], c);
      assert [a[0]] + a[1..] == a;
    }
  }

  /** Splitting what was joined gives the parts back. */
  lemma {:induction false} SplitJoin(parts: seq<string>, c: char)
    requires parts != [] && forall i | 0 <= i < |parts| :: c !in parts[i]
    ensures Split(Join(parts, c), c) == parts
  {
    SplitWithout(parts[0], c);
    if |parts| > 1 {
      SplitConcat(parts[0], Join(parts[1..], c), c);
      SplitJoin(parts[1..], c);
    }
  }

  /** A text is the join of what it splits into, and the separator is left in no part: with SplitJoin this
      fixes what Split returns. */
  lemma {:induction false} JoinSplit(s: string, c: char)
    ensures var parts := Split(s, c); Join(parts, c) == s && forall i | 0 <= i < |parts| :: c !in parts[i]
  {
    if s != "" {
      JoinSplit(s[1..], c);
      var rest := Split(s[1..], c);
      assert s == [s[0]] + s[1..];
    }
  }

  /** What is stripped off both ends, and nothing more. */
  lemma TrimmedBothEnds(left: string, core: string, right: string, p: char -> bool)
    requires (forall i | 0 <= i < |left| :: p(left[i])) && (forall i | 0 <= i < |right| :: p(right[i]))
    requires core != "" ==> !p(core[0]) && !p(core[|core| - 1])
    ensures TrimRightBy(TrimLeftBy(left + core + right, p), p) == core
  {
    if core == "" {
      assert left + core + right == left + right;
      AllTrimmed(left + right, p);
    } else {
      assert left + core + right == left + (core + right);
      TrimmedLeft(left, core + right, p);
      TrimmedRight(core, right, p);
    }
  }

  lemma AllTrimmed(s: string, p: char -> bool)
    requires forall i | 0 <= i < |s| :: p(s[i])
    ensures TrimRightBy(TrimLeftBy(s, p), p) == ""
  {
    assert s + "" == s;
    TrimmedLeft(s, "", p);
  }

  lemma {:induction false} TrimmedLeft(left: string, core: string, p: char -> bool)
    requires forall i | 0 <= i < |left| :: p(left[i])
    requires core != "" ==> !p(core[0])
    ensures TrimLeftBy(left + core, p) == core
  {
    if left == "" {
      assert left + core == core;
    } else {
      assert (left + core)[1..] == left[1..] + core;
      TrimmedLeft(left[1..], core, p);
    }
  }

  lemma {:induction false} TrimmedRight(core: string, right: string, p: char -> bool)
    requires forall i | 0 <= i < |right| :: p(right[i])
    requires core != "" ==> !p(core[|core| - 1])
    ensures TrimRightBy(core + right, p) == core
  {
    if right == "" {
      assert core + right == core;
    } else {
      var n := |right| - 1;
      assert (core + right)[..|core| + n] == core + right[..n];
      TrimmedRight(core, right[..n], p);
    }
  }

  lemma NothingToTrim(s: string, p: char -> bool)
    requires s != "" && !p(s[0]) && !p(s[|s| - 1])
    ensures TrimRightBy(TrimLeftBy(s, p), p) == s
  {
  }
}
