/** The integer-array column of internal/db/models/int64_array.go. */
module Int64Arrays {
  import opened Prelude
  import opened MachineInts
  import opened Strconv
  import opened Text

  /** A Go slice: nil is not the empty slice. */
  datatype Int64Array = Nil | Elems(xs: seq<int64>)

  /** What the database driver hands over. */
  datatype Column = Null | Number(n: int64) | Chars(text: string) | Unsupported

  /** encoding/json for a text that starts with a bracket; None for an error. */
  type JsonReader = string -> Option<seq<int64>>

  function UpperAscii(c: char): char {
    if 'a' <= c <= 'z' then (c as int - 'a' as int + 'A' as int) as char else c
  }

  /** strings.EqualFold(s, "NULL"): no letter of NULL has a case variant outside ASCII. */
  predicate FoldsToNull(s: string) {
    |s| == 4 && UpperAscii(s[0]) == 'N' && UpperAscii(s[1]) == 'U' && UpperAscii(s[2]) == 'L' && UpperAscii(s[3]) == 'L'
  }

  /** One element as it is written: quotes and then blanks are stripped. */
  function Element(part: string): string { TrimSpace(Trim(part, '"')) }

  predicate Skipped(part: string) { Element(part) == "" || FoldsToNull(Element(part)) }

  /** The numbers of a comma-separated list, empty and NULL elements left out; None if another one is
      not a 64-bit number. */
  function ParseParts(parts: seq<string>): Option<seq<int64>> {
    if parts == [] then Some([])
    else
      var n := |parts| - 1;
      var before := ParseParts(parts[..n]);
      if before.None? || Skipped(parts[n]) then before
      else
        var x := ParseInt(Element(parts[n]));
        if x.None? then None else Some(before.value + [x.value])
  }

  /** Without surrounding braces, if there are both. */
  function Unbraced(s: string): string {
    if "{" <= s && HasSuffix(s, "}") && |s| >= 2 then s[1..|s| - 1] else s
  }

  /** The list a text denotes; None for an error. */
  function ParseText(json: JsonReader, text: string): Option<seq<int64>> {
    var s := TrimSpace(text);
    if s == "" then Some([])
    else if "[" <= s then json(s)
    else if Unbraced(s) == "" then Some([])
    else ParseParts(Split(Unbraced(s), ','))
  }

  function ScanResult(json: JsonReader, v: Column): Option<Int64Array> {
    match v
    case Null => Some(Nil)
    case Number(n) => Some(Elems([n]))
    case Chars(t) => (match ParseText(json, t) case Some(xs) => Some(Elems(xs)) case None => None)
    case Unsupported => None
  }

  function Formatted(xs: seq<int64>): (r: seq<string>)
    ensures |r| == |xs| && forall i | 0 <= i < |xs| :: r[i] == FormatInt(xs[i])
  {
    seq(|xs|, i requires 0 <= i < |xs| => FormatInt(xs[i]))
  }

  /** The column value an array is written as. */
  function Written(a: Int64Array): Column {
    match a
    case Nil => Null
    case Elems(xs) => Chars("{" + Join(Formatted(xs), ',') + "}")
  }

  /** The loop of scanString over the elements. */
  method ScanParts(parts: seq<string>) returns (r: Option<seq<int64>>)
    ensures r == ParseParts(parts)
  {
    var values: seq<int64> := [];
    var i := 0;
    while i < |parts|
      invariant 0 <= i <= |parts|
      invariant ParseParts(parts[..i]) == Some(values)
    {
      assert parts[..i + 1][..i] == parts[..i];
      var part := Element(parts[i]);
      if !(part == "" || FoldsToNull(part)) {
        var number := ParseInt(part);
        if number.None? {
          BadElement(parts, i);
          return None;
        }
        values := values + [number.value];
      }
      i := i + 1;
    }
    assert parts[..i] == parts;
    return Some(values);
  }

  /** The receiver that Scan overwrites. */
  class Int64Column {
    var a: Int64Array

    constructor (a: Int64Array)
      ensures this.a == a
    {
      this.a := a;
    }

    /** Scan: the receiver is overwritten on success and left alone on an error. */
    method Scan(json: JsonReader, value: Column) returns (ok: bool)
      modifies this
      ensures value.Null? ==> ok && a == Nil
      ensures value.Number? ==> ok && a == Elems([value.n])
      ensures value.Unsupported? ==> !ok
      ensures ok <==> ScanResult(json, value).Some?
      ensures a == if ok then ScanResult(json, value).value else old(a)
    {
      match value
      case Null => a := Nil; return true;
      case Number(n) => a := Elems([n]); return true;
      case Chars(text) => ok := ScanString(json, text);
      case Unsupported => return false;
    }

    method ScanString(json: JsonReader, text: string) returns (ok: bool)
      modifies this
      ensures ok <==> ParseText(json, text).Some?
      ensures a == if ok then Elems(ParseText(json, text).value) else old(a)
    {
      var value := TrimSpace(text);
      if value == "" {
        a := Elems([]);
        return true;
      }
      if "[" <= value {
        var parsed := json(value);
        if parsed.None? {
          return false;
        }
        a := Elems(parsed.value);
        return true;
      }
      if "{" <= value && HasSuffix(value, "}") {
        value := value[1..|value| - 1];
      }
      if value == "" {
        a := Elems([]);
        return true;
      }
      var values := ScanParts(Split(value, ','));
      if values.None? {
        return false;
      }
      a := Elems(values.value);
      return true;
    }

    method Value() returns (v: Column)
      ensures v == Written(a)
    {
      if a.Nil? {
        return Null;
      }
      var values: seq<string> := [];
      var i := 0;
      while i < |a.xs|
        invariant 0 <= i <= |a.xs|
        invariant values == Formatted(a.xs[..i])
      {
        values := values + [FormatInt(a.xs[i])];
        i := i + 1;
      }
      assert a.xs[..i] == a.xs;
      return Chars("{" + Join(values, ',') + "}");
    }
  }

  lemma {:induction false} BadElement(parts: seq<string>, i: nat)
    requires i < |parts| && !Skipped(parts[i]) && ParseInt(Element(parts[i])).None?
    ensures ParseParts(parts).None?
    decreases |parts|
  {
    var n := |parts| - 1;
    if i < n {
      BadElement(parts[..n], i);
    }
  }

  lemma ParsePartsSnoc(parts: seq<string>, part: string)
    ensures ParseParts(parts + [part]) ==
            if ParseParts(parts).None? || Skipped(part) then ParseParts(parts)
            else if ParseInt(Element(part)).None? then None
            else Some(ParseParts(parts).value + [ParseInt(Element(part)).value])
  {
    assert (parts + [part])[..|parts|] == parts;
  }

  // ----- The round trip -----

  predicate IsNumeral(s: string) { s != "" && forall i | 0 <= i < |s| :: IsDigit(s[i]) || s[i] == '-' }

  lemma FormattedIsNumeral(n: int)
    ensures IsNumeral(FormatInt(n))
  {
    var s := FormatInt(n);
    if s[0] == '-' {
      forall i | 0 <= i < |s| ensures IsDigit(s[i]) || s[i] == '-' {
        if i > 0 && AllDigits(s[1..]) { assert s[i] == s[1..][i - 1]; }
      }
    }
  }

  lemma NumeralIsBare(s: string)
    requires IsNumeral(s)
    ensures Element(s) == s && !FoldsToNull(s) && ',' !in s
  {
    NothingToTrim(s, (x: char) => x == '"');
    assert TrimLeftBy(s, (x: char) => x == '"') == s;
    NothingToTrim(s, IsSpace);
  }

  lemma {:induction false} ParseFormatted(xs: seq<int64>)
    ensures ParseParts(Formatted(xs)) == Some(xs)
  {
    if xs == [] {
      assert Formatted(xs) == [];
    } else {
      var init, x := xs[..|xs| - 1], xs[|xs| - 1];
      assert init + [x] == xs;
      ParseFormatted(init);
      ParseOneMore(init, x);
    }
  }

  lemma ParseOneMore(xs: seq<int64>, x: int64)
    requires ParseParts(Formatted(xs)) == Some(xs)
    ensures ParseParts(Formatted(xs + [x])) == Some(xs + [x])
  {
    assert Formatted(xs + [x]) == Formatted(xs) + [FormatInt(x)];
    ElementOfFormatted(x);
    ParsePartsSnoc(Formatted(xs), FormatInt(x));
  }

  lemma ElementOfFormatted(x: int64)
    ensures !Skipped(FormatInt(x)) && ParseInt(Element(FormatInt(x))) == Some(x)
  {
    FormattedIsNumeral(x);
    NumeralIsBare(FormatInt(x));
    ParseFormat(x);
  }

  lemma JoinNotEmpty(parts: seq<string>)
    requires parts != [] && parts[0] != ""
    ensures Join(parts, ',') != ""
  {
  }

  /** Scan(Value(a)) gives a back for every array, nil and empty kept apart. */
  lemma ScanOfValue(json: JsonReader, a: Int64Array)
    ensures ScanResult(json, Written(a)) == Some(a)
  {
    if a.Elems? {
      ElemsComeBack(json, a.xs);
    }
  }

  lemma ElemsComeBack(json: JsonReader, xs: seq<int64>)
    ensures ParseText(json, "{" + Join(Formatted(xs), ',') + "}") == Some(xs)
  {
    var body := Join(Formatted(xs), ',');
    BracesComeOff(json, body);
    if xs == [] {
      assert body == "";
    } else {
      BodyIsParsed(xs);
    }
  }

  lemma BracesComeOff(json: JsonReader, body: string)
    ensures ParseText(json, "{" + body + "}") == if body == "" then Some([]) else ParseParts(Split(body, ','))
  {
    var s := "{" + body + "}";
    assert s[0] == '{' && s[|s| - 1] == '}';
    NothingToTrim(s, IsSpace);
    assert Unbraced(s) == body;
  }

  lemma BodyIsParsed(xs: seq<int64>)
    requires xs != []
    ensures Join(Formatted(xs), ',') != "" && ParseParts(Split(Join(Formatted(xs), ','), ',')) == Some(xs)
  {
    var parts := Formatted(xs);
    forall i | 0 <= i < |parts| ensures ',' !in parts[i] {
      FormattedIsNumeral(xs[i]);
      NumeralIsBare(parts[i]);
    }
    JoinNotEmpty(parts);
    SplitJoin(parts, ',');
    ParseFormatted(xs);
  }

  /** Any column value that scans re-prints to one that scans to the same array. */
  lemma ReprintIsStable(json: JsonReader, v: Column)
    requires ScanResult(json, v).Some?
    ensures ScanResult(json, Written(ScanResult(json, v).value)) == ScanResult(json, v)
  {
    ScanOfValue(json, ScanResult(json, v).value);
  }

  /** A number as such and the same number as text scan alike. */
  lemma NumberAsText(json: JsonReader, n: int64)
    ensures ScanResult(json, Number(n)) == Some(Elems([n])) == ScanResult(json, Chars(FormatInt(n)))
  {
    var s := FormatInt(n);
    FormattedIsNumeral(n);
    NumeralText(json, s);
    ParseFormatted([n]);
    assert Formatted([n]) == [s];
  }

  lemma NumeralText(json: JsonReader, s: string)
    requires IsNumeral(s)
    ensures ParseText(json, s) == ParseParts([s])
  {
    NumeralIsBare(s);
    NothingToTrim(s, IsSpace);
    SplitWithout(s, ',');
  }

  // ----- Which lists are accepted, and what they mean -----

  /** NULL in any mix of cases. */
  lemma FoldsToNullIff(s: string)
    ensures FoldsToNull(s) <==> |s| == 4 && forall i | 0 <= i < 4 :: s[i] == "NULL"[i] || s[i] == "null"[i]
  {
  }

  /** Quotes come off the outside, then blanks; quotes inside the blanks stay. */
  lemma ElementIs(left: string, before: string, core: string, after: string, right: string)
    requires (forall i | 0 <= i < |left| :: left[i] == '"') && (forall i | 0 <= i < |right| :: right[i] == '"')
    requires (forall i | 0 <= i < |before| :: IsSpace(before[i])) && (forall i | 0 <= i < |after| :: IsSpace(after[i]))
    requires core != "" ==> !IsSpace(core[0]) && !IsSpace(core[|core| - 1])
    requires var inner := before + core + after; inner != "" ==> inner[0] != '"' && inner[|inner| - 1] != '"'
    ensures Element(left + before + core + after + right) == core
  {
    var inner := before + core + after;
    assert left + before + core + after + right == left + inner + right;
    TrimmedBothEnds(left, inner, right, (x: char) => x == '"');
    TrimmedBothEnds(before, core, after, IsSpace);
  }

  /** A comma list is accepted exactly when every element is empty, NULL or a 64-bit number; its value
      is the numbers in their order. */
  lemma {:induction false} PartsAccepted(parts: seq<string>)
    ensures ParseParts(parts).Some? <==>
            forall i | 0 <= i < |parts| :: Skipped(parts[i]) || ParseInt(Element(parts[i])).Some?
    decreases |parts|
  {
    if parts != [] {
      var n := |parts| - 1;
      PartsAccepted(parts[..n]);
      assert forall i | 0 <= i < n :: parts[..n][i] == parts[i];
    }
  }

  /** NULL and empty elements change nothing wherever they stand. */
  lemma {:induction false} NullsAreIgnored(a: seq<string>, part: string, b: seq<string>)
    requires Skipped(part)
    ensures ParseParts(a + [part] + b) == ParseParts(a + b)
    decreases |b|
  {
    if b == [] {
      ParsePartsSnoc(a, part);
      assert a + [part] + b == a + [part] && a + b == a;
    } else {
      var n := |b| - 1;
      var c, last := b[..n], b[n];
      assert b == c + [last];
      NullsAreIgnored(a, part, c);
      assert a + [part] + b == (a + [part] + c) + [last];
      assert a + b == (a + c) + [last];
      ParsePartsSnoc(a + [part] + c, last);
      ParsePartsSnoc(a + c, last);
    }
  }
}
