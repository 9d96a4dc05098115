/** Decimal printing and parsing as in Go's strconv package: FormatInt, ParseInt and Atoi in base 10
    for 64-bit integers. */
module Strconv {
  import opened Prelude
  import opened MachineInts

  predicate IsDigit(c: char) { '0' <= c <= '9' }

  predicate AllDigits(s: string) { forall i | 0 <= i < |s| :: IsDigit(s[i]) }

  function DigitChar(d: nat): (c: char)
    requires d < 10
    ensures IsDigit(c) && c as int - '0' as int == d
  {
    ('0' as int + d) as char
  }

  function FormatNat(n: nat): (s: string)
    ensures s != "" && AllDigits(s) && (s[0] == '0' ==> s == "0")
  {
    if n < 10 then [DigitChar(n)] else FormatNat(n / 10) + [DigitChar(n % 10)]
  }

  function FormatInt(n: int): (s: string)
    ensures s != "" && (AllDigits(s) || (s[0] == '-' && |s| > 1 && AllDigits(s[1..])))
  {
    if n < 0 then "-" + FormatNat(-n) else FormatNat(n)
  }

  /** The number a digit string denotes. */
  function NatValue(s: string): nat
    requires AllDigits(s)
  {
    if s == "" then 0 else 10 * NatValue(s[..|s| - 1]) + (s[|s| - 1] as int - '0' as int)
  }

  /** ParseInt(s, 10, 64) and Atoi: an optional sign, then digits only, in range; None for an error. */
  function ParseInt(s: string): (r: Option<int64>) {
    if s == "" then None
    else
      var signed := s[0] == '-' || s[0] == '+';
      var digits := if signed then s[1..] else s;
      if digits == "" || !AllDigits(digits) then None
      else
        var m: int := NatValue(digits);
        var n := if s[0] == '-' then -m else m;
        if MIN_INT64 <= n <= MAX_INT64 then Some(n) else None
  }

  lemma {:induction false} NatValueOfFormat(n: nat)
    ensures NatValue(FormatNat(n)) == n
  {
    if n < 10 {
      assert FormatNat(n)[..0] == "";
      assert NatValue("") == 0;
    } else {
      NatValueOfFormat(n / 10);
      assert FormatNat(n)[..|FormatNat(n)| - 1] == FormatNat(n / 10);
    }
  }

  /** Every 64-bit integer, the minimum included, is read back from its decimal form. */
  lemma ParseFormat(n: int64)
    ensures ParseInt(FormatInt(n)) == Some(n)
  {
    var x: int := n;
    if x < 0 {
      NatValueOfFormat(-x);
      assert FormatInt(x)[1..] == FormatNat(-x);
    } else {
      NatValueOfFormat(n);
      assert IsDigit(FormatInt(n)[0]);
    }
  }

  lemma DigitsAre(c: char)
    ensures IsDigit(c) <==> c in "0123456789"
  {
    if IsDigit(c) {
      assert c == "0123456789"[c as int - '0' as int];
    }
  }

  /** A digit string without a leading zero is how its number is printed. */
  lemma {:induction false} FormatOfNatValue(s: string)
    requires s != "" && AllDigits(s) && (s[0] == '0' ==> s == "0")
    ensures FormatNat(NatValue(s)) == s
  {
    var init, c := s[..|s| - 1], s[|s| - 1];
    assert s == init + [c];
    if init == "" {
      assert NatValue(init) == 0;
    } else {
      FormatOfNatValue(init);
      LastDigit(NatValue(init), c);
    }
  }

  lemma LastDigit(n: nat, c: char)
    requires IsDigit(c)
    ensures var d := c as int - '0' as int;
            FormatNat(10 * n + d) == if n == 0 then [c] else FormatNat(n) + [c]
  {
    var d := c as int - '0' as int;
    assert (10 * n + d) / 10 == n && (10 * n + d) % 10 == d;
  }

  /** What is accepted, and as which number: digits with at most one sign before them, in range. */
  lemma ParseIntIff(s: string, n: int64)
    ensures ParseInt(s) == Some(n) <==>
            || (s != "" && AllDigits(s) && NatValue(s) == n)
            || ("+" < s && AllDigits(s[1..]) && NatValue(s[1..]) == n)
            || ("-" < s && AllDigits(s[1..]) && NatValue(s[1..]) + n == 0)
  {
    if s != "" && AllDigits(s) {
      assert IsDigit(s[0]);
    }
  }
}
