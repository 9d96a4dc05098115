/** The Luhn check of internal/utils/checksum.go, and the errors it detects (ISO/IEC 7812-1, annex B). */
module Luhn {
  import opened MachineInts

  /** One digit's contribution: doubled digits have their own digits added. */
  function Term(digit: nat, doubled: bool): nat
    requires digit < 10
  {
    if !doubled then digit else if digit < 5 then 2 * digit else 2 * digit - 9
  }

  /** The sum over the digits of n, from the right, every second one doubled. */
  function DigitSum(n: nat, doubled: bool): nat {
    if n == 0 then 0 else Term(n % 10, doubled) + DigitSum(n / 10, !doubled)
  }

  /** The k-th decimal digit from the right. */
  function Digit(n: nat, k: nat): (d: nat)
    ensures d < 10
  {
    if k == 0 then n % 10 else Digit(n / 10, k - 1)
  }

  /** A number passes the check: its own last digit plain, the next one doubled, and so on. */
  predicate Valid(n: nat) { DigitSum(n, false) % 10 == 0 }

  /** Go's checksum. The int parameter may be negative; the loop then does not run. */
  method Checksum(number: int) returns (sum: int)
    ensures sum == if number > 0 then DigitSum(number, true) % 10 else 0
  {
    var luhn, rest, i := 0, number, 0;
    while rest > 0
      invariant i >= 0
      invariant number > 0 ==> rest >= 0 && luhn + DigitSum(rest, i % 2 == 0) == DigitSum(number, true)
      invariant number <= 0 ==> rest == number && luhn == 0
      decreases rest
    {
      var cur := TruncMod(rest, 10);
      if i % 2 == 0 {
        cur := cur * 2;
        if cur > 9 {
          cur := cur % 10 + cur / 10;
        }
      }
      assert cur == Term(rest % 10, i % 2 == 0);
      SumUnfolds(rest, i % 2 == 0);
      luhn := luhn + cur;
      rest := TruncDiv(rest, 10);
      i := i + 1;
    }
    sum := TruncMod(luhn, 10);
  }

  /** Go's LuhnValid: the recursive digit sum for non-negative numbers; a negative one passes exactly
      when its last digit is zero. */
  method LuhnValid(number: int) returns (ok: bool)
    ensures ok <==> if number >= 0 then Valid(number) else number % 10 == 0
  {
    var sum := Checksum(TruncDiv(number, 10));
    ok := TruncMod(TruncMod(number, 10) + sum, 10) == 0;
    if number >= 0 {
      SumUnfolds(number, false);
      AddModTen(number % 10, DigitSum(number / 10, true));
    } else {
      NegativeMod(number);
    }
  }

  lemma AddModTen(x: nat, y: nat)
    ensures (x + y % 10) % 10 == (x + y) % 10
  {
  }

  lemma NegativeMod(x: int)
    requires x < 0
    ensures TruncMod(x, 10) <= 0 && TruncDiv(x, 10) <= 0
    ensures TruncMod(TruncMod(x, 10), 10) == 0 <==> x % 10 == 0
  {
  }

  lemma SameResidue(x: nat, y: nat, d: int)
    requires x - y == d && x % 10 == 0
    ensures y % 10 == 0 <==> d % 10 == 0
  {
  }

  // ----- Sums of numbers that differ in few digits -----

  lemma {:induction false} SameDigitsSameNumber(a: nat, b: nat)
    requires forall j: nat :: Digit(a, j) == Digit(b, j)
    ensures a == b
    decreases a + b
  {
    assert Digit(a, 0) == Digit(b, 0);
    if a + b > 0 {
      forall j: nat ensures Digit(a / 10, j) == Digit(b / 10, j) {
        assert Digit(a, j + 1) == Digit(b, j + 1);
      }
      SameDigitsSameNumber(a / 10, b / 10);
    }
  }

  lemma SumUnfolds(n: nat, doubled: bool)
    ensures DigitSum(n, doubled) == Term(n % 10, doubled) + DigitSum(n / 10, !doubled)
  {
  }

  lemma SumsDifferAtTheEnd(a: nat, b: nat, doubled: bool)
    requires forall j: nat | j >= 2 :: Digit(a, j) == Digit(b, j)
    ensures DigitSum(a, doubled) - DigitSum(b, doubled)
            == Term(Digit(a, 0), doubled) - Term(Digit(b, 0), doubled)
             + Term(Digit(a, 1), !doubled) - Term(Digit(b, 1), !doubled)
  {
    SumUnfolds(a, doubled);
    SumUnfolds(b, doubled);
    SumUnfolds(a / 10, !doubled);
    SumUnfolds(b / 10, !doubled);
    forall j: nat ensures Digit(a / 10 / 10, j) == Digit(b / 10 / 10, j) {
      assert Digit(a, j + 2) == Digit(a / 10, j + 1) && Digit(b, j + 2) == Digit(b / 10, j + 1);
    }
    SameDigitsSameNumber(a / 10 / 10, b / 10 / 10);
    assert Digit(a, 1) == a / 10 % 10 && Digit(b, 1) == b / 10 % 10;
  }

  /** Numbers that agree outside digits k and k + 1 have sums that differ by those terms only. */
  lemma {:induction false} SumsDifferInTwoDigits(a: nat, b: nat, k: nat, doubled: bool)
    requires forall j: nat | j != k && j != k + 1 :: Digit(a, j) == Digit(b, j)
    ensures DigitSum(a, doubled) - DigitSum(b, doubled)
            == Term(Digit(a, k), doubled == (k % 2 == 0)) - Term(Digit(b, k), doubled == (k % 2 == 0))
             + Term(Digit(a, k + 1), doubled == (k % 2 == 1)) - Term(Digit(b, k + 1), doubled == (k % 2 == 1))
    decreases k
  {
    if k == 0 {
      SumsDifferAtTheEnd(a, b, doubled);
    } else {
      SumUnfolds(a, doubled);
      SumUnfolds(b, doubled);
      assert Digit(a, 0) == Digit(b, 0);
      forall j: nat | j != k - 1 && j != k ensures Digit(a / 10, j) == Digit(b / 10, j) {
        assert Digit(a, j + 1) == Digit(b, j + 1);
      }
      SumsDifferInTwoDigits(a / 10, b / 10, k - 1, !doubled);
    }
  }

  predicate IsNineZero(x: nat, y: nat) { (x == 0 && y == 9) || (x == 9 && y == 0) }

  /** The change of the sum when the pair x y of adjacent digits becomes u v. */
  function PairChange(x: nat, y: nat, u: nat, v: nat, doubled: bool): int
    requires x < 10 && y < 10 && u < 10 && v < 10
  {
    Term(x, doubled) - Term(u, doubled) + Term(y, !doubled) - Term(v, !doubled)
  }

  lemma OneDigitChanged(x: nat, u: nat, y: nat, doubled: bool)
    requires x < 10 && u < 10 && y < 10 && x != u
    ensures PairChange(x, y, u, y, doubled) % 10 != 0
  {
  }

  lemma SwappedPair(x: nat, y: nat, doubled: bool)
    requires x < 10 && y < 10
    ensures PairChange(x, y, y, x, doubled) % 10 == 0 <==> x == y || IsNineZero(x, y)
  {
  }

  lemma TwinPair(x: nat, y: nat, doubled: bool)
    requires x < 10 && y < 10
    ensures PairChange(x, x, y, y, doubled) % 10 == 0 <==> x == y || TwinsCollide(x, y)
  {
  }

  lemma PairDecides(a: nat, b: nat, k: nat)
    requires forall j: nat | j != k && j != k + 1 :: Digit(a, j) == Digit(b, j)
    requires Valid(a)
    ensures Valid(b) <==>
            PairChange(Digit(a, k), Digit(a, k + 1), Digit(b, k), Digit(b, k + 1), k % 2 != 0) % 10 == 0
  {
    SumsDifferInTwoDigits(a, b, k, false);
    SameResidue(DigitSum(a, false), DigitSum(b, false),
                PairChange(Digit(a, k), Digit(a, k + 1), Digit(b, k), Digit(b, k + 1), k % 2 != 0));
  }

  /** Every single-digit error is detected: two valid numbers never differ in exactly one digit. */
  lemma DetectsSingleDigitErrors(a: nat, b: nat, k: nat)
    requires Digit(a, k) != Digit(b, k)
    requires forall j: nat | j != k :: Digit(a, j) == Digit(b, j)
    ensures !(Valid(a) && Valid(b))
  {
    if Valid(a) {
      assert Digit(a, k + 1) == Digit(b, k + 1);
      PairDecides(a, b, k);
      OneDigitChanged(Digit(a, k), Digit(b, k), Digit(a, k + 1), k % 2 != 0);
    }
  }

  /** Exactly which adjacent transpositions are detected, for a valid number: all but those of two
      equal digits and of 09 and 90. */
  lemma DetectsTranspositions(a: nat, b: nat, k: nat)
    requires Digit(b, k) == Digit(a, k + 1) && Digit(b, k + 1) == Digit(a, k)
    requires forall j: nat | j != k && j != k + 1 :: Digit(a, j) == Digit(b, j)
    requires Valid(a)
    ensures Valid(b) <==> Digit(a, k) == Digit(a, k + 1) || IsNineZero(Digit(a, k), Digit(a, k + 1))
  {
    PairDecides(a, b, k);
    SwappedPair(Digit(a, k), Digit(a, k + 1), k % 2 != 0);
  }

  predicate TwinsCollide(x: nat, y: nat) { (y == x + 3 && 2 <= x <= 4) || (x == y + 3 && 2 <= y <= 4) }

  /** Exactly which twin errors are detected: a doubled digit replaced by another doubled digit goes
      unnoticed for 22 and 55, 33 and 66, 44 and 77 alone. */
  lemma DetectsTwinErrors(a: nat, b: nat, k: nat)
    requires Digit(a, k) == Digit(a, k + 1) && Digit(b, k) == Digit(b, k + 1)
    requires forall j: nat | j != k && j != k + 1 :: Digit(a, j) == Digit(b, j)
    requires Valid(a)
    ensures Valid(b) <==> Digit(a, k) == Digit(b, k) || TwinsCollide(Digit(a, k), Digit(b, k))
  {
    PairDecides(a, b, k);
    TwinPair(Digit(a, k), Digit(b, k), k % 2 != 0);
  }

  /** The digit that completes a prefix. */
  function CheckDigit(prefix: nat): (d: nat)
    ensures d < 10
  {
    (10 - DigitSum(prefix, true) % 10) % 10
  }

  /** Each prefix has exactly one valid check digit. */
  lemma ExactlyOneCheckDigit(prefix: nat, d: nat)
    requires d < 10
    ensures Valid(10 * prefix + d) <==> d == CheckDigit(prefix)
  {
    var n, s := 10 * prefix + d, DigitSum(prefix, true);
    assert n % 10 == d && n / 10 == prefix;
    assert DigitSum(n, false) == d + s by { SumUnfolds(n, false); }
    AddModTen(d, s);
    Completes(d, s % 10);
  }

  lemma Completes(d: nat, r: nat)
    requires d < 10 && r < 10
    ensures (d + r) % 10 == 0 <==> d == (10 - r) % 10
  {
  }
}
