/** The Luhn check (the formula of Annex B of ISO/IEC 7812-1) that the PII tool applies to card numbers. */
module Luhn {
  import opened Ascii

  predicate AllDigits(s: string) {
    forall i :: 0 <= i < |s| ==> IsDigit(s[i])
  }

  /** What a digit adds to the sum. */
  function Weight(c: char, double: bool): nat
    requires IsDigit(c)
  {
    var d := (c - '0') as nat;
    if !double then d else if d * 2 > 9 then d * 2 - 9 else d * 2
  }

  /** Every second digit is doubled, counted from the last. */
  predicate Doubled(s: string, i: int) {
    (|s| - 1 - i) % 2 == 1
  }

  function Sum(s: string): nat
    requires AllDigits(s)
  {
    if s == "" then 0 else Weight(s[0], Doubled(s, 0)) + Sum(s[1..])
  }

  predicate Accepted(s: string) {
    13 <= |s| <= 19 && AllDigits(s) && Sum(s) % 10 == 0
  }

  /** The term of the digit at place `k` from the right, counted from zero: the digit itself at even
      places, the sum of the digits of its double at odd ones. */
  function Term(s: string, k: nat): nat
    requires AllDigits(s) && k < |s|
  {
    var d := (s[|s| - 1 - k] - '0') as nat;
    if k % 2 == 0 then d else 2 * d / 10 + 2 * d % 10
  }

  /** The terms of the last `n` digits. */
  function Total(s: string, n: nat): nat
    requires AllDigits(s) && n <= |s|
  {
    if n == 0 then 0 else Total(s, n - 1) + Term(s, n - 1)
  }

  lemma {:induction false} SumIsTotal(s: string, n: nat)
    requires AllDigits(s) && n <= |s|
    ensures Sum(s[|s| - n..]) == Total(s, n)
  {
    if n > 0 {
      SumIsTotal(s, n - 1);
      SumFrom(s, |s| - n);
      TermIsWeight(s, n - 1);
    }
  }

  lemma TermIsWeight(s: string, k: nat)
    requires AllDigits(s) && k < |s|
    ensures Weight(s[|s| - 1 - k], Doubled(s, |s| - 1 - k)) == Term(s, k)
  {
    DigitSum((s[|s| - 1 - k] - '0') as nat);
  }

  lemma DigitSum(d: nat)
    requires d < 10
    ensures (if d * 2 > 9 then d * 2 - 9 else d * 2) == 2 * d / 10 + 2 * d % 10
  {
  }

  method LuhnCheck(digits: string) returns (ok: bool)
    ensures ok == Accepted(digits)
    ensures ok <==> 13 <= |digits| <= 19 && AllDigits(digits) && Total(digits, |digits|) % 10 == 0
  {
    if AllDigits(digits) {
      SumIsTotal(digits, |digits|);
      assert digits[0..] == digits;
    }
    if |digits| < 13 || |digits| > 19 {
      return false;
    }
    var sum, double := 0, false;
    var i := |digits|;
    while i > 0
      invariant 0 <= i <= |digits| && AllDigits(digits[i..])
      invariant sum == Sum(digits[i..]) && double == Doubled(digits, i - 1)
    {
      i := i - 1;
      var c := digits[i];
      if !IsDigit(c) {
        return false;
      }
      SumFrom(digits, i);
      sum := sum + Weight(c, double);
      double := !double;
    }
    assert digits[0..] == digits;
    ok := sum % 10 == 0;
  }

  lemma SumFrom(s: string, i: nat)
    requires i < |s| && IsDigit(s[i]) && AllDigits(s[i + 1..])
    ensures AllDigits(s[i..]) && Sum(s[i..]) == Weight(s[i], Doubled(s, i)) + Sum(s[i + 1..])
    ensures Doubled(s, i - 1) == !Doubled(s, i)
  {
    assert s[i..][1..] == s[i + 1..];
  }

  /** Changing one digit changes the sum by the difference of the two weights. */
  lemma {:induction false} SumOfUpdate(s: string, i: nat, c: char)
    requires AllDigits(s) && i < |s| && IsDigit(c)
    ensures AllDigits(s[i := c])
    ensures Sum(s[i := c]) - Sum(s) == Weight(c, Doubled(s, i)) - Weight(s[i], Doubled(s, i))
  {
    var u := s[i := c];
    if i == 0 {
      assert u[1..] == s[1..];
    } else {
      assert u[1..] == s[1..][i - 1 := c];
      SumOfUpdate(s[1..], i - 1, c);
    }
  }

  /** Different digits have different weights, modulo ten. */
  lemma WeightInjective(c: char, d: char, double: bool)
    requires IsDigit(c) && IsDigit(d) && c != d
    ensures (Weight(c, double) - Weight(d, double)) % 10 != 0
  {
  }

  lemma Residue(x: int, y: int, d: int)
    requires y - x == d && x % 10 == 0
    ensures y % 10 == 0 <==> d % 10 == 0
  {
  }

  /** Changing any one digit of an accepted number makes it rejected. */
  lemma SingleErrorDetected(s: string, i: nat, c: char)
    requires Accepted(s) && i < |s| && IsDigit(c) && c != s[i]
    ensures !Accepted(s[i := c])
  {
    SumOfUpdate(s, i, c);
    WeightInjective(c, s[i], Doubled(s, i));
    Residue(Sum(s), Sum(s[i := c]), Weight(c, Doubled(s, i)) - Weight(s[i], Doubled(s, i)));
  }

  /** How the sum changes when neighbours `c` and `d` are swapped. */
  function SwapDelta(c: char, d: char, double: bool): int
    requires IsDigit(c) && IsDigit(d)
  {
    Weight(d, double) + Weight(c, !double) - Weight(c, double) - Weight(d, !double)
  }

  /** What doubling adds to the weight of a digit; only 0 and 9 gain the same. */
  function Gain(c: char): (g: int)
    requires IsDigit(c)
    ensures -4 <= g <= 4
  {
    Weight(c, true) - Weight(c, false)
  }

  lemma SameGain(c: char, d: char)
    requires IsDigit(c) && IsDigit(d) && c != d
    ensures Gain(c) == Gain(d) <==> (c == '0' && d == '9') || (c == '9' && d == '0')
  {
  }

  /** Swapping two neighbours is noticed unless they are 0 and 9. */
  lemma SwapWeights(c: char, d: char, double: bool)
    requires IsDigit(c) && IsDigit(d) && c != d
    ensures SwapDelta(c, d, double) % 10 == 0 <==> {c, d} == {'0', '9'}
  {
    assert SwapDelta(c, d, double) == if double then Gain(d) - Gain(c) else Gain(c) - Gain(d);
    SameGain(c, d);
    assert {c, d} == {'0', '9'} <==> (c == '0' && d == '9') || (c == '9' && d == '0') by {
      assert c in {c, d} && d in {c, d};
    }
  }

  /** Swapping two different adjacent digits of an accepted number makes it rejected, unless they
      are 0 and 9, in which case it stays accepted. */
  lemma TranspositionDetected(s: string, i: nat)
    requires Accepted(s) && i + 1 < |s| && s[i] != s[i + 1]
    ensures Accepted(s[i := s[i + 1]][i + 1 := s[i]]) <==> {s[i], s[i + 1]} == {'0', '9'}
  {
    var c, d, double := s[i], s[i + 1], Doubled(s, i);
    SwapSum(s, i);
    SwapWeights(c, d, double);
    Residue(Sum(s), Sum(s[i := d][i + 1 := c]), SwapDelta(c, d, double));
  }

  lemma SwapSum(s: string, i: nat)
    requires AllDigits(s) && i + 1 < |s|
    ensures var w := s[i := s[i + 1]][i + 1 := s[i]];
      AllDigits(w) && Sum(w) - Sum(s) == SwapDelta(s[i], s[i + 1], Doubled(s, i))
  {
    var c, d, double := s[i], s[i + 1], Doubled(s, i);
    var u := s[i := d];
    SumOfUpdate(s, i, d);
    SumOfUpdate(u, i + 1, c);
    NeighbourFlips(s, u, i);
    assert Sum(u) - Sum(s) == Weight(d, double) - Weight(c, double);
    assert Sum(u[i + 1 := c]) - Sum(u) == Weight(c, !double) - Weight(d, !double);
  }

  lemma NeighbourFlips(s: string, u: string, i: nat)
    requires |u| == |s|
    ensures Doubled(u, i + 1) == !Doubled(s, i)
  {
  }

  /** Every prefix of 12 to 18 digits has exactly one check digit: what its total, with 0 for the check
      digit, lacks to a multiple of ten. */
  lemma {:induction false} CheckDigit(prefix: string, c: char, total: nat)
    requires 12 <= |prefix| <= 18 && AllDigits(prefix) && AllDigits(prefix + "0") && IsDigit(c)
    requires total == Total(prefix + "0", |prefix| + 1)
    ensures Accepted(prefix + [c]) <==> (c - '0') as int == (10 - total % 10) % 10
  {
    LastDigitAdds(prefix, c);
    TotalOfPrefix(prefix, total);
    AcceptedIff(prefix + [c], total + (c - '0') as nat);
    Missing(total, (c - '0') as nat);
  }

  lemma {:induction false} TotalOfPrefix(prefix: string, total: nat)
    requires AllDigits(prefix + "0") && total == Total(prefix + "0", |prefix| + 1)
    ensures Sum(prefix + "0") == total
  {
    var z := prefix + "0";
    SumIsTotal(z, |z|);
    assert z[0..] == z;
  }

  lemma {:induction false} AcceptedIff(s: string, sum: nat)
    requires 13 <= |s| <= 19 && AllDigits(s) && Sum(s) == sum
    ensures Accepted(s) <==> sum % 10 == 0
  {
  }

  lemma {:induction false} LastDigitAdds(prefix: string, c: char)
    requires AllDigits(prefix) && IsDigit(c)
    ensures AllDigits(prefix + "0") && AllDigits(prefix + [c])
    ensures Sum(prefix + [c]) == Sum(prefix + "0") + (c - '0') as nat
  {
    var z, n := prefix + "0", |prefix|;
    assert z[n := c] == prefix + [c];
    SumOfUpdate(z, n, c);
  }

  lemma Missing(sum: nat, d: nat)
    requires d < 10
    ensures (sum + d) % 10 == 0 <==> d == (10 - sum % 10) % 10
  {
  }
}
