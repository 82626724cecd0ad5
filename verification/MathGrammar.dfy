/** The number grammar of `str::parse::<f64>`, written as numerals with their parts. */
module MathGrammar {
  import opened Ascii
  import opened Wrappers
  import opened MathEval

  datatype Exponent = Exponent(mark: char, sign: string, digits: string)

  datatype Numeral = Numeral(whole: string, point: bool, fraction: string, exponent: Option<Exponent>)

  predicate Digits(s: string) {
    forall i :: 0 <= i < |s| ==> IsDigit(s[i])
  }

  predicate Proper(n: Numeral) {
    && Digits(n.whole) && Digits(n.fraction) && (n.whole != "" || n.fraction != "") && (!n.point ==> n.fraction == "")
    && (n.exponent.Some? ==>
          var x := n.exponent.value;
          (x.mark == 'e' || x.mark == 'E') && (x.sign == "" || x.sign == "+" || x.sign == "-") &&
          x.digits != "" && Digits(x.digits))
  }

  function Mantissa(n: Numeral): string {
    n.whole + if n.point then "." + n.fraction else ""
  }

  function ExponentText(x: Exponent): string {
    [x.mark] + (x.sign + x.digits)
  }

  function Text(n: Numeral): string {
    Mantissa(n) + if n.exponent.Some? then ExponentText(n.exponent.value) else ""
  }

  lemma {:induction false} DigitRunIs(d: string, rest: string)
    requires Digits(d) && (rest != "" ==> !IsDigit(rest[0]))
    ensures DigitRun(d + rest) == |d|
  {
    if d == "" {
      assert d + rest == rest;
    } else {
      assert (d + rest)[1..] == d[1..] + rest;
      DigitRunIs(d[1..], rest);
    }
  }

  lemma MantissaIs(n: Numeral, rest: string)
    requires Proper(n) && (rest != "" ==> !IsDigit(rest[0]) && rest[0] != '.')
    ensures MantissaLength(Mantissa(n) + rest) == |Mantissa(n)|
  {
    var s := Mantissa(n) + rest;
    if n.point {
      var tail := "." + n.fraction + rest;
      assert s == n.whole + tail;
      DigitRunIs(n.whole, tail);
      assert s[|n.whole| + 1..] == n.fraction + rest;
      DigitRunIs(n.fraction, rest);
    } else {
      assert s == n.whole + rest;
      DigitRunIs(n.whole, rest);
    }
  }

  lemma ExponentIs(x: Exponent)
    requires (x.sign == "" || x.sign == "+" || x.sign == "-") && x.digits != "" && Digits(x.digits)
    ensures IsExponent(x.sign + x.digits)
  {
    DigitRunIs(x.digits, "");
    assert x.digits + "" == x.digits;
    if x.sign == "" {
      assert x.sign + x.digits == x.digits;
    } else {
      assert (x.sign + x.digits)[1..] == x.digits;
    }
  }

  lemma MantissaStarts(n: Numeral, rest: string)
    requires Proper(n)
    ensures var m := |Mantissa(n)|; m > 0 && (IsDigit((Mantissa(n) + rest)[0]) || m > 1)
  {
    var s := Mantissa(n) + rest;
    if n.whole != "" {
      assert s[0] == n.whole[0];
    }
  }

  lemma WithExponent(n: Numeral, x: Exponent)
    requires Proper(n) && n.exponent == Some(x)
    ensures IsNumber(Mantissa(n) + ExponentText(x))
  {
    var s, m := Mantissa(n) + ExponentText(x), |Mantissa(n)|;
    MantissaIs(n, ExponentText(x));
    MantissaStarts(n, ExponentText(x));
    assert s[m] == x.mark && s[m + 1..] == x.sign + x.digits;
    ExponentIs(x);
  }

  lemma WithoutExponent(n: Numeral)
    requires Proper(n)
    ensures IsNumber(Mantissa(n))
  {
    MantissaIs(n, "");
    MantissaStarts(n, "");
    assert Mantissa(n) + "" == Mantissa(n);
  }

  /** Every numeral is accepted. */
  lemma NumeralAccepted(n: Numeral)
    requires Proper(n)
    ensures IsNumber(Text(n))
  {
    if n.exponent.Some? {
      WithExponent(n, n.exponent.value);
    } else {
      WithoutExponent(n);
      assert Text(n) == Mantissa(n);
    }
  }

  lemma {:induction false} RunIsDigits(s: string)
    ensures Digits(s[..DigitRun(s)])
  {
    if s != "" && IsDigit(s[0]) {
      RunIsDigits(s[1..]);
      assert s[..DigitRun(s)] == [s[0]] + s[1..][..DigitRun(s[1..])];
    }
  }

  lemma MantissaParts(s: string) returns (n: Numeral)
    requires var m := MantissaLength(s); 0 < m && (IsDigit(s[0]) || 1 < m)
    ensures Proper(n) && n.exponent.None? && Mantissa(n) == s[..MantissaLength(s)]
  {
    var k := DigitRun(s);
    RunIsDigits(s);
    if k < |s| && s[k] == '.' {
      var rest := s[k + 1..];
      RunIsDigits(rest);
      n := Numeral(s[..k], true, rest[..DigitRun(rest)], None);
      assert s[..MantissaLength(s)] == s[..k] + ("." + rest[..DigitRun(rest)]);
    } else {
      n := Numeral(s[..k], false, "", None);
    }
  }

  lemma ExponentParts(s: string) returns (x: Exponent)
    requires s != "" && IsExponentMark(s[0]) && IsExponent(s[1..])
    ensures (x.mark == 'e' || x.mark == 'E') && (x.sign == "" || x.sign == "+" || x.sign == "-")
    ensures x.digits != "" && Digits(x.digits) && ExponentText(x) == s
  {
    var signed := IsSign(s[1]);
    var digits := if signed then s[2..] else s[1..];
    RunIsDigits(digits);
    assert digits[..|digits|] == digits && s[1..][1..] == s[2..];
    x := Exponent(s[0], if signed then [s[1]] else "", digits);
  }

  /** Every accepted text is one of a numeral. */
  lemma AcceptedIsNumeral(s: string) returns (n: Numeral)
    requires IsNumber(s)
    ensures Proper(n) && Text(n) == s
  {
    var m := MantissaLength(s);
    n := MantissaParts(s);
    if m < |s| {
      var x := ExponentParts(s[m..]);
      assert s[m..][1..] == s[m + 1..];
      n := n.(exponent := Some(x));
    }
    assert s == s[..m] + s[m..];
  }

  ghost predicate Unsigned(t: string) {
    (exists n :: Proper(n) && t == Text(n)) || Lower(t) == "inf" || Lower(t) == "infinity" || Lower(t) == "nan"
  }

  lemma UnsignedIff(t: string)
    ensures Unsigned(t) <==> IsNumber(t) || IsFloatWord(Lower(t))
  {
    if IsNumber(t) {
      var n := AcceptedIsNumeral(t);
    }
    if n :| Proper(n) && t == Text(n) {
      NumeralAccepted(n);
    }
  }

  lemma UnsignedStart(t: string)
    requires IsNumber(t) || IsFloatWord(Lower(t))
    ensures t != "" && !IsSign(t[0])
  {
    assert t != "" ==> Lower(t)[0] == LowerChar(t[0]);
  }

  /** A text is accepted exactly if, after an optional sign, it is a numeral or one of three words in
      any case. */
  lemma FloatGrammar(s: string)
    ensures IsFloat(s) <==> Unsigned(s) || (s != "" && (s[0] == '+' || s[0] == '-') && Unsigned(s[1..]))
  {
    UnsignedIff(s);
    if Unsigned(s) {
      UnsignedStart(s);
    }
    if s != "" {
      UnsignedIff(s[1..]);
    }
  }
}
