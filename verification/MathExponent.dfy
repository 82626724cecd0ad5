/**
 A `+` or `-` directly after the constant `e` is taken for the sign of an exponent. The operator is
 then no operator, and what follows `e` belongs to an operand that is no number: every text with
 such a pair outside parentheses is rejected. So a printed tree evaluates to its value if and only if
 no sum's operator directly follows an `e`.
 */
module MathExponent {
  import opened Ascii
  import opened Wrappers
  import opened MathEval
  import opened MathPrinter

  // ----- where an operand starts with the pair -----

  /** Position `k` holds an operator at which the parser of `level` or a tighter one may split. */
  predicate Splits(s: string, k: int, level: nat)
    requires 0 <= k < |s|
  {
    || (level <= 0 && OpAt(Sums, s, k))
    || (level <= 1 && OpAt(Products, s, k))
    || (level <= 2 && OpAt(Powers, s, k))
  }

  /** The text ends in an exponent mark outside parentheses. */
  predicate MarkEnds(s: string) {
    s != "" && !IsSpace(s[0]) && IsExponentMark(s[|s| - 1]) && DepthAt(s, |s| - 1) == 0
  }

  /** Only blanks stand between position `k` and the last character. */
  predicate BlankAfter(s: string, k: nat) {
    forall i :: k < i < |s| - 1 ==> IsSpace(s[i])
  }

  /** The mark at the end starts the text or follows, after blanks, the operator at `k`. */
  predicate Exposed(s: string, k: nat, level: nat) {
    MarkEnds(s) && (|s| == 1 || (k < |s| - 1 && Splits(s, k, level) && BlankAfter(s, k)))
  }

  /** The text starts with an exposed mark and a sign. */
  ghost predicate Misread(s: string) {
    exists n: nat, k: nat :: n < |s| && IsSign(s[n]) && Exposed(s[..n], k, 0)
  }

  lemma {:induction false} DepthOfPrefix(s: string, n: nat, i: nat)
    requires i <= n <= |s|
    ensures DepthAt(s[..n], i) == DepthAt(s, i)
  {
    DepthOfConcat(s[..n], s[n..], i);
    assert s[..n] + s[n..] == s;
  }

  /** Depth counted from a position outside parentheses. */
  lemma DepthOfSuffix(s: string, a: nat, i: nat)
    requires a <= i <= |s| && DepthAt(s, a) == 0
    ensures DepthAt(s[a..], i - a) == DepthAt(s, i)
  {
    DepthOfConcat(s[..a], s[a..], i);
    DepthOfConcat(s[..a], s[a..], a);
    assert s[..a] + s[a..] == s;
  }

  lemma OpInPrefix(tier: Tier, s: string, n: nat, k: int)
    requires 0 <= k < n <= |s|
    ensures OpAt(tier, s[..n], k) <==> OpAt(tier, s, k)
  {
    DepthOfPrefix(s, n, k);
  }

  lemma {:induction false} OpInSuffix(tier: Tier, s: string, a: nat, k: int)
    requires a <= k < |s| && DepthAt(s, a) == 0 && (tier == Sums ==> a < k)
    ensures OpAt(tier, s[a..], k - a) <==> OpAt(tier, s, k)
  {
    DepthOfSuffix(s, a, k);
  }

  // ----- whatever follows, the pair is rejected -----

  /** Where the operand to the right of a position starts. */
  lemma {:induction false} SkipBlanks(s: string, from: nat, q: nat) returns (a: nat)
    requires from <= q < |s| && !IsSpace(s[q]) && DepthAt(s, from) == 0
    ensures from <= a <= q && !IsSpace(s[a]) && DepthAt(s, a) == 0 && TrimStart(s[from..]) == s[a..]
    ensures Blank(s[from..a])
    decreases q - from
  {
    if IsSpace(s[from]) {
      a := SkipBlanks(s, from + 1, q);
      assert s[from..][1..] == s[from + 1..];
      assert s[from..a] == [s[from]] + s[from + 1..a];
    } else {
      a := from;
    }
  }

  lemma {:induction false} TrimEndAfter(g: string, r: string)
    requires g != "" && !IsSpace(g[|g| - 1]) && r != "" && IsSign(r[0])
    ensures TrimEnd(g + r) == g + TrimEnd(r) && TrimEnd(r) != "" && TrimEnd(r)[0] == r[0]
  {
    TrimEndKeeps(g, r);
    TrimEndKeeps(r[..1], r[1..]);
    assert r[..1] + r[1..] == r;
  }

  lemma {:induction false} SplitsSuffix(g: string, k: nat, a: nat, level: nat)
    requires a <= k < |g| && DepthAt(g, a) == 0 && Splits(g, k, level) && level >= 1
    ensures Splits(g[a..], k - a, level)
  {
    OpInSuffix(Products, g, a, k);
    OpInSuffix(Powers, g, a, k);
  }

  lemma {:induction false} MarkEndsSuffix(g: string, a: nat)
    requires MarkEnds(g) && a < |g| && DepthAt(g, a) == 0 && !IsSpace(g[a])
    ensures MarkEnds(g[a..])
  {
    var t, n := g[a..], |g| - 1;
    DepthOfSuffix(g, a, n);
    assert t[0] == g[a] && t[n - a] == g[n] && |t| - 1 == n - a;
    MarkEndsIs(t, n - a);
  }

  lemma {:induction false} MarkEndsIs(t: string, n: nat)
    requires n == |t| - 1 && !IsSpace(t[0]) && IsExponentMark(t[n]) && DepthAt(t, n) == 0
    ensures MarkEnds(t)
  {
  }

  lemma {:induction false} ExposedSuffix(g: string, k: nat, a: nat, level: nat, next: nat)
    requires Exposed(g, k, level) && |g| > 1 && a <= k && DepthAt(g, a) == 0 && !IsSpace(g[a])
    requires Splits(g, k, next) && next >= 1
    ensures Exposed(g[a..], k - a, next)
  {
    MarkEndsSuffix(g, a);
    SplitsSuffix(g, k, a, next);
    BlankAfterSuffix(g, k, a);
  }

  lemma BlankAfterSuffix(g: string, k: nat, a: nat)
    requires a <= k && BlankAfter(g, k) && a <= |g|
    ensures BlankAfter(g[a..], k - a)
  {
    var t := g[a..];
    forall i | k - a < i < |t| - 1
      ensures IsSpace(t[i])
    {
      assert t[i] == g[a + i];
    }
  }

  lemma ExposedAlone(g: string, k: nat, level: nat, next: nat)
    requires Exposed(g, k, level)
    ensures Exposed(g[|g| - 1..], 0, next)
  {
    assert g[|g| - 1..] == [g[|g| - 1]];
  }

  lemma OperatorIsNoSpace(s: string, k: nat, level: nat)
    requires k < |s| && Splits(s, k, level)
    ensures !IsSpace(s[k])
  {
  }

  /** The operand to the right of a split before the mark still exposes it. */
  lemma RightOperand(g: string, k: nat, r: string, p: nat, level: nat, next: nat) returns (a: nat)
    requires Exposed(g, k, level) && |g| > 1 && r != "" && IsSign(r[0])
    requires p <= k && DepthAt(g, p) == 0 && Delta(g[p]) == 0 && next >= 1 && (p < k ==> Splits(g, k, next))
    ensures 0 < a < |g| && Exposed(g[a..], if a <= k then k - a else 0, next)
    ensures Trim((g + r)[p + 1..]) == g[a..] + TrimEnd(r)
  {
    if p < k {
      OperatorIsNoSpace(g, k, next);
      a := SkipBlanks(g, p + 1, k);
      ExposedSuffix(g, k, a, level, next);
    } else {
      a := |g| - 1;
      ExposedAlone(g, k, level, next);
      BlankSlice(g, k);
    }
    RightText(g, p + 1, a, r);
  }

  lemma BlankSlice(g: string, k: nat)
    requires k < |g| - 1 && BlankAfter(g, k)
    ensures Blank(g[k + 1..|g| - 1])
  {
  }

  lemma {:induction false} RightText(g: string, from: nat, a: nat, r: string)
    requires from <= a < |g| && Blank(g[from..a]) && !IsSpace(g[a]) && IsExponentMark(g[|g| - 1])
    requires r != "" && IsSign(r[0])
    ensures Trim((g + r)[from..]) == g[a..] + TrimEnd(r)
  {
    var blanks, rest := g[from..a], g[a..];
    assert (g + r)[from..] == blanks + (rest + r);
    assert rest[0] == g[a] && rest[|rest| - 1] == g[|g| - 1];
    TrimAround(blanks, rest, r);
  }

  lemma {:induction false} TrimAround(blanks: string, g: string, r: string)
    requires Blank(blanks) && g != "" && !IsSpace(g[0]) && IsExponentMark(g[|g| - 1]) && r != "" && IsSign(r[0])
    ensures Trim(blanks + (g + r)) == g + TrimEnd(r)
  {
    assert (g + r)[0] == g[0];
    TrimStartBlank(blanks, g + r);
    TrimEndAfter(g, r);
  }

  lemma {:induction false} TrimEndTwice(s: string)
    ensures TrimEnd(TrimEnd(s)) == TrimEnd(s)
  {
    if s != "" && IsSpace(s[|s| - 1]) {
      TrimEndTwice(s[..|s| - 1]);
    }
  }

  lemma {:induction false} LookalikeIsNothing<V>(ops: Arith<V>, t: string)
    requires |t| >= 2 && IsExponentMark(t[0]) && IsSign(t[1])
    ensures CallPattern(t).None? && SingleCall(t).None? && Constant(ops, t).None? && !IsFloat(t)
  {
    SecondIsSign(t, 0);
    NotLetterNoConstant(ops, t, 1);
    assert NameLength(t[1..]) == 0;
    LookalikeIsNoNumber(t);
  }

  lemma LookalikeIsNoNumber(t: string)
    requires |t| >= 2 && IsExponentMark(t[0]) && IsSign(t[1])
    ensures !IsFloat(t)
  {
    assert MantissaLength(t) == 0;
    assert Lower(t)[1] == t[1];
  }

  lemma {:induction false} SecondIsSign(t: string, k: nat)
    requires |t| >= 2 && IsSign(t[1]) && k <= |SINGLE_ARGUMENT|
    ensures SingleCall(t, k).None?
    decreases |SINGLE_ARGUMENT| - k
  {
    if k < |SINGLE_ARGUMENT| {
      assert !IsSign((SINGLE_ARGUMENT[k] + "(")[1]);
      Mismatch(SINGLE_ARGUMENT[k] + "(", t, 1);
      SecondIsSign(t, k + 1);
    }
  }

  lemma {:induction false} NothingIsRejected<V>(ops: Arith<V>, t: string)
    requires t != "" && Trim(t) == t && !IsSign(t[0]) && t[0] != '('
    requires CallPattern(t).None? && SingleCall(t).None? && Constant(ops, t).None? && !IsFloat(t)
    ensures ParseUnary(ops, t).Err?
  {
  }

  lemma {:induction false} TrimPair(s: string)
    requires |s| >= 2 && IsExponentMark(s[0]) && IsSign(s[1])
    ensures var t := Trim(s); |t| >= 2 && t[..2] == s[..2] && Trim(t) == t
  {
    var h, u := s[..2], s[2..];
    assert h + u == s;
    TrimKeeps(h, u);
    TrimKeeps(h, TrimEnd(u));
    TrimEndTwice(u);
  }

  lemma {:induction false} PairRejected<V>(ops: Arith<V>, s: string)
    requires |s| >= 2 && IsExponentMark(s[0]) && IsSign(s[1])
    ensures ParseUnary(ops, s).Err?
  {
    var t := Trim(s);
    TrimPair(s);
    assert t[0] == s[..2][0] && t[1] == s[..2][1];
    LookalikeIsNothing(ops, t);
    NothingIsRejected(ops, t);
    UnaryTrims(ops, s, t);
  }

  lemma {:induction false} UnaryTrims<V>(ops: Arith<V>, s: string, t: string)
    requires Trim(s) == t && Trim(t) == t
    ensures ParseUnary(ops, s) == ParseUnary(ops, t)
  {
  }

  function TierOf(level: nat): Tier {
    match level case 0 => Sums case 1 => Products case _ => Powers
  }

  /** Where the parser of `level` splits. */
  function SplitOf(s: string, level: nat): Option<nat> {
    if level == 2 then FirstOp(Powers, s) else LastOp(TierOf(level), s)
  }

  function OpOf(c: char): Op {
    match c
    case '+' => Add case '-' => Sub case '*' => Mul case '/' => Div case '%' => Rem case _ => Pow
  }

  /** An operand that is rejected rejects the whole. */
  lemma {:induction false} OperandErr<V>(ops: Arith<V>, s: string, level: nat, p: nat, l: string, r: string)
    requires level <= 2 && SplitOf(s, level) == Some(p) && p < |s| && Trim(s[..p]) == l && Trim(s[p + 1..]) == r
    requires
      || ParseAt(ops, l, if level == 2 then 3 else level).Err?
      || ParseAt(ops, r, if level == 2 then 2 else level + 1).Err?
    ensures ParseAt(ops, s, level).Err?
  {
    assert OpAt(TierOf(level), s, p);
    var op := OpOf(s[p]);
    assert Symbol(op) == s[p] && OpLevel(op) == level;
    SplitAt(ops, s, p, op, l, r);
  }

  lemma {:induction false} NoSplit<V>(ops: Arith<V>, s: string, level: nat)
    requires level <= 2 && SplitOf(s, level).None?
    ensures ParseAt(ops, s, level) == ParseAt(ops, s, level + 1)
  {
  }

  /** An operator that the parser of `level` does not take is left for the next one. */
  lemma Tighter(g: string, k: nat, level: nat)
    requires level <= 2 && Exposed(g, k, level) && (|g| > 1 ==> !OpAt(TierOf(level), g, k))
    ensures Exposed(g, k, level + 1)
  {
  }

  /** Neither the mark nor the sign nor a blank before the mark is where a parser splits. */
  lemma SplitElsewhere(g: string, k: nat, r: string, level: nat, p: nat)
    requires level <= 2 && Exposed(g, k, level) && r != "" && IsSign(r[0]) && p < |g + r|
    requires OpAt(TierOf(level), g + r, p)
    ensures p > |g| || (|g| > 1 && p <= k && OpAt(TierOf(level), g, p))
  {
    assert (g + r)[..|g|] == g && (g + r)[|g|] == r[0] && (g + r)[|g| - 1] == g[|g| - 1];
    if p < |g| {
      OpInPrefix(TierOf(level), g + r, |g|, p);
    }
  }

  /** A split behind the sign leaves mark and sign in the left operand. */
  lemma {:induction false} LeftOperand(g: string, r: string, p: nat)
    requires MarkEnds(g) && r != "" && IsSign(r[0]) && |g| < p < |g + r|
    ensures var u := TrimEnd(r[..p - |g|]);
      Trim((g + r)[..p]) == g + u && u != "" && u[0] == r[0] && |u| < |r|
  {
    assert (g + r)[..p] == g + r[..p - |g|];
    TrimKeeps(g, r[..p - |g|]);
    TrimEndAfter(g, r[..p - |g|]);
  }

  /** Whatever follows an exposed mark and a sign, the text is rejected. */
  lemma {:induction false} Rejected<V>(ops: Arith<V>, g: string, k: nat, r: string, level: nat)
    requires level <= 3 && Exposed(g, k, level) && r != "" && IsSign(r[0])
    ensures ParseAt(ops, g + r, level).Err?
    decreases |g| + |r|, 3 - level
  {
    var s := g + r;
    if level == 3 {
      assert s[0] == g[0] && s[1] == r[0];
      PairRejected(ops, s);
      return;
    }
    match SplitOf(s, level) {
      case None =>
        SplitNowhere(g, k, r, level);
        Tighter(g, k, level);
        Rejected(ops, g, k, r, level + 1);
        NoSplit(ops, s, level);
      case Some(p) =>
        SplitElsewhere(g, k, r, level, p);
        if p > |g| {
          RejectedLeft(ops, g, k, r, level, p);
        } else {
          RejectedRight(ops, g, k, r, level, p);
        }
    }
  }

  lemma SplitNowhere(g: string, k: nat, r: string, level: nat)
    requires level <= 2 && Exposed(g, k, level) && SplitOf(g + r, level).None?
    ensures |g| > 1 ==> !OpAt(TierOf(level), g, k)
  {
    assert (g + r)[..|g|] == g;
    if |g| > 1 {
      OpInPrefix(TierOf(level), g + r, |g|, k);
    }
  }

  lemma {:induction false} RejectedLeft<V>(ops: Arith<V>, g: string, k: nat, r: string, level: nat, p: nat)
    requires level <= 2 && Exposed(g, k, level) && r != "" && IsSign(r[0])
    requires SplitOf(g + r, level) == Some(p) && |g| < p < |g + r|
    ensures ParseAt(ops, g + r, level).Err?
    decreases |g| + |r|, 3 - level, 0
  {
    var u := TrimEnd(r[..p - |g|]);
    LeftOperand(g, r, p);
    if level == 2 {
      PowerIsLater(g, k, r, p);
      Rejected(ops, g, k, u, 3);
    } else {
      Rejected(ops, g, k, u, level);
    }
    OperandErr(ops, g + r, level, p, g + u, Trim((g + r)[p + 1..]));
  }

  /** The first `^` lies behind the sign, so no operator is before the mark. */
  lemma PowerIsLater(g: string, k: nat, r: string, p: nat)
    requires Exposed(g, k, 2) && FirstOp(Powers, g + r) == Some(p) && p > |g|
    ensures Exposed(g, k, 3)
  {
    assert (g + r)[..|g|] == g;
    if |g| > 1 {
      OpInPrefix(Powers, g + r, |g|, k);
    }
  }

  lemma {:induction false} RejectedRight<V>(ops: Arith<V>, g: string, k: nat, r: string, level: nat, p: nat)
    requires level <= 2 && Exposed(g, k, level) && r != "" && IsSign(r[0])
    requires SplitOf(g + r, level) == Some(p) && |g| > 1 && p <= k && OpAt(TierOf(level), g, p)
    ensures ParseAt(ops, g + r, level).Err?
    decreases |g| + |r|, 3 - level, 0
  {
    var next := if level == 2 then 2 else level + 1;
    NextSplits(g, k, r, level, p);
    var a := RightOperand(g, k, r, p, level, next);
    TrimEndAfter(g, r);
    Rejected(ops, g[a..], if a <= k then k - a else 0, TrimEnd(r), next);
    OperandErr(ops, g + r, level, p, Trim((g + r)[..p]), g[a..] + TrimEnd(r));
  }

  /** An operator between the split and the mark binds tighter. */
  lemma NextSplits(g: string, k: nat, r: string, level: nat, p: nat)
    requires level <= 2 && Exposed(g, k, level) && |g| > 1 && SplitOf(g + r, level) == Some(p) && p <= k
    ensures p < k ==> Splits(g, k, if level == 2 then 2 else level + 1)
  {
    assert (g + r)[..|g|] == g;
    if p < k && level < 2 {
      OpInPrefix(TierOf(level), g + r, |g|, k);
    }
  }

  /** The constant `e` directly before a sign at the start of a text, whatever follows. */
  lemma {:induction false} ExponentLookalikeRejected<V>(ops: Arith<V>, s: string)
    requires |s| >= 2 && IsExponentMark(s[0]) && IsSign(s[1])
    ensures EvalExpression(ops, s).Err?
  {
    var t := Trim(s);
    TrimPair(s);
    assert t[0] == s[..2][0] && t[1] == s[..2][1];
    LookalikeIsNothing(ops, t);
    assert t[..1] + t[1..] == t;
    Rejected(ops, t[..1], 0, t[1..], 0);
    SumsOnly(ops, s, t);
  }

  // ----- printed trees -----

  lemma {:induction false} MisreadRejected<V>(ops: Arith<V>, s: string)
    requires Misread(s)
    ensures ParseAdditive(ops, s).Err?
  {
    var n: nat, k: nat :| n < |s| && IsSign(s[n]) && Exposed(s[..n], k, 0);
    assert s[..n] + s[n..] == s;
    Rejected(ops, s[..n], k, s[n..], 0);
  }

  lemma MisreadHere(s: string, n: nat, k: nat)
    requires n < |s| && IsSign(s[n]) && Exposed(s[..n], k, 0)
    ensures Misread(s)
  {
  }

  lemma MisreadBefore(s: string, rest: string)
    requires Misread(s)
    ensures Misread(s + rest)
  {
    var n: nat, k: nat :| n < |s| && IsSign(s[n]) && Exposed(s[..n], k, 0);
    assert (s + rest)[..n] == s[..n];
    MisreadHere(s + rest, n, k);
  }

  /** The text ends in the operator at `o` and blanks. */
  predicate OperatorEnds(t: string, o: nat) {
    o < |t| && !IsSpace(t[0]) && DepthAt(t, |t|) == 0 && Splits(t, o, 0) && forall i :: o < i < |t| ==> IsSpace(t[i])
  }

  lemma {:induction false} SplitsBehind(t: string, g: string, k: nat)
    requires DepthAt(t, |t|) == 0 && k < |g| && Splits(g, k, 0)
    ensures Splits(t + g, |t| + k, 0)
  {
    var s := t + g;
    assert s[|t|..] == g && s[..|t|] == t;
    DepthOfPrefix(s, |t|, |t|);
    if OpAt(Sums, g, k) {
      OpInSuffix(Sums, s, |t|, |t| + k);
    }
    OpInSuffix(Products, s, |t|, |t| + k);
    OpInSuffix(Powers, s, |t|, |t| + k);
  }

  lemma SplitsBefore(t: string, g: string, o: nat)
    requires o < |t| && Splits(t, o, 0)
    ensures Splits(t + g, o, 0)
  {
    var s := t + g;
    assert s[..|t|] == t;
    OpInPrefix(Sums, s, |t|, o);
    OpInPrefix(Products, s, |t|, o);
    OpInPrefix(Powers, s, |t|, o);
  }

  lemma {:induction false} MarkEndsBehind(t: string, g: string)
    requires t != "" && !IsSpace(t[0]) && DepthAt(t, |t|) == 0 && MarkEnds(g)
    ensures MarkEnds(t + g)
  {
    DepthOfConcat(t, g, |t| + |g| - 1);
    assert (t + g)[|t| + |g| - 1] == g[|g| - 1] && (t + g)[0] == t[0];
  }

  lemma BlankBehind(t: string, g: string, o: nat, k: nat)
    requires o < |t| && (forall i :: o < i < |t| ==> IsSpace(t[i])) && g != "" && BlankAfter(g, k)
    ensures BlankAfter(t + g, |t| + k) && (|g| == 1 ==> BlankAfter(t + g, o))
  {
    assert forall i :: |t| <= i < |t + g| ==> (t + g)[i] == g[i - |t|];
  }

  /** Behind an operator, an exposed mark stays exposed. */
  lemma ExposedBehind(t: string, o: nat, g: string, k: nat) returns (k': nat)
    requires OperatorEnds(t, o) && Exposed(g, k, 0)
    ensures Exposed(t + g, k', 0)
  {
    MarkEndsBehind(t, g);
    if |g| == 1 {
      k' := o;
      SplitsBefore(t, g, o);
      BlankBehind(t, g, o, 0);
    } else {
      k' := |t| + k;
      SplitsBehind(t, g, k);
      BlankBehind(t, g, o, k);
    }
  }

  lemma MisreadBehind(t: string, o: nat, s: string)
    requires OperatorEnds(t, o) && Misread(s)
    ensures Misread(t + s)
  {
    var n: nat, k: nat :| n < |s| && IsSign(s[n]) && Exposed(s[..n], k, 0);
    var k' := ExposedBehind(t, o, s[..n], k);
    MisreadThere(t, s, n, k');
  }

  lemma MisreadThere(t: string, s: string, n: nat, k: nat)
    requires n < |s| && IsSign(s[n]) && Exposed(t + s[..n], k, 0)
    ensures Misread(t + s)
  {
    assert (t + s)[..|t| + n] == t + s[..n] && (t + s)[|t| + n] == s[n];
    MisreadHere(t + s, |t| + n, k);
  }

  /** A text that ends in an exponent mark is misread already, or the mark is exposed to what follows. */
  ghost predicate EndsOpen(s: string) {
    s != "" && IsExponentMark(s[|s| - 1]) ==> Misread(s) || exists k: nat :: Exposed(s, k, 0)
  }

  /** A separated operator is one at which its parser may split. */
  lemma {:induction false} OperatorSplits(l: string, before: string, op: Op, after: string)
    requires AtomEnds(l) && DepthAt(l, |l|) == 0 && Blank(before) && Blank(after) && Separated(l, op, before)
    ensures OperatorEnds(l + (before + [Symbol(op)] + after), |l| + |before|)
  {
    var mid := before + [Symbol(op)] + after;
    var t, o := l + mid, |l| + |before|;
    assert t + "" == t;
    InfixDepth(l, mid, "", o);
    InfixDepth(l, mid, "", |t|);
    assert t[0] == l[0] && t[o] == Symbol(op);
    assert t[o - 1] == if before == "" then l[|l| - 1] else before[|before| - 1];
    assert OpAt(TierOf(OpLevel(op)), t, o);
    assert forall i :: o < i < |t| ==> t[i] == after[i - o - 1];
  }

  lemma InfixMisread(l: string, before: string, op: Op, after: string, r: string)
    requires l != "" && EndsOpen(l) && !Separated(l, op, before)
    ensures Misread(Infix(l, before, Symbol(op), after, r))
  {
    var s := Infix(l, before, Symbol(op), after, r);
    var rest := (before + [Symbol(op)] + after) + r;
    assert s == l + rest;
    if Misread(l) {
      MisreadBefore(l, rest);
    } else {
      var k: nat :| Exposed(l, k, 0);
      assert s[..|l|] == l && s[|l|] == Symbol(op);
      MisreadHere(s, |l|, k);
    }
  }

  lemma OpenBehind(t: string, o: nat, r: string)
    requires OperatorEnds(t, o) && r != "" && EndsOpen(r)
    ensures EndsOpen(t + r)
  {
    assert (t + r)[|t + r| - 1] == r[|r| - 1];
    if Misread(r) {
      MisreadBehind(t, o, r);
    } else if k: nat :| Exposed(r, k, 0) {
      var k' := ExposedBehind(t, o, r, k);
    }
  }

  lemma {:induction false} InfixEndsOpen(l: string, before: string, op: Op, after: string, r: string)
    requires AtomEnds(l) && DepthAt(l, |l|) == 0 && Blank(before) && Blank(after) && r != ""
    requires EndsOpen(l) && EndsOpen(r)
    ensures EndsOpen(Infix(l, before, Symbol(op), after, r))
  {
    if Separated(l, op, before) {
      OperatorSplits(l, before, op, after);
      OpenBehind(l + (before + [Symbol(op)] + after), |l| + |before|, r);
    } else {
      InfixMisread(l, before, op, after, r);
    }
  }

  lemma LiteralEnds(t: string)
    requires IsNumber(t) || IsFloatWord(Lower(t))
    ensures t != "" && !IsExponentMark(t[|t| - 1])
  {
    if IsNumber(t) {
      NumberLast(t);
    } else {
      assert Lower(t)[|t| - 1] == LowerChar(t[|t| - 1]);
    }
  }

  lemma NumberLast(t: string)
    requires IsNumber(t)
    ensures t != "" && (IsDigit(t[|t| - 1]) || t[|t| - 1] == '.')
  {
    var m := MantissaLength(t);
    if m < |t| {
      ExponentChars(t[m + 1..]);
    } else {
      MantissaChars(t, m - 1);
    }
  }

  lemma ConstantEnds(n: string)
    requires Lower(n) == "pi" || Lower(n) == "e" || Lower(n) == "tau"
    ensures n != "" && (IsExponentMark(n[|n| - 1]) ==> Exposed(n, 0, 0))
  {
    assert Lower(n)[|n| - 1] == LowerChar(n[|n| - 1]);
  }

  lemma {:induction false} TreeEndsOpen(e: Expr, level: nat)
    requires Grammatical(e)
    ensures EndsOpen(Print(e, level))
    decreases e
  {
    if Level(e) >= level {
      match e {
        case Lit(t) =>
          LiteralEnds(t);
        case Const(n) =>
          ConstantEnds(n);
        case Neg(_) =>
        case Plus(_) =>
        case Log10(_) =>
        case Bin(op, l, before, after, r) =>
          PrintShape(l, LeftLevel(op));
          PrintShape(r, RightLevel(op));
          TreeEndsOpen(l, LeftLevel(op));
          TreeEndsOpen(r, RightLevel(op));
          InfixEndsOpen(Print(l, LeftLevel(op)), before, op, after, Print(r, RightLevel(op)));
      }
    }
  }

  /** A misread text is no number and no constant. */
  lemma {:induction false} MisreadIsNoName<V>(ops: Arith<V>, s: string)
    requires AtomEnds(s) && Misread(s)
    ensures !IsFloat(s) && Constant(ops, s).None?
  {
    var n: nat, k: nat :| n < |s| && IsSign(s[n]) && Exposed(s[..n], k, 0);
    NotLetterNoConstant(ops, s, n);
    if n == 1 {
      LookalikeIsNoNumber(s);
    } else {
      OperatorIsNoFloat(s, n, k);
    }
  }

  lemma OperatorIsNoFloat(s: string, n: nat, k: nat)
    requires AtomEnds(s) && k < n <= |s| && Splits(s[..n], k, 0)
    ensures !IsFloat(s)
  {
    OpInPrefix(Sums, s, n, k);
    OpInPrefix(Products, s, n, k);
    OpInPrefix(Powers, s, n, k);
    assert !FloatCharAt(s, k) && k > 0;
    if IsFloat(s) {
      FloatChars(s, k);
    }
  }

  /** Every parser rejects the text of a tree in which a sum's operator directly follows an `e`. */
  lemma {:induction false} UnspacedRejected<V>(ops: Arith<V>, e: Expr, level: nat)
    requires Grammatical(e) && !Spaced(e) && level <= 3
    ensures ParseAt(ops, Print(e, level), level).Err?
    decreases e, 2
  {
    UnspacedBody(ops, e);
    BodyShape(e);
    LowerLevels(ops, Body(e), Level(e));
    if Level(e) < level {
      ParseParens(ops, Body(e), level);
    }
  }

  lemma {:induction false} UnspacedBody<V>(ops: Arith<V>, e: Expr)
    requires Grammatical(e) && !Spaced(e)
    ensures ParseAt(ops, Body(e), Level(e)).Err?
    decreases e, 1
  {
    match e {
      case Neg(x) =>
        UnspacedOperand(ops, "-", x);
      case Plus(x) =>
        UnspacedOperand(ops, "+", x);
      case Log10(x) =>
        UnspacedEvaluates(ops, x);
        BodyShape(e);
        FallThrough(ops, Body(e), 3);
        PrimaryOfCall(ops, Print(x, 0));
      case Bin(op, l, before, after, r) =>
        var a, b := Print(l, LeftLevel(op)), Print(r, RightLevel(op));
        PrintShape(l, LeftLevel(op));
        PrintShape(r, RightLevel(op));
        if !Separated(a, op, before) {
          UnseparatedMisread(e);
          MisreadRejected(ops, Body(e));
        } else {
          if !Spaced(l) {
            UnspacedRejected(ops, l, LeftLevel(op));
          } else {
            UnspacedRejected(ops, r, RightLevel(op));
          }
          ParseInfix(ops, a, before, op, after, b);
        }
    }
  }

  lemma {:induction false} UnspacedOperand<V>(ops: Arith<V>, sign: string, x: Expr)
    requires Grammatical(x) && !Spaced(x) && (sign == "-" || sign == "+")
    ensures ParseAt(ops, "(" + (sign + Print(x, 3)) + ")", 3).Err?
    decreases x, 3
  {
    var p := Print(x, 3);
    UnspacedRejected(ops, x, 3);
    PrintShape(x, 3);
    FallThrough(ops, p, 3);
    ParseSigned(ops, p);
    SignedBalanced(sign, p);
    ParseParens(ops, sign + p, 3);
  }

  lemma {:induction false} UnspacedTop<V>(ops: Arith<V>, e: Expr)
    requires Grammatical(e) && !Spaced(e)
    ensures AtomEnds(Print(e, 0)) && CallPattern(Print(e, 0)).None?
    ensures !IsFloat(Print(e, 0)) && Constant(ops, Print(e, 0)).None?
  {
    PrintHead(e, 0);
    PrintEnds(e);
    if e.Bin? && !Separated(Print(e.left, LeftLevel(e.op)), e.op, e.before) {
      UnseparatedMisread(e);
      MisreadIsNoName(ops, Print(e, 0));
    } else {
      CompoundIsNoName(ops, e);
    }
  }

  lemma {:induction false} UnseparatedMisread(e: Expr)
    requires Grammatical(e) && e.Bin? && !Separated(Print(e.left, LeftLevel(e.op)), e.op, e.before)
    ensures Misread(Body(e))
  {
    var l := Print(e.left, LeftLevel(e.op));
    PrintShape(e.left, LeftLevel(e.op));
    TreeEndsOpen(e.left, LeftLevel(e.op));
    InfixMisread(l, e.before, e.op, e.after, Print(e.right, RightLevel(e.op)));
  }

  lemma {:induction false} UnspacedEvaluates<V>(ops: Arith<V>, e: Expr)
    requires Grammatical(e) && !Spaced(e)
    ensures EvalExpression(ops, Print(e, 0)).Err?
    decreases e, 3
  {
    UnspacedTop(ops, e);
    UnspacedRejected(ops, e, 0);
    SumRejected(ops, Print(e, 0));
  }

  lemma {:induction false} SumRejected<V>(ops: Arith<V>, s: string)
    requires AtomEnds(s) && CallPattern(s).None? && !IsFloat(s) && Constant(ops, s).None?
    requires ParseAt(ops, s, 0).Err?
    ensures EvalExpression(ops, s).Err?
  {
    TrimSelf(s);
    SumsOnly(ops, s, s);
  }

  /** Exactly when a printed tree has a value: no sum's operator directly follows an `e`, and nothing
      is divided by zero. The value is then that of the tree. */
  lemma {:induction false} EvaluatesIff<V>(ops: Arith<V>, before: string, e: Expr, after: string)
    requires Grammatical(e) && Blank(before) && Blank(after)
    ensures var r := EvalExpression(ops, before + Print(e, 0) + after);
      && (r.Ok? <==> Spaced(e) && !DividesByZero(ops, e))
      && (r.Ok? ==> r == Value(ops, e))
  {
    if Spaced(e) {
      EvaluateRoundTrip(ops, before, e, after);
    } else {
      PrintEnds(e);
      EvaluateTrims(ops, before + Print(e, 0) + after, before, Print(e, 0), after);
      UnspacedEvaluates(ops, e);
    }
  }
}
