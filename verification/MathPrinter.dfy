/**
 Printing an expression tree and evaluating the text gives the tree's value.

 The printer follows the grammar the evaluator really accepts: `+ - * / %` associate to the
 left, `^` to the right, parentheses appear only where precedence needs them, and a signed operand
 is always parenthesised with its sign directly after the opening parenthesis. A constant `e` must
 not stand directly before `+` or `-`, which the evaluator would take for the sign of an exponent.
 */
module MathPrinter {
  import opened Ascii
  import opened Wrappers
  import opened MathEval

  datatype Op = Add | Sub | Mul | Div | Rem | Pow

  /** Expression trees. An operation also says what blanks stand before and after its operator. */
  datatype Expr =
    | Lit(text: string)
    | Const(name: string)
    | Neg(operand: Expr)
    | Plus(operand: Expr)
    | Log10(operand: Expr)
    | Bin(op: Op, left: Expr, before: string, after: string, right: Expr)

  predicate Blank(ws: string) {
    forall i :: 0 <= i < |ws| ==> IsSpace(ws[i])
  }

  /** Literals are unsigned numbers, constants are known by name in any case, and blanks are blank. */
  predicate Grammatical(e: Expr) {
    match e
    case Lit(t) => IsNumber(t) || IsFloatWord(Lower(t))
    case Const(n) => Lower(n) == "pi" || Lower(n) == "e" || Lower(n) == "tau"
    case Neg(x) => Grammatical(x)
    case Plus(x) => Grammatical(x)
    case Log10(x) => Grammatical(x)
    case Bin(_, l, before, after, r) => Grammatical(l) && Blank(before) && Blank(after) && Grammatical(r)
  }

  /** No `e` stands directly before `+` or `-`. */
  predicate Spaced(e: Expr) {
    match e
    case Lit(_) => true
    case Const(_) => true
    case Neg(x) => Spaced(x)
    case Plus(x) => Spaced(x)
    case Log10(x) => Spaced(x)
    case Bin(op, l, before, _, r) => Spaced(l) && Spaced(r) && Separated(Print(l, LeftLevel(op)), op, before)
  }

  predicate WellFormed(e: Expr) {
    Grammatical(e) && Spaced(e)
  }

  /** A sum's operator does not directly follow an exponent mark. */
  predicate Separated(l: string, op: Op, before: string) {
    OpLevel(op) == 0 && before == "" && l != "" ==> !IsExponentMark(l[|l| - 1])
  }

  /** One operation on two evaluated operands, the left error first. */
  function Combine<V>(ops: Arith<V>, op: Op, x: Result<V, EvalError>, y: Result<V, EvalError>): Result<V, EvalError> {
    var a :- x;
    var b :- y;
    match op
    case Add => Ok(ops.add(a, b))
    case Sub => Ok(ops.sub(a, b))
    case Mul => Ok(ops.mul(a, b))
    case Div => if ops.isZero(b) then Err(DivisionByZero) else Ok(ops.div(a, b))
    case Rem => Ok(ops.rem(a, b))
    case Pow => Ok(ops.pow(a, b))
  }

  /** The meaning of a tree; the only failure is a division by zero. */
  function Value<V>(ops: Arith<V>, e: Expr): Result<V, EvalError> {
    match e
    case Lit(t) => Ok(ops.number(t))
    case Const(n) => Ok(if Lower(n) == "pi" then ops.pi else if Lower(n) == "tau" then ops.tau else ops.e)
    case Neg(x) =>
      var v :- Value(ops, x);
      Ok(ops.neg(v))
    case Plus(x) => Value(ops, x)
    case Log10(x) =>
      var v :- Value(ops, x);
      Ok(ops.single("log10", v))
    case Bin(op, l, _, _, r) => Combine(ops, op, Value(ops, l), Value(ops, r))
  }

  /** Some division in the tree has a divisor that evaluates to zero. */
  predicate DividesByZero<V>(ops: Arith<V>, e: Expr) {
    match e
    case Lit(_) => false
    case Const(_) => false
    case Neg(x) => DividesByZero(ops, x)
    case Plus(x) => DividesByZero(ops, x)
    case Log10(x) => DividesByZero(ops, x)
    case Bin(op, l, _, _, r) =>
      DividesByZero(ops, l) || DividesByZero(ops, r) ||
      (op == Div && Value(ops, r).Ok? && ops.isZero(Value(ops, r).value))
  }

  lemma {:induction false} ValueFailure<V>(ops: Arith<V>, e: Expr)
    ensures if DividesByZero(ops, e) then Value(ops, e) == Err(DivisionByZero) else Value(ops, e).Ok?
  {
    match e {
      case Lit(_) =>
      case Const(_) =>
      case Neg(x) =>
        ValueFailure(ops, x);
      case Plus(x) =>
        ValueFailure(ops, x);
      case Log10(x) =>
        ValueFailure(ops, x);
      case Bin(_, l, _, _, r) =>
        ValueFailure(ops, l);
        ValueFailure(ops, r);
    }
  }

  function Symbol(op: Op): char {
    match op
    case Add => '+' case Sub => '-' case Mul => '*' case Div => '/' case Rem => '%' case Pow => '^'
  }

  /** Precedence: 0 for sums, 1 for products, 2 for powers, 3 for atoms. */
  function OpLevel(op: Op): nat {
    match op
    case Add | Sub => 0
    case Mul | Div | Rem => 1
    case Pow => 2
  }

  function Level(e: Expr): nat {
    if e.Bin? then OpLevel(e.op) else 3
  }

  /** The level at which the left operand is printed: `^` needs an atom there. */
  function LeftLevel(op: Op): nat {
    if op == Pow then 3 else OpLevel(op)
  }

  function RightLevel(op: Op): nat {
    if op == Pow then 2 else OpLevel(op) + 1
  }

  function Infix(l: string, before: string, c: char, after: string, r: string): string {
    l + (before + [c] + after) + r
  }

  /** The text of a tree without enclosing parentheses. */
  function Body(e: Expr): string
    decreases e, 0
  {
    match e
    case Lit(t) => t
    case Const(n) => n
    case Neg(x) => "(" + ("-" + Print(x, 3)) + ")"
    case Plus(x) => "(" + ("+" + Print(x, 3)) + ")"
    case Log10(x) => "log10" + ("(" + Print(x, 0) + ")")
    case Bin(op, l, before, after, r) =>
      Infix(Print(l, LeftLevel(op)), before, Symbol(op), after, Print(r, RightLevel(op)))
  }

  /** The text of a tree where at least precedence `level` is required. */
  function Print(e: Expr, level: nat): string
    decreases e, 1
  {
    if Level(e) < level then "(" + Body(e) + ")" else Body(e)
  }

  // ----- depth and trimming under concatenation -----

  lemma {:induction false} DepthOfConcat(a: string, b: string, i: nat)
    requires i <= |a| + |b|
    ensures DepthAt(a + b, i) == if i <= |a| then DepthAt(a, i) else DepthAt(a, |a|) + DepthAt(b, i - |a|)
  {
    if i > 0 {
      DepthOfConcat(a, b, i - 1);
      assert (a + b)[i - 1] == if i <= |a| then a[i - 1] else b[i - 1 - |a|];
    }
  }

  lemma {:induction false} BlankDepth(s: string, i: nat)
    requires i <= |s|
    requires forall k :: 0 <= k < |s| ==> s[k] != '(' && s[k] != ')'
    ensures DepthAt(s, i) == 0
  {
    if i > 0 {
      BlankDepth(s, i - 1);
    }
  }

  lemma {:induction false} TrimStartBlank(ws: string, s: string)
    requires Blank(ws) && s != "" && !IsSpace(s[0])
    ensures TrimStart(ws + s) == s
  {
    if ws == "" {
      assert ws + s == s;
    } else {
      assert (ws + s)[1..] == ws[1..] + s;
      TrimStartBlank(ws[1..], s);
    }
  }

  lemma {:induction false} TrimEndBlank(s: string, ws: string)
    requires Blank(ws) && s != "" && !IsSpace(s[|s| - 1])
    ensures TrimEnd(s + ws) == s
  {
    if ws == "" {
      assert s + ws == s;
    } else {
      assert (s + ws)[..|s + ws| - 1] == s + ws[..|ws| - 1];
      TrimEndBlank(s, ws[..|ws| - 1]);
    }
  }

  lemma TrimPadded(before: string, s: string, after: string)
    requires Blank(before) && Blank(after)
    requires s != "" && !IsSpace(s[0]) && !IsSpace(s[|s| - 1])
    ensures Trim(before + s + after) == s
  {
    assert before + s + after == before + (s + after);
    assert (s + after)[0] == s[0];
    TrimStartBlank(before, s + after);
    TrimEndBlank(s, after);
  }

  lemma TrimSelf(s: string)
    requires s != "" && !IsSpace(s[0]) && !IsSpace(s[|s| - 1])
    ensures Trim(s) == s
  {
    TrimPadded("", s, "");
    assert "" + s + "" == s;
  }

  // ----- what every printed text looks like -----

  predicate StartsAtom(c: char) {
    IsDigit(c) || IsLetter(c) || c == '.' || c == '('
  }

  predicate EndsAtom(c: char) {
    IsDigit(c) || IsLetter(c) || c == '.' || c == ')'
  }

  predicate AtomEnds(s: string) {
    s != "" && StartsAtom(s[0]) && EndsAtom(s[|s| - 1])
  }

  /** Position `i` of `s` is no operator that binds looser than `level`. */
  predicate Quiet(s: string, i: int, level: nat)
    requires 0 <= i < |s|
  {
    (level >= 1 && IsSign(s[i]) ==> i > 0 && IsExponentMark(s[i - 1])) &&
    (level >= 2 ==> !IsProduct(s[i])) &&
    (level >= 3 ==> s[i] != '^')
  }

  ghost predicate Balanced(s: string) {
    DepthAt(s, |s|) == 0 && forall i :: 0 <= i <= |s| ==> DepthAt(s, i) >= 0
  }

  /** A balanced text that starts and ends like an atom and, outside parentheses, has only
      operators that bind at least as tightly as `level`. */
  ghost predicate Shape(s: string, level: nat) {
    AtomEnds(s) && Balanced(s) &&
    forall i :: 0 <= i < |s| && DepthAt(s, i) == 0 ==> Quiet(s, i, level)
  }

  /** The only characters of a name or literal are letters, digits, a point, and a sign after an exponent mark. */
  predicate NameCharAt(s: string, i: int)
    requires 0 <= i < |s|
  {
    IsDigit(s[i]) || s[i] == '.' || IsLetter(s[i]) ||
    (IsSign(s[i]) && i > 0 && IsExponentMark(s[i - 1]))
  }

  lemma {:induction false} DigitRunDigits(s: string, i: nat)
    requires i < DigitRun(s)
    ensures IsDigit(s[i])
  {
    if i > 0 {
      DigitRunDigits(s[1..], i - 1);
    }
  }

  lemma MantissaChars(s: string, i: nat)
    requires i < MantissaLength(s)
    ensures IsDigit(s[i]) || s[i] == '.'
  {
    var n := DigitRun(s);
    if i < n {
      DigitRunDigits(s, i);
    } else if i > n {
      DigitRunDigits(s[n + 1..], i - n - 1);
    }
  }

  lemma ExponentChars(x: string)
    requires IsExponent(x)
    ensures IsDigit(x[|x| - 1])
    ensures forall i :: 0 <= i < |x| ==> IsDigit(x[i]) || (i == 0 && IsSign(x[i]))
  {
    forall i | 0 <= i < |x|
      ensures IsDigit(x[i]) || (i == 0 && IsSign(x[i]))
    {
      if !IsSign(x[0]) {
        DigitRunDigits(x, i);
      } else if i > 0 {
        DigitRunDigits(x[1..], i - 1);
      }
    }
  }

  predicate IsWordChar(c: char) {
    IsDigit(c) || IsLetter(c) || c == '.'
  }

  /** The characters of a name or literal, and how it starts and ends. */
  ghost predicate NameLike(s: string) {
    s != "" && IsWordChar(s[0]) && IsWordChar(s[|s| - 1]) && forall i :: 0 <= i < |s| ==> NameCharAt(s, i)
  }

  /** Words of letters only. */
  lemma LettersLike(s: string)
    requires s != "" && forall i :: 0 <= i < |s| ==> IsLetter(s[i])
    ensures NameLike(s)
  {
    forall i | 0 <= i < |s|
      ensures NameCharAt(s, i)
    {
    }
  }

  lemma LowerLetters(s: string)
    requires forall i :: 0 <= i < |s| ==> 'a' <= Lower(s)[i] <= 'z'
    ensures forall i :: 0 <= i < |s| ==> IsLetter(s[i])
  {
    forall i | 0 <= i < |s|
      ensures IsLetter(s[i])
    {
      assert Lower(s)[i] == LowerChar(s[i]);
    }
  }

  lemma NumberEnds(s: string)
    requires IsNumber(s)
    ensures NameLike(s)
  {
    var m := MantissaLength(s);
    if m < |s| {
      ExponentChars(s[m + 1..]);
    }
    MantissaChars(s, 0);
    forall i | 0 <= i < |s|
      ensures NameCharAt(s, i) && (i == |s| - 1 ==> IsDigit(s[i]) || s[i] == '.')
    {
      if i < m {
        MantissaChars(s, i);
      } else if i > m {
        assert s[i] == s[m + 1..][i - m - 1];
      }
    }
  }

  lemma NameShape(s: string)
    requires NameLike(s)
    ensures Shape(s, 3)
  {
    forall i | 0 <= i < |s|
      ensures s[i] != '(' && s[i] != ')' && Quiet(s, i, 3)
    {
      assert NameCharAt(s, i);
    }
    forall i | 0 <= i <= |s|
      ensures DepthAt(s, i) == 0
    {
      BlankDepth(s, i);
    }
  }

  lemma ParenShape(s: string)
    requires Balanced(s)
    ensures Shape("(" + s + ")", 3)
  {
    var p := "(" + s + ")";
    forall i | 0 <= i <= |p|
      ensures DepthAt(p, i) == if i == 0 || i == |p| then 0 else 1 + DepthAt(s, i - 1)
    {
      DepthOfConcat("(" + s, ")", i);
      if i <= |s| + 1 {
        DepthOfConcat("(", s, i);
      } else {
        DepthOfConcat("(", s, |s| + 1);
      }
    }
  }

  lemma SignedBalanced(sign: string, p: string)
    requires Balanced(p) && (sign == "-" || sign == "+")
    ensures Balanced(sign + p)
  {
    forall i | 0 <= i <= |p| + 1
      ensures DepthAt(sign + p, i) == if i == 0 then 0 else DepthAt(p, i - 1)
    {
      DepthOfConcat(sign, p, i);
    }
  }

  /** A call is as tight as its parenthesised argument. */
  lemma CallShape(p: string)
    requires Shape(p, 3) && p[0] == '('
    ensures Shape("log10" + p, 3)
  {
    var w := "log10";
    var s := w + p;
    forall i | 0 <= i <= |s|
      ensures DepthAt(s, i) == if i <= 5 then 0 else DepthAt(p, i - 5)
      ensures i < |s| && DepthAt(s, i) == 0 ==> Quiet(s, i, 3)
    {
      DepthOfConcat(w, p, i);
      BlankDepth(w, if i <= 5 then i else 5);
      if i < 5 {
        assert s[i] == w[i];
      } else if i < |s| {
        assert s[i] == p[i - 5] && (i > 5 ==> s[i - 1] == p[i - 6]);
      }
    }
  }

  lemma LiteralLike(t: string)
    requires IsNumber(t) || IsFloatWord(Lower(t))
    ensures NameLike(t)
  {
    if IsNumber(t) {
      NumberEnds(t);
    } else {
      LowerLetters(t);
      LettersLike(t);
    }
  }

  lemma ConstantLike(n: string)
    requires Lower(n) == "pi" || Lower(n) == "e" || Lower(n) == "tau"
    ensures NameLike(n) && IsLetter(n[0])
  {
    LowerLetters(n);
    LettersLike(n);
  }

  /** Depth inside an infix text: that of the operand around position `i`, zero in between. */
  lemma InfixDepth(l: string, mid: string, r: string, i: nat)
    requires DepthAt(l, |l|) == 0 && i <= |l| + |mid| + |r|
    requires forall k :: 0 <= k < |mid| ==> mid[k] != '(' && mid[k] != ')'
    ensures DepthAt(l + mid + r, i) ==
            if i <= |l| then DepthAt(l, i)
            else if i <= |l| + |mid| then 0
            else DepthAt(r, i - |l| - |mid|)
  {
    DepthOfConcat(l + mid, r, i);
    if i <= |l| + |mid| {
      DepthOfConcat(l, mid, i);
    } else {
      DepthOfConcat(l, mid, |l| + |mid|);
      BlankDepth(mid, |mid|);
    }
    if |l| < i <= |l| + |mid| {
      BlankDepth(mid, i - |l|);
    }
  }

  lemma InfixShape(l: string, before: string, op: Op, after: string, r: string)
    requires Blank(before) && Blank(after) && Shape(l, LeftLevel(op)) && Shape(r, RightLevel(op))
    ensures Shape(Infix(l, before, Symbol(op), after, r), OpLevel(op))
  {
    var mid := before + [Symbol(op)] + after;
    var s := l + mid + r;
    forall i | 0 <= i <= |s|
      ensures DepthAt(s, i) >= 0
      ensures i < |s| && DepthAt(s, i) == 0 ==> Quiet(s, i, OpLevel(op))
    {
      InfixDepth(l, mid, r, i);
      if |l| < i < |l| + |mid| {
        assert s[i] == mid[i - |l|];
      } else if |l| + |mid| <= i < |s| {
        var k := i - |l| - |mid|;
        assert s[i] == r[k] && (k > 0 ==> s[i - 1] == r[k - 1]);
        InfixDepth(l, mid, r, i);
      }
    }
    InfixDepth(l, mid, r, |s|);
  }

  lemma SignedShape(sign: string, p: string)
    requires Shape(p, 3) && (sign == "-" || sign == "+")
    ensures Shape("(" + (sign + p) + ")", 3)
  {
    SignedBalanced(sign, p);
    ParenShape(sign + p);
  }

  lemma LowerShape(s: string, own: nat, level: nat)
    requires Shape(s, own) && level <= own
    ensures Shape(s, level)
  {
  }

  lemma {:induction false} BodyShape(e: Expr)
    requires Grammatical(e)
    ensures Shape(Body(e), Level(e))
    decreases e, 0
  {
    match e {
      case Lit(t) =>
        LiteralLike(t);
        NameShape(t);
      case Const(n) =>
        ConstantLike(n);
        NameShape(n);
      case Neg(x) =>
        PrintShape(x, 3);
        SignedShape("-", Print(x, 3));
      case Plus(x) =>
        PrintShape(x, 3);
        SignedShape("+", Print(x, 3));
      case Log10(x) =>
        PrintShape(x, 0);
        ParenShape(Print(x, 0));
        CallShape("(" + Print(x, 0) + ")");
      case Bin(op, l, before, after, r) =>
        PrintShape(l, LeftLevel(op));
        PrintShape(r, RightLevel(op));
        InfixShape(Print(l, LeftLevel(op)), before, op, after, Print(r, RightLevel(op)));
    }
  }

  lemma {:induction false} PrintShape(e: Expr, level: nat)
    requires Grammatical(e) && level <= 3
    ensures Shape(Print(e, level), level)
    decreases e, 1
  {
    BodyShape(e);
    if Level(e) < level {
      ParenShape(Body(e));
      LowerShape(Print(e, level), 3, level);
    } else {
      LowerShape(Body(e), Level(e), level);
    }
  }

  lemma {:induction false} PrintEnds(e: Expr)
    requires Grammatical(e)
    ensures AtomEnds(Print(e, 0))
  {
    PrintShape(e, 0);
  }

  // ----- each parser inverts the printer at its own level -----

  /** A text with no operator of a tier outside parentheses goes straight to the next parser. */
  lemma {:induction false} FallThrough<V>(ops: Arith<V>, s: string, level: nat)
    requires Shape(s, level) && 1 <= level <= 3
    ensures ParseAdditive(ops, s) == ParseMultiplicative(ops, s)
    ensures level >= 2 ==> ParseMultiplicative(ops, s) == ParsePower(ops, s)
    ensures level >= 3 ==> ParsePower(ops, s) == ParseUnary(ops, s)
    ensures level >= 3 ==> ParseUnary(ops, s) == ParsePrimary(ops, s)
  {
    assert forall i :: 0 <= i < |s| && DepthAt(s, i) == 0 ==> Quiet(s, i, level);
    assert LastOp(Sums, s).None?;
    TrimSelf(s);
  }

  lemma {:induction false} PrimaryOfParens<V>(ops: Arith<V>, s: string)
    ensures ParsePrimary(ops, "(" + s + ")") == ParseAdditive(ops, s)
  {
    var p := "(" + s + ")";
    TrimSelf(p);
    assert p[1..|p| - 1] == s;
  }

  /** What starts with a digit, a point or a parenthesis. */
  predicate StartsUnnamed(c: char) {
    IsDigit(c) || c == '.' || c == '('
  }

  /** A text that does not start with a name is neither a call nor a named constant. */
  lemma {:induction false} NotANamedForm<V>(ops: Arith<V>, s: string)
    requires s != "" && StartsUnnamed(s[0])
    ensures CallPattern(s).None? && SingleCall(s).None? && Constant(ops, s).None?
  {
    NoSingleCall(s, 0);
    assert Lower(s)[0] == s[0];
  }

  lemma NameHasNoParens(s: string)
    requires NameLike(s)
    ensures '(' !in s
  {
    forall i | 0 <= i < |s|
      ensures s[i] != '('
    {
      assert NameCharAt(s, i);
    }
  }

  lemma {:induction false} NoParensNoCall(s: string, k: nat)
    requires '(' !in s && k <= |SINGLE_ARGUMENT|
    ensures CallPattern(s).None? && SingleCall(s, k).None?
    decreases |SINGLE_ARGUMENT| - k
  {
    if k < |SINGLE_ARGUMENT| {
      var prefix := SINGLE_ARGUMENT[k] + "(";
      assert prefix[|prefix| - 1] == '(';
      NoParensNoCall(s, k + 1);
    }
  }

  /** A name or number by itself is a constant or a literal. */
  lemma {:induction false} PrimaryOfName<V>(ops: Arith<V>, s: string)
    requires NameLike(s)
    ensures Constant(ops, s).Some? ==> ParsePrimary(ops, s) == Ok(Constant(ops, s).value)
    ensures Constant(ops, s).None? && IsFloat(s) ==> ParsePrimary(ops, s) == Ok(ops.number(s))
  {
    TrimSelf(s);
    NameHasNoParens(s);
    NoParensNoCall(s, 0);
  }

  lemma LiteralIsNoConstant<V>(ops: Arith<V>, t: string)
    requires IsNumber(t) || IsFloatWord(Lower(t))
    ensures Constant(ops, t).None? && IsFloat(t)
  {
    if IsNumber(t) {
      MantissaChars(t, 0);
      assert Lower(t)[0] == t[0];
    }
  }

  lemma {:induction false} ConstantIs<V>(ops: Arith<V>, n: string)
    requires WellFormed(Const(n))
    ensures Some(Value(ops, Const(n))) == Some(Ok(Constant(ops, n).value)) && Constant(ops, n).Some? && !IsFloat(n)
  {
    ConstantLike(n);
  }

  lemma {:induction false} NoSingleCall(s: string, k: nat)
    requires s != "" && !('a' <= s[0] <= 'z') && k <= |SINGLE_ARGUMENT|
    ensures SingleCall(s, k).None?
    decreases |SINGLE_ARGUMENT| - k
  {
    if k < |SINGLE_ARGUMENT| {
      assert 'a' <= SINGLE_ARGUMENT[k][0] <= 'z';
      NoSingleCall(s, k + 1);
    }
  }

  /** The operands recovered on either side of an infix operator. */
  lemma InfixOperands(l: string, before: string, c: char, after: string, r: string)
    requires Blank(before) && Blank(after) && AtomEnds(l) && AtomEnds(r)
    ensures var s, p := Infix(l, before, c, after, r), |l| + |before|;
      p < |s| && s[p] == c && Trim(s[..p]) == l && Trim(s[p + 1..]) == r
  {
    var s, p := Infix(l, before, c, after, r), |l| + |before|;
    assert s[..p] == "" + l + before;
    TrimPadded("", l, before);
    assert s[p + 1..] == after + r + "";
    TrimPadded(after, r, "");
  }

  /** The operator printed between two operands is where the parser of its tier splits. */
  lemma InfixSplit(l: string, before: string, op: Op, after: string, r: string)
    requires Blank(before) && Blank(after) && Shape(l, LeftLevel(op)) && Shape(r, RightLevel(op))
    requires Separated(l, op, before)
    ensures var s := Infix(l, before, Symbol(op), after, r);
      match OpLevel(op)
      case 0 => LastOp(Sums, s) == Some(|l| + |before|)
      case 1 => LastOp(Products, s) == Some(|l| + |before|)
      case _ => FirstOp(Powers, s) == Some(|l| + |before|)
  {
    var mid := before + [Symbol(op)] + after;
    var s, p := l + mid + r, |l| + |before|;
    var tier := match OpLevel(op) case 0 => Sums case 1 => Products case _ => Powers;
    assert OpAt(tier, s, p) by {
      InfixDepth(l, mid, r, p);
      assert s[p] == Symbol(op);
      assert s[p - 1] == if before == "" then l[|l| - 1] else before[|before| - 1];
    }
    forall i | 0 <= i < |s| && (if op == Pow then i < p else p < i)
      ensures !OpAt(tier, s, i)
    {
      InfixDepth(l, mid, r, i);
      if i < |l| {
        assert s[i] == l[i];
      } else if i < |l| + |mid| {
        assert s[i] == mid[i - |l|];
      } else {
        var k := i - |l| - |mid|;
        assert s[i] == r[k] && (k > 0 ==> s[i - 1] == r[k - 1]);
      }
    }
    if op == Pow {
      FirstOpUnique(tier, s, FirstOp(tier, s), Some(p));
    } else {
      LastOpUnique(tier, s, LastOp(tier, s), Some(p));
    }
  }

  lemma LastOpUnique(tier: Tier, s: string, p: Option<nat>, q: Option<nat>)
    requires IsLastOp(tier, s, p) && IsLastOp(tier, s, q)
    ensures p == q
  {
  }

  lemma FirstOpUnique(tier: Tier, s: string, p: Option<nat>, q: Option<nat>)
    requires IsFirstOp(tier, s, p) && IsFirstOp(tier, s, q)
    ensures p == q
  {
  }

  /** The parser of `level`, where 3 stands for `parse_unary`. */
  function ParseAt<V>(ops: Arith<V>, s: string, level: nat): Result<V, EvalError> {
    match level
    case 0 => ParseAdditive(ops, s)
    case 1 => ParseMultiplicative(ops, s)
    case 2 => ParsePower(ops, s)
    case _ => ParseUnary(ops, s)
  }

  lemma SplitAt<V>(ops: Arith<V>, s: string, p: nat, op: Op, l: string, r: string)
    requires p < |s| && s[p] == Symbol(op) && Trim(s[..p]) == l && Trim(s[p + 1..]) == r
    requires match OpLevel(op)
      case 0 => LastOp(Sums, s) == Some(p)
      case 1 => LastOp(Products, s) == Some(p)
      case _ => FirstOp(Powers, s) == Some(p)
    ensures ParseAt(ops, s, OpLevel(op)) ==
            Combine(ops, op, ParseAt(ops, l, LeftLevel(op)), ParseAt(ops, r, RightLevel(op)))
  {
  }

  /** An infix text evaluates its operands with the parsers of their own levels. */
  lemma ParseInfix<V>(ops: Arith<V>, l: string, before: string, op: Op, after: string, r: string)
    requires Blank(before) && Blank(after) && Shape(l, LeftLevel(op)) && Shape(r, RightLevel(op))
    requires Separated(l, op, before)
    ensures ParseAt(ops, Infix(l, before, Symbol(op), after, r), OpLevel(op)) ==
            Combine(ops, op, ParseAt(ops, l, LeftLevel(op)), ParseAt(ops, r, RightLevel(op)))
  {
    InfixSplit(l, before, op, after, r);
    InfixOperands(l, before, Symbol(op), after, r);
    SplitAt(ops, Infix(l, before, Symbol(op), after, r), |l| + |before|, op, l, r);
  }

  lemma {:induction false} ParseParens<V>(ops: Arith<V>, s: string, level: nat)
    requires Balanced(s) && level <= 3
    ensures ParseAt(ops, "(" + s + ")", level) == ParseAdditive(ops, s)
  {
    ParenShape(s);
    FallThrough(ops, "(" + s + ")", 3);
    PrimaryOfParens(ops, s);
  }

  lemma SignedHasNoOps(sign: string, p: string)
    requires Shape(p, 3) && (sign == "-" || sign == "+")
    ensures LastOp(Sums, sign + p).None? && LastOp(Products, sign + p).None? && FirstOp(Powers, sign + p).None?
  {
    var s := sign + p;
    forall i | 0 <= i < |s|
      ensures !OpAt(Sums, s, i) && !OpAt(Products, s, i) && !OpAt(Powers, s, i)
    {
      DepthOfConcat(sign, p, i);
      if i > 0 {
        assert s[i] == p[i - 1] && (i > 1 ==> s[i - 1] == p[i - 2]);
      }
    }
  }

  lemma {:induction false} NoOpsIsUnary<V>(ops: Arith<V>, s: string)
    requires LastOp(Sums, s).None? && LastOp(Products, s).None? && FirstOp(Powers, s).None?
    ensures ParseAdditive(ops, s) == ParseUnary(ops, s)
  {
    assert ParsePower(ops, s) == ParseUnary(ops, s);
    assert ParseMultiplicative(ops, s) == ParsePower(ops, s);
  }

  lemma {:induction false} UnarySign<V>(ops: Arith<V>, p: string)
    requires p != "" && !IsSpace(p[0]) && !IsSpace(p[|p| - 1])
    ensures ParseUnary(ops, "-" + p) ==
            var v :- ParsePrimary(ops, p);
            Ok(ops.neg(v))
    ensures ParseUnary(ops, "+" + p) == ParsePrimary(ops, p)
  {
    TrimSelf("-" + p);
    TrimSelf("+" + p);
    assert ("-" + p)[1..] == p && ("+" + p)[1..] == p;
    TrimSelf(p);
  }

  /** `-` directly followed by an atom negates it, and `+` leaves it as it is. */
  lemma {:induction false} ParseSigned<V>(ops: Arith<V>, p: string)
    requires Shape(p, 3)
    ensures ParseAdditive(ops, "-" + p) ==
            var v :- ParsePrimary(ops, p);
            Ok(ops.neg(v))
    ensures ParseAdditive(ops, "+" + p) == ParsePrimary(ops, p)
  {
    SignedHasNoOps("-", p);
    SignedHasNoOps("+", p);
    NoOpsIsUnary(ops, "-" + p);
    NoOpsIsUnary(ops, "+" + p);
    UnarySign(ops, p);
  }

  lemma {:induction false} CallNames(s: string, a: string)
    requires s == "log10" + ("(" + a + ")")
    ensures NameLength(s) == 3 && CallPattern(s).None? && SingleCall(s) == Some(("log10", a))
  {
    assert s[0] == 'l' && s[1] == 'o' && s[2] == 'g' && s[3] == '1' && s[4] == '0' && s[5] == '(';
    NameRun(s);
    SingleCallIs(s, 3, a, 0);
  }

  lemma Mismatch(p: string, s: string, k: nat)
    requires k < |p| && k < |s| && p[k] != s[k]
    ensures !(p <= s)
  {
  }

  lemma {:induction false} NameRun(s: string)
    requires |s| > 3 && s[0] == 'l' && s[1] == 'o' && s[2] == 'g' && s[3] == '1'
    ensures NameLength(s) == 3
  {
    assert NameLength(s[3..]) == 0;
    assert s[2..][1..] == s[3..];
    assert NameLength(s[2..]) == 1;
    assert s[1..][1..] == s[2..];
    assert NameLength(s[1..]) == 2;
  }

  /** The one-argument call that the pattern for named functions does not catch. */
  lemma {:induction false} PrimaryOfCall<V>(ops: Arith<V>, a: string)
    ensures ParsePrimary(ops, "log10" + ("(" + a + ")")) ==
            var v :- EvalExpression(ops, a);
            Ok(ops.single("log10", v))
  {
    var s := "log10" + ("(" + a + ")");
    TrimSelf(s);
    CallNames(s, a);
  }

  lemma {:induction false} BodyParse<V>(ops: Arith<V>, e: Expr)
    requires WellFormed(e)
    ensures ParseAt(ops, Body(e), Level(e)) == Value(ops, e)
    decreases e, 0
  {
    match e {
      case Lit(t) =>
        LiteralLike(t);
        LiteralIsNoConstant(ops, t);
        NameParse(ops, t);
      case Const(n) =>
        ConstantLike(n);
        ConstantIs(ops, n);
        NameParse(ops, n);
      case Neg(x) =>
        SignedParse(ops, "-", x);
        ParseParens(ops, "-" + Print(x, 3), 3);
      case Plus(x) =>
        SignedParse(ops, "+", x);
        ParseParens(ops, "+" + Print(x, 3), 3);
      case Log10(x) =>
        BodyShape(e);
        FallThrough(ops, Body(e), 3);
        EvaluatePrinted(ops, x);
        PrimaryOfCall(ops, Print(x, 0));
      case Bin(op, l, before, after, r) =>
        PrintShape(l, LeftLevel(op));
        PrintShape(r, RightLevel(op));
        PrintParse(ops, l, LeftLevel(op));
        PrintParse(ops, r, RightLevel(op));
        ParseInfix(ops, Print(l, LeftLevel(op)), before, op, after, Print(r, RightLevel(op)));
    }
  }

  lemma {:induction false} AtomParse<V>(ops: Arith<V>, x: Expr)
    requires WellFormed(x)
    ensures Shape(Print(x, 3), 3) && ParsePrimary(ops, Print(x, 3)) == Value(ops, x)
    decreases x, 2
  {
    PrintShape(x, 3);
    PrintParse(ops, x, 3);
    FallThrough(ops, Print(x, 3), 3);
  }

  /** A signed operand inside its parentheses. */
  lemma {:induction false} SignedParse<V>(ops: Arith<V>, sign: string, x: Expr)
    requires WellFormed(x) && (sign == "-" || sign == "+")
    ensures Balanced(sign + Print(x, 3)) && AtomEnds(Print(x, 3))
    ensures ParseAdditive(ops, sign + Print(x, 3)) == Value(ops, if sign == "-" then Neg(x) else Plus(x))
    decreases x, 3
  {
    AtomParse(ops, x);
    SignedValue(ops, sign, x, Print(x, 3));
  }

  lemma SignedValue<V>(ops: Arith<V>, sign: string, x: Expr, p: string)
    requires (sign == "-" || sign == "+") && Shape(p, 3) && ParsePrimary(ops, p) == Value(ops, x)
    ensures Balanced(sign + p) && AtomEnds(p)
    ensures ParseAdditive(ops, sign + p) == Value(ops, if sign == "-" then Neg(x) else Plus(x))
  {
    ParseSigned(ops, p);
    SignedBalanced(sign, p);
  }

  lemma {:induction false} PrintParse<V>(ops: Arith<V>, e: Expr, level: nat)
    requires WellFormed(e) && level <= 3
    ensures ParseAt(ops, Print(e, level), level) == Value(ops, e)
    decreases e, 1
  {
    BodyParse(ops, e);
    BodyShape(e);
    LowerLevels(ops, Body(e), Level(e));
    if Level(e) < level {
      ParseParens(ops, Body(e), level);
    }
  }

  lemma {:induction false} NameParse<V>(ops: Arith<V>, t: string)
    requires NameLike(t)
    ensures Constant(ops, t).Some? ==> ParseUnary(ops, t) == Ok(Constant(ops, t).value)
    ensures Constant(ops, t).None? && IsFloat(t) ==> ParseUnary(ops, t) == Ok(ops.number(t))
  {
    NameShape(t);
    FallThrough(ops, t, 3);
    PrimaryOfName(ops, t);
  }

  /** A text of `own` level reads the same with every parser of a looser level. */
  lemma LowerLevels<V>(ops: Arith<V>, s: string, own: nat)
    requires Shape(s, own) && own <= 3
    ensures forall level :: 0 <= level <= own ==> ParseAt(ops, s, level) == ParseAt(ops, s, own)
  {
    if own >= 1 {
      FallThrough(ops, s, own);
    }
  }

  // ----- texts that are no numbers -----

  ghost predicate FloatCharAt(s: string, i: int)
    requires 0 <= i < |s|
  {
    (IsSign(s[i]) ==> i > 0 && IsExponentMark(s[i - 1])) && !IsProduct(s[i]) && s[i] != '^' && s[i] != ')'
  }

  lemma FloatWordChars(t: string, k: int)
    requires IsFloatWord(Lower(t)) && 0 <= k < |t|
    ensures FloatCharAt(t, k)
  {
    assert Lower(t)[k] == LowerChar(t[k]);
  }

  lemma NumberCharsInFloat(t: string, k: int)
    requires NameLike(t) && 0 <= k < |t|
    ensures FloatCharAt(t, k)
  {
    assert NameCharAt(t, k);
  }

  lemma UnsignedFloatChars(t: string, k: int)
    requires (IsNumber(t) || IsFloatWord(Lower(t))) && 0 <= k < |t|
    ensures FloatCharAt(t, k)
  {
    if IsNumber(t) {
      NumberEnds(t);
      NumberCharsInFloat(t, k);
    } else {
      FloatWordChars(t, k);
    }
  }

  /** After its first character, a float's only sign follows the exponent mark. */
  lemma FloatChars(s: string, i: int)
    requires IsFloat(s) && 0 < i < |s|
    ensures FloatCharAt(s, i)
  {
    if IsSign(s[0]) {
      UnsignedFloatChars(s[1..], i - 1);
    } else {
      UnsignedFloatChars(s, i);
    }
  }

  predicate Compound(e: Expr) {
    !e.Lit? && !e.Const?
  }

  /** A compound text has a character, after its first, that no float and no name has there. */
  lemma ForeignPosition(e: Expr) returns (p: nat)
    requires Grammatical(e) && Compound(e)
    requires e.Bin? ==> Separated(Print(e.left, LeftLevel(e.op)), e.op, e.before)
    ensures 0 < p < |Body(e)| && !FloatCharAt(Body(e), p) && !IsLetter(Body(e)[p])
  {
    var s := Body(e);
    match e {
      case Neg(_) =>
        p := |s| - 1;
      case Plus(_) =>
        p := |s| - 1;
      case Log10(_) =>
        p := |s| - 1;
      case Bin(op, l, before, after, r) =>
        var a := Print(l, LeftLevel(op));
        PrintShape(l, LeftLevel(op));
        p := |a| + |before|;
        OperatorForeign(a, before, op, after, Print(r, RightLevel(op)));
    }
  }

  lemma OperatorForeign(l: string, before: string, op: Op, after: string, r: string)
    requires l != "" && Blank(before) && Separated(l, op, before)
    ensures var s, p := Infix(l, before, Symbol(op), after, r), |l| + |before|;
      0 < p < |s| && !FloatCharAt(s, p) && !IsLetter(s[p])
  {
    var s, p := Infix(l, before, Symbol(op), after, r), |l| + |before|;
    assert s[p] == Symbol(op);
    assert s[p - 1] == if before == "" then l[|l| - 1] else before[|before| - 1];
  }

  lemma {:induction false} CompoundIsNoName<V>(ops: Arith<V>, e: Expr)
    requires Grammatical(e) && Compound(e)
    requires e.Bin? ==> Separated(Print(e.left, LeftLevel(e.op)), e.op, e.before)
    ensures !IsFloat(Body(e)) && Constant(ops, Body(e)).None?
  {
    var p := ForeignPosition(e);
    if IsFloat(Body(e)) {
      FloatChars(Body(e), p);
    }
    NotLetterNoConstant(ops, Body(e), p);
  }

  lemma NotLetterNoConstant<V>(ops: Arith<V>, s: string, p: nat)
    requires p < |s| && !IsLetter(s[p])
    ensures Constant(ops, s).None?
  {
    assert Lower(s)[p] == LowerChar(s[p]);
  }

  // ----- no printed text is taken for a call -----

  /** The name at the start, if any, is not followed by a parenthesis. */
  predicate HeadIsNoCall(s: string) {
    var k := NameLength(s);
    k == 0 || k == |s| || s[k] != '('
  }

  predicate InName(c: char) {
    'a' <= c <= 'z' || c == '_'
  }

  lemma {:induction false} NameLengthConcat(l: string, rest: string)
    requires rest != "" && !InName(rest[0])
    ensures NameLength(l + rest) == NameLength(l)
  {
    if l == "" {
      assert l + rest == rest;
    } else {
      assert (l + rest)[1..] == l[1..] + rest;
      NameLengthConcat(l[1..], rest);
    }
  }

  lemma HeadOfConcat(l: string, rest: string)
    requires HeadIsNoCall(l) && rest != "" && !InName(rest[0]) && rest[0] != '('
    ensures HeadIsNoCall(l + rest)
  {
    NameLengthConcat(l, rest);
  }

  lemma HeadOfName(s: string)
    requires NameLike(s)
    ensures HeadIsNoCall(s)
  {
    NameHasNoParens(s);
  }

  lemma {:induction false} PrintHead(e: Expr, level: nat)
    requires Grammatical(e)
    ensures HeadIsNoCall(Print(e, level))
    decreases e
  {
    if Level(e) >= level {
      match e {
        case Lit(t) =>
          LiteralLike(t);
          HeadOfName(t);
        case Const(n) =>
          ConstantLike(n);
          HeadOfName(n);
        case Neg(_) =>
        case Plus(_) =>
        case Log10(x) =>
          CallNames(Body(e), Print(x, 0));
        case Bin(op, l, before, after, r) =>
          PrintHead(l, LeftLevel(op));
          HeadOfInfix(Print(l, LeftLevel(op)), before, op, after, Print(r, RightLevel(op)));
      }
    }
  }

  lemma {:induction false} HeadOfInfix(l: string, before: string, op: Op, after: string, r: string)
    requires HeadIsNoCall(l) && Blank(before)
    ensures HeadIsNoCall(Infix(l, before, Symbol(op), after, r))
  {
    var rest := (before + [Symbol(op)] + after) + r;
    assert Infix(l, before, Symbol(op), after, r) == l + rest;
    HeadOfConcat(l, rest);
  }

  // ----- the main theorem -----

  lemma {:induction false} TopOfTree<V>(ops: Arith<V>, e: Expr)
    requires WellFormed(e)
    ensures CallPattern(Print(e, 0)).None? && AtomEnds(Print(e, 0))
    ensures Compound(e) ==> !IsFloat(Print(e, 0)) && Constant(ops, Print(e, 0)).None?
  {
    PrintHead(e, 0);
    PrintEnds(e);
    if Compound(e) {
      CompoundIsNoName(ops, e);
    }
  }

  lemma {:induction false} EvaluatePrinted<V>(ops: Arith<V>, e: Expr)
    requires WellFormed(e)
    ensures EvalExpression(ops, Print(e, 0)) == Value(ops, e)
    decreases e, 3
  {
    TopOfTree(ops, e);
    TrimSelf(Print(e, 0));
    match e {
      case Lit(t) =>
        LiteralIsNoConstant(ops, t);
      case Const(n) =>
        ConstantIs(ops, n);
      case _ =>
        PrintParse(ops, e, 0);
        SumsOnly(ops, Print(e, 0), Print(e, 0));
    }
  }

  lemma {:induction false} EvaluateTrims<V>(ops: Arith<V>, text: string, before: string, s: string, after: string)
    requires Blank(before) && Blank(after) && s != "" && !IsSpace(s[0]) && !IsSpace(s[|s| - 1])
    requires text == before + s + after
    ensures EvalExpression(ops, text) == EvalExpression(ops, s)
  {
    TrimPadded(before, s, after);
    TrimSelf(s);
  }

  /** Printing any tree and evaluating the text, with any blanks around it, yields the value of the
      tree, or the division-by-zero error exactly when the tree divides by zero. */
  lemma {:induction false} EvaluateRoundTrip<V>(ops: Arith<V>, before: string, e: Expr, after: string)
    requires WellFormed(e) && Blank(before) && Blank(after)
    ensures var r := EvalExpression(ops, before + Print(e, 0) + after);
      && r == Value(ops, e)
      && (r.Err? <==> DividesByZero(ops, e))
      && (DividesByZero(ops, e) ==> r == Err(DivisionByZero))
  {
    ValueFailure(ops, e);
    EvaluatePadded(ops, before + Print(e, 0) + after, before, e, Print(e, 0), after);
  }

  lemma {:induction false} EvaluatePadded<V>(ops: Arith<V>, text: string, before: string, e: Expr, p: string,
      after: string)
    requires WellFormed(e) && Blank(before) && Blank(after) && p == Print(e, 0) && text == before + p + after
    ensures EvalExpression(ops, text) == Value(ops, e)
  {
    PrintEnds(e);
    EvaluatePrinted(ops, e);
    EvaluateTrims(ops, text, before, p, after);
  }

  lemma FloatLike(t: string)
    requires IsFloat(t)
    ensures t != "" && !IsSpace(t[0]) && !IsSpace(t[|t| - 1]) && '(' !in t
  {
    if t != "" && IsSign(t[0]) {
      LiteralLike(t[1..]);
      SignedLike(t);
    } else {
      LiteralLike(t);
      NameHasNoParens(t);
    }
  }

  lemma SignedLike(t: string)
    requires t != "" && IsSign(t[0]) && NameLike(t[1..])
    ensures !IsSpace(t[0]) && !IsSpace(t[|t| - 1]) && '(' !in t
  {
    NameHasNoParens(t[1..]);
    assert t[|t| - 1] == t[1..][|t| - 2];
    assert t == [t[0]] + t[1..];
  }

  /** Every text that `str::parse::<f64>` accepts, signed or not, evaluates to its number. */
  lemma {:induction false} EvaluateLiteral<V>(ops: Arith<V>, before: string, t: string, after: string)
    requires Blank(before) && Blank(after) && IsFloat(t)
    ensures EvalExpression(ops, before + t + after) == Ok(ops.number(t))
  {
    FloatLike(t);
    NoParensNoCall(t, 0);
    TrimSelf(t);
    EvaluateTrims(ops, before + t + after, before, t, after);
  }

  /** A sign in front of an atom that makes no number with it negates the atom or leaves it as it is. */
  lemma {:induction false} EvaluateSigned<V>(ops: Arith<V>, sign: string, e: Expr)
    requires WellFormed(e) && (sign == "-" || sign == "+") && !IsFloat(sign + Print(e, 3))
    ensures EvalExpression(ops, sign + Print(e, 3)) == Value(ops, if sign == "-" then Neg(e) else Plus(e))
  {
    SignedParse(ops, sign, e);
    SignedTop(ops, sign, Print(e, 3));
  }

  lemma {:induction false} SignedTop<V>(ops: Arith<V>, sign: string, p: string)
    requires (sign == "-" || sign == "+") && AtomEnds(p) && !IsFloat(sign + p)
    ensures EvalExpression(ops, sign + p) == ParseAdditive(ops, sign + p)
  {
    SignedTrims(sign, p);
    NotLetterNoConstant(ops, sign + p, 0);
    SumsOnly(ops, sign + p, sign + p);
  }

  lemma SignedTrims(sign: string, p: string)
    requires (sign == "-" || sign == "+") && AtomEnds(p)
    ensures Trim(sign + p) == sign + p && CallPattern(sign + p).None?
  {
    var s := sign + p;
    assert s[0] == sign[0] && s[|s| - 1] == p[|p| - 1];
    TrimSelf(s);
    assert NameLength(s) == 0;
  }

  // ----- named functions -----

  predicate IsName(name: string) {
    name != "" && forall i :: 0 <= i < |name| ==> InName(name[i])
  }

  lemma {:induction false} NameLengthAll(name: string)
    requires forall i :: 0 <= i < |name| ==> InName(name[i])
    ensures NameLength(name) == |name|
  {
    if name != "" {
      NameLengthAll(name[1..]);
    }
  }

  lemma CallTextMatches(name: string, args: string, s: string)
    requires IsName(name) && args != "" && '\n' !in args && s == name + ("(" + args + ")")
    ensures CallPattern(s) == Some((name, args)) && !IsSpace(s[0]) && s[0] != '(' && s[|s| - 1] == ')'
  {
    NameLengthAll(name);
    NameLengthConcat(name, "(" + args + ")");
    assert s == (name + "(") + args + ")";
    assert s[..|name|] == name && s[|name|] == '(' && s[|name| + 1..|s| - 1] == args;
  }

  /** A name with arguments in parentheses is handed to the named functions as it stands, by itself
      and as an operand. */
  lemma {:induction false} EvaluateCall<V>(ops: Arith<V>, before: string, name: string, args: string, after: string)
    requires Blank(before) && IsName(name) && args != "" && '\n' !in args && Blank(after)
    ensures EvalExpression(ops, before + (name + ("(" + args + ")")) + after) == ops.statistic(name, args)
    ensures ParsePrimary(ops, name + ("(" + args + ")")) == ops.statistic(name, args)
  {
    var s := name + ("(" + args + ")");
    CallTextMatches(name, args, s);
    TrimSelf(s);
    EvaluateTrims(ops, before + s + after, before, s, after);
  }

  // ----- text without operators -----

  predicate Plain(s: string) {
    forall i :: 0 <= i < |s| ==> s[i] !in "()+-*/%^"
  }

  predicate Bare(s: string) {
    s != "" ==> !IsSpace(s[0]) && !IsSpace(s[|s| - 1])
  }

  lemma {:induction false} TrimBlank(ws: string)
    requires Blank(ws)
    ensures Trim(ws) == ""
  {
    if ws != "" {
      TrimBlank(ws[1..]);
    }
  }

  lemma TrimBare(before: string, t: string, after: string)
    requires Blank(before) && Blank(after) && Bare(t)
    ensures Trim(before + t + after) == t && Trim(t) == t
  {
    if t == "" {
      TrimBlank(before + t + after);
    } else {
      TrimPadded(before, t, after);
      TrimSelf(t);
    }
  }

  lemma PlainHasNoOps(t: string)
    requires Plain(t)
    ensures LastOp(Sums, t).None? && LastOp(Products, t).None? && FirstOp(Powers, t).None? && '(' !in t
  {
    assert forall i :: 0 <= i < |t| ==> t[i] !in "()+-*/%^";
  }

  lemma {:induction false} PlainIsPrimary<V>(ops: Arith<V>, t: string)
    requires Plain(t) && Trim(t) == t
    ensures CallPattern(t).None? && ParseAdditive(ops, t) == ParsePrimary(ops, t)
    ensures Constant(ops, t).None? && !IsFloat(t) ==> ParsePrimary(ops, t) == Err(NotANumber(t))
  {
    PlainHasNoOps(t);
    NoOpsIsUnary(ops, t);
    NoParensNoCall(t, 0);
    assert t != "" ==> t[0] !in "()+-*/%^";
  }

  /** Text without operators and parentheses is a number, one of the three constants, or rejected as
      it stands. */
  lemma {:induction false} PlainEvaluates<V>(ops: Arith<V>, before: string, t: string, after: string)
    requires Blank(before) && Blank(after) && Bare(t) && Plain(t)
    ensures EvalExpression(ops, before + t + after) ==
            if IsFloat(t) then Ok(ops.number(t))
            else if Lower(t) == "pi" then Ok(ops.pi)
            else if Lower(t) == "e" then Ok(ops.e)
            else if Lower(t) == "tau" then Ok(ops.tau)
            else Err(NotANumber(t))
  {
    TrimBare(before, t, after);
    PlainIsPrimary(ops, t);
  }

  // ----- the one-argument functions -----

  lemma {:induction false} SingleCallIs(s: string, k: nat, a: string, j: nat)
    requires j <= k < |SINGLE_ARGUMENT| && s == SINGLE_ARGUMENT[k] + ("(" + a + ")")
    ensures SingleCall(s, j) == Some((SINGLE_ARGUMENT[k], a))
    decreases k - j
  {
    var prefix := SINGLE_ARGUMENT[j] + "(";
    if j == k {
      assert prefix == s[..|prefix|] && s[|prefix|..|s| - 1] == a;
    } else {
      assert prefix[0] != s[0] || prefix[1] != s[1];
      Mismatch(prefix, s, if prefix[0] != s[0] then 0 else 1);
      SingleCallIs(s, k, a, j + 1);
    }
  }

  lemma {:induction false} NoCallWithBreak(name: string, a: string, s: string)
    requires IsName(name) && (a == "" || '\n' in a) && s == name + ("(" + a + ")")
    ensures CallPattern(s).None? && Bare(s) && s[0] != '('
  {
    NameLengthAll(name);
    NameLengthConcat(name, "(" + a + ")");
    assert s[|name| + 1..|s| - 1] == a && s[|s| - 1] == ')' && InName(s[0]);
  }

  /** Without an argument, or with a line break in it, the pattern for named functions does not match,
      and a one-argument function is applied to what its argument evaluates to. */
  lemma {:induction false} PrimaryOfSingle<V>(ops: Arith<V>, k: nat, name: string, a: string)
    requires k < 7 && name == ["sqrt", "abs", "ln", "log10", "ceil", "floor", "round"][k] && k != 3
    requires a == "" || '\n' in a
    ensures ParsePrimary(ops, name + ("(" + a + ")")) ==
            var v :- EvalExpression(ops, a);
            Ok(ops.single(name, v))
  {
    var s := name + ("(" + a + ")");
    assert name == SINGLE_ARGUMENT[k] && IsName(name);
    NoCallWithBreak(name, a, s);
    TrimSelf(s);
    SingleCallIs(s, k, a, 0);
  }

  // ----- the negation that the printer must parenthesise -----

  predicate IsOperator(c: char) {
    IsSign(c) || IsProduct(c) || c == '^'
  }

  /** The text ends in `c`, outside all parentheses. */
  predicate Dangling(s: string, c: char) {
    s != "" && s[|s| - 1] == c && DepthAt(s, |s| - 1) == 0
  }

  lemma {:induction false} TrimStartDangling(s: string, c: char)
    requires Dangling(s, c) && IsOperator(c)
    ensures Dangling(TrimStart(s), c)
  {
    if IsSpace(s[0]) {
      assert s == [s[0]] + s[1..];
      DepthOfConcat([s[0]], s[1..], |s| - 1);
      TrimStartDangling(s[1..], c);
    }
  }

  /** The operand to the right of an operator still ends in `c`. */
  lemma {:induction false} DanglingOperand(s: string, q: nat, c: char)
    requires Dangling(s, c) && IsOperator(c) && q < |s| - 1 && DepthAt(s, q) == 0 && Delta(s[q]) == 0
    ensures Dangling(Trim(s[q + 1..]), c)
  {
    SuffixDangles(s, q, c);
    TrimStartDangling(s[q + 1..], c);
  }

  lemma {:induction false} SuffixDangles(s: string, q: nat, c: char)
    requires Dangling(s, c) && q < |s| - 1 && DepthAt(s, q) == 0 && Delta(s[q]) == 0
    ensures Dangling(s[q + 1..], c)
  {
    var left, right := s[..q + 1], s[q + 1..];
    assert s == left + right;
    DepthOfConcat(left, right, |s| - 1);
    DepthOfConcat(left, right, q + 1);
  }

  lemma {:induction false} EmptyRejected<V>(ops: Arith<V>)
    ensures ParseMultiplicative(ops, "").Err? && ParsePower(ops, "").Err?
  {
    assert ParsePrimary(ops, "") == Err(NotANumber(""));
    assert ParsePower(ops, "") == ParseUnary(ops, "");
  }

  lemma {:induction false} DanglingPower<V>(ops: Arith<V>, s: string)
    requires Dangling(s, '^')
    ensures ParsePower(ops, s).Err?
    decreases |s|
  {
    var n := |s| - 1;
    assert OpAt(Powers, s, n);
    var p := FirstOp(Powers, s).value;
    if p < n {
      DanglingOperand(s, p, '^');
      DanglingPower(ops, Trim(s[p + 1..]));
    } else {
      assert s[p + 1..] == "";
      EmptyRejected(ops);
    }
  }

  lemma {:induction false} DanglingMultiplicative<V>(ops: Arith<V>, s: string, c: char)
    requires Dangling(s, c) && (IsProduct(c) || c == '^')
    ensures ParseMultiplicative(ops, s).Err?
  {
    var n := |s| - 1;
    match LastOp(Products, s) {
      case None =>
        DanglingPower(ops, s);
      case Some(p) =>
        if p < n {
          assert !OpAt(Products, s, n);
          DanglingOperand(s, p, c);
          DanglingPower(ops, Trim(s[p + 1..]));
        } else {
          assert s[p + 1..] == "";
          EmptyRejected(ops);
        }
    }
  }

  /** Text that ends in an operator has no right operand to parse. */
  lemma {:induction false} DanglingAdditive<V>(ops: Arith<V>, s: string, c: char)
    requires Dangling(s, c) && IsOperator(c) && |s| > 1 && !IsExponentMark(s[|s| - 2])
    ensures ParseAdditive(ops, s).Err?
  {
    var n := |s| - 1;
    match LastOp(Sums, s) {
      case None =>
        DanglingMultiplicative(ops, s, c);
      case Some(p) =>
        if p < n {
          assert !OpAt(Sums, s, n);
          DanglingOperand(s, p, c);
          DanglingMultiplicative(ops, Trim(s[p + 1..]), c);
        } else {
          assert s[p + 1..] == "";
          EmptyRejected(ops);
        }
        RightErrorPropagates(ops, s, p, Trim(s[p + 1..]));
    }
  }

  lemma {:induction false} RightErrorPropagates<V>(ops: Arith<V>, s: string, p: nat, t: string)
    requires LastOp(Sums, s) == Some(p) && Trim(s[p + 1..]) == t && ParseMultiplicative(ops, t).Err?
    ensures ParseAdditive(ops, s).Err?
  {
  }

  lemma {:induction false} TrimEndKeeps(s: string, u: string)
    requires s != "" && !IsSpace(s[|s| - 1])
    ensures TrimEnd(s + u) == s + TrimEnd(u)
  {
    if u == "" {
      assert s + u == s;
    } else {
      assert (s + u)[..|s + u| - 1] == s + u[..|u| - 1];
      TrimEndKeeps(s, u[..|u| - 1]);
    }
  }

  lemma {:induction false} TrimKeeps(s: string, u: string)
    requires s != "" && !IsSpace(s[0]) && !IsSpace(s[|s| - 1])
    ensures Trim(s + u) == s + TrimEnd(u)
  {
    TrimEndKeeps(s, u);
  }

  lemma {:induction false} LeftErrorPropagates<V>(ops: Arith<V>, s: string, p: nat, t: string)
    requires LastOp(Sums, s) == Some(p) && Trim(s[..p]) == t && ParseAdditive(ops, t).Err?
    ensures ParseAdditive(ops, s).Err?
  {
  }

  /** `s` ends in a minus at which `parse_additive` splits, and `t` is the operand before it. */
  predicate BareMinus(s: string, t: string) {
    |s| > 1 && !IsSpace(s[0]) && s[|s| - 1] == '-' && OpAt(Sums, s, |s| - 1) && Trim(s[..|s| - 1]) == t
  }

  /** Whatever follows the minus, the operand before it is parsed in the end, and rejected. */
  lemma {:induction false} BareMinusRejected<V>(ops: Arith<V>, s: string, t: string, r: string)
    requires BareMinus(s, t) && ParseAdditive(ops, t).Err?
    ensures ParseAdditive(ops, s + r).Err?
    decreases |r|
  {
    var all, n := s + r, |s| - 1;
    assert OpAt(Sums, all, n) by {
      DepthOfConcat(s, r, n);
    }
    var p := LastOp(Sums, all).value;
    if p == n {
      assert all[..p] == s[..n];
      LeftErrorPropagates(ops, all, p, t);
    } else {
      var u := r[..p - |s|];
      assert all[..p] == s + u;
      TrimKeeps(s, u);
      BareMinusRejected(ops, s, t, TrimEnd(u));
      LeftErrorPropagates(ops, all, p, s + TrimEnd(u));
    }
  }

  lemma {:induction false} OperatorThenMinus(l: string, before: string, c: char, after: string)
    requires l != "" && !IsSpace(l[0]) && DepthAt(l, |l|) == 0 && Blank(before) && IsOperator(c) && Blank(after)
    ensures BareMinus(l + (before + [c] + after + "-"), l + (before + [c]))
  {
    MinusSplits(l, before, c, after);
    OperandBeforeMinus(l, before, c, after);
  }

  lemma OperandBeforeMinus(l: string, before: string, c: char, after: string)
    requires l != "" && !IsSpace(l[0]) && IsOperator(c) && Blank(after)
    ensures var s := l + (before + [c] + after + "-"); Trim(s[..|s| - 1]) == l + (before + [c])
  {
    var s, t := l + (before + [c] + after + "-"), l + (before + [c]);
    assert s[..|s| - 1] == "" + t + after;
    TrimPadded("", t, after);
  }

  lemma {:induction false} OperatorDangles(l: string, before: string, c: char)
    requires l != "" && !IsSpace(l[|l| - 1]) && !IsExponentMark(l[|l| - 1]) && DepthAt(l, |l|) == 0
    requires Blank(before) && IsOperator(c)
    ensures var t := l + (before + [c]); Dangling(t, c) && !IsExponentMark(t[|t| - 2])
  {
    var t := l + (before + [c]);
    assert t + "" == t;
    InfixDepth(l, before + [c], "", |t| - 1);
    assert t[|t| - 2] == if before == "" then l[|l| - 1] else before[|before| - 1];
  }

  lemma {:induction false} MinusSplits(l: string, before: string, c: char, after: string)
    requires DepthAt(l, |l|) == 0 && Blank(before) && IsOperator(c) && Blank(after)
    ensures var s := l + (before + [c] + after + "-"); OpAt(Sums, s, |s| - 1)
  {
    var mid := before + [c] + after + "-";
    var s := l + mid;
    assert s + "" == s;
    InfixDepth(l, mid, "", |s| - 1);
    assert s[|s| - 2] == if after == "" then c else after[|after| - 1];
  }

  lemma MinusNotAFloat(s: string, p: int)
    requires 0 < p < |s| && s[p] == '-' && !IsExponentMark(s[p - 1])
    ensures !IsFloat(s)
  {
    if IsFloat(s) {
      FloatChars(s, p);
    }
  }

  lemma {:induction false} BareMinusAtTop<V>(ops: Arith<V>, s: string, t: string, r: string)
    requires BareMinus(s, t) && ParseAdditive(ops, t).Err? && StartsUnnamed(s[0])
    ensures EvalExpression(ops, s + r).Err?
  {
    var all := s + TrimEnd(r);
    TrimKeeps(s, r);
    BareMinusRejected(ops, s, t, TrimEnd(r));
    MinusNotAFloat(all, |s| - 1);
    NotANamedForm(ops, all);
    SumsOnly(ops, s + r, all);
  }

  /** A text that is no call, number or constant is read as a sum. */
  lemma {:induction false} SumsOnly<V>(ops: Arith<V>, s: string, trimmed: string)
    requires Trim(s) == trimmed && CallPattern(trimmed).None? && !IsFloat(trimmed) && Constant(ops, trimmed).None?
    ensures EvalExpression(ops, s) == ParseAdditive(ops, trimmed)
  {
  }

  /** Unlike the parenthesised form, a bare minus after any operator is rejected, whatever follows
      it. The text before the operator is any one that does not start with a name and is closed. */
  lemma {:induction false} NegativeOperandRejected<V>(ops: Arith<V>, l: string,
      before: string, c: char, after: string, r: string)
    requires l != "" && StartsUnnamed(l[0]) && DepthAt(l, |l|) == 0
    requires !IsSpace(l[|l| - 1]) && !IsExponentMark(l[|l| - 1])
    requires Blank(before) && IsOperator(c) && Blank(after)
    ensures EvalExpression(ops, l + (before + [c] + after + "-") + r).Err?
  {
    OperatorThenMinus(l, before, c, after);
    OperatorDangles(l, before, c);
    DanglingAdditive(ops, l + (before + [c]), c);
    BareMinusAtTop(ops, l + (before + [c] + after + "-"), l + (before + [c]), r);
  }
}
