/**
 The arithmetic evaluator of the `math_eval` tool: six mutually recursive functions
 that split a string at an operator outside all parentheses.

 Numbers are abstract: `Arith` carries the value type's operations, so nothing below
 depends on IEEE-754. Only the grammar that `str::parse::<f64>` accepts is concrete.
 */
module MathEval {
  import opened Ascii
  import opened Wrappers

  // ----- characters, trimming and the number grammar -----

  /** Unicode `White_Space`, the set that `str::trim` strips. */
  predicate IsSpace(c: char) {
    '\t' <= c <= '\r' || c == ' ' || c == '\U{0085}' || c == '\U{00A0}' || c == '\U{1680}' ||
    '\U{2000}' <= c <= '\U{200A}' || c == '\U{2028}' || c == '\U{2029}' || c == '\U{202F}' ||
    c == '\U{205F}' || c == '\U{3000}'
  }

  function TrimStart(s: string): (r: string)
    ensures |r| <= |s|
  {
    if s != "" && IsSpace(s[0]) then TrimStart(s[1..]) else s
  }

  function TrimEnd(s: string): (r: string)
    ensures |r| <= |s|
  {
    if s != "" && IsSpace(s[|s| - 1]) then TrimEnd(s[..|s| - 1]) else s
  }

  function Trim(s: string): (r: string)
    ensures |r| <= |s|
  {
    TrimEnd(TrimStart(s))
  }

  predicate IsSign(c: char) {
    c == '+' || c == '-'
  }

  predicate IsExponentMark(c: char) {
    c == 'e' || c == 'E'
  }

  /** How many digits the string starts with. */
  function DigitRun(s: string): (n: nat)
    ensures n <= |s|
  {
    if s != "" && IsDigit(s[0]) then 1 + DigitRun(s[1..]) else 0
  }

  /** The length of the longest prefix of digits with at most one decimal point. */
  function MantissaLength(s: string): (n: nat)
    ensures n <= |s|
  {
    var n := DigitRun(s);
    if n < |s| && s[n] == '.' then n + 1 + DigitRun(s[n + 1..]) else n
  }

  /** Digits with an optional sign. */
  predicate IsExponent(s: string) {
    s != "" &&
    var t := if IsSign(s[0]) then s[1..] else s;
    t != "" && DigitRun(t) == |t|
  }

  /** An unsigned decimal literal: digits with at most one decimal point and at least one
      digit, optionally followed by `e`/`E` and an exponent. */
  predicate IsNumber(s: string) {
    var m := MantissaLength(s);
    0 < m && (IsDigit(s[0]) || 1 < m) &&
    (m == |s| || (IsExponentMark(s[m]) && IsExponent(s[m + 1..])))
  }

  predicate IsFloatWord(s: string) {
    s == "inf" || s == "infinity" || s == "nan"
  }

  /** The strings that `str::parse::<f64>` accepts. */
  predicate IsFloat(s: string) {
    var t := if s != "" && IsSign(s[0]) then s[1..] else s;
    IsNumber(t) || IsFloatWord(Lower(t))
  }

  // ----- operators outside parentheses -----

  function Delta(c: char): int {
    if c == '(' then 1 else if c == ')' then -1 else 0
  }

  /** Parenthesis depth just before position `i`. */
  function DepthAt(s: string, i: nat): int
    requires i <= |s|
  {
    if i == 0 then 0 else DepthAt(s, i - 1) + Delta(s[i - 1])
  }

  predicate IsProduct(c: char) {
    c == '*' || c == '/' || c == '%'
  }

  datatype Tier = Sums | Products | Powers

  /** Position `i` holds an operator of the tier at which that tier's parser may split. */
  predicate OpAt(tier: Tier, s: string, i: int)
    requires 0 <= i < |s|
  {
    DepthAt(s, i) == 0 &&
    match tier
    case Sums => IsSign(s[i]) && i > 0 && !IsExponentMark(s[i - 1])
    case Products => IsProduct(s[i])
    case Powers => s[i] == '^'
  }

  ghost predicate IsLastOp(tier: Tier, s: string, pos: Option<nat>) {
    match pos
    case None => forall i :: 0 <= i < |s| ==> !OpAt(tier, s, i)
    case Some(p) => p < |s| && OpAt(tier, s, p) && forall i :: p < i < |s| ==> !OpAt(tier, s, i)
  }

  ghost predicate IsFirstOp(tier: Tier, s: string, pos: Option<nat>) {
    match pos
    case None => forall i :: 0 <= i < |s| ==> !OpAt(tier, s, i)
    case Some(p) => p < |s| && OpAt(tier, s, p) && forall i :: 0 <= i < p ==> !OpAt(tier, s, i)
  }

  /** The last splitting operator among the first `n` characters. */
  function LastOpBelow(tier: Tier, s: string, n: nat): (pos: Option<nat>)
    requires n <= |s|
    ensures pos.Some? ==> pos.value < n && OpAt(tier, s, pos.value)
    ensures forall i :: (if pos.Some? then pos.value else -1) < i < n ==> !OpAt(tier, s, i)
  {
    if n == 0 then None
    else if OpAt(tier, s, n - 1) then Some(n - 1)
    else LastOpBelow(tier, s, n - 1)
  }

  function LastOp(tier: Tier, s: string): (pos: Option<nat>)
    ensures IsLastOp(tier, s, pos)
  {
    LastOpBelow(tier, s, |s|)
  }

  function FirstOpFrom(tier: Tier, s: string, n: nat): (pos: Option<nat>)
    requires n <= |s|
    ensures pos.Some? ==> n <= pos.value < |s| && OpAt(tier, s, pos.value)
    ensures forall i :: n <= i < (if pos.Some? then pos.value else |s|) ==> !OpAt(tier, s, i)
    decreases |s| - n
  {
    if n == |s| then None
    else if OpAt(tier, s, n) then Some(n)
    else FirstOpFrom(tier, s, n + 1)
  }

  function FirstOp(tier: Tier, s: string): (pos: Option<nat>)
    ensures IsFirstOp(tier, s, pos)
  {
    FirstOpFrom(tier, s, 0)
  }

  /** The scan of `parse_additive`. */
  method ScanAdditive(expr: string) returns (last: Option<nat>)
    ensures last == LastOp(Sums, expr)
  {
    var depth := 0;
    last := None;
    for i := 0 to |expr|
      invariant depth == DepthAt(expr, i)
      invariant last == LastOpBelow(Sums, expr, i)
    {
      var b := expr[i];
      if b == '(' {
        depth := depth + 1;
      } else if b == ')' {
        depth := depth - 1;
      } else if IsSign(b) && depth == 0 && i > 0 {
        if !(expr[i - 1] == 'e' || expr[i - 1] == 'E') {
          last := Some(i);
        }
      }
    }
  }

  /** The scan of `parse_multiplicative`. */
  method ScanMultiplicative(expr: string) returns (last: Option<nat>)
    ensures last == LastOp(Products, expr)
  {
    var depth := 0;
    last := None;
    for i := 0 to |expr|
      invariant depth == DepthAt(expr, i)
      invariant last == LastOpBelow(Products, expr, i)
    {
      var b := expr[i];
      if b == '(' {
        depth := depth + 1;
      } else if b == ')' {
        depth := depth - 1;
      } else if IsProduct(b) && depth == 0 {
        last := Some(i);
      }
    }
  }

  /** The scan of `parse_power`, which stops at the first operator. */
  method ScanPower(expr: string) returns (first: Option<nat>)
    ensures first == FirstOp(Powers, expr)
  {
    var depth := 0;
    for i := 0 to |expr|
      invariant depth == DepthAt(expr, i)
      invariant FirstOp(Powers, expr) == FirstOpFrom(Powers, expr, i)
    {
      var b := expr[i];
      if b == '(' {
        depth := depth + 1;
      } else if b == ')' {
        depth := depth - 1;
      } else if b == '^' && depth == 0 {
        return Some(i);
      }
    }
    return None;
  }

  // ----- the evaluator -----

  datatype EvalError = DivisionByZero | NotANumber(text: string) | BadCall(name: string)

  /** The value type: the number denoted by a literal, and the operations on numbers. */
  datatype Arith<!V> = Arith(
    number: string -> V,
    neg: V -> V,
    add: (V, V) -> V, sub: (V, V) -> V, mul: (V, V) -> V,
    div: (V, V) -> V, rem: (V, V) -> V, pow: (V, V) -> V,
    isZero: V -> bool,
    pi: V, e: V, tau: V,
    single: (string, V) -> V,
    statistic: (string, string) -> Result<V, EvalError>)

  function NameLength(s: string): (n: nat)
    ensures n <= |s|
  {
    if s != "" && ('a' <= s[0] <= 'z' || s[0] == '_') then 1 + NameLength(s[1..]) else 0
  }

  /** Name and arguments when the whole string matches `^([a-z_]+)\((.+)\)$`. */
  function CallPattern(s: string): Option<(string, string)> {
    var k := NameLength(s);
    if 0 < k && k + 3 <= |s| && s[k] == '(' && s[|s| - 1] == ')' && '\n' !in s[k + 1..|s| - 1]
    then Some((s[..k], s[k + 1..|s| - 1]))
    else None
  }

  const SINGLE_ARGUMENT := ["sqrt", "abs", "ln", "log10", "ceil", "floor", "round"]

  /** Name and argument when the string is `name(...)` for the `k`-th or a later one-argument function. */
  function SingleCall(s: string, k: nat := 0): (r: Option<(string, string)>)
    requires k <= |SINGLE_ARGUMENT|
    ensures r.Some? ==> |r.value.1| < |s|
    decreases |SINGLE_ARGUMENT| - k
  {
    if k == |SINGLE_ARGUMENT| then None
    else
      var prefix := SINGLE_ARGUMENT[k] + "(";
      if prefix <= s && |prefix| < |s| && s[|s| - 1] == ')'
      then Some((SINGLE_ARGUMENT[k], s[|prefix|..|s| - 1]))
      else SingleCall(s, k + 1)
  }

  function Constant<V>(ops: Arith<V>, s: string): Option<V> {
    var t := Lower(s);
    if t == "pi" then Some(ops.pi)
    else if t == "e" then Some(ops.e)
    else if t == "tau" then Some(ops.tau)
    else None
  }

  function EvalExpression<V>(ops: Arith<V>, expr: string): Result<V, EvalError>
    decreases |expr|, 6
  {
    var s := Trim(expr);
    var call := CallPattern(s);
    if call.Some? then ops.statistic(call.value.0, call.value.1)
    else if IsFloat(s) then Ok(ops.number(s))
    else
      var c := Constant(ops, s);
      if c.Some? then Ok(c.value) else ParseAdditive(ops, s)
  }

  function ParseAdditive<V>(ops: Arith<V>, expr: string): Result<V, EvalError>
    decreases |expr|, 5
  {
    match LastOp(Sums, expr)
    case Some(pos) =>
      var left :- ParseAdditive(ops, Trim(expr[..pos]));
      var right :- ParseMultiplicative(ops, Trim(expr[pos + 1..]));
      Ok(if expr[pos] == '+' then ops.add(left, right) else ops.sub(left, right))
    case None => ParseMultiplicative(ops, expr)
  }

  function ParseMultiplicative<V>(ops: Arith<V>, expr: string): Result<V, EvalError>
    decreases |expr|, 4
  {
    match LastOp(Products, expr)
    case Some(pos) =>
      var left :- ParseMultiplicative(ops, Trim(expr[..pos]));
      var right :- ParsePower(ops, Trim(expr[pos + 1..]));
      if expr[pos] == '*' then Ok(ops.mul(left, right))
      else if expr[pos] == '/' then
        if ops.isZero(right) then Err(DivisionByZero) else Ok(ops.div(left, right))
      else Ok(ops.rem(left, right))
    case None => ParsePower(ops, expr)
  }

  function ParsePower<V>(ops: Arith<V>, expr: string): Result<V, EvalError>
    decreases |expr|, 3
  {
    match FirstOp(Powers, expr)
    case Some(pos) =>
      var base :- ParseUnary(ops, Trim(expr[..pos]));
      var exponent :- ParsePower(ops, Trim(expr[pos + 1..]));
      Ok(ops.pow(base, exponent))
    case None => ParseUnary(ops, expr)
  }

  function ParseUnary<V>(ops: Arith<V>, expr: string): Result<V, EvalError>
    decreases |expr|, 2
  {
    var s := Trim(expr);
    if s != "" && s[0] == '-' then
      var v :- ParsePrimary(ops, Trim(s[1..]));
      Ok(ops.neg(v))
    else if s != "" && s[0] == '+' then ParsePrimary(ops, Trim(s[1..]))
    else ParsePrimary(ops, s)
  }

  function ParsePrimary<V>(ops: Arith<V>, expr: string): Result<V, EvalError>
    decreases |expr|, 1
  {
    var s := Trim(expr);
    if s != "" && s[0] == '(' && s[|s| - 1] == ')' then ParseAdditive(ops, s[1..|s| - 1])
    else
      var call := CallPattern(s);
      if call.Some? then ops.statistic(call.value.0, call.value.1)
      else
        var one := SingleCall(s);
        if one.Some? then
          var v :- EvalExpression(ops, one.value.1);
          Ok(ops.single(one.value.0, v))
        else
          var c := Constant(ops, s);
          if c.Some? then Ok(c.value)
          else if IsFloat(s) then Ok(ops.number(s))
          else Err(NotANumber(s))
  }
}
