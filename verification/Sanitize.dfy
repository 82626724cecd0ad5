/**
 The prompt-delimiter sanitizer: each of ten delimiters, in any letter case, is replaced by an
 escaped form, one occurrence at a time, until none is left. Text is ASCII.
 */
module Sanitize {
  import opened Ascii
  import opened Wrappers

  /** A delimiter, its escaped form, and where the first backslash of the escaped form is. */
  datatype Row = Row(pattern: string, replacement: string, backslash: nat)

  type Table = seq<Row>

  const INJECTION_PATTERNS: Table := [
    Row("<|im_start|>", "<\\|im_start\\|>", 1),
    Row("<|im_end|>", "<\\|im_end\\|>", 1),
    Row("<|system|>", "<\\|system\\|>", 1),
    Row("<|user|>", "<\\|user\\|>", 1),
    Row("<|assistant|>", "<\\|assistant\\|>", 1),
    Row("<|endoftext|>", "<\\|endoftext\\|>", 1),
    Row("<<SYS>>", "<<SYS\\>>", 5),
    Row("<</SYS>>", "<</SYS\\>>", 6),
    Row("[INST]", "[INST\\]", 5),
    Row("[/INST]", "[/INST\\]", 6)
  ]

  /** The delimiter `p` occurs at position `i`, whatever the case of its letters. */
  predicate Occurs(s: string, i: nat, p: string) {
    i + |p| <= |s| && forall x :: i <= x < i + |p| ==> LowerChar(s[x]) == LowerChar(p[x - i])
  }

  // ----- what makes a table work -----

  predicate Opens(c: char) {
    c == '<' || c == '['
  }

  predicate Closes(c: char) {
    c == '>' || c == ']'
  }

  /** A delimiter opens and closes with brackets, has no backslash, and has an opening bracket
      further in only as the second `<` of `<<`, where no delimiter could start. */
  ghost predicate WellFormed(p: string) {
    && |p| >= 6 && Opens(p[0]) && Closes(p[|p| - 1])
    && (p[0] == '<' ==> p[1] == '|' || p[1] == '<')
    && (forall d :: 0 <= d < |p| ==> p[d] != '\\')
    && (forall d :: 0 < d < |p| && Opens(p[d]) ==> d == 1 && p[1] == '<' && p[2] != '|' && p[2] != '<')
  }

  /** An escaped form has no closing bracket before its first backslash, at `a`, and no opening
      bracket after it. */
  ghost predicate Inert(r: string, a: nat) {
    a < |r| && r[a] == '\\' && (forall k :: 0 <= k < a ==> !Closes(r[k])) && (forall k :: a < k < |r| ==> !Opens(r[k]))
  }

  /** The two delimiters differ in their first, second, third or sixth character. */
  ghost predicate ToldApart(p: string, q: string)
    requires |p| >= 6 && |q| >= 6
  {
    LowerChar(p[0]) != LowerChar(q[0]) || LowerChar(p[1]) != LowerChar(q[1]) ||
    LowerChar(p[2]) != LowerChar(q[2]) || LowerChar(p[5]) != LowerChar(q[5])
  }

  ghost predicate Good(t: Table) {
    && (forall k :: 0 <= k < |t| ==> WellFormed(t[k].pattern) && Inert(t[k].replacement, t[k].backslash))
    && (forall a, b :: 0 <= a < b < |t| ==> ToldApart(t[a].pattern, t[b].pattern))
  }

  lemma ChatMlWellFormed(k: nat)
    requires k < 2
    ensures WellFormed(INJECTION_PATTERNS[k].pattern)
  {
  }

  lemma MoreChatMlWellFormed(k: nat)
    requires 2 <= k < 4
    ensures WellFormed(INJECTION_PATTERNS[k].pattern)
  {
  }

  lemma LastChatMlWellFormed(k: nat)
    requires 4 <= k < 6
    ensures WellFormed(INJECTION_PATTERNS[k].pattern)
  {
  }

  lemma LlamaWellFormed(k: nat)
    requires 6 <= k < 8
    ensures WellFormed(INJECTION_PATTERNS[k].pattern)
  {
  }

  lemma MistralWellFormed(k: nat)
    requires 8 <= k < 10
    ensures WellFormed(INJECTION_PATTERNS[k].pattern)
  {
  }

  lemma ChatMlInert(k: nat)
    requires k < 6
    ensures Inert(INJECTION_PATTERNS[k].replacement, INJECTION_PATTERNS[k].backslash)
  {
  }

  lemma BracketsInert(k: nat)
    requires 6 <= k < 10
    ensures Inert(INJECTION_PATTERNS[k].replacement, INJECTION_PATTERNS[k].backslash)
  {
  }

  lemma RowsToldApart(a: nat, b: nat)
    requires a < b < 10 && |INJECTION_PATTERNS[a].pattern| >= 6 && |INJECTION_PATTERNS[b].pattern| >= 6
    ensures ToldApart(INJECTION_PATTERNS[a].pattern, INJECTION_PATTERNS[b].pattern)
  {
  }

  /** The delimiters of the source meet the conditions that everything below rests on. */
  lemma InjectionPatternsGood()
    ensures Good(INJECTION_PATTERNS)
  {
    forall k | 0 <= k < 10
      ensures WellFormed(INJECTION_PATTERNS[k].pattern)
      ensures Inert(INJECTION_PATTERNS[k].replacement, INJECTION_PATTERNS[k].backslash)
    {
      if k < 2 {
        ChatMlWellFormed(k);
      } else if k < 4 {
        MoreChatMlWellFormed(k);
      } else if k < 6 {
        LastChatMlWellFormed(k);
      } else if k < 8 {
        LlamaWellFormed(k);
      } else {
        MistralWellFormed(k);
      }
      if k < 6 {
        ChatMlInert(k);
      } else {
        BracketsInert(k);
      }
    }
    forall a, b | 0 <= a < b < 10
      ensures ToldApart(INJECTION_PATTERNS[a].pattern, INJECTION_PATTERNS[b].pattern)
    {
      RowsToldApart(a, b);
    }
  }

  // ----- occurrences do not overlap -----

  predicate Matches(t: Table, s: string, i: nat, k: nat) {
    k < |t| && Occurs(s, i, t[k].pattern)
  }

  /** What the text shows where a delimiter occurs. */
  lemma OccurrenceShape(s: string, i: nat, p: string)
    requires WellFormed(p) && Occurs(s, i, p)
    ensures Opens(s[i]) && Closes(s[i + |p| - 1])
    ensures s[i] == '<' ==> s[i + 1] == '|' || s[i + 1] == '<'
    ensures forall x :: i <= x < i + |p| ==> s[x] != '\\'
    ensures forall x :: i < x < i + |p| && Opens(s[x]) ==>
              x == i + 1 && s[x] == '<' && s[i + 2] != '|' && s[i + 2] != '<'
  {
    assert LowerChar(s[i]) == LowerChar(p[0]) && LowerChar(s[i + 1]) == LowerChar(p[1]);
    assert LowerChar(s[i + 2]) == LowerChar(p[2]) && LowerChar(s[i + |p| - 1]) == LowerChar(p[|p| - 1]);
    forall x | i <= x < i + |p|
      ensures s[x] != '\\'
      ensures i < x && Opens(s[x]) ==> x == i + 1 && s[x] == '<' && s[i + 2] != '|' && s[i + 2] != '<'
    {
      assert LowerChar(s[x]) == LowerChar(p[x - i]);
    }
  }

  /** Two occurrences that share a position are the same one. */
  lemma OccurrencesDisjoint(t: Table, s: string, i: nat, j: nat, a: nat, b: nat)
    requires Good(t) && Matches(t, s, i, a) && Matches(t, s, j, b) && i <= j < i + |t[a].pattern|
    ensures i == j && a == b
  {
    var p, q := t[a].pattern, t[b].pattern;
    OccurrenceShape(s, i, p);
    OccurrenceShape(s, j, q);
    assert i == j;
    assert forall x :: i <= x < i + 6 ==> LowerChar(p[x - i]) == LowerChar(s[x]) == LowerChar(q[x - i]);
    SamePrefix(p, q, s, i);
  }

  lemma SamePrefix(p: string, q: string, s: string, i: nat)
    requires |p| >= 6 && |q| >= 6 && Occurs(s, i, p) && Occurs(s, i, q)
    ensures !ToldApart(p, q)
  {
    assert LowerChar(s[i]) == LowerChar(p[0]) && LowerChar(s[i]) == LowerChar(q[0]);
    assert LowerChar(s[i + 1]) == LowerChar(p[1]) && LowerChar(s[i + 1]) == LowerChar(q[1]);
    assert LowerChar(s[i + 2]) == LowerChar(p[2]) && LowerChar(s[i + 2]) == LowerChar(q[2]);
    assert LowerChar(s[i + 5]) == LowerChar(p[5]) && LowerChar(s[i + 5]) == LowerChar(q[5]);
  }

  /** No occurrence overlaps an escaped form. */
  lemma EscapedNotTouched(u: string, r: string, a: nat, v: string, j: nat, q: string)
    requires Inert(r, a) && WellFormed(q) && Occurs(u + r + v, j, q)
    ensures j + |q| <= |u| || |u| + |r| <= j
  {
    var s := u + r + v;
    OccurrenceShape(s, j, q);
    assert s[|u| + a] == r[a];
    assert forall x :: |u| <= x < |u| + |r| ==> s[x] == r[x - |u|];
  }

  lemma OccursInPrefix(u: string, v: string, i: nat, p: string)
    requires i + |p| <= |u|
    ensures Occurs(u + v, i, p) <==> Occurs(u, i, p)
  {
    assert forall x :: 0 <= x < |u| ==> (u + v)[x] == u[x];
  }

  lemma OccursInSuffix(u: string, v: string, i: nat, p: string)
    ensures Occurs(u + v, |u| + i, p) <==> Occurs(v, i, p)
  {
    var s := u + v;
    if Occurs(v, i, p) {
      forall x | |u| + i <= x < |u| + i + |p|
        ensures LowerChar(s[x]) == LowerChar(p[x - (|u| + i)])
      {
        assert s[x] == v[x - |u|];
      }
    }
    if Occurs(s, |u| + i, p) {
      forall x | i <= x < i + |p|
        ensures LowerChar(v[x]) == LowerChar(p[x - i])
      {
        assert s[|u| + x] == v[x];
      }
    }
  }

  // ----- replacing all occurrences at once -----

  /** The delimiter that occurs at the start, searched from row `k` on. */
  function Leading(t: Table, s: string, k: nat): (r: Option<nat>)
    requires k <= |t|
    ensures r.Some? ==> k <= r.value < |t| && Matches(t, s, 0, r.value)
    ensures r.None? ==> forall j :: k <= j < |t| ==> !Matches(t, s, 0, j)
    decreases |t| - k
  {
    if k == |t| then None
    else if Matches(t, s, 0, k) then Some(k)
    else Leading(t, s, k + 1)
  }

  /** How much of a non-empty text one step of the replacement consumes, and what it becomes. */
  function Chunk(t: Table, s: string): (c: (nat, string))
    requires s != ""
    ensures c.0 <= |s|
  {
    var k := Leading(t, s, 0);
    if k.Some? && t[k.value].pattern != "" then (|t[k.value].pattern|, t[k.value].replacement) else (1, [s[0]])
  }

  /** The text with every occurrence replaced and all other text unchanged. */
  function ReplaceAll(t: Table, s: string): string
    decreases |s|
  {
    if s == "" then "" else Chunk(t, s).1 + ReplaceAll(t, s[Chunk(t, s).0..])
  }

  /** How many occurrences there are. */
  function Occurrences(t: Table, s: string): nat
    decreases |s|
  {
    if s == "" then 0
    else (if Leading(t, s, 0).Some? then 1 else 0) + Occurrences(t, s[Chunk(t, s).0..])
  }

  lemma {:induction false} LeadingIs(t: Table, s: string, k: nat)
    requires Good(t) && Matches(t, s, 0, k)
    ensures Leading(t, s, 0) == Some(k)
    ensures s != "" && Chunk(t, s) == (|t[k].pattern|, t[k].replacement)
  {
    assert WellFormed(t[k].pattern);
    OccurrencesDisjoint(t, s, 0, 0, Leading(t, s, 0).value, k);
  }

  /** No occurrence starts at a position. */
  ghost predicate QuietAt(t: Table, s: string, i: nat) {
    forall k: nat :: k < |t| ==> !Matches(t, s, i, k)
  }

  lemma QuietInSuffix(t: Table, u: string, v: string, i: nat)
    requires QuietAt(t, u + v, |u| + i)
    ensures QuietAt(t, v, i)
  {
    forall k: nat | k < |t|
      ensures !Matches(t, v, i, k)
    {
      OccursInSuffix(u, v, i, t[k].pattern);
      assert !Matches(t, u + v, |u| + i, k);
    }
  }

  /** Text in which no occurrence starts is copied. */
  lemma {:induction false} PlainPrefix(t: Table, x: string, v: string)
    requires forall i :: 0 <= i < |x| ==> QuietAt(t, x + v, i)
    ensures ReplaceAll(t, x + v) == x + ReplaceAll(t, v) && Occurrences(t, x + v) == Occurrences(t, v)
    decreases |x|
  {
    if x == "" {
      assert x + v == v;
    } else {
      var s, y := x + v, x[1..];
      assert s[1..] == y + v && s == [x[0]] + (y + v);
      assert QuietAt(t, s, 0);
      forall i | 0 <= i < |y|
        ensures QuietAt(t, y + v, i)
      {
        assert QuietAt(t, s, i + 1);
        QuietInSuffix(t, [x[0]], y + v, i);
      }
      PlainPrefix(t, y, v);
    }
  }

  /** No occurrence straddles the cut between `u` and `v`. */
  ghost predicate Cut(t: Table, u: string, v: string) {
    forall i: nat, k: nat :: i < |u| && Matches(t, u + v, i, k) ==> i + |t[k].pattern| <= |u|
  }

  lemma {:induction false} CutChunk(t: Table, u: string, v: string)
    requires Good(t) && u != "" && Cut(t, u, v)
    ensures Chunk(t, u + v) == Chunk(t, u) && Leading(t, u + v, 0) == Leading(t, u, 0)
  {
    var k, l := Leading(t, u + v, 0), Leading(t, u, 0);
    if k.Some? {
      OccursInPrefix(u, v, 0, t[k.value].pattern);
      LeadingIs(t, u, k.value);
    } else if l.Some? {
      OccursInPrefix(u, v, 0, t[l.value].pattern);
      LeadingIs(t, u + v, l.value);
    }
  }

  lemma CutRest(t: Table, u: string, v: string, n: nat)
    requires Cut(t, u, v) && n <= |u|
    ensures Cut(t, u[n..], v)
  {
    var s := u + v;
    assert s == u[..n] + (u[n..] + v);
    forall i: nat, k: nat | i < |u[n..]| && Matches(t, u[n..] + v, i, k)
      ensures i + |t[k].pattern| <= |u[n..]|
    {
      OccursInSuffix(u[..n], u[n..] + v, i, t[k].pattern);
      assert Matches(t, s, n + i, k);
    }
  }

  /** A cut that no occurrence straddles divides the replacement. */
  lemma {:induction false} CutDivides(t: Table, u: string, v: string)
    requires Good(t) && Cut(t, u, v)
    ensures ReplaceAll(t, u + v) == ReplaceAll(t, u) + ReplaceAll(t, v)
    ensures Occurrences(t, u + v) == Occurrences(t, u) + Occurrences(t, v)
    decreases |u|
  {
    if u == "" {
      assert u + v == v;
    } else {
      var (n, r) := Chunk(t, u);
      CutChunk(t, u, v);
      CutRest(t, u, v, n);
      assert (u + v)[n..] == u[n..] + v;
      CutDivides(t, u[n..], v);
      ChunkStep(t, u, n, r);
      ChunkStep(t, u + v, n, r);
      Regroup(r, ReplaceAll(t, u[n..]), ReplaceAll(t, v));
    }
  }

  /** One step of the replacement. */
  lemma {:induction false} ChunkStep(t: Table, s: string, n: nat, r: string)
    requires s != "" && Chunk(t, s) == (n, r)
    ensures ReplaceAll(t, s) == r + ReplaceAll(t, s[n..])
    ensures Occurrences(t, s) == (if Leading(t, s, 0).Some? then 1 else 0) + Occurrences(t, s[n..])
  {
  }

  lemma Regroup(a: string, b: string, c: string)
    ensures a + (b + c) == a + b + c
  {
  }

  /** Escaping any one occurrence changes neither the final text nor adds occurrences: there is
      exactly one fewer, and each of those left was there before. */
  lemma {:induction false} EscapeOne(t: Table, u: string, x: string, v: string, k: nat)
    requires Good(t) && k < |t| && |x| == |t[k].pattern| && Matches(t, u + x + v, |u|, k)
    ensures var s := u + t[k].replacement + v;
      && ReplaceAll(t, s) == ReplaceAll(t, u + x + v)
      && Occurrences(t, s) == Occurrences(t, u + x + v) - 1
  {
    var r := t[k].replacement;
    OriginalSide(t, u, x, v, k);
    EscapedSide(t, u, r, t[k].backslash, v);
    Regroup(ReplaceAll(t, u), r, ReplaceAll(t, v));
  }

  lemma {:induction false} OriginalSide(t: Table, u: string, x: string, v: string, k: nat)
    requires Good(t) && k < |t| && |x| == |t[k].pattern| && Matches(t, u + x + v, |u|, k)
    ensures ReplaceAll(t, u + x + v) == ReplaceAll(t, u) + (t[k].replacement + ReplaceAll(t, v))
    ensures Occurrences(t, u + x + v) == Occurrences(t, u) + 1 + Occurrences(t, v)
  {
    var w := x + v;
    assert u + x + v == u + w;
    CutBefore(t, u, w, k);
    CutDivides(t, u, w);
    OccursInSuffix(u, w, 0, t[k].pattern);
    assert w[|x|..] == v;
    LeadingStep(t, w, k, v);
  }

  /** A text that starts with an occurrence. */
  lemma {:induction false} LeadingStep(t: Table, w: string, k: nat, v: string)
    requires Good(t) && Matches(t, w, 0, k) && v == w[|t[k].pattern|..]
    ensures ReplaceAll(t, w) == t[k].replacement + ReplaceAll(t, v) && Occurrences(t, w) == 1 + Occurrences(t, v)
  {
    LeadingIs(t, w, k);
    ChunkStep(t, w, |t[k].pattern|, t[k].replacement);
  }

  /** No occurrence straddles the start of another. */
  lemma CutBefore(t: Table, u: string, w: string, k: nat)
    requires Good(t) && k < |t| && Matches(t, u + w, |u|, k)
    ensures Cut(t, u, w)
  {
    forall i: nat, b: nat | i < |u| && Matches(t, u + w, i, b)
      ensures i + |t[b].pattern| <= |u|
    {
      if |u| < i + |t[b].pattern| {
        OccurrencesDisjoint(t, u + w, i, |u|, b, k);
      }
    }
  }

  lemma EscapedCut(t: Table, u: string, r: string, a: nat, v: string)
    requires Good(t) && Inert(r, a)
    ensures Cut(t, u, r + v)
  {
    forall i: nat, b: nat | i < |u| && Matches(t, u + (r + v), i, b)
      ensures i + |t[b].pattern| <= |u|
    {
      assert u + r + v == u + (r + v);
      EscapedNotTouched(u, r, a, v, i, t[b].pattern);
    }
  }

  lemma EscapedQuiet(t: Table, r: string, a: nat, v: string, i: nat)
    requires Good(t) && Inert(r, a) && i < |r|
    ensures QuietAt(t, r + v, i)
  {
    forall b: nat | b < |t| && Matches(t, r + v, i, b)
      ensures false
    {
      assert "" + r + v == r + v;
      EscapedNotTouched("", r, a, v, i, t[b].pattern);
    }
  }

  lemma {:induction false} EscapedSide(t: Table, u: string, r: string, a: nat, v: string)
    requires Good(t) && Inert(r, a)
    ensures ReplaceAll(t, u + r + v) == ReplaceAll(t, u) + (r + ReplaceAll(t, v))
    ensures Occurrences(t, u + r + v) == Occurrences(t, u) + Occurrences(t, v)
  {
    assert u + r + v == u + (r + v);
    EscapedCut(t, u, r, a, v);
    CutDivides(t, u, r + v);
    forall i: nat | i < |r|
      ensures QuietAt(t, r + v, i)
    {
      EscapedQuiet(t, r, a, v, i);
    }
    PlainPrefix(t, r, v);
  }

  /** What occurs after one escape occurred before it. */
  lemma OldPlace(t: Table, u: string, x: string, v: string, k: nat, j: nat, i: nat) returns (place: nat)
    requires Good(t) && k < |t| && Matches(t, u + t[k].replacement + v, i, j)
    ensures Matches(t, u + x + v, place, j)
  {
    var r, q := t[k].replacement, t[j].pattern;
    assert WellFormed(q) && Inert(r, t[k].backslash);
    EscapedNotTouched(u, r, t[k].backslash, v, i, q);
    if i + |q| <= |u| {
      assert u + r + v == u + (r + v) && u + x + v == u + (x + v);
      OccursInPrefix(u, r + v, i, q);
      OccursInPrefix(u, x + v, i, q);
      place := i;
    } else {
      var d := i - |u| - |r|;
      OccursInSuffix(u + r, v, d, q);
      OccursInSuffix(u + x, v, d, q);
      place := |u + x| + d;
    }
  }

  ghost predicate Absent(t: Table, s: string, k: nat) {
    forall i: nat :: !Matches(t, s, i, k)
  }

  ghost predicate Clean(t: Table, s: string) {
    forall k: nat :: k < |t| ==> Absent(t, s, k)
  }

  lemma AbsentStays(t: Table, u: string, x: string, v: string, k: nat, j: nat)
    requires Good(t) && k < |t| && Absent(t, u + x + v, j)
    ensures Absent(t, u + t[k].replacement + v, j)
  {
    forall i: nat | Matches(t, u + t[k].replacement + v, i, j)
      ensures false
    {
      var place := OldPlace(t, u, x, v, k, j, i);
    }
  }

  /** The text after replacing row `k` at a position. */
  function EscapeAt(t: Table, s: string, k: nat, pos: nat): string
    requires k < |t| && pos + |t[k].pattern| <= |s|
  {
    s[..pos] + t[k].replacement + s[pos + |t[k].pattern|..]
  }

  /** None of the first `k` delimiters occurs. */
  ghost predicate CleanBelow(t: Table, s: string, k: nat) {
    forall j: nat :: j < k ==> Absent(t, s, j)
  }

  lemma {:induction false} EscapeStep(t: Table, s: string, k: nat, pos: nat)
    requires Good(t) && Matches(t, s, pos, k) && CleanBelow(t, s, k)
    ensures var s' := EscapeAt(t, s, k, pos);
      && ReplaceAll(t, s') == ReplaceAll(t, s)
      && Occurrences(t, s') == Occurrences(t, s) - 1
      && CleanBelow(t, s', k)
  {
    var end := pos + |t[k].pattern|;
    var u, x, v := s[..pos], s[pos..end], s[end..];
    assert s == u + x + v;
    EscapeOne(t, u, x, v, k);
    forall j: nat | j < k
      ensures Absent(t, u + t[k].replacement + v, j)
    {
      AbsentStays(t, u, x, v, k, j);
    }
  }

  lemma {:induction false} CleanIsFixed(t: Table, s: string)
    requires Clean(t, s)
    ensures ReplaceAll(t, s) == s
  {
    assert s + "" == s;
    forall i | 0 <= i < |s|
      ensures QuietAt(t, s + "", i)
    {
      forall k: nat | k < |t|
        ensures !Matches(t, s + "", i, k)
      {
        assert Absent(t, s, k);
      }
    }
    PlainPrefix(t, s, "");
  }

  /** The first position at which row `k` occurs, searched from `i` on. */
  function FindFrom(t: Table, s: string, k: nat, i: nat): (r: Option<nat>)
    requires k < |t| && i <= |s| && t[k].pattern != ""
    ensures r.Some? ==> i <= r.value < |s| && Matches(t, s, r.value, k)
    ensures r.None? ==> forall j: nat :: i <= j ==> !Matches(t, s, j, k)
    decreases |s| - i
  {
    if i == |s| then None
    else if Matches(t, s, i, k) then Some(i)
    else FindFrom(t, s, k, i + 1)
  }

  /** The first position at which row `k` occurs. */
  function Find(t: Table, s: string, k: nat): (r: Option<nat>)
    requires Good(t) && k < |t|
    ensures r.Some? ==> r.value + |t[k].pattern| <= |s| && Matches(t, s, r.value, k)
    ensures r.None? ==> Absent(t, s, k)
  {
    assert WellFormed(t[k].pattern);
    FindFrom(t, s, k, 0)
  }

  /** The result of replacing everything holds no delimiter. */
  lemma {:induction false} ReplacedIsClean(t: Table, s: string)
    requires Good(t)
    ensures Clean(t, ReplaceAll(t, s))
    decreases Occurrences(t, s)
  {
    if Clean(t, s) {
      CleanIsFixed(t, s);
    } else {
      var k: nat :| k < |t| && !Absent(t, s, k);
      var i: nat :| Matches(t, s, i, k);
      var n := i + |t[k].pattern|;
      assert s == s[..i] + s[i..n] + s[n..];
      EscapeOne(t, s[..i], s[i..n], s[n..], k);
      ReplacedIsClean(t, s[..i] + t[k].replacement + s[n..]);
    }
  }

  /** A second pass changes nothing. */
  lemma {:induction false} ReplaceIdempotent(t: Table, s: string)
    requires Good(t)
    ensures ReplaceAll(t, ReplaceAll(t, s)) == ReplaceAll(t, s)
  {
    ReplacedIsClean(t, s);
    CleanIsFixed(t, ReplaceAll(t, s));
  }

  // ----- what the escaped text says -----

  /** The text without its backslashes. */
  function Unescaped(s: string): string {
    if s == "" then "" else (if s[0] == '\\' then "" else [s[0]]) + Unescaped(s[1..])
  }

  lemma {:induction false} UnescapedConcat(a: string, b: string)
    ensures Unescaped(a + b) == Unescaped(a) + Unescaped(b)
  {
    if a == "" {
      assert a + b == b;
    } else {
      assert (a + b)[1..] == a[1..] + b;
      UnescapedConcat(a[1..], b);
    }
  }

  lemma {:induction false} UnescapedPlain(s: string)
    requires forall i :: 0 <= i < |s| ==> s[i] != '\\'
    ensures Unescaped(s) == s
  {
    if s != "" {
      UnescapedPlain(s[1..]);
    }
  }

  /** Every escaped form is its delimiter with backslashes put in. */
  ghost predicate Legible(t: Table) {
    forall k :: 0 <= k < |t| ==> Unescaped(t[k].replacement) == t[k].pattern
  }

  lemma LowerConcat(a: string, b: string)
    ensures Lower(a + b) == Lower(a) + Lower(b)
  {
  }

  ghost predicate NoBackslash(s: string) {
    forall i :: 0 <= i < |s| ==> s[i] != '\\'
  }

  lemma {:induction false} Unbackslashed(x: string, p: string)
    requires Lower(x) == Lower(p) && NoBackslash(p)
    ensures NoBackslash(x) && Unescaped(x) == x
  {
    assert |x| == |Lower(x)| == |Lower(p)| == |p|;
    forall d | 0 <= d < |x|
      ensures x[d] != '\\'
    {
      assert Lower(x)[d] == LowerChar(x[d]) && Lower(p)[d] == LowerChar(p[d]);
      assert p[d] != '\\';
    }
    UnescapedPlain(x);
  }

  lemma {:induction false} EscapeSaysText(u: string, x: string, v: string, p: string, r: string)
    requires Lower(x) == Lower(p) && NoBackslash(p) && Unescaped(r) == p
    ensures Lower(Unescaped(u + r + v)) == Lower(Unescaped(u + x + v))
  {
    Unbackslashed(x, p);
    SaysParts(u, x, v);
    SaysParts(u, r, v);
  }

  /** Escaping one occurrence adds backslashes, and changes no letter but in its case. */
  lemma {:induction false} EscapeSays(t: Table, s: string, k: nat, pos: nat)
    requires Good(t) && Legible(t) && Matches(t, s, pos, k)
    ensures Lower(Unescaped(EscapeAt(t, s, k, pos))) == Lower(Unescaped(s))
  {
    var p := t[k].pattern;
    var end := pos + |p|;
    assert WellFormed(p);
    MatchedText(s, pos, p, s[pos..end]);
    assert s == s[..pos] + s[pos..end] + s[end..];
    EscapeSaysText(s[..pos], s[pos..end], s[end..], p, t[k].replacement);
  }

  lemma MatchedText(s: string, i: nat, p: string, x: string)
    requires Occurs(s, i, p) && x == s[i..i + |p|]
    ensures Lower(x) == Lower(p)
  {
    forall d | 0 <= d < |p|
      ensures Lower(x)[d] == Lower(p)[d]
    {
      assert LowerChar(s[i + d]) == LowerChar(p[d]);
    }
  }

  lemma {:induction false} SaysParts(u: string, x: string, v: string)
    ensures Lower(Unescaped(u + x + v)) == Lower(Unescaped(u)) + Lower(Unescaped(x)) + Lower(Unescaped(v))
  {
    UnescapedConcat(u + x, v);
    UnescapedConcat(u, x);
    LowerConcat(Unescaped(u + x), Unescaped(v));
    LowerConcat(Unescaped(u), Unescaped(x));
  }

  // ----- the escaped forms of the table -----

  lemma {:induction false} UnescapedBackslash(b: string)
    requires NoBackslash(b)
    ensures Unescaped("\\" + b) == b
  {
    assert ("\\" + b)[1..] == b;
    UnescapedPlain(b);
  }

  /** A backslash in the middle. */
  lemma {:induction false} OneBackslash(a: string, b: string)
    requires NoBackslash(a) && NoBackslash(b)
    ensures Unescaped(a + ("\\" + b)) == a + b
  {
    UnescapedConcat(a, "\\" + b);
    UnescapedPlain(a);
    UnescapedBackslash(b);
  }

  lemma {:induction false} TwoBackslashes(a: string, b: string, c: string)
    requires NoBackslash(a) && NoBackslash(b) && NoBackslash(c)
    ensures Unescaped(a + ("\\" + b) + ("\\" + c)) == a + b + c
  {
    UnescapedConcat(a + ("\\" + b), "\\" + c);
    OneBackslash(a, b);
    UnescapedBackslash(c);
  }

  /** The form of the first six rows: a backslash before the second and before the last but one character. */
  predicate Piped(p: string, r: string) {
    |p| >= 3 && r == p[..1] + ("\\" + p[1..|p| - 2]) + ("\\" + p[|p| - 2..])
  }

  /** The form of the others: one backslash. */
  predicate Slashed(p: string, r: string, a: nat) {
    a <= |p| && r == p[..a] + ("\\" + p[a..])
  }

  lemma {:induction false} PipedLegible(p: string, r: string)
    requires Piped(p, r) && NoBackslash(p)
    ensures Unescaped(r) == p
  {
    TwoBackslashes(p[..1], p[1..|p| - 2], p[|p| - 2..]);
    assert p == p[..1] + p[1..|p| - 2] + p[|p| - 2..];
  }

  lemma {:induction false} SlashedLegible(p: string, r: string, a: nat)
    requires Slashed(p, r, a) && NoBackslash(p)
    ensures Unescaped(r) == p
  {
    OneBackslash(p[..a], p[a..]);
    assert p == p[..a] + p[a..];
  }

  lemma ImStartPiped()
    ensures Piped("<|im_start|>", "<\\|im_start\\|>")
  {
    var p := "<|im_start|>";
    assert p[..1] == "<" && p[1..10] == "|im_start" && p[10..] == "|>";
  }

  lemma ImEndPiped()
    ensures Piped("<|im_end|>", "<\\|im_end\\|>")
  {
    var p := "<|im_end|>";
    assert p[..1] == "<" && p[1..8] == "|im_end" && p[8..] == "|>";
  }

  lemma SystemPiped()
    ensures Piped("<|system|>", "<\\|system\\|>")
  {
    var p := "<|system|>";
    assert p[..1] == "<" && p[1..8] == "|system" && p[8..] == "|>";
  }

  lemma UserPiped()
    ensures Piped("<|user|>", "<\\|user\\|>")
  {
    var p := "<|user|>";
    assert p[..1] == "<" && p[1..6] == "|user" && p[6..] == "|>";
  }

  lemma AssistantPiped()
    ensures Piped("<|assistant|>", "<\\|assistant\\|>")
  {
    var p := "<|assistant|>";
    assert p[..1] == "<" && p[1..11] == "|assistant" && p[11..] == "|>";
  }

  lemma EndOfTextPiped()
    ensures Piped("<|endoftext|>", "<\\|endoftext\\|>")
  {
    var p := "<|endoftext|>";
    assert p[..1] == "<" && p[1..11] == "|endoftext" && p[11..] == "|>";
  }

  lemma PipesOfRows(k: nat)
    requires k < 6
    ensures Piped(INJECTION_PATTERNS[k].pattern, INJECTION_PATTERNS[k].replacement)
  {
    ImStartPiped();
    ImEndPiped();
    SystemPiped();
    UserPiped();
    AssistantPiped();
    EndOfTextPiped();
  }

  lemma BracketsSlashed(k: nat)
    requires 6 <= k < 10
    ensures var row := INJECTION_PATTERNS[k]; Slashed(row.pattern, row.replacement, row.backslash)
  {
  }

  lemma InjectionPatternsLegible()
    requires Good(INJECTION_PATTERNS)
    ensures Legible(INJECTION_PATTERNS)
  {
    forall k | 0 <= k < 10
      ensures Unescaped(INJECTION_PATTERNS[k].replacement) == INJECTION_PATTERNS[k].pattern
    {
      var row := INJECTION_PATTERNS[k];
      assert WellFormed(row.pattern);
      if k < 6 {
        PipesOfRows(k);
        PipedLegible(row.pattern, row.replacement);
      } else {
        BracketsSlashed(k);
        SlashedLegible(row.pattern, row.replacement, row.backslash);
      }
    }
  }

  // ----- the sanitizer -----

  predicate IsAscii(s: string) {
    forall i :: 0 <= i < |s| ==> s[i] < 128 as char
  }

  /** Replaces occurrence after occurrence, delimiter after delimiter. The result is the
      simultaneous replacement of all of them, and none is left. */
  method SanitizeUserInput(input: string) returns (result: string)
    requires IsAscii(input)
    ensures result == ReplaceAll(INJECTION_PATTERNS, input)
    ensures Clean(INJECTION_PATTERNS, result)
    ensures forall k: nat, i: nat :: k < 10 ==> !ShowsAt(result, i, INJECTION_PATTERNS[k].pattern)
    ensures Lower(Unescaped(result)) == Lower(Unescaped(input))
  {
    InjectionPatternsGood();
    InjectionPatternsLegible();
    result := SanitizeWith(INJECTION_PATTERNS, input);
    CleanInAnyCase(INJECTION_PATTERNS, result);
  }

  /** Lower-cased, the text shows `p` at position `i`. */
  predicate ShowsAt(s: string, i: nat, p: string) {
    i + |p| <= |s| && Lower(s[i..i + |p|]) == Lower(p)
  }

  lemma CleanInAnyCase(t: Table, s: string)
    requires Clean(t, s)
    ensures forall k: nat, i: nat :: k < |t| ==> !ShowsAt(s, i, t[k].pattern)
  {
    forall k: nat, i: nat | k < |t|
      ensures !ShowsAt(s, i, t[k].pattern)
    {
      assert Absent(t, s, k) && !Matches(t, s, i, k);
      ShownOccurs(s, i, t[k].pattern);
    }
  }

  lemma ShownOccurs(s: string, i: nat, p: string)
    ensures ShowsAt(s, i, p) ==> Occurs(s, i, p)
  {
    if ShowsAt(s, i, p) {
      forall x | i <= x < i + |p|
        ensures LowerChar(s[x]) == LowerChar(p[x - i])
      {
        assert Lower(s[i..i + |p|])[x - i] == LowerChar(s[x]) && Lower(p)[x - i] == LowerChar(p[x - i]);
      }
    }
  }

  method SanitizeWith(t: Table, input: string) returns (result: string)
    requires Good(t)
    ensures result == ReplaceAll(t, input) && Clean(t, result)
    ensures Legible(t) ==> Lower(Unescaped(result)) == Lower(Unescaped(input))
  {
    result := input;
    for k := 0 to |t|
      invariant ReplaceAll(t, result) == ReplaceAll(t, input) && CleanBelow(t, result, k)
      invariant Legible(t) ==> Lower(Unescaped(result)) == Lower(Unescaped(input))
    {
      result := EscapeRow(t, result, k);
    }
    CleanIsFixed(t, result);
  }

  /** The inner loop: replaces occurrence after occurrence of one delimiter. */
  method EscapeRow(t: Table, input: string, k: nat) returns (result: string)
    requires Good(t) && k < |t| && CleanBelow(t, input, k)
    ensures ReplaceAll(t, result) == ReplaceAll(t, input) && CleanBelow(t, result, k + 1)
    ensures Legible(t) ==> Lower(Unescaped(result)) == Lower(Unescaped(input))
  {
    result := input;
    var pos := Find(t, result, k);
    while pos.Some?
      invariant ReplaceAll(t, result) == ReplaceAll(t, input) && CleanBelow(t, result, k)
      invariant pos == Find(t, result, k)
      invariant Legible(t) ==> Lower(Unescaped(result)) == Lower(Unescaped(input))
      decreases Occurrences(t, result)
    {
      EscapeStep(t, result, k, pos.value);
      if Legible(t) {
        EscapeSays(t, result, k, pos.value);
      }
      result := EscapeAt(t, result, k, pos.value);
      pos := Find(t, result, k);
    }
  }
}
