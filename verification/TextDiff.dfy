/**
 The line diff of the `text_diff` tool: a table of longest-common-subsequence lengths filled
 in place, and a backtrace through it that emits the diff from its last line to its first.
 */
module TextDiff {
  import opened Sequences

  type Line = string

  // ----- edit scripts: what a diff means -----

  datatype Edit = Keep(line: Line) | Insert(line: Line) | Delete(line: Line)

  /** The lines of the first text according to a script. */
  function Before(script: seq<Edit>): seq<Line> {
    if script == [] then []
    else (if script[0].Insert? then [] else [script[0].line]) + Before(script[1..])
  }

  /** The lines of the second text according to a script. */
  function After(script: seq<Edit>): seq<Line> {
    if script == [] then []
    else (if script[0].Delete? then [] else [script[0].line]) + After(script[1..])
  }

  function Insertions(script: seq<Edit>): nat {
    if script == [] then 0 else (if script[0].Insert? then 1 else 0) + Insertions(script[1..])
  }

  function Deletions(script: seq<Edit>): nat {
    if script == [] then 0 else (if script[0].Delete? then 1 else 0) + Deletions(script[1..])
  }

  /** The lines a script keeps. */
  function Kept(script: seq<Edit>): seq<Line> {
    if script == [] then []
    else (if script[0].Keep? then [script[0].line] else []) + Kept(script[1..])
  }

  ghost predicate Turns(script: seq<Edit>, a: seq<Line>, b: seq<Line>) {
    Before(script) == a && After(script) == b
  }

  // ----- the table -----

  /** What the table holds in row `i` and column `j`. */
  function Lcs(a: seq<Line>, b: seq<Line>, i: nat, j: nat): nat
    requires i <= |a| && j <= |b|
  {
    if i == 0 || j == 0 then 0
    else if a[i - 1] == b[j - 1] then Lcs(a, b, i - 1, j - 1) + 1
    else if Lcs(a, b, i - 1, j) >= Lcs(a, b, i, j - 1) then Lcs(a, b, i - 1, j)
    else Lcs(a, b, i, j - 1)
  }

  /** The first `n` entries of row `x` are what they should be. */
  ghost predicate RowFilled(lcs: array2<nat>, a: seq<Line>, b: seq<Line>, x: nat, n: nat)
    requires lcs.Length0 == |a| + 1 && lcs.Length1 == |b| + 1 && x <= |a| && n <= |b| + 1
    reads lcs
  {
    forall y :: 0 <= y < n ==> lcs[x, y] == Lcs(a, b, x, y)
  }

  /** One run of the inner loop, which fills row `i`. */
  method FillRow(lcs: array2<nat>, a: seq<Line>, b: seq<Line>, i: nat)
    requires lcs.Length0 == |a| + 1 && lcs.Length1 == |b| + 1 && 0 < i <= |a|
    requires RowFilled(lcs, a, b, i - 1, |b| + 1) && lcs[i, 0] == 0
    modifies lcs
    ensures RowFilled(lcs, a, b, i, |b| + 1)
    ensures forall x, y :: 0 <= x <= |a| && 0 <= y <= |b| && x != i ==> lcs[x, y] == old(lcs[x, y])
  {
    for j := 1 to |b| + 1
      invariant RowFilled(lcs, a, b, i, j)
      invariant forall x, y :: 0 <= x <= |a| && 0 <= y <= |b| && x != i ==> lcs[x, y] == old(lcs[x, y])
    {
      assert lcs[i - 1, j - 1] == Lcs(a, b, i - 1, j - 1) && lcs[i - 1, j] == Lcs(a, b, i - 1, j);
      if a[i - 1] == b[j - 1] {
        lcs[i, j] := lcs[i - 1, j - 1] + 1;
      } else if lcs[i - 1, j] >= lcs[i, j - 1] {
        lcs[i, j] := lcs[i - 1, j];
      } else {
        lcs[i, j] := lcs[i, j - 1];
      }
    }
  }

  method FillTable(a: seq<Line>, b: seq<Line>) returns (lcs: array2<nat>)
    ensures fresh(lcs) && lcs.Length0 == |a| + 1 && lcs.Length1 == |b| + 1
    ensures forall x, y :: 0 <= x <= |a| && 0 <= y <= |b| ==> lcs[x, y] == Lcs(a, b, x, y)
  {
    lcs := new nat[|a| + 1, |b| + 1]((_, _) => 0);
    for i := 1 to |a| + 1
      invariant forall x, y :: 0 <= x < i && 0 <= y <= |b| ==> lcs[x, y] == Lcs(a, b, x, y)
      invariant forall x :: i <= x <= |a| ==> lcs[x, 0] == 0
    {
      FillRow(lcs, a, b, i);
    }
  }

  /** Dropping the last line of one text costs at most one common line. */
  lemma {:induction false} LcsStep(a: seq<Line>, b: seq<Line>, i: nat, j: nat)
    requires i <= |a| && j <= |b|
    ensures i > 0 ==> Lcs(a, b, i - 1, j) <= Lcs(a, b, i, j) <= Lcs(a, b, i - 1, j) + 1
    ensures j > 0 ==> Lcs(a, b, i, j - 1) <= Lcs(a, b, i, j) <= Lcs(a, b, i, j - 1) + 1
    decreases i + j
  {
    if i > 0 && j > 0 {
      LcsStep(a, b, i - 1, j);
      LcsStep(a, b, i, j - 1);
      LcsStep(a, b, i - 1, j - 1);
    }
  }

  /** No common subsequence is longer than the table entry. */
  lemma {:induction false} LcsIsUpperBound(a: seq<Line>, b: seq<Line>, i: nat, j: nat, c: seq<Line>)
    requires i <= |a| && j <= |b|
    requires Subsequence(c, a[..i]) && Subsequence(c, b[..j])
    ensures |c| <= Lcs(a, b, i, j)
    decreases i + j
  {
    if c != [] {
      assert a[..i][..i - 1] == a[..i - 1] && b[..j][..j - 1] == b[..j - 1];
      LcsStep(a, b, i, j);
      if Subsequence(c, a[..i - 1]) {
        LcsIsUpperBound(a, b, i - 1, j, c);
      } else if Subsequence(c, b[..j - 1]) {
        LcsIsUpperBound(a, b, i, j - 1, c);
      } else {
        LcsIsUpperBound(a, b, i - 1, j - 1, c[..|c| - 1]);
      }
    }
  }

  // ----- counting lines of a script -----

  lemma {:induction false} ScriptCounts(script: seq<Edit>)
    ensures |Kept(script)| + Deletions(script) == |Before(script)|
    ensures |Kept(script)| + Insertions(script) == |After(script)|
  {
    if script != [] {
      ScriptCounts(script[1..]);
    }
  }

  lemma {:induction false} KeptIsCommon(script: seq<Edit>)
    ensures Subsequence(Kept(script), Before(script))
    ensures Subsequence(Kept(script), After(script))
  {
    if script != [] {
      KeptIsCommon(script[1..]);
      var x := script[0].line;
      SubsequencePrepend(x, Kept(script[1..]), Before(script[1..]));
      SubsequencePrepend(x, Kept(script[1..]), After(script[1..]));
      assert script[0].Insert? ==> Before(script) == Before(script[1..]) && Kept(script) == Kept(script[1..]);
      assert script[0].Delete? ==> After(script) == After(script[1..]) && Kept(script) == Kept(script[1..]);
    }
  }

  /** A script that keeps as many lines as the table says changes no more lines than any other. */
  lemma {:induction false} ScriptIsMinimal(script: seq<Edit>, other: seq<Edit>, a: seq<Line>, b: seq<Line>)
    requires Turns(script, a, b) && Turns(other, a, b)
    requires |Kept(script)| == Lcs(a, b, |a|, |b|)
    ensures Insertions(script) + Deletions(script) <= Insertions(other) + Deletions(other)
  {
    ScriptCounts(script);
    ScriptCounts(other);
    KeptIsCommon(other);
    assert a[..|a|] == a && b[..|b|] == b;
    LcsIsUpperBound(a, b, |a|, |b|, Kept(other));
  }

  /** The script that keeps every line. */
  function KeepAll(a: seq<Line>): (script: seq<Edit>)
    ensures Turns(script, a, a) && Insertions(script) == Deletions(script) == 0
  {
    if a == [] then []
    else
      assert a == [a[0]] + a[1..];
      [Keep(a[0])] + KeepAll(a[1..])
  }

  lemma {:induction false} UnchangedScript(script: seq<Edit>)
    requires Insertions(script) == Deletions(script) == 0
    ensures Before(script) == After(script)
  {
    if script != [] {
      UnchangedScript(script[1..]);
    }
  }

  // ----- text -----

  function IndexOfNewline(text: string): (k: nat)
    ensures k <= |text| && '\n' !in text[..k] && (k < |text| ==> text[k] == '\n')
  {
    if text == "" || text[0] == '\n' then 0
    else
      var k := IndexOfNewline(text[1..]);
      assert text[..k + 1] == [text[0]] + text[1..][..k];
      k + 1
  }

  function StripCarriageReturn(s: string): string {
    if s != "" && s[|s| - 1] == '\r' then s[..|s| - 1] else s
  }

  /** `str::lines`: a final line break ends the last line and a `\r` before a line break is dropped. */
  function Lines(text: string): (ls: seq<Line>)
    ensures forall i :: 0 <= i < |ls| ==> '\n' !in ls[i]
    decreases |text|
  {
    if text == "" then []
    else
      var k := IndexOfNewline(text);
      if k == |text| then [text] else [StripCarriageReturn(text[..k])] + Lines(text[k + 1..])
  }

  function LineBreak(crlf: bool): string {
    if crlf then "\r\n" else "\n"
  }

  /** A text of these lines, each ended by `\r\n` or by `\n` alone. */
  function Written(ls: seq<Line>, crlf: seq<bool>): string
    requires |ls| == |crlf|
  {
    if ls == [] then ""
    else ls[0] + LineBreak(crlf[0]) + Written(ls[1..], crlf[1..])
  }

  /** No line holds a line break, and none that ends in `\n` alone ends in `\r`. */
  ghost predicate Writable(ls: seq<Line>, crlf: seq<bool>) {
    |ls| == |crlf| &&
    (ls != [] ==>
      && '\n' !in ls[0] && (!crlf[0] && ls[0] != "" ==> ls[0][|ls[0]| - 1] != '\r')
      && Writable(ls[1..], crlf[1..]))
  }

  lemma {:induction false} FirstLine(text: string, line: Line, crlf: bool, rest: string)
    requires '\n' !in line && (!crlf && line != "" ==> line[|line| - 1] != '\r')
    requires text == line + LineBreak(crlf) + rest
    ensures Lines(text) == [line] + Lines(rest)
  {
    var k := |line| + if crlf then 1 else 0;
    assert text[..k] == line + if crlf then "\r" else "";
    IndexOfNewlineAt(text, k);
    assert text[k + 1..] == rest;
    assert StripCarriageReturn(text[..k]) == line;
  }

  /** Written lines read back, whatever their line breaks, and so does a last line without one. */
  lemma {:induction false} LinesOfWritten(ls: seq<Line>, crlf: seq<bool>, last: string)
    requires Writable(ls, crlf) && '\n' !in last
    ensures Lines(Written(ls, crlf) + last) == ls + if last == "" then [] else [last]
  {
    if ls == [] {
      assert Written(ls, crlf) + last == last;
      UnendedLine(last);
    } else {
      var rest := Written(ls[1..], crlf[1..]) + last;
      LinesOfWritten(ls[1..], crlf[1..], last);
      WrittenSplits(ls, crlf, last, rest);
      FirstLine(Written(ls, crlf) + last, ls[0], crlf[0], rest);
      Regroup(ls, if last == "" then [] else [last]);
    }
  }

  lemma Regroup(ls: seq<Line>, end: seq<Line>)
    requires ls != []
    ensures [ls[0]] + (ls[1..] + end) == ls + end
  {
  }

  lemma {:induction false} UnendedLine(last: string)
    requires '\n' !in last
    ensures Lines(last) == if last == "" then [] else [last]
  {
    if last != "" {
      IndexOfNewlineAt(last, |last|);
    }
  }

  lemma {:induction false} WrittenSplits(ls: seq<Line>, crlf: seq<bool>, last: string, rest: string)
    requires |ls| == |crlf| && ls != [] && rest == Written(ls[1..], crlf[1..]) + last
    ensures Written(ls, crlf) + last == ls[0] + LineBreak(crlf[0]) + rest
  {
  }

  /** Every text is one of these, so that `LinesOfWritten` says what the lines of any text are. */
  lemma {:induction false} EveryTextWritten(text: string) returns (ls: seq<Line>, crlf: seq<bool>, last: string)
    ensures Writable(ls, crlf) && '\n' !in last && text == Written(ls, crlf) + last
    decreases |text|
  {
    var k := IndexOfNewline(text);
    if k == |text| {
      ls, crlf, last := [], [], text;
      assert text[..k] == text;
    } else {
      var ls', crlf', last' := EveryTextWritten(text[k + 1..]);
      var line, cr := EndedLine(text, k);
      ls, crlf, last := [line] + ls', [cr] + crlf', last';
      assert ls[1..] == ls' && crlf[1..] == crlf';
      assert text == text[..k + 1] + text[k + 1..];
      WrittenSplits(ls, crlf, last, text[k + 1..]);
    }
  }

  lemma EndedLine(text: string, k: nat) returns (line: Line, cr: bool)
    requires k < |text| && '\n' !in text[..k] && text[k] == '\n'
    ensures '\n' !in line && (!cr && line != "" ==> line[|line| - 1] != '\r')
    ensures line + LineBreak(cr) == text[..k + 1]
  {
    cr := k > 0 && text[k - 1] == '\r';
    line := if cr then text[..k - 1] else text[..k];
  }

  /** `[_]::join("\n")`. */
  function Join(ls: seq<Line>): string {
    if ls == [] then ""
    else if |ls| == 1 then ls[0]
    else ls[0] + "\n" + Join(ls[1..])
  }

  /** `str::split('\n')`. */
  function Split(text: string): seq<Line>
    decreases |text|
  {
    var k := IndexOfNewline(text);
    if k == |text| then [text] else [text[..k]] + Split(text[k + 1..])
  }

  lemma {:induction false} IndexOfNewlineAt(text: string, k: nat)
    requires k <= |text| && '\n' !in text[..k] && (k < |text| ==> text[k] == '\n')
    ensures IndexOfNewline(text) == k
  {
  }

  lemma {:induction false} SplitJoin(ls: seq<Line>)
    requires ls != [] && forall i :: 0 <= i < |ls| ==> '\n' !in ls[i]
    ensures Split(Join(ls)) == ls
  {
    var text := Join(ls);
    if |ls| == 1 {
      assert text[..|text|] == ls[0];
      IndexOfNewlineAt(text, |text|);
    } else {
      var k := |ls[0]|;
      assert text[..k] == ls[0] && text[k + 1..] == Join(ls[1..]);
      IndexOfNewlineAt(text, k);
      SplitJoin(ls[1..]);
    }
  }

  /** A line of the diff. */
  function Mark(e: Edit): Line {
    (match e case Keep(_) => " " case Insert(_) => "+" case Delete(_) => "-") + e.line
  }

  function Rendered(script: seq<Edit>): (ls: seq<Line>)
    ensures |ls| == |script| && forall k :: 0 <= k < |ls| ==> ls[k] == Mark(script[k])
  {
    seq(|script|, k requires 0 <= k < |script| => Mark(script[k]))
  }

  /** The diff lines that do not start with `dropped`, without their marks. */
  function Unmark(ls: seq<Line>, dropped: char): seq<Line> {
    if ls == [] then []
    else
      (if ls[0] != "" && ls[0][0] != dropped then [ls[0][1..]] else []) + Unmark(ls[1..], dropped)
  }

  /** Reading one side back from the text of a diff. */
  function ReadBack(diff: string, dropped: char): seq<Line> {
    Unmark(DiffLines(diff), dropped)
  }

  /** How many lines start with this mark. */
  function Marked(ls: seq<Line>, mark: char): nat {
    if ls == [] then 0 else (if ls[0] != "" && ls[0][0] == mark then 1 else 0) + Marked(ls[1..], mark)
  }

  /** The lines of a diff's text; the empty text is the empty diff. */
  function DiffLines(diff: string): seq<Line> {
    if diff == "" then [] else Split(diff)
  }

  lemma {:induction false} MarkedRendered(script: seq<Edit>)
    ensures Marked(Rendered(script), '+') == Insertions(script)
    ensures Marked(Rendered(script), '-') == Deletions(script)
    ensures Marked(Rendered(script), ' ') == |Kept(script)|
    ensures |script| == |Kept(script)| + Insertions(script) + Deletions(script)
  {
    if script != [] {
      assert Rendered(script)[1..] == Rendered(script[1..]);
      MarkedRendered(script[1..]);
    }
  }

  lemma {:induction false} UnmarkRendered(script: seq<Edit>)
    ensures Unmark(Rendered(script), '+') == Before(script)
    ensures Unmark(Rendered(script), '-') == After(script)
  {
    if script != [] {
      var ls := Rendered(script);
      assert ls[1..] == Rendered(script[1..]);
      assert ls[0][1..] == script[0].line;
      UnmarkRendered(script[1..]);
    }
  }

  lemma {:induction false} ScriptLines(script: seq<Edit>)
    ensures forall k :: 0 <= k < |script| ==> script[k].line in Before(script) || script[k].line in After(script)
  {
    if script != [] {
      ScriptLines(script[1..]);
      forall k | 0 <= k < |script|
        ensures script[k].line in Before(script) || script[k].line in After(script)
      {
        assert k > 0 ==> script[k] == script[1..][k - 1];
      }
    }
  }

  /** Both texts can be read back from the joined diff. */
  lemma DiffReadsBack(script: seq<Edit>, a: seq<Line>, b: seq<Line>)
    requires Turns(script, a, b)
    requires forall x :: x in a || x in b ==> '\n' !in x
    ensures ReadBack(Join(Rendered(script)), '+') == a
    ensures ReadBack(Join(Rendered(script)), '-') == b
    ensures DiffLines(Join(Rendered(script))) == Rendered(script)
  {
    if script != [] {
      ScriptLines(script);
      SplitJoin(Rendered(script));
      UnmarkRendered(script);
    }
  }

  function Reversed(s: seq<Line>): (r: seq<Line>)
    ensures |r| == |s| && forall k :: 0 <= k < |s| ==> r[k] == s[|s| - 1 - k]
  {
    seq(|s|, k requires 0 <= k < |s| => s[|s| - 1 - k])
  }

  // ----- the tool -----

  /** The text of a diff and its counts come from a script that turns `a` into `b` and keeps
      as many lines as the table's last entry says. */
  ghost predicate DiffOf(script: seq<Edit>, a: seq<Line>, b: seq<Line>, diff: string, additions: nat, deletions: nat) {
    Turns(script, a, b) && diff == Join(Rendered(script)) &&
    additions == Insertions(script) && deletions == Deletions(script) &&
    |Kept(script)| == Lcs(a, b, |a|, |b|) && DeletionsFirst(script)
  }

  /** `script` covers `a` from line `i` and `b` from line `j`, and what it keeps together with
      what the table promises for the rest is the table's last entry. */
  ghost predicate Covers(script: seq<Edit>, a: seq<Line>, b: seq<Line>, i: nat, j: nat)
    requires i <= |a| && j <= |b|
  {
    Before(script) == a[i..] && After(script) == b[j..] &&
    |Kept(script)| + Lcs(a, b, i, j) == Lcs(a, b, |a|, |b|)
  }

  lemma {:induction false} CoverStep(script: seq<Edit>, e: Edit, a: seq<Line>, b: seq<Line>,
      i: nat, j: nat, i': nat, j': nat)
    requires i <= |a| && j <= |b| && Covers(script, a, b, i, j)
    requires i' == i - (if e.Insert? then 0 else 1) && j' == j - (if e.Delete? then 0 else 1)
    requires !e.Insert? ==> e.line == a[i - 1]
    requires !e.Delete? ==> e.line == b[j - 1]
    requires Lcs(a, b, i, j) == Lcs(a, b, i', j') + if e.Keep? then 1 else 0
    ensures Covers([e] + script, a, b, i', j')
    ensures Insertions([e] + script) == Insertions(script) + if e.Insert? then 1 else 0
    ensures Deletions([e] + script) == Deletions(script) + if e.Delete? then 1 else 0
  {
    assert ([e] + script)[1..] == script;
    assert i' < i ==> a[i'..] == [a[i']] + a[i..];
    assert j' < j ==> b[j'..] == [b[j']] + b[j..];
  }

  lemma EmitStep(diffLines: seq<Line>, script: seq<Edit>, e: Edit)
    requires Reversed(diffLines) == Rendered(script)
    ensures Reversed(diffLines + [Mark(e)]) == Rendered([e] + script)
  {
    var r := Reversed(diffLines + [Mark(e)]);
    assert r == [Mark(e)] + Reversed(diffLines);
  }

  // ----- the order of deletions and insertions -----

  /** No insertion stands directly before a deletion: in every run of changes, deletions come first. */
  ghost predicate DeletionsFirst(script: seq<Edit>) {
    forall k :: 0 <= k < |script| - 1 && script[k].Insert? ==> !script[k + 1].Delete?
  }

  /** The script is in that order, and if it starts with a deletion the table rules out an insertion before it. */
  ghost predicate InOrder(script: seq<Edit>, a: seq<Line>, b: seq<Line>, i: nat, j: nat)
    requires i <= |a| && j <= |b|
  {
    && DeletionsFirst(script)
    && (script != [] && script[0].Delete? ==> i < |a| && (j == 0 || Lcs(a, b, i + 1, j - 1) < Lcs(a, b, i, j)))
  }

  lemma NoInsertionBefore(a: seq<Line>, b: seq<Line>, i: nat, j: nat)
    requires i < |a| && 0 < j <= |b| && Lcs(a, b, i + 1, j - 1) < Lcs(a, b, i, j)
    ensures i > 0 && (a[i - 1] != b[j - 1] ==> Lcs(a, b, i, j - 1) < Lcs(a, b, i - 1, j))
  {
    LcsStep(a, b, i + 1, j - 1);
  }

  lemma {:induction false} OrderStep(script: seq<Edit>, e: Edit, a: seq<Line>, b: seq<Line>,
      i: nat, j: nat, i': nat, j': nat)
    requires i <= |a| && j <= |b| && InOrder(script, a, b, i, j)
    requires i' == i - (if e.Insert? then 0 else 1) && j' == j - (if e.Delete? then 0 else 1)
    requires e.Insert? ==> i == 0 || (a[i - 1] != b[j - 1] && Lcs(a, b, i, j - 1) >= Lcs(a, b, i - 1, j))
    requires e.Delete? ==> j == 0 || Lcs(a, b, i, j - 1) < Lcs(a, b, i - 1, j)
    ensures InOrder([e] + script, a, b, i', j')
  {
    if e.Insert? && i < |a| && Lcs(a, b, i + 1, j - 1) < Lcs(a, b, i, j) {
      NoInsertionBefore(a, b, i, j);
    }
    forall k | 0 <= k < |[e] + script| - 1 && ([e] + script)[k].Insert?
      ensures !([e] + script)[k + 1].Delete?
    {
      assert ([e] + script)[k + 1] == script[k] && (k > 0 ==> ([e] + script)[k] == script[k - 1]);
    }
  }

  /** No `+` line of the diff stands directly before a `-` line. */
  ghost predicate MinusFirst(ls: seq<Line>) {
    forall k :: 0 <= k < |ls| - 1 && "+" <= ls[k] ==> !("-" <= ls[k + 1])
  }

  lemma RenderedInOrder(script: seq<Edit>)
    requires DeletionsFirst(script)
    ensures MinusFirst(Rendered(script))
  {
    var ls := Rendered(script);
    forall k | 0 <= k < |ls| - 1 && "+" <= ls[k]
      ensures !("-" <= ls[k + 1])
    {
      assert ls[k][0] == Mark(script[k])[0] && ls[k + 1][0] == Mark(script[k + 1])[0];
    }
  }

  // ----- the backtrace -----

  /** What the lines emitted so far mean when `i` and `j` lines are left. */
  ghost predicate Traced(script: seq<Edit>, diffLines: seq<Line>, additions: nat, deletions: nat,
      a: seq<Line>, b: seq<Line>, i: nat, j: nat)
  {
    && i <= |a| && j <= |b| && Covers(script, a, b, i, j) && InOrder(script, a, b, i, j)
    && additions == Insertions(script) && deletions == Deletions(script)
    && Reversed(diffLines) == Rendered(script)
  }

  /** The branch that the table asks for. */
  ghost predicate Taken(e: Edit, a: seq<Line>, b: seq<Line>, i: nat, j: nat)
    requires i <= |a| && j <= |b|
  {
    match e
    case Keep(line) => i > 0 && j > 0 && line == a[i - 1] == b[j - 1]
    case Insert(line) =>
      j > 0 && line == b[j - 1] && (i == 0 || (a[i - 1] != b[j - 1] && Lcs(a, b, i, j - 1) >= Lcs(a, b, i - 1, j)))
    case Delete(line) =>
      i > 0 && line == a[i - 1] && (j == 0 || (a[i - 1] != b[j - 1] && Lcs(a, b, i, j - 1) < Lcs(a, b, i - 1, j)))
  }

  lemma {:induction false} TraceStep(script: seq<Edit>, diffLines: seq<Line>, additions: nat, deletions: nat,
      e: Edit, a: seq<Line>, b: seq<Line>, i: nat, j: nat, i': nat, j': nat)
    requires Traced(script, diffLines, additions, deletions, a, b, i, j) && Taken(e, a, b, i, j)
    requires i' == i - (if e.Insert? then 0 else 1) && j' == j - (if e.Delete? then 0 else 1)
    ensures Traced([e] + script, diffLines + [Mark(e)], additions + (if e.Insert? then 1 else 0),
                   deletions + (if e.Delete? then 1 else 0), a, b, i', j')
  {
    EmitStep(diffLines, script, e);
    CoverStep(script, e, a, b, i, j, i', j');
    OrderStep(script, e, a, b, i, j, i', j');
  }

  /** From the ends of both texts to their starts. */
  method Backtrace(a: seq<Line>, b: seq<Line>, lcs: array2<nat>)
    returns (diff: string, additions: nat, deletions: nat)
    requires lcs.Length0 == |a| + 1 && lcs.Length1 == |b| + 1
    requires forall x, y :: 0 <= x <= |a| && 0 <= y <= |b| ==> lcs[x, y] == Lcs(a, b, x, y)
    ensures exists script :: DiffOf(script, a, b, diff, additions, deletions)
  {
    var diffLines: seq<Line> := [];
    ghost var script: seq<Edit> := [];
    additions, deletions := 0, 0;
    var i, j := |a|, |b|;
    while i > 0 || j > 0
      invariant 0 <= i <= |a| && 0 <= j <= |b| && Traced(script, diffLines, additions, deletions, a, b, i, j)
      decreases i + j
    {
      ghost var e, i0, j0 := Keep(""), i, j;
      ghost var lines0, additions0, deletions0 := diffLines, additions, deletions;
      if i > 0 && j > 0 && a[i - 1] == b[j - 1] {
        e := Keep(a[i - 1]);
        diffLines := diffLines + [" " + a[i - 1]];
        i, j := i - 1, j - 1;
      } else if j > 0 && (i == 0 || lcs[i, j - 1] >= lcs[i - 1, j]) {
        e := Insert(b[j - 1]);
        diffLines := diffLines + ["+" + b[j - 1]];
        additions, j := additions + 1, j - 1;
      } else if i > 0 {
        e := Delete(a[i - 1]);
        diffLines := diffLines + ["-" + a[i - 1]];
        deletions, i := deletions + 1, i - 1;
      }
      TraceStep(script, lines0, additions0, deletions0, e, a, b, i0, j0, i, j);
      script := [e] + script;
    }
    diff := Join(Reversed(diffLines));
    assert DiffOf(script, a, b, diff, additions, deletions);
  }

  /** The lines that a minimal script keeps form a longest common subsequence. */
  lemma {:induction false} ContextIsLongest(script: seq<Edit>, a: seq<Line>, b: seq<Line>)
    requires Turns(script, a, b) && |Kept(script)| == Lcs(a, b, |a|, |b|)
    ensures Subsequence(Kept(script), a) && Subsequence(Kept(script), b)
    ensures |Kept(script)| == |a| - Deletions(script)
    ensures forall c :: Subsequence(c, a) && Subsequence(c, b) ==> |c| <= |Kept(script)|
  {
    ScriptCounts(script);
    KeptIsCommon(script);
    assert a[..|a|] == a && b[..|b|] == b;
    forall c | Subsequence(c, a) && Subsequence(c, b)
      ensures |c| <= |Kept(script)|
    {
      LcsIsUpperBound(a, b, |a|, |b|, c);
    }
  }

  /** A minimal script changes something exactly when the texts differ. */
  lemma {:induction false} ChangesReported(script: seq<Edit>, a: seq<Line>, b: seq<Line>)
    requires Turns(script, a, b) && |Kept(script)| == Lcs(a, b, |a|, |b|)
    ensures Insertions(script) > 0 || Deletions(script) > 0 <==> a != b
  {
    if a == b {
      ScriptIsMinimal(script, KeepAll(a), a, b);
    } else if Insertions(script) == 0 && Deletions(script) == 0 {
      UnchangedScript(script);
    }
  }

  /** The diff of two texts: it reads back as both of them, no edit script between them changes
      fewer lines, no common subsequence is longer than its context lines, and in each run of
      changes the deletions come first. */
  method ComputeDiff(textA: string, textB: string) returns (diff: string, additions: nat, deletions: nat)
    ensures var a, b := Lines(textA), Lines(textB);
      && ReadBack(diff, '+') == a
      && ReadBack(diff, '-') == b
      && (exists script :: DiffOf(script, a, b, diff, additions, deletions))
      && (forall other :: Turns(other, a, b) ==> additions + deletions <= Insertions(other) + Deletions(other))
      && (forall c :: Subsequence(c, a) && Subsequence(c, b) ==> |c| <= |a| - deletions)
      && (exists c :: Subsequence(c, a) && Subsequence(c, b) && |c| == |a| - deletions)
      && (additions > 0 || deletions > 0 <==> a != b)
      && Marked(DiffLines(diff), '+') == additions && Marked(DiffLines(diff), '-') == deletions
      && Marked(DiffLines(diff), ' ') == |a| - deletions && |DiffLines(diff)| == |a| + additions
      && MinusFirst(DiffLines(diff))
  {
    var a, b := Lines(textA), Lines(textB);
    var lcs := FillTable(a, b);
    diff, additions, deletions := Backtrace(a, b, lcs);
    ghost var script :| DiffOf(script, a, b, diff, additions, deletions);
    DiffReadsBack(script, a, b);
    forall other | Turns(other, a, b)
      ensures additions + deletions <= Insertions(other) + Deletions(other)
    {
      ScriptIsMinimal(script, other, a, b);
    }
    ContextIsLongest(script, a, b);
    MarkedRendered(script);
    RenderedInOrder(script);
    ChangesReported(script, a, b);
  }
}
