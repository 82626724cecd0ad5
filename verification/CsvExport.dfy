/**
 The CSV export of the audit log, read back by a reader that follows the quoting rules of
 section 2 of RFC 4180 with records ended by a line feed.
 */
module CsvExport {
  import opened Wrappers

  /** The exported columns of an entry. */
  datatype Entry = Entry(sequenceNumber: nat, timestamp: string, eventType: string, hmac: string)

  const HEADER := ["sequence_number", "timestamp", "event_type", "hmac"]

  // ----- the writer -----

  predicate StartsFormula(s: string) {
    s != "" && (s[0] == '=' || s[0] == '+' || s[0] == '-' || s[0] == '@')
  }

  /** A leading tab on text that a spreadsheet would take for a formula. */
  function Guarded(s: string): string {
    if StartsFormula(s) then "\t" + s else s
  }

  predicate NeedsQuotes(s: string) {
    ',' in s || '"' in s || '\n' in s || '\t' in s
  }

  function DoubleQuotes(s: string): string {
    if s == "" then "" else (if s[0] == '"' then "\"\"" else [s[0]]) + DoubleQuotes(s[1..])
  }

  function Quoted(s: string): string {
    "\"" + (DoubleQuotes(s) + "\"")
  }

  function CsvEscape(s: string): string {
    if NeedsQuotes(Guarded(s)) then Quoted(Guarded(s)) else Guarded(s)
  }

  function Decimal(n: nat): string {
    (if n < 10 then "" else Decimal(n / 10)) + ['0' + (n % 10) as char]
  }

  function Row(texts: seq<string>): string {
    if texts == [] then "\n"
    else if |texts| == 1 then texts[0] + "\n"
    else texts[0] + ("," + Row(texts[1..]))
  }

  function Texts(e: Entry): seq<string> {
    [Decimal(e.sequenceNumber), CsvEscape(e.timestamp), CsvEscape(e.eventType), e.hmac]
  }

  function Rows(entries: seq<Entry>): string {
    if entries == [] then "" else Row(Texts(entries[0])) + Rows(entries[1..])
  }

  function Csv(entries: seq<Entry>): string {
    Row(HEADER) + Rows(entries)
  }

  lemma {:induction false} RowsSnoc(entries: seq<Entry>, e: Entry)
    ensures Rows(entries + [e]) == Rows(entries) + Row(Texts(e))
  {
    if entries != [] {
      assert (entries + [e])[1..] == entries[1..] + [e];
      RowsSnoc(entries[1..], e);
    }
  }

  lemma CsvSnoc(entries: seq<Entry>, e: Entry)
    ensures Csv(entries + [e]) == Csv(entries) + Row(Texts(e))
  {
    RowsSnoc(entries, e);
  }

  /** The header, then one row per entry. */
  method ExportCsv(entries: seq<Entry>) returns (out: string)
    ensures out == Csv(entries)
  {
    out := Row(HEADER);
    for i := 0 to |entries|
      invariant out == Csv(entries[..i])
    {
      var e := entries[i];
      assert entries[..i + 1] == entries[..i] + [e];
      CsvSnoc(entries[..i], e);
      out := out + Row(Texts(e));
    }
    assert entries[..|entries|] == entries;
  }

  // ----- the reader -----

  /** A character that ends an unquoted field. */
  predicate Special(c: char) {
    c == ',' || c == '"' || c == '\n' || c == '\r'
  }

  predicate Plain(s: string) {
    forall i :: 0 <= i < |s| ==> !Special(s[i])
  }

  function PlainLength(s: string): (n: nat)
    ensures n <= |s| && Plain(s[..n]) && (n < |s| ==> Special(s[n]))
  {
    if s == "" || Special(s[0]) then 0
    else
      var n := PlainLength(s[1..]);
      assert s[..n + 1] == [s[0]] + s[1..][..n];
      n + 1
  }

  /** The rest of a quoted field after its opening quote. */
  function ReadQuoted(s: string): (r: Option<(string, string)>)
    ensures r.Some? ==> |r.value.1| < |s|
  {
    if s == "" then None
    else if s[0] != '"' then
      var r := ReadQuoted(s[1..]);
      if r.None? then None else Some(([s[0]] + r.value.0, r.value.1))
    else if |s| > 1 && s[1] == '"' then
      var r := ReadQuoted(s[2..]);
      if r.None? then None else Some((['"'] + r.value.0, r.value.1))
    else Some(("", s[1..]))
  }

  function ReadField(s: string): (r: Option<(string, string)>)
    ensures r.Some? ==> |r.value.1| <= |s|
  {
    if s != "" && s[0] == '"' then ReadQuoted(s[1..])
    else Some((s[..PlainLength(s)], s[PlainLength(s)..]))
  }

  /** The fields of the first record, and what follows its line feed. */
  function ReadRecord(s: string): (r: Option<(seq<string>, string)>)
    ensures r.Some? ==> |r.value.1| < |s|
    decreases |s|
  {
    var f := ReadField(s);
    if f.None? || f.value.1 == "" then None
    else
      var (field, rest) := f.value;
      if rest[0] == '\n' then Some(([field], rest[1..]))
      else if rest[0] == ',' then
        var r := ReadRecord(rest[1..]);
        if r.None? then None else Some(([field] + r.value.0, r.value.1))
      else None
  }

  function ReadCsv(s: string): Option<seq<seq<string>>>
    decreases |s|
  {
    if s == "" then Some([])
    else
      var r := ReadRecord(s);
      if r.None? then None
      else
        var more := ReadCsv(r.value.1);
        if more.None? then None else Some([r.value.0] + more.value)
  }

  // ----- fields -----

  /** A text that the reader takes for this field. */
  ghost predicate Encodes(text: string, field: string) {
    (text == field && Plain(field)) || text == Quoted(field)
  }

  predicate Separator(c: char) {
    c == ',' || c == '\n'
  }

  lemma PlainReads(field: string, sep: char, rest: string)
    requires Plain(field) && Separator(sep)
    ensures ReadField(field + ([sep] + rest)) == Some((field, [sep] + rest))
  {
    var s := field + ([sep] + rest);
    var n := PlainLength(s);
    assert s[|field|] == sep && s[..|field|] == field && s[|field|..] == [sep] + rest;
  }

  lemma {:induction false} QuotedReads(field: string, sep: char, rest: string)
    requires sep != '"'
    ensures ReadQuoted(DoubleQuotes(field) + "\"" + ([sep] + rest)) == Some((field, [sep] + rest))
  {
    var s := DoubleQuotes(field) + "\"" + ([sep] + rest);
    if field == "" {
      assert s[1..] == [sep] + rest;
    } else {
      QuotedReads(field[1..], sep, rest);
      var tail := DoubleQuotes(field[1..]) + "\"" + ([sep] + rest);
      if field[0] == '"' {
        assert s[2..] == tail;
      } else {
        assert s[1..] == tail;
      }
      assert field == [field[0]] + field[1..];
    }
  }

  lemma EncodedReads(text: string, field: string, sep: char, rest: string)
    requires Encodes(text, field) && Separator(sep)
    ensures ReadField(text + ([sep] + rest)) == Some((field, [sep] + rest))
  {
    if text == field && Plain(field) {
      PlainReads(field, sep, rest);
    } else {
      QuotedReads(field, sep, rest);
      assert (text + ([sep] + rest))[1..] == DoubleQuotes(field) + "\"" + ([sep] + rest);
    }
  }

  /** How many quotes a text starts with. */
  function LeadingQuotes(s: string): nat {
    if s != "" && s[0] == '"' then 1 + LeadingQuotes(s[1..]) else 0
  }

  lemma {:induction false} LeadingQuotesBefore(s: string, sep: char, rest: string)
    requires sep != '"'
    ensures LeadingQuotes(s + ([sep] + rest)) == LeadingQuotes(s)
  {
    if s != "" {
      assert (s + ([sep] + rest))[1..] == s[1..] + ([sep] + rest);
      LeadingQuotesBefore(s[1..], sep, rest);
    }
  }

  lemma {:induction false} LeadingQuotesDoubled(s: string, rest: string)
    ensures LeadingQuotes(DoubleQuotes(s) + rest) >= 2 * LeadingQuotes(s)
  {
    if s != "" && s[0] == '"' {
      var d := DoubleQuotes(s) + rest;
      assert d[1..][1..] == DoubleQuotes(s[1..]) + rest;
      LeadingQuotesDoubled(s[1..], rest);
    }
  }

  /** What the reader takes for a quoted field is that field with its quotes doubled. */
  lemma {:induction false} QuotedSound(s: string)
    requires ReadQuoted(s).Some?
    ensures s == DoubleQuotes(ReadQuoted(s).value.0) + ("\"" + ReadQuoted(s).value.1)
  {
    var (field, rest) := ReadQuoted(s).value;
    if s[0] != '"' {
      QuotedSound(s[1..]);
      assert field[1..] == ReadQuoted(s[1..]).value.0;
      assert s == [s[0]] + s[1..];
    } else if |s| > 1 && s[1] == '"' {
      QuotedSound(s[2..]);
      assert field[1..] == ReadQuoted(s[2..]).value.0;
      assert s == "\"\"" + s[2..];
    }
  }

  /** A raw text reads as itself only if it needs no quoting. */
  lemma RawReadsPlain(text: string, sep: char, rest: string, tail: string)
    requires Separator(sep) && ReadField(text + ([sep] + rest)) == Some((text, tail))
    ensures Plain(text)
  {
    var s := text + ([sep] + rest);
    if text != "" && text[0] == '"' {
      QuotedSound(s[1..]);
      assert s[1..] == text[1..] + ([sep] + rest);
      LeadingQuotesBefore(text[1..], sep, rest);
      LeadingQuotesDoubled(text, "\"" + tail);
      assert false;
    }
  }

  // ----- records -----

  ghost predicate AllEncode(texts: seq<string>, fields: seq<string>) {
    |texts| == |fields| && forall i :: 0 <= i < |texts| ==> Encodes(texts[i], fields[i])
  }

  /** Each text is its field, quoted or not. */
  ghost predicate RawOrQuoted(texts: seq<string>, fields: seq<string>) {
    |texts| == |fields| && forall i :: 0 <= i < |texts| ==> texts[i] == fields[i] || texts[i] == Quoted(fields[i])
  }

  /** What follows the first text of a row: its separator, and the rest of the input. */
  function SeparatorOf(texts: seq<string>): char {
    if |texts| == 1 then '\n' else ','
  }

  function FollowUp(texts: seq<string>, rest: string): string
    requires texts != []
  {
    if |texts| == 1 then rest else Row(texts[1..]) + rest
  }

  lemma {:induction false} RowSplits(texts: seq<string>, rest: string)
    requires texts != []
    ensures Row(texts) + rest == texts[0] + ([SeparatorOf(texts)] + FollowUp(texts, rest))
  {
  }

  lemma {:induction false} RecordStep(s: string, field: string, sep: char, more: string)
    requires Separator(sep) && ReadField(s) == Some((field, [sep] + more))
    ensures ReadRecord(s) ==
            if sep == '\n' then Some(([field], more))
            else if ReadRecord(more).None? then None
            else Some(([field] + ReadRecord(more).value.0, ReadRecord(more).value.1))
  {
    assert ([sep] + more)[1..] == more;
  }

  lemma {:induction false} EncodedRecord(texts: seq<string>, fields: seq<string>, rest: string)
    requires texts != [] && AllEncode(texts, fields)
    ensures ReadRecord(Row(texts) + rest) == Some((fields, rest))
    decreases |texts|
  {
    EncodedFirst(texts, fields, rest);
    if |texts| == 1 {
      assert fields == [fields[0]];
    } else {
      EncodedRecord(texts[1..], fields[1..], rest);
      assert fields == [fields[0]] + fields[1..];
    }
  }

  /** A record starts with its first field, and the rest of it follows if the row has more texts. */
  lemma {:induction false} EncodedFirst(texts: seq<string>, fields: seq<string>, rest: string)
    requires texts != [] && AllEncode(texts, fields)
    ensures |texts| == 1 ==> ReadRecord(Row(texts) + rest) == Some(([fields[0]], rest))
    ensures |texts| > 1 ==>
              ReadRecord(Row(texts) + rest) == Prepended(fields[0], ReadRecord(Row(texts[1..]) + rest))
  {
    var sep, more := SeparatorOf(texts), FollowUp(texts, rest);
    RowSplits(texts, rest);
    EncodedReads(texts[0], fields[0], sep, more);
    RecordStep(Row(texts) + rest, fields[0], sep, more);
  }

  function Prepended(field: string, record: Option<(seq<string>, string)>): Option<(seq<string>, string)> {
    if record.None? then None else Some(([field] + record.value.0, record.value.1))
  }

  /** If a record of raw or quoted texts reads back as its fields, each raw text was plain. */
  lemma {:induction false} RecordEncodes(texts: seq<string>, fields: seq<string>, rest: string, tail: string)
    requires texts != [] && RawOrQuoted(texts, fields)
    requires ReadRecord(Row(texts) + rest) == Some((fields, tail))
    ensures AllEncode(texts, fields)
    decreases |texts|
  {
    var s, sep, more := Row(texts) + rest, SeparatorOf(texts), FollowUp(texts, rest);
    RowSplits(texts, rest);
    assert ReadField(s).Some? && ReadField(s).value.0 == fields[0];
    if texts[0] != Quoted(fields[0]) {
      RawReadsPlain(texts[0], sep, more, ReadField(s).value.1);
    }
    EncodedReads(texts[0], fields[0], sep, more);
    RecordStep(s, fields[0], sep, more);
    if |texts| > 1 {
      var first := ReadRecord(more).value.0;
      assert fields[1..] == ([fields[0]] + first)[1..] == first;
      RecordEncodes(texts[1..], fields[1..], rest, tail);
      assert texts == [texts[0]] + texts[1..] && fields == [fields[0]] + fields[1..];
    }
  }

  // ----- the export -----

  /** What a reader should see: each column, with the tab on formula-like text. */
  function Fields(e: Entry): seq<string> {
    [Decimal(e.sequenceNumber), Guarded(e.timestamp), Guarded(e.eventType), e.hmac]
  }

  /** The HMAC, which is written as it is, has no special character, and no column that goes
      unquoted has a carriage return. */
  predicate Readable(e: Entry) {
    Plain(e.hmac) &&
    ('\r' !in e.timestamp || NeedsQuotes(Guarded(e.timestamp))) &&
    ('\r' !in e.eventType || NeedsQuotes(Guarded(e.eventType)))
  }

  lemma {:induction false} DecimalPlain(n: nat)
    ensures Plain(Decimal(n))
  {
    if n >= 10 {
      DecimalPlain(n / 10);
    }
  }

  /** The number that a string of decimal digits denotes. */
  function Number(s: string): int {
    if s == "" then 0 else 10 * Number(s[..|s| - 1]) + (s[|s| - 1] as int - '0' as int)
  }

  /** The first column reads as the sequence number. */
  lemma {:induction false} DecimalDenotes(n: nat)
    ensures Number(Decimal(n)) == n
  {
    var s := Decimal(n);
    assert s[..|s| - 1] == if n < 10 then "" else Decimal(n / 10);
    if n >= 10 {
      DecimalDenotes(n / 10);
    }
  }

  lemma EscapeEncodes(s: string)
    ensures Encodes(CsvEscape(s), Guarded(s)) <==> '\r' !in s || NeedsQuotes(Guarded(s))
    ensures CsvEscape(s) == Guarded(s) || CsvEscape(s) == Quoted(Guarded(s))
  {
    var g := Guarded(s);
    if !NeedsQuotes(g) {
      assert '\r' in g <==> '\r' in s by {
        assert forall i :: 0 <= i < |s| ==> s[i] in g;
      }
      assert Plain(g) <==> '\r' !in g by {
        assert forall i :: 0 <= i < |g| ==> g[i] in g;
      }
      assert |Quoted(g)| > |g| by {
        DoubledLength(g);
      }
    }
  }

  lemma {:induction false} DoubledLength(s: string)
    ensures |DoubleQuotes(s)| >= |s|
  {
    if s != "" {
      DoubledLength(s[1..]);
    }
  }

  lemma ReadableEncodes(e: Entry)
    ensures RawOrQuoted(Texts(e), Fields(e))
    ensures AllEncode(Texts(e), Fields(e)) <==> Readable(e)
  {
    DecimalPlain(e.sequenceNumber);
    EscapeEncodes(e.timestamp);
    EscapeEncodes(e.eventType);
    DoubledLength(e.hmac);
    var ts, fs := Texts(e), Fields(e);
    assert AllEncode(ts, fs) ==> Encodes(ts[1], fs[1]) && Encodes(ts[2], fs[2]) && Encodes(ts[3], fs[3]);
  }

  function AllFields(entries: seq<Entry>): (r: seq<seq<string>>)
    ensures |r| == |entries|
  {
    if entries == [] then [] else [Fields(entries[0])] + AllFields(entries[1..])
  }

  /** One row reads back as its entry's fields exactly when the entry is readable, and then the
      reader stops right after it. */
  lemma {:induction false} RowReadsBack(e: Entry, rest: string)
    ensures var r := ReadRecord(Row(Texts(e)) + rest);
      if Readable(e) then r == Some((Fields(e), rest)) else r.None? || r.value.0 != Fields(e)
  {
    ReadableEncodes(e);
    var r := ReadRecord(Row(Texts(e)) + rest);
    if Readable(e) {
      EncodedRecord(Texts(e), Fields(e), rest);
    } else if r.Some? && r.value.0 == Fields(e) {
      RecordEncodes(Texts(e), Fields(e), rest, r.value.1);
    }
  }

  lemma {:induction false} ReadFirst(s: string, first: seq<string>, more: seq<seq<string>>)
    requires s != ""
    ensures ReadCsv(s) == Some([first] + more) <==>
            var r := ReadRecord(s); r.Some? && r.value.0 == first && ReadCsv(r.value.1) == Some(more)
  {
    var r := ReadRecord(s);
    if r.Some? && ReadCsv(r.value.1).Some? {
      var x := ReadCsv(r.value.1).value;
      assert ([r.value.0] + x)[0] == r.value.0 && ([r.value.0] + x)[1..] == x;
      assert ([first] + more)[0] == first && ([first] + more)[1..] == more;
    }
  }

  lemma {:induction false} RowsReadBack(entries: seq<Entry>)
    ensures ReadCsv(Rows(entries)) == Some(AllFields(entries)) <==> forall e :: e in entries ==> Readable(e)
  {
    if entries != [] {
      var e, others := entries[0], entries[1..];
      RowsReadBack(others);
      RowReadsBack(e, Rows(others));
      ReadFirst(Rows(entries), Fields(e), AllFields(others));
      assert entries == [e] + others;
    }
  }

  lemma HeaderEncodes()
    ensures AllEncode(HEADER, HEADER)
  {
    assert Plain("sequence_number") && Plain("timestamp") && Plain("event_type") && Plain("hmac");
  }

  /** The export reads back as the header and one four-field record per entry, in order, if and
      only if every entry is readable. */
  lemma {:induction false} CsvReadsBack(entries: seq<Entry>)
    ensures ReadCsv(Csv(entries)) == Some([HEADER] + AllFields(entries)) <==> forall e :: e in entries ==> Readable(e)
  {
    HeaderEncodes();
    EncodedRecord(HEADER, HEADER, Rows(entries));
    RowsReadBack(entries);
    ReadFirst(Csv(entries), HEADER, AllFields(entries));
  }

  /** Which column each header name labels. */
  lemma ColumnsLabelled(e: Entry)
    ensures HEADER == ["sequence_number", "timestamp", "event_type", "hmac"]
    ensures Fields(e) == [Decimal(e.sequenceNumber), Guarded(e.timestamp), Guarded(e.eventType), e.hmac]
  {
  }

  /** Guarded text never starts a formula, and differs from the original by one leading tab at most,
      exactly if the original starts one. */
  lemma GuardedNeutral(s: string)
    ensures Guarded(s) != "" ==> Guarded(s)[0] !in "=+-@"
    ensures Guarded(s) == if s != "" && s[0] in "=+-@" then "\t" + s else s
  {
  }

  /** A column is quoted exactly if its guarded text has a comma, a quote, a line break or a tab. */
  lemma QuotedExactly(s: string)
    ensures CsvEscape(s) != "" && CsvEscape(s)[0] == '"' <==>
            exists i :: 0 <= i < |Guarded(s)| && Guarded(s)[i] in ",\"\n\t"
  {
    var g := Guarded(s);
    if NeedsQuotes(g) {
      var c :| c in ",\"\n\t" && c in g;
      var i :| 0 <= i < |g| && g[i] == c;
    } else if g != "" {
      assert g[0] in g;
    }
  }

  /** A log with a comma anywhere in an HMAC column does not read back. */
  lemma {:induction false} CommaInHmacLost(entries: seq<Entry>, i: nat, k: nat)
    requires i < |entries| && k < |entries[i].hmac| && entries[i].hmac[k] == ','
    ensures ReadCsv(Csv(entries)) != Some([HEADER] + AllFields(entries))
  {
    CsvReadsBack(entries);
    assert Special(entries[i].hmac[k]);
    assert entries[i] in entries;
  }
}
