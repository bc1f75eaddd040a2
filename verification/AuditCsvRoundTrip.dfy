/** Reading an exported file back: exactly when it gives the header and every row. */
module AuditCsvRoundTrip {
  import opened Common
  import opened AuditCsv

  predicate CleanText(s: string) {
    '"' !in s && ',' !in s && '\n' !in s
  }

  /** A quoted field may hold anything, a raw one nothing that the format uses. */
  predicate Clean(f: Field) {
    f.Raw? ==> CleanText(f.text)
  }

  predicate CleanRow(fs: seq<Field>) {
    forall i :: 0 <= i < |fs| ==> Clean(fs[i])
  }

  predicate CleanLog(log: Log) {
    CleanText(log.createdAt) && CleanText(OrEmpty(log.email)) && CleanText(log.action) &&
        CleanText(OrEmpty(log.targetId)) &&
    CleanText(OrEmpty(log.targetType)) && CleanText(OrEmpty(log.ipAddress))
  }

  function Texts(fs: seq<Field>): seq<string> {
    seq(|fs|, i requires 0 <= i < |fs| => fs[i].text)
  }

  function AllTexts(rows: seq<seq<Field>>): seq<seq<string>> {
    seq(|rows|, i requires 0 <= i < |rows| => Texts(rows[i]))
  }

  // ------------------------------------------------------------------ clean fields read back

  lemma {:induction false} QuotedReads(s: string, rest: string)
    requires rest == "" || rest[0] != '"'
    ensures ReadQuoted(Escape(s) + "\"" + rest) == Some((s, rest))
  {
    var t := Escape(s) + "\"" + rest;
    if s == "" {
      assert t == "\"" + rest && t[1..] == rest;
    } else {
      QuotedReads(s[1..], rest);
      var tail := Escape(s[1..]) + "\"" + rest;
      if s[0] == '"' {
        assert t == "\"\"" + tail && t[2..] == tail;
      } else {
        assert t == [s[0]] + tail && t[1..] == tail;
      }
      assert [s[0]] + s[1..] == s;
    }
  }

  lemma {:induction false} RawReads(s: string, rest: string)
    requires CleanText(s) && AtEnd(rest)
    ensures ReadRaw(s + rest) == Some((s, rest))
  {
    if s == "" {
      assert s + rest == rest;
    } else {
      assert (s + rest)[1..] == s[1..] + rest && (s + rest)[0] == s[0] && s[0] in s;
      assert forall c :: c in s[1..] ==> c in s;
      RawReads(s[1..], rest);
      assert [s[0]] + s[1..] == s;
    }
  }

  lemma OpenQuote(x: string, rest: string)
    ensures var t := "\"" + x + "\"" + rest; t != "" && t[0] == '"' && t[1..] == x + "\"" + rest
  {
    var t := "\"" + x + "\"" + rest;
    assert t == "\"" + (x + "\"" + rest);
  }

  lemma FieldReads(f: Field, rest: string)
    requires Clean(f) && AtEnd(rest)
    ensures ReadField(PrintField(f) + rest) == Some((f.text, rest))
  {
    if f.Quoted? {
      OpenQuote(Escape(f.text), rest);
      QuotedReads(f.text, rest);
    } else {
      RawReads(f.text, rest);
      if f.text != "" { assert (f.text + rest)[0] == f.text[0] && f.text[0] in f.text; }
    }
  }

  // ------------------------------------------------------------------ dirty raw fields do not

  lemma {:induction false} RawIsClean(t: string)
    requires ReadRaw(t).Some?
    ensures CleanText(ReadRaw(t).value.0)
  {
    if !AtEnd(t) { RawIsClean(t[1..]); }
  }

  lemma {:induction false} QuotedInverse(t: string)
    requires ReadQuoted(t).Some?
    ensures t == Escape(ReadQuoted(t).value.0) + "\"" + ReadQuoted(t).value.1
  {
    if t[0] == '"' {
      if |t| > 1 && t[1] == '"' {
        QuotedInverse(t[2..]);
        var r := ReadQuoted(t[2..]).value;
        assert ("\"" + r.0)[1..] == r.0;
        assert t == "\"\"" + t[2..];
      } else {
        assert t == "\"" + t[1..];
      }
    } else {
      QuotedInverse(t[1..]);
      var r := ReadQuoted(t[1..]).value;
      assert ([t[0]] + r.0)[1..] == r.0;
      assert t == [t[0]] + t[1..];
    }
  }

  /** The first `n` characters are quotes. */
  predicate Quotes(s: string, n: nat) {
    n <= |s| && forall i :: 0 <= i < n ==> s[i] == '"'
  }

  lemma {:induction false} EscapeQuotes(s: string, n: nat)
    requires Quotes(s, n)
    ensures Quotes(Escape(s), 2 * n)
  {
    if n > 0 {
      EscapeQuotes(s[1..], n - 1);
      assert Escape(s) == "\"\"" + Escape(s[1..]);
    }
  }

  /** If a text starts both with `d` and with the quoted form of `d`, then `d` is all quotes. */
  lemma {:induction false} AllQuotes(d: string, rest: string, r: string, n: nat)
    requires d + rest == "\"" + Escape(d) + "\"" + r
    requires n <= |d|
    ensures Quotes(d, n)
  {
    if n > 0 {
      AllQuotes(d, rest, r, n - 1);
      EscapeQuotes(d, n - 1);
      var t := "\"" + Escape(d) + "\"" + r;
      assert t[n - 1] == if n == 1 then '"' else Escape(d)[n - 2];
      assert (d + rest)[n - 1] == d[n - 1];
    }
  }

  /** So the character after it is a quote too, which no separator is. */
  lemma QuoteFollows(d: string, rest: string, r: string)
    requires d + rest == "\"" + Escape(d) + "\"" + r
    requires d != ""
    ensures rest != "" && rest[0] == '"'
  {
    AllQuotes(d, rest, r, |d|);
    EscapeQuotes(d, |d|);
    var t := "\"" + Escape(d) + "\"" + r;
    assert |d + rest| == |t|;
    assert t[|d|] == Escape(d)[|d| - 1];
    assert (d + rest)[|d|] == rest[0];
  }

  lemma DirtyFieldLost(d: string, rest: string)
    requires !CleanText(d) && AtEnd(rest)
    ensures ReadField(d + rest) == None || ReadField(d + rest).value.0 != d
  {
    var t := d + rest;
    var f := ReadField(t);
    if f.Some? && f.value.0 == d {
      if t[0] == '"' {
        QuotedInverse(t[1..]);
        assert t == "\"" + t[1..];
        assert t == "\"" + Escape(d) + "\"" + f.value.1;
        QuoteFollows(d, rest, f.value.1);
      } else {
        RawIsClean(t);
      }
    }
  }

  // ------------------------------------------------------------------ records

  /** What follows the first field of a printed row. */
  function Tail(fs: seq<Field>, rest: string): string
    requires fs != []
  {
    if |fs| == 1 then rest else "," + (PrintRow(fs[1..]) + rest)
  }

  lemma SplitRow(fs: seq<Field>, rest: string)
    requires fs != []
    ensures PrintRow(fs) + rest == PrintField(fs[0]) + Tail(fs, rest)
    ensures Texts(fs) == [fs[0].text] + Texts(fs[1..])
    ensures |fs| > 1 ==> Tail(fs, rest)[1..] == PrintRow(fs[1..]) + rest
  {
    TextsSplit(fs);
    if |fs| > 1 {
      var a, c := PrintField(fs[0]), PrintRow(fs[1..]);
      Regroup(a, ",", c, rest);
      AfterComma(c + rest);
    }
  }

  lemma TextsSplit(fs: seq<Field>)
    requires fs != []
    ensures Texts(fs) == [fs[0].text] + Texts(fs[1..])
  {
  }

  lemma AfterComma(more: string)
    ensures ("," + more)[1..] == more
  {
  }

  lemma Regroup(a: string, b: string, c: string, d: string)
    ensures a + b + c + d == a + (b + (c + d))
  {
  }

  function EndOfRow(rest: string): string {
    if rest == "" then "" else rest[1..]
  }

  lemma RecordStep(t: string, x: string, more: string)
    requires ReadField(t) == Some((x, more)) && more != "" && more[0] == ','
    ensures ReadRecord(t) == (if ReadRecord(more[1..]) == None then None
                              else Some(([x] + ReadRecord(more[1..]).value.0, ReadRecord(more[1..]).value.1)))
  {
  }

  lemma {:induction false} RecordReads(fs: seq<Field>, rest: string)
    requires fs != [] && CleanRow(fs)
    requires rest == "" || rest[0] == '\n'
    ensures ReadRecord(PrintRow(fs) + rest) == Some((Texts(fs), EndOfRow(rest)))
  {
    SplitRow(fs, rest);
    FieldReads(fs[0], Tail(fs, rest));
    if |fs| > 1 {
      RecordReads(fs[1..], rest);
      RecordStep(PrintRow(fs) + rest, fs[0].text, Tail(fs, rest));
    } else {
      assert Texts(fs) == [fs[0].text];
    }
  }

  lemma {:induction false} DirtyRecordLost(fs: seq<Field>, rest: string)
    requires !CleanRow(fs)
    requires rest == "" || rest[0] == '\n'
    ensures ReadRecord(PrintRow(fs) + rest) == None || ReadRecord(PrintRow(fs) + rest).value.0 != Texts(fs)
  {
    var t, more := PrintRow(fs) + rest, Tail(fs, rest);
    SplitRow(fs, rest);
    if Clean(fs[0]) {
      FieldReads(fs[0], more);
      DirtyRecordLost(fs[1..], rest);
      RecordStep(t, fs[0].text, more);
      if ReadRecord(t).Some? { assert ReadRecord(t).value.0[1..] == ReadRecord(more[1..]).value.0; }
    } else {
      DirtyFieldLost(fs[0].text, more);
      if ReadRecord(t).Some? { assert ReadRecord(t).value.0[0] == ReadField(t).value.0; }
    }
  }

  // ------------------------------------------------------------------ files

  lemma {:induction false} RowIsNotEmpty(fs: seq<Field>)
    requires |fs| >= 2
    ensures PrintRow(fs) != ""
  {
  }

  predicate AllClean(rows: seq<seq<Field>>) {
    forall i :: 0 <= i < |rows| ==> CleanRow(rows[i])
  }

  lemma AllCleanSplits(rows: seq<seq<Field>>)
    requires rows != []
    ensures AllClean(rows) <==> CleanRow(rows[0]) && AllClean(rows[1..])
    ensures AllTexts(rows) == [Texts(rows[0])] + AllTexts(rows[1..])
  {
    assert forall i :: 0 < i < |rows| ==> rows[i] == rows[1..][i - 1];
  }

  lemma FileStep(t: string)
    requires t != "" && ReadRecord(t).Some?
    ensures ReadFile(t) == (if ReadFile(ReadRecord(t).value.1) == None then None
                            else Some([ReadRecord(t).value.0] + ReadFile(ReadRecord(t).value.1).value))
  {
  }

  /** A printed file reads back as its rows exactly when its raw fields are clean. */
  lemma {:induction false} FileReads(rows: seq<seq<Field>>)
    requires forall i :: 0 <= i < |rows| ==> |rows[i]| >= 2
    ensures ReadFile(PrintRows(rows)) == Some(AllTexts(rows)) <==> AllClean(rows)
  {
    if rows == [] { return; }
    var rest := if |rows| == 1 then "" else "\n" + PrintRows(rows[1..]);
    var t := PrintRow(rows[0]) + rest;
    assert t == PrintRows(rows);
    RowIsNotEmpty(rows[0]);
    AllCleanSplits(rows);
    if CleanRow(rows[0]) {
      RecordReads(rows[0], rest);
      FileReads(rows[1..]);
      assert EndOfRow(rest) == PrintRows(rows[1..]);
      FileStep(t);
      if ReadFile(t).Some? { assert ReadFile(t).value[1..] == ReadFile(PrintRows(rows[1..])).value; }
      assert AllTexts(rows)[1..] == AllTexts(rows[1..]);
    } else {
      DirtyRecordLost(rows[0], rest);
      if ReadRecord(t).Some? {
        FileStep(t);
        if ReadFile(t).Some? { assert ReadFile(t).value[0] == ReadRecord(t).value.0; }
      }
    }
  }

  lemma CleanFields(log: Log)
    ensures CleanRow(Fields(log)) <==> CleanLog(log)
  {
    var fs := Fields(log);
    if CleanRow(fs) {
      assert Clean(fs[0]) && Clean(fs[2]) && Clean(fs[3]) && Clean(fs[4]) && Clean(fs[5]) && Clean(fs[6]);
    }
  }

  /** A clean header line in front changes nothing, even when no row follows. */
  lemma UnderHeader(head: seq<Field>, rows: seq<seq<Field>>)
    requires |head| >= 2 && CleanRow(head)
    requires forall i :: 0 <= i < |rows| ==> |rows[i]| >= 2
    ensures ReadFile(PrintRow(head) + ("\n" + PrintRows(rows))) == Some([Texts(head)] + AllTexts(rows)) <==>
        AllClean(rows)
  {
    var body := PrintRows(rows);
    var t := PrintRow(head) + ("\n" + body);
    RecordReads(head, "\n" + body);
    assert EndOfRow("\n" + body) == body;
    FileStep(t);
    FileReads(rows);
    if ReadFile(t).Some? { assert ReadFile(t).value[1..] == ReadFile(body).value; }
    assert ([Texts(head)] + AllTexts(rows))[1..] == AllTexts(rows);
  }

  /** Reading the export gives back the header and every row, whatever quotes, commas and line ends the
      names and the metadata hold, if and only if the six unquoted columns hold none of those. The
      empty export reads back as the header alone. */
  lemma ExportReadsBack(logs: seq<Log>)
    ensures ReadFile(ExportCsv(logs)) == Some([Texts(HEADER)] + AllTexts(AllFields(logs)))
            <==> forall i :: 0 <= i < |logs| ==> CleanLog(logs[i])
  {
    var rows := AllFields(logs);
    ExportIsHeaderAndRows(logs);
    HeaderIsClean();
    UnderHeader(HEADER, rows);
    forall i | 0 <= i < |logs| ensures CleanRow(rows[i]) <==> CleanLog(logs[i]) { CleanFields(logs[i]); }
    assert AllClean(rows) <==> forall i :: 0 <= i < |logs| ==> CleanLog(logs[i]);
  }

  lemma ExportIsHeaderAndRows(logs: seq<Log>)
    ensures ExportCsv(logs) == PrintRow(HEADER) + ("\n" + PrintRows(AllFields(logs)))
  {
    HeaderPrints();
    Associate(PrintRow(HEADER), "\n", PrintRows(AllFields(logs)));
  }

  lemma HeaderPrints()
    ensures HeaderLine() == PrintRow(HEADER) + "\n"
  {
    PrintEight("Date", "User", "Email", "Action", "Target ID", "Target Type", "IP Address", "Metadata");
  }

  lemma HeaderIsClean()
    ensures CleanRow(HEADER)
  {
    FirstColumnsAreClean();
    LastColumnsAreClean();
    CleanEight("Date", "User", "Email", "Action", "Target ID", "Target Type", "IP Address", "Metadata");
  }

  lemma FirstColumnsAreClean()
    ensures CleanText("Date") && CleanText("User") && CleanText("Email") && CleanText("Action")
  {
  }

  lemma LastColumnsAreClean()
    ensures CleanText("Target ID") && CleanText("Target Type") && CleanText("IP Address") && CleanText("Metadata")
  {
  }

  lemma CleanEight(a: string, b: string, c: string, d: string, e: string, f: string, g: string, h: string)
    requires CleanText(a) && CleanText(b) && CleanText(c) && CleanText(d)
    requires CleanText(e) && CleanText(f) && CleanText(g) && CleanText(h)
    ensures CleanRow([Raw(a), Raw(b), Raw(c), Raw(d), Raw(e), Raw(f), Raw(g), Raw(h)])
  {
  }

  lemma Associate(a: string, b: string, c: string)
    ensures (a + b) + c == a + (b + c)
  {
  }

  lemma PrintTwo(f: string, fs: seq<Field>)
    requires fs != []
    ensures PrintRow([Raw(f)] + fs) == f + "," + PrintRow(fs)
  {
    assert ([Raw(f)] + fs)[1..] == fs;
  }

  lemma PrintEight(a: string, b: string, c: string, d: string, e: string, f: string, g: string, h: string)
    ensures PrintRow([Raw(a), Raw(b), Raw(c), Raw(d), Raw(e), Raw(f), Raw(g), Raw(h)])
            == a + "," + (b + "," + (c + "," + (d + "," + (e + "," + (f + "," + (g + "," + h))))))
  {
    PrintTwo(g, [Raw(h)]);
    PrintTwo(f, [Raw(g)] + [Raw(h)]);
    PrintTwo(e, [Raw(f)] + ([Raw(g)] + [Raw(h)]));
    PrintTwo(d, [Raw(e)] + ([Raw(f)] + ([Raw(g)] + [Raw(h)])));
    PrintTwo(c, [Raw(d)] + ([Raw(e)] + ([Raw(f)] + ([Raw(g)] + [Raw(h)]))));
    PrintTwo(b, [Raw(c)] + ([Raw(d)] + ([Raw(e)] + ([Raw(f)] + ([Raw(g)] + [Raw(h)])))));
    PrintTwo(a, [Raw(b)] + ([Raw(c)] + ([Raw(d)] + ([Raw(e)] + ([Raw(f)] + ([Raw(g)] + [Raw(h)]))))));
    assert [Raw(a), Raw(b), Raw(c), Raw(d), Raw(e), Raw(f), Raw(g), Raw(h)]
        == [Raw(a)] + ([Raw(b)] + ([Raw(c)] + ([Raw(d)] + ([Raw(e)] + ([Raw(f)] + ([Raw(g)] + [Raw(h)]))))));
  }

  // ------------------------------------------------------------------ what is printed where

  /** The export is the header, a line end and the rows of the logs in their order. */
  lemma RowsInOrder(logs: seq<Log>)
    ensures ExportCsv(logs) == PrintRow(HEADER) + (['\n'] + PrintRows(AllFields(logs)))
    ensures |AllFields(logs)| == |logs| && forall i :: 0 <= i < |logs| ==> AllFields(logs)[i] == Fields(logs[i])
    ensures AllTexts(AllFields(logs)) == seq(|logs|, i requires 0 <= i < |logs| => Texts(Fields(logs[i])))
  {
    ExportIsHeaderAndRows(logs);
  }

  /** The columns of a row, and which of them are quoted. */
  lemma RowColumns(log: Log)
    ensures var fs := Fields(log);
            && fs[0] == Raw(log.createdAt)
            && fs[1] == Quoted(if log.name == None then "" else log.name.value)
            && fs[2] == Raw(if log.email == None then "" else log.email.value)
            && fs[3] == Raw(log.action)
            && fs[4] == Raw(if log.targetId == None then "" else log.targetId.value)
            && fs[5] == Raw(if log.targetType == None then "" else log.targetType.value)
            && fs[6] == Raw(if log.ipAddress == None then "" else log.ipAddress.value)
            && fs[7] == (if log.metadata == None then Raw("") else Quoted(log.metadata.value))
  {
  }

  lemma HeaderColumns()
    ensures Texts(HEADER)[..4] == ["Date", "User", "Email", "Action"]
    ensures Texts(HEADER)[4..] == ["Target ID", "Target Type", "IP Address", "Metadata"]
  {
  }

  /** A raw field is printed as it is, a quoted one between quotes with each of its own quotes doubled; fields
      are separated by commas and rows by line ends. */
  lemma PrintMeans(text: string, c: char, f: Field, fs: seq<Field>, row: seq<Field>, rows: seq<seq<Field>>)
    requires fs != [] && rows != []
    ensures PrintField(Raw(text)) == text && PrintField(Quoted(text)) == ['"'] + Escape(text) + ['"']
    ensures Escape("") == "" && Escape([c] + text) == (if c == '"' then ['"', '"'] else [c]) + Escape(text)
    ensures PrintRow([f]) == PrintField(f) && PrintRow([f] + fs) == PrintField(f) + [','] + PrintRow(fs)
    ensures PrintRows([]) == "" && PrintRows([row]) == PrintRow(row)
    ensures PrintRows([row] + rows) == PrintRow(row) + ['\n'] + PrintRows(rows)
  {
    assert ([c] + text)[1..] == text && ([f] + fs)[1..] == fs && ([row] + rows)[1..] == rows;
  }
}
