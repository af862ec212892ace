/** The CSV printer of the export service and the CSV parser of the import service
    (the quoting rules of section 2 of RFC 4180). */
module Csv {

  type Field = string
  type Record = seq<Field>

  // ---------------------------------------------------------------- the grammar, as an automaton

  /** Quoted: inside quotes. QuoteSeen: just after a quote that may close the field or be the first
      half of an escaped one. CrSeen: just after a carriage return that ended a record. */
  datatype Mode = Plain | Quoted | QuoteSeen | CrSeen

  datatype Reader = Reader(rows: seq<Record>, row: Record, field: Field, mode: Mode)

  const START := Reader([], [], "", Plain)

  function EndField(p: Reader): Reader {
    Reader(p.rows, p.row + [p.field], "", Plain)
  }

  function EndRecord(p: Reader, mode: Mode): Reader {
    Reader(p.rows + [p.row + [p.field]], [], "", mode)
  }

  function Outside(p: Reader, c: char): Reader {
    if c == '\"' then p.(mode := Quoted)
    else if c == ',' then EndField(p)
    else if c == '\r' then EndRecord(p, CrSeen)
    else if c == '\n' then EndRecord(p, Plain)
    else p.(field := p.field + [c], mode := Plain)
  }

  function Step(p: Reader, c: char): Reader {
    match p.mode
    case Plain => Outside(p, c)
    case Quoted => if c == '\"' then p.(mode := QuoteSeen) else p.(field := p.field + [c])
    case QuoteSeen => if c == '\"' then p.(field := p.field + "\"", mode := Quoted) else Outside(p, c)
    case CrSeen => if c == '\n' then p.(mode := Plain) else Outside(p, c)
  }

  function Feed(p: Reader, s: string): Reader
    decreases |s|
  {
    if s == "" then p else Feed(Step(p, s[0]), s[1..])
  }

  /** A last record without a line break counts unless it is a single empty field. */
  function Finish(p: Reader): seq<Record> {
    if p.field != "" || p.row != [] then p.rows + [p.row + [p.field]] else p.rows
  }

  function Parse(content: string): seq<Record> {
    Finish(Feed(START, content))
  }

  // ---------------------------------------------------------------- the parser as written

  /** Past a quote or a carriage return, a text that does not go on with the awaited second
      character reads as it would from the plain mode. */
  lemma {:induction false} PendingIsPlain(p: Reader, s: string)
    requires p.mode == QuoteSeen ==> s == "" || s[0] != '\"'
    requires p.mode == CrSeen ==> s == "" || s[0] != '\n'
    requires p.mode != Quoted
    ensures Finish(Feed(p, s)) == Finish(Feed(p.(mode := Plain), s))
  {
  }

  lemma {:induction false} FeedFirst(p: Reader, s: string, i: nat)
    requires i < |s|
    ensures Feed(p, s[i..]) == Feed(Step(p, s[i]), s[i + 1..])
  {
  }

  /** The index-driven loop with one character of lookahead. */
  method ParseCsv(content: string) returns (rows: seq<Record>)
    ensures rows == Parse(content)
  {
    rows := [];
    var currentRow: Record := [];
    var currentField: Field := "";
    var inQuotes := false;
    var i := 0;
    assert content[0..] == content;
    while i < |content|
      invariant 0 <= i <= |content|
      invariant Finish(Feed(Reader(rows, currentRow, currentField, if inQuotes then Quoted else Plain), content[i..]))
             == Parse(content)
    {
      var c := content[i];
      ghost var p := Reader(rows, currentRow, currentField, if inQuotes then Quoted else Plain);
      FeedFirst(p, content, i);
      if inQuotes {
        if c == '\"' {
          if i + 1 < |content| && content[i + 1] == '\"' {
            FeedFirst(Step(p, c), content, i + 1);
            currentField := currentField + "\"";
            i := i + 2;
          } else {
            PendingIsPlain(Step(p, c), content[i + 1..]);
            inQuotes := false;
            i := i + 1;
          }
        } else {
          currentField := currentField + [c];
          i := i + 1;
        }
      } else {
        if c == '\"' {
          inQuotes := true;
          i := i + 1;
        } else if c == ',' {
          currentRow := currentRow + [currentField];
          currentField := "";
          i := i + 1;
        } else if c == '\r' {
          currentRow := currentRow + [currentField];
          currentField := "";
          rows := rows + [currentRow];
          currentRow := [];
          if i + 1 < |content| && content[i + 1] == '\n' {
            FeedFirst(Step(p, c), content, i + 1);
            i := i + 2;
          } else {
            PendingIsPlain(Step(p, c), content[i + 1..]);
            i := i + 1;
          }
        } else if c == '\n' {
          currentRow := currentRow + [currentField];
          currentField := "";
          rows := rows + [currentRow];
          currentRow := [];
          i := i + 1;
        } else {
          currentField := currentField + [c];
          i := i + 1;
        }
      }
    }
    assert content[i..] == "";
    if currentField != "" || currentRow != [] {
      currentRow := currentRow + [currentField];
      rows := rows + [currentRow];
    }
  }

  // ---------------------------------------------------------------- the printer

  predicate Special(c: char) {
    c == '\"' || c == ',' || c == '\n' || c == '\r'
  }

  predicate NeedsQuotes(val: Field) {
    exists i :: 0 <= i < |val| && Special(val[i])
  }

  /** Every quote doubled. */
  function Doubled(val: Field): string {
    if val == "" then "" else (if val[0] == '\"' then "\"\"" else [val[0]]) + Doubled(val[1..])
  }

  function EscapeCsvField(val: Field): string {
    if NeedsQuotes(val) then "\"" + Doubled(val) + "\"" else val
  }

  function Join(parts: seq<string>, sep: string): string {
    if parts == [] then ""
    else if |parts| == 1 then parts[0]
    else parts[0] + sep + Join(parts[1..], sep)
  }

  function Escaped(row: Record): (r: seq<string>)
    ensures |r| == |row|
  {
    if row == [] then [] else [EscapeCsvField(row[0])] + Escaped(row[1..])
  }

  function Line(row: Record): string {
    Join(Escaped(row), ",")
  }

  function Lines(records: seq<Record>): (r: seq<string>)
    ensures |r| == |records|
  {
    if records == [] then [] else [Line(records[0])] + Lines(records[1..])
  }

  lemma {:induction false} DoubledAppend(a: Field, b: Field)
    ensures Doubled(a + b) == Doubled(a) + Doubled(b)
    decreases |a|
  {
    if a == "" {
      assert a + b == b;
    } else {
      assert (a + b)[1..] == a[1..] + b;
      DoubledAppend(a[1..], b);
    }
  }

  /** With the lemma above: doubling acts on quotes and nothing else. */
  lemma {:induction false} DoubledOne(c: char)
    ensures Doubled([c]) == if c == '\"' then ['\"', '\"'] else [c]
  {
    assert [c][1..] == "";
  }

  /** A field prints bare if and only if it has no quote, no comma and no line break; otherwise it stands
      in quotes, every quote of its own doubled. */
  lemma {:induction false} BareIff(val: Field)
    ensures EscapeCsvField(val) == val <==> '\"' !in val && ',' !in val && '\n' !in val && '\r' !in val
    ensures EscapeCsvField(val) == val || EscapeCsvField(val) == "\"" + Doubled(val) + "\""
  {
    if NeedsQuotes(val) {
      DoubledLonger(val);
    }
  }

  lemma {:induction false} DoubledLonger(val: Field)
    ensures |Doubled(val)| >= |val|
    decreases |val|
  {
    if val != "" {
      DoubledLonger(val[1..]);
    }
  }

  /** The records with `eol` between them. The service prints with "\n". */
  function Print(records: seq<Record>, eol: string): string {
    Join(Lines(records), eol)
  }

  method ToCsv(headers: Record, rows: seq<Record>) returns (text: string)
    ensures text == Print([headers] + rows, "\n")
  {
    var lines := [Line(headers)];
    for i := 0 to |rows|
      invariant lines == Lines([headers] + rows[..i])
    {
      LinesAppend([headers] + rows[..i], rows[i]);
      assert [headers] + rows[..i + 1] == [headers] + rows[..i] + [rows[i]];
      lines := lines + [Line(rows[i])];
    }
    assert rows[..|rows|] == rows;
    text := Join(lines, "\n");
  }

  lemma {:induction false} LinesAppend(records: seq<Record>, row: Record)
    ensures Lines(records + [row]) == Lines(records) + [Line(row)]
  {
    if records != [] {
      LinesAppend(records[1..], row);
      assert (records + [row])[1..] == records[1..] + [row];
    }
  }

  // ---------------------------------------------------------------- reading back what was printed

  lemma {:induction false} FeedConcat(p: Reader, s: string, t: string)
    ensures Feed(p, s + t) == Feed(Feed(p, s), t)
    decreases |s|
  {
    if s == "" {
      assert s + t == t;
    } else {
      assert (s + t)[0] == s[0] && (s + t)[1..] == s[1..] + t;
      FeedConcat(Step(p, s[0]), s[1..], t);
    }
  }

  /** At the start of a field: nothing read yet, and no quote pending. */
  predicate AtField(p: Reader) {
    p.field == "" && (p.mode == Plain || p.mode == CrSeen)
  }

  lemma {:induction false} FeedPlain(p: Reader, f: Field)
    requires p.mode == Plain || p.mode == CrSeen
    requires forall i :: 0 <= i < |f| ==> !Special(f[i])
    ensures Feed(p, f) == p.(field := p.field + f, mode := if f == "" then p.mode else Plain)
    decreases |f|
  {
    if f != "" {
      var q := Step(p, f[0]);
      assert !Special(f[0]) && q == p.(field := p.field + [f[0]], mode := Plain);
      FeedPlain(q, f[1..]);
      assert p.field + [f[0]] + f[1..] == p.field + f;
    } else {
      assert p.field + f == p.field;
    }
  }

  lemma {:induction false} FeedOne(p: Reader, c: char)
    ensures Feed(p, [c]) == Step(p, c)
  {
  }

  lemma {:induction false} FeedTwo(p: Reader, c: char, d: char)
    ensures Feed(p, [c, d]) == Step(Step(p, c), d)
  {
    assert [c, d][1..] == [d];
    FeedOne(Step(p, c), d);
  }

  lemma {:induction false} FeedDoubled(p: Reader, f: Field)
    requires p.mode == Quoted
    ensures Feed(p, Doubled(f)) == p.(field := p.field + f)
    decreases |f|
  {
    if f != "" {
      var q := p.(field := p.field + [f[0]]);
      if f[0] == '\"' {
        FeedTwo(p, '\"', '\"');
        FeedConcat(p, ['\"', '\"'], Doubled(f[1..]));
      } else {
        FeedOne(p, f[0]);
        FeedConcat(p, [f[0]], Doubled(f[1..]));
      }
      FeedDoubled(q, f[1..]);
      assert p.field + [f[0]] + f[1..] == p.field + f;
    } else {
      assert p.field + f == p.field;
    }
  }

  /** An escaped field is read back as the field. */
  lemma {:induction false} FeedField(p: Reader, f: Field)
    requires AtField(p)
    ensures var q := Feed(p, EscapeCsvField(f));
            q == p.(field := f, mode := q.mode) && q.mode != Quoted && (q.mode == CrSeen ==> p.mode == CrSeen)
  {
    if NeedsQuotes(f) {
      var inside := p.(mode := Quoted);
      FeedConcat(p, "\"" + Doubled(f), "\"");
      FeedConcat(p, "\"", Doubled(f));
      FeedOne(p, '\"');
      FeedDoubled(inside, f);
      FeedOne(inside.(field := f), '\"');
      assert p.field + f == f;
    } else {
      FeedPlain(p, f);
      assert p.field + f == f;
    }
  }

  /** A record as it is read back: one without fields prints as an empty line, which reads as
      one empty field. */
  function Normal(row: Record): Record {
    if row == [] then [""] else row
  }

  function Normals(records: seq<Record>): (r: seq<Record>)
    ensures |r| == |records| && forall i :: 0 <= i < |r| ==> r[i] == Normal(records[i])
  {
    if records == [] then [] else [Normal(records[0])] + Normals(records[1..])
  }

  lemma {:induction false} LineSplits(row: Record)
    requires |row| > 1
    ensures Line(row) == EscapeCsvField(row[0]) + "," + Line(row[1..])
  {
    assert Escaped(row)[1..] == Escaped(row[1..]);
  }

  lemma {:induction false} FeedFieldAndRest(p: Reader, f: Field, rest: string)
    ensures Feed(p, EscapeCsvField(f) + "," + rest) == Feed(Step(Feed(p, EscapeCsvField(f)), ','), rest)
  {
    FeedConcat(p, EscapeCsvField(f) + ",", rest);
    FeedConcat(p, EscapeCsvField(f), ",");
    FeedOne(Feed(p, EscapeCsvField(f)), ',');
  }

  /** The reader has read the record after what it had before. */
  predicate HasRead(p: Reader, q: Reader, row: Record) {
    && q.rows == p.rows && q.row + [q.field] == p.row + Normal(row)
    && q.mode != Quoted && (q.mode == CrSeen ==> p.mode == CrSeen)
  }

  lemma {:induction false} ReadOneMore(p: Reader, between: Reader, q: Reader, row: Record)
    requires |row| > 1 && HasRead(between, q, row[1..])
    requires between.rows == p.rows && between.row == p.row + [row[0]] && between.mode != CrSeen
    ensures HasRead(p, q, row)
  {
    assert p.row + [row[0]] + row[1..] == p.row + row;
  }

  lemma {:induction false} FeedLine(p: Reader, row: Record)
    requires AtField(p)
    ensures HasRead(p, Feed(p, Line(row)), row)
    decreases |row|
  {
    if |row| > 1 {
      FeedField(p, row[0]);
      LineSplits(row);
      FeedFieldAndRest(p, row[0], Line(row[1..]));
      var between := EndField(Feed(p, EscapeCsvField(row[0])));
      FeedLine(between, row[1..]);
      ReadOneMore(p, between, Feed(between, Line(row[1..])), row);
    } else if row != [] {
      FeedField(p, row[0]);
    }
  }

  predicate IsEol(eol: string) {
    eol == "\n" || eol == "\r\n" || eol == "\r"
  }

  /** Between records: nothing pending but, with bare carriage returns, the last of them. */
  predicate AtLine(p: Reader, eol: string) {
    p.row == [] && p.field == "" && (p.mode == Plain || (p.mode == CrSeen && eol == "\r"))
  }

  lemma {:induction false} FeedEol(q: Reader, eol: string)
    requires IsEol(eol) && q.mode != Quoted && (q.mode == CrSeen ==> eol == "\r")
    ensures var n := Feed(q, eol);
            AtLine(n, eol) && n.rows == q.rows + [q.row + [q.field]]
  {
    FeedOne(q, eol[0]);
    if eol == "\r\n" {
      FeedConcat(q, "\r", "\n");
      assert "\r" + "\n" == eol;
      FeedOne(Step(q, '\r'), '\n');
    }
  }

  lemma {:induction false} FinishLine(q: Reader, whole: Record)
    requires q.row + [q.field] == whole
    ensures Finish(q) == q.rows + TrimLast([whole])
  {
    LastOf(q.row, q.field, whole);
    assert q.rows + [] == q.rows;
  }

  lemma {:induction false} FeedRecord(p: Reader, row: Record, eol: string)
    requires IsEol(eol) && AtLine(p, eol)
    ensures Finish(Feed(p, Line(row))) == p.rows + TrimLast([Normal(row)])
    ensures var n := Feed(Feed(p, Line(row)), eol);
            AtLine(n, eol) && n.rows == p.rows + [Normal(row)]
  {
    FeedLine(p, row);
    assert p.row + Normal(row) == Normal(row);
    FinishLine(Feed(p, Line(row)), Normal(row));
    FeedEol(Feed(p, Line(row)), eol);
  }

  lemma {:induction false} FeedFirstLine(p: Reader, records: seq<Record>, eol: string)
    requires |records| > 1
    ensures Feed(p, Print(records, eol)) == Feed(Feed(Feed(p, Line(records[0])), eol), Print(records[1..], eol))
  {
    var line, rest := Line(records[0]), Print(records[1..], eol);
    assert Lines(records)[1..] == Lines(records[1..]);
    assert Print(records, eol) == line + eol + rest;
    FeedConcat(p, line + eol, rest);
    FeedConcat(p, line, eol);
  }

  lemma {:induction false} AppendTrimmed(before: seq<Record>, first: Record, rest: seq<Record>)
    requires rest != []
    ensures before + [first] + rest == before + ([first] + rest)
    ensures before + [first] + TrimLast(rest) == before + TrimLast([first] + rest)
  {
  }

  /** Reading records, whether or not a line break follows the last. */
  lemma {:induction false} FeedLines(p: Reader, records: seq<Record>, eol: string)
    requires IsEol(eol) && AtLine(p, eol) && records != []
    ensures Finish(Feed(p, Print(records, eol))) == p.rows + TrimLast(Normals(records))
    ensures AtLine(Feed(Feed(p, Print(records, eol)), eol), eol)
    ensures Feed(Feed(p, Print(records, eol)), eol).rows == p.rows + Normals(records)
    decreases |records|
  {
    FeedRecord(p, records[0], eol);
    if |records| > 1 {
      var n, rest := Feed(Feed(p, Line(records[0])), eol), Normals(records[1..]);
      FeedFirstLine(p, records, eol);
      FeedLines(n, records[1..], eol);
      AppendTrimmed(p.rows, Normal(records[0]), rest);
    } else {
      assert records == [records[0]];
    }
  }

  /** A final record that is a single empty field is not seen. */
  function TrimLast(records: seq<Record>): seq<Record> {
    if records != [] && records[|records| - 1] == [""] then records[..|records| - 1] else records
  }

  lemma {:induction false} LastOf(row: Record, field: Field, whole: Record)
    requires row + [field] == whole
    ensures field == whole[|whole| - 1] && row == whole[..|whole| - 1]
    ensures whole == [""] <==> field == "" && row == []
  {
  }

  /** What the parser makes of any printed table, whatever the records and the line ending. */
  lemma {:induction false} ParsePrinted(records: seq<Record>, eol: string)
    requires IsEol(eol) && records != []
    ensures Parse(Print(records, eol)) == TrimLast(Normals(records))
    ensures Parse(Print(records, eol) + eol) == Normals(records)
  {
    FeedLines(START, records, eol);
    FeedConcat(START, Print(records, eol), eol);
    assert [] + TrimLast(Normals(records)) == TrimLast(Normals(records));
    assert [] + Normals(records) == Normals(records);
  }

  /** Exactly the tables that survive printing and parsing. */
  lemma {:induction false} RoundTrip(headers: Record, rows: seq<Record>)
    ensures var records := [headers] + rows;
            Parse(Print(records, "\n")) == records <==>
              (forall i :: 0 <= i < |records| ==> records[i] != []) && records[|records| - 1] != [""]
  {
    var records := [headers] + rows;
    ParsePrinted(records, "\n");
    var read := Normals(records);
    if (forall i :: 0 <= i < |records| ==> records[i] != []) {
      assert read == records;
    } else {
      var i :| 0 <= i < |records| && records[i] == [];
      assert read[i] == [""];
    }
  }

  /** With one trailing line break only the records without fields are lost. */
  lemma {:induction false} RoundTripTerminated(headers: Record, rows: seq<Record>)
    ensures var records := [headers] + rows;
            Parse(Print(records, "\n") + "\n") == records <==>
              forall i :: 0 <= i < |records| ==> records[i] != []
  {
    var records := [headers] + rows;
    ParsePrinted(records, "\n");
    var read := Normals(records);
    if (forall i :: 0 <= i < |records| ==> records[i] != []) {
      assert read == records;
    } else {
      var i :| 0 <= i < |records| && records[i] == [];
      assert read[i] == [""];
    }
  }

  /** Line feeds, carriage returns or both: a printed table parses the same. */
  lemma {:induction false} LineEndingBlind(records: seq<Record>, a: string, b: string)
    requires IsEol(a) && IsEol(b) && records != []
    ensures Parse(Print(records, a)) == Parse(Print(records, b))
    ensures Parse(Print(records, a) + a) == Parse(Print(records, b) + b)
  {
    ParsePrinted(records, a);
    ParsePrinted(records, b);
  }

  // ---------------------------------------------------------------- texts put one after the other

  function Quotes(s: string): nat {
    if s == "" then 0 else (if s[0] == '\"' then 1 else 0) + Quotes(s[1..])
  }

  /** Being inside quotes is a matter of parity. */
  lemma {:induction false} InsideIffOdd(p: Reader, s: string)
    ensures Feed(p, s).mode == Quoted <==> (p.mode == Quoted) != (Quotes(s) % 2 == 1)
    decreases |s|
  {
    if s != "" {
      InsideIffOdd(Step(p, s[0]), s[1..]);
    }
  }

  /** Rows already read are only ever added to. */
  lemma {:induction false} RowsArePrefix(p: Reader, before: seq<Record>, s: string)
    ensures Feed(p.(rows := before + p.rows), s) == Feed(p, s).(rows := before + Feed(p, s).rows)
    decreases |s|
  {
    if s != "" {
      var q := Step(p, s[0]);
      assert forall last: Record :: before + (p.rows + [last]) == before + p.rows + [last];
      assert Step(p.(rows := before + p.rows), s[0]) == q.(rows := before + q.rows);
      RowsArePrefix(q, before, s[1..]);
    }
  }

  lemma {:induction false} FeedBreak(s: string)
    ensures var p := Feed(START, s + "\n");
            if Quotes(s) % 2 == 0
            then p.mode == Plain && p.row == [] && p.field == ""
            else p.mode == Quoted && p.field != ""
  {
    FeedConcat(START, s, "\n");
    FeedOne(Feed(START, s), '\n');
    InsideIffOdd(START, s);
    if Feed(START, s).mode == CrSeen {
      CrSeenIsFresh(START, s);
    }
  }

  lemma {:induction false} CrSeenIsFresh(p: Reader, s: string)
    requires p.mode == CrSeen ==> p.row == [] && p.field == ""
    ensures Feed(p, s).mode == CrSeen ==> Feed(p, s).row == [] && Feed(p, s).field == ""
    decreases |s|
  {
    if s != "" {
      CrSeenIsFresh(Step(p, s[0]), s[1..]);
    }
  }

  /** A line break splits the text, for every continuation, exactly when an even number of
      quotes stands before it. */
  lemma {:induction false} BreakSplitsIffEven(s: string)
    ensures Quotes(s) % 2 == 0 <==>
            forall t :: Parse(s + "\n" + t) == Parse(s + "\n") + Parse(t)
  {
    var p := Feed(START, s + "\n");
    FeedBreak(s);
    if Quotes(s) % 2 == 0 {
      forall t
        ensures Parse(s + "\n" + t) == Parse(s + "\n") + Parse(t)
      {
        FeedConcat(START, s + "\n", t);
        RowsArePrefix(START, p.rows, t);
        assert START.(rows := p.rows + START.rows) == p;
        var q := Feed(START, t);
        assert p.rows + (q.rows + [q.row + [q.field]]) == p.rows + q.rows + [q.row + [q.field]];
      }
    } else {
      FeedConcat(START, s + "\n", "x");
      FeedOne(p, 'x');
      FeedOne(START, 'x');
      assert Parse(s + "\n" + "x") == p.rows + [p.row + [p.field + "x"]];
      assert Feed(START, "x") == Reader([], [], "x", Plain);
      assert |Parse("x")| == 1;
      assert |Parse(s + "\n" + "x")| != |Parse(s + "\n") + Parse("x")|;
    }
  }

  // ---------------------------------------------------------------- texts without quotes

  predicate IsBreak(c: char) {
    c == '\n' || c == '\r'
  }

  predicate IsComma(c: char) {
    c == ','
  }

  /** Length of the run of characters before the first one at which `stop` holds. */
  function Until(s: string, stop: char -> bool): (n: nat)
    ensures n <= |s| && (n < |s| ==> stop(s[n]))
    ensures forall i :: 0 <= i < n ==> !stop(s[i])
  {
    if s == "" || stop(s[0]) then 0 else 1 + Until(s[1..], stop)
  }

  /** The text cut at line feeds, carriage returns and pairs of the two. */
  function SplitLines(s: string): (r: seq<string>)
    ensures r != []
    decreases |s|
  {
    var n := Until(s, IsBreak);
    if n == |s| then [s]
    else
      [s[..n]] + SplitLines(s[NextLine(s, n)..])
  }

  function SplitCommas(line: string): (r: Record)
    ensures r != []
    decreases |line|
  {
    var n := Until(line, IsComma);
    if n == |line| then [line] else [line[..n]] + SplitCommas(line[n + 1..])
  }

  function SplitAll(lines: seq<string>): seq<Record> {
    if lines == [] then [] else [SplitCommas(lines[0])] + SplitAll(lines[1..])
  }

  /** All lines but a final empty one. */
  function DropFinalEmpty(lines: seq<string>): seq<string> {
    if lines != [] && lines[|lines| - 1] == "" then lines[..|lines| - 1] else lines
  }

  /** Reading a field that a comma ends. */
  lemma {:induction false} FeedToComma(p: Reader, line: string, n: nat)
    requires n < |line| && IsComma(line[n]) && p.mode == Plain && p.field == ""
    requires forall i :: 0 <= i < n ==> !Special(line[i])
    ensures Feed(p, line) == Feed(Reader(p.rows, p.row + [line[..n]], "", Plain), line[n + 1..])
  {
    assert line == line[..n] + line[n..];
    FeedConcat(p, line[..n], line[n..]);
    FeedPlain(p, line[..n]);
    assert p.field + line[..n] == line[..n];
    FeedFirst(Feed(p, line[..n]), line, n);
  }

  lemma {:induction false} FeedQuoteFreeLine(p: Reader, line: string)
    requires p.mode == Plain && p.field == ""
    requires forall i :: 0 <= i < |line| ==> line[i] != '\"' && !IsBreak(line[i])
    ensures var q := Feed(p, line);
            q.rows == p.rows && q.mode == Plain && q.row + [q.field] == p.row + SplitCommas(line)
    decreases |line|
  {
    var n := Until(line, IsComma);
    if n == |line| {
      FeedPlain(p, line);
      assert p.field + line == line;
    } else {
      FeedToComma(p, line, n);
      FeedQuoteFreeLine(Reader(p.rows, p.row + [line[..n]], "", Plain), line[n + 1..]);
      CommaSplits(p.row, line, n);
    }
  }

  lemma {:induction false} CommaSplits(before: Record, line: string, n: nat)
    requires n == Until(line, IsComma) < |line|
    ensures before + [line[..n]] + SplitCommas(line[n + 1..]) == before + SplitCommas(line)
  {
  }

  /** Where the next line starts, for a line that ends at `n`. */
  function NextLine(s: string, n: nat): (after: nat)
    requires n < |s|
    ensures n < after <= |s|
  {
    if s[n] == '\r' && n + 1 < |s| && s[n + 1] == '\n' then n + 2 else n + 1
  }

  /** Reading across a line break leaves the parser ready for the next line. */
  lemma {:induction false} FeedAcross(q: Reader, s: string, n: nat)
    requires n < |s| && IsBreak(s[n]) && q.mode == Plain
    ensures Finish(Feed(q, s[n..])) == Finish(Feed(EndRecord(q, Plain), s[NextLine(s, n)..]))
  {
  }

  lemma {:induction false} FeedToBreak(p: Reader, s: string, n: nat)
    requires n < |s| && IsBreak(s[n])
    requires p.mode == Plain && p.row == [] && p.field == ""
    requires forall i :: 0 <= i < n ==> s[i] != '\"' && !IsBreak(s[i])
    ensures Finish(Feed(p, s))
         == Finish(Feed(Reader(p.rows + [SplitCommas(s[..n])], [], "", Plain), s[NextLine(s, n)..]))
  {
    var line := s[..n];
    FeedQuoteFreeLine(p, line);
    assert p.row + SplitCommas(line) == SplitCommas(line);
    assert s == line + s[n..];
    FeedConcat(p, line, s[n..]);
    FeedAcross(Feed(p, line), s, n);
  }

  lemma {:induction false} FeedLastLine(p: Reader, line: string)
    requires p.mode == Plain && p.row == [] && p.field == ""
    requires forall i :: 0 <= i < |line| ==> line[i] != '\"' && !IsBreak(line[i])
    ensures Finish(Feed(p, line)) == p.rows + SplitAll(DropFinalEmpty([line]))
  {
    FeedQuoteFreeLine(p, line);
    assert p.row + SplitCommas(line) == SplitCommas(line);
    FinishLine(Feed(p, line), SplitCommas(line));
    SingleEmpty(line);
    assert SplitAll([line]) == [SplitCommas(line)];
  }

  lemma {:induction false} FeedQuoteFree(p: Reader, s: string)
    requires p.mode == Plain && p.row == [] && p.field == "" && Quotes(s) == 0
    ensures Finish(Feed(p, s)) == p.rows + SplitAll(DropFinalEmpty(SplitLines(s)))
    decreases |s|
  {
    var n := Until(s, IsBreak);
    NoQuotes(s);
    if n == |s| {
      FeedLastLine(p, s);
    } else {
      var line, rest := s[..n], s[NextLine(s, n)..];
      FeedToBreak(p, s, n);
      QuotesOfTail(s, NextLine(s, n));
      FeedQuoteFree(Reader(p.rows + [SplitCommas(line)], [], "", Plain), rest);
      PrependLine(p.rows, line, SplitLines(rest));
    }
  }

  lemma {:induction false} PrependLine(before: seq<Record>, line: string, rest: seq<string>)
    requires rest != []
    ensures before + [SplitCommas(line)] + SplitAll(DropFinalEmpty(rest))
         == before + SplitAll(DropFinalEmpty([line] + rest))
  {
    assert DropFinalEmpty([line] + rest) == [line] + DropFinalEmpty(rest);
    assert ([line] + DropFinalEmpty(rest))[1..] == DropFinalEmpty(rest);
  }

  lemma {:induction false} SingleEmpty(line: string)
    ensures SplitCommas(line) == [""] <==> line == ""
  {
  }

  lemma {:induction false} NoQuotes(s: string)
    requires Quotes(s) == 0
    ensures forall i :: 0 <= i < |s| ==> s[i] != '\"'
  {
    if s != "" {
      NoQuotes(s[1..]);
      forall i | 0 <= i < |s| ensures s[i] != '\"' {
        if i > 0 {
          assert s[i] == s[1..][i - 1];
        }
      }
    }
  }

  lemma {:induction false} QuotesOfTail(s: string, n: nat)
    requires Quotes(s) == 0 && n <= |s|
    ensures Quotes(s[n..]) == 0
  {
    if n > 0 {
      QuotesOfTail(s[1..], n - 1);
      assert s[1..][n - 1..] == s[n..];
    } else {
      assert s[0..] == s;
    }
  }

  /** On text without quotes the parser splits by lines and then by commas, and drops a final
      empty line. */
  lemma {:induction false} QuoteFreeIsSplitting(s: string)
    requires Quotes(s) == 0
    ensures Parse(s) == SplitAll(DropFinalEmpty(SplitLines(s)))
  {
    FeedQuoteFree(START, s);
    assert [] + SplitAll(DropFinalEmpty(SplitLines(s))) == SplitAll(DropFinalEmpty(SplitLines(s)));
  }

  // ---------------------------------------------------------------- fields quoted in part

  /** A stretch of a field as it stands in the text: bare, or in quotes with its own quotes doubled. */
  datatype Piece = Bare(text: string) | InQuotes(text: string)

  function Mark(piece: Piece): string {
    if piece.Bare? then piece.text else "\"" + Doubled(piece.text) + "\""
  }

  function Written(pieces: seq<Piece>): string {
    if pieces == [] then "" else Mark(pieces[0]) + Written(pieces[1..])
  }

  ghost predicate BareArePlain(pieces: seq<Piece>) {
    forall i, k :: 0 <= i < |pieces| && pieces[i].Bare? && 0 <= k < |pieces[i].text| ==> !Special(pieces[i].text[k])
  }

  /** What a piece says; right after another in quotes, one in quotes says a quote first, for the two
      quotes between them read as an escaped one. */
  function Said(piece: Piece, afterQuote: bool): string {
    if piece.InQuotes? && afterQuote then "\"" + piece.text else piece.text
  }

  predicate EndsQuoted(piece: Piece, afterQuote: bool) {
    piece.InQuotes? || (afterQuote && piece.text == "")
  }

  /** What the pieces say, one after the other. */
  function Meaning(pieces: seq<Piece>, afterQuote: bool): string {
    if pieces == [] then ""
    else Said(pieces[0], afterQuote) + Meaning(pieces[1..], EndsQuoted(pieces[0], afterQuote))
  }

  /** Bare text after a closing quote goes on with the field. */
  lemma {:induction false} FeedBare(p: Reader, f: string)
    requires p.mode != Quoted && forall i :: 0 <= i < |f| ==> !Special(f[i])
    ensures Feed(p, f) == p.(field := p.field + f, mode := if f == "" then p.mode else Plain)
  {
    if f == "" {
      assert p.field + f == p.field;
    } else {
      var q := Step(p, f[0]);
      assert !Special(f[0]) && q == p.(field := p.field + [f[0]], mode := Plain);
      FeedPlain(q, f[1..]);
      assert p.field + [f[0]] + f[1..] == p.field + f;
    }
  }

  lemma {:induction false} FeedInQuotes(p: Reader, text: string)
    requires p.mode != Quoted
    ensures Feed(p, "\"" + Doubled(text) + "\"")
         == p.(field := p.field + (if p.mode == QuoteSeen then "\"" else "") + text, mode := QuoteSeen)
  {
    var inside := Step(p, '\"');
    FeedConcat(p, "\"" + Doubled(text), "\"");
    FeedConcat(p, "\"", Doubled(text));
    FeedOne(p, '\"');
    assert p.field + "" == p.field;
    FeedDoubled(inside, text);
    FeedOne(inside.(field := inside.field + text), '\"');
  }

  /** The reader has added the text to its field, and is outside quotes. */
  predicate Added(p: Reader, q: Reader, text: string, afterQuote: bool) {
    && q.rows == p.rows && q.row == p.row && q.field == p.field + text
    && q.mode != Quoted && (q.mode == QuoteSeen <==> afterQuote)
  }

  lemma {:induction false} FeedPiece(p: Reader, piece: Piece, afterQuote: bool)
    requires p.mode != Quoted && (p.mode == QuoteSeen <==> afterQuote)
    requires piece.Bare? ==> forall k :: 0 <= k < |piece.text| ==> !Special(piece.text[k])
    ensures Added(p, Feed(p, Mark(piece)), Said(piece, afterQuote), EndsQuoted(piece, afterQuote))
  {
    if piece.Bare? {
      FeedBare(p, piece.text);
    } else {
      FeedInQuotes(p, piece.text);
      assert p.field + "\"" + piece.text == p.field + ("\"" + piece.text) && p.field + "" == p.field;
    }
  }

  lemma {:induction false} AddedBoth(p: Reader, between: Reader, q: Reader, a: string, b: string, x: bool, y: bool)
    requires Added(p, between, a, x) && Added(between, q, b, y)
    ensures Added(p, q, a + b, y)
  {
    assert p.field + a + b == p.field + (a + b);
  }

  /** A field is read as what its pieces say. */
  lemma {:induction false} FeedPieces(p: Reader, pieces: seq<Piece>, afterQuote: bool) returns (ends: bool)
    requires p.mode != Quoted && (p.mode == QuoteSeen <==> afterQuote) && BareArePlain(pieces)
    ensures Added(p, Feed(p, Written(pieces)), Meaning(pieces, afterQuote), ends)
    decreases |pieces|
  {
    if pieces == [] {
      assert p.field + "" == p.field;
      ends := afterQuote;
    } else {
      var first, rest := pieces[0], pieces[1..];
      var between := Feed(p, Mark(first));
      FeedPiece(p, first, afterQuote);
      FeedConcat(p, Mark(first), Written(rest));
      ends := FeedPieces(between, rest, EndsQuoted(first, afterQuote));
      AddedBoth(p, between, Feed(between, Written(rest)), Said(first, afterQuote),
                Meaning(rest, EndsQuoted(first, afterQuote)), EndsQuoted(first, afterQuote), ends);
    }
  }

  function WrittenFields(fields: seq<seq<Piece>>): (r: seq<string>)
    ensures |r| == |fields| && forall i :: 0 <= i < |r| ==> r[i] == Written(fields[i])
  {
    seq(|fields|, i requires 0 <= i < |fields| => Written(fields[i]))
  }

  function Meanings(fields: seq<seq<Piece>>): (r: Record)
    ensures |r| == |fields| && forall i :: 0 <= i < |r| ==> r[i] == Meaning(fields[i], false)
  {
    seq(|fields|, i requires 0 <= i < |fields| => Meaning(fields[i], false))
  }

  lemma {:induction false} WrittenSplits(fields: seq<seq<Piece>>)
    requires |fields| > 1
    ensures Join(WrittenFields(fields), ",") == Written(fields[0]) + ("," + Join(WrittenFields(fields[1..]), ","))
  {
    var texts, tail := WrittenFields(fields), Join(WrittenFields(fields[1..]), ",");
    assert texts[1..] == WrittenFields(fields[1..]);
    assert texts[0] + "," + tail == texts[0] + ("," + tail);
  }

  /** The reader has read the fields after what it had before. */
  predicate ReadOn(p: Reader, q: Reader, row: Record) {
    q.rows == p.rows && q.row + [q.field] == p.row + row
  }

  lemma {:induction false} ReadOnMore(p: Reader, q: Reader, field: Field, rest: Record)
    requires ReadOn(EndField(p.(field := field)), q, rest)
    ensures ReadOn(p, q, [field] + rest)
  {
    assert p.row + [field] + rest == p.row + ([field] + rest);
  }

  lemma {:induction false} FeedComma(p: Reader, q: Reader, field: Field, tail: string, x: bool)
    requires Added(p, q, field, x) && p.field == ""
    ensures Feed(q, "," + tail) == Feed(EndField(p.(field := field)), tail)
  {
    FeedConcat(q, ",", tail);
    FeedOne(q, ',');
    assert "" + field == field;
  }

  lemma {:induction false} MeaningsSplit(fields: seq<seq<Piece>>)
    requires fields != []
    ensures Meanings(fields) == [Meaning(fields[0], false)] + Meanings(fields[1..])
  {
  }

  lemma {:induction false} FeedLastField(p: Reader, pieces: seq<Piece>)
    requires AtField(p) && BareArePlain(pieces)
    ensures ReadOn(p, Feed(p, Written(pieces)), [Meaning(pieces, false)])
  {
    var _ := FeedPieces(p, pieces, false);
    assert "" + Meaning(pieces, false) == Meaning(pieces, false);
  }

  lemma {:induction false} FeedFieldAndMore(p: Reader, pieces: seq<Piece>, tail: string)
    requires AtField(p) && BareArePlain(pieces)
    ensures Feed(p, Written(pieces) + ("," + tail)) == Feed(EndField(p.(field := Meaning(pieces, false))), tail)
  {
    var x := FeedPieces(p, pieces, false);
    FeedConcat(p, Written(pieces), "," + tail);
    FeedComma(p, Feed(p, Written(pieces)), Meaning(pieces, false), tail, x);
  }

  lemma {:induction false} FeedFields(p: Reader, fields: seq<seq<Piece>>)
    requires AtField(p) && fields != [] && forall i :: 0 <= i < |fields| ==> BareArePlain(fields[i])
    ensures ReadOn(p, Feed(p, Join(WrittenFields(fields), ",")), Meanings(fields))
    decreases |fields|
  {
    var first, rest := fields[0], fields[1..];
    MeaningsSplit(fields);
    if |fields| == 1 {
      FeedLastField(p, first);
    } else {
      var tail, next := Join(WrittenFields(rest), ","), EndField(p.(field := Meaning(first, false)));
      WrittenSplits(fields);
      FeedFieldAndMore(p, first, tail);
      FeedFields(next, rest);
      ReadOnMore(p, Feed(next, tail), Meaning(first, false), Meanings(rest));
    }
  }

  /** A line of fields, each bare, in quotes, or partly both, reads as one record of what they say: text
      before, between and after quotes is kept. */
  lemma {:induction false} PiecesAreRead(fields: seq<seq<Piece>>)
    requires fields != [] && forall i :: 0 <= i < |fields| ==> BareArePlain(fields[i])
    ensures Parse(Join(WrittenFields(fields), ",")) == if Meanings(fields) == [""] then [] else [Meanings(fields)]
  {
    FeedFields(START, fields);
    var q := Feed(START, Join(WrittenFields(fields), ","));
    assert q.row + [q.field] == Meanings(fields);
    assert (q.row + [q.field])[|q.row|] == q.field;
  }
}
