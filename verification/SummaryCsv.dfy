// The summary CSV printer and a reader for it: comma-separated fields, rows ended by a line feed, quoted
// fields with doubled quotes as in section 2 of RFC 4180, a lone carriage return being plain data.
module SummaryCsv {
  import opened Options

  // ---------------------------------------------------------------- printing

  predicate IsFormulaPrefix(c: char) { c == '=' || c == '+' || c == '-' || c == '@' }

  // The text that ends up in the cell: a leading formula character is neutralised.
  function Neutral(value: Option<string>): string
  {
    match value
    case None => ""
    case Some(text) => if text != "" && IsFormulaPrefix(text[0]) then ['\''] + text else text
  }

  predicate Contains(s: string, c: char) { s != "" && (s[0] == c || Contains(s[1..], c)) }

  // text.replace('"', '""')
  function DoubleQuotes(s: string): string
  {
    if s == "" then "" else (if s[0] == '"' then ['"', '"'] else [s[0]]) + DoubleQuotes(s[1..])
  }

  predicate NeedsQuotes(s: string) { Contains(s, ',') || Contains(s, '"') || Contains(s, '\n') }

  function CsvCell(value: Option<string>): string
  {
    var text := Neutral(value);
    if NeedsQuotes(text) then ['"'] + (DoubleQuotes(text) + ['"']) else text
  }

  // A row of cells, then t.
  function RowText(cells: seq<Option<string>>, t: string): string
    requires cells != []
  {
    CsvCell(cells[0]) + (if |cells| == 1 then ['\n'] + t else [','] + RowText(cells[1..], t))
  }

  predicate NonEmpty(rows: seq<seq<Option<string>>>) { forall i :: 0 <= i < |rows| ==> rows[i] != [] }

  // "\n".join(",".join(row)) + "\n"
  function FileText(rows: seq<seq<Option<string>>>): string
    requires NonEmpty(rows)
  {
    if rows == [] then "" else RowText(rows[0], FileText(rows[1..]))
  }

  // ---------------------------------------------------------------- reading

  // A field and what follows it; Bad when a quoted field is not closed properly.
  datatype Field = Bad | Field(text: string, rest: string)

  // An unquoted field runs to the next comma or line feed.
  function ReadPlain(s: string): (r: Field)
    ensures r.Field? && |r.rest| <= |s|
  {
    if s == "" || s[0] == ',' || s[0] == '\n' then Field("", s)
    else
      var r := ReadPlain(s[1..]);
      Field([s[0]] + r.text, r.rest)
  }

  // A quoted field, after its opening quote.
  function ReadQuoted(s: string): (r: Field)
    ensures r.Field? ==> |r.rest| < |s|
  {
    if s == "" then Bad
    else if s[0] != '"' then
      match ReadQuoted(s[1..])
      case Bad => Bad
      case Field(text, rest) => Field([s[0]] + text, rest)
    else if |s| > 1 && s[1] == '"' then
      match ReadQuoted(s[2..])
      case Bad => Bad
      case Field(text, rest) => Field(['"'] + text, rest)
    else Field("", s[1..])
  }

  function ReadField(s: string): (r: Field)
    ensures r.Field? ==> |r.rest| <= |s|
  {
    if s != "" && s[0] == '"' then ReadQuoted(s[1..]) else ReadPlain(s)
  }

  datatype Row = BadRow | Row(cells: seq<string>, rest: string)

  // One row; every field is followed by a comma or by the line feed that ends the row.
  function ReadRow(s: string): (r: Row)
    ensures r.Row? ==> |r.rest| < |s|
    decreases |s|
  {
    match ReadField(s)
    case Bad => BadRow
    case Field(text, rest) =>
      if rest == "" then BadRow
      else if rest[0] == '\n' then Row([text], rest[1..])
      else if rest[0] == ',' then
        match ReadRow(rest[1..])
        case BadRow => BadRow
        case Row(cells, rest') => Row([text] + cells, rest')
      else BadRow
  }

  function ReadFile(s: string): Option<seq<seq<string>>>
    decreases |s|
  {
    if s == "" then Some([])
    else
      match ReadRow(s)
      case BadRow => None
      case Row(cells, rest) =>
        match ReadFile(rest)
        case None => None
        case Some(rows) => Some([cells] + rows)
  }

  // ---------------------------------------------------------------- round trip

  predicate EndsField(t: string) { t != "" && (t[0] == ',' || t[0] == '\n') }

  lemma {:induction false} PlainBack(text: string, t: string)
    requires !Contains(text, ',') && !Contains(text, '\n') && EndsField(t)
    ensures ReadPlain(text + t) == Field(text, t)
  {
    if text == "" {
      assert text + t == t;
    } else {
      PlainBack(text[1..], t);
      assert (text + t)[1..] == text[1..] + t && (text + t)[0] == text[0];
      assert [text[0]] + text[1..] == text;
    }
  }

  lemma {:induction false} QuotedBack(text: string, t: string)
    requires EndsField(t)
    ensures ReadQuoted(DoubleQuotes(text) + (['"'] + t)) == Field(text, t)
  {
    hide ReadQuoted;
    var tail := ['"'] + t;
    if text == "" {
      assert DoubleQuotes(text) + tail == tail;
      QuotedEnd(t);
    } else {
      QuotedBack(text[1..], t);
      var more := DoubleQuotes(text[1..]) + tail;
      QuotedStep(text[0], more);
      assert [text[0]] + text[1..] == text;
      assert DoubleQuotes(text) + tail == (if text[0] == '"' then ['"', '"'] else [text[0]]) + more;
    }
  }

  lemma QuotedEnd(t: string)
    requires EndsField(t)
    ensures ReadQuoted(['"'] + t) == Field("", t)
  {
    var s := ['"'] + t;
    assert s[1..] == t && s[1] == t[0];
  }

  // Reading one written character of a quoted field.
  lemma QuotedStep(c: char, more: string)
    ensures var s := (if c == '"' then ['"', '"'] else [c]) + more;
      match ReadQuoted(more)
      case Bad => ReadQuoted(s) == Bad
      case Field(text, rest) => ReadQuoted(s) == Field([c] + text, rest)
  {
    if c == '"' {
      assert (['"', '"'] + more)[2..] == more;
    } else {
      assert ([c] + more)[1..] == more;
    }
  }

  lemma {:induction false} NoQuoteInside(text: string, c: char)
    requires !Contains(text, c) && text != ""
    ensures text[0] != c
  {
  }

  lemma FieldBack(value: Option<string>, t: string)
    requires EndsField(t)
    ensures ReadField(CsvCell(value) + t) == Field(Neutral(value), t)
  {
    hide ReadQuoted, ReadPlain, DoubleQuotes, Contains, Neutral;
    var text := Neutral(value);
    var s := CsvCell(value) + t;
    if NeedsQuotes(text) {
      QuotedBack(text, t);
      assert s == ['"'] + (DoubleQuotes(text) + (['"'] + t));
      assert s[1..] == DoubleQuotes(text) + (['"'] + t);
    } else {
      PlainBack(text, t);
      if text == "" {
        assert s == t;
      } else {
        NoQuoteInside(text, '"');
        assert s[0] == text[0];
      }
    }
  }

  // The cells as a reader is to see them.
  function Neutrals(cells: seq<Option<string>>): (r: seq<string>)
    ensures |r| == |cells|
  {
    if cells == [] then [] else [Neutral(cells[0])] + Neutrals(cells[1..])
  }

  lemma {:induction false} RowBack(cells: seq<Option<string>>, t: string)
    requires cells != []
    ensures ReadRow(RowText(cells, t)) == Row(Neutrals(cells), t)
  {
    hide CsvCell, Neutral;
    var tail := if |cells| == 1 then ['\n'] + t else [','] + RowText(cells[1..], t);
    FieldBack(cells[0], tail);
    if |cells| == 1 {
      assert tail[1..] == t;
      assert Neutrals(cells) == [Neutral(cells[0])];
    } else {
      RowBack(cells[1..], t);
      assert tail[1..] == RowText(cells[1..], t);
    }
  }

  function NeutralRows(rows: seq<seq<Option<string>>>): seq<seq<string>>
  {
    if rows == [] then [] else [Neutrals(rows[0])] + NeutralRows(rows[1..])
  }

  // Reading what was written returns exactly the rows with the neutralisation applied.
  lemma {:induction false} FileBack(rows: seq<seq<Option<string>>>)
    requires NonEmpty(rows)
    ensures ReadFile(FileText(rows)) == Some(NeutralRows(rows))
  {
    if rows != [] {
      RowBack(rows[0], FileText(rows[1..]));
      FileBack(rows[1..]);
    }
  }

  // What a reader sees in a cell: a text that begins with a formula character after an apostrophe, any other as it
  // is, and nothing for a missing value.
  lemma CellsAreNeutral(value: Option<string>, t: string)
    requires EndsField(t)
    ensures ReadField(CsvCell(value) + t).Field? && ReadField(CsvCell(value) + t).rest == t
    ensures var seen := ReadField(CsvCell(value) + t).text;
      && (value.None? ==> seen == "")
      && (value.Some? && value.value != "" && value.value[0] in "=+-@" ==> seen == "'" + value.value)
      && (value.Some? && !(value.value != "" && value.value[0] in "=+-@") ==> seen == value.value)
  {
    FieldBack(value, t);
  }

  lemma {:induction false} ContainsExactly(s: string, c: char)
    ensures Contains(s, c) <==> c in s
  {
    if s != "" {
      ContainsExactly(s[1..], c);
      assert s == [s[0]] + s[1..];
    }
  }

  // Quotes are put around a cell exactly when the text seen in it has a comma, a quote or a line feed.
  lemma QuotedExactly(value: Option<string>)
    ensures ReadField(CsvCell(value) + "\n").Field?
    ensures var seen := ReadField(CsvCell(value) + "\n").text;
      if ',' in seen || '"' in seen || '\n' in seen then
        && |CsvCell(value)| >= 2 && CsvCell(value)[0] == '"' && CsvCell(value)[|CsvCell(value)| - 1] == '"'
      else CsvCell(value) == seen
  {
    FieldBack(value, "\n");
    var text := Neutral(value);
    ContainsExactly(text, ',');
    ContainsExactly(text, '"');
    ContainsExactly(text, '\n');
  }

  // Two lists of rows print alike exactly when they differ in nothing but neutralisation.
  lemma PrintsAlike(a: seq<seq<Option<string>>>, b: seq<seq<Option<string>>>)
    requires NonEmpty(a) && NonEmpty(b)
    ensures FileText(a) == FileText(b) <==> NeutralRows(a) == NeutralRows(b)
  {
    FileBack(a);
    FileBack(b);
    if NeutralRows(a) == NeutralRows(b) {
      SameNeutralsPrintAlike(a, b);
    }
  }

  lemma {:induction false} SameNeutralsPrintAlike(a: seq<seq<Option<string>>>, b: seq<seq<Option<string>>>)
    requires NonEmpty(a) && NonEmpty(b)
    requires NeutralRows(a) == NeutralRows(b)
    ensures FileText(a) == FileText(b)
    decreases |a|
  {
    if a != [] && b != [] {
      assert NeutralRows(a)[0] == Neutrals(a[0]) && NeutralRows(b)[0] == Neutrals(b[0]);
      assert NeutralRows(a)[1..] == NeutralRows(a[1..]) && NeutralRows(b)[1..] == NeutralRows(b[1..]);
      SameNeutralsPrintAlike(a[1..], b[1..]);
      SameRowsPrintAlike(a[0], b[0], FileText(a[1..]));
    }
  }

  lemma {:induction false} SameRowsPrintAlike(a: seq<Option<string>>, b: seq<Option<string>>, t: string)
    requires a != [] && b != [] && Neutrals(a) == Neutrals(b)
    ensures RowText(a, t) == RowText(b, t)
    decreases |a|
  {
    assert |a| == |b|;
    assert Neutrals(a)[0] == Neutral(a[0]) && Neutrals(b)[0] == Neutral(b[0]);
    assert Neutrals(a)[1..] == Neutrals(a[1..]) && Neutrals(b)[1..] == Neutrals(b[1..]);
    if |a| > 1 {
      SameRowsPrintAlike(a[1..], b[1..], t);
    }
  }

  // ---------------------------------------------------------------- the printing loop

  function Join(parts: seq<string>, sep: char): string
  {
    if parts == [] then "" else if |parts| == 1 then parts[0] else parts[0] + ([sep] + Join(parts[1..], sep))
  }

  // write_summary_csv: header and data rows, cells joined by commas, rows by line feeds.
  method WriteSummaryCsv(header: seq<string>, data: seq<seq<Option<string>>>) returns (text: string)
    requires header != [] && (forall h :: h in header ==> CsvCell(Some(h)) == h)
    requires NonEmpty(data)
    ensures text == FileText([Wrap(header)] + data)
  {
    var rows := [header];
    var k := 0;
    while k < |data|
      invariant 0 <= k <= |data|
      invariant rows == [header] + seq(k, i requires 0 <= i < |data| => Printed(data[i]))
    {
      var row: seq<string> := [];
      var j := 0;
      while j < |data[k]|
        invariant 0 <= j <= |data[k]|
        invariant row == Printed(data[k][..j])
      {
        PrintedOneMore(data[k], j);
        row := row + [CsvCell(data[k][j])];
        j := j + 1;
      }
      assert data[k][..j] == data[k];
      rows := rows + [row];
      k := k + 1;
    }
    var lines := seq(|rows|, i requires 0 <= i < |rows| => Join(rows[i], ','));
    text := Join(lines, '\n') + ['\n'];
    HeaderPrinted(header);
    var all := [Wrap(header)] + data;
    JoinIsFile(all, rows, lines);
  }

  function Wrap(header: seq<string>): (r: seq<Option<string>>)
    ensures |r| == |header| && forall i :: 0 <= i < |r| ==> r[i] == Some(header[i])
  {
    seq(|header|, i requires 0 <= i < |header| => Some(header[i]))
  }

  function Printed(cells: seq<Option<string>>): (r: seq<string>)
    ensures |r| == |cells| && forall i :: 0 <= i < |r| ==> r[i] == CsvCell(cells[i])
  {
    seq(|cells|, i requires 0 <= i < |cells| => CsvCell(cells[i]))
  }

  lemma PrintedOneMore(cells: seq<Option<string>>, j: nat)
    requires j < |cells|
    ensures Printed(cells[..j + 1]) == Printed(cells[..j]) + [CsvCell(cells[j])]
  {
  }

  lemma HeaderPrinted(header: seq<string>)
    requires forall h :: h in header ==> CsvCell(Some(h)) == h
    ensures Printed(Wrap(header)) == header
  {
    assert forall i :: 0 <= i < |header| ==> header[i] in header;
  }

  lemma {:induction false} JoinIsRow(cells: seq<Option<string>>, t: string)
    requires cells != []
    ensures Join(Printed(cells), ',') + (['\n'] + t) == RowText(cells, t)
  {
    hide CsvCell;
    var p := Printed(cells);
    if |cells| > 1 {
      JoinIsRow(cells[1..], t);
      assert p[1..] == Printed(cells[1..]);
      assert (p[0] + ([','] + Join(p[1..], ','))) + (['\n'] + t) == p[0] + ([','] + (Join(p[1..], ',') + (['\n'] + t)));
    }
  }

  lemma {:induction false} JoinIsFile(all: seq<seq<Option<string>>>, rows: seq<seq<string>>, lines: seq<string>)
    requires all != [] && NonEmpty(all) && |rows| == |all| == |lines|
    requires forall i :: 0 <= i < |all| ==> rows[i] == Printed(all[i]) && lines[i] == Join(rows[i], ',')
    ensures Join(lines, '\n') + ['\n'] == FileText(all)
    decreases |all|
  {
    hide RowText, Printed;
    var rest := all[1..];
    if |all| == 1 {
      JoinIsRow(all[0], "");
      assert ['\n'] + "" == ['\n'];
      assert FileText(rest) == "";
    } else {
      JoinIsFile(rest, rows[1..], lines[1..]);
      JoinIsRow(all[0], FileText(rest));
      assert (lines[0] + (['\n'] + Join(lines[1..], '\n'))) + ['\n']
        == lines[0] + (['\n'] + (Join(lines[1..], '\n') + ['\n']));
    }
  }
}
