/** What a header section means, line by line: fields, continuation lines, and lines that are neither. */
module TextGrammar {
  import opened Options
  import opened TextMessage
  import opened TextRoundTrip

  /** A line of a section, and how it ends: with CR LF, CR or LF. */
  datatype Row = Row(text: string, end: string)

  predicate IsEnd(end: string) { end == "\r\n" || end == "\r" || end == "\n" }

  /** The text of rows, and what follows them. */
  function Text(rows: seq<Row>, y: string): string {
    if rows == [] then y else rows[0].text + rows[0].end + Text(rows[1..], y)
  }

  /** No line holds a terminator, and no CR is followed by an LF that belongs to the next line. */
  predicate WellEnded(rows: seq<Row>, y: string) {
    rows == []
    || (&& EolFree(rows[0].text) && IsEnd(rows[0].end)
        && (rows[0].end == "\r" ==> Text(rows[1..], y) == "" || Text(rows[1..], y)[0] != '\n')
        && WellEnded(rows[1..], y))
  }

  predicate Continues(row: Row) { row.text != "" && IsWsp(row.text[0]) }

  /** The last field has another line of value. */
  function Extended(fields: seq<Field>, text: string): seq<Field>
    requires fields != []
  {
    var last := fields[|fields| - 1];
    fields[|fields| - 1 := Field(last.name, last.value + SkipWsp(text))]
  }

  /** The fields told by rows: a line that starts with white space continues a field, `open` telling that the
      line before belongs to one; a line with a colon is a field, and any other is ignored. */
  function Meaning(fields: seq<Field>, open: bool, rows: seq<Row>): seq<Field>
    requires open ==> fields != []
    decreases |rows|
  {
    if rows == [] then fields
    else if open && Continues(rows[0]) then Meaning(Extended(fields, rows[0].text), true, rows[1..])
    else
      match ParseHeader(rows[0].text)
      case Proper(f) => Meaning(fields + [f], true, rows[1..])
      case _ => Meaning(fields, false, rows[1..])
  }

  /** None of the rows ends the section. */
  predicate NoneBlank(open: bool, rows: seq<Row>)
    decreases |rows|
  {
    rows == []
    || (if open && Continues(rows[0]) then NoneBlank(true, rows[1..])
        else !ParseHeader(rows[0].text).Blank? && NoneBlank(ParseHeader(rows[0].text).Proper?, rows[1..]))
  }

  lemma RowRead(rows: seq<Row>, y: string)
    requires rows != [] && WellEnded(rows, y)
    ensures ReadLine(Text(rows, y)) == Some(Line(rows[0].text, Text(rows[1..], y)))
  {
    hide WellEnded, Text, EolFree;
    var text, end, rest := rows[0].text, rows[0].end, Text(rows[1..], y);
    FirstRow(rows, y);
    LineLengthOf(text, end + rest);
    hide LineLength;
    assert (text + (end + rest))[..|text|] == text;
    EndRead(text, end, rest);
  }

  lemma FirstRow(rows: seq<Row>, y: string)
    requires rows != [] && WellEnded(rows, y)
    ensures var text, end, rest := rows[0].text, rows[0].end, Text(rows[1..], y);
            && Text(rows, y) == text + (end + rest) && EolFree(text) && IsEnd(end)
            && end + rest != "" && IsEol((end + rest)[0])
            && (end == "\r" ==> rest == "" || rest[0] != '\n') && WellEnded(rows[1..], y)
  {
    hide EolFree;
    assert rows[0].text + rows[0].end + Text(rows[1..], y) == rows[0].text + (rows[0].end + Text(rows[1..], y));
  }

  /** What is left behind a terminator. */
  lemma EndRead(text: string, end: string, rest: string)
    requires IsEnd(end) && (end == "\r" ==> rest == "" || rest[0] != '\n')
    ensures var s := text + (end + rest);
            && s[|text|] == end[0]
            && rest == if s[|text|] == '\r' then DropLf(s[|text| + 1..]) else s[|text| + 1..]
  {
    var s := text + (end + rest);
    assert s[|text| + 1..] == (end + rest)[1..];
    if end == "\r\n" {
      assert (end + rest)[1..] == "\n" + rest && ("\n" + rest)[1..] == rest;
    } else {
      assert (end + rest)[1..] == rest;
    }
  }

  /** A continuation line, read without the white space it starts with. */
  lemma ContinuationRead(rows: seq<Row>, y: string)
    requires rows != [] && WellEnded(rows, y) && Continues(rows[0])
    ensures var s := Text(rows, y);
            && s != "" && IsWsp(s[0])
            && ReadLine(SkipWsp(s)) == Some(Line(SkipWsp(rows[0].text), Text(rows[1..], y)))
  {
    hide WellEnded, Text, EolFree, SkipWsp, ReadLine, IsEnd;
    var text, end, rest := rows[0].text, rows[0].end, Text(rows[1..], y);
    var short := [Row(SkipWsp(text), end)] + rows[1..];
    FirstRow(rows, y);
    SkipWspBehind(text, end + rest);
    assert short[1..] == rows[1..];
    SkipWspFree(text);
    ShortRow(rows, short, y);
    RowRead(short, y);
    assert (text + (end + rest))[0] == text[0];
  }

  lemma ShortRow(rows: seq<Row>, short: seq<Row>, y: string)
    requires rows != [] && short != [] && short[1..] == rows[1..] && short[0].end == rows[0].end
    requires WellEnded(rows, y) && EolFree(short[0].text)
    ensures WellEnded(short, y)
    ensures Text(short, y) == short[0].text + (rows[0].end + Text(rows[1..], y))
  {
    hide EolFree;
    assert short[0].text + short[0].end + Text(short[1..], y) == short[0].text + (rows[0].end + Text(rows[1..], y));
  }

  lemma {:induction false} SkipWspBehind(text: string, behind: string)
    requires behind != "" && IsEol(behind[0])
    ensures SkipWsp(text + behind) == SkipWsp(text) + behind
  {
    if text == "" {
      assert text + behind == behind && !IsWsp(behind[0]);
      assert SkipWsp(text) + behind == behind;
    } else {
      assert (text + behind)[0] == text[0] && (text + behind)[1..] == text[1..] + behind;
      if IsWsp(text[0]) { SkipWspBehind(text[1..], behind); }
    }
  }

  lemma {:induction false} SkipWspFree(text: string)
    requires EolFree(text)
    ensures EolFree(SkipWsp(text))
  {
    if text != "" && IsWsp(text[0]) { SkipWspFree(text[1..]); }
  }

  /** The empty line that ends a section. */
  lemma EmptyEnds(fields: seq<Field>, end: string, y: string)
    requires IsEnd(end) && (end == "\r" ==> y == "" || y[0] != '\n')
    ensures ParseSection(fields, end + y) == Section(true, fields, y)
  {
    var rows := [Row("", end)];
    assert rows[1..] == [] && Text(rows, y) == "" + end + Text([], y) && "" + end == end;
    RowRead(rows, y);
    hide ReadLine;
    assert ParseHeader("") == Blank;
  }

  /** A section of any lines, ended by an empty one, is read as the fields that the lines tell, and what
      follows it is left alone. */
  lemma SectionReads(fields: seq<Field>, rows: seq<Row>, end: string, y: string)
    requires IsEnd(end) && (end == "\r" ==> y == "" || y[0] != '\n')
    requires WellEnded(rows, end + y) && NoneBlank(false, rows)
    ensures ParseSection(fields, Text(rows, end + y)) == Section(true, Meaning(fields, false, rows), y)
    decreases |rows|, 1
  {
    hide ReadLine, ParseHeader, Fold, Continues;
    if rows == [] {
      EmptyEnds(fields, end, y);
    } else {
      RowRead(rows, end + y);
      match ParseHeader(rows[0].text) {
        case Proper(f) => FieldReads(fields, f, rows[1..], end, y);
        case Malformed => SectionReads(fields, rows[1..], end, y);
      }
    }
  }

  /** So it is from the first line of a field on. */
  lemma {:induction false} FieldReads(fields: seq<Field>, f: Field, rows: seq<Row>, end: string, y: string)
    requires IsEnd(end) && (end == "\r" ==> y == "" || y[0] != '\n')
    requires WellEnded(rows, end + y) && NoneBlank(true, rows)
    ensures var (value, rest, ended) := Fold(f.value, Text(rows, end + y));
            && !ended
            && ParseSection(fields + [Field(f.name, value)], rest)
               == Section(true, Meaning(fields + [f], true, rows), y)
    decreases |rows|, 2
  {
    hide ReadLine, ParseHeader, ParseSection, SkipWsp;
    assert Field(f.name, f.value) == f;
    if rows == [] {
      EmptyEnds(fields + [f], end, y);
    } else if Continues(rows[0]) {
      ContinuationRead(rows, end + y);
      var g := Field(f.name, f.value + SkipWsp(rows[0].text));
      assert Extended(fields + [f], rows[0].text) == fields + [g];
      FieldReads(fields, g, rows[1..], end, y);
    } else {
      NoFold(rows, end + y);
      SectionOpen(fields + [f], rows);
      SectionReads(fields + [f], rows, end, y);
    }
  }

  lemma NoFold(rows: seq<Row>, y: string)
    requires rows != [] && !Continues(rows[0]) && WellEnded(rows, y)
    ensures Text(rows, y) != "" && !IsWsp(Text(rows, y)[0])
  {
    hide WellEnded, Text, EolFree;
    FirstRow(rows, y);
    var text, behind := rows[0].text, rows[0].end + Text(rows[1..], y);
    assert (text + behind)[0] == if text == "" then behind[0] else text[0];
  }

  /** A line that does not continue a field means the same behind one. */
  lemma SectionOpen(fields: seq<Field>, rows: seq<Row>)
    requires rows != [] && !Continues(rows[0]) && fields != []
    ensures Meaning(fields, true, rows) == Meaning(fields, false, rows)
    ensures NoneBlank(true, rows) <==> NoneBlank(false, rows)
  {
    hide ParseHeader;
  }
}
