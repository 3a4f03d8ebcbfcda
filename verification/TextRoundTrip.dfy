/** Generating a message and parsing it again: nothing is lost and nothing is left over. */
module TextRoundTrip {
  import opened Options
  import opened TextMessage
  import opened TextSegments

  const CRLF := "\r\n"

  predicate EolFree(s: string) { forall i :: 0 <= i < |s| ==> !IsEol(s[i]) }

  /** Names are not empty and hold no colon; neither part spans lines or starts with white space. */
  predicate GoodField(f: Field) {
    && f.name != [] && !IsWsp(f.name[0]) && EolFree(f.name) && ':' !in f.name
    && EolFree(f.value) && (f.value != [] ==> !IsWsp(f.value[0]))
  }

  predicate GoodMessage(m: Message) {
    EolFree(m.start) && forall i :: 0 <= i < |m.fields| ==> GoodField(m.fields[i])
  }

  function FieldText(f: Field): string { f.name + ": " + f.value + CRLF }

  function SectionText(fields: seq<Field>): string {
    if fields == [] then CRLF else FieldText(fields[0]) + SectionText(fields[1..])
  }

  function HeadText(m: Message): string { m.start + CRLF + SectionText(m.fields) }

  function MessageText(m: Message): string { HeadText(m) + m.body }

  // ---------------------------------------------------------------- parsing what was generated

  lemma {:induction false} LineLengthOf(x: string, y: string)
    requires EolFree(x) && y != [] && IsEol(y[0])
    ensures LineLength(x + y) == |x|
  {
    if x == [] {
      assert x + y == y;
    } else {
      assert (x + y)[1..] == x[1..] + y;
      LineLengthOf(x[1..], y);
    }
  }

  lemma ReadLineOf(x: string, y: string)
    requires EolFree(x)
    ensures ReadLine(x + CRLF + y) == Some(Line(x, y))
  {
    var s := x + CRLF + y;
    assert s == x + (CRLF + y);
    LineLengthOf(x, CRLF + y);
    assert s[|x| + 1..] == "\n" + y;
    assert ("\n" + y)[1..] == y;
  }

  lemma {:induction false} ColonFromOf(name: string, y: string, from: nat)
    requires from <= |name| && ':' !in name && y != [] && y[0] == ':'
    ensures ColonFrom(name + y, from) == |name|
    decreases |name| - from
  {
    if from < |name| {
      assert (name + y)[from] == name[from];
      ColonFromOf(name, y, from + 1);
    }
  }

  lemma ParseHeaderOf(f: Field)
    requires GoodField(f)
    ensures ParseHeader(f.name + ": " + f.value) == Proper(f)
  {
    var line := f.name + ": " + f.value;
    assert line == f.name + (": " + f.value);
    ColonFromOf(f.name, ": " + f.value, 1);
    assert line[0] == f.name[0] && line[..|f.name|] == f.name && line[|f.name| + 1..] == " " + f.value;
    assert (" " + f.value)[1..] == f.value;
    assert SkipWsp(line) == line && SkipWsp(" " + f.value) == SkipWsp(f.value) == f.value;
  }

  lemma FieldTextSplit(f: Field, y: string)
    requires GoodField(f)
    ensures ReadLine(FieldText(f) + y) == Some(Line(f.name + ": " + f.value, y))
    ensures !IsWsp((FieldText(f) + y)[0])
  {
    assert EolFree(f.name + ": " + f.value);
    ReadLineOf(f.name + ": " + f.value, y);
    assert (FieldText(f) + y)[0] == f.name[0];
  }

  lemma SectionStep(before: seq<Field>, f: Field, rest: string)
    requires GoodField(f) && rest != [] && !IsWsp(rest[0])
    ensures ParseSection(before, FieldText(f) + rest) == ParseSection(before + [f], rest)
    ensures FoldFree(FieldText(f) + rest) == FoldFree(rest)
  {
    FieldTextSplit(f, rest);
    ParseHeaderOf(f);
    hide ReadLine, ParseHeader, FieldText, GoodField;
    assert Fold(f.value, rest) == (f.value, rest, false);
    assert Field(f.name, f.value) == f;
  }

  lemma SectionDone(before: seq<Field>, y: string)
    ensures ParseSection(before, CRLF + y) == Section(true, before, y) && FoldFree(CRLF + y)
  {
    ReadLineOf([], y);
    assert CRLF + y == [] + CRLF + y;
  }

  lemma FieldTextStart(f: Field)
    requires GoodField(f)
    ensures FieldText(f) != [] && !IsWsp(FieldText(f)[0])
  {
    assert FieldText(f)[0] == f.name[0];
  }

  lemma {:induction false} SectionOf(before: seq<Field>, fields: seq<Field>, y: string)
    requires forall i :: 0 <= i < |fields| ==> GoodField(fields[i])
    ensures ParseSection(before, SectionText(fields) + y) == Section(true, before + fields, y)
    ensures FoldFree(SectionText(fields) + y)
    ensures SectionText(fields) != [] && !IsWsp(SectionText(fields)[0])
    decreases |fields|
  {
    hide ParseSection, FoldFree, FieldText, GoodField;
    if fields == [] {
      SectionDone(before, y);
      assert before + fields == before;
    } else {
      var f, rest := fields[0], SectionText(fields[1..]) + y;
      assert SectionText(fields) + y == FieldText(f) + rest;
      FieldTextStart(f);
      SectionOf(before + [f], fields[1..], y);
      assert rest[0] == SectionText(fields[1..])[0];
      SectionStep(before, f, rest);
      assert before + [f] + fields[1..] == before + fields;
    }
  }

  lemma BodyOf(p: Parser, body: string, y: string)
    requires p.stage.Body? && p.partial.body == [] && p.content == |body|
    ensures RunBody(p, body + y) == Outcome(p.(stage := StartLine, partial := p.partial.(body := body)), y, Complete)
  {
    assert (body + y)[..|body|] == body && (body + y)[|body|..] == y && [] + body == body;
  }

  lemma StartOf(p: Parser, start: string, tail: string, length: seq<Field> -> nat)
    requires p.stage.StartLine? && !p.skipLf && EolFree(start)
    ensures Run(p, start + CRLF + tail, length)
         == RunHeader(Parser(HeaderSection, false, 0, Message(start, [], "")), EndsWithCr(start + CRLF + tail), tail,
                      length)
    ensures RunFoldFree(p, start + CRLF + tail) == FoldFree(tail)
  {
    ReadLineOf(start, tail);
    hide ReadLine, RunHeader, FoldFree;
  }

  lemma EndHeaderOf(p: Parser, cr: bool, fields: seq<Field>, body: string, y: string, length: seq<Field> -> nat)
    requires p.stage.HeaderSection? && p.partial.body == [] && length(fields) == |body|
    requires !cr || body + y != []
    ensures var o := EndHeader(p, cr, Section(true, fields, body + y), length);
            && o.status.Complete? && o.rest == y && o.parser.stage.StartLine? && !o.parser.skipLf
            && o.parser.partial == Message(p.partial.start, fields, body)
  {
    if body == [] {
      assert body + y == y;
    } else {
      BodyOf(Parser(Body, false, |body|, Message(p.partial.start, fields, "")), body, y);
      hide RunBody;
    }
  }

  /** Round trip: a parser at a start line reads back exactly the generated message and leaves
      exactly the bytes that follow it. */
  lemma MessageOf(p: Parser, m: Message, y: string, length: seq<Field> -> nat)
    requires p.stage.StartLine? && !p.skipLf && GoodMessage(m) && length(m.fields) == |m.body|
    ensures var o := Run(p, MessageText(m) + y, length);
            o.status.Complete? && o.parser.partial == m && o.rest == y && o.parser.stage.StartLine? && !o.parser.skipLf
    ensures RunFoldFree(p, MessageText(m) + y)
  {
    hide Run, EndHeader, FoldFree, ParseSection, RunFoldFree;
    var s := MessageText(m) + y;
    var tail := SectionText(m.fields) + (m.body + y);
    assert s == m.start + CRLF + tail;
    StartOf(p, m.start, tail, length);
    SectionOf([], m.fields, m.body + y);
    assert [] + m.fields == m.fields;
    SectionEnds(m.fields);
    assert m.body + y == [] ==> s[|s| - 1] == SectionText(m.fields)[|SectionText(m.fields)| - 1];
    EndHeaderOf(Parser(HeaderSection, false, 0, Message(m.start, [], "")), EndsWithCr(s), m.fields, m.body, y, length);
  }

  lemma {:induction false} SectionEnds(fields: seq<Field>)
    ensures var s := SectionText(fields); s != [] && s[|s| - 1] == '\n'
    decreases |fields|
  {
    if fields != [] { SectionEnds(fields[1..]); }
  }

  function Texts(ms: seq<Message>): string {
    if ms == [] then [] else MessageText(ms[0]) + Texts(ms[1..])
  }

  lemma {:induction false} DrainOf(p: Parser, ms: seq<Message>, length: seq<Field> -> nat)
    requires p.stage.StartLine? && !p.skipLf
    requires forall i :: 0 <= i < |ms| ==> GoodMessage(ms[i]) && length(ms[i].fields) == |ms[i].body|
    ensures Drain(p, Texts(ms), length).messages == ms && Drain(p, Texts(ms), length).rest == []
    ensures DrainFoldFree(p, Texts(ms), length)
    decreases |ms|
  {
    hide Run, RunFoldFree, MessageText, GoodMessage;
    if ms != [] {
      var m, rest := ms[0], Texts(ms[1..]);
      NotEmpty(m, rest);
      MessageOf(p, m, rest, length);
      var o := Run(p, MessageText(m) + rest, length);
      DrainOf(o.parser, ms[1..], length);
      RunShrinks(p, MessageText(m) + rest, length);
      assert [m] + ms[1..] == ms;
    }
  }

  lemma NotEmpty(m: Message, rest: string)
    ensures MessageText(m) + rest != []
  {
    SectionEnds(m.fields);
  }

  /** Any number of messages, sent back to back and cut anywhere, is read back in order. */
  lemma RoundTrip(p: Parser, ms: seq<Message>, segments: seq<string>, length: seq<Field> -> nat)
    requires p.stage.StartLine? && !p.skipLf
    requires forall i :: 0 <= i < |ms| ==> GoodMessage(ms[i]) && length(ms[i].fields) == |ms[i].body|
    requires Concat(segments) == Texts(ms) && forall i :: 0 <= i < |segments| ==> segments[i] != []
    ensures Receive(p, [], segments, length).messages == ms && Receive(p, [], segments, length).rest == []
  {
    DrainOf(p, ms, length);
    ReceiveInvariant(p, segments, length);
  }
}
