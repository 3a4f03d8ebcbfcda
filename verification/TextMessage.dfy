/** Text messages: a start line, a section of header fields and a body, parsed from a byte
    stream that may arrive in any pieces. */
module TextMessage {
  import opened Options

  const CR := '\r'
  const LF := '\n'

  predicate IsWsp(c: char) { c == ' ' || c == '\t' }

  predicate IsEol(c: char) { c == '\r' || c == '\n' }

  // ---------------------------------------------------------------- lines

  /** Position of the first line terminator, or the length of `s`. */
  function LineLength(s: string): (n: nat)
    ensures n <= |s|
    ensures n < |s| ==> IsEol(s[n])
    ensures forall i :: 0 <= i < n ==> !IsEol(s[i])
  {
    if s == [] || IsEol(s[0]) then 0 else 1 + LineLength(s[1..])
  }

  datatype Line = Line(text: string, rest: string)

  /** `s` without a leading LF. */
  function DropLf(s: string): string { if s != [] && s[0] == '\n' then s[1..] else s }

  /** A line ends with CR LF, a lone CR or a lone LF; without any of them there is no line. */
  function ReadLine(s: string): (r: Option<Line>)
    ensures r.Some? ==> |r.value.rest| < |s|
  {
    var n := LineLength(s);
    if n == |s| then None
    else Some(Line(s[..n], if s[n] == '\r' then DropLf(s[n + 1..]) else s[n + 1..]))
  }

  // ---------------------------------------------------------------- header fields

  datatype Field = Field(name: string, value: string)

  /** What a header line is: a field, malformed (no separator), or blank (white space only). */
  datatype Header = Proper(field: Field) | Malformed | Blank

  function SkipWsp(s: string): (r: string)
    ensures |r| <= |s| && (r != [] ==> !IsWsp(r[0]))
  {
    if s == [] || !IsWsp(s[0]) then s else SkipWsp(s[1..])
  }

  /** Position of the first ':' at or after `from`, or the length of `s`. */
  function ColonFrom(s: string, from: nat): (n: nat)
    requires from <= |s|
    ensures from <= n <= |s|
    ensures n < |s| ==> s[n] == ':'
    ensures forall i :: from <= i < n ==> s[i] != ':'
    decreases |s| - from
  {
    if from == |s| || s[from] == ':' then from else ColonFrom(s, from + 1)
  }

  /** The name starts at the first character that is not white space and ends at the first
      colon after that character; the value starts at the next such character. */
  function ParseHeader(line: string): Header {
    var t := SkipWsp(line);
    if t == [] then Blank
    else
      var n := ColonFrom(t, 1);
      if n == |t| then Malformed else Proper(Field(t[..n], SkipWsp(t[n + 1..])))
  }

  /** Continuation lines: each line starting with white space is appended to the value. The
      flag tells whether the input ended inside one. */
  function Fold(value: string, s: string): (r: (string, string, bool))
    ensures |r.1| <= |s|
    decreases |s|
  {
    if s == [] || !IsWsp(s[0]) then (value, s, false)
    else
      var t := SkipWsp(s);
      match ReadLine(t)
      case None => (value, t, true)
      case Some(l) => Fold(value + l.text, l.rest)
  }

  datatype Section = Section(done: bool, fields: seq<Field>, rest: string)

  /** Reads header fields until a blank line or the end of the input. */
  function ParseSection(fields: seq<Field>, s: string): (r: Section)
    ensures |r.rest| <= |s| && (r.done ==> |r.rest| < |s|)
    decreases |s|
  {
    match ReadLine(s)
    case None => Section(false, fields, s)
    case Some(l) =>
      match ParseHeader(l.text)
      case Blank => Section(true, fields, l.rest)
      case Malformed => ParseSection(fields, l.rest)
      case Proper(f) =>
        var (value, rest, ended) := Fold(f.value, l.rest);
        var fields1 := fields + [Field(f.name, value)];
        if ended then Section(false, fields1, rest) else ParseSection(fields1, rest)
  }

  // ---------------------------------------------------------------- the message parser

  datatype Stage = StartLine | HeaderSection | Body

  datatype Message = Message(start: string, fields: seq<Field>, body: string)

  /** `content` is the body length the header asks for; `partial` the message read so far. */
  datatype Parser = Parser(stage: Stage, skipLf: bool, content: nat, partial: Message)

  const FRESH := Parser(StartLine, false, 0, Message("", [], ""))

  datatype Status = Complete | Incomplete

  datatype Outcome = Outcome(parser: Parser, rest: string, status: Status)

  predicate EndsWithCr(s: string) { s != [] && s[|s| - 1] == '\r' }

  function RunBody(p: Parser, s: string): Outcome
    requires p.stage.Body? && |p.partial.body| <= p.content
  {
    var missing := p.content - |p.partial.body|;
    var k := if missing > |s| then |s| else missing;
    var p1 := p.(partial := p.partial.(body := p.partial.body + s[..k]));
    if missing > |s| then Outcome(p1, s[k..], Incomplete) else Outcome(p1.(stage := StartLine), s[k..], Complete)
  }

  /** The header is complete; go on with the body it announces, if any. */
  function Finish(p: Parser, s: string, length: seq<Field> -> nat): Outcome
    requires p.stage.HeaderSection?
  {
    var n := length(p.partial.fields);
    if n == 0 then Outcome(p.(stage := StartLine), s, Complete)
    else RunBody(p.(stage := Body, content := n, partial := p.partial.(body := "")), s)
  }

  /** A terminator may be cut between CR and LF: `cr` tells whether the input of this call ends
      with CR. If nothing is left after the section, an LF that follows is to be skipped. */
  function EndHeader(p: Parser, cr: bool, r: Section, length: seq<Field> -> nat): Outcome
    requires p.stage.HeaderSection?
  {
    var p1 := p.(partial := p.partial.(fields := r.fields), skipLf := cr && r.rest == []);
    if r.done then Finish(p1, r.rest, length) else Outcome(p1, r.rest, Incomplete)
  }

  function RunHeader(p: Parser, cr: bool, s: string, length: seq<Field> -> nat): Outcome
    requires p.stage.HeaderSection?
  {
    EndHeader(p, cr, ParseSection(p.partial.fields, s), length)
  }

  predicate Coherent(p: Parser) { p.stage.Body? ==> |p.partial.body| < p.content }

  /** One call of the parser on the unread part `s` of the stream. `length` stands for the
      handler that derives the body length from a complete header. */
  function Run(p: Parser, s: string, length: seq<Field> -> nat): Outcome
    requires Coherent(p)
  {
    var t := if p.skipLf then DropLf(s) else s;
    var q := p.(skipLf := false);
    match p.stage
    case StartLine =>
      (match ReadLine(t)
       case None => Outcome(q, t, Incomplete)
       case Some(l) =>
         RunHeader(Parser(HeaderSection, false, 0, Message(l.text, [], "")), EndsWithCr(s), l.rest, length))
    case HeaderSection => RunHeader(q, EndsWithCr(s), t, length)
    case Body => RunBody(q, t)
  }

  lemma RunHeaderShrinks(p: Parser, cr: bool, s: string, length: seq<Field> -> nat)
    requires p.stage.HeaderSection?
    ensures var o := RunHeader(p, cr, s, length);
            && |o.rest| <= |s| && (o.status.Complete? ==> |o.rest| < |s| && o.parser.stage.StartLine?)
            && Coherent(o.parser)
  {
    hide ParseSection;
  }

  lemma RunShrinks(p: Parser, s: string, length: seq<Field> -> nat)
    requires Coherent(p)
    ensures var o := Run(p, s, length);
            && |o.rest| <= |s| && (o.status.Complete? && s != [] ==> |o.rest| < |s|) && Coherent(o.parser)
            && (o.status.Complete? ==> o.parser.stage.StartLine?)
  {
    hide ReadLine, RunHeader;
    var t := if p.skipLf then DropLf(s) else s;
    match p.stage
    case StartLine =>
      match ReadLine(t) {
        case None =>
        case Some(l) =>
          RunHeaderShrinks(Parser(HeaderSection, false, 0, Message(l.text, [], "")), EndsWithCr(s), l.rest, length);
      }
    case HeaderSection => RunHeaderShrinks(p.(skipLf := false), EndsWithCr(s), t, length);
    case Body =>
  }

  /** What the owner of a connection does with the unread part of its buffer: run the parser
      until the input is used up or a message is incomplete, and keep the unread tail. */
  datatype Drained = Drained(parser: Parser, rest: string, messages: seq<Message>)

  function Drain(p: Parser, s: string, length: seq<Field> -> nat): Drained
    requires Coherent(p)
    decreases |s|
  {
    if s == [] then Drained(p, [], [])
    else
      var o := Run(p, s, length);
      RunShrinks(p, s, length);
      if o.status.Incomplete? then Drained(o.parser, o.rest, [])
      else
        var d := Drain(o.parser, o.rest, length);
        Drained(d.parser, d.rest, [o.parser.partial] + d.messages)
  }

  /** Receives the segments one by one, each appended to the unread tail of the ones before. */
  function Receive(p: Parser, tail: string, segments: seq<string>, length: seq<Field> -> nat): Drained
    requires Coherent(p)
    decreases |segments|
  {
    if segments == [] then Drained(p, tail, [])
    else
      var d := Drain(p, tail + segments[0], length);
      DrainCoherent(p, tail + segments[0], length);
      var e := Receive(d.parser, d.rest, segments[1..], length);
      Drained(e.parser, e.rest, d.messages + e.messages)
  }

  lemma {:induction false} DrainCoherent(p: Parser, s: string, length: seq<Field> -> nat)
    requires Coherent(p)
    ensures Coherent(Drain(p, s, length).parser)
    decreases |s|
  {
    if s != [] {
      RunShrinks(p, s, length);
      var o := Run(p, s, length);
      if o.status.Complete? { DrainCoherent(o.parser, o.rest, length); }
    }
  }
}
