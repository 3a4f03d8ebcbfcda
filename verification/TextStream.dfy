/** The text stream and the message parser, updated in place. */
module TextStream {
  import opened Options
  import opened TextMessage

  // ---------------------------------------------------------------- scanning

  lemma {:induction false} LineLengthIs(s: string, n: nat)
    requires n <= |s| && (n < |s| ==> IsEol(s[n]))
    requires forall i :: 0 <= i < n ==> !IsEol(s[i])
    ensures LineLength(s) == n
  {
    if n > 0 { LineLengthIs(s[1..], n - 1); }
  }

  /** The line that a terminator at `n` ends. */
  lemma LineOf(s: string, n: nat)
    requires n <= |s| && (n < |s| ==> IsEol(s[n])) && forall i :: 0 <= i < n ==> !IsEol(s[i])
    ensures ReadLine(s) == if n == |s| then None
              else Some(Line(s[..n], if s[n] == '\r' then DropLf(s[n + 1..]) else s[n + 1..]))
  {
    LineLengthIs(s, n);
    hide LineLength;
  }

  lemma {:induction false} SkipWspIs(s: string, n: nat)
    requires n <= |s| && (n < |s| ==> !IsWsp(s[n]))
    requires forall i :: 0 <= i < n ==> IsWsp(s[i])
    ensures SkipWsp(s) == s[n..]
  {
    if n > 0 { SkipWspIs(s[1..], n - 1); }
  }

  lemma {:induction false} ColonFromIs(s: string, from: nat, n: nat)
    requires from <= n <= |s| && (n < |s| ==> s[n] == ':')
    requires forall i :: from <= i < n ==> s[i] != ':'
    ensures ColonFrom(s, from) == n
    decreases n - from
  {
    if from < n { ColonFromIs(s, from + 1, n); }
  }

  /** How far the scan of a header line has come: where the name starts, its length once its
      colon has been seen, and where the value starts. */
  datatype Scan = Scan(name: int, nameLength: nat, value: int)

  ghost predicate Scanned(s: string, n: nat, k: Scan)
    requires n <= |s|
  {
    && -1 <= k.name < n && -1 <= k.value < n
    && (k.name == -1 ==> k.nameLength == 0 && forall i :: 0 <= i < n ==> IsWsp(s[i]))
    && (k.name >= 0 ==> !IsWsp(s[k.name]) && forall i :: 0 <= i < k.name ==> IsWsp(s[i]))
    && (k.nameLength == 0 ==> k.value == -1 && forall i :: 0 <= k.name < i < n ==> s[i] != ':')
    && (k.nameLength > 0 ==>
          var c := k.name + k.nameLength;
          && 0 <= k.name && c < n && s[c] == ':'
          && (forall i :: k.name < i < c ==> s[i] != ':')
          && (k.value == -1 ==> forall i :: c < i < n ==> IsWsp(s[i]))
          && (k.value >= 0 ==> c < k.value && !IsWsp(s[k.value]) && forall i :: c < i < k.value ==> IsWsp(s[i])))
  }

  lemma ParsedName(line: string, name: nat, length: nat)
    requires name < |line| && !IsWsp(line[name]) && forall i :: 0 <= i < name ==> IsWsp(line[i])
    requires 1 <= length <= |line| - name && (name + length < |line| ==> line[name + length] == ':')
    requires forall i :: name < i < name + length ==> line[i] != ':'
    ensures ParseHeader(line) ==
            if name + length == |line| then Malformed
            else Proper(Field(line[name..name + length], SkipWsp(line[name + length + 1..])))
  {
    SkipWspIs(line, name);
    var t := line[name..];
    forall i | 1 <= i < length ensures t[i] != ':' { assert t[i] == line[name + i]; }
    ColonFromIs(t, 1, length);
    hide SkipWsp, ColonFrom;
    if name + length < |line| {
      assert t[..length] == line[name..name + length] && t[length + 1..] == line[name + length + 1..];
    }
  }

  lemma ParsedValue(line: string, c: nat, value: int)
    requires c <= |line| && -1 <= value < |line|
    requires value == -1 ==> forall i :: c <= i < |line| ==> IsWsp(line[i])
    requires value >= 0 ==> c <= value && !IsWsp(line[value]) && forall i :: c <= i < value ==> IsWsp(line[i])
    ensures SkipWsp(line[c..]) == if value == -1 then [] else line[value..]
  {
    var n := if value == -1 then |line| - c else value - c;
    var t := line[c..];
    forall i | 0 <= i < n ensures IsWsp(t[i]) { assert t[i] == line[c + i]; }
    SkipWspIs(t, n);
    hide SkipWsp;
    assert t[n..] == line[c + n..];
  }

  /** The name and value a completed scan delimits; both empty for a blank line. */
  function FieldOf(line: string, k: Scan): Field
    requires Scanned(line, |line|, k)
  {
    if k.name == -1 then Field([], [])
    else Field(line[k.name..k.name + k.nameLength], if k.value == -1 then [] else line[k.value..])
  }

  lemma ParsedBlank(line: string)
    requires forall i :: 0 <= i < |line| ==> IsWsp(line[i])
    ensures ParseHeader(line) == Blank
  {
    hide SkipWsp;
    SkipWspIs(line, |line|);
  }

  lemma ScannedIsParsed(line: string, k: Scan)
    requires Scanned(line, |line|, k)
    ensures match ParseHeader(line)
            case Blank => k.name == -1 && FieldOf(line, k) == Field([], [])
            case Malformed => k.name >= 0 && k.nameLength == 0
            case Proper(f) => k.name >= 0 && k.nameLength > 0 && FieldOf(line, k) == f
  {
    hide ParseHeader, SkipWsp;
    if k.name == -1 {
      ParsedBlank(line);
    } else {
      ParsedName(line, k.name, if k.nameLength == 0 then |line| - k.name else k.nameLength);
      if k.nameLength > 0 { ParsedValue(line, k.name + k.nameLength + 1, k.value); }
    }
  }

  // ---------------------------------------------------------------- the stream

  class Stream {
    var text: string
    var pos: nat
    var isEos: bool

    ghost predicate Valid()
      reads this
    {
      pos <= |text|
    }

    ghost function Unread(): string
      reads this
      requires Valid()
    {
      text[pos..]
    }

    constructor (s: string)
      ensures Valid() && Unread() == s && text == s && !isEos
    {
      text, pos, isEos := s, 0, false;
    }

    /** Position of the first terminator, or the end of the stream. */
    method FindEol() returns (p: nat)
      requires Valid()
      ensures pos <= p <= |text| && ReadLine(Unread()) == LineAt(p)
    {
      p := pos;
      while p < |text| && !IsEol(text[p])
        invariant pos <= p <= |text|
        invariant forall i :: pos <= i < p ==> !IsEol(text[i])
      {
        p := p + 1;
      }
      LineEndsAt(p);
    }

    lemma LineEndsAt(p: nat)
      requires pos <= p <= |text| && (p < |text| ==> IsEol(text[p])) && forall i :: pos <= i < p ==> !IsEol(text[i])
      ensures ReadLine(Unread()) == LineAt(p)
    {
      LineOf(Unread(), p - pos);
      hide ReadLine, DropLf;
      assert Unread()[..p - pos] == text[pos..p];
      assert p < |text| ==> Unread()[p - pos + 1..] == text[p + 1..];
    }

    /** The line that ends at `p`. */
    ghost function LineAt(p: nat): Option<Line>
      reads this
      requires pos <= p <= |text|
    {
      if p == |text| then None
      else Some(Line(text[pos..p], if text[p] == '\r' then DropLf(text[p + 1..]) else text[p + 1..]))
    }

    /** Reads a line; without a terminator nothing is consumed and the end is flagged. */
    method LineRead() returns (ok: bool, line: string)
      requires Valid()
      modifies `pos, `isEos
      ensures Valid()
      ensures ok == ReadLine(old(Unread())).Some?
      ensures ok ==> Line(line, Unread()) == ReadLine(old(Unread())).value && isEos == old(isEos)
      ensures !ok ==> Unread() == old(Unread()) && isEos
    {
      hide ReadLine, DropLf;
      var p := FindEol();
      line := text[pos..p];
      ok := p < |text|;
      if ok {
        EndLine(p);
      } else {
        isEos := true;
      }
    }

    /** Moves behind the terminator at `p`. */
    method EndLine(p: nat)
      requires Valid() && pos <= p < |text|
      modifies `pos
      ensures Valid()
      ensures Unread() == if text[p] == '\r' then DropLf(text[p + 1..]) else text[p + 1..]
    {
      pos := p + 1;
      if text[p] == '\r' && pos < |text| && text[pos] == '\n' {
        assert text[p + 1..][1..] == text[p + 2..];
        pos := pos + 1;
      }
    }

    method WhiteSpacesSkip()
      requires Valid()
      modifies `pos
      ensures Valid() && Unread() == SkipWsp(old(Unread()))
    {
      var p := pos;
      while p < |text| && IsWsp(text[p])
        invariant pos <= p <= |text|
        invariant forall i :: pos <= i < p ==> IsWsp(text[i])
      {
        p := p + 1;
      }
      SkipWspIs(Unread(), p - pos);
      pos := p;
      hide SkipWsp;
      assert old(Unread())[p - old(pos)..] == text[p..];
    }

    /** Scans up to the terminator of the line, or the end of the stream, in a single pass. */
    method ScanLine() returns (p: nat, k: Scan)
      requires Valid()
      ensures pos <= p <= |text| && (p < |text| ==> IsEol(text[p]))
      ensures forall i :: pos <= i < p ==> !IsEol(text[i])
      ensures Scanned(text[pos..p], p - pos, k)
    {
      hide Scanned;
      ghost var s := Unread();
      p := pos;
      k := Scan(-1, 0, -1);
      ScannedNothing(s);
      while p < |text| && !IsEol(text[p])
        invariant pos <= p <= |text|
        invariant forall i :: pos <= i < p ==> !IsEol(text[i])
        invariant Scanned(s, p - pos, k)
      {
        k := ScanChar(s, p - pos, text[p], k);
        p := p + 1;
      }
      assert text[pos..p] == s[..p - pos];
      ScannedLine(s, p - pos, text[pos..p], k);
    }

    /** Reads a header line. A malformed line is consumed but not reported. */
    method HeaderRead() returns (ok: bool, field: Field)
      requires Valid()
      modifies `pos, `isEos
      ensures Valid()
      ensures var l := ReadLine(old(Unread()));
              && (l.None? ==> !ok && isEos && Unread() == old(Unread()))
              && (l.Some? ==> Unread() == l.value.rest && isEos == old(isEos)
                              && match ParseHeader(l.value.text)
                                 case Proper(f) => ok && field == f
                                 case Malformed => !ok
                                 case Blank => ok && field == Field([], []))
    {
      hide Scanned, ParseHeader, FieldOf, ReadLine, DropLf;
      var p, k := ScanLine();
      LineEndsAt(p);
      if p == |text| {
        isEos := true;
        return false, Field([], []);
      }
      var line := text[pos..p];
      ScannedIsParsed(line, k);
      EndLine(p);
      if k.name >= 0 && k.nameLength == 0 { return false, Field([], []); }
      ok := true;
      field := FieldOf(line, k);
    }

    static lemma ScannedNothing(s: string)
      ensures Scanned(s, 0, Scan(-1, 0, -1))
    {
    }

    static lemma ScannedLine(s: string, n: nat, line: string, k: Scan)
      requires n <= |s| && line == s[..n] && Scanned(s, n, k)
      ensures Scanned(line, |line|, k)
    {
    }

    static method ScanChar(ghost s: string, n: nat, c: char, k: Scan) returns (k1: Scan)
      requires n < |s| && c == s[n] && Scanned(s, n, k)
      ensures Scanned(s, n + 1, k1)
    {
      k1 := k;
      if k.nameLength == 0 {
        if k.name == -1 && !IsWsp(c) { k1 := k1.(name := n); }
        if c == ':' { k1 := k1.(nameLength := n - k1.name); }
      } else if k.value == -1 && !IsWsp(c) {
        k1 := k1.(value := n);
      }
    }

    /** Appends continuation lines to a value; a last one that is cut off is lost. */
    method FoldLines(value0: string) returns (value: string)
      requires Valid() && !isEos
      modifies `pos, `isEos
      ensures Valid() && (value, Unread(), isEos) == Fold(value0, old(Unread()))
      ensures text == old(text)
    {
      hide ReadLine;
      value := value0;
      ghost var all := Fold(value, Unread());
      while pos < |text| && IsWsp(text[pos])
        invariant Valid()
        invariant if isEos then all == (value, Unread(), true) && (Unread() == [] || !IsWsp(Unread()[0]))
                  else all == Fold(value, Unread())
        decreases |text| - pos
      {
        ghost var s := Unread();
        pos := pos + 1;
        assert Unread() == s[1..];
        WhiteSpacesSkip();
        var ok, line := LineRead();
        if ok { value := value + line; }
      }
    }

    /** Adds header fields until a blank line (true) or the end of the stream (false). */
    method SectionParse(fields0: seq<Field>) returns (done: bool, fields: seq<Field>)
      requires Valid() && !isEos
      modifies `pos, `isEos
      ensures Valid() && Section(done, fields, Unread()) == ParseSection(fields0, old(Unread()))
      ensures done ==> !isEos
    {
      hide ReadLine, ParseHeader, Fold;
      fields, done := fields0, false;
      ghost var all := ParseSection(fields, Unread());
      var more := true;
      while more
        invariant Valid() && !done && (more ==> !isEos)
        invariant if isEos then all == Section(false, fields, Unread()) else all == ParseSection(fields, Unread())
        invariant !more ==> isEos || Unread() == []
        decreases more, |text| - pos
      {
        ghost var s := Unread();
        var ok, field := HeaderRead();
        assert ok ==> |Unread()| < |s|;
        if ok {
          if field.name == [] {
            ProperName(ReadLine(s).value.text);
            done := true;
            return;
          }
          var value := FoldLines(field.value);
          fields := fields + [Field(field.name, value)];
        }
        more := pos < |text| && !isEos;
      }
    }

    static lemma ProperName(line: string)
      ensures ParseHeader(line).Proper? ==> ParseHeader(line).field.name != []
    {
    }
  }

  // ---------------------------------------------------------------- the parser

  class MessageParser {
    const bodyLength: seq<Field> -> nat
    var stage: Stage
    var skipLf: bool
    var content: nat
    var message: Message

    ghost function Value(): Parser
      reads this
    {
      Parser(stage, skipLf, content, message)
    }

    constructor (length: seq<Field> -> nat)
      ensures Value() == FRESH && bodyLength == length
    {
      bodyLength := length;
      stage, skipLf, content, message := StartLine, false, 0, Message("", [], "");
    }

    /** Prepares to skip the LF of a terminator that the end of the stream may have cut. */
    method SegmentationTest(stream: Stream)
      requires stream.Valid() && stream.text != []
      modifies `skipLf
      ensures skipLf == (old(skipLf) || (stream.Unread() == [] && EndsWithCr(stream.text)))
    {
      if stream.pos == |stream.text| && stream.text[stream.pos - 1] == '\r' {
        skipLf := true;
      }
    }

    method BodyRead(stream: Stream) returns (ok: bool)
      requires stream.Valid() && stage.Body? && |message.body| <= content
      modifies `message, stream`pos
      ensures stream.Valid()
      ensures var o := RunBody(old(Value()), old(stream.Unread()));
              && stream.Unread() == o.rest && ok == o.status.Complete? && message == o.parser.partial
    {
      var available := |stream.text| - stream.pos;
      var required := content - |message.body|;
      ok := true;
      if required > available {
        required := available;
        ok := false;
      }
      ghost var s := stream.Unread();
      assert s[..required] == stream.text[stream.pos..stream.pos + required];
      message := message.(body := message.body + stream.text[stream.pos..stream.pos + required]);
      stream.pos := stream.pos + required;
      assert stream.Unread() == s[required..];
    }

    method HeaderRun(stream: Stream) returns (complete: bool)
      requires stream.Valid() && !stream.isEos && stream.text != [] && stage.HeaderSection?
      requires skipLf ==> stream.Unread() == [] && EndsWithCr(stream.text)
      modifies this, stream`pos, stream`isEos
      ensures stream.Valid()
      ensures Outcome(Value(), stream.Unread(), if complete then Complete else Incomplete)
           == RunHeader(old(Value()), EndsWithCr(stream.text), old(stream.Unread()), bodyLength)
    {
      hide ParseSection, EndsWithCr;
      var done, fields := stream.SectionParse(message.fields);
      message := message.(fields := fields);
      SegmentationTest(stream);
      if !done { return false; }
      var length := bodyLength(message.fields);
      if length == 0 {
        stage := StartLine;
        return true;
      }
      content, message, stage := length, message.(body := ""), Body;
      complete := BodyRead(stream);
      if complete { stage := StartLine; }
    }

    /** Skips the LF of a terminator that the stream before has cut. */
    method SkipCutLf(stream: Stream)
      requires stream.Valid()
      modifies `skipLf, stream`pos
      ensures stream.Valid() && !skipLf
      ensures stream.Unread() == if old(skipLf) then DropLf(old(stream.Unread())) else old(stream.Unread())
    {
      if skipLf {
        if stream.pos < |stream.text| && stream.text[stream.pos] == '\n' { stream.pos := stream.pos + 1; }
        skipLf := false;
      }
    }

    /** Reads the start line, and gets ready for the header. */
    method StartLineRead(stream: Stream) returns (ok: bool)
      requires stream.Valid() && !stream.isEos && stream.text != [] && stage.StartLine? && !skipLf
      modifies this, stream`pos, stream`isEos
      ensures stream.Valid() && !stream.isEos == ok
      ensures match ReadLine(old(stream.Unread()))
              case None => !ok && Value() == old(Value()) && stream.Unread() == old(stream.Unread())
              case Some(l) =>
                && ok && stream.Unread() == l.rest && (skipLf ==> stream.Unread() == [] && EndsWithCr(stream.text))
                && Value() == Parser(HeaderSection, skipLf, 0, Message(l.text, [], ""))
    {
      hide ReadLine, EndsWithCr;
      var read, line := stream.LineRead();
      if !read { return false; }
      message, content := Message(line, [], ""), 0;
      SegmentationTest(stream);
      stage := HeaderSection;
      ok := true;
    }

    /** Parses what the stream holds; returns true when a message is complete. */
    method ParserRun(stream: Stream) returns (complete: bool)
      requires stream.Valid() && !stream.isEos && stream.Unread() != [] && Coherent(Value())
      modifies this, stream`pos, stream`isEos
      ensures stream.Valid()
      ensures Outcome(Value(), stream.Unread(), if complete then Complete else Incomplete)
           == Run(old(Value()), old(stream.Unread()), bodyLength)
    {
      ghost var s := stream.Unread();
      assert EndsWithCr(s) == EndsWithCr(stream.text);
      hide ReadLine, ParseSection, EndsWithCr, RunHeader, DropLf;
      SkipCutLf(stream);
      if stage.StartLine? {
        var ok := StartLineRead(stream);
        if !ok { return false; }
      }
      if stage.HeaderSection? {
        HeaderIgnoresSkip(Value(), EndsWithCr(s), stream.Unread(), bodyLength);
        complete := HeaderRun(stream);
      } else {
        complete := BodyRead(stream);
        if complete { stage := StartLine; }
      }
    }
  }

  lemma HeaderIgnoresSkip(p: Parser, cr: bool, s: string, length: seq<Field> -> nat)
    requires p.stage.HeaderSection?
    ensures RunHeader(p, cr, s, length) == RunHeader(p.(skipLf := false), cr, s, length)
  {
  }
}
