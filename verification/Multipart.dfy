/** Multipart content: generation of parts delimited by a boundary, and reading them back. */
module Multipart {
  import opened Options
  import opened TextMessage
  import opened TextSegments
  import opened TextRoundTrip
  import opened TextGenerator

  const CONTENT_LENGTH := "Content-Length"
  const CONTENT_TYPE := "Content-Type"
  const CONTENT_ID := "Content-Id"

  datatype Part = Part(ctype: Option<string>, id: Option<string>, body: Option<string>)

  // ---------------------------------------------------------------- numbers

  function Digit(d: nat): char
    requires d < 10
  {
    "0123456789"[d]
  }

  function Decimal(n: nat): (s: string)
    ensures s != []
  {
    if n < 10 then [Digit(n)] else Decimal(n / 10) + [Digit(n % 10)]
  }

  predicate IsDigit(c: char) { '0' <= c <= '9' }

  /** The value of the leading digits of `s`, continuing from `acc`. */
  function Number(s: string, acc: nat): nat {
    if s == [] || !IsDigit(s[0]) then acc else Number(s[1..], 10 * acc + (s[0] as int - '0' as int))
  }

  lemma DigitValue(d: nat)
    requires d < 10
    ensures IsDigit(Digit(d)) && Digit(d) as int - '0' as int == d
    ensures !IsEol(Digit(d)) && !IsWsp(Digit(d))
  {
  }

  lemma {:induction false} NumberAppend(s: string, c: char, acc: nat)
    requires IsDigit(c) && forall i :: 0 <= i < |s| ==> IsDigit(s[i])
    ensures Number(s + [c], acc) == 10 * Number(s, acc) + (c as int - '0' as int)
  {
    if s == [] {
      assert [] + [c] == [c];
    } else {
      assert (s + [c])[1..] == s[1..] + [c];
      NumberAppend(s[1..], c, 10 * acc + (s[0] as int - '0' as int));
    }
  }

  lemma {:induction false} DecimalReadsBack(n: nat)
    ensures Number(Decimal(n), 0) == n
    ensures forall i :: 0 <= i < |Decimal(n)| ==> IsDigit(Decimal(n)[i])
  {
    DigitValue(n % 10);
    if n < 10 {
      assert Decimal(n)[1..] == [];
    } else {
      DecimalReadsBack(n / 10);
      NumberAppend(Decimal(n / 10), Digit(n % 10), 0);
    }
  }

  // ---------------------------------------------------------------- generation

  /** Writes as many digits as leave room for a terminating zero. */
  function InsertNumber(out: string, cap: nat, n: nat): (string, bool)
    requires |out| <= cap
  {
    var d, room := Decimal(n), cap - |out|;
    if room <= 1 then (out, false) else (out + d[..if |d| < room then |d| else room - 1], true)
  }

  function InsertName(out: string, cap: nat, name: string): (string, bool) {
    if |out| + |name| + 2 >= cap then (out, false) else (out + name + ": ", true)
  }

  /** One insertion: a string, a name and value pair, the length header, or a line end. */
  datatype Piece = Raw(text: string) | Pair(field: Field) | LengthOf(n: nat) | LineEnd

  function PieceText(p: Piece): string {
    match p
    case Raw(s) => s
    case Pair(f) => FieldText(f)
    case LengthOf(n) => FieldText(Field(CONTENT_LENGTH, Decimal(n)))
    case LineEnd => CRLF
  }

  function InsertPiece(out: string, cap: nat, p: Piece): (r: (string, bool))
    requires |out| <= cap
    ensures |r.0| <= cap
  {
    match p
    case Raw(s) => InsertString(out, cap, s)
    case Pair(f) => InsertPair(out, cap, f)
    case LineEnd => InsertEol(out, cap)
    case LengthOf(n) =>
      var (out1, ok1) := InsertName(out, cap, CONTENT_LENGTH);
      if !ok1 then (out1, false)
      else
        var (out2, ok2) := InsertNumber(out1, cap, n);
        if !ok2 then (out2, false) else InsertEol(out2, cap)
  }

  function InsertAll(out: string, cap: nat, ps: seq<Piece>): (string, bool)
    requires |out| <= cap
    decreases |ps|
  {
    if ps == [] then (out, true)
    else
      var (out1, ok) := InsertPiece(out, cap, ps[0]);
      if ok then InsertAll(out1, cap, ps[1..]) else (out1, false)
  }

  function OptionalPair(name: string, v: Option<string>): seq<Piece> {
    match v case None => [] case Some(s) => [Pair(Field(name, s))]
  }

  function LengthPiece(body: Option<string>): seq<Piece> { match body case None => [] case Some(b) => [LengthOf(|b|)] }

  function BodyPiece(body: Option<string>): seq<Piece> { match body case None => [] case Some(b) => [Raw(b)] }

  function OpeningPieces(boundary: string): seq<Piece> { [LineEnd, Raw("--"), Raw(boundary), LineEnd] }

  /** The insertions that make up a content part, in order. */
  function PartPieces(boundary: string, part: Part): seq<Piece> {
    OpeningPieces(boundary)
    + (OptionalPair(CONTENT_TYPE, part.ctype)
       + (OptionalPair(CONTENT_ID, part.id)
          + (LengthPiece(part.body) + ([LineEnd] + BodyPiece(part.body)))))
  }

  function FinalPieces(boundary: string): seq<Piece> {
    [LineEnd, Raw("--"), Raw(boundary), Raw("--"), LineEnd]
  }

  function AllPieces(boundary: string, parts: seq<Part>): seq<Piece> {
    if parts == [] then FinalPieces(boundary) else PartPieces(boundary, parts[0]) + AllPieces(boundary, parts[1..])
  }

  function PiecesText(ps: seq<Piece>): string {
    if ps == [] then [] else PieceText(ps[0]) + PiecesText(ps[1..])
  }

  /** The content, as the finalized string. */
  function ContentText(boundary: string, parts: seq<Part>): string { PiecesText(AllPieces(boundary, parts)) }

  lemma Joining(out: string, name: string, colon: string, value: string)
    ensures out + name + colon == out + (name + colon)
    ensures out + (name + colon) + value + CRLF == out + (name + colon + value + CRLF)
  {
  }

  lemma LengthFits(out: string, cap: nat, n: nat)
    requires |out| < cap
    ensures var (out1, ok) := InsertPiece(out, cap, LengthOf(n));
            && (ok <==> |out| + |PieceText(LengthOf(n))| < cap)
            && (ok ==> out1 == out + PieceText(LengthOf(n)))
  {
    hide Decimal;
    var d, name := Decimal(n), CONTENT_LENGTH + ": ";
    if |out| + |name| < cap {
      Joining(out, CONTENT_LENGTH, ": ", d);
      assert d[..|d|] == d;
    }
  }

  lemma PieceFits(out: string, cap: nat, p: Piece)
    requires |out| < cap
    ensures var (out1, ok) := InsertPiece(out, cap, p);
            && (ok <==> |out| + |PieceText(p)| < cap)
            && (ok ==> out1 == out + PieceText(p))
  {
    match p
    case Raw(s) =>
    case Pair(f) => InsertPairFits(out, cap, f);
    case LineEnd =>
    case LengthOf(n) => LengthFits(out, cap, n);
  }

  /** Generation succeeds exactly when the text is shorter than the room left, and then has
      written exactly that text. */
  lemma {:induction false} PiecesFit(out: string, cap: nat, ps: seq<Piece>)
    requires |out| < cap
    ensures var (out1, ok) := InsertAll(out, cap, ps);
            && (ok <==> |out| + |PiecesText(ps)| < cap)
            && (ok ==> out1 == out + PiecesText(ps))
    decreases |ps|
  {
    hide InsertPiece, PieceText;
    if ps != [] {
      PieceFits(out, cap, ps[0]);
      if |out| + |PieceText(ps[0])| < cap {
        PiecesFit(out + PieceText(ps[0]), cap, ps[1..]);
        assert out + PieceText(ps[0]) + PiecesText(ps[1..]) == out + PiecesText(ps);
      }
    } else {
      assert out + [] == out;
    }
  }

  // ---------------------------------------------------------------- reading

  function SkipToHyphen(s: string): (r: string)
    ensures |r| <= |s|
  {
    if s == [] || s[0] == '-' then s else SkipToHyphen(s[1..])
  }

  function SkipHyphens(s: string): (r: string)
    ensures |r| <= |s|
  {
    if s == [] || s[0] != '-' then s else SkipHyphens(s[1..])
  }

  function TrimSpaces(s: string): (r: string)
    ensures |r| <= |s| && r <= s && (r != [] ==> r[|r| - 1] != ' ')
  {
    if s == [] || s[|s| - 1] != ' ' then s else TrimSpaces(s[..|s| - 1])
  }

  predicate EndsFinal(b: string) { |b| >= 2 && b[|b| - 1] == '-' && b[|b| - 2] == '-' }

  datatype Delimiter = Delimiter(boundary: string, final: bool, rest: string)

  /** The next boundary line, without hyphens before it and trailing spaces. */
  function ReadDelimiter(s: string): (r: Option<Delimiter>)
    ensures r.Some? ==> |r.value.rest| < |s|
  {
    var t := SkipToHyphen(s);
    if t == [] then None
    else
      var u := SkipHyphens(t);
      if u == [] then None
      else
        match ReadLine(u)
        case None => None
        case Some(l) =>
          var b := TrimSpaces(l.text);
          Some(if EndsFinal(b) then Delimiter(b[..|b| - 2], true, l.rest) else Delimiter(b, false, l.rest))
  }

  function ToLower(c: char): char {
    if 'A' <= c <= 'Z' then (c as int + 32) as char else c
  }

  predicate SameIgnoringCase(a: string, b: string) {
    |a| == |b| && a != [] && forall i :: 0 <= i < |a| ==> ToLower(a[i]) == ToLower(b[i])
  }

  /** A part as read: the header fields looked for, and the body. */
  datatype Content = Content(ctype: Option<string>, id: Option<string>, length: Option<string>, body: string)

  const NO_CONTENT := Content(None, None, None, [])

  /** A field is recognised when its name is a prefix of the name looked for. */
  function Recognise(c: Content, f: Field): Content {
    if f.name <= CONTENT_LENGTH then c.(length := Some(f.value))
    else if f.name <= CONTENT_TYPE then c.(ctype := Some(f.value))
    else if f.name <= CONTENT_ID then c.(id := Some(f.value))
    else c
  }

  function RecogniseAll(c: Content, fields: seq<Field>): Content
    decreases |fields|
  {
    if fields == [] then c else RecogniseAll(Recognise(c, fields[0]), fields[1..])
  }

  /** `boundary` is empty until it has been given or learned from the content. */
  datatype Reader = Reader(boundary: string, unread: string)

  datatype Got = Got(ok: bool, final: bool, content: Content, reader: Reader)

  function GetPart(r: Reader): (g: Got)
    ensures g.ok ==> |g.reader.unread| < |r.unread|
  {
    match ReadDelimiter(r.unread)
    case None => Got(false, false, NO_CONTENT, r)
    case Some(d) =>
      if r.boundary != [] && !SameIgnoringCase(r.boundary, d.boundary)
      then Got(false, d.final, NO_CONTENT, Reader(r.boundary, d.rest))
      else
        var b := if r.boundary == [] then d.boundary else r.boundary;
        if d.final then Got(true, true, NO_CONTENT, Reader(b, d.rest))
        else
          var h := ParseSection([], d.rest);
          if !h.done then Got(false, false, NO_CONTENT, Reader(b, h.rest))
          else
            var c := RecogniseAll(NO_CONTENT, h.fields);
            if c.length.None? || c.length.value == [] then Got(true, false, c, Reader(b, h.rest))
            else
              var n := Number(c.length.value, 0);
              if n > |h.rest| then Got(false, false, c, Reader(b, h.rest))
              else Got(true, false, c.(body := h.rest[..n]), Reader(b, h.rest[n..]))
  }

  /** Reads parts until the final boundary; None if any of them cannot be read. */
  function GetAll(r: Reader): Option<seq<Content>>
    decreases |r.unread|
  {
    var g := GetPart(r);
    if !g.ok then None
    else if g.final then Some([])
    else
      match GetAll(g.reader)
      case None => None
      case Some(cs) => Some([g.content] + cs)
  }

  // ---------------------------------------------------------------- round trip

  /** Boundaries that survive: not starting with a hyphen, not ending in a space or "--". */
  predicate GoodBoundary(b: string) {
    b != [] && b[0] != '-' && b[|b| - 1] != ' ' && !EndsFinal(b)
  }

  lemma SkippedToLine(b: string, y: string)
    requires b != [] && EolFree(b)
    ensures SkipToHyphen(CRLF + "--" + b + CRLF + y) == "--" + b + CRLF + y
    ensures SkipHyphens("--" + b + CRLF + y) == SkipHyphens(b) + CRLF + y
    ensures EolFree(SkipHyphens(b)) && (b[0] != '-' ==> SkipHyphens(b) == b) && (b[0] == '-' ==> |SkipHyphens(b)| < |b|)
  {
    var s := CRLF + "--" + b + CRLF + y;
    var u := "--" + b + CRLF + y;
    assert s[0] == '\r' && s[1..] == "\n" + u && ("\n" + u)[1..] == u && u[0] == '-';
    assert SkipToHyphen(u) == u && SkipToHyphen("\n" + u) == SkipToHyphen(u);
    assert u[1..][1..] == b + CRLF + y;
    HyphensOf(b, y);
  }

  lemma {:induction false} HyphensOf(b: string, y: string)
    requires EolFree(b)
    ensures SkipHyphens(b + CRLF + y) == SkipHyphens(b) + CRLF + y && EolFree(SkipHyphens(b))
  {
    if b == [] {
      assert b + CRLF + y == CRLF + y;
    } else if b[0] == '-' {
      assert (b + CRLF + y)[1..] == b[1..] + CRLF + y;
      HyphensOf(b[1..], y);
    }
  }

  lemma DelimiterLine(b: string, y: string)
    requires b != [] && EolFree(b)
    ensures var t := TrimSpaces(SkipHyphens(b));
            ReadDelimiter(CRLF + "--" + b + CRLF + y) ==
            Some(if EndsFinal(t) then Delimiter(t[..|t| - 2], true, y) else Delimiter(t, false, y))
  {
    SkippedToLine(b, y);
    ReadLineOf(SkipHyphens(b), y);
    hide SkipToHyphen, SkipHyphens, ReadLine, TrimSpaces;
  }

  lemma TrimmedEnd(s: string)
    ensures s == [] || s[|s| - 1] != ' ' ==> TrimSpaces(s) == s
  {
  }

  /** A boundary line reads back as its boundary exactly when the boundary is a good one. */
  lemma BoundaryReadsBack(b: string, y: string)
    requires b != [] && EolFree(b)
    ensures ReadDelimiter(CRLF + "--" + b + CRLF + y) == Some(Delimiter(b, false, y)) <==> GoodBoundary(b)
  {
    DelimiterLine(b, y);
    SkippedToLine(b, y);
    TrimmedEnd(b);
    hide ReadDelimiter, SkipHyphens;
  }

  lemma FinalReadsBack(b: string, y: string)
    requires GoodBoundary(b) && EolFree(b)
    ensures ReadDelimiter(CRLF + "--" + b + "--" + CRLF + y) == Some(Delimiter(b, true, y))
  {
    var line := b + "--";
    assert CRLF + "--" + b + "--" + CRLF + y == CRLF + "--" + line + CRLF + y;
    DelimiterLine(line, y);
    SkippedToLine(line, y);
    TrimmedEnd(line);
    hide ReadDelimiter, SkipHyphens;
    assert line[..|line| - 2] == b;
  }

  predicate GoodValue(v: Option<string>) { v.Some? ==> EolFree(v.value) && (v.value != [] ==> !IsWsp(v.value[0])) }

  function LengthText(part: Part): Option<string> {
    match part.body case None => None case Some(b) => Some(Decimal(|b|))
  }

  function OptionalField(name: string, v: Option<string>): seq<Field> {
    match v case None => [] case Some(s) => [Field(name, s)]
  }

  function PartFields(part: Part): seq<Field> {
    OptionalField(CONTENT_TYPE, part.ctype) + OptionalField(CONTENT_ID, part.id)
      + OptionalField(CONTENT_LENGTH, LengthText(part))
  }

  function BodyOfPart(part: Part): string { match part.body case None => [] case Some(b) => b }

  function ContentOf(part: Part): Content { Content(part.ctype, part.id, LengthText(part), BodyOfPart(part)) }

  lemma NamesDiffer()
    ensures !(CONTENT_TYPE <= CONTENT_LENGTH) && !(CONTENT_ID <= CONTENT_LENGTH) && !(CONTENT_ID <= CONTENT_TYPE)
    ensures GoodField(Field(CONTENT_TYPE, [])) && GoodField(Field(CONTENT_ID, []))
    ensures GoodField(Field(CONTENT_LENGTH, []))
  {
    assert CONTENT_TYPE[8] == 'T' && CONTENT_LENGTH[8] == 'L' && CONTENT_ID[8] == 'I';
  }

  /** A field is meant by its whole name. */
  function Exact(c: Content, f: Field): Content {
    if f.name == CONTENT_LENGTH then c.(length := Some(f.value))
    else if f.name == CONTENT_TYPE then c.(ctype := Some(f.value))
    else if f.name == CONTENT_ID then c.(id := Some(f.value))
    else c
  }

  function ExactAll(c: Content, fields: seq<Field>): Content
    decreases |fields|
  {
    if fields == [] then c else ExactAll(Exact(c, fields[0]), fields[1..])
  }

  /** The beginning of one of the names looked for, and not all of it. */
  predicate Abbreviates(name: string) { name < CONTENT_LENGTH || name < CONTENT_TYPE || name < CONTENT_ID }

  /** A field is recognised by its whole name if and only if its name does not abbreviate one of those looked
      for: "Content" alone is taken for the length. */
  lemma RecognisedIff(f: Field)
    ensures (forall c: Content :: Recognise(c, f) == Exact(c, f)) <==> !Abbreviates(f.name)
  {
    NamesDiffer();
    if Abbreviates(f.name) {
      assert Exact(NO_CONTENT, f) == NO_CONTENT by { ShortIsNone(f); }
      assert Recognise(NO_CONTENT, f) != NO_CONTENT;
    }
  }

  lemma ShortIsNone(f: Field)
    requires Abbreviates(f.name)
    ensures f.name != CONTENT_LENGTH && f.name != CONTENT_TYPE && f.name != CONTENT_ID
  {
    assert CONTENT_TYPE[8] == 'T' && CONTENT_LENGTH[8] == 'L' && CONTENT_ID[8] == 'I';
  }

  /** So it is for whole headers without such names. */
  lemma {:induction false} RecognisedAll(c: Content, fields: seq<Field>)
    requires forall i :: 0 <= i < |fields| ==> !Abbreviates(fields[i].name)
    ensures RecogniseAll(c, fields) == ExactAll(c, fields)
    decreases |fields|
  {
    hide Abbreviates, Recognise, Exact;
    if fields != [] {
      RecognisedIff(fields[0]);
      RecognisedAll(Recognise(c, fields[0]), fields[1..]);
    }
  }

  lemma PartFieldsGood(part: Part)
    requires GoodValue(part.ctype) && GoodValue(part.id)
    ensures forall i :: 0 <= i < |PartFields(part)| ==> GoodField(PartFields(part)[i])
  {
    NamesDiffer();
    if part.body.Some? {
      var d := Decimal(|part.body.value|);
      DecimalReadsBack(|part.body.value|);
      assert EolFree(d) && !IsWsp(d[0]) by {
        assert forall i :: 0 <= i < |d| ==> IsDigit(d[i]);
      }
    }
  }

  lemma PartFieldsRecognised(part: Part)
    ensures RecogniseAll(NO_CONTENT, PartFields(part)) == ContentOf(part).(body := [])
  {
    NamesDiffer();
    var t, i, l := OptionalField(CONTENT_TYPE, part.ctype), OptionalField(CONTENT_ID, part.id),
      OptionalField(CONTENT_LENGTH, LengthText(part));
    RecogniseSplit(NO_CONTENT, t + i, l);
    RecogniseSplit(NO_CONTENT, t, i);
    RecogniseOptional(NO_CONTENT, CONTENT_TYPE, part.ctype);
    RecogniseOptional(RecogniseAll(NO_CONTENT, t), CONTENT_ID, part.id);
    RecogniseOptional(RecogniseAll(NO_CONTENT, t + i), CONTENT_LENGTH, LengthText(part));
    hide RecogniseAll, OptionalField;
  }

  lemma RecogniseOptional(c: Content, name: string, v: Option<string>)
    ensures RecogniseAll(c, OptionalField(name, v)) == if v.None? then c else Recognise(c, Field(name, v.value))
  {
    if v.Some? { assert [Field(name, v.value)][1..] == []; }
  }

  lemma {:induction false} RecogniseSplit(c: Content, a: seq<Field>, b: seq<Field>)
    ensures RecogniseAll(c, a + b) == RecogniseAll(RecogniseAll(c, a), b)
    decreases |a|
  {
    if a == [] {
      assert a + b == b;
    } else {
      assert (a + b)[1..] == a[1..] + b;
      RecogniseSplit(Recognise(c, a[0]), a[1..], b);
    }
  }

  lemma {:induction false} PiecesAppend(a: seq<Piece>, b: seq<Piece>)
    ensures PiecesText(a + b) == PiecesText(a) + PiecesText(b)
  {
    if a == [] {
      assert a + b == b;
    } else {
      assert (a + b)[1..] == a[1..] + b;
      PiecesAppend(a[1..], b);
    }
  }

  lemma SectionTextCons(f: Field, fields: seq<Field>)
    ensures SectionText([f] + fields) == FieldText(f) + SectionText(fields)
  {
    assert ([f] + fields)[1..] == fields;
  }

  lemma PiecesOne(p: Piece)
    ensures PiecesText([p]) == PieceText(p)
  {
    assert [p][1..] == [];
    assert PieceText(p) + [] == PieceText(p);
  }

  /** An optional header, as written and as a field list. */
  lemma OptionalText(name: string, v: Option<string>, fields: seq<Field>)
    ensures PiecesText(OptionalPair(name, v)) + SectionText(fields) == SectionText(OptionalField(name, v) + fields)
  {
    match v
    case None =>
      assert [] + SectionText(fields) == SectionText(fields) && [] + fields == fields;
    case Some(s) =>
      PiecesOne(Pair(Field(name, s)));
      SectionTextCons(Field(name, s), fields);
  }

  lemma LengthTextual(part: Part)
    ensures PiecesText(LengthPiece(part.body)) + CRLF == SectionText(OptionalField(CONTENT_LENGTH, LengthText(part)))
  {
    assert SectionText([]) == CRLF;
    match part.body
    case None => assert [] + CRLF == CRLF;
    case Some(b) =>
      PiecesOne(LengthOf(|b|));
      var f := Field(CONTENT_LENGTH, Decimal(|b|));
      SectionTextCons(f, []);
      assert [f] + [] == [f];
  }

  lemma OpeningText(b: string)
    ensures PiecesText(OpeningPieces(b)) == CRLF + "--" + b + CRLF
  {
    var ps := OpeningPieces(b);
    assert ps[1..] == [Raw("--"), Raw(b), LineEnd] && ps[1..][1..] == [Raw(b), LineEnd]
      && ps[1..][1..][1..] == [LineEnd];
    PiecesOne(LineEnd);
    assert PiecesText(ps[1..][1..]) == b + CRLF;
    assert PiecesText(ps[1..]) == "--" + (b + CRLF);
  }

  /** The insertions after the opening line, from the length header, the id and the type on. */
  function FromLength(part: Part): seq<Piece> { LengthPiece(part.body) + ([LineEnd] + BodyPiece(part.body)) }

  function FromId(part: Part): seq<Piece> { OptionalPair(CONTENT_ID, part.id) + FromLength(part) }

  function FromType(part: Part): seq<Piece> { OptionalPair(CONTENT_TYPE, part.ctype) + FromId(part) }

  function LengthFields(part: Part): seq<Field> { OptionalField(CONTENT_LENGTH, LengthText(part)) }

  function IdFields(part: Part): seq<Field> { OptionalField(CONTENT_ID, part.id) + LengthFields(part) }

  lemma EndText(part: Part)
    ensures PiecesText([LineEnd] + BodyPiece(part.body)) == CRLF + BodyOfPart(part)
  {
    PiecesAppend([LineEnd], BodyPiece(part.body));
    PiecesOne(LineEnd);
    if part.body.Some? { PiecesOne(Raw(part.body.value)); }
  }

  lemma FromLengthText(part: Part)
    ensures PiecesText(FromLength(part)) == SectionText(LengthFields(part)) + BodyOfPart(part)
  {
    PiecesAppend(LengthPiece(part.body), [LineEnd] + BodyPiece(part.body));
    EndText(part);
    LengthTextual(part);
    hide PiecesText, SectionText, LengthPiece, BodyPiece, BodyOfPart, OptionalField;
    Assoc(PiecesText(LengthPiece(part.body)), CRLF, BodyOfPart(part));
  }

  /** An optional header in front of a section that is already accounted for. */
  lemma PrependText(name: string, v: Option<string>, ps: seq<Piece>, fields: seq<Field>, body: string)
    requires PiecesText(ps) == SectionText(fields) + body
    ensures PiecesText(OptionalPair(name, v) + ps) == SectionText(OptionalField(name, v) + fields) + body
  {
    PiecesAppend(OptionalPair(name, v), ps);
    OptionalText(name, v, fields);
    hide PiecesText, SectionText, OptionalPair, OptionalField;
    Assoc(PiecesText(OptionalPair(name, v)), SectionText(fields), body);
  }

  lemma PartText(b: string, part: Part)
    ensures PiecesText(PartPieces(b, part)) == CRLF + "--" + b + CRLF
              + (SectionText(PartFields(part)) + BodyOfPart(part))
  {
    FromLengthText(part);
    PrependText(CONTENT_ID, part.id, FromLength(part), LengthFields(part), BodyOfPart(part));
    PrependText(CONTENT_TYPE, part.ctype, FromId(part), IdFields(part), BodyOfPart(part));
    Assoc(OptionalField(CONTENT_TYPE, part.ctype), OptionalField(CONTENT_ID, part.id), LengthFields(part));
    PiecesAppend(OpeningPieces(b), FromType(part));
    OpeningText(b);
    hide PiecesText, SectionText, OpeningPieces, OptionalPair, OptionalField, LengthText, BodyOfPart;
  }

  predicate GoodPart(part: Part) { GoodValue(part.ctype) && GoodValue(part.id) }

  /** What follows the header section of a part, given its recognised fields. */
  lemma BodyReadsBack(part: Part, y: string)
    ensures var c := ContentOf(part).(body := []);
            var rest := BodyOfPart(part) + y;
            && (c.length.Some? ==> c.length.value != [] && Number(c.length.value, 0) == |BodyOfPart(part)|)
            && (c.length.None? ==> rest == y)
            && rest[..|BodyOfPart(part)|] == BodyOfPart(part) && rest[|BodyOfPart(part)|..] == y
  {
    if part.body.Some? {
      DecimalReadsBack(|part.body.value|);
    } else {
      assert [] + y == y;
    }
  }

  /** The same character, or the same letter of the Latin alphabet. */
  predicate SameLetter(x: char, y: char) {
    x == y || ('A' <= x <= 'Z' && y as int == x as int + 32) || ('A' <= y <= 'Z' && x as int == y as int + 32)
  }

  /** A boundary other than that of the part, letters apart from their case. */
  predicate SameBoundary(a: string, b: string) {
    |a| == |b| && forall i :: 0 <= i < |a| ==> SameLetter(a[i], b[i])
  }

  lemma SameIs(a: string, b: string)
    requires b != []
    ensures SameIgnoringCase(a, b) <==> SameBoundary(a, b)
  {
  }

  /** Reading a generated part yields its type, id and body, whatever bytes the body holds,
      and leaves exactly what was generated after it. */
  lemma GetPartOf(boundary: string, b: string, part: Part, y: string)
    requires GoodBoundary(b) && EolFree(b) && (boundary == [] || boundary == b) && GoodPart(part)
    ensures GetPart(Reader(boundary, PiecesText(PartPieces(b, part)) + y))
              == Got(true, false, ContentOf(part), Reader(b, y))
  {
    hide GetPart, PiecesText, PartPieces, GoodPart;
    BoundaryDecides(boundary, b, part, y);
  }

  /** A reader that has not been told a boundary reads every part; one that has, exactly the parts with its
      boundary, whatever the case of its letters. */
  lemma BoundaryDecides(boundary: string, b: string, part: Part, y: string)
    requires GoodBoundary(b) && EolFree(b) && GoodPart(part)
    ensures var g := GetPart(Reader(boundary, PiecesText(PartPieces(b, part)) + y));
            && (g.ok <==> boundary == [] || SameBoundary(boundary, b))
            && (g.ok ==> g == Got(true, false, ContentOf(part), Reader(if boundary == [] then b else boundary, y)))
  {
    hide SameIgnoringCase, SameBoundary;
    SameIs(boundary, b);
    hide ReadDelimiter, ParseSection, RecogniseAll, PiecesText, Number, EndsFinal, PartFields, PartPieces;
    hide SectionText, ContentOf, BodyOfPart;
    var fields, body := PartFields(part), BodyOfPart(part);
    PartText(b, part);
    var rest := SectionText(fields) + (body + y);
    Assoc(CRLF + "--" + b + CRLF, SectionText(fields) + body, y);
    Assoc(SectionText(fields), body, y);
    BoundaryReadsBack(b, rest);
    PartFieldsGood(part);
    SectionOf([], fields, body + y);
    assert [] + fields == fields;
    PartFieldsRecognised(part);
    BodyReadsBack(part, y);
    ContentParts(part);
  }

  lemma ContentParts(part: Part)
    ensures var c := ContentOf(part);
            c.body == BodyOfPart(part) && (c.length.None? ==> c.body == []) && c.length == LengthText(part)
  {
  }

  lemma FinalText(b: string)
    ensures PiecesText(FinalPieces(b)) == CRLF + "--" + b + "--" + CRLF
  {
    var ps := [LineEnd, Raw("--"), Raw(b)];
    var qs := [Raw("--"), LineEnd];
    assert FinalPieces(b) == ps + qs;
    PiecesAppend(ps, qs);
    PiecesOne(LineEnd);
    assert qs[1..] == [LineEnd];
    assert ps[1..] == [Raw("--"), Raw(b)] && ps[1..][1..] == [Raw(b)];
    PiecesOne(Raw(b));
    assert PiecesText(ps[1..]) == "--" + b;
  }

  lemma GetFinalOf(boundary: string, b: string, y: string)
    requires GoodBoundary(b) && EolFree(b) && (boundary == [] || boundary == b)
    ensures GetPart(Reader(boundary, PiecesText(FinalPieces(b)) + y)) == Got(true, true, NO_CONTENT, Reader(b, y))
  {
    FinalText(b);
    assert PiecesText(FinalPieces(b)) + y == CRLF + "--" + b + "--" + CRLF + y;
    FinalReadsBack(b, y);
    hide ReadDelimiter;
  }

  function Contents(parts: seq<Part>): seq<Content> {
    if parts == [] then [] else [ContentOf(parts[0])] + Contents(parts[1..])
  }

  /** Round trip: all parts come back in order and then the final boundary, whether the reader
      is told the boundary or learns it, and whatever follows the content. */
  lemma {:induction false} ContentReadsBack(boundary: string, b: string, parts: seq<Part>, y: string)
    requires GoodBoundary(b) && EolFree(b) && (boundary == [] || boundary == b)
    requires forall i :: 0 <= i < |parts| ==> GoodPart(parts[i])
    ensures GetAll(Reader(boundary, ContentText(b, parts) + y)) == Some(Contents(parts))
    decreases |parts|
  {
    hide GetPart, PartPieces, FinalPieces, PiecesText;
    if parts == [] {
      GetFinalOf(boundary, b, y);
    } else {
      var text, rest := PiecesText(PartPieces(b, parts[0])), ContentText(b, parts[1..]) + y;
      FirstPart(b, parts, y);
      GetPartOf(boundary, b, parts[0], rest);
      ContentReadsBack(b, b, parts[1..], y);
    }
  }

  lemma FirstPart(b: string, parts: seq<Part>, y: string)
    requires parts != []
    ensures ContentText(b, parts) + y == PiecesText(PartPieces(b, parts[0])) + (ContentText(b, parts[1..]) + y)
  {
    hide PartPieces, PiecesText;
    PiecesAppend(PartPieces(b, parts[0]), AllPieces(b, parts[1..]));
    Assoc(PiecesText(PartPieces(b, parts[0])), ContentText(b, parts[1..]), y);
  }

  /** Generation into a buffer that is large enough, and only into such a one, yields that text. */
  lemma ContentGenerated(b: string, parts: seq<Part>, cap: nat)
    requires 0 < cap
    ensures var (out, ok) := InsertAll([], cap, AllPieces(b, parts));
            && (ok <==> |ContentText(b, parts)| < cap)
            && (ok ==> out == ContentText(b, parts))
  {
    PiecesFit([], cap, AllPieces(b, parts));
    assert [] + ContentText(b, parts) == ContentText(b, parts);
  }
}
