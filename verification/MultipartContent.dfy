/** The multipart writer and reader, updated in place. */
module MultipartContent {
  import opened Options
  import opened TextMessage
  import opened TextRoundTrip
  import opened TextGenerator
  import opened TextStream
  import opened TextOutput
  import opened Multipart

  class Writer {
    const stream: Output
    const boundary: string

    constructor (size: nat, boundary: string)
      ensures stream.Valid() && stream.Text() == [] && stream.buf.Length == size && this.boundary == boundary
      ensures fresh(stream) && fresh(stream.buf)
    {
      stream := new Output(size);
      this.boundary := boundary;
    }

    method NumberInsert(n: nat) returns (ok: bool)
      requires stream.Valid()
      modifies stream`pos, stream.buf
      ensures stream.Valid() && (stream.Text(), ok) == InsertNumber(old(stream.Text()), stream.buf.Length, n)
    {
      var d, room := Decimal(n), stream.buf.Length - stream.pos;
      if room <= 1 { return false; }
      stream.Copy(d[..if |d| < room then |d| else room - 1]);
      ok := true;
    }

    method Insert(p: Piece) returns (ok: bool)
      requires stream.Valid()
      modifies stream`pos, stream.buf
      ensures stream.Valid() && (stream.Text(), ok) == InsertPiece(old(stream.Text()), stream.buf.Length, p)
    {
      hide Decimal, InsertNumber, InsertEol, InsertPair, InsertString;
      match p {
        case Raw(s) => ok := stream.StringInsert(s);
        case Pair(f) => ok := stream.PairInsert(f);
        case LineEnd => ok := stream.EolInsert();
        case LengthOf(n) =>
          if stream.pos + |CONTENT_LENGTH| + 2 >= stream.buf.Length { return false; }
          stream.Copy(CONTENT_LENGTH);
          stream.Copy(": ");
          ok := NumberInsert(n);
          if ok { ok := stream.EolInsert(); }
      }
    }

    /** Inserts the pieces up to the first that does not fit. */
    method InsertEach(ps: seq<Piece>) returns (ok: bool)
      requires stream.Valid()
      modifies stream`pos, stream.buf
      ensures stream.Valid() && (stream.Text(), ok) == InsertAll(old(stream.Text()), stream.buf.Length, ps)
    {
      hide InsertPiece;
      ghost var all := InsertAll(stream.Text(), stream.buf.Length, ps);
      var i := 0;
      while i < |ps|
        invariant 0 <= i <= |ps| && stream.Valid()
        invariant InsertAll(stream.Text(), stream.buf.Length, ps[i..]) == all
      {
        assert ps[i..][1..] == ps[i + 1..];
        ok := Insert(ps[i]);
        if !ok { return; }
        i := i + 1;
      }
      ok := true;
    }

    method AddPart(part: Part) returns (ok: bool)
      requires stream.Valid()
      modifies stream`pos, stream.buf
      ensures stream.Valid()
      ensures (stream.Text(), ok) == InsertAll(old(stream.Text()), stream.buf.Length, PartPieces(boundary, part))
    {
      ok := InsertEach(PartPieces(boundary, part));
    }

    method Finalize() returns (ok: bool)
      requires stream.Valid()
      modifies stream`pos, stream.buf
      ensures stream.Valid()
      ensures (stream.Text(), ok) == InsertAll(old(stream.Text()), stream.buf.Length, FinalPieces(boundary))
    {
      ok := InsertEach(FinalPieces(boundary));
    }
  }

  class PartReader {
    const stream: Stream
    var boundary: string

    ghost predicate Valid()
      reads this, stream
    {
      stream.Valid() && !stream.isEos
    }

    ghost function Value(): Reader
      reads this, stream
      requires Valid()
    {
      Reader(boundary, stream.Unread())
    }

    constructor (body: string, boundary: string)
      ensures Valid() && Value() == Reader(boundary, body) && fresh(stream)
    {
      hide Stream.Unread;
      stream := new Stream(body);
      this.boundary := boundary;
    }

    method SkipPreamble()
      requires Valid()
      modifies stream`pos
      ensures Valid() && stream.Unread() == SkipToHyphen(old(stream.Unread()))
    {
      ghost var all := SkipToHyphen(stream.Unread());
      while stream.pos < |stream.text| && stream.text[stream.pos] != '-'
        invariant Valid() && SkipToHyphen(stream.Unread()) == all
        decreases |stream.text| - stream.pos
      {
        assert stream.Unread()[1..] == stream.text[stream.pos + 1..];
        stream.pos := stream.pos + 1;
      }
    }

    method SkipInitialHyphens()
      requires Valid()
      modifies stream`pos
      ensures Valid() && stream.Unread() == SkipHyphens(old(stream.Unread()))
    {
      ghost var all := SkipHyphens(stream.Unread());
      while stream.pos < |stream.text| && stream.text[stream.pos] == '-'
        invariant Valid() && SkipHyphens(stream.Unread()) == all
        decreases |stream.text| - stream.pos
      {
        assert stream.Unread()[1..] == stream.text[stream.pos + 1..];
        stream.pos := stream.pos + 1;
      }
    }

    method BoundaryRead() returns (found: Option<string>, final: bool)
      requires Valid()
      modifies stream`pos, stream`isEos
      ensures stream.Valid() && (found.Some? ==> Valid())
      ensures match ReadDelimiter(old(stream.Unread()))
              case None => found.None?
              case Some(d) => found == Some(d.boundary) && final == d.final && stream.Unread() == d.rest
    {
      hide SkipToHyphen, SkipHyphens, ReadLine;
      SkipPreamble();
      if stream.pos >= |stream.text| { return None, false; }
      SkipInitialHyphens();
      if stream.pos >= |stream.text| { return None, false; }
      var ok, line := stream.LineRead();
      if !ok { return None, false; }
      ghost var trimmed := TrimSpaces(line);
      while line != [] && line[|line| - 1] == ' '
        invariant TrimSpaces(line) == trimmed
      {
        line := line[..|line| - 1];
      }
      final := |line| >= 2 && line[|line| - 1] == '-' && line[|line| - 2] == '-';
      found := Some(if final then line[..|line| - 2] else line);
    }

    method Recognised(fields: seq<Field>) returns (c: Content)
      ensures c == RecogniseAll(NO_CONTENT, fields)
    {
      hide Recognise;
      c := NO_CONTENT;
      var i := 0;
      while i < |fields|
        invariant 0 <= i <= |fields| && RecogniseAll(c, fields[i..]) == RecogniseAll(NO_CONTENT, fields)
      {
        assert fields[i..][1..] == fields[i + 1..];
        c := Recognise(c, fields[i]);
        i := i + 1;
      }
    }

    /** Takes the body of a part off the stream, if all of it is there. */
    method BodyTake(length: nat) returns (ok: bool, body: string)
      requires Valid()
      modifies stream`pos
      ensures Valid() && ok == (length <= |old(stream.Unread())|)
      ensures ok ==> body == old(stream.Unread())[..length] && stream.Unread() == old(stream.Unread())[length..]
    {
      if length > |stream.text| - stream.pos { return false, []; }
      body := stream.text[stream.pos..stream.pos + length];
      stream.pos := stream.pos + length;
      ok := true;
    }

    /** Gets the next content part; on success the reader stands behind it. */
    method Get() returns (ok: bool, final: bool, content: Content)
      requires Valid()
      modifies this, stream`pos, stream`isEos
      ensures stream.Valid()
      ensures var g := GetPart(old(Value()));
              && ok == g.ok && (ok ==> final == g.final && content == g.content)
              && (ok ==> Valid() && Value() == g.reader)
    {
      hide ReadDelimiter, ParseSection, RecogniseAll, Number, SameIgnoringCase, Stream.Unread;
      var found;
      found, final := BoundaryRead();
      if found.None? { return false, false, NO_CONTENT; }
      if boundary == [] {
        boundary := found.value;
      } else if !SameIgnoringCase(boundary, found.value) {
        return false, final, NO_CONTENT;
      }
      if final { return true, true, NO_CONTENT; }
      var done, fields := stream.SectionParse([]);
      if !done { return false, false, NO_CONTENT; }
      content := Recognised(fields);
      if content.length.Some? && content.length.value != [] {
        var n := Number(content.length.value, 0);
        var body;
        ok, body := BodyTake(n);
        if !ok { return false, false, content; }
        content := content.(body := body);
      }
      ok := true;
    }
  }
}
