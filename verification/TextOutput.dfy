/** The text stream as an output buffer, and the message generator, updated in place. */
module TextOutput {
  import opened TextMessage
  import opened TextRoundTrip
  import opened TextGenerator

  class Output {
    const buf: array<char>
    var pos: nat

    ghost predicate Valid()
      reads this
    {
      pos <= buf.Length
    }

    ghost function Text(): string
      reads this, buf
      requires Valid()
    {
      buf[..pos]
    }

    constructor (size: nat)
      ensures Valid() && fresh(buf) && buf.Length == size && Text() == []
    {
      buf := new char[size];
      pos := 0;
    }

    /** Copies `s` to the current position; the caller has checked the room. */
    method Copy(s: string)
      requires Valid() && pos + |s| <= buf.Length
      modifies `pos, buf
      ensures Valid() && Text() == old(Text()) + s
    {
      var i := 0;
      while i < |s|
        invariant 0 <= i <= |s| && pos == old(pos)
        invariant buf[..pos + i] == old(buf[..pos]) + s[..i]
      {
        buf[pos + i] := s[i];
        i := i + 1;
      }
      pos := pos + |s|;
    }

    method StringInsert(s: string) returns (ok: bool)
      requires Valid()
      modifies `pos, buf
      ensures Valid() && (Text(), ok) == InsertString(old(Text()), buf.Length, s)
    {
      if pos + |s| >= buf.Length { return false; }
      Copy(s);
      ok := true;
    }

    method EolInsert() returns (ok: bool)
      requires Valid()
      modifies `pos, buf
      ensures Valid() && (Text(), ok) == InsertEol(old(Text()), buf.Length)
    {
      ok := pos + 2 < buf.Length;
      if ok { Copy(CRLF); }
    }

    method PairInsert(f: Field) returns (ok: bool)
      requires Valid()
      modifies `pos, buf
      ensures Valid() && (Text(), ok) == InsertPair(old(Text()), buf.Length, f)
    {
      if pos + |f.name| + |f.value| + 2 >= buf.Length { return false; }
      Copy(f.name);
      Copy(": ");
      Copy(f.value);
      ok := EolInsert();
    }

    method SectionGenerate(fields: seq<Field>) returns (ok: bool)
      requires Valid()
      modifies `pos, buf
      ensures Valid() && (Text(), ok) == GenerateSection(old(Text()), buf.Length, fields)
    {
      hide InsertPair, InsertEol;
      var i := 0;
      while i < |fields|
        invariant 0 <= i <= |fields| && Valid()
        invariant GenerateSection(Text(), buf.Length, fields[i..]) == GenerateSection(old(Text()), buf.Length, fields)
      {
        assert fields[i..][1..] == fields[i + 1..];
        var _ := PairInsert(fields[i]);
        i := i + 1;
      }
      ok := EolInsert();
    }
  }

  class MessageGenerator {
    const message: Message
    var inBody: bool
    var written: nat

    /** `written` counts body bytes and stays 0 outside the body. */
    ghost predicate Valid()
      reads this
    {
      written <= |message.body| && (inBody || written == 0)
    }

    ghost function Value(): Generator
      reads this
    {
      Generator(inBody, written)
    }

    constructor (m: Message)
      ensures Valid() && message == m && Value() == Generator(false, 0)
    {
      message, inBody, written := m, false, 0;
    }

    method BodyWrite(stream: Output) returns (status: GenStatus)
      requires written <= |message.body| && stream.Valid()
      modifies this, stream`pos, stream.buf
      ensures Valid() && stream.Valid()
      ensures GenOutcome(Value(), stream.Text(), status)
                == WriteBody(old(stream.Text()), stream.buf.Length, message, old(written))
    {
      var required, room := |message.body| - written, stream.buf.Length - stream.pos;
      inBody := required > room;
      if inBody { required := room; }
      stream.Copy(message.body[written..written + required]);
      if inBody {
        written := written + required;
        return More;
      }
      written := 0;
      status := Done;
    }

    /** Generates as much of the message as fits the stream. */
    method GeneratorRun(stream: Output) returns (status: GenStatus)
      requires Valid() && stream.Valid() && stream.pos == 0
      modifies this, stream`pos, stream.buf
      ensures Valid() && stream.Valid()
      ensures GenOutcome(Value(), stream.Text(), status) == Generate(old(Value()), message, stream.buf.Length)
    {
      hide InsertString, InsertEol, GenerateSection, WriteBody;
      if !inBody {
        var ok := stream.StringInsert(message.start);
        if ok { ok := stream.EolInsert(); }
        if ok { ok := stream.SectionGenerate(message.fields); }
        if !ok { return if stream.pos >= stream.buf.Length then More else Invalid; }
        if message.body == [] { return Done; }
      }
      status := BodyWrite(stream);
    }
  }
}
