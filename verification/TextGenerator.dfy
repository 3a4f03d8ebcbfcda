/** Generating messages into buffers of limited size. */
module TextGenerator {
  import opened TextMessage
  import opened TextSegments
  import opened TextRoundTrip

  // Insertions append to what the buffer holds, `out`, if the result stays short of `cap`.

  function InsertString(out: string, cap: nat, s: string): (string, bool) {
    if |out| + |s| >= cap then (out, false) else (out + s, true)
  }

  function InsertEol(out: string, cap: nat): (string, bool) {
    if |out| + 2 < cap then (out + CRLF, true) else (out, false)
  }

  /** The pair is written before its terminator is tried. */
  function InsertPair(out: string, cap: nat, f: Field): (string, bool) {
    if |out| + |f.name| + |f.value| + 2 >= cap then (out, false)
    else InsertEol(out + f.name + ": " + f.value, cap)
  }

  /** Fields that do not fit are passed over; only the last terminator decides the result. */
  function GenerateSection(out: string, cap: nat, fields: seq<Field>): (string, bool)
    decreases |fields|
  {
    if fields == [] then InsertEol(out, cap) else GenerateSection(InsertPair(out, cap, fields[0]).0, cap, fields[1..])
  }

  lemma InsertPairFits(out: string, cap: nat, f: Field)
    requires |out| < cap
    ensures var (out1, ok) := InsertPair(out, cap, f);
            && |out| <= |out1| < cap && out <= out1 && |out1| <= |out| + |FieldText(f)|
            && (ok <==> |out| + |FieldText(f)| < cap)
            && (if ok then out1 == out + FieldText(f) else |out1| < |out| + |FieldText(f)|)
  {
    assert out + f.name + ": " + f.value + CRLF == out + FieldText(f);
  }

  lemma {:induction false} SectionShort(out: string, cap: nat, fields: seq<Field>)
    requires |out| < cap
    ensures var (out1, ok) := GenerateSection(out, cap, fields);
            |out1| < cap && |out1| <= |out| + |SectionText(fields)|
    decreases |fields|
  {
    if fields != [] {
      InsertPairFits(out, cap, fields[0]);
      SectionShort(InsertPair(out, cap, fields[0]).0, cap, fields[1..]);
    }
  }

  /** What is written of the fields, those that do not fit being left out or cut. */
  function Written(out: string, cap: nat, fields: seq<Field>): string
    decreases |fields|
  {
    if fields == [] then out else Written(InsertPair(out, cap, fields[0]).0, cap, fields[1..])
  }

  /** Success is reported if and only if the last terminator fits behind what is written of the fields,
      whatever has been left out of them. */
  lemma {:induction false} SectionSucceeds(out: string, cap: nat, fields: seq<Field>)
    ensures var w := Written(out, cap, fields);
            GenerateSection(out, cap, fields) == if |w| + 2 < cap then (w + CRLF, true) else (w, false)
    decreases |fields|
  {
    hide InsertPair;
    if fields != [] { SectionSucceeds(InsertPair(out, cap, fields[0]).0, cap, fields[1..]); }
  }

  /** The header section is generated completely exactly when it is shorter than the room left;
      success of the call does not tell. */
  lemma {:induction false} SectionFits(out: string, cap: nat, fields: seq<Field>)
    requires |out| < cap
    ensures GenerateSection(out, cap, fields) == (out + SectionText(fields), true) <==>
              |out| + |SectionText(fields)| < cap
    ensures |out| + |SectionText(fields)| >= cap ==>
              |GenerateSection(out, cap, fields).0| < |out| + |SectionText(fields)|
    decreases |fields|
  {
    if fields != [] {
      var f, rest := fields[0], fields[1..];
      var (out1, ok) := InsertPair(out, cap, f);
      InsertPairFits(out, cap, f);
      hide InsertPair, FieldText;
      assert |SectionText(fields)| == |FieldText(f)| + |SectionText(rest)|;
      assert out + SectionText(fields) == out + FieldText(f) + SectionText(rest);
      if ok { SectionFits(out1, cap, rest); } else { SectionShort(out1, cap, rest); }
    }
  }

  /** A single field that does not fit is dropped and the call still reports success. */
  lemma DroppedField(out: string, cap: nat, f: Field)
    requires |out| + |f.name| + |f.value| + 2 >= cap && |out| + 2 < cap
    ensures GenerateSection(out, cap, [f]) == (out + CRLF, true)
  {
    assert [f][1..] == [];
  }

  // ---------------------------------------------------------------- whole messages

  datatype GenStatus = Done | More | Invalid

  /** `written` body bytes have been generated, if the header has been. */
  datatype Generator = Generator(inBody: bool, written: nat)

  datatype GenOutcome = GenOutcome(generator: Generator, out: string, status: GenStatus)

  function Break(out: string, cap: nat): GenStatus { if |out| >= cap then More else Invalid }

  function WriteBody(out: string, cap: nat, m: Message, written: nat): GenOutcome
    requires written <= |m.body| && |out| <= cap
  {
    var room, missing := cap - |out|, |m.body| - written;
    if missing > room then
      var out1 := out + m.body[written..written + room];
      GenOutcome(Generator(true, written + room), out1, Break(out1, cap))
    else GenOutcome(Generator(false, 0), out + m.body[written..], Done)
  }

  /** One call: continues message `m` in a new buffer of `cap` bytes. */
  function Generate(g: Generator, m: Message, cap: nat): (o: GenOutcome)
    requires g.written <= |m.body|
    ensures o.generator.written <= |m.body|
  {
    if g.inBody then WriteBody([], cap, m, g.written)
    else
      var (out1, ok1) := InsertString([], cap, m.start);
      var (out2, ok2) := if ok1 then InsertEol(out1, cap) else (out1, false);
      if !ok2 then GenOutcome(Generator(false, 0), out2, Break(out2, cap))
      else
        var (out3, ok3) := GenerateSection(out2, cap, m.fields);
        if !ok3 then GenOutcome(Generator(false, 0), out3, Break(out3, cap))
        else if m.body == [] then GenOutcome(Generator(false, 0), out3, Done)
        else
          SectionShort(out2, cap, m.fields);
          WriteBody(out3, cap, m, 0)
  }

  lemma GenerateFits(m: Message, cap: nat)
    requires |HeadText(m)| < cap
    ensures Generate(Generator(false, 0), m, cap)
         == if m.body == [] then GenOutcome(Generator(false, 0), HeadText(m), Done)
           else WriteBody(HeadText(m), cap, m, 0)
  {
    assert [] + m.start == m.start;
    SectionFits(m.start + CRLF, cap, m.fields);
    hide GenerateSection, SectionText, WriteBody;
  }

  /** The buffers a message fills, one call after the other, until it is done or they run out. */
  function GenerateAll(g: Generator, m: Message, caps: seq<nat>): (seq<string>, bool)
    requires g.written <= |m.body|
    decreases |caps|
  {
    if caps == [] then ([], false)
    else
      var o := Generate(g, m, caps[0]);
      if o.status.Done? || o.status.Invalid? then ([o.out], o.status.Done?)
      else
        var (outs, done) := GenerateAll(o.generator, m, caps[1..]);
        ([o.out] + outs, done)
  }

  function Sum(caps: seq<nat>): nat { if caps == [] then 0 else caps[0] + Sum(caps[1..]) }

  lemma {:induction false} BodyAll(m: Message, written: nat, caps: seq<nat>)
    requires written < |m.body| && forall i :: 0 <= i < |caps| ==> 0 < caps[i]
    ensures var (outs, done) := GenerateAll(Generator(true, written), m, caps);
            && (done <==> |m.body| - written <= Sum(caps))
            && (done ==> Concat(outs) == m.body[written..])
            && forall i :: 0 <= i < |outs| ==> outs[i] != []
    decreases |caps|
  {
    hide Generate;
    if caps != [] {
      BodyCall(m, written, caps[0]);
      if |m.body| - written > caps[0] {
        var next := written + caps[0];
        BodyAll(m, next, caps[1..]);
        assert m.body[written..] == m.body[written..next] + m.body[next..];
      } else {
        ConcatOne(m.body[written..]);
      }
    }
  }

  lemma BodyCall(m: Message, written: nat, cap: nat)
    requires written < |m.body|
    ensures Generate(Generator(true, written), m, cap)
         == if |m.body| - written > cap
            then GenOutcome(Generator(true, written + cap), m.body[written..written + cap], More)
            else GenOutcome(Generator(false, 0), m.body[written..], Done)
  {
    if |m.body| - written > cap {
      assert [] + m.body[written..written + cap] == m.body[written..written + cap];
    } else {
      assert [] + m.body[written..] == m.body[written..];
    }
  }

  lemma ConcatOne(s: string)
    ensures Concat([s]) == s
  {
    assert [s][1..] == [];
  }

  lemma BodySplit(m: Message, room: nat)
    requires room < |m.body|
    ensures MessageText(m) == HeadText(m) + m.body[..room] + m.body[room..]
  {
    hide HeadText;
    assert m.body == m.body[..room] + m.body[room..];
  }

  /** If the head fits the first buffer, the buffers together hold exactly the text of the
      message, and generation completes exactly when they are large enough. */
  lemma GeneratesText(m: Message, caps: seq<nat>)
    requires caps != [] && |HeadText(m)| < caps[0] && forall i :: 0 <= i < |caps| ==> 0 < caps[i]
    ensures var (outs, done) := GenerateAll(Generator(false, 0), m, caps);
            && (done <==> |MessageText(m)| <= Sum(caps))
            && (done ==> Concat(outs) == MessageText(m))
            && forall i :: 0 <= i < |outs| ==> outs[i] != []
  {
    GenerateFits(m, caps[0]);
    hide Generate, HeadText;
    var room := caps[0] - |HeadText(m)|;
    var rest := caps[1..];
    if |m.body| > room {
      BodyAll(m, room, rest);
      BodySplit(m, room);
    } else {
      ConcatOne(MessageText(m));
      assert m.body == [] ==> HeadText(m) == MessageText(m);
    }
  }

  /** End to end: whatever the sizes of the buffers a message is generated into, the parser
      reads that message from them and nothing else. */
  lemma GeneratedIsParsed(m: Message, caps: seq<nat>, p: Parser, length: seq<Field> -> nat)
    requires caps != [] && |HeadText(m)| < caps[0] && |MessageText(m)| <= Sum(caps)
    requires forall i :: 0 <= i < |caps| ==> 0 < caps[i]
    requires p.stage.StartLine? && !p.skipLf && GoodMessage(m) && length(m.fields) == |m.body|
    ensures var d := Receive(p, [], GenerateAll(Generator(false, 0), m, caps).0, length);
            d.messages == [m] && d.rest == []
  {
    GeneratesText(m, caps);
    assert Texts([m]) == MessageText(m) + Texts([]) == MessageText(m);
    RoundTrip(p, [m], GenerateAll(Generator(false, 0), m, caps).0, length);
  }
}
