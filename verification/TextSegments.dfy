/** However the bytes of a message are cut into segments, the parser reads the same messages. */
module TextSegments {
  import opened Options
  import opened TextMessage

  /** What is left to read when `b` arrives after `a` was read down to `rest`. */
  function Joined(a: string, rest: string, b: string): string {
    if rest == [] && EndsWithCr(a) then DropLf(b) else rest + b
  }

  lemma {:induction false} LineLengthAppend(a: string, b: string)
    requires LineLength(a) < |a|
    ensures LineLength(a + b) == LineLength(a)
  {
    if !IsEol(a[0]) {
      assert (a + b)[1..] == a[1..] + b;
      LineLengthAppend(a[1..], b);
    }
  }

  /** A line that was complete stays the same line; only the LF of a cut CR LF may follow it. */
  lemma ReadLineSplit(a: string, b: string)
    requires ReadLine(a).Some? && b != []
    ensures var l := ReadLine(a).value;
            ReadLine(a + b) == Some(Line(l.text, Joined(a, l.rest, b)))
  {
    hide ReadLine, LineLength, Joined;
    var n := LineLength(a);
    LineAtEol(a, n);
    LineLengthAppend(a, b);
    LineAtEol(a + b, n);
    CutAt(a, b, n);
    AfterEolAppend(a, b, n);
  }

  /** What is left behind the first character of a terminator. */
  function AfterEol(c: char, tail: string): string { if c == '\r' then DropLf(tail) else tail }

  lemma LineAtEol(s: string, n: nat)
    requires n == LineLength(s)
    ensures ReadLine(s) == if n == |s| then None else Some(Line(s[..n], AfterEol(s[n], s[n + 1..])))
  {
    hide LineLength, DropLf;
  }

  lemma AfterEolAppend(a: string, b: string, n: nat)
    requires n < |a| && IsEol(a[n])
    ensures AfterEol(a[n], a[n + 1..] + b) == Joined(a, AfterEol(a[n], a[n + 1..]), b)
  {
    var tail := a[n + 1..];
    DropLfAppend(tail, b);
    if tail == [] {
      LastAlone(a, b, n);
    } else {
      assert a[|a| - 1] == tail[|tail| - 1];
    }
  }

  lemma CutAt(a: string, b: string, n: nat)
    requires n < |a|
    ensures (a + b)[..n] == a[..n] && (a + b)[n] == a[n] && (a + b)[n + 1..] == a[n + 1..] + b
  {
  }

  lemma LastAlone(a: string, b: string, n: nat)
    requires n < |a| && a[n + 1..] == []
    ensures a[|a| - 1] == a[n] && [] + b == b
  {
  }

  lemma DropLfAppend(s: string, b: string)
    ensures s != [] ==> DropLf(s + b) == DropLf(s) + b
  {
    if s != [] { assert (s + b)[1..] == s[1..] + b; }
  }

  /** No header line of `s` is followed by a continuation line. */
  predicate FoldFree(s: string)
    decreases |s|
  {
    match ReadLine(s)
    case None => true
    case Some(l) =>
      match ParseHeader(l.text)
      case Blank => true
      case Malformed => FoldFree(l.rest)
      case Proper(_) => (l.rest == [] || !IsWsp(l.rest[0])) && FoldFree(l.rest)
  }

  lemma {:induction false} SectionSplit(fields: seq<Field>, a: string, b: string)
    requires b != [] && FoldFree(a + b)
    ensures var r := ParseSection(fields, a);
            var whole := Joined(a, r.rest, b);
            ParseSection(fields, a + b)
              == if r.done then Section(true, r.fields, whole) else ParseSection(r.fields, whole)
    ensures var r := ParseSection(fields, a);
            !r.done ==> FoldFree(Joined(a, r.rest, b))
    decreases |a|, 0
  {
    match ReadLine(a)
    case None =>
    case Some(l) =>
      ReadLineSplit(a, b);
      var rest := l.rest;
      match ParseHeader(l.text) {
        case Blank =>
        case Malformed => SectionRestSplit(fields, a, rest, b);
        case Proper(f) =>
          assert Joined(a, rest, b) == [] || !IsWsp(Joined(a, rest, b)[0]);
          SectionRestSplit(fields + [f], a, rest, b);
      }
  }

  lemma {:induction false} SectionRestSplit(fields: seq<Field>, a: string, rest: string, b: string)
    requires b != [] && FoldFree(Joined(a, rest, b)) && |rest| < |a| && rest == a[|a| - |rest|..]
    ensures var r := ParseSection(fields, rest);
            var whole := Joined(a, r.rest, b);
            ParseSection(fields, Joined(a, rest, b))
              == if r.done then Section(true, r.fields, whole) else ParseSection(r.fields, whole)
    ensures var r := ParseSection(fields, rest);
            !r.done ==> FoldFree(Joined(a, r.rest, b))
    decreases |rest|, 1
  {
    if rest == [] {
      assert ParseSection(fields, rest) == Section(false, fields, []);
    } else {
      SectionSplit(fields, rest, b);
      SameEnd(a, rest, ParseSection(fields, rest).rest, b);
    }
    hide ParseSection, FoldFree;
  }

  lemma SameEnd(a: string, s: string, rest: string, b: string)
    requires s != [] && |s| <= |a| && s == a[|a| - |s|..]
    ensures Joined(a, rest, b) == Joined(s, rest, b) && Joined(a, s, b) == s + b
  {
    assert s[|s| - 1] == a[|a| - 1];
  }

  lemma BodySplit(p: Parser, s: string, b: string)
    requires p.stage.Body? && |p.partial.body| < p.content
    ensures var o := RunBody(p, s);
            && (o.status.Incomplete? ==> o.rest == [] && o.parser.stage.Body? && |o.parser.partial.body| < p.content
                                         && RunBody(p, s + b) == RunBody(o.parser, b))
            && (o.status.Complete? ==> RunBody(p, s + b) == Outcome(o.parser, o.rest + b, Complete))
  {
    var missing := p.content - |p.partial.body|;
    if missing > |s| {
      var k := if missing > |s + b| then |b| else missing - |s|;
      assert s[..|s|] == s;
      assert (s + b)[..|s| + k] == s + b[..k] && (s + b)[|s| + k..] == b[k..];
      assert p.partial.body + (s + b[..k]) == p.partial.body + s + b[..k];
    } else {
      assert (s + b)[..missing] == s[..missing] && (s + b)[missing..] == s[missing..] + b;
    }
  }

  /** What is left to read when `b` arrives after the call that ended in `o`. */
  function Left(o: Outcome, b: string): string { if o.parser.skipLf then DropLf(b) else o.rest + b }

  lemma FinishSplit(p: Parser, s: string, b: string, length: seq<Field> -> nat)
    requires p.stage.HeaderSection? && b != [] && (p.skipLf ==> s == [])
    ensures var o := Finish(p, s, length);
            var whole := Finish(p.(skipLf := false), if p.skipLf then DropLf(b) else s + b, length);
            && (o.status.Incomplete? ==> Coherent(o.parser) && whole == Run(o.parser, o.rest + b, length))
            && (o.status.Complete? ==> whole == Outcome(o.parser.(skipLf := false), Left(o, b), Complete))
  {
    var n := length(p.partial.fields);
    if n != 0 {
      var q := p.(stage := Body, content := n, skipLf := false, partial := p.partial.(body := ""));
      BodySplit(q, s, b);
      BodySplit(q, s, DropLf(b));
      assert [] + b == b && [] + DropLf(b) == DropLf(b);
    }
  }

  lemma HeaderSplitEmpty(p: Parser, cr: bool, b: string, length: seq<Field> -> nat)
    requires p.stage.HeaderSection? && b != []
    ensures var o := RunHeader(p, cr, [], length);
            && o == Outcome(p.(skipLf := cr), [], Incomplete)
            && Run(o.parser, o.rest + b, length) == RunHeader(p, EndsWithCr(b), if cr then DropLf(b) else b, length)
  {
    assert [] + b == b;
    assert ParseSection(p.partial.fields, []) == Section(false, p.partial.fields, []);
    hide ParseSection, Finish, DropLf;
  }

  lemma HeaderSplitPartial(p: Parser, r: Section, cr: bool, b: string, rest: string, length: seq<Field> -> nat)
    requires p.stage.HeaderSection? && b != [] && !r.done
    requires rest == if cr && r.rest == [] then DropLf(b) else r.rest + b
    ensures var o := EndHeader(p, cr, r, length);
            && o.status.Incomplete? && Coherent(o.parser) && o.parser.stage.HeaderSection?
            && Run(o.parser, o.rest + b, length) == EndHeader(p, EndsWithCr(b), ParseSection(r.fields, rest), length)
  {
    hide ParseSection, Finish;
    assert [] + b == b;
    assert EndsWithCr(r.rest + b) == EndsWithCr(b);
  }

  lemma HeaderSplitDone(p: Parser, r: Section, cr: bool, b: string, rest: string, length: seq<Field> -> nat)
    requires p.stage.HeaderSection? && b != [] && r.done
    requires rest == if cr && r.rest == [] then DropLf(b) else r.rest + b
    ensures var o := EndHeader(p, cr, r, length);
            var whole := EndHeader(p, EndsWithCr(b), Section(true, r.fields, rest), length);
            && (o.status.Incomplete? ==> Coherent(o.parser) && whole == Run(o.parser, o.rest + b, length))
            && (o.status.Complete? ==> whole == Outcome(o.parser.(skipLf := false), Left(o, b), Complete))
            && !(o.status.Incomplete? && o.parser.stage.StartLine?) && !o.parser.stage.HeaderSection?
  {
    assert !(EndsWithCr(b) && rest == []);
    FinishSplit(p.(partial := p.partial.(fields := r.fields), skipLf := cr && r.rest == []), r.rest, b, length);
    hide Run, DropLf, Left;
  }

  lemma HeaderSplit(p: Parser, cr: bool, s: string, b: string, all: string, length: seq<Field> -> nat)
    requires p.stage.HeaderSection? && b != []
    requires all == (if s == [] && cr then DropLf(b) else s + b) && FoldFree(all)
    requires s != [] ==> cr == EndsWithCr(s)
    ensures var o := RunHeader(p, cr, s, length);
            var whole := RunHeader(p, EndsWithCr(b), all, length);
            && (o.status.Incomplete? ==> Coherent(o.parser) && whole == Run(o.parser, o.rest + b, length)
                                         && RunFoldFree(o.parser, o.rest + b))
            && (o.status.Complete? ==> whole == Outcome(o.parser.(skipLf := false), Left(o, b), Complete))
  {
    var r := ParseSection(p.partial.fields, s);
    var rest := Joined(s, r.rest, b);
    if s == [] {
      HeaderSplitEmpty(p, cr, b, length);
      assert [] + b == b;
    } else {
      SectionSplit(p.partial.fields, s, b);
      hide ParseSection, FoldFree, EndHeader, Run, DropLf;
      if r.done {
        HeaderSplitDone(p, r, cr, b, rest, length);
      } else {
        HeaderSplitPartial(p, r, cr, b, rest, length);
        HeaderFoldFree(p, r, cr, b, rest, length);
      }
    }
  }

  lemma HeaderFoldFree(p: Parser, r: Section, cr: bool, b: string, rest: string, length: seq<Field> -> nat)
    requires p.stage.HeaderSection? && !r.done && FoldFree(rest)
    requires rest == if cr && r.rest == [] then DropLf(b) else r.rest + b
    ensures var o := EndHeader(p, cr, r, length); RunFoldFree(o.parser, o.rest + b)
  {
    hide FoldFree;
    assert [] + b == b;
  }

  /** The header section this call reads, if any, has no continuation lines. */
  predicate RunFoldFree(p: Parser, s: string) {
    var t := if p.skipLf then DropLf(s) else s;
    match p.stage
    case StartLine => (match ReadLine(t) case None => true case Some(l) => FoldFree(l.rest))
    case HeaderSection => FoldFree(t)
    case Body => true
  }

  lemma RunSplitStart(p: Parser, a: string, b: string, length: seq<Field> -> nat)
    requires p.stage.StartLine? && !p.skipLf && b != [] && RunFoldFree(p, a + b)
    ensures var o := Run(p, a, length);
            && (o.status.Incomplete? ==> Coherent(o.parser)
                                         && Run(p, a + b, length) == Run(o.parser, o.rest + b, length)
                                         && RunFoldFree(o.parser, o.rest + b))
            && (o.status.Complete? ==>
                  Run(p, a + b, length) == Outcome(o.parser.(skipLf := false), Left(o, b), Complete))
  {
    if ReadLine(a).Some? {
      ReadLineSplit(a, b);
      var l := ReadLine(a).value;
      var q := Parser(HeaderSection, false, 0, Message(l.text, [], ""));
      LineEnd(a);
      assert EndsWithCr(a + b) == EndsWithCr(b);
      HeaderSplit(q, EndsWithCr(a), l.rest, b, Joined(a, l.rest, b), length);
      hide RunHeader, FoldFree, ReadLine;
    } else {
      hide RunHeader, FoldFree, ReadLine;
    }
  }

  lemma LineEnd(a: string)
    requires ReadLine(a).Some?
    ensures ReadLine(a).value.rest != [] ==> EndsWithCr(a) == EndsWithCr(ReadLine(a).value.rest)
  {
  }

  /** One call on the whole input does what a call on its first part and a call on the rest do. */
  ghost predicate SplitsAt(p: Parser, a: string, b: string, length: seq<Field> -> nat)
    requires Coherent(p)
  {
    var o := Run(p, a, length);
    && (o.status.Incomplete? ==> Coherent(o.parser) && Run(p, a + b, length) == Run(o.parser, o.rest + b, length)
                                 && RunFoldFree(o.parser, o.rest + b))
    && (o.status.Complete? ==> Run(p, a + b, length) == Outcome(o.parser.(skipLf := false), Left(o, b), Complete))
  }

  lemma RunSplitHeader(p: Parser, a: string, b: string, length: seq<Field> -> nat)
    requires p.stage.HeaderSection? && !p.skipLf && a != [] && b != [] && RunFoldFree(p, a + b)
    ensures SplitsAt(p, a, b, length)
  {
    HeaderSplit(p, EndsWithCr(a), a, b, a + b, length);
    assert EndsWithCr(a + b) == EndsWithCr(b);
    hide RunHeader, FoldFree;
  }

  lemma RunSplitBody(p: Parser, a: string, b: string, length: seq<Field> -> nat)
    requires p.stage.Body? && Coherent(p) && !p.skipLf && b != []
    ensures SplitsAt(p, a, b, length)
  {
    BodySplit(p, a, b);
    assert [] + b == b;
  }

  /** Skipping the LF first makes no difference. */
  lemma RunNormal(p: Parser, s: string, length: seq<Field> -> nat)
    requires Coherent(p) && s != []
    ensures p.skipLf && DropLf(s) != [] ==> Run(p, s, length) == Run(p.(skipLf := false), DropLf(s), length)
    ensures p.skipLf && DropLf(s) == [] ==> Run(p, s, length) == Outcome(p.(skipLf := false), [], Incomplete)
  {
  }

  lemma FoldFreeNormal(p: Parser, s: string)
    ensures RunFoldFree(p, s) == RunFoldFree(p.(skipLf := false), if p.skipLf then DropLf(s) else s)
  {
    hide FoldFree, ReadLine, DropLf;
  }

  lemma RunSplitFrom(p: Parser, a: string, b: string, length: seq<Field> -> nat)
    requires Coherent(p) && !p.skipLf && a != [] && b != [] && RunFoldFree(p, a + b)
    ensures SplitsAt(p, a, b, length)
  {
    hide Run, RunFoldFree;
    match p.stage
    case StartLine => RunSplitStart(p, a, b, length);
    case HeaderSection => RunSplitHeader(p, a, b, length);
    case Body => RunSplitBody(p, a, b, length);
  }

  lemma RunSplit(p: Parser, a: string, b: string, length: seq<Field> -> nat)
    requires Coherent(p) && a != [] && b != [] && RunFoldFree(p, a + b)
    ensures SplitsAt(p, a, b, length)
  {
    hide Run, RunFoldFree, DropLf, Left;
    DropLfAppend(a, b);
    var q, t := p.(skipLf := false), if p.skipLf then DropLf(a) else a;
    RunNormal(p, a, length);
    RunNormal(p, a + b, length);
    FoldFreeNormal(p, a + b);
    if t == [] {
      assert [] + b == b;
    } else {
      RunSplitFrom(q, t, b, length);
    }
  }

  /** No message read from `s` has continuation lines in its header. */
  predicate DrainFoldFree(p: Parser, s: string, length: seq<Field> -> nat)
    requires Coherent(p)
    decreases |s|
  {
    if s == [] then true
    else
      RunShrinks(p, s, length);
      var o := Run(p, s, length);
      RunFoldFree(p, s) && (o.status.Complete? ==> DrainFoldFree(o.parser, o.rest, length))
  }

  lemma DrainNormal(p: Parser, b: string, length: seq<Field> -> nat)
    requires Coherent(p) && p.skipLf && b != []
    ensures Drain(p, b, length) == Drain(p.(skipLf := false), DropLf(b), length)
    ensures DrainFoldFree(p, b, length) == DrainFoldFree(p.(skipLf := false), DropLf(b), length)
  {
    RunNormal(p, b, length);
    hide Run;
    if DropLf(b) == [] { EmptyFoldFree(p, b); }
  }

  lemma EmptyFoldFree(p: Parser, b: string)
    requires p.skipLf && DropLf(b) == []
    ensures RunFoldFree(p, b)
  {
  }

  lemma SkipLeavesNothing(p: Parser, s: string, length: seq<Field> -> nat)
    requires Coherent(p)
    ensures var o := Run(p, s, length); o.parser.skipLf ==> o.rest == []
  {
    hide ParseSection, ReadLine;
  }

  /** Two calls with the same outcome drain alike. */
  lemma DrainSame(p: Parser, s: string, q: Parser, t: string, length: seq<Field> -> nat)
    requires Coherent(p) && Coherent(q) && s != [] && t != []
    requires Run(p, s, length) == Run(q, t, length) && RunFoldFree(q, t)
    ensures Drain(p, s, length) == Drain(q, t, length)
    ensures DrainFoldFree(p, s, length) ==> DrainFoldFree(q, t, length)
  {
    hide Run, RunFoldFree;
  }

  /** After a complete message, the rest is drained by the parser as the call left it. */
  lemma DrainComplete(p: Parser, s: string, o: Outcome, b: string, length: seq<Field> -> nat)
    requires Coherent(p) && s != [] && b != [] && DrainFoldFree(p, s, length)
    requires o.status.Complete? && Coherent(o.parser) && (o.parser.skipLf ==> o.rest == [])
    requires Run(p, s, length) == Outcome(o.parser.(skipLf := false), Left(o, b), Complete)
    ensures DrainFoldFree(o.parser, o.rest + b, length)
    ensures var e := Drain(o.parser, o.rest + b, length);
            Drain(p, s, length) == Drained(e.parser, e.rest, [o.parser.partial] + e.messages)
  {
    assert [] + b == b;
    if o.parser.skipLf { DrainNormal(o.parser, b, length); }
    hide Run, RunFoldFree, DropLf;
  }

  /** Draining `a` and then `b` equals draining `a + b`. */
  ghost predicate Splits(p: Parser, a: string, b: string, length: seq<Field> -> nat)
    requires Coherent(p)
  {
    var d := Drain(p, a, length);
    && Coherent(d.parser)
    && DrainFoldFree(d.parser, d.rest + b, length)
    && var e := Drain(d.parser, d.rest + b, length);
       Drain(p, a + b, length) == Drained(e.parser, e.rest, d.messages + e.messages)
  }

  lemma Assoc<T>(a: seq<T>, b: seq<T>, c: seq<T>)
    ensures a + (b + c) == a + b + c
  {
  }

  lemma SplitsStep(p: Parser, a: string, b: string, o: Outcome, d: Drained, length: seq<Field> -> nat)
    requires Coherent(p) && Coherent(o.parser) && d == Drain(o.parser, o.rest, length)
    requires Splits(o.parser, o.rest, b, length)
    requires Drain(p, a, length) == Drained(d.parser, d.rest, [o.parser.partial] + d.messages)
    requires var e := Drain(o.parser, o.rest + b, length);
             Drain(p, a + b, length) == Drained(e.parser, e.rest, [o.parser.partial] + e.messages)
    ensures Splits(p, a, b, length)
  {
    hide Run, Drain, DrainFoldFree;
    Assoc([o.parser.partial], d.messages, Drain(d.parser, d.rest + b, length).messages);
  }

  lemma SplitsNow(p: Parser, a: string, b: string, o: Outcome, length: seq<Field> -> nat)
    requires Coherent(p) && Coherent(o.parser) && Drain(p, a, length) == Drained(o.parser, o.rest, [])
    requires DrainFoldFree(o.parser, o.rest + b, length)
    requires Drain(p, a + b, length) == Drain(o.parser, o.rest + b, length)
    ensures Splits(p, a, b, length)
  {
    hide Drain, DrainFoldFree;
    var e := Drain(o.parser, o.rest + b, length);
    assert [] + e.messages == e.messages;
  }

  lemma {:induction false} DrainSplit(p: Parser, a: string, b: string, length: seq<Field> -> nat)
    requires Coherent(p) && b != [] && DrainFoldFree(p, a + b, length)
    ensures Splits(p, a, b, length)
    decreases |a|
  {
    hide Run, RunFoldFree, Left, Splits;
    if a == [] {
      assert [] + b == b;
      SplitsNow(p, a, b, Outcome(p, [], Incomplete), length);
    } else {
      var o := Run(p, a, length);
      DrainUnfold(p, a, length);
      DrainUnfold(p, a + b, length);
      RunSplit(p, a, b, length);
      if o.status.Incomplete? {
        DrainSame(p, a + b, o.parser, o.rest + b, length);
        SplitsNow(p, a, b, o, length);
      } else {
        SkipLeavesNothing(p, a, length);
        DrainComplete(p, a + b, o, b, length);
        DrainSplit(o.parser, o.rest, b, length);
        SplitsStep(p, a, b, o, Drain(o.parser, o.rest, length), length);
      }
    }
  }

  lemma DrainUnfold(p: Parser, s: string, length: seq<Field> -> nat)
    requires Coherent(p) && s != []
    ensures var o := Run(p, s, length);
            && Coherent(o.parser) && (o.status.Complete? ==> |o.rest| < |s|)
            && (DrainFoldFree(p, s, length) ==> RunFoldFree(p, s))
            && Drain(p, s, length) == if o.status.Incomplete? then Drained(o.parser, o.rest, [])
                                      else var d := Drain(o.parser, o.rest, length);
                                           Drained(d.parser, d.rest, [o.parser.partial] + d.messages)
  {
    RunShrinks(p, s, length);
    hide Run, RunFoldFree;
  }

  function Concat(segments: seq<string>): string {
    if segments == [] then [] else segments[0] + Concat(segments[1..])
  }

  /** Segmentation invariance: the messages read, the unread tail and the state of the parser
      depend only on the bytes received, not on where they were cut. */
  lemma {:induction false} ReceiveInvariant(p: Parser, segments: seq<string>, length: seq<Field> -> nat)
    requires Coherent(p) && DrainFoldFree(p, Concat(segments), length)
    requires forall i :: 0 <= i < |segments| ==> segments[i] != []
    ensures Receive(p, [], segments, length) == Drain(p, Concat(segments), length)
    decreases |segments|
  {
    assert [] + Concat(segments) == Concat(segments);
    ReceiveFrom(p, [], segments, length);
    hide DrainFoldFree, Run;
  }

  lemma {:induction false} ReceiveFrom(p: Parser, tail: string, segments: seq<string>, length: seq<Field> -> nat)
    requires Coherent(p) && DrainFoldFree(p, tail + Concat(segments), length)
    requires forall i :: 0 <= i < |segments| ==> segments[i] != []
    ensures segments != [] ==> Receive(p, tail, segments, length) == Drain(p, tail + Concat(segments), length)
    ensures segments == [] ==> Receive(p, tail, segments, length) == Drained(p, tail, [])
    decreases |segments|
  {
    hide Run, RunFoldFree, Drain, DrainFoldFree;
    if segments != [] {
      var a, rest := tail + segments[0], segments[1..];
      var d := Drain(p, a, length);
      DrainCoherent(p, a, length);
      Assoc(tail, segments[0], Concat(rest));
      if rest == [] {
        assert a + [] == a;
      } else {
        assert Concat(rest) != [] by { assert rest[0] != []; }
        DrainSplit(p, a, Concat(rest), length);
        ReceiveFrom(d.parser, d.rest, rest, length);
      }
    }
  }
}
