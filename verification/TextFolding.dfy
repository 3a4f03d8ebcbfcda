/** Continuation lines, which the segmentation theorem leaves out: exactly when cuts are harmless. */
module TextFolding {
  import opened Options
  import opened TextMessage
  import opened TextSegments
  import opened TextStream

  // ---------------------------------------------------------------- sections

  /** What reading `a` gives, and then what is left with `b`. */
  function Recut(fields: seq<Field>, a: string, b: string): Section {
    var r := ParseSection(fields, a);
    var whole := Joined(a, r.rest, b);
    if r.done then Section(true, r.fields, whole) else ParseSection(r.fields, whole)
  }

  /** A line ends at `n`, and its terminator before `m`. */
  predicate EndsAt(s: string, n: nat, m: nat) {
    && n < m <= |s| && IsEol(s[n]) && (forall i :: 0 <= i < n ==> !IsEol(s[i]))
    && m == if s[n] == '\r' && n + 1 < |s| && s[n + 1] == '\n' then n + 2 else n + 1
  }

  lemma LineEndsAt(s: string, n: nat, m: nat)
    requires EndsAt(s, n, m)
    ensures ReadLine(s) == Some(Line(s[..n], s[m..]))
  {
    LineOf(s, n);
    hide ReadLine, LineLength;
    if m == n + 2 { assert s[n + 1..][1..] == s[m..]; }
  }

  lemma LineEnds(s: string) returns (n: nat, m: nat)
    requires ReadLine(s).Some?
    ensures EndsAt(s, n, m) && ReadLine(s) == Some(Line(s[..n], s[m..]))
  {
    n := LineLength(s);
    hide LineLength;
    m := if s[n] == '\r' && n + 1 < |s| && s[n + 1] == '\n' then n + 2 else n + 1;
    LineEndsAt(s, n, m);
  }

  /** The first line of `s`, cut behind `j` characters of what follows it. */
  lemma LineCut(s: string, rest: string, j: nat) returns (k: nat)
    requires ReadLine(s).Some? && rest == ReadLine(s).value.rest && j <= |rest|
    ensures k == |s| - |rest| + j && |rest| < |s|
    ensures ReadLine(s[..k]) == Some(Line(ReadLine(s).value.text, rest[..j])) && s[k..] == rest[j..]
    ensures rest == s[|s| - |rest|..]
  {
    hide ReadLine;
    var n, m := LineEnds(s);
    k := m + j;
    LineEndsAt(s[..k], n, m);
    assert s[..k][..n] == s[..n] && s[..k][m..] == rest[..j];
  }

  /** Two sections that tell each other apart by their fields, or, both incomplete, by what is left. */
  predicate Distinct(r: Section, q: Section) {
    r.fields != q.fields || (!r.done && !q.done && r.rest != q.rest)
  }

  /** Cutting `s` at `k` makes no difference to the section. */
  predicate SectionCut(fields: seq<Field>, s: string, k: nat)
    requires k <= |s|
  {
    ParseSection(fields, s) == Recut(fields, s[..k], s[k..])
  }

  /** Cutting `s` at `k` makes a difference, to the fields or what is left of them if `told`. */
  predicate Differs(fields: seq<Field>, s: string, k: nat, told: bool)
    requires k <= |s|
  {
    var q := Recut(fields, s[..k], s[k..]);
    !SectionCut(fields, s, k) && (told ==> Distinct(ParseSection(fields, s), q))
  }

  lemma RecutSame(fields: seq<Field>, fields1: seq<Field>, a: string, a1: string, b: string)
    requires ParseSection(fields, a) == ParseSection(fields1, a1)
    requires a1 != [] && |a1| <= |a| && a1 == a[|a| - |a1|..]
    ensures Recut(fields, a, b) == Recut(fields1, a1, b)
  {
    hide ParseSection, Joined;
    SameEnd(a, a1, ParseSection(fields, a).rest, b);
  }

  lemma CutsBehind(s: string, rest: string, j: nat)
    requires j <= |rest| <= |s| && rest == s[|s| - |rest|..]
    ensures s[|s| - |rest| + j..] == rest[j..] && rest[..j] == s[..|s| - |rest| + j][|s| - |rest|..]
  {
  }

  /** A cut of the rest, seen from before its first line. */
  lemma CutBehind(fields: seq<Field>, fields1: seq<Field>, s: string, rest: string, j: nat, told: bool)
    requires 0 < j < |rest| < |s| && rest == s[|s| - |rest|..]
    requires ParseSection(fields, s) == ParseSection(fields1, rest)
    requires ParseSection(fields, s[..|s| - |rest| + j]) == ParseSection(fields1, rest[..j])
    ensures Differs(fields, s, |s| - |rest| + j, told) == Differs(fields1, rest, j, told)
  {
    hide ParseSection, Distinct, Recut;
    var k := |s| - |rest| + j;
    CutsBehind(s, rest, j);
    RecutSame(fields, fields1, s[..k], rest[..j], rest[j..]);
  }

  lemma {:induction false} FieldsGrow(fields: seq<Field>, s: string)
    ensures fields <= ParseSection(fields, s).fields
    decreases |s|
  {
    match ReadLine(s)
    case None =>
    case Some(l) =>
      match ParseHeader(l.text) {
        case Blank =>
        case Malformed => FieldsGrow(fields, l.rest);
        case Proper(f) =>
          var (value, rest, ended) := Fold(f.value, l.rest);
          var fields1 := fields + [Field(f.name, value)];
          if !ended { FieldsGrow(fields1, rest); }
      }
  }

  lemma {:induction false} FoldGrows(value: string, s: string)
    ensures value <= Fold(value, s).0
    decreases |s|
  {
    if s != [] && IsWsp(s[0]) {
      match ReadLine(SkipWsp(s))
      case None =>
      case Some(l) => FoldGrows(value + l.text, l.rest);
    }
  }

  lemma {:induction false} SkipWspEnd(s: string) returns (n: nat)
    ensures n <= |s| && SkipWsp(s) == s[n..] && forall i :: 0 <= i < n ==> IsWsp(s[i])
  {
    if s == [] || !IsWsp(s[0]) { n := 0; } else { n := SkipWspEnd(s[1..]); n := n + 1; }
  }

  /** A line that starts with white space, read as a header line of its own. */
  lemma WspLine(s: string)
    requires s != [] && IsWsp(s[0])
    ensures var t := SkipWsp(s);
            && |t| < |s|
            && (ReadLine(t).None? ==> ReadLine(s).None?)
            && (ReadLine(t).Some? ==> ReadLine(s).Some? && ReadLine(s).value.rest == ReadLine(t).value.rest
                                      && SkipWsp(ReadLine(s).value.text) == ReadLine(t).value.text)
  {
    hide LineLength, SkipWsp, ReadLine, EndsAt;
    var t := SkipWsp(s);
    var n := SkipWspEnd(s);
    if ReadLine(t).None? {
      NoLine(t);
      NoLineBehind(s, n, t);
    } else {
      var i, m := LineEnds(t);
      EndsBehind(s, n, t, i, m);
      LineEndsAt(s, n + i, n + m);
      SkipWspIs(s[..n + i], n);
    }
  }

  lemma EndsBehind(s: string, n: nat, t: string, i: nat, m: nat)
    requires n <= |s| && t == s[n..] && EndsAt(t, i, m) && (forall j :: 0 <= j < n ==> IsWsp(s[j]))
    ensures EndsAt(s, n + i, n + m) && !IsWsp(s[n + i])
    ensures s[n + m..] == t[m..] && s[..n + i][n..] == t[..i]
  {
    assert forall j :: n <= j < |s| ==> s[j] == t[j - n];
  }

  lemma NoLine(s: string)
    requires ReadLine(s).None?
    ensures forall i :: 0 <= i < |s| ==> !IsEol(s[i])
  {
    var n := LineLength(s);
  }

  lemma NoLineBehind(s: string, n: nat, t: string)
    requires n <= |s| && t == s[n..] && (forall i :: 0 <= i < n ==> IsWsp(s[i]))
    requires forall i :: 0 <= i < |t| ==> !IsEol(t[i])
    ensures ReadLine(s).None?
  {
    assert forall i :: n <= i < |s| ==> s[i] == t[i - n];
    LineOf(s, |s|);
  }

  /** The line that `rest` starts with holds more than white space, or is not terminated. */
  predicate HasText(rest: string) {
    var t := SkipWsp(rest);
    ReadLine(t).None? || ReadLine(t).value.text != []
  }

  /** How a field ends up if its continuation is appended to it. */
  function Folded(fields: seq<Field>, f: Field, rest: string): Section {
    var (value, after, ended) := Fold(f.value, rest);
    var fields1 := fields + [Field(f.name, value)];
    if ended then Section(false, fields1, after) else ParseSection(fields1, after)
  }

  /** Reading the continuation as a line of its own makes a difference. */
  lemma FoldDiffers(fields: seq<Field>, f: Field, rest: string)
    requires rest != [] && IsWsp(rest[0])
    ensures Folded(fields, f, rest) != ParseSection(fields + [f], rest)
    ensures HasText(rest) ==> Distinct(Folded(fields, f, rest), ParseSection(fields + [f], rest))
  {
    WspLine(rest);
    var t, fields1 := SkipWsp(rest), fields + [f];
    if ReadLine(t).None? {
      assert ParseSection(fields1, rest) == Section(false, fields1, rest);
    } else if ReadLine(t).value.text == [] {
      var after := ReadLine(t).value.rest;
      assert ParseSection(fields1, rest) == Section(true, fields1, after);
      assert Folded(fields, f, rest).done ==> |Folded(fields, f, rest).rest| < |after|;
    } else {
      TextIsFolded(fields, f, rest);
      FieldsGrow(fields1, rest);
      var r := ParseSection(fields1, rest);
      assert r.fields[|fields|] == f;
    }
  }

  lemma TextIsFolded(fields: seq<Field>, f: Field, rest: string)
    requires rest != [] && IsWsp(rest[0])
    requires ReadLine(SkipWsp(rest)).Some? && ReadLine(SkipWsp(rest)).value.text != []
    ensures |Folded(fields, f, rest).fields| > |fields| && Folded(fields, f, rest).fields[|fields|] != f
  {
    var l := ReadLine(SkipWsp(rest)).value;
    var (value, after, ended) := Fold(f.value, rest);
    FoldGrows(f.value + l.text, l.rest);
    assert |value| > |f.value|;
    var fields1 := fields + [Field(f.name, value)];
    FieldsGrow(fields1, after);
    hide Fold, ReadLine, ParseSection;
    assert fields1[|fields|].value == value;
  }

  /** A header line cut off from its continuation, which is then read as a line of its own. */
  lemma CutAtFold(fields: seq<Field>, s: string, rest: string, f: Field)
    requires ReadLine(s).Some? && rest == ReadLine(s).value.rest && ParseHeader(ReadLine(s).value.text) == Proper(f)
    requires rest != [] && IsWsp(rest[0])
    ensures var k := |s| - |rest|;
            && 0 < k < |s| && !ParseSection(fields, s[..k]).done && Differs(fields, s, k, HasText(rest))
  {
    hide ParseSection, ReadLine, ParseHeader, Folded, Joined, DropLf;
    var k := LineCut(s, rest, 0);
    var a, fields1, text := s[..k], fields + [f], ReadLine(s).value.text;
    assert rest[..0] == [] && a + rest == s && s[k..] == rest;
    SectionStep(fields, a, text, [], f);
    SectionStep(fields, s, text, rest, f);
    EmptyFold(fields, f);
    FoldDiffers(fields, f, rest);
    JoinedAtFold(a, rest);
  }

  lemma JoinedAtFold(a: string, rest: string)
    requires rest != [] && IsWsp(rest[0])
    ensures Joined(a, [], rest) == rest
  {
    assert [] + rest == rest;
  }

  lemma SectionStep(fields: seq<Field>, s: string, text: string, rest: string, f: Field)
    requires ReadLine(s) == Some(Line(text, rest)) && ParseHeader(text) == Proper(f)
    ensures ParseSection(fields, s) == Folded(fields, f, rest)
  {
    hide ReadLine, ParseHeader, Fold;
  }

  lemma EmptyFold(fields: seq<Field>, f: Field)
    ensures Folded(fields, f, []) == Section(false, fields + [f], [])
  {
    assert ParseSection(fields + [f], []) == Section(false, fields + [f], []);
    assert Fold(f.value, []) == (f.value, [], false) && Field(f.name, f.value) == f;
  }

  /** The first continuation line, if there is one, has text or is not terminated. */
  predicate FirstFoldHasText(s: string)
    decreases |s|
  {
    match ReadLine(s)
    case None => true
    case Some(l) =>
      match ParseHeader(l.text)
      case Blank => true
      case Malformed => FirstFoldHasText(l.rest)
      case Proper(_) => if l.rest != [] && IsWsp(l.rest[0]) then HasText(l.rest) else FirstFoldHasText(l.rest)
  }

  /** In front of the first continuation line a cut makes a difference. */
  lemma {:induction false} FoldCut(fields: seq<Field>, s: string) returns (k: nat)
    requires !FoldFree(s)
    ensures 0 < k < |s| && !ParseSection(fields, s[..k]).done && Differs(fields, s, k, FirstFoldHasText(s))
    decreases |s|
  {
    hide ParseSection, ReadLine, ParseHeader, HasText, Differs;
    var l := ReadLine(s).value;
    match ParseHeader(l.text)
    case Malformed =>
      var j := FoldCut(fields, l.rest);
      k := LineCut(s, l.rest, j);
      MalformedStep(fields, s, l.text, l.rest);
      MalformedStep(fields, s[..k], l.text, l.rest[..j]);
      CutBehind(fields, fields, s, l.rest, j, FirstFoldHasText(s));
    case Proper(f) =>
      if l.rest != [] && IsWsp(l.rest[0]) {
        k := |s| - |l.rest|;
        CutAtFold(fields, s, l.rest, f);
      } else {
        var j := FoldCut(fields + [f], l.rest);
        k := LineCut(s, l.rest, j);
        ProperStep(fields, s, l.text, l.rest, f);
        ProperStep(fields, s[..k], l.text, l.rest[..j], f);
        CutBehind(fields, fields + [f], s, l.rest, j, FirstFoldHasText(s));
      }
  }

  lemma MalformedStep(fields: seq<Field>, s: string, text: string, rest: string)
    requires ReadLine(s) == Some(Line(text, rest)) && ParseHeader(text) == Malformed
    ensures ParseSection(fields, s) == ParseSection(fields, rest)
  {
    hide ReadLine, ParseHeader;
  }

  lemma ProperStep(fields: seq<Field>, s: string, text: string, rest: string, f: Field)
    requires ReadLine(s) == Some(Line(text, rest)) && ParseHeader(text) == Proper(f)
    requires rest == [] || !IsWsp(rest[0])
    ensures ParseSection(fields, s) == ParseSection(fields + [f], rest)
  {
    hide ReadLine, ParseHeader;
    assert Field(f.name, f.value) == f;
  }

  lemma FoldFreeCut(fields: seq<Field>, s: string, k: nat)
    requires 0 < k < |s| && FoldFree(s)
    ensures SectionCut(fields, s, k)
  {
    hide ParseSection, FoldFree, Joined;
    assert s[..k] + s[k..] == s;
    SectionSplit(fields, s[..k], s[k..]);
  }

  /** A section reads the same wherever it is cut if and only if none of its header lines is continued. */
  lemma SectionCutIff(fields: seq<Field>, s: string)
    ensures (forall k :: 0 < k < |s| ==> SectionCut(fields, s, k)) <==> FoldFree(s)
  {
    hide ParseSection, FoldFree, FirstFoldHasText, Recut, Distinct;
    if FoldFree(s) {
      forall k | 0 < k < |s| ensures SectionCut(fields, s, k) { FoldFreeCut(fields, s, k); }
    } else {
      var k := FoldCut(fields, s);
      assert !SectionCut(fields, s, k);
    }
  }

  // ---------------------------------------------------------------- calls of the parser

  /** A call on the first `k` characters of `s`, and one on what it leaves with the rest, do what one
      call on `s` does. */
  ghost predicate CallCut(p: Parser, s: string, k: nat, length: seq<Field> -> nat)
    requires Coherent(p) && k <= |s|
  {
    var o, b := Run(p, s[..k], length), s[k..];
    && (o.status.Incomplete? ==> Coherent(o.parser) && Run(p, s, length) == Run(o.parser, o.rest + b, length))
    && (o.status.Complete? ==> Run(p, s, length) == Outcome(o.parser.(skipLf := false), Left(o, b), Complete))
  }

  lemma FoldFreeCall(p: Parser, s: string, k: nat, length: seq<Field> -> nat)
    requires Coherent(p) && 0 < k < |s| && RunFoldFree(p, s)
    ensures CallCut(p, s, k, length)
  {
    hide Run, RunFoldFree, Left;
    assert s[..k] + s[k..] == s;
    RunSplit(p, s[..k], s[k..], length);
  }

  /** What follows a complete section can be told from what the call makes of it. */
  lemma FinishShows(p: Parser, s: string, length: seq<Field> -> nat)
    requires p.stage.HeaderSection?
    ensures var o := Finish(p, s, length);
            && o.parser.partial.fields == p.partial.fields && !o.parser.stage.HeaderSection?
            && s == if length(p.partial.fields) == 0 then o.rest else o.parser.partial.body + o.rest
  {
    var n := length(p.partial.fields);
    if n > |s| { assert s[..|s|] + s[|s|..] == s; } else { assert s[..n] + s[n..] == s; }
    assert forall t: string :: [] + t == t;
  }

  /** What a call makes of a section shows it. */
  lemma SectionShows(p: Parser, cr: bool, r: Section, length: seq<Field> -> nat)
    requires p.stage.HeaderSection?
    ensures var o := EndHeader(p, cr, r, length);
            && o.parser.partial.fields == r.fields && (o.parser.stage.HeaderSection? <==> !r.done)
            && (!r.done ==> o.status.Incomplete? && o.rest == r.rest)
            && (r.done ==> r.rest == if length(r.fields) == 0 then o.rest else o.parser.partial.body + o.rest)
  {
    FinishShows(p.(partial := p.partial.(fields := r.fields), skipLf := cr && r.rest == []), r.rest, length);
    hide Finish;
  }

  /** So two calls that make something different of the same header tell their sections apart. */
  lemma SectionsShow(p: Parser, cr: bool, r: Section, q: Section, length: seq<Field> -> nat)
    requires p.stage.HeaderSection? && r != q
    ensures EndHeader(p, cr, r, length) != EndHeader(p, cr, q, length)
  {
    hide EndHeader;
    SectionShows(p, cr, r, length);
    SectionShows(p, cr, q, length);
  }

  // ---------------------------------------------------------------- what draining shows

  /** What draining makes of the outcome of its first call. */
  function Continued(o: Outcome, length: seq<Field> -> nat): Drained
    requires Coherent(o.parser)
  {
    if o.status.Incomplete? then Drained(o.parser, o.rest, [])
    else var d := Drain(o.parser, o.rest, length); Drained(d.parser, d.rest, [o.parser.partial] + d.messages)
  }

  /** Sections that differ in their fields, or, both incomplete, in what is left, drain differently. */
  lemma DistinctDrain(p: Parser, cr: bool, r: Section, q: Section, length: seq<Field> -> nat)
    requires p.stage.HeaderSection? && Distinct(r, q)
    requires Coherent(EndHeader(p, cr, r, length).parser) && Coherent(EndHeader(p, cr, q, length).parser)
    ensures Continued(EndHeader(p, cr, r, length), length) != Continued(EndHeader(p, cr, q, length), length)
  {
    hide EndHeader, Drain;
    SectionShows(p, cr, r, length);
    SectionShows(p, cr, q, length);
    var o, u := EndHeader(p, cr, r, length), EndHeader(p, cr, q, length);
    if o.status.Complete? && u.status.Complete? {
      assert Continued(o, length).messages[0] == o.parser.partial;
      assert Continued(u, length).messages[0] == u.parser.partial;
    }
  }

  // ---------------------------------------------------------------- cutting a call at a fold

  /** Cutting this call at `k` leaves its header incomplete, and makes a difference to what comes of
      it; to what draining makes of it too if `told`. */
  ghost predicate CallDiffers(p: Parser, s: string, k: nat, told: bool, length: seq<Field> -> nat)
    requires Coherent(p) && k <= |s|
  {
    var o, whole := Run(p, s[..k], length), Run(p, s, length);
    && 0 < k < |s| && o.status.Incomplete? && Coherent(o.parser) && Coherent(whole.parser)
    && var again := Run(o.parser, o.rest + s[k..], length);
       && Coherent(again.parser) && again != whole && (told ==> Continued(whole, length) != Continued(again, length))
  }

  /** The same of a call that reads `t` as, or on with, its header section. */
  ghost predicate HeaderDiffers(q: Parser, t: string, k: nat, told: bool, length: seq<Field> -> nat)
    requires q.stage.HeaderSection? && k <= |t|
  {
    var o, whole := RunHeader(q, EndsWithCr(t[..k]), t[..k], length), RunHeader(q, EndsWithCr(t[k..]), t, length);
    && 0 < k < |t| && o.status.Incomplete? && Coherent(o.parser) && Coherent(whole.parser)
    && var again := Run(o.parser, o.rest + t[k..], length);
       && Coherent(again.parser) && again != whole && (told ==> Continued(whole, length) != Continued(again, length))
  }

  lemma HeaderCut(q: Parser, t: string, length: seq<Field> -> nat) returns (k: nat)
    requires q.stage.HeaderSection? && !FoldFree(t)
    ensures k <= |t| && HeaderDiffers(q, t, k, FirstFoldHasText(t), length)
  {
    hide ParseSection, FoldFree, FirstFoldHasText, EndHeader, Run, Distinct, Continued;
    var fields := q.partial.fields;
    k := FoldCut(fields, t);
    var a, b := t[..k], t[k..];
    var r := ParseSection(fields, a);
    var rest := Joined(a, r.rest, b);
    var crb := EndsWithCr(b);
    HeaderSplitPartial(q, r, EndsWithCr(a), b, rest, length);
    var whole, again := ParseSection(fields, t), ParseSection(r.fields, rest);
    RunHeaderShrinks(q, crb, t, length);
    AgainCoherent(q, r, crb, rest, length);
    SectionsShow(q, crb, whole, again, length);
    if FirstFoldHasText(t) { DistinctDrain(q, crb, whole, again, length); }
  }

  lemma AgainCoherent(q: Parser, r: Section, cr: bool, rest: string, length: seq<Field> -> nat)
    requires q.stage.HeaderSection?
    ensures Coherent(EndHeader(q, cr, ParseSection(r.fields, rest), length).parser)
  {
    hide ParseSection;
  }

  /** The first continuation line that this call would read, if any, has text or is not terminated. */
  predicate RunFoldHasText(p: Parser, s: string) {
    var t := if p.skipLf then DropLf(s) else s;
    match p.stage
    case StartLine => (match ReadLine(t) case None => true case Some(l) => FirstFoldHasText(l.rest))
    case HeaderSection => FirstFoldHasText(t)
    case Body => true
  }

  lemma SameCr(a: string, b: string)
    requires b != [] && |b| <= |a| && b == a[|a| - |b|..]
    ensures EndsWithCr(a) == EndsWithCr(b)
  {
  }

  lemma StartCut(p: Parser, s: string, length: seq<Field> -> nat) returns (k: nat)
    requires p.stage.StartLine? && !p.skipLf && !RunFoldFree(p, s)
    ensures k <= |s| && CallDiffers(p, s, k, RunFoldHasText(p, s), length)
  {
    hide ReadLine, FoldFree, FirstFoldHasText, RunHeader, Continued, Run, EndsWithCr;
    var l := ReadLine(s).value;
    var q := Parser(HeaderSection, false, 0, Message(l.text, [], ""));
    var j := HeaderCut(q, l.rest, length);
    k := LineCut(s, l.rest, j);
    CutsBehind(s, l.rest, j);
    SameCr(s[..k], l.rest[..j]);
    SameCr(s, s[k..]);
    StartEnters(p, s, l, length);
    StartEnters(p, s[..k], Line(l.text, l.rest[..j]), length);
  }

  lemma StartEnters(p: Parser, s: string, l: Line, length: seq<Field> -> nat)
    requires p.stage.StartLine? && !p.skipLf && ReadLine(s) == Some(l)
    ensures var q := Parser(HeaderSection, false, 0, Message(l.text, [], ""));
            Run(p, s, length) == RunHeader(q, EndsWithCr(s), l.rest, length)
  {
    hide ReadLine, RunHeader;
  }

  lemma HeaderStageCut(p: Parser, s: string, length: seq<Field> -> nat) returns (k: nat)
    requires p.stage.HeaderSection? && !p.skipLf && !RunFoldFree(p, s)
    ensures k <= |s| && CallDiffers(p, s, k, RunFoldHasText(p, s), length)
  {
    hide FoldFree, FirstFoldHasText, RunHeader, Continued;
    k := HeaderCut(p, s, length);
    SameCr(s, s[k..]);
    HeaderEnters(p, s, length);
    HeaderEnters(p, s[..k], length);
    hide Run;
  }

  lemma HeaderEnters(p: Parser, s: string, length: seq<Field> -> nat)
    requires p.stage.HeaderSection? && !p.skipLf
    ensures Run(p, s, length) == RunHeader(p, EndsWithCr(s), s, length)
  {
    hide RunHeader;
  }

  /** In front of the first continuation line a cut makes a difference to the call. */
  lemma CallCutAtFold(p: Parser, s: string, length: seq<Field> -> nat) returns (k: nat)
    requires Coherent(p) && !RunFoldFree(p, s)
    ensures k <= |s| && CallDiffers(p, s, k, RunFoldHasText(p, s), length)
  {
    hide Run, FoldFree, FirstFoldHasText, ReadLine, Continued;
    var q, t := p.(skipLf := false), if p.skipLf then DropLf(s) else s;
    if p.stage.StartLine? { k := StartCut(q, t, length); } else { k := HeaderStageCut(q, t, length); }
    var j := k;
    k := k + |s| - |t|;
    RunNormal(p, s, length);
    RunNormal(p, s[..k], length);
    assert s[k..] == t[j..] && (p.skipLf ==> DropLf(s[..k]) == t[..j]);
    hide CallDiffers;
    assert CallDiffers(q, t, j, RunFoldHasText(p, s), length);
    SkippedDiffers(p, s, k, q, t, j, RunFoldHasText(p, s), length);
  }

  lemma SkippedDiffers(p: Parser, s: string, k: nat, q: Parser, t: string, j: nat, told: bool,
                       length: seq<Field> -> nat)
    requires Coherent(p) && Coherent(q) && j <= |t| && 0 < k < |s| && s[k..] == t[j..]
    requires Run(p, s, length) == Run(q, t, length) && Run(p, s[..k], length) == Run(q, t[..j], length)
    requires CallDiffers(q, t, j, told, length)
    ensures CallDiffers(p, s, k, told, length)
  {
    hide Run, Continued;
  }

  /** One call can be cut anywhere without changing what comes of it if and only if the header section
      it reads, if any, has no continuation lines. */
  lemma CallCutIff(p: Parser, s: string, length: seq<Field> -> nat)
    requires Coherent(p)
    ensures (forall k :: 0 < k < |s| ==> CallCut(p, s, k, length)) <==> RunFoldFree(p, s)
  {
    hide Run, RunFoldFree, Left, Continued, RunFoldHasText;
    if RunFoldFree(p, s) {
      forall k | 0 < k < |s| ensures CallCut(p, s, k, length) { FoldFreeCall(p, s, k, length); }
    } else {
      var k := CallCutAtFold(p, s, length);
      assert !CallCut(p, s, k, length);
    }
  }

  /** Every call made to drain `s` can be cut anywhere. */
  ghost predicate CallsCut(p: Parser, s: string, length: seq<Field> -> nat)
    requires Coherent(p)
    decreases |s|
  {
    if s == [] then true
    else
      RunShrinks(p, s, length);
      var o := Run(p, s, length);
      && (forall k :: 0 < k < |s| ==> CallCut(p, s, k, length))
      && (o.status.Complete? ==> CallsCut(o.parser, o.rest, length))
  }

  /** So it is for all the calls made to drain the input. */
  lemma {:induction false} CallsCutIff(p: Parser, s: string, length: seq<Field> -> nat)
    requires Coherent(p)
    ensures CallsCut(p, s, length) <==> DrainFoldFree(p, s, length)
    decreases |s|
  {
    hide Run, RunFoldFree, CallCut;
    if s != [] {
      RunShrinks(p, s, length);
      var o := Run(p, s, length);
      CallCutIff(p, s, length);
      if o.status.Complete? { CallsCutIff(o.parser, o.rest, length); }
    }
  }

  // ---------------------------------------------------------------- cutting the whole input at a fold

  /** The first continuation line in all of the input, if any, has text or is not terminated. */
  predicate DrainFoldHasText(p: Parser, s: string, length: seq<Field> -> nat)
    requires Coherent(p)
    decreases |s|
  {
    if s == [] then true
    else
      RunShrinks(p, s, length);
      var o := Run(p, s, length);
      if RunFoldFree(p, s) then o.status.Complete? ==> DrainFoldHasText(o.parser, o.rest, length)
      else RunFoldHasText(p, s)
  }

  /** An unread tail is within a line. */
  lemma {:induction false} SectionTail(fields: seq<Field>, s: string)
    ensures var r := ParseSection(fields, s); !r.done ==> ReadLine(r.rest).None?
    decreases |s|
  {
    match ReadLine(s)
    case None =>
    case Some(l) =>
      match ParseHeader(l.text) {
        case Blank =>
        case Malformed => SectionTail(fields, l.rest);
        case Proper(f) =>
          FoldTail(f.value, l.rest);
          var (value, rest, ended) := Fold(f.value, l.rest);
          if !ended { SectionTail(fields + [Field(f.name, value)], rest); }
      }
  }

  lemma {:induction false} FoldTail(value: string, s: string)
    ensures Fold(value, s).2 ==> ReadLine(Fold(value, s).1).None?
    decreases |s|
  {
    if s != [] && IsWsp(s[0]) {
      match ReadLine(SkipWsp(s))
      case None =>
      case Some(l) => FoldTail(value + l.text, l.rest);
    }
  }

  lemma RunTail(p: Parser, s: string, length: seq<Field> -> nat)
    requires Coherent(p)
    ensures var o := Run(p, s, length); o.status.Incomplete? ==>
              ReadLine(o.rest).None? && !(o.parser.skipLf && o.rest != [])
    ensures var o := Run(p, s, length); o.status.Incomplete? && o.parser.stage.Body? ==> o.rest == []
  {
    hide ParseSection, ReadLine;
    var t := if p.skipLf then DropLf(s) else s;
    match p.stage
    case StartLine =>
      match ReadLine(t) {
        case None =>
        case Some(l) => SectionTail([], l.rest);
      }
    case HeaderSection => SectionTail(p.partial.fields, t);
    case Body =>
  }

  lemma SectionRest(fields: seq<Field>, s: string)
    ensures var r := ParseSection(fields, s);
            if ReadLine(s).None? then !r.done else |r.rest| <= |ReadLine(s).value.rest|
  {
    hide ReadLine, ParseHeader;
  }

  lemma EndHeaderRest(p: Parser, cr: bool, r: Section, length: seq<Field> -> nat)
    requires p.stage.HeaderSection?
    ensures |EndHeader(p, cr, r, length).rest| <= |r.rest|
              && (!r.done ==> EndHeader(p, cr, r, length).status.Incomplete?)
  {
  }

  lemma LineBehind(tail: string, b: string)
    requires ReadLine(tail).None?
    ensures ReadLine(tail + b).Some? ==> |ReadLine(tail + b).value.rest| < |b|
  {
    assert forall i :: 0 <= i < |tail| ==> (tail + b)[i] == tail[i];
  }

  /** What completes a message left incomplete is in what comes after. */
  lemma CompletesLater(q: Parser, tail: string, b: string, length: seq<Field> -> nat)
    requires Coherent(q) && ReadLine(tail).None? && b != []
    requires (q.stage.Body? || q.skipLf) ==> tail == []
    ensures var o := Run(q, tail + b, length); o.status.Complete? ==> |o.rest| <= |b|
  {
    if tail == [] {
      assert tail + b == b;
      RunShrinks(q, b, length);
    } else {
      LineBehind(tail, b);
      hide ReadLine, ParseSection;
      if q.stage.StartLine? {
        if ReadLine(tail + b).Some? {
          var l := ReadLine(tail + b).value;
          var q1 := Parser(HeaderSection, false, 0, Message(l.text, [], ""));
          RunHeaderShrinks(q1, EndsWithCr(tail + b), l.rest, length);
        }
      } else {
        var r := ParseSection(q.partial.fields, tail + b);
        SectionRest(q.partial.fields, tail + b);
        EndHeaderRest(q.(skipLf := false), EndsWithCr(tail + b), r, length);
      }
      hide EndHeader;
    }
  }

  /** A complete message is read alike from a part of the input that reaches beyond it. */
  lemma ReadBefore(p: Parser, s: string, o: Outcome, j: nat, length: seq<Field> -> nat) returns (k: nat)
    requires Coherent(p) && RunFoldFree(p, s) && o == Run(p, s, length) && o.status.Complete?
    requires 0 < j < |o.rest| < |s|
    ensures 0 < k < |s| && s[k..] == o.rest[j..] && Run(p, s[..k], length) == Outcome(o.parser, o.rest[..j], Complete)
  {
    hide Run, RunFoldFree, ReadLine;
    k := |s| - |o.rest| + j;
    var a, b := s[..k], s[k..];
    assert a + b == s;
    RunSplit(p, a, b, length);
    RunTail(p, a, length);
    SkipLeavesNothing(p, a, length);
    var u := Run(p, a, length);
    if u.status.Incomplete? {
      if u.parser.skipLf { assert u.rest == []; }
      CompletesLater(u.parser, u.rest, b, length);
      assert false;
    } else {
      assert |o.rest| > |b|;
      assert !u.parser.skipLf;
      assert o.rest == u.rest + b;
      assert u.rest == o.rest[..j] && b == o.rest[j..];
    }
  }

  /** Draining first `a` and then `b`. */
  function DrainTwice(p: Parser, a: string, b: string, length: seq<Field> -> nat): Drained
    requires Coherent(p)
  {
    var d := Drain(p, a, length);
    DrainCoherent(p, a, length);
    var e := Drain(d.parser, d.rest + b, length);
    Drained(e.parser, e.rest, d.messages + e.messages)
  }

  lemma DrainedAs(p: Parser, s: string, length: seq<Field> -> nat)
    requires Coherent(p) && s != []
    ensures Coherent(Run(p, s, length).parser) && Drain(p, s, length) == Continued(Run(p, s, length), length)
  {
    RunShrinks(p, s, length);
    hide Run;
  }

  lemma DiffersNow(p: Parser, s: string, k: nat, length: seq<Field> -> nat)
    requires Coherent(p) && k <= |s| && CallDiffers(p, s, k, true, length)
    ensures DrainTwice(p, s[..k], s[k..], length) != Drain(p, s, length)
  {
    hide Run, Drain;
    var a, b := s[..k], s[k..];
    var o := Run(p, a, length);
    DrainedAs(p, s, length);
    DrainedAs(p, a, length);
    DrainedAs(o.parser, o.rest + b, length);
    var e := Drain(o.parser, o.rest + b, length);
    assert [] + e.messages == e.messages;
  }

  lemma DiffersLater(p: Parser, s: string, o: Outcome, j: nat, k: nat, length: seq<Field> -> nat)
    requires Coherent(p) && Coherent(o.parser) && o == Run(p, s, length) && o.status.Complete?
    requires 0 < j < |o.rest| && 0 < k < |s| && s[k..] == o.rest[j..]
    requires Run(p, s[..k], length) == Outcome(o.parser, o.rest[..j], Complete)
    requires DrainTwice(o.parser, o.rest[..j], o.rest[j..], length) != Drain(o.parser, o.rest, length)
    ensures DrainTwice(p, s[..k], s[k..], length) != Drain(p, s, length)
  {
    hide Run, Drain;
    DrainedAs(p, s, length);
    DrainedAs(p, s[..k], length);
    var m, d := [o.parser.partial], Drain(o.parser, o.rest[..j], length);
    DrainCoherent(o.parser, o.rest[..j], length);
    var e := Drain(d.parser, d.rest + s[k..], length);
    Assoc(m, d.messages, e.messages);
    var x, y := d.messages + e.messages, Drain(o.parser, o.rest, length).messages;
    if m + x == m + y { assert (m + x)[1..] == x && (m + y)[1..] == y; }
  }

  /** In front of the first continuation line a cut changes the messages, the tail or the parser. */
  lemma {:induction false} DrainCutAtFold(p: Parser, s: string, length: seq<Field> -> nat) returns (k: nat)
    requires Coherent(p) && !DrainFoldFree(p, s, length) && DrainFoldHasText(p, s, length)
    ensures 0 < k < |s| && DrainTwice(p, s[..k], s[k..], length) != Drain(p, s, length)
    decreases |s|
  {
    hide Run, RunFoldFree, RunFoldHasText, DrainTwice, Drain;
    RunShrinks(p, s, length);
    var o := Run(p, s, length);
    if RunFoldFree(p, s) {
      var j := DrainCutAtFold(o.parser, o.rest, length);
      k := ReadBefore(p, s, o, j, length);
      DiffersLater(p, s, o, j, k, length);
    } else {
      k := CallCutAtFold(p, s, length);
      DiffersNow(p, s, k, length);
    }
  }

  lemma ReceiveTwo(p: Parser, a: string, b: string, length: seq<Field> -> nat)
    requires Coherent(p)
    ensures Receive(p, [], [a, b], length) == DrainTwice(p, a, b, length) && Concat([a, b]) == a + b
  {
    hide Drain;
    var segments := [a, b];
    assert segments[1..] == [b] && segments[1..][1..] == [] && [] + a == a;
    var d := Drain(p, a, length);
    DrainCoherent(p, a, length);
    var e := Drain(d.parser, d.rest + b, length);
    DrainCoherent(d.parser, d.rest + b, length);
    assert Receive(d.parser, d.rest, [b], length) == Drained(e.parser, e.rest, e.messages + []);
    assert e.messages + [] == e.messages;
    assert Concat([b]) == b + [] == b;
  }

  /** Segmentation does not matter at all. */
  ghost predicate AnySegments(p: Parser, s: string, length: seq<Field> -> nat)
    requires Coherent(p)
  {
    forall segments: seq<string> :: Concat(segments) == s && (forall i :: 0 <= i < |segments| ==> segments[i] != []) ==>
      Receive(p, [], segments, length) == Drain(p, s, length)
  }

  /** Unless the first continuation line holds nothing but white space: what is received does not
      depend on where it was cut if and only if no header line is continued at all. */
  lemma ReceiveInvariantIff(p: Parser, s: string, length: seq<Field> -> nat)
    requires Coherent(p) && DrainFoldHasText(p, s, length)
    ensures AnySegments(p, s, length) <==> DrainFoldFree(p, s, length)
  {
    hide Drain, Receive, DrainFoldFree, DrainFoldHasText, DrainTwice;
    if DrainFoldFree(p, s, length) {
      forall segments: seq<string> | Concat(segments) == s && (forall i :: 0 <= i < |segments| ==> segments[i] != [])
        ensures Receive(p, [], segments, length) == Drain(p, s, length)
      {
        ReceiveInvariant(p, segments, length);
      }
    } else {
      var k := DrainCutAtFold(p, s, length);
      var segments := [s[..k], s[k..]];
      assert s[..k] + s[k..] == s;
      ReceiveTwo(p, s[..k], s[k..], length);
      assert Concat(segments) == s && forall i :: 0 <= i < |segments| ==> segments[i] != [];
    }
  }

  // ---------------------------------------------------------------- an example

  lemma BlankLine(fields: seq<Field>)
    ensures ParseSection(fields, "\n") == Section(true, fields, "")
  {
    LineOf("\n", 0);
    assert "\n"[1..] == "" && "\n"[..0] == "";
  }

  /** A line without a colon is passed over. */
  lemma PlainLine(fields: seq<Field>)
    ensures ParseSection(fields, "c\n\n") == Section(true, fields, "")
  {
    LineOf("c\n\n", 1);
    assert "c\n\n"[2..] == "\n" && "c\n\n"[..1] == "c";
    assert ParseHeader("c") == Malformed;
    BlankLine(fields);
    hide ReadLine, ParseHeader;
  }

  lemma FoldWhole()
    ensures Fold("b", " c\n\n") == ("bc", "\n", false)
  {
    SkipWspIs(" c\n\n", 1);
    LineOf("c\n\n", 1);
    assert " c\n\n"[1..] == "c\n\n" && "c\n\n"[2..] == "\n" && "c\n\n"[..1] == "c";
    hide ReadLine, SkipWsp;
    assert Fold("bc", "\n") == ("bc", "\n", false);
    assert "b" + "c" == "bc";
  }

  lemma FoldEnds()
    ensures Fold("b", " c") == ("b", "c", true)
  {
    SkipWspIs(" c", 1);
    LineLengthIs("c", 1);
    assert " c"[1..] == "c";
  }

  lemma FirstLine(s: string, rest: string)
    requires s == "A:b\n" + rest
    ensures ReadLine(s) == Some(Line("A:b", rest)) && ParseHeader("A:b") == Proper(Field("A", "b"))
  {
    LineOf(s, 3);
    assert s[4..] == rest && s[..3] == "A:b";
    ColonFromIs("A:b", 1, 1);
    assert "A:b"[..1] == "A" && "A:b"[2..] == "b";
  }

  lemma FieldParsed(s: string, rest: string)
    requires s == "A:b\n" + rest
    ensures var (value, after, ended) := Fold("b", rest);
            ParseSection([], s)
              == if ended then Section(false, [Field("A", value)], after) else ParseSection([Field("A", value)], after)
  {
    FirstLine(s, rest);
    hide ReadLine, ParseHeader, Fold;
    var (value, after, ended) := Fold("b", rest);
    assert [] + [Field("A", value)] == [Field("A", value)];
  }

  /** A folded header read at once has the whole value; cut in its second line, it keeps the first
      line only, and the rest of the value is dropped with the next segment. */
  lemma FoldedLineCut()
    ensures ParseSection([], "A:b\n c\n\n") == Section(true, [Field("A", "bc")], "")
    ensures var first := ParseSection([], "A:b\n c");
            && first == Section(false, [Field("A", "b")], "c")
            && ParseSection(first.fields, first.rest + "\n\n") == Section(true, [Field("A", "b")], "")
  {
    hide ParseSection, Fold;
    FoldWhole();
    FoldEnds();
    FieldParsed("A:b\n c\n\n", " c\n\n");
    FieldParsed("A:b\n c", " c");
    BlankLine([Field("A", "bc")]);
    PlainLine([Field("A", "b")]);
    assert "c" + "\n\n" == "c\n\n";
  }

  // ---------------------------------------------------------------- white space that goes unnoticed

  const FIELD := Field("A", "b")

  lemma LineIs(s: string, text: string, rest: string, n: nat)
    requires n == |text| < |s| && s[..n] == text && IsEol(s[n]) && forall i :: 0 <= i < n ==> !IsEol(text[i])
    requires s[n] == '\r' ==> rest == [] || rest[0] != '\n'
    requires s == text + [s[n]] + rest || s == text + ['\r', '\n'] + rest
    ensures ReadLine(s) == Some(Line(text, rest))
  {
    LineOf(s, n);
    assert s[n + 1..] == if s == text + [s[n]] + rest then rest else ['\n'] + rest;
    hide ReadLine, LineLength;
  }

  lemma BlankSection(fields: seq<Field>, s: string, text: string, rest: string)
    requires ReadLine(s) == Some(Line(text, rest)) && forall i :: 0 <= i < |text| ==> IsWsp(text[i])
    ensures ParseSection(fields, s) == Section(true, fields, rest)
  {
    SkipWspIs(text, |text|);
    hide ReadLine, SkipWsp;
  }

  lemma WhiteFold(value: string, s: string, rest: string)
    requires |s| > 1 && IsWsp(s[0]) && ReadLine(s[1..]) == Some(Line("", rest)) && !IsWsp(s[1])
    requires rest == [] || !IsWsp(rest[0])
    ensures Fold(value, s) == (value, rest, false)
  {
    SkipWspIs(s, 1);
    hide ReadLine, SkipWsp;
    assert value + "" == value;
  }

  /** The message with the field, once its header is complete and `rest` follows it. */
  function WithBody(rest: string, length: seq<Field> -> nat): Outcome {
    Finish(Parser(HeaderSection, false, 0, Message("S", [FIELD], "")), rest, length)
  }

  lemma BodyIsCr(rest: string, length: seq<Field> -> nat)
    requires rest != [] && rest[0] == '\r' && length([FIELD]) == 1
    ensures WithBody(rest, length)
         == Outcome(Parser(StartLine, false, 1, Message("S", [FIELD], "\r")), rest[1..], Complete)
  {
    assert "" + rest[..1] == "\r";
  }

  /** An empty start line, whatever terminates it. */
  lemma EmptyStart(p: Parser, s: string, length: seq<Field> -> nat)
    requires p.stage.StartLine? && !p.skipLf && ReadLine(s) == Some(Line("", "")) && s != [] && !EndsWithCr(s)
    ensures Drain(p, s, length) == Drained(Parser(HeaderSection, false, 0, Message("", [], "")), "", [])
  {
    assert ParseSection([], "") == Section(false, [], "");
    hide ReadLine, ParseSection;
  }

  lemma StartRun(s: string, t: string, length: seq<Field> -> nat)
    requires s == "S\n" + t
    ensures Run(FRESH, s, length)
         == RunHeader(Parser(HeaderSection, false, 0, Message("S", [], "")), EndsWithCr(s), t, length)
  {
    hide ReadLine, RunHeader;
    LineIs(s, "S", t, 1);
  }

  lemma WhiteWhole(s: string, white: string, rest: string, length: seq<Field> -> nat)
    requires s == "S\n" + ("A:b\n" + white) && !EndsWithCr(s) && length([FIELD]) == 1
    requires |white| > 1 && IsWsp(white[0]) && !IsWsp(white[1])
    requires ReadLine(white[1..]) == Some(Line("", "\r" + rest)) && ReadLine("\r" + rest) == Some(Line("", rest))
    ensures Run(FRESH, s, length) == WithBody(rest, length)
  {
    hide ReadLine, ParseSection, Fold, Finish, RunHeader;
    StartRun(s, "A:b\n" + white, length);
    WhiteFold("b", white, "\r" + rest);
    FieldParsed("A:b\n" + white, white);
    BlankSection([FIELD], "\r" + rest, "", rest);
    assert RunHeader(Parser(HeaderSection, false, 0, Message("S", [], "")), false, "A:b\n" + white, length)
        == WithBody(rest, length) by { HeaderIs("A:b\n" + white, rest, length); }
  }

  lemma HeaderIs(t: string, rest: string, length: seq<Field> -> nat)
    requires ParseSection([], t) == Section(true, [FIELD], rest)
    ensures RunHeader(Parser(HeaderSection, false, 0, Message("S", [], "")), false, t, length) == WithBody(rest, length)
  {
    hide ParseSection, Finish;
  }

  lemma WhiteCut(s: string, white: string, rest: string, length: seq<Field> -> nat)
    requires s == "S\n" + "A:b\n" && white != [] && !EndsWithCr(white) && length([FIELD]) == 1
    requires ReadLine(white) == Some(Line(" ", rest))
    ensures var o := Run(FRESH, s, length);
            && o == Outcome(Parser(HeaderSection, false, 0, Message("S", [FIELD], "")), "", Incomplete)
            && Run(o.parser, white, length) == WithBody(rest, length)
  {
    hide ReadLine, ParseSection, Fold, Finish, RunHeader;
    StartRun(s, "A:b\n", length);
    FieldAlone("A:b\n");
    BlankSection([FIELD], white, " ", rest);
    IncompleteIs("A:b\n", length);
    HeaderGoesOn(white, rest, length);
  }

  lemma FieldAlone(t: string)
    requires t == "A:b\n"
    ensures ParseSection([], t) == Section(false, [FIELD], "")
  {
    assert t == "A:b\n" + "";
    FieldParsed(t, "");
    assert Fold("b", "") == ("b", "", false);
    assert ParseSection([FIELD], "") == Section(false, [FIELD], "");
  }

  lemma IncompleteIs(t: string, length: seq<Field> -> nat)
    requires ParseSection([], t) == Section(false, [FIELD], "")
    ensures RunHeader(Parser(HeaderSection, false, 0, Message("S", [], "")), false, t, length)
         == Outcome(Parser(HeaderSection, false, 0, Message("S", [FIELD], "")), "", Incomplete)
  {
    hide ParseSection, Finish;
  }

  lemma HeaderGoesOn(white: string, rest: string, length: seq<Field> -> nat)
    requires white != [] && !EndsWithCr(white) && ParseSection([FIELD], white) == Section(true, [FIELD], rest)
    ensures Run(Parser(HeaderSection, false, 0, Message("S", [FIELD], "")), white, length) == WithBody(rest, length)
  {
    hide ParseSection, Finish;
  }

  /** A continuation line of white space, cut off, ends the header early; but what follows may make up
      for it. Here the blank line becomes the body, and the body part of a line terminator. */
  lemma WhiteFoldUnseen(a: string, b: string, length: seq<Field> -> nat)
    requires a == "S\n" + "A:b\n" && b == " \r\r\r\n" && length([FIELD]) == 1
    ensures !CallCut(FRESH, a + b, |a|, length)
    ensures DrainTwice(FRESH, a, b, length) == Drain(FRESH, a + b, length)
  {
    hide Run, WithBody, ReadLine, Drain, DrainTwice;
    var s, c, d := a + b, "\r\r\n", "\r\n";
    assert s[..|a|] == a && s[|a|..] == b && s == "S\n" + ("A:b\n" + b);
    WhiteTexts(b, c, d, "\n");
    WhiteWhole(s, b, d, length);
    WhiteCut(a, b, c, length);
    BodyIsCr(d, length);
    BodyIsCr(c, length);
    var p := Parser(StartLine, false, 1, Message("S", [FIELD], "\r"));
    EmptyStart(p, "\n", length);
    EmptyStart(p, d, length);
    TwiceAlike(a, b, length);
    assert Run(FRESH, a, length).rest + b == b;
  }

  lemma WhiteTexts(b: string, c: string, d: string, e: string)
    requires b == " \r\r\r\n" && c == "\r\r\n" && d == "\r\n" && e == "\n"
    ensures "\r" + d == c && d[1..] == e && c[1..] == d
    ensures ReadLine(b[1..]) == Some(Line("", c)) && ReadLine(b) == Some(Line(" ", c))
    ensures ReadLine(c) == Some(Line("", d)) && ReadLine(d) == ReadLine(e) == Some(Line("", ""))
  {
    hide ReadLine;
    assert b[1..] == "\r" + c && b == " " + ['\r'] + c;
    LineIs(b[1..], "", c, 0);
    LineIs(b, " ", c, 1);
    LineIs(c, "", d, 0);
    LineIs(d, "", "", 0);
    LineIs(e, "", "", 0);
  }

  lemma TwiceAlike(a: string, b: string, length: seq<Field> -> nat)
    requires a != [] && b != []
    requires var o := Run(FRESH, a, length);
             && o.status.Incomplete? && o.rest == [] && Coherent(o.parser)
             && var w, u := Run(FRESH, a + b, length), Run(o.parser, b, length);
                && w.status.Complete? && u.status.Complete? && w.parser == u.parser && Coherent(w.parser)
                && Drain(w.parser, w.rest, length) == Drain(u.parser, u.rest, length)
    ensures DrainTwice(FRESH, a, b, length) == Drain(FRESH, a + b, length)
  {
    hide Run, Drain;
    DrainedAs(FRESH, a + b, length);
    DrainedAs(FRESH, a, length);
    var o := Run(FRESH, a, length);
    assert o.rest + b == b;
    DrainedAs(o.parser, b, length);
    var e := Drain(o.parser, b, length);
    assert [] + e.messages == e.messages;
  }
}
