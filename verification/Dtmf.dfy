/** Out-of-band DTMF: digits queued, sent as named events, and detected at the other end (sections
    2.5.1 and 2.5.2 of RFC 4733). */
module Dtmf {
  import opened Arith
  import opened Machine

  const QUEUE_LEN := 32
  const BUFFER_LEN := 32
  const EVENT_ID_MAX := 15
  const TIME_BASE := 10

  // ---------------------------------------------------------------- digits and events

  function CharEvent(c: char): uint8 {
    if '0' <= c <= '9' then c as int - '0' as int
    else if c == '*' then 10
    else if c == '#' then 11
    else if 'A' <= c <= 'D' then 12 + c as int - 'A' as int
    else 255
  }

  function EventChar(e: uint8): char {
    if e <= 9 then ('0' as int + e) as char
    else if e == 10 then '*'
    else if e == 11 then '#'
    else if e <= 15 then ('A' as int + e - 12) as char
    else '\0'
  }

  predicate IsDigit(c: char) { CharEvent(c) <= EVENT_ID_MAX }

  /** Digits and events correspond one to one. */
  lemma DigitsAreEvents(c: char, e: uint8)
    ensures IsDigit(c) <==> EventChar(CharEvent(c)) == c && c != '\0'
    ensures e <= EVENT_ID_MAX <==> CharEvent(EventChar(e)) == e && e != 255
  {
  }

  /** The digits of a string, everything else left out. */
  function Digits(s: string): string {
    if s == "" then "" else if IsDigit(s[0]) then [s[0]] + Digits(s[1..]) else Digits(s[1..])
  }

  lemma {:induction false} DigitsAppend(a: string, b: string)
    ensures Digits(a + b) == Digits(a) + Digits(b)
  {
    if a == "" {
      assert a + b == b;
    } else {
      assert (a + b)[1..] == a[1..] + b;
      DigitsAppend(a[1..], b);
    }
  }

  // ---------------------------------------------------------------- the generator

  /** Durations of tone, silence and frame, in timestamp units, and how often, in milliseconds, an
      event is sent. */
  datatype Config = Config(tone: nat, silence: nat, frame: nat, ptime: nat)

  datatype GenState = Idle | Tone | Ending | Silence

  datatype Generator = Generator(state: GenState, queue: string, eventId: uint8, counter: nat, eventDuration: nat,
                                 sinceLast: nat, newSegment: bool)

  datatype Marker = Unmarked | StartOfEvent | EndOfEvent | NewSegment

  /** What a tick puts into a frame, if anything. */
  datatype Frame = NoEvent | NamedEvent(eventId: uint8, marker: Marker, edge: bool, duration: nat)

  const FRESH := Generator(Idle, "", 0, 0, 0, 0, false)

  /** Takes characters off the queue up to the first digit; returns its event, or 255. */
  function Take(queue: string): (r: (uint8, string))
    requires queue != ""
    ensures |r.1| < |queue| && r.1 == queue[|queue| - |r.1|..]
  {
    var e := CharEvent(queue[0]);
    if |queue| > 1 && e > EVENT_ID_MAX then Take(queue[1..]) else (e, queue[1..])
  }

  /** An idle generator starts the next digit of its queue. */
  function StartNext(cfg: Config, g: Generator): Generator {
    if g.state != Idle || g.queue == "" then g
    else
      var (e, rest) := Take(g.queue);
      if e > EVENT_ID_MAX then g.(queue := rest, eventId := e)
      else Generator(Tone, rest, e, 0, 0, cfg.ptime, false)
  }

  function ToneTick(cfg: Config, g: Generator): (Generator, Frame) {
    var counter, duration := g.counter + cfg.frame, g.eventDuration + cfg.frame;
    if g.sinceLast + TIME_BASE < cfg.ptime then
      (g.(counter := counter, eventDuration := duration, sinceLast := g.sinceLast + TIME_BASE), NoEvent)
    else if counter >= cfg.tone then
      if duration > 0xFFFF then
        (g.(state := Ending, counter := 0, eventDuration := 0, newSegment := true, sinceLast := 0),
         NamedEvent(g.eventId, EndOfEvent, true, 0xFFFF))
      else
        (g.(state := Ending, counter := 0, eventDuration := duration, sinceLast := 0),
         NamedEvent(g.eventId, EndOfEvent, true, duration))
    else
      var first := counter == cfg.frame;
      var marker := if first then StartOfEvent else if g.newSegment then NewSegment else Unmarked;
      var segment := if first then g.newSegment else false;
      if duration > 0xFFFF then
        (g.(counter := counter, eventDuration := 0, newSegment := true, sinceLast := 0),
         NamedEvent(g.eventId, marker, false, 0xFFFF))
      else
        (g.(counter := counter, eventDuration := duration, newSegment := segment, sinceLast := 0),
         NamedEvent(g.eventId, marker, false, duration))
  }

  function EndingTick(cfg: Config, g: Generator): (Generator, Frame) {
    if g.sinceLast + TIME_BASE < cfg.ptime then (g.(sinceLast := g.sinceLast + TIME_BASE), NoEvent)
    else
      var g1 := if g.counter + 1 >= 2 then g.(state := Silence, counter := (g.counter + 1) * cfg.frame, sinceLast := 0)
                else g.(counter := g.counter + 1, sinceLast := 0);
      (g1, NamedEvent(g.eventId, EndOfEvent, true, EndDuration(g)))
  }

  /** The duration that the retransmitted ends of an event carry. */
  function EndDuration(g: Generator): nat { if g.newSegment then 0xFFFF else g.eventDuration }

  /** One media tick. */
  function PutFrame(cfg: Config, g: Generator): (Generator, Frame) {
    var g1 := StartNext(cfg, g);
    match g1.state
    case Idle => (g1, NoEvent)
    case Tone => ToneTick(cfg, g1)
    case Ending => EndingTick(cfg, g1)
    case Silence =>
      var counter := g1.counter + cfg.frame;
      (if counter >= cfg.silence then g1.(counter := counter, state := Idle) else g1.(counter := counter), NoEvent)
  }

  predicate Sending(g: Generator) { g.queue != "" || g.state == Tone || g.state == Ending }

  function Enqueue(g: Generator, digits: string): (Generator, bool) {
    if |g.queue| + |digits| > QUEUE_LEN then (g, false) else (g.(queue := g.queue + digits), true)
  }

  lemma {:induction false} TakeDigits(queue: string)
    requires queue != ""
    ensures var (e, rest) := Take(queue);
            if e <= EVENT_ID_MAX then Digits(queue) == [EventChar(e)] + Digits(rest) && IsDigit(EventChar(e))
            else rest == "" && Digits(queue) == ""
  {
    var e := CharEvent(queue[0]);
    DigitsAreEvents(queue[0], e);
    if |queue| > 1 && e > EVENT_ID_MAX { TakeDigits(queue[1..]); }
  }

  // ---------------------------------------------------------------- the detector

  datatype Detector = Detector(buf: string, lost: nat)

  function AddDigit(d: Detector, c: char): Detector {
    if c == '\0' then d
    else if |d.buf| < BUFFER_LEN then d.(buf := d.buf + [c])
    else d.(lost := d.lost + 1)
  }

  function GetFrame(d: Detector, f: Frame): Detector {
    if f.NamedEvent? && f.eventId <= EVENT_ID_MAX && f.marker == StartOfEvent then AddDigit(d, EventChar(f.eventId))
    else d
  }

  // ---------------------------------------------------------------- end to end

  datatype Op = Queue(digits: string) | Tick | Get | Reset

  /** Generator and detector, with what was accepted into the queue and not withdrawn by a reset, started
      and fetched so far. */
  datatype System = System(gen: Generator, det: Detector, accepted: string, started: string, fetched: string)

  const SILENT := System(FRESH, Detector("", 0), "", "", "")

  function Stop(g: Generator): Generator { g.(state := Idle, queue := "") }

  /** `accepted` without the last `n` digits, which were still queued. */
  function Withdraw(accepted: string, n: nat): string { if n <= |accepted| then accepted[..|accepted| - n] else "" }

  function Step(cfg: Config, s: System, op: Op): System {
    match op
    case Queue(digits) =>
      var (g, ok) := Enqueue(s.gen, digits);
      s.(gen := g, accepted := if ok then s.accepted + digits else s.accepted)
    case Tick =>
      var (g, f) := PutFrame(cfg, s.gen);
      var starts := s.gen.state == Idle && StartNext(cfg, s.gen).state == Tone;
      s.(gen := g, det := GetFrame(s.det, f),
         started := if starts then s.started + [EventChar(StartNext(cfg, s.gen).eventId)] else s.started)
    case Get =>
      if s.det.buf == "" then s else s.(det := s.det.(buf := s.det.buf[1..]), fetched := s.fetched + [s.det.buf[0]])
    case Reset => s.(gen := Stop(s.gen), accepted := Withdraw(s.accepted, |s.gen.queue|))
  }

  function Run(cfg: Config, ops: seq<Op>): System {
    if ops == [] then SILENT else Step(cfg, Run(cfg, ops[..|ops| - 1]), ops[|ops| - 1])
  }

  /** The digits recorded, fetched or not. */
  function Recorded(s: System): string { s.fetched + s.det.buf }

  /** `a` is `b` with some characters left out. */
  ghost predicate Within(a: string, b: string) {
    a == ""
    || (b != "" && ((a[|a| - 1] == b[|b| - 1] && Within(a[..|a| - 1], b[..|b| - 1])) || Within(a, b[..|b| - 1])))
  }

  lemma WithinGrows(a: string, b: string, c: char)
    requires Within(a, b)
    ensures Within(a, b + [c]) && Within(a + [c], b + [c])
  {
    assert (b + [c])[..|b|] == b && (a + [c])[..|a|] == a;
  }

  /** Between ticks, a tone has lasted a frame at least. */
  ghost predicate Steady(cfg: Config, g: Generator) {
    && (g.state == Tone ==> g.counter >= cfg.frame)
    && (g.state == Tone || g.state == Ending ==> g.eventId <= EVENT_ID_MAX)
  }

  /** What every run keeps. */
  ghost predicate Kept(cfg: Config, s: System) {
    && Steady(cfg, s.gen)
    && s.started + Digits(s.gen.queue) == Digits(s.accepted)
    && |s.gen.queue| <= |s.accepted| && s.gen.queue == s.accepted[|s.accepted| - |s.gen.queue|..]
    && |s.det.buf| <= BUFFER_LEN
    && Heard(cfg, s)
  }

  /** What the detector has heard of the digits started. */
  ghost predicate Heard(cfg: Config, s: System) {
    if cfg.tone > cfg.frame then
      && |Recorded(s)| + s.det.lost == |s.started|
      && Within(Recorded(s), s.started)
      && (s.det.lost == 0 ==> Recorded(s) == s.started)
    else Recorded(s) == "" && s.det.lost == 0
  }

  /** A tick marks the start of an event exactly when it starts a digit whose tone outlasts a frame. */
  lemma StartIsMarked(cfg: Config, g: Generator)
    requires cfg.frame > 0 && Steady(cfg, g)
    ensures var (r, f) := PutFrame(cfg, g);
            && Steady(cfg, r)
            && r.queue == StartNext(cfg, g).queue
            && (f.NamedEvent? && f.marker == StartOfEvent <==>
                 g.state == Idle && StartNext(cfg, g).state == Tone && cfg.tone > cfg.frame)
            && (f.NamedEvent? ==> f.eventId == StartNext(cfg, g).eventId <= EVENT_ID_MAX)
  {
    hide Take, EventChar, CharEvent;
    StartsTone(cfg, g);
  }

  lemma StartsTone(cfg: Config, g: Generator)
    ensures g.state == Idle && StartNext(cfg, g).state == Tone ==>
              && g.queue != ""
              && var (e, rest) := Take(g.queue);
                 e <= EVENT_ID_MAX && StartNext(cfg, g) == Generator(Tone, rest, e, 0, 0, cfg.ptime, false)
    ensures g.state != Idle ==> StartNext(cfg, g) == g
    ensures g.state == Idle ==> StartNext(cfg, g).state == Idle || StartNext(cfg, g).state == Tone
  {
    hide Take;
  }

  lemma TickConserves(cfg: Config, s: System)
    ensures var n := Step(cfg, s, Tick);
            n.started + Digits(StartNext(cfg, s.gen).queue) == s.started + Digits(s.gen.queue)
  {
    if s.gen.state == Idle && s.gen.queue != "" {
      TakeDigits(s.gen.queue);
      var (e, rest) := Take(s.gen.queue);
      if e <= EVENT_ID_MAX {
        assert s.started + ([EventChar(e)] + Digits(rest)) == s.started + [EventChar(e)] + Digits(rest);
      }
    }
    hide EventChar, CharEvent, Digits, Take;
  }

  lemma TickKeeps(cfg: Config, s: System)
    requires cfg.frame > 0 && Kept(cfg, s)
    ensures Kept(cfg, Step(cfg, s, Tick))
  {
    hide PutFrame, StartNext, Digits, Steady, EventChar, Within, Heard, Take, CharEvent;
    StartIsMarked(cfg, s.gen);
    TickConserves(cfg, s);
    TakesFront(cfg, s.gen, s.accepted);
    TickHeard(cfg, s);
  }

  /** A digit started is recorded, or lost if the buffer is full. */
  lemma RecordsOne(s: System, c: char, d: Detector)
    requires c != '\0' && |s.det.buf| <= BUFFER_LEN && d == AddDigit(s.det, c)
    ensures |d.buf| <= BUFFER_LEN && |s.fetched + d.buf| + d.lost == |Recorded(s)| + s.det.lost + 1
    ensures s.fetched + d.buf == if d.lost == s.det.lost then Recorded(s) + [c] else Recorded(s)
  {
    assert s.fetched + (s.det.buf + [c]) == Recorded(s) + [c];
  }

  lemma HeardMore(cfg: Config, s: System, n: System, c: char)
    requires cfg.tone > cfg.frame && Heard(cfg, s) && |s.det.buf| <= BUFFER_LEN && c != '\0'
    requires n.started == s.started + [c] && n.fetched == s.fetched && n.det == AddDigit(s.det, c)
    ensures Heard(cfg, n)
  {
    hide AddDigit, Within;
    RecordsOne(s, c, n.det);
    WithinGrows(Recorded(s), s.started, c);
  }

  /** What a tick starts is recorded, or lost if the buffer is full. */
  lemma TickHeard(cfg: Config, s: System)
    requires cfg.frame > 0 && Steady(cfg, s.gen) && Heard(cfg, s) && |s.det.buf| <= BUFFER_LEN
    ensures Heard(cfg, Step(cfg, s, Tick)) && |Step(cfg, s, Tick).det.buf| <= BUFFER_LEN
  {
    hide PutFrame, StartNext, Digits, Steady, EventChar, Within, Take, CharEvent, AddDigit;
    var f, n := PutFrame(cfg, s.gen).1, Step(cfg, s, Tick);
    StartIsMarked(cfg, s.gen);
    var c := EventChar(StartNext(cfg, s.gen).eventId);
    if f.NamedEvent? && f.marker == StartOfEvent {
      EventIsDigit(f.eventId);
      RecordsOne(s, c, n.det);
      HeardMore(cfg, s, n, c);
    } else {
      assert n.det == s.det;
    }
  }

  lemma TakesFront(cfg: Config, g: Generator, accepted: string)
    requires |g.queue| <= |accepted| && g.queue == accepted[|accepted| - |g.queue|..]
    ensures var q := StartNext(cfg, g).queue; |q| <= |accepted| && q == accepted[|accepted| - |q|..]
  {
    hide Take, CharEvent;
  }

  lemma EventIsDigit(e: uint8)
    requires e <= EVENT_ID_MAX
    ensures EventChar(e) != '\0'
  {
  }

  /** A reset withdraws what is queued, and nothing else. */
  lemma ResetKeeps(cfg: Config, s: System)
    requires Kept(cfg, s)
    ensures Kept(cfg, Step(cfg, s, Reset))
  {
    hide Digits, Within;
    var q, left := s.gen.queue, Withdraw(s.accepted, |s.gen.queue|);
    assert left + q == s.accepted;
    DigitsAppend(left, q);
    DigitsAppend(left, "");
    assert left + "" == left;
    Cancel(s.started, Digits(left), Digits(q));
    NoDigits(s.started);
  }

  lemma NoDigits(s: string)
    ensures s + Digits("") == s
  {
  }

  lemma Cancel(a: string, b: string, c: string)
    requires a + c == b + c
    ensures a == b
  {
    assert |a| == |b|;
    assert a == (a + c)[..|a|] && b == (b + c)[..|b|];
  }

  lemma StepKeeps(cfg: Config, s: System, op: Op)
    requires cfg.frame > 0 && Kept(cfg, s)
    ensures Kept(cfg, Step(cfg, s, op))
  {
    hide PutFrame, StartNext, Digits, Within;
    match op
    case Queue(digits) =>
      DigitsAppend(s.gen.queue, digits);
      DigitsAppend(s.accepted, digits);
      assert s.started + (Digits(s.gen.queue) + Digits(digits)) == s.started + Digits(s.gen.queue) + Digits(digits);
    case Tick => TickKeeps(cfg, s);
    case Get =>
      if s.det.buf != "" { assert s.fetched + [s.det.buf[0]] + s.det.buf[1..] == Recorded(s); }
    case Reset => ResetKeeps(cfg, s);
  }

  /** End to end, over every run: digits accepted are, in order, those started and those still queued;
      if the tone outlasts a frame, the digits recorded plus those lost are as many as were started,
      the recorded ones are started ones in their order, and without loss they are all of them; if it
      does not, none is ever recorded. */
  lemma {:induction false} EndToEnd(cfg: Config, ops: seq<Op>)
    requires cfg.frame > 0
    ensures Kept(cfg, Run(cfg, ops))
  {
    hide Kept, Step;
    if ops == [] {
      SilentKept(cfg);
    } else {
      EndToEnd(cfg, ops[..|ops| - 1]);
      StepKeeps(cfg, Run(cfg, ops[..|ops| - 1]), ops[|ops| - 1]);
    }
  }

  lemma SilentKept(cfg: Config)
    ensures Kept(cfg, SILENT)
  {
  }

  /** All the digits there are get through without loss if and only if the tone outlasts a frame. */
  lemma DetectedIff(cfg: Config, ops: seq<Op>)
    requires cfg.frame > 0 && Run(cfg, ops).det.lost == 0 && Run(cfg, ops).started != ""
    ensures Recorded(Run(cfg, ops)) == Run(cfg, ops).started <==> cfg.tone > cfg.frame
  {
    EndToEnd(cfg, ops);
  }

  /** At no moment of the run have more than 32 digits been started and not fetched. */
  predicate KeepsUp(cfg: Config, ops: seq<Op>) {
    && |Run(cfg, ops).started| <= |Run(cfg, ops).fetched| + 32
    && (ops == [] || KeepsUp(cfg, ops[..|ops| - 1]))
  }

  /** Digits are lost if and only if they are not fetched in time, provided the tone outlasts a frame. */
  lemma {:induction false} NothingLostIff(cfg: Config, ops: seq<Op>)
    requires cfg.frame > 0 && cfg.tone > cfg.frame
    ensures Run(cfg, ops).det.lost == 0 <==> KeepsUp(cfg, ops)
  {
    hide Step, Steady, Within, Digits;
    EndToEnd(cfg, ops);
    if ops == [] {
    } else {
      var before := ops[..|ops| - 1];
      NothingLostIff(cfg, before);
      EndToEnd(cfg, before);
      StepLoses(cfg, Run(cfg, before), ops[|ops| - 1]);
    }
  }

  /** A digit is lost if it is started when the buffer is full. */
  lemma StepLoses(cfg: Config, s: System, op: Op)
    requires cfg.frame > 0 && cfg.tone > cfg.frame && Kept(cfg, s)
    ensures var n := Step(cfg, s, op);
            n.det.lost > s.det.lost <==> |n.started| > |s.started| && |s.det.buf| == BUFFER_LEN
    ensures Step(cfg, s, op).det.lost >= s.det.lost
    ensures |Step(cfg, s, op).started| > |s.started| ==> Step(cfg, s, op).fetched == s.fetched
  {
    hide PutFrame, StartNext, EventChar, Within, Digits, Take, CharEvent, Heard;
    if op.Tick? {
      StartIsMarked(cfg, s.gen);
      var f := PutFrame(cfg, s.gen).1;
      if f.NamedEvent? && f.marker == StartOfEvent { EventIsDigit(f.eventId); }
    }
  }

  /** The queue has room for 32 characters: a string that fits is accepted whole, any other not at all. */
  lemma {:induction false} QueueFits(cfg: Config, ops: seq<Op>, digits: string)
    ensures |Run(cfg, ops).gen.queue| <= 32
    ensures var s, n := Run(cfg, ops), Run(cfg, ops + [Queue(digits)]);
            && n.accepted == (if |s.gen.queue| + |digits| <= 32 then s.accepted + digits else s.accepted)
            && n.gen.queue == (if |s.gen.queue| + |digits| <= 32 then s.gen.queue + digits else s.gen.queue)
  {
    hide PutFrame;
    assert (ops + [Queue(digits)])[..|ops|] == ops;
    if ops != [] {
      QueueFits(cfg, ops[..|ops| - 1], "");
      TickQueue(cfg, Run(cfg, ops[..|ops| - 1]).gen);
    }
  }

  lemma TickQueue(cfg: Config, g: Generator)
    ensures |PutFrame(cfg, g).0.queue| <= |g.queue|
  {
    hide Take, CharEvent;
  }

  /** A reset stops the tone at once: the next tick sends nothing. */
  lemma ResetStops(cfg: Config, ops: seq<Op>)
    ensures var s := Run(cfg, ops + [Reset]);
            && !Sending(s.gen) && PutFrame(cfg, s.gen) == (s.gen, NoEvent)
            && s.started == Run(cfg, ops).started && s.det == Run(cfg, ops).det
  {
    assert (ops + [Reset])[..|ops|] == ops;
  }

  /** Once the generator is not sending, every valid digit accepted has been started. */
  lemma SentIsStarted(cfg: Config, ops: seq<Op>)
    requires cfg.frame > 0 && !Sending(Run(cfg, ops).gen)
    ensures Run(cfg, ops).started == Digits(Run(cfg, ops).accepted)
  {
    EndToEnd(cfg, ops);
    assert Digits("") == "";
  }

  // ---------------------------------------------------------------- the end of an event

  /** How many ticks a tone takes: the fewest, and one at least, that last as long as it. */
  function TicksOfTone(cfg: Config): (n: nat)
    requires cfg.frame > 0
    ensures n >= 1 && n * cfg.frame >= cfg.tone && (n > 1 ==> (n - 1) * cfg.frame < cfg.tone)
  {
    if cfg.tone <= cfg.frame then 1 else
      DivModUnique(cfg.tone - 1, cfg.frame, (cfg.tone - 1) / cfg.frame, (cfg.tone - 1) % cfg.frame);
      (cfg.tone - 1) / cfg.frame + 1
  }

  /** How many ticks fill a segment, whose duration has sixteen bits. */
  function TicksOfSegment(cfg: Config): (m: nat)
    requires cfg.frame > 0
    ensures m >= 1 && (m - 1) * cfg.frame <= 0xFFFF < m * cfg.frame
  {
    DivModUnique(0xFFFF, cfg.frame, 0xFFFF / cfg.frame, 0xFFFF % cfg.frame);
    0xFFFF / cfg.frame + 1
  }

  /** How long the last segment of the tone is, as far as sixteen bits can tell. */
  function LastDuration(cfg: Config): nat
    requires cfg.frame > 0
  {
    var d := ((TicksOfTone(cfg) - 1) % TicksOfSegment(cfg) + 1) * cfg.frame;
    if d > 0xFFFF then 0xFFFF else d
  }

  /** The last tick of the tone is the first of a segment that is not the tone's first, nor full. */
  predicate EndsNewSegment(cfg: Config)
    requires cfg.frame > 0
  {
    TicksOfTone(cfg) > 1 && (TicksOfTone(cfg) - 1) % TicksOfSegment(cfg) == 0 && cfg.frame < 0xFFFF
  }

  /** The generator `k` ticks after the start of its tone. */
  ghost predicate ToneAt(cfg: Config, g: Generator, k: nat)
    requires cfg.frame > 0
  {
    && g.state == Tone && k < TicksOfTone(cfg) && g.counter == k * cfg.frame
    && g.eventDuration == k % TicksOfSegment(cfg) * cfg.frame
    && g.newSegment == (k > 0 && k % TicksOfSegment(cfg) == 0)
  }

  /** Within a tone, counter, duration and new segment are tied to one number of ticks. */
  ghost predicate InStep(cfg: Config, g: Generator)
    requires cfg.frame > 0
  {
    g.state == Tone ==> exists k: nat :: k > 0 && ToneAt(cfg, g, k)
  }

  lemma Distribute(k: int, d: int)
    ensures k * d + d == (k + 1) * d
  {
  }

  /** The tone and the segment end where the numbers of ticks say. */
  lemma TickCounts(cfg: Config, k: nat)
    requires cfg.frame > 0 && k < TicksOfTone(cfg)
    ensures var m := TicksOfSegment(cfg);
            && k * cfg.frame + cfg.frame == (k + 1) * cfg.frame
            && ((k + 1) * cfg.frame >= cfg.tone <==> k + 1 == TicksOfTone(cfg))
            && (k % m * cfg.frame + cfg.frame > 0xFFFF <==> k % m == m - 1)
            && (k + 1) % m == (if k % m == m - 1 then 0 else k % m + 1)
            && k % m * cfg.frame + cfg.frame == (k % m + 1) * cfg.frame
  {
    hide TicksOfTone, TicksOfSegment;
    var n, m, d := TicksOfTone(cfg), TicksOfSegment(cfg), cfg.frame;
    assert n * d >= cfg.tone && (n > 1 ==> (n - 1) * d < cfg.tone);
    assert (m - 1) * d <= 0xFFFF < m * d;
    Distribute(k, d);
    Distribute(k % m, d);
    NextResidue(k, m);
    if k + 1 < n { Ordered(k + 1, n - 1, d); }
    if k % m < m - 1 { Ordered(k % m + 1, m - 1, d); }
  }

  lemma Ordered(a: nat, b: nat, d: nat)
    requires a <= b
    ensures a * d <= b * d
  {
    if a < b { MulStep(a, b, d); }
  }

  lemma NextResidue(k: nat, m: nat)
    requires m > 0
    ensures (k + 1) % m == (if k % m == m - 1 then 0 else k % m + 1)
  {
    if k % m == m - 1 {
      Distribute(k / m, m);
      DivModUnique(k + 1, m, k / m + 1, 0);
    } else {
      DivModUnique(k + 1, m, k / m, k % m + 1);
    }
  }

  /** A tick within the tone. */
  lemma ToneStep(cfg: Config, g: Generator, k: nat)
    requires cfg.frame > 0 && cfg.ptime <= TIME_BASE && ToneAt(cfg, g, k)
    ensures var (r, f) := ToneTick(cfg, g);
            && (k + 1 < TicksOfTone(cfg) ==> ToneAt(cfg, r, k + 1))
            && (k + 1 == TicksOfTone(cfg) ==> r.state == Ending && r.counter == 0 && f.NamedEvent? && f.edge)
            && (k + 1 == TicksOfTone(cfg) ==>
                  && f.duration == LastDuration(cfg)
                  && EndDuration(r) == if EndsNewSegment(cfg) then 0xFFFF else f.duration)
  {
    TickCounts(cfg, k);
    hide TicksOfTone, TicksOfSegment;
  }

  /** Each operation of a run keeps the tone in step. */
  lemma OpInStep(cfg: Config, s: System, op: Op)
    requires cfg.frame > 0 && cfg.ptime <= TIME_BASE && InStep(cfg, s.gen)
    ensures InStep(cfg, Step(cfg, s, op).gen)
  {
    if op == Tick { TickInStep(cfg, s.gen); }
    hide PutFrame;
    if op.Queue? && s.gen.state == Tone {
      var k: nat :| k > 0 && ToneAt(cfg, s.gen, k);
      assert ToneAt(cfg, Step(cfg, s, op).gen, k);
    }
  }

  /** The tick that a generator in step is at, a tone beginning with this tick included. */
  lemma TickOf(cfg: Config, g: Generator) returns (k: nat)
    requires cfg.frame > 0 && InStep(cfg, g) && StartNext(cfg, g).state == Tone
    ensures ToneAt(cfg, StartNext(cfg, g), k)
  {
    StartsTone(cfg, g);
    if g.state == Tone {
      k :| k > 0 && ToneAt(cfg, g, k);
    } else {
      k := 0;
      hide TicksOfTone, TicksOfSegment;
    }
  }

  lemma TickInStep(cfg: Config, g: Generator)
    requires cfg.frame > 0 && cfg.ptime <= TIME_BASE && InStep(cfg, g)
    ensures InStep(cfg, PutFrame(cfg, g).0)
  {
    var g1 := StartNext(cfg, g);
    if g1.state == Tone {
      var k := TickOf(cfg, g);
      ToneStep(cfg, g1, k);
    }
    hide StartNext, ToneAt;
  }

  lemma {:induction false} RunInStep(cfg: Config, ops: seq<Op>)
    requires cfg.frame > 0 && cfg.ptime <= TIME_BASE
    ensures InStep(cfg, Run(cfg, ops).gen)
  {
    if ops == [] {
    } else {
      RunInStep(cfg, ops[..|ops| - 1]);
      OpInStep(cfg, Run(cfg, ops[..|ops| - 1]), ops[|ops| - 1]);
    }
  }

  /** The tick after a run is the end of a tone. */
  predicate EndsTone(cfg: Config, g: Generator) { g.state != Ending && PutFrame(cfg, g).0.state == Ending }

  /** The end of a tone and the frames of the next two ticks. */
  function EndFrames(cfg: Config, g: Generator): (Frame, Frame, Frame) {
    var (g1, f) := PutFrame(cfg, g);
    var (g2, f1) := PutFrame(cfg, g1);
    (f, f1, PutFrame(cfg, g2).1)
  }

  /** The tick after a run ends a tone with the first duration, and the two ticks after it repeat the
      end with the other one. */
  ghost predicate EndsWith(cfg: Config, ops: seq<Op>, first: nat, again: nat) {
    var (f, f1, f2) := EndFrames(cfg, Run(cfg, ops).gen);
    && f.NamedEvent? && f == NamedEvent(f.eventId, EndOfEvent, true, first)
    && f1 == f2 == NamedEvent(f.eventId, EndOfEvent, true, again)
  }

  /** Over every run: at the end of a tone three frames with the end marker follow one another, of
      which the retransmitted two are the same. The first tells how long the last segment was; the
      others repeat it unless the tone ends in the first tick of a further segment. */
  lemma EndDurations(cfg: Config, ops: seq<Op>)
    requires cfg.frame > 0 && cfg.ptime <= TIME_BASE && EndsTone(cfg, Run(cfg, ops).gen)
    ensures EndsWith(cfg, ops, LastDuration(cfg), if EndsNewSegment(cfg) then 0xFFFF else LastDuration(cfg))
  {
    hide StartNext, TicksOfTone, TicksOfSegment, EndsNewSegment, LastDuration, InStep, ToneAt, Run;
    var g := Run(cfg, ops).gen;
    RunInStep(cfg, ops);
    StartsTone(cfg, g);
    var g1 := StartNext(cfg, g);
    var k := TickOf(cfg, g);
    LastTick(cfg, g1, k);
    var r := ToneTick(cfg, g1).0;
    EndIsRepeated(cfg, r);
    IsItself(cfg, r);
    IsItself(cfg, EndingTick(cfg, r).0);
  }

  /** The tick in which a tone ends. */
  lemma LastTick(cfg: Config, g: Generator, k: nat)
    requires cfg.frame > 0 && cfg.ptime <= TIME_BASE && ToneAt(cfg, g, k) && ToneTick(cfg, g).0.state == Ending
    ensures var (r, f) := ToneTick(cfg, g);
            && r.counter == 0 && r.eventId == g.eventId
            && f == NamedEvent(g.eventId, EndOfEvent, true, LastDuration(cfg))
            && EndDuration(r) == if EndsNewSegment(cfg) then 0xFFFF else LastDuration(cfg)
  {
    hide TicksOfTone, TicksOfSegment, LastDuration, EndsNewSegment;
    ToneStep(cfg, g, k);
  }

  lemma IsItself(cfg: Config, g: Generator)
    requires g.state == Ending
    ensures StartNext(cfg, g) == g
  {
  }

  /** While the end is retransmitted its duration stays the same; there are two retransmissions if
      every tick sends an event. */
  lemma EndIsRepeated(cfg: Config, g: Generator)
    requires g.state == Ending && g.counter == 0 && cfg.ptime <= TIME_BASE
    ensures var (g1, f1) := EndingTick(cfg, g);
            var (g2, f2) := EndingTick(cfg, g1);
            && f1 == f2 == NamedEvent(g.eventId, EndOfEvent, true, EndDuration(g))
            && g1.state == Ending && g2.state == Silence && EndDuration(g2) == EndDuration(g)
  {
  }

  /** A digit and `k` ticks. */
  function Press(k: nat): seq<Op> { [Queue("1")] + seq(k, _ => Tick) }

  /** The ticks of a tone are all reached. */
  lemma {:induction false} ToneReached(cfg: Config, k: nat)
    requires cfg.frame > 0 && cfg.ptime <= TIME_BASE && k < TicksOfTone(cfg)
    ensures var g := Run(cfg, Press(k)).gen;
            && ToneAt(cfg, StartNext(cfg, g), k)
            && (k == 0 ==> g.state == Idle)
            && (k > 0 ==> ToneAt(cfg, g, k))
  {
    hide TicksOfTone, TicksOfSegment, ToneTick;
    if k == 0 {
      Pressed(cfg);
    } else {
      var last := Press(k)[..|Press(k)| - 1];
      assert last == Press(k - 1);
      ToneReached(cfg, k - 1);
      ToneStep(cfg, StartNext(cfg, Run(cfg, last).gen), k - 1);
    }
  }

  lemma Pressed(cfg: Config)
    requires cfg.frame > 0
    ensures var g := Run(cfg, Press(0)).gen; g.state == Idle && ToneAt(cfg, StartNext(cfg, g), 0)
  {
    assert Press(0) == [Queue("1")] && Press(0)[..0] == [];
  }

  /** For every configuration there is a run that ends a tone. */
  lemma EndIsReached(cfg: Config)
    requires cfg.frame > 0 && cfg.ptime <= TIME_BASE
    ensures EndsTone(cfg, Run(cfg, Press(TicksOfTone(cfg) - 1)).gen)
  {
    var k := TicksOfTone(cfg) - 1;
    ToneReached(cfg, k);
    var g := Run(cfg, Press(k)).gen;
    ToneStep(cfg, StartNext(cfg, g), k);
    hide TicksOfTone, TicksOfSegment, ToneTick, StartNext;
  }

  /** The ends of every run repeat the duration of the first one if and only if the tone does not end
      in the first tick of a further segment. */
  lemma EndsAgreeIff(cfg: Config)
    requires cfg.frame > 0 && cfg.ptime <= TIME_BASE
    ensures (forall ops :: EndsTone(cfg, Run(cfg, ops).gen) ==>
              EndsWith(cfg, ops, LastDuration(cfg), LastDuration(cfg)))
            <==> !EndsNewSegment(cfg)
  {
    forall ops | EndsTone(cfg, Run(cfg, ops).gen)
      ensures EndsWith(cfg, ops, LastDuration(cfg), LastDuration(cfg)) <==> !EndsNewSegment(cfg)
    {
      EndDurations(cfg, ops);
      if EndsNewSegment(cfg) { LastIsShort(cfg); }
      hide LastDuration, EndsNewSegment, EndFrames, Run;
    }
    EndIsReached(cfg);
    hide EndsWith, EndsTone, EndsNewSegment, LastDuration, Run, Press;
  }

  lemma LastIsShort(cfg: Config)
    requires cfg.frame > 0 && EndsNewSegment(cfg)
    ensures LastDuration(cfg) == cfg.frame < 0xFFFF
  {
    hide TicksOfTone, TicksOfSegment;
  }

  /** A tone of 8210 ms at 8000 Hz, pressed once: it lasts 821 ticks, 820 of which fill a segment, and
      ends with a duration of 80, retransmitted twice as 65535. */
  lemma EndsDisagree()
    ensures var cfg := Config(65680, 0, 80, 10); EndsWith(cfg, Press(820), 80, 0xFFFF)
  {
    hide EndsWith, Press, EndsTone;
    var cfg := Config(65680, 0, 80, 10);
    assert TicksOfTone(cfg) == 821 && TicksOfSegment(cfg) == 820;
    EndIsReached(cfg);
    EndDurations(cfg, Press(820));
  }

  // ---------------------------------------------------------------- the objects themselves

  class DtmfGenerator {
    const cfg: Config
    var state: GenState
    var queue: string
    var eventId: uint8
    var counter: nat
    var eventDuration: nat
    var sinceLast: nat
    var newSegment: bool

    ghost function Value(): Generator
      reads this
    {
      Generator(state, queue, eventId, counter, eventDuration, sinceLast, newSegment)
    }

    constructor (cfg: Config)
      ensures this.cfg == cfg && Value() == FRESH
    {
      this.cfg := cfg;
      state, queue, eventId, counter, eventDuration, sinceLast, newSegment := Idle, "", 0, 0, 0, 0, false;
    }

    method EnqueueDigits(digits: string) returns (ok: bool)
      modifies `queue
      ensures (Value(), ok) == Enqueue(old(Value()), digits)
    {
      if |queue| + |digits| > QUEUE_LEN { return false; }
      queue := queue + digits;
      ok := true;
    }

    method Reset()
      modifies `state, `queue
      ensures Value() == Stop(old(Value()))
    {
      state, queue := Idle, "";
    }

    method IsSending() returns (b: bool)
      ensures b == Sending(Value())
    {
      b := queue != "" || (state != Idle && state != Silence);
    }

    /** Takes the next valid digit from the queue and starts its tone. */
    method NextDigit()
      modifies `state, `queue, `eventId, `counter, `eventDuration, `sinceLast, `newSegment
      ensures Value() == StartNext(cfg, old(Value()))
    {
      if state != Idle || queue == "" { return; }
      ghost var (e, rest) := Take(queue);
      eventId := CharEvent(queue[0]);
      queue := queue[1..];
      while queue != "" && eventId > EVENT_ID_MAX
        invariant (e, rest) == if queue != "" && eventId > EVENT_ID_MAX then Take(queue) else (eventId, queue)
        invariant state == old(state) && counter == old(counter) && eventDuration == old(eventDuration)
        invariant sinceLast == old(sinceLast) && newSegment == old(newSegment)
        decreases |queue|
      {
        eventId := CharEvent(queue[0]);
        queue := queue[1..];
      }
      if eventId <= EVENT_ID_MAX {
        state, counter, eventDuration, sinceLast, newSegment := Tone, 0, 0, cfg.ptime, false;
      }
    }

    method Tick() returns (f: Frame)
      modifies this
      ensures (Value(), f) == PutFrame(cfg, old(Value()))
    {
      hide StartNext;
      NextDigit();
      ghost var g := Value();
      f := NoEvent;
      if state == Tone {
        counter := counter + cfg.frame;
        eventDuration := eventDuration + cfg.frame;
        sinceLast := sinceLast + TIME_BASE;
        if sinceLast < cfg.ptime { return; }
        sinceLast := 0;
        f := ToneFrame(g);
      } else if state == Ending {
        sinceLast := sinceLast + TIME_BASE;
        if sinceLast < cfg.ptime { return; }
        sinceLast := 0;
        counter := counter + 1;
        f := NamedEvent(eventId, EndOfEvent, true, if newSegment then 0xFFFF else eventDuration);
        if counter >= 2 {
          state := Silence;
          counter := counter * cfg.frame;
        }
      } else if state == Silence {
        counter := counter + cfg.frame;
        if counter >= cfg.silence { state := Idle; }
      }
    }

    /** The event of a tick within a tone, whose counters have been advanced since `g`. */
    method ToneFrame(ghost g: Generator) returns (f: Frame)
      requires state == Tone && sinceLast == 0 && g.sinceLast + TIME_BASE >= cfg.ptime
      requires Value() == g.(counter := g.counter + cfg.frame, eventDuration := g.eventDuration + cfg.frame,
                             sinceLast := 0)
      modifies `state, `counter, `eventDuration, `newSegment
      ensures (Value(), f) == ToneTick(cfg, g)
    {
      if counter >= cfg.tone {
        state, counter := Ending, 0;
        if eventDuration > 0xFFFF {
          newSegment, eventDuration := true, 0;
          f := NamedEvent(eventId, EndOfEvent, true, 0xFFFF);
        } else {
          f := NamedEvent(eventId, EndOfEvent, true, eventDuration);
        }
      } else {
        var marker := Unmarked;
        if counter == cfg.frame {
          marker := StartOfEvent;
        } else if newSegment {
          marker, newSegment := NewSegment, false;
        }
        if eventDuration > 0xFFFF {
          eventDuration, newSegment := 0, true;
          f := NamedEvent(eventId, marker, false, 0xFFFF);
        } else {
          f := NamedEvent(eventId, marker, false, eventDuration);
        }
      }
    }
  }

  class DtmfDetector {
    const buf: array<char>
    var digits: nat
    var lost: nat

    ghost predicate Valid()
      reads this
    {
      buf.Length == BUFFER_LEN && digits <= BUFFER_LEN
    }

    ghost function Value(): Detector
      requires Valid()
      reads this, buf
    {
      Detector(buf[..digits], lost)
    }

    constructor ()
      ensures Valid() && fresh(buf) && Value() == Detector("", 0)
    {
      buf := new char[BUFFER_LEN](_ => '\0');
      digits, lost := 0, 0;
    }

    method DigitAdd(digit: char)
      requires Valid()
      modifies this, buf
      ensures Valid() && Value() == AddDigit(old(Value()), digit)
    {
      if digit == '\0' { return; }
      if digits < BUFFER_LEN {
        buf[digits] := digit;
        digits := digits + 1;
      } else {
        lost := lost + 1;
      }
    }

    method FrameGet(f: Frame)
      requires Valid()
      modifies this, buf
      ensures Valid() && Value() == GetFrame(old(Value()), f)
    {
      if f.NamedEvent? && f.eventId <= EVENT_ID_MAX && f.marker == StartOfEvent { DigitAdd(EventChar(f.eventId)); }
    }

    /** Takes the oldest digit off the buffer; NUL if there is none. */
    method DigitGet() returns (digit: char)
      requires Valid()
      modifies `digits, buf
      ensures Valid() && lost == old(lost)
      ensures old(Value()).buf == "" ==> digit == '\0' && Value() == old(Value())
      ensures old(Value()).buf != "" ==> [digit] + Value().buf == old(Value()).buf
    {
      if digits == 0 { return '\0'; }
      digit := buf[0];
      forall k | 0 <= k < digits - 1 { buf[k] := buf[k + 1]; }
      digits := digits - 1;
    }
  }
}
