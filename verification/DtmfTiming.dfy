/** The timing of the DTMF generator: every frame of a digit, when the next digit starts, and that all of
    them do. */
module DtmfTiming {
  import opened Arith
  import opened Machine
  import opened Dtmf

  /** The configurations that generators are created with, whose events go out with every frame. */
  predicate Regular(cfg: Config) { cfg.frame > 0 && cfg.ptime <= TIME_BASE }

  // ---------------------------------------------------------------- the cycle of a digit

  /** How many ticks pass between two tones: the fewest that last as long as the silence, two of which
      retransmit the end of the first tone; and three at least. */
  function TicksOfQuiet(cfg: Config): (n: nat)
    requires cfg.frame > 0
    ensures n >= 3 && n * cfg.frame >= cfg.silence && (n > 3 ==> (n - 1) * cfg.frame < cfg.silence)
  {
    if cfg.silence <= 3 * cfg.frame then 3 else
      var q := (cfg.silence - 1) / cfg.frame;
      DivModUnique(cfg.silence - 1, cfg.frame, q, (cfg.silence - 1) % cfg.frame);
      QuietEnough(q, cfg.frame, cfg.silence);
      q + 1
  }

  lemma QuietEnough(q: nat, d: nat, silence: nat)
    requires d > 0 && silence > 3 * d && q * d <= silence - 1 < q * d + d
    ensures q >= 3 && (q + 1) * d >= silence && q * d < silence
  {
    if q < 3 { Ordered(q, 2, d); }
  }

  /** The ticks of a digit: its tone, and the quiet that follows. */
  function Cycle(cfg: Config): nat
    requires cfg.frame > 0
  {
    TicksOfTone(cfg) + TicksOfQuiet(cfg)
  }

  function Capped(duration: nat): nat { if duration > 0xFFFF then 0xFFFF else duration }

  /** The frame of tick `n` of the cycle of an event. */
  function FrameAt(cfg: Config, n: nat, id: uint8): Frame
    requires cfg.frame > 0
  {
    var last, m := TicksOfTone(cfg) - 1, TicksOfSegment(cfg);
    if n < last then
      var marker := if n == 0 then StartOfEvent else if n % m == 0 then NewSegment else Unmarked;
      NamedEvent(id, marker, false, Capped((n % m + 1) * cfg.frame))
    else if n == last then NamedEvent(id, EndOfEvent, true, LastDuration(cfg))
    else if n <= last + 2 then NamedEvent(id, EndOfEvent, true, EndAgain(cfg))
    else NoEvent
  }

  /** What the retransmitted ends say. */
  function EndAgain(cfg: Config): nat
    requires cfg.frame > 0
  {
    if EndsNewSegment(cfg) then 0xFFFF else LastDuration(cfg)
  }

  /** The generator has `n` ticks of a cycle behind it; none if it is idle. */
  ghost predicate At(cfg: Config, g: Generator, n: nat)
    requires cfg.frame > 0
  {
    var t := TicksOfTone(cfg);
    && n < Cycle(cfg)
    && if n == 0 then g.state == Idle
       else if n < t then ToneAt(cfg, g, n)
       else if n < t + 2 then g.state == Ending && g.counter == n - t && EndDuration(g) == EndAgain(cfg)
       else g.state == Silence && g.counter == (n - t) * cfg.frame
  }

  /** The next tick of the cycle; the last is followed by none. */
  function After(cfg: Config, n: nat): nat
    requires cfg.frame > 0
  {
    if n + 1 == Cycle(cfg) then 0 else n + 1
  }

  // ---------------------------------------------------------------- one tick

  lemma ToneFrame(cfg: Config, g: Generator, n: nat)
    requires Regular(cfg) && ToneAt(cfg, g, n)
    ensures var (r, f) := ToneTick(cfg, g);
            f == FrameAt(cfg, n, g.eventId) && r.eventId == g.eventId && r.queue == g.queue && At(cfg, r, n + 1)
  {
    hide TicksOfTone, TicksOfSegment, TicksOfQuiet, LastDuration, EndsNewSegment;
    ToneStep(cfg, g, n);
    TickCounts(cfg, n);
    if n + 1 == TicksOfTone(cfg) { LastTick(cfg, g, n); } else { ToneGoesOn(cfg, g, n); }
  }

  /** A tick of the tone that is not its last. */
  lemma ToneGoesOn(cfg: Config, g: Generator, n: nat)
    requires Regular(cfg) && ToneAt(cfg, g, n) && n + 1 < TicksOfTone(cfg)
    ensures ToneTick(cfg, g).1 == FrameAt(cfg, n, g.eventId)
  {
    hide TicksOfTone, TicksOfSegment, LastDuration, EndsNewSegment;
    TickCounts(cfg, n);
    FirstFrame(n, cfg.frame);
  }

  lemma FirstFrame(n: nat, d: nat)
    requires d > 0
    ensures n * d + d == d <==> n == 0
  {
    if n > 0 { Ordered(1, n, d); }
  }

  lemma EndingFrame(cfg: Config, g: Generator, n: nat)
    requires Regular(cfg) && At(cfg, g, n) && TicksOfTone(cfg) <= n < TicksOfTone(cfg) + 2
    ensures var (r, f) := EndingTick(cfg, g);
            f == FrameAt(cfg, n, g.eventId) && r.eventId == g.eventId && r.queue == g.queue && At(cfg, r, n + 1)
  {
    hide TicksOfTone, TicksOfSegment, TicksOfQuiet, LastDuration, EndsNewSegment;
  }

  /** The silence is over when the quiet has lasted as long as it should. */
  lemma SilentFrame(cfg: Config, g: Generator, n: nat)
    requires Regular(cfg) && At(cfg, g, n) && TicksOfTone(cfg) + 2 <= n
    ensures var (r, f) := PutFrame(cfg, g);
            f == FrameAt(cfg, n, g.eventId) && r.eventId == g.eventId && r.queue == g.queue
            && At(cfg, r, After(cfg, n))
  {
    hide TicksOfTone, TicksOfSegment, TicksOfQuiet, LastDuration, EndsNewSegment;
    var k, q := n - TicksOfTone(cfg), TicksOfQuiet(cfg);
    Distribute(k, cfg.frame);
    if k + 1 < q { Ordered(k + 1, q - 1, cfg.frame); }
  }

  /** A tick within a cycle. */
  lemma CycleTick(cfg: Config, g: Generator, n: nat)
    requires Regular(cfg) && At(cfg, g, n) && n > 0
    ensures var (r, f) := PutFrame(cfg, g);
            && f == FrameAt(cfg, n, g.eventId) && r.eventId == g.eventId && r.queue == g.queue
            && At(cfg, r, After(cfg, n))
  {
    hide TicksOfTone, TicksOfQuiet, FrameAt, ToneTick, EndingTick, ToneAt;
    if n < TicksOfTone(cfg) {
      ToneFrame(cfg, g, n);
      assert PutFrame(cfg, g) == ToneTick(cfg, g) by { RunsTone(cfg, g, n); }
    } else if n < TicksOfTone(cfg) + 2 {
      EndingFrame(cfg, g, n);
    } else {
      SilentFrame(cfg, g, n);
    }
  }

  lemma RunsTone(cfg: Config, g: Generator, n: nat)
    requires cfg.frame > 0 && ToneAt(cfg, g, n)
    ensures PutFrame(cfg, g) == ToneTick(cfg, g)
  {
    hide ToneTick, TicksOfTone, TicksOfSegment;
  }

  /** The tick that starts a digit. */
  lemma StartTick(cfg: Config, g: Generator)
    requires Regular(cfg) && g.state == Idle && Digits(g.queue) != ""
    ensures var (r, f) := PutFrame(cfg, g);
            var ds := Digits(g.queue);
            && StartNext(cfg, g).state == Tone
            && StartNext(cfg, g).eventId == r.eventId == CharEvent(ds[0]) <= EVENT_ID_MAX
            && EventChar(r.eventId) == ds[0]
            && f == FrameAt(cfg, 0, CharEvent(ds[0])) && At(cfg, r, 1)
            && Digits(r.queue) == ds[1..] && |r.queue| < |g.queue|
  {
    hide ToneTick, FrameAt, TicksOfTone, TicksOfQuiet, TicksOfSegment, CharEvent, EventChar;
    TakeDigits(g.queue);
    var (e, rest) := Take(g.queue);
    DigitsAreEvents(EventChar(e), e);
    var g1 := StartNext(cfg, g);
    assert ToneAt(cfg, g1, 0) by { Started(cfg, g1); }
    ToneFrame(cfg, g1, 0);
  }

  lemma Started(cfg: Config, g: Generator)
    requires cfg.frame > 0 && g.state == Tone && g.counter == 0 && g.eventDuration == 0 && !g.newSegment
    ensures ToneAt(cfg, g, 0)
  {
    hide TicksOfTone, TicksOfSegment;
  }

  /** A tick of an idle generator without digits takes the rest of the queue. */
  lemma IdleTick(cfg: Config, g: Generator)
    requires g.state == Idle && Digits(g.queue) == ""
    ensures var (r, f) := PutFrame(cfg, g); f == NoEvent && r.state == Idle && r.queue == ""
  {
    if g.queue != "" { TakeDigits(g.queue); }
    hide Take, Digits, CharEvent;
  }

  // ---------------------------------------------------------------- ticks in a row

  /** The generator after `k` ticks. */
  function Play(cfg: Config, g: Generator, k: nat): Generator {
    if k == 0 then g else PutFrame(cfg, Play(cfg, g, k - 1)).0
  }

  lemma {:induction false} PlayOn(cfg: Config, g: Generator, j: nat, k: nat)
    ensures Play(cfg, g, j + k) == Play(cfg, Play(cfg, g, j), k)
  {
    hide PutFrame;
    if k > 0 {
      PlayOn(cfg, g, j, k - 1);
      assert j + k - 1 == j + (k - 1);
    }
  }

  /** Ticks up to the end of a cycle. */
  lemma {:induction false} PlayCycle(cfg: Config, g: Generator, n: nat, k: nat)
    requires Regular(cfg) && At(cfg, g, n) && 0 < n < Cycle(cfg) && n + k <= Cycle(cfg)
    ensures var r := Play(cfg, g, k);
            && At(cfg, r, if n + k == Cycle(cfg) then 0 else n + k) && r.queue == g.queue && r.eventId == g.eventId
  {
    hide At, PutFrame, Cycle;
    if k > 0 {
      PlayCycle(cfg, g, n, k - 1);
      CycleTick(cfg, Play(cfg, g, k - 1), n + k - 1);
    }
  }

  /** The cycle of one digit, from idle to idle. */
  lemma PlayDigit(cfg: Config, g: Generator, k: nat)
    requires Regular(cfg) && g.state == Idle && Digits(g.queue) != "" && 0 < k <= Cycle(cfg)
    ensures var r, ds := Play(cfg, g, k), Digits(g.queue);
            && At(cfg, r, if k == Cycle(cfg) then 0 else k)
            && r.eventId == CharEvent(ds[0]) && Digits(r.queue) == ds[1..] && |r.queue| < |g.queue|
  {
    hide At, PutFrame, CharEvent, Digits, EventChar;
    StartTick(cfg, g);
    PlayOne(cfg, g);
    PlayCycle(cfg, Play(cfg, g, 1), 1, k - 1);
    PlayOn(cfg, g, 1, k - 1);
  }

  lemma PlayOne(cfg: Config, g: Generator)
    ensures Play(cfg, g, 1) == PutFrame(cfg, g).0
  {
    hide PutFrame;
    assert Play(cfg, g, 0) == g;
  }

  lemma {:induction false} PlayNothing(cfg: Config, g: Generator, k: nat)
    requires g.state == Idle && g.queue == ""
    ensures Play(cfg, g, k).state == Idle && Play(cfg, g, k).queue == ""
  {
    hide PutFrame;
    if k > 0 {
      PlayNothing(cfg, g, k - 1);
      IdleTick(cfg, Play(cfg, g, k - 1));
    }
  }

  /** Frame `j` of the signal of some digits: each takes a cycle, and there is silence behind the last. */
  function Signal(cfg: Config, digits: string, j: nat): Frame
    requires cfg.frame > 0
  {
    if digits == "" then NoEvent
    else if j < Cycle(cfg) then FrameAt(cfg, j, CharEvent(digits[0]))
    else Signal(cfg, digits[1..], j - Cycle(cfg))
  }

  /** The whole signal: the ticks of an idle generator send the digits of its queue, one cycle each, and
      nothing once there are none. */
  lemma {:induction false} SignalAt(cfg: Config, g: Generator, j: nat)
    requires Regular(cfg) && g.state == Idle
    ensures PutFrame(cfg, Play(cfg, g, j)).1 == Signal(cfg, Digits(g.queue), j)
    decreases j
  {
    hide PutFrame, FrameAt, CharEvent, Digits, EventChar, At, Cycle, Take;
    CycleIsLong(cfg);
    var c := Cycle(cfg);
    if Digits(g.queue) == "" {
      SilentSignal(cfg, g, j);
    } else if j == 0 {
      StartTick(cfg, g);
    } else if j < c {
      PlayDigit(cfg, g, j);
      CycleTick(cfg, Play(cfg, g, j), j);
    } else {
      PlayDigit(cfg, g, c);
      IsIdle(cfg, Play(cfg, g, c));
      SignalAt(cfg, Play(cfg, g, c), j - c);
      PlayOn(cfg, g, c, j - c);
    }
  }

  lemma CycleIsLong(cfg: Config)
    requires cfg.frame > 0
    ensures Cycle(cfg) >= 4
  {
  }

  lemma IsIdle(cfg: Config, g: Generator)
    requires cfg.frame > 0 && At(cfg, g, 0)
    ensures g.state == Idle
  {
  }

  lemma SilentSignal(cfg: Config, g: Generator, j: nat)
    requires g.state == Idle && Digits(g.queue) == ""
    ensures PutFrame(cfg, Play(cfg, g, j)).1 == NoEvent
  {
    hide PutFrame, Digits;
    IdleTick(cfg, g);
    if j > 0 {
      PlayOne(cfg, g);
      PlayNothing(cfg, Play(cfg, g, 1), j - 1);
      PlayOn(cfg, g, 1, j - 1);
      NoDigits("");
      IdleTick(cfg, Play(cfg, g, j));
    }
  }

  // ---------------------------------------------------------------- over every run

  /** Wherever a run has taken the generator, it is at some tick of a cycle. */
  lemma {:induction false} RunAt(cfg: Config, ops: seq<Op>) returns (n: nat)
    requires Regular(cfg)
    ensures At(cfg, Run(cfg, ops).gen, n)
  {
    hide At, PutFrame, Cycle, Run;
    if ops == [] {
      SilentAt(cfg);
      n := 0;
    } else {
      var before, op := ops[..|ops| - 1], ops[|ops| - 1];
      var m := RunAt(cfg, before);
      n := StepAt(cfg, Run(cfg, before), op, m);
      RunNext(cfg, ops);
    }
  }

  lemma SilentAt(cfg: Config)
    requires Regular(cfg)
    ensures At(cfg, Run(cfg, []).gen, 0)
  {
  }

  lemma RunNext(cfg: Config, ops: seq<Op>)
    requires ops != []
    ensures Run(cfg, ops) == Step(cfg, Run(cfg, ops[..|ops| - 1]), ops[|ops| - 1])
  {
    hide Step;
  }

  /** How each operation moves the generator through its cycle. */
  lemma StepAt(cfg: Config, s: System, op: Op, n: nat) returns (m: nat)
    requires Regular(cfg) && At(cfg, s.gen, n)
    ensures At(cfg, Step(cfg, s, op).gen, m)
    ensures !op.Reset? && n > 0 ==>
              && m == (if op.Tick? then After(cfg, n) else n) && Step(cfg, s, op).started == s.started
    ensures !op.Reset? && !op.Tick? ==> m == n && Step(cfg, s, op).started == s.started
  {
    hide PutFrame, TicksOfTone, TicksOfQuiet, At, Take, CharEvent, Digits;
    match op
    case Queue(digits) =>
      m := n;
      SameAt(cfg, s.gen, Step(cfg, s, op).gen, n);
    case Get => m := n;
    case Reset =>
      m := 0;
      StoppedAt(cfg, s.gen);
    case Tick =>
      if n > 0 {
        CycleTick(cfg, s.gen, n);
        NotIdle(cfg, s.gen, n);
        m := After(cfg, n);
      } else {
        IsIdle(cfg, s.gen);
        m := IdleAt(cfg, s.gen);
      }
  }

  lemma SameAt(cfg: Config, g: Generator, h: Generator, n: nat)
    requires cfg.frame > 0 && At(cfg, g, n) && h == g.(queue := h.queue)
    ensures At(cfg, h, n)
  {
    hide TicksOfTone, TicksOfSegment, TicksOfQuiet, LastDuration, EndsNewSegment;
  }

  lemma StoppedAt(cfg: Config, g: Generator)
    requires cfg.frame > 0
    ensures At(cfg, Stop(g), 0)
  {
  }

  lemma NotIdle(cfg: Config, g: Generator, n: nat)
    requires cfg.frame > 0 && At(cfg, g, n) && n > 0
    ensures g.state != Idle
  {
  }

  lemma IdleAt(cfg: Config, g: Generator) returns (m: nat)
    requires Regular(cfg) && g.state == Idle
    ensures At(cfg, PutFrame(cfg, g).0, m)
  {
    hide PutFrame, Digits, TicksOfTone, TicksOfQuiet;
    if Digits(g.queue) == "" {
      IdleTick(cfg, g);
      m := 0;
    } else {
      StartTick(cfg, g);
      m := 1;
    }
  }

  function Ticks(ops: seq<Op>): nat {
    if ops == [] then 0 else Ticks(ops[..|ops| - 1]) + if ops[|ops| - 1].Tick? then 1 else 0
  }

  ghost predicate NoReset(ops: seq<Op>) { forall i :: 0 <= i < |ops| ==> !ops[i].Reset? }

  /** Up to the end of the cycle under way, whatever is queued or fetched meanwhile, nothing is started. */
  lemma {:induction false} CycleRuns(cfg: Config, ops: seq<Op>, more: seq<Op>, n: nat)
    requires Regular(cfg) && At(cfg, Run(cfg, ops).gen, n) && 0 < n < Cycle(cfg)
    requires NoReset(more) && n + Ticks(more) <= Cycle(cfg)
    ensures At(cfg, Run(cfg, ops + more).gen, if n + Ticks(more) == Cycle(cfg) then 0 else n + Ticks(more))
    ensures Run(cfg, ops + more).started == Run(cfg, ops).started
  {
    hide At, Step, Cycle, Run;
    if more == [] {
      assert ops + more == ops;
    } else {
      var before, op := more[..|more| - 1], more[|more| - 1];
      CycleRuns(cfg, ops, before, n);
      var all := ops + more;
      assert all[..|all| - 1] == ops + before && all[|all| - 1] == op;
      RunNext(cfg, all);
      var k := n + Ticks(before);
      var m := StepAt(cfg, Run(cfg, ops + before), op, if k == Cycle(cfg) then 0 else k);
    }
  }

  /** After a tone, the next digit starts when the silence has lasted as configured, the retransmitted ends
      counted, and not before. */
  lemma NextDigitStarts(cfg: Config, ops: seq<Op>, more: seq<Op>)
    requires Regular(cfg) && EndsTone(cfg, Run(cfg, ops).gen) && NoReset(more)
    requires Ticks(more) <= TicksOfQuiet(cfg)
    ensures var ended, s := Run(cfg, ops + [Tick]), Run(cfg, ops + [Tick] + more);
            && s.started == ended.started
            && (s.gen.state == Idle <==> Ticks(more) == TicksOfQuiet(cfg))
            && (Ticks(more) == TicksOfQuiet(cfg) && Digits(s.gen.queue) != "" ==>
                 Run(cfg, ops + [Tick] + more + [Tick]).started == s.started + [Digits(s.gen.queue)[0]])
  {
    hide At, Run, TicksOfTone, TicksOfQuiet, PutFrame, Digits, Step;
    var ended := ops + [Tick];
    assert ended[..|ended| - 1] == ops;
    RunNext(cfg, ended);
    EndedAt(cfg, ops);
    CycleRuns(cfg, ended, more, TicksOfTone(cfg));
    var s := Run(cfg, ended + more);
    if Ticks(more) == TicksOfQuiet(cfg) {
      IsIdle(cfg, s.gen);
      if Digits(s.gen.queue) != "" {
        var all := ended + more + [Tick];
        assert all[..|all| - 1] == ended + more;
        RunNext(cfg, all);
        StartsNow(cfg, s);
      }
    } else {
      NotIdle(cfg, s.gen, TicksOfTone(cfg) + Ticks(more));
    }
  }

  lemma StartsNow(cfg: Config, s: System)
    requires Regular(cfg) && s.gen.state == Idle && Digits(s.gen.queue) != ""
    ensures Step(cfg, s, Tick).started == s.started + [Digits(s.gen.queue)[0]]
  {
    hide PutFrame, StartNext, Digits, At, FrameAt;
    StartTick(cfg, s.gen);
  }

  /** A generator whose tone has just ended has the ticks of the tone behind it. */
  lemma EndedAt(cfg: Config, ops: seq<Op>)
    requires Regular(cfg) && EndsTone(cfg, Run(cfg, ops).gen)
    ensures At(cfg, Step(cfg, Run(cfg, ops), Tick).gen, TicksOfTone(cfg)) && TicksOfTone(cfg) < Cycle(cfg)
  {
    hide Run, TicksOfTone, TicksOfQuiet, PutFrame, Digits, At;
    var g := Run(cfg, ops).gen;
    var n := RunAt(cfg, ops);
    var r := PutFrame(cfg, g).0;
    if n > 0 {
      CycleTick(cfg, g, n);
      EndingAt(cfg, g, r, n);
    } else {
      IsIdle(cfg, g);
      if Digits(g.queue) == "" {
        IdleTick(cfg, g);
      } else {
        StartTick(cfg, g);
        EndingAt(cfg, g, r, 0);
      }
    }
  }

  lemma EndingAt(cfg: Config, g: Generator, r: Generator, n: nat)
    requires cfg.frame > 0 && At(cfg, g, n) && At(cfg, r, After(cfg, n)) && g.state != Ending && r.state == Ending
    ensures n + 1 == TicksOfTone(cfg) < Cycle(cfg) && After(cfg, n) == TicksOfTone(cfg)
  {
    hide TicksOfTone, TicksOfQuiet, TicksOfSegment;
  }

  // ---------------------------------------------------------------- progress

  /** Enough ticks for what is queued, a cycle for each character and one for the digit under way. */
  lemma {:induction false} PlayEnds(cfg: Config, g: Generator, n: nat, k: nat)
    requires Regular(cfg) && At(cfg, g, n)
    requires k >= |g.queue| * Cycle(cfg) + if n == 0 then 0 else Cycle(cfg) - n
    ensures Play(cfg, g, k).state == Idle && Play(cfg, g, k).queue == ""
    decreases k
  {
    hide At, PutFrame, Digits, Cycle;
    CycleIsLong(cfg);
    WithinCycle(cfg, g, n);
    var c := Cycle(cfg);
    if n > 0 {
      PlayCycle(cfg, g, n, c - n);
      PlayOn(cfg, g, c - n, k - (c - n));
      PlayEnds(cfg, Play(cfg, g, c - n), 0, k - (c - n));
    } else {
      IsIdle(cfg, g);
      if g.queue == "" {
        PlayNothing(cfg, g, k);
      } else {
        FewerCycles(|g.queue|, |g.queue| - 1, c);
        if Digits(g.queue) == "" {
          IdleTick(cfg, g);
          PlayOne(cfg, g);
          PlayNothing(cfg, Play(cfg, g, 1), k - 1);
          PlayOn(cfg, g, 1, k - 1);
        } else {
          PlayDigit(cfg, g, c);
          FewerCycles(|g.queue|, |Play(cfg, g, c).queue|, c);
          PlayOn(cfg, g, c, k - c);
          PlayEnds(cfg, Play(cfg, g, c), 0, k - c);
        }
      }
    }
  }

  lemma WithinCycle(cfg: Config, g: Generator, n: nat)
    requires cfg.frame > 0 && At(cfg, g, n)
    ensures n < Cycle(cfg)
  {
  }

  lemma FewerCycles(q: nat, r: nat, c: nat)
    requires r < q && c > 0
    ensures r * c + c <= q * c && c <= q * c
  {
    MulStep(r, q, c);
    Product(r, c);
  }

  /** `k` ticks more. */
  function Idling(k: nat): seq<Op> { seq(k, _ => Tick) }

  lemma {:induction false} RunPlays(cfg: Config, ops: seq<Op>, k: nat)
    ensures Run(cfg, ops + Idling(k)).gen == Play(cfg, Run(cfg, ops).gen, k)
    ensures Run(cfg, ops + Idling(k)).accepted == Run(cfg, ops).accepted
  {
    hide PutFrame, StartNext, Run;
    var all := ops + Idling(k);
    if k == 0 {
      assert all == ops;
    } else {
      assert all[..|all| - 1] == ops + Idling(k - 1);
      RunNext(cfg, all);
      RunPlays(cfg, ops, k - 1);
    }
  }

  /** From wherever a run has taken the generator, so many ticks that every character queued has its cycle,
      after the one under way, leave it not sending; and every valid digit accepted has been started. */
  lemma AllDigitsStart(cfg: Config, ops: seq<Op>, k: nat)
    requires Regular(cfg) && k >= (|Run(cfg, ops).gen.queue| + 1) * Cycle(cfg)
    ensures var s := Run(cfg, ops + Idling(k));
            !Sending(s.gen) && s.started == Digits(s.accepted) == Digits(Run(cfg, ops).accepted)
  {
    hide At, Run, Play, Cycle, Digits;
    var g := Run(cfg, ops).gen;
    var n := RunAt(cfg, ops);
    WithinCycle(cfg, g, n);
    Distribute(|g.queue|, Cycle(cfg));
    PlayEnds(cfg, g, n, k);
    RunPlays(cfg, ops, k);
    SentIsStarted(cfg, ops + Idling(k));
  }
}
