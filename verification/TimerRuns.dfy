/** Whole runs of the timer queue: when its reports are those the deadlines call for, and when not. */
module TimerRuns {
  import opened Machine
  import opened TimerQueue
  import opened TimerDeadlines
  import opened TimerRefinement

  // ---------------------------------------------------------------- runs

  /** No timer lies at zero; so it is between operations. */
  ghost predicate Positive(ring: seq<Entry>) { forall i :: 0 <= i < |ring| ==> 0 < ring[i].at }

  /** No procedure of an advance arms a timer that is linked at zero. */
  ghost predicate Serviceable(q: State, op: Op)
    requires GentleOp(op)
  {
    op.Pass? && Running(q) ==> WorkableScript(Tick(q, op.time), op.script)
  }

  /** The 32-bit clock does not wrap in an advance, no timer is overdue when it is rebased, and no
      procedure addresses a timer linked at zero: one due exactly at the rebase. */
  ghost predicate Sound(q: State, op: Op)
    requires GentleOp(op)
  {
    op.Pass? && Running(q) ==> Timely(q, op.time) && HeededScript(Tick(q, op.time), op.script)
  }

  ghost predicate ServiceableRun(q: State, ops: seq<Op>)
    requires GentleRun(ops)
    decreases |ops|
  {
    ops == [] || (Serviceable(q, ops[0]) && ServiceableRun(Step(q, ops[0]).0, ops[1..]))
  }

  ghost predicate SoundRun(q: State, ops: seq<Op>)
    requires GentleRun(ops)
    decreases |ops|
  {
    ops == [] || (Sound(q, ops[0]) && SoundRun(Step(q, ops[0]).0, ops[1..]))
  }

  // ---------------------------------------------------------------- no timer stays at zero

  lemma {:induction false} WithoutPositive(ring: seq<Entry>, t: Timer)
    requires Positive(ring)
    ensures Positive(Without(ring, t))
  {
    if ring != [] && ring[0].timer != t { WithoutPositive(ring[1..], t); }
  }

  lemma InsertPositive(ring: seq<Entry>, e: Entry)
    requires Positive(ring) && 0 < e.at
    ensures Positive(Insert(ring, e))
  {
    var p := InsertAt(ring, e);
  }

  lemma ObeyPositive(q: State, c: Command)
    requires Positive(q.ring) && q.elapsed <= 0xFFFF && (c.Set? ==> c.timeout < LIMIT)
    ensures Positive(Obey(q, c).ring)
  {
    WithoutPositive(q.ring, c.timer);
    hide Without, Scheduled, Insert;
    if c.Set? && c.timeout != 0 {
      var q1 := if Scheduled(q.ring, c.timer) != 0 then RemoveTimer(q, c.timer) else q;
      InsertPositive(q1.ring, Entry(c.timer, q1.elapsed + c.timeout));
    }
  }

  lemma {:induction false} ObeyAllPositive(q: State, cs: seq<Command>)
    requires Positive(q.ring) && q.elapsed <= 0xFFFF && Gentle(cs)
    ensures HeededAll(q, cs) && Positive(ObeyAll(q, cs).ring)
    decreases |cs|
  {
    if cs != [] {
      ObeyPositive(q, cs[0]);
      ObeyKeepsDue(q, cs[0]);
      hide Obey;
      ObeyAllPositive(Obey(q, cs[0]), cs[1..]);
    }
  }

  /** An advance that leaves no timer due leaves none at zero. */
  lemma QuietIsPositive(q: State, base: nat, a: Clock)
    requires Models(q, base, a) && Quiet(a)
    ensures Positive(q.ring)
  {
    forall i | 0 <= i < |q.ring| ensures 0 < q.ring[i].at {
      assert q.ring[i].timer in a.armed;
    }
  }

  // ---------------------------------------------------------------- sound runs behave

  lemma RunningIsTicking(q: State, base: nat, a: Clock)
    requires Models(q, base, a)
    ensures Running(q) <==> Ticking(a)
  {
    if q.ring != [] { assert q.ring[0].timer in a.armed; }
    if a.armed != map[] {
      var t :| t in a.armed;
      assert Linked(q.ring, t);
    }
  }

  lemma StepModels(q: State, base: nat, a: Clock, op: Op) returns (base1: nat)
    requires Models(q, base, a) && GentleOp(op) && q.elapsed <= 0xFFFF && Quiet(a) && Sound(q, op)
    ensures var (q1, fired) := Step(q, op);
            && Allowed(a, op, fired) && Models(q1, base1, Next(a, op, fired))
            && q1.elapsed <= 0xFFFF && Quiet(Next(a, op, fired))
  {
    hide Models, Fire, After, Legal, Rebase, HeededScript, Fits;
    match op
    case Do(c) =>
      QuietIsPositive(q, base, a);
      ObeyKeepsDue(q, c);
      GentleFits(q, c);
      ApplyKeepsQuiet(a, c);
      base1 := ObeyModels(q, base, a, c);
    case Pass(time, script) =>
      RunningIsTicking(q, base, a);
      base1 := base;
      if Running(q) {
        base1 := TickModels(q, base, a, time);
        var b := a.(now := a.now + time);
        base1 := FireModels(Tick(q, time), base1, b, script);
        ReportsExact(b, script, Fire(Tick(q, time), script).1);
      }
    case Ask =>
      base1 := base;
      PollModels(q, base, a);
  }

  lemma PollModels(q: State, base: nat, a: Clock)
    requires Models(q, base, a)
    ensures Models(Poll(q), base, a.(frozen := false))
  {
  }

  /** Refinement: over every sound run the queue reports what the deadlines call for, however often its
      clock is rebased in between. */
  lemma {:induction false} RunBehaves(q: State, base: nat, a: Clock, ops: seq<Op>)
    requires Models(q, base, a) && q.elapsed <= 0xFFFF && Quiet(a) && GentleRun(ops) && SoundRun(q, ops)
    ensures Behaves(a, ops, Reports(q, ops))
    decreases |ops|
  {
    hide Models, Quiet, Allowed, Next, Step, Sound;
    if ops != [] {
      var base1 := StepModels(q, base, a, ops[0]);
      RunBehaves(Step(q, ops[0]).0, base1, Next(a, ops[0], Step(q, ops[0]).1), ops[1..]);
    }
  }

  // ---------------------------------------------------------------- a timer killed at zero

  /** The timer is linked at zero, with nothing but zeros before it. */
  ghost predicate Haunted(ring: seq<Entry>, t: Timer) {
    exists p :: 0 <= p < |ring| && ring[p] == Entry(t, 0) && forall i :: 0 <= i < p ==> ring[i].at == 0
  }

  lemma HauntedShift(e: Entry, ring: seq<Entry>, t: Timer)
    ensures Haunted([e] + ring, t) ==> e == Entry(t, 0) || (e.at == 0 && Haunted(ring, t))
    ensures e == Entry(t, 0) || (e.at == 0 && Haunted(ring, t)) ==> Haunted([e] + ring, t)
  {
    var r := [e] + ring;
    if Haunted(r, t) {
      var p :| 0 <= p < |r| && r[p] == Entry(t, 0) && forall i :: 0 <= i < p ==> r[i].at == 0;
      if p > 0 {
        assert r[0].at == 0;
        assert ring[p - 1] == Entry(t, 0) && forall i :: 0 <= i < p - 1 ==> ring[i] == r[i + 1];
      }
    }
    if e == Entry(t, 0) {
      assert r[0] == Entry(t, 0);
    } else if e.at == 0 && Haunted(ring, t) {
      var p :| 0 <= p < |ring| && ring[p] == Entry(t, 0) && forall i :: 0 <= i < p ==> ring[i].at == 0;
      assert r[p + 1] == ring[p] && forall i :: 0 < i < p + 1 ==> r[i] == ring[i - 1];
    }
  }

  lemma {:induction false} HauntedWithout(ring: seq<Entry>, u: Timer, t: Timer)
    requires Haunted(ring, t) && u != t
    ensures Haunted(Without(ring, u), t)
  {
    assert ring == [ring[0]] + ring[1..];
    HauntedShift(ring[0], ring[1..], t);
    HauntedShift(ring[0], Without(ring[1..], u), t);
    hide Haunted;
    if ring[0].timer != u && ring[0] != Entry(t, 0) { HauntedWithout(ring[1..], u, t); }
  }

  lemma HauntedInsert(ring: seq<Entry>, e: Entry, t: Timer)
    requires Haunted(ring, t)
    ensures Haunted(Insert(ring, e), t)
  {
    var p := InsertAt(ring, e);
    var k :| 0 <= k < |ring| && ring[k] == Entry(t, 0) && forall i :: 0 <= i < k ==> ring[i].at == 0;
    assert Insert(ring, e)[k] == ring[k];
    hide Insert;
  }

  /** Nothing but its report takes a timer off that is linked at zero. */
  lemma ObeyHaunted(q: State, a: Clock, c: Command, t: Timer)
    requires Haunted(q.ring, t) && t !in a.armed && Workable(q, c)
    ensures Haunted(Obey(q, c).ring, t) && t !in Apply(a, c).armed
  {
    if c.timer != t {
      HauntedWithout(q.ring, c.timer, t);
      var q1 := if Scheduled(q.ring, c.timer) != 0 then RemoveTimer(q, c.timer) else q;
      if c.Set? { HauntedInsert(q1.ring, Entry(c.timer, U32(q1.elapsed + c.timeout)), t); }
      hide Insert, Without;
    } else {
      KilledTwice(q, t);
    }
  }

  lemma KilledTwice(q: State, t: Timer)
    requires Haunted(q.ring, t)
    ensures KillTimer(q, t) == q && !Discreet(q, t)
  {
    var p :| 0 <= p < |q.ring| && q.ring[p] == Entry(t, 0) && forall i :: 0 <= i < p ==> q.ring[i].at == 0;
    ScheduledZero(q.ring, t, p);
  }

  lemma {:induction false} ScheduledZero(ring: seq<Entry>, t: Timer, p: nat)
    requires p < |ring| && ring[p] == Entry(t, 0) && forall i :: 0 <= i < p ==> ring[i].at == 0
    ensures Scheduled(ring, t) == 0
  {
    if ring[0].timer != t { ScheduledZero(ring[1..], t, p - 1); }
  }

  lemma {:induction false} ObeyAllHaunted(q: State, a: Clock, cs: seq<Command>, t: Timer)
    requires Haunted(q.ring, t) && t !in a.armed && WorkableAll(q, cs)
    ensures Haunted(ObeyAll(q, cs).ring, t) && t !in ApplyAll(a, cs).armed
    decreases |cs|
  {
    hide Haunted, Obey, Apply, Workable;
    if cs != [] {
      ObeyHaunted(q, a, cs[0], t);
      ObeyAllHaunted(Obey(q, cs[0]), Apply(a, cs[0]), cs[1..], t);
    }
  }

  /** ... so it is reported although it is not armed any more. */
  lemma {:induction false} FireHaunted(q: State, a: Clock, script: Script, t: Timer)
    requires GentleScript(script) && q.elapsed <= 0xFFFF && WorkableScript(q, script)
    requires Haunted(q.ring, t) && t !in a.armed
    ensures !Legal(a, script, Fire(q, script).1)
    decreases Due(q.ring, q.elapsed)
  {
    var first, rest := q.ring[0], q.ring[1..];
    assert q.ring == [first] + rest;
    HauntedShift(first, rest, t);
    hide Haunted;
    if first.timer != t && IsNext(a, first.timer) {
      var q1 := q.(ring := rest);
      ObeyAllKeepsDue(q1, Head(script));
      ObeyAllHaunted(q1, a.(armed := a.armed - {first.timer}), Head(script), t);
      FireHaunted(ObeyAll(q1, Head(script)), Report(a, first.timer, Head(script)), Tail(script), t);
    }
  }

  /** A command not heeded is a kill that leaves its timer linked. */
  lemma NotHeededHaunts(q: State, base: nat, a: Clock, c: Command)
    requires Models(q, base, a) && Workable(q, c) && !Heeded(q, c)
    ensures Haunted(Obey(q, c).ring, c.timer) && c.timer !in Apply(a, c).armed
  {
    var i :| 0 <= i < |q.ring| && q.ring[i].timer == c.timer && q.ring[i].at == 0;
    ZeroReadsUnlinked(q, base, a, i);
    assert q.ring[i] == Entry(c.timer, 0);
  }

  lemma {:induction false} ObeyAllFails(q: State, base: nat, a: Clock, cs: seq<Command>) returns (t: Timer)
    requires Models(q, base, a) && q.elapsed <= 0xFFFF && Gentle(cs)
    requires WorkableAll(q, cs) && !HeededAll(q, cs)
    ensures Haunted(ObeyAll(q, cs).ring, t) && t !in ApplyAll(a, cs).armed
    decreases |cs|
  {
    hide Models, Haunted, Obey, Apply, Workable, Heeded;
    var q1, a1 := Obey(q, cs[0]), Apply(a, cs[0]);
    if Heeded(q, cs[0]) {
      ObeyKeepsDue(q, cs[0]);
      var base1 := ObeyModels(q, base, a, cs[0]);
      t := ObeyAllFails(q1, base1, a1, cs[1..]);
    } else {
      t := cs[0].timer;
      NotHeededHaunts(q, base, a, cs[0]);
      ObeyAllHaunted(q1, a1, cs[1..], t);
    }
  }

  /** An advance in which a timer linked at zero is killed reports it all the same. */
  lemma {:induction false} FireFails(q: State, base: nat, a: Clock, script: Script)
    requires GentleScript(script) && q.elapsed <= 0xFFFF && Models(q, base, a)
    requires WorkableScript(q, script) && !HeededScript(q, script)
    ensures !Legal(a, script, Fire(q, script).1)
    decreases Due(q.ring, q.elapsed)
  {
    PopModels(q, base, a);
    hide Models, IsNext, Quiet, HeededAll, WorkableAll;
    var q1, a1 := q.(ring := q.ring[1..]), a.(armed := a.armed - {q.ring[0].timer});
    var q2, a2 := ObeyAll(q1, Head(script)), Report(a, q.ring[0].timer, Head(script));
    ObeyAllKeepsDue(q1, Head(script));
    if HeededAll(q1, Head(script)) {
      var base1 := ObeyAllModels(q1, base, a1, Head(script));
      FireFails(q2, base1, a2, Tail(script));
    } else {
      var t := ObeyAllFails(q1, base, a1, Head(script));
      FireHaunted(q2, a2, Tail(script), t);
    }
  }

  /** If the clock wraps, or a timer is overdue when it is rebased, nothing is reported, although some
      timer is due. */
  lemma LateFails(q: State, base: nat, a: Clock, time: uint32, script: Script)
    requires Models(q, base, a) && Quiet(a) && q.ring != [] && q.elapsed <= 0xFFFF && GentleScript(script)
    requires !Timely(q, time)
    ensures Fire(Tick(q, time), script).1 == [] && !Quiet(a.(now := a.now + time))
  {
    var now, first := q.elapsed + time, q.ring[0];
    assert first.timer in a.armed && a.armed[first.timer].due == base + first.at;
    var i := 0;
    if now < 0x1_0000_0000 {
      i :| 0 <= i < |q.ring| && q.ring[i].at < now;
      assert i > 0 ==> Earlier(a.armed[first.timer], a.armed[q.ring[i].timer]);
    }
    assert a.armed[first.timer].due <= a.now + time;
    FrontLater(q, time);
    FireStops(Tick(q, time), script);
  }

  lemma FrontLater(q: State, time: uint32)
    requires q.ring != [] && q.elapsed <= 0xFFFF
    requires q.ring[0].at > q.elapsed
    requires q.elapsed + time >= 0x1_0000_0000 || (q.elapsed + time >= 0xFFFF && q.ring[0].at < q.elapsed + time)
    ensures var q1 := Tick(q, time); q1.ring != [] && q1.ring[0].at > q1.elapsed
  {
  }

  lemma StepFails(q: State, base: nat, a: Clock, op: Op)
    requires Models(q, base, a) && Quiet(a) && q.elapsed <= 0xFFFF && GentleOp(op)
    requires Serviceable(q, op) && !Sound(q, op)
    ensures !Allowed(a, op, Step(q, op).1)
  {
    hide Models, Fire, Quiet, Rebase, HeededScript, WorkableScript, Timely;
    RunningIsTicking(q, base, a);
    if Timely(q, op.time) {
      var base1 := TickModels(q, base, a, op.time);
      FireFails(Tick(q, op.time), base1, a.(now := a.now + op.time), op.script);
    } else {
      LateFails(q, base, a, op.time, op.script);
    }
  }

  /** The reports of a run are those the deadlines call for if and only if the clock never wraps, no timer
      is ever overdue at a rebase, and no procedure kills one due exactly at a rebase, whose scheduled
      time then reads as "not linked". */
  lemma {:induction false} RunBehavesIff(q: State, base: nat, a: Clock, ops: seq<Op>)
    requires Models(q, base, a) && q.elapsed <= 0xFFFF && Quiet(a)
    requires GentleRun(ops) && ServiceableRun(q, ops)
    ensures Behaves(a, ops, Reports(q, ops)) <==> SoundRun(q, ops)
    decreases |ops|
  {
    hide Models, Quiet, Allowed, Next, Step, Serviceable, Sound;
    if ops != [] {
      var (q1, fired) := Step(q, ops[0]);
      if Sound(q, ops[0]) {
        var base1 := StepModels(q, base, a, ops[0]);
        RunBehavesIff(q1, base1, Next(a, ops[0], fired), ops[1..]);
      } else {
        StepFails(q, base, a, ops[0]);
      }
    }
  }

  // ---------------------------------------------------------------- what a caller can check

  /** If the clock is rebased once `time` has passed, no timer is overdue then and at most one is due. */
  ghost predicate Guarded(q: State, time: uint32) {
    && Timely(q, time)
    && (q.elapsed + time >= 0xFFFF ==> forall i :: 1 <= i < |q.ring| ==> q.elapsed + time < q.ring[i].at)
  }

  /** With these procedures the advance reports what the deadlines call for. */
  ghost predicate Safe(q: State, time: uint32, script: Script) {
    GentleScript(script) ==> Serviceable(q, Pass(time, script)) && Sound(q, Pass(time, script))
  }

  lemma {:induction false} FirePositive(q: State, script: Script)
    requires q.ring == [] || Positive(q.ring[1..])
    requires q.elapsed <= 0xFFFF && GentleScript(script)
    ensures HeededScript(q, script) && WorkableScript(q, script)
    decreases Due(q.ring, q.elapsed)
  {
    if q.ring != [] && q.ring[0].at <= q.elapsed {
      var q1 := q.(ring := q.ring[1..]);
      ObeyAllPositive(q1, Head(script));
      HeededIsWorkable(q1, Head(script));
      ObeyAllKeepsDue(q1, Head(script));
      FirePositive(ObeyAll(q1, Head(script)), Tail(script));
    }
  }

  lemma {:induction false} HeededIsWorkable(q: State, cs: seq<Command>)
    requires HeededAll(q, cs)
    ensures WorkableAll(q, cs)
    decreases |cs|
  {
    hide Obey;
    if cs != [] { HeededIsWorkable(Obey(q, cs[0]), cs[1..]); }
  }

  /** An advance is safe with whatever procedures if and only if it is guarded. */
  lemma GuardIff(q: State, base: nat, a: Clock, time: uint32)
    requires Models(q, base, a) && q.elapsed <= 0xFFFF && Positive(q.ring) && Running(q)
    ensures (forall script :: Safe(q, time, script)) <==> Guarded(q, time)
  {
    hide Models, WorkableScript, HeededScript;
    if Guarded(q, time) {
      GuardLeavesPositive(q, time);
      forall script ensures Safe(q, time, script) {
        if GentleScript(script) { FirePositive(Tick(q, time), script); }
      }
    } else if !Timely(q, time) {
      assert !Safe(q, time, []);
    } else {
      var i :| 1 <= i < |q.ring| && q.elapsed + time == q.ring[i].at;
      KillsSecond(q, base, a, time, i);
      assert !Safe(q, time, [[Kill(q.ring[i].timer)]]);
    }
  }

  lemma GuardLeavesPositive(q: State, time: uint32)
    requires Guarded(q, time) && Positive(q.ring) && q.ring != []
    ensures Positive(Tick(q, time).ring[1..])
  {
  }

  /** Of two timers due at a rebase, the first may kill the second. */
  lemma KillsSecond(q: State, base: nat, a: Clock, time: uint32, i: nat)
    requires Models(q, base, a) && Timely(q, time) && 1 <= i < |q.ring|
    requires 0xFFFF <= q.elapsed + time == q.ring[i].at
    ensures !HeededScript(Tick(q, time), [[Kill(q.ring[i].timer)]])
  {
    var q1, t := Tick(q, time), q.ring[i].timer;
    assert Earlier(a.armed[q.ring[0].timer], a.armed[t]);
    assert q1.ring[0].at == 0 && q1.ring[i] == Entry(t, 0);
    var q2 := q1.(ring := q1.ring[1..]);
    assert q2.ring[i - 1] == Entry(t, 0);
    assert !Heeded(q2, Kill(t));
    hide Models, Rebase;
  }

  // ---------------------------------------------------------------- from the empty queue

  const EMPTY := State([], 0, false)

  const IDLE := Clock(0, 0, map[], false)

  /** A new queue behaves as its deadlines in every serviceable run, under the same condition. */
  lemma NewQueueBehavesIff(ops: seq<Op>)
    requires GentleRun(ops) && ServiceableRun(EMPTY, ops)
    ensures Behaves(IDLE, ops, Reports(EMPTY, ops)) <==> SoundRun(EMPTY, ops)
  {
    RunBehavesIff(EMPTY, 0, IDLE, ops);
  }

  /** A run of three operations, step by step. */
  lemma Unrolled(q: State, a: Clock, ops: seq<Op>, q1: State, q2: State, q3: State, fired: seq<Timer>)
    requires |ops| == 3 && GentleRun(ops)
    requires Step(q, ops[0]) == (q1, []) && Step(q1, ops[1]) == (q2, []) && Step(q2, ops[2]) == (q3, fired)
    ensures Run(q, ops) == q3 && Reports(q, ops) == [[], [], fired]
    ensures ServiceableRun(q, ops) <==>
            Serviceable(q, ops[0]) && Serviceable(q1, ops[1]) && Serviceable(q2, ops[2])
    ensures SoundRun(q, ops) <==> Sound(q, ops[0]) && Sound(q1, ops[1]) && Sound(q2, ops[2])
    ensures Behaves(a, ops, Reports(q, ops)) ==>
            Allowed(Next(Next(a, ops[0], []), ops[1], []), ops[2], fired)
  {
    hide Step, Allowed, Next, Serviceable, Sound, GentleOp;
    var l2, l1 := ops[1..], ops[1..][1..];
    assert l2 == [ops[1], ops[2]] && l1 == [ops[2]] && l1[1..] == [];
    assert Run(q2, l1) == q3 && Reports(q2, l1) == [fired];
    assert ServiceableRun(q2, l1) <==> Serviceable(q2, l1[0]);
    assert SoundRun(q2, l1) <==> Sound(q2, l1[0]);
    assert ServiceableRun(q1, l2) <==> Serviceable(q1, l2[0]) && ServiceableRun(q2, l1);
    assert SoundRun(q1, l2) <==> Sound(q1, l2[0]) && SoundRun(q2, l1);
    assert Run(q1, l2) == q3 && Reports(q1, l2) == [[], fired];
    var r := Reports(q, ops);
    assert r == [[], [], fired] && r[1..] == [[], fired] && r[1..][1..] == [fired];
    var a1 := Next(a, ops[0], []);
    assert Behaves(a1, l2, r[1..]) ==> Behaves(Next(a1, ops[1], []), l1, r[1..][1..]);
    assert Behaves(Next(a1, ops[1], []), l1, [fired]) ==> Allowed(Next(a1, ops[1], []), ops[2], fired);
  }

  lemma AppendsOne(d: Entry, e: Entry)
    requires d.at <= e.at && d.timer != e.timer
    ensures Scheduled([d], e.timer) == 0 && Insert([d], e) == [d, e]
  {
    assert [d][1..] == [] && [d] + [e] == [d, e];
  }

  /** Two timers due exactly at a rebase, the first of which kills the second: both are reported. */
  lemma KilledIsReported(x: Timer, y: Timer)
    requires x != y
    ensures var ops := [Do(Set(x, 65540)), Do(Set(y, 65540)), Pass(65540, [[Kill(y)]])];
            && GentleRun(ops) && ServiceableRun(EMPTY, ops)
            && Reports(EMPTY, ops) == [[], [], [x, y]] && !Behaves(IDLE, ops, Reports(EMPTY, ops))
  {
    var ops := [Do(Set(x, 65540)), Do(Set(y, 65540)), Pass(65540, [[Kill(y)]])];
    var ex, ey := Entry(x, 65540), Entry(y, 65540);
    var q1, q2 := State([ex], 0, false), State([ex, ey], 0, false);
    AppendsOne(ex, ey);
    var q := Tick(q2, 65540);
    assert q.ring == [Entry(x, 0), Entry(y, 0)] && q.elapsed == 0;
    KillsAtZero(q, x, y, [[Kill(y)]]);
    Unrolled(EMPTY, IDLE, ops, q1, q2, State([], 0, false), [x, y]);
    hide Fire, HeededScript, WorkableScript, Rebase, Behaves;
    NewQueueBehavesIff(ops);
  }

  lemma KillsAtZero(q: State, x: Timer, y: Timer, script: Script)
    requires q == State([Entry(x, 0), Entry(y, 0)], 0, false) && x != y && script == [[Kill(y)]]
    ensures Fire(q, script) == (State([], 0, false), [x, y])
    ensures WorkableScript(q, script) && !HeededScript(q, script)
  {
    var q1 := q.(ring := q.ring[1..]);
    assert q1.ring == [Entry(y, 0)] && Scheduled(q1.ring, y) == 0;
    assert Kill(y) == script[0][0] && script[0][1..] == [] && script[1..] == [];
    assert ObeyAll(q1, script[0]) == q1;
    assert q1.ring[1..] == [] && ObeyAll(EMPTY, []) == EMPTY && Fire(EMPTY, []) == (EMPTY, []);
    assert Fire(q1, []).1 == [y] + [] == [y];
    assert [x] + [y] == [x, y];
    assert !Heeded(q1, Kill(y)) by { assert q1.ring[0].timer == y; }
    assert WorkableScript(q1, []);
  }

  /** A timer overdue at a rebase: it should have been reported six time units before. */
  lemma OverdueIsLost(t: Timer)
    ensures var ops := [Do(Set(t, 65534)), Pass(65530, []), Pass(10, [])];
            && GentleRun(ops) && Reports(EMPTY, ops) == [[], [], []] && !Behaves(IDLE, ops, Reports(EMPTY, ops))
            && Run(EMPTY, ops) == State([Entry(t, 0xFFFF_FFFA)], 0, false)
  {
    var ops := [Do(Set(t, 65534)), Pass(65530, []), Pass(10, [])];
    var e := Entry(t, 65534);
    var q1, q2, q3 := State([e], 0, false), State([e], 65530, false), State([Entry(t, 0xFFFF_FFFA)], 0, false);
    assert Tick(q2, 10) == q3 by { RebaseIs(State([e], 65540, false), q3.ring); }
    assert Fire(q1.(elapsed := 65530), []) == (q2, []) && Fire(q3, []) == (q3, []);
    Unrolled(EMPTY, IDLE, ops, q1, q2, q3, []);
    var a := Next(Next(IDLE, ops[0], []), ops[1], []);
    assert a == Clock(65530, 1, map[t := Deadline(65534, 0)], false);
    assert t in a.armed;
  }

  // ---------------------------------------------------------------- the reset flag

  /** Once a removal has emptied the queue, no timer is ever reported again, whatever is armed,
      until the current timeout is asked for. The media engine never asks. */
  lemma {:induction false} FrozenUntilAsked(q: State, ops: seq<Op>)
    requires q.reset && GentleRun(ops) && Ask !in ops
    ensures Run(q, ops).reset
    ensures forall i :: 0 <= i < |Reports(q, ops)| ==> Reports(q, ops)[i] == []
    decreases |ops|
  {
    if ops != [] {
      assert ops[0] in ops;
      assert Step(q, ops[0]).0.reset && Step(q, ops[0]).1 == [];
      assert Ask !in ops[1..];
      FrozenUntilAsked(Step(q, ops[0]).0, ops[1..]);
    }
  }

  /** ... and killing the only linked timer, or setting it again, is what brings the queue there. */
  lemma LastRemovalFreezes(q: State, c: Command)
    requires |q.ring| == 1 && q.ring[0].timer == c.timer && 0 < q.ring[0].at && (c.Set? ==> c.timeout > 0)
    ensures Obey(q, c) == State(if c.Set? then [Entry(c.timer, c.timeout)] else [], 0, true)
  {
    assert q.ring[1..] == [];
  }
}
