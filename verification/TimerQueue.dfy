/** The timer queue: a list of one-shot timers sorted by scheduled time, over a clock that is
    rebased whenever it reaches 0xFFFF. */
module TimerQueue {
  import opened Machine

  /** A one-shot timer; its scheduled time is 0 while it is not linked. */
  class Timer {
    var scheduledTime: uint32

    constructor ()
      ensures scheduledTime == 0
    {
      scheduledTime := 0;
    }
  }

  /** A linked timer and the time its report is scheduled at, on the queue's clock. */
  datatype Entry = Entry(timer: Timer, at: uint32)

  datatype State = State(ring: seq<Entry>, elapsed: uint32, reset: bool)

  /** What a caller, or a timer procedure, may do to the queue. */
  datatype Command = Set(timer: Timer, timeout: uint32) | Kill(timer: Timer)

  type Script = seq<seq<Command>>

  /** Timeouts below this bound cannot wrap the 32-bit clock (49 days less a minute). */
  const LIMIT: int := 0xFFFF_0000

  function Scheduled(ring: seq<Entry>, timer: Timer): uint32 {
    if ring == [] then 0 else if ring[0].timer == timer then ring[0].at else Scheduled(ring[1..], timer)
  }

  function Without(ring: seq<Entry>, timer: Timer): seq<Entry> {
    if ring == [] then []
    else if ring[0].timer == timer then ring[1..]
    else [ring[0]] + Without(ring[1..], timer)
  }

  /** Inserts after the last entry that is not scheduled later. */
  function Insert(ring: seq<Entry>, e: Entry): seq<Entry> {
    if ring == [] then [e]
    else
      var last := |ring| - 1;
      if ring[last].at <= e.at then ring + [e] else Insert(ring[..last], e) + [ring[last]]
  }

  function RemoveTimer(q: State, timer: Timer): (q1: State)
    ensures q1.elapsed <= q.elapsed
  {
    var ring := Without(q.ring, timer);
    if ring == [] then State([], 0, true) else q.(ring := ring)
  }

  function SetTimer(q: State, timer: Timer, timeout: uint32): State {
    if timeout == 0 then q
    else
      var q1 := if Scheduled(q.ring, timer) != 0 then RemoveTimer(q, timer) else q;
      q1.(ring := Insert(q1.ring, Entry(timer, U32(q1.elapsed + timeout))))
  }

  function KillTimer(q: State, timer: Timer): State {
    if Scheduled(q.ring, timer) == 0 then q else RemoveTimer(q, timer)
  }

  function Obey(q: State, c: Command): State {
    match c
    case Set(timer, timeout) => SetTimer(q, timer, timeout)
    case Kill(timer) => KillTimer(q, timer)
  }

  function ObeyAll(q: State, cs: seq<Command>): State
    decreases |cs|
  {
    if cs == [] then q else ObeyAll(Obey(q, cs[0]), cs[1..])
  }

  /** Moves every scheduled time, and the clock, back by the elapsed time (unsigned). */
  function Rebase(q: State): State {
    State(seq(|q.ring|, i requires 0 <= i < |q.ring| => q.ring[i].(at := U32(q.ring[i].at - q.elapsed))), 0, q.reset)
  }

  lemma RebaseIs(q: State, r: seq<Entry>)
    requires |r| == |q.ring|
    requires forall i :: 0 <= i < |r| ==> r[i] == Entry(q.ring[i].timer, U32(q.ring[i].at - q.elapsed))
    ensures Rebase(q) == State(r, 0, q.reset)
  {
  }

  predicate Gentle(cs: seq<Command>) {
    forall i :: 0 <= i < |cs| && cs[i].Set? ==> cs[i].timeout < LIMIT
  }

  predicate GentleScript(script: Script) {
    forall i :: 0 <= i < |script| ==> Gentle(script[i])
  }

  function Head(script: Script): seq<Command> { if script == [] then [] else script[0] }

  function Tail(script: Script): Script { if script == [] then [] else script[1..] }

  /** Number of linked timers that are due. */
  function Due(ring: seq<Entry>, now: uint32): nat {
    if ring == [] then 0 else (if ring[0].at <= now then 1 else 0) + Due(ring[1..], now)
  }

  lemma {:induction false} DueWithout(ring: seq<Entry>, timer: Timer, now: uint32)
    ensures Due(Without(ring, timer), now) <= Due(ring, now)
  {
    if ring != [] && ring[0].timer != timer {
      DueWithout(ring[1..], timer, now);
    }
  }

  lemma {:induction false} DueAppend(ring: seq<Entry>, e: Entry, now: uint32)
    ensures Due(ring + [e], now) == Due(ring, now) + if e.at <= now then 1 else 0
  {
    if ring != [] {
      assert (ring + [e])[1..] == ring[1..] + [e];
      DueAppend(ring[1..], e, now);
    }
  }

  lemma {:induction false} DueInsert(ring: seq<Entry>, e: Entry, now: uint32)
    ensures Due(Insert(ring, e), now) == Due(ring, now) + if e.at <= now then 1 else 0
  {
    DueAppend(ring, e, now);
    if ring != [] {
      var last := |ring| - 1;
      assert ring[..last] + [ring[last]] == ring;
      DueInsert(ring[..last], e, now);
      DueAppend(ring[..last], ring[last], now);
      DueAppend(Insert(ring[..last], e), ring[last], now);
    }
  }

  lemma ObeyKeepsDue(q: State, c: Command)
    requires (c.Set? ==> c.timeout < LIMIT) && q.elapsed <= 0xFFFF
    ensures Due(Obey(q, c).ring, Obey(q, c).elapsed) <= Due(q.ring, q.elapsed) && Obey(q, c).elapsed <= q.elapsed
  {
    DueWithout(q.ring, c.timer, q.elapsed);
    hide Without, Scheduled, Insert;
    if c.Set? {
      var q1 := if Scheduled(q.ring, c.timer) != 0 then RemoveTimer(q, c.timer) else q;
      DueInsert(q1.ring, Entry(c.timer, U32(q1.elapsed + c.timeout)), q1.elapsed);
    }
  }

  lemma DuePop(ring: seq<Entry>, now: uint32)
    requires ring != [] && ring[0].at <= now
    ensures Due(ring[1..], now) < Due(ring, now)
  {
  }

  /** A timer procedure adds no timer that is due already: what it arms lies in the future. */
  lemma {:induction false} ObeyAllKeepsDue(q: State, cs: seq<Command>)
    requires Gentle(cs) && q.elapsed <= 0xFFFF
    ensures var q1 := ObeyAll(q, cs);
            Due(q1.ring, q1.elapsed) <= Due(q.ring, q.elapsed) && q1.elapsed <= q.elapsed
    decreases |cs|
  {
    if cs != [] {
      ObeyKeepsDue(q, cs[0]);
      ObeyAllKeepsDue(Obey(q, cs[0]), cs[1..]);
    }
  }

  /** Reports due timers from the front; the i-th report runs the i-th part of the script.
      It terminates although the procedures may arm timers, their own included. */
  function Fire(q: State, script: Script): (State, seq<Timer>)
    requires GentleScript(script) && q.elapsed <= 0xFFFF
    decreases Due(q.ring, q.elapsed)
  {
    if q.ring == [] || q.ring[0].at > q.elapsed then (q, [])
    else
      var q1 := q.(ring := q.ring[1..]);
      ObeyAllKeepsDue(q1, Head(script));
      var (q2, fired) := Fire(ObeyAll(q1, Head(script)), Tail(script));
      (q2, [q.ring[0].timer] + fired)
  }

  lemma FireStops(q: State, script: Script)
    requires GentleScript(script) && q.elapsed <= 0xFFFF && (q.ring == [] || q.ring[0].at > q.elapsed)
    ensures Fire(q, script) == (q, [])
  {
  }

  /** Whether an advance counts: not on an empty queue, nor while the clock is freshly reset. */
  predicate Running(q: State) { q.ring != [] && !q.reset }

  function Tick(q: State, time: uint32): (q1: State)
    ensures q1.elapsed <= 0xFFFF
  {
    var q1 := q.(elapsed := U32(q.elapsed + time));
    if q1.elapsed >= 0xFFFF then Rebase(q1) else q1
  }

  function Advance(q: State, time: uint32, script: Script): (State, seq<Timer>)
    requires GentleScript(script)
  {
    if !Running(q) then (q, []) else Fire(Tick(q, time), script)
  }

  /** Asking for the current timeout clears the reset flag. */
  function Poll(q: State): State { q.(reset := false) }

  datatype Op = Do(command: Command) | Pass(time: uint32, script: Script) | Ask

  predicate GentleOp(op: Op) {
    match op
    case Do(c) => c.Set? ==> c.timeout < LIMIT
    case Pass(_, script) => GentleScript(script)
    case Ask => true
  }

  /** One operation, and the timers it reports. */
  function Step(q: State, op: Op): (State, seq<Timer>)
    requires GentleOp(op)
  {
    match op
    case Do(c) => (Obey(q, c), [])
    case Pass(time, script) => Advance(q, time, script)
    case Ask => (Poll(q), [])
  }

  predicate GentleRun(ops: seq<Op>) { forall i :: 0 <= i < |ops| ==> GentleOp(ops[i]) }

  function Run(q: State, ops: seq<Op>): State
    requires GentleRun(ops)
    decreases |ops|
  {
    if ops == [] then q else Run(Step(q, ops[0]).0, ops[1..])
  }

  /** The reports of a run, operation by operation. */
  function Reports(q: State, ops: seq<Op>): seq<seq<Timer>>
    requires GentleRun(ops)
    decreases |ops|
  {
    if ops == [] then [] else [Step(q, ops[0]).1] + Reports(Step(q, ops[0]).0, ops[1..])
  }

  // ---------------------------------------------------------------- the list, entry by entry

  lemma {:induction false} WithoutAt(ring: seq<Entry>, t: Timer, p: nat)
    requires p < |ring| && ring[p].timer == t
    requires forall i :: 0 <= i < p ==> ring[i].timer != t
    ensures Without(ring, t) == ring[..p] + ring[p + 1..]
    ensures Scheduled(ring, t) == ring[p].at
  {
    if p > 0 {
      WithoutAt(ring[1..], t, p - 1);
      assert [ring[0]] + (ring[1..][..p - 1] + ring[1..][p..]) == ring[..p] + ring[p + 1..];
    }
  }

  lemma {:induction false} ScheduledNone(ring: seq<Entry>, t: Timer)
    requires forall i :: 0 <= i < |ring| ==> ring[i].timer != t
    ensures Scheduled(ring, t) == 0
  {
    if ring != [] { ScheduledNone(ring[1..], t); }
  }

  lemma {:induction false} InsertAt(ring: seq<Entry>, e: Entry) returns (p: nat)
    ensures p <= |ring| && Insert(ring, e) == ring[..p] + [e] + ring[p..]
    ensures p > 0 ==> ring[p - 1].at <= e.at
    ensures forall i :: p <= i < |ring| ==> e.at < ring[i].at
  {
    if ring == [] {
      p := 0;
    } else {
      var last := |ring| - 1;
      if ring[last].at <= e.at {
        p := |ring|;
        assert ring + [e] == ring[..p] + [e] + ring[p..];
      } else {
        p := InsertAt(ring[..last], e);
        assert ring[..last][..p] + [e] + ring[..last][p..] + [ring[last]] == ring[..p] + [e] + ring[p..];
      }
    }
  }

  lemma {:induction false} InsertIs(ring: seq<Entry>, e: Entry, p: nat)
    requires p <= |ring| && (p > 0 ==> ring[p - 1].at <= e.at)
    requires forall i :: p <= i < |ring| ==> e.at < ring[i].at
    ensures Insert(ring, e) == ring[..p] + [e] + ring[p..]
  {
    var last := |ring| - 1;
    if p <= last {
      InsertIs(ring[..last], e, p);
      assert ring[..last][..p] + [e] + ring[..last][p..] + [ring[last]] == ring[..p] + [e] + ring[p..];
    } else {
      assert ring + [e] == ring[..p] + [e] + ring[p..];
    }
  }

  // ---------------------------------------------------------------- workable procedures

  /** No entry of the timer lies at zero, where its scheduled time would read as "not linked". */
  ghost predicate Discreet(q: State, t: Timer) {
    forall i :: 0 <= i < |q.ring| && q.ring[i].timer == t ==> 0 < q.ring[i].at
  }

  /** The command does not arm a timer that is linked at zero, which would link it a second time. */
  ghost predicate Workable(q: State, c: Command) { c.Set? && c.timeout > 0 ==> Discreet(q, c.timer) }

  ghost predicate WorkableAll(q: State, cs: seq<Command>)
    decreases |cs|
  {
    cs == [] || (Workable(q, cs[0]) && WorkableAll(Obey(q, cs[0]), cs[1..]))
  }

  /** The procedures of one advance are workable. */
  ghost predicate WorkableScript(q: State, script: Script)
    requires GentleScript(script) && q.elapsed <= 0xFFFF
    decreases Due(q.ring, q.elapsed)
  {
    if q.ring == [] || q.ring[0].at > q.elapsed then true
    else
      var q1 := q.(ring := q.ring[1..]);
      ObeyAllKeepsDue(q1, Head(script));
      WorkableAll(q1, Head(script)) && WorkableScript(ObeyAll(q1, Head(script)), Tail(script))
  }

  // ---------------------------------------------------------------- the queue itself

  /** The linked timers in list order, with the clock; `timers` are those created for the queue. */
  class Queue {
    var ring: seq<Timer>
    var elapsedTime: uint32
    var reset: bool
    ghost var timers: set<Timer>

    static ghost function Entries(s: seq<Timer>): (r: seq<Entry>)
      reads s
      ensures |r| == |s| && forall i :: 0 <= i < |s| ==> r[i] == Entry(s[i], s[i].scheduledTime)
    {
      if s == [] then [] else Entries(s[..|s| - 1]) + [Entry(s[|s| - 1], s[|s| - 1].scheduledTime)]
    }

    ghost function Value(): State
      reads this, ring
    {
      State(Entries(ring), elapsedTime, reset)
    }

    ghost predicate Valid()
      reads this, ring, timers
    {
      && (forall i :: 0 <= i < |ring| ==> ring[i] in timers)
      && (forall i, j :: 0 <= i < j < |ring| ==> ring[i] != ring[j])
      && (forall t :: t in timers && t !in ring ==> t.scheduledTime == 0)
    }

    constructor ()
      ensures Valid() && Value() == State([], 0, false) && timers == {}
    {
      ring, elapsedTime, reset, timers := [], 0, false, {};
    }

    method CreateTimer() returns (t: Timer)
      requires Valid()
      modifies this
      ensures Valid() && fresh(t) && timers == old(timers) + {t} && Value() == old(Value()) && t !in ring
    {
      t := new Timer();
      timers := timers + {t};
    }

    lemma ScheduledIs(t: Timer)
      requires Valid() && t in timers
      ensures Scheduled(Value().ring, t) == t.scheduledTime
    {
      if t in ring {
        var p :| 0 <= p < |ring| && ring[p] == t;
        WithoutAt(Value().ring, t, p);
      } else {
        ScheduledNone(Value().ring, t);
      }
    }

    static lemma RestOf(ring: seq<Timer>, p: nat, rest: seq<Timer>)
      requires forall i, j :: 0 <= i < j < |ring| ==> ring[i] != ring[j]
      requires p < |ring| && rest == ring[..p] + ring[p + 1..]
      ensures forall i, j :: 0 <= i < j < |rest| ==> rest[i] != rest[j]
      ensures forall k :: 0 <= k < |rest| ==> rest[k] == ring[if k < p then k else k + 1] && rest[k] != ring[p]
      ensures forall u :: u in rest ==> u in ring && u != ring[p]
      ensures forall u :: u in ring && u != ring[p] ==> u in rest
    {
      forall u | u in ring && u != ring[p] ensures u in rest {
        var k :| 0 <= k < |ring| && ring[k] == u;
        assert rest[if k < p then k else k - 1] == u;
      }
    }

    static lemma EntriesAre(s: seq<Timer>, r: seq<Entry>)
      requires |s| == |r| && forall i :: 0 <= i < |s| ==> r[i] == Entry(s[i], s[i].scheduledTime)
      ensures Entries(s) == r
    {
      hide Entries;
    }

    static lemma EntriesRest(ring: seq<Timer>, p: nat, rest: seq<Timer>)
      requires p < |ring| && rest == ring[..p] + ring[p + 1..]
      ensures Entries(rest) == Entries(ring)[..p] + Entries(ring)[p + 1..]
    {
      hide Entries;
    }

    static lemma RemovedIs(q: State, t: Timer, left: seq<Entry>)
      requires Without(q.ring, t) == left
      ensures RemoveTimer(q, t) == if left == [] then State([], 0, true) else q.(ring := left)
    {
    }

    method Remove(t: Timer)
      requires Valid() && t in ring
      modifies this, t
      ensures Valid() && timers == old(timers) && t !in ring && (forall u :: u in ring ==> u in old(ring))
      ensures Value() == RemoveTimer(old(Value()), t)
    {
      hide Entries, Without, Scheduled, RemoveTimer;
      var p :| 0 <= p < |ring| && ring[p] == t;
      var rest := ring[..p] + ring[p + 1..];
      RestOf(ring, p, rest);
      ghost var left := Entries(rest);
      EntriesRest(ring, p, rest);
      WithoutAt(Entries(ring), t, p);
      RemovedIs(Value(), t, left);
      ring := rest;
      t.scheduledTime := 0;
      EntriesAre(ring, left);
      if ring == [] {
        elapsedTime, reset := 0, true;
      }
    }

    method InsertSorted(t: Timer)
      requires forall i, j :: 0 <= i < j < |ring| ==> ring[i] != ring[j]
      requires t !in ring
      modifies this
      ensures elapsedTime == old(elapsedTime) && reset == old(reset) && timers == old(timers)
      ensures forall i, j :: 0 <= i < j < |ring| ==> ring[i] != ring[j]
      ensures forall u :: u in ring <==> u in old(ring) || u == t
      ensures Entries(ring) == Insert(old(Entries(ring)), Entry(t, t.scheduledTime))
    {
      hide Entries, Insert;
      ghost var was := Entries(ring);
      var p := |ring|;
      while p > 0 && ring[p - 1].scheduledTime > t.scheduledTime
        invariant 0 <= p <= |ring|
        invariant forall i :: p <= i < |ring| ==> t.scheduledTime < ring[i].scheduledTime
      {
        p := p - 1;
      }
      InsertIs(was, Entry(t, t.scheduledTime), p);
      ring := ring[..p] + [t] + ring[p..];
      assert Entries(ring) == was[..p] + [Entry(t, t.scheduledTime)] + was[p..];
    }

    method SetOne(t: Timer, timeout: uint32) returns (ok: bool)
      requires Valid() && t in timers && Workable(Value(), Set(t, timeout))
      modifies this, timers
      ensures Valid() && timers == old(timers)
      ensures Value() == SetTimer(old(Value()), t, timeout) && ok == (timeout != 0)
    {
      hide Entries, Insert, Without, Scheduled;
      if timeout == 0 { return false; }
      ScheduledIs(t);
      if t.scheduledTime != 0 { Remove(t); }
      t.scheduledTime := U32(elapsedTime + timeout);
      InsertSorted(t);
      assert forall i :: 0 <= i < |ring| ==> ring[i] in ring;
      ok := true;
    }

    method KillOne(t: Timer) returns (ok: bool)
      requires Valid() && t in timers
      modifies this, timers
      ensures Valid() && timers == old(timers)
      ensures Value() == KillTimer(old(Value()), t) && ok == (Scheduled(old(Value()).ring, t) != 0)
    {
      hide Entries, Without, Scheduled;
      ScheduledIs(t);
      if t.scheduledTime == 0 { return false; }
      Remove(t);
      ok := true;
    }

    method Process(cs: seq<Command>)
      requires Valid() && WorkableAll(Value(), cs)
      requires forall i :: 0 <= i < |cs| ==> cs[i].timer in timers
      modifies this, timers
      ensures Valid() && timers == old(timers) && Value() == ObeyAll(old(Value()), cs)
    {
      hide SetTimer, KillTimer, Workable;
      ghost var start := Value();
      var i := 0;
      while i < |cs|
        invariant 0 <= i <= |cs| && Valid() && timers == old(timers)
        invariant WorkableAll(Value(), cs[i..]) && ObeyAll(Value(), cs[i..]) == ObeyAll(start, cs)
      {
        assert cs[i..][0] == cs[i] && cs[i..][1..] == cs[i + 1..];
        match cs[i] {
          case Set(t, timeout) => var _ := SetOne(t, timeout);
          case Kill(t) => var _ := KillOne(t);
        }
        i := i + 1;
      }
    }

    /** Moves one scheduled time back by the elapsed time (unsigned). */
    method MoveBack(i: nat)
      requires Valid() && i < |ring|
      modifies ring[i]
      ensures Valid() && ring[i].scheduledTime == U32(old(ring[i].scheduledTime) - elapsedTime)
      ensures forall j :: 0 <= j < |ring| && j != i ==> ring[j].scheduledTime == old(ring[j].scheduledTime)
    {
      hide U32;
      ring[i].scheduledTime := U32(ring[i].scheduledTime - elapsedTime);
    }

    method Reschedule()
      requires Valid()
      modifies `elapsedTime, ring
      ensures Valid() && Value() == Rebase(old(Value()))
    {
      hide Entries, U32, Rebase, Valid;
      ghost var was, start := Entries(ring), Value();
      var i := |ring|;
      while i > 0
        invariant 0 <= i <= |ring| && Valid() && elapsedTime == old(elapsedTime)
        invariant forall j :: 0 <= j < i ==> ring[j].scheduledTime == was[j].at
        invariant forall j :: i <= j < |ring| ==> ring[j].scheduledTime == U32(was[j].at - elapsedTime)
      {
        i := i - 1;
        MoveBack(i);
      }
      ghost var now := Entries(ring);
      ZeroClock();
      RebaseIs(start, now);
    }

    method ZeroClock()
      requires Valid()
      modifies `elapsedTime
      ensures Valid() && elapsedTime == 0
    {
      elapsedTime := 0;
    }

    method PopFirst() returns (timer: Timer)
      requires Valid() && ring != []
      modifies this, timers
      ensures Valid() && timers == old(timers) && timer == old(ring[0])
      ensures Value() == old(Value()).(ring := old(Value()).ring[1..])
    {
      hide Entries;
      ghost var was := Value();
      timer := ring[0];
      ring := ring[1..];
      timer.scheduledTime := 0;
      assert Entries(ring) == was.ring[1..];
    }

    /** Lets `time` pass and reports the timers that fall due; the i-th report runs the i-th
        part of the script. */
    method AdvanceBy(time: uint32, script: Script) returns (fired: seq<Timer>)
      requires Valid() && GentleScript(script) && (Running(Value()) ==> WorkableScript(Tick(Value(), time), script))
      requires forall i, j :: 0 <= i < |script| && 0 <= j < |script[i]| ==> script[i][j].timer in timers
      modifies this, timers
      ensures Valid() && timers == old(timers) && (Value(), fired) == Advance(old(Value()), time, script)
    {
      hide Entries, Rebase, U32;
      fired := [];
      if ring == [] || reset { return; }
      elapsedTime := U32(elapsedTime + time);
      if elapsedTime >= 0xFFFF { Reschedule(); }
      fired := FireDue(script);
    }

    ghost predicate Ready(script: Script)
      reads this, ring, timers
    {
      && Valid() && elapsedTime <= 0xFFFF && GentleScript(script)
      && (forall i, j :: 0 <= i < |script| && 0 <= j < |script[i]| ==> script[i][j].timer in timers)
      && WorkableScript(Value(), script)
    }

    lemma ReadyGives(script: Script)
      requires Ready(script)
      ensures Valid() && elapsedTime <= 0xFFFF && GentleScript(script)
    {
    }

    method FireFirst(script: Script) returns (timer: Timer)
      requires Ready(script) && ring != [] && ring[0].scheduledTime <= elapsedTime
      modifies this, timers
      ensures timers == old(timers) && Ready(Tail(script))
      ensures Due(Value().ring, elapsedTime) < Due(old(Value()).ring, old(elapsedTime))
      ensures Fire(old(Value()), script) == (Fire(Value(), Tail(script)).0, [timer] + Fire(Value(), Tail(script)).1)
    {
      hide Entries, WorkableAll, ObeyAll, Due, Gentle;
      ghost var before := Value();
      timer := PopFirst();
      DuePop(before.ring, elapsedTime);
      ObeyAllKeepsDue(Value(), Head(script));
      Process(Head(script));
    }

    method FireDue(script: Script) returns (fired: seq<Timer>)
      requires Ready(script)
      modifies this, timers
      ensures Valid() && timers == old(timers) && (Value(), fired) == Fire(old(Value()), script)
    {
      hide Entries, WorkableScript, Due, Ready, Valid;
      ReadyGives(script);
      ghost var all := Fire(Value(), script);
      var rest := script;
      fired := [];
      while ring != [] && ring[0].scheduledTime <= elapsedTime
        invariant Ready(rest) && timers == old(timers) && elapsedTime <= 0xFFFF && GentleScript(rest)
        invariant all.0 == Fire(Value(), rest).0 && all.1 == fired + Fire(Value(), rest).1
        decreases Due(Value().ring, elapsedTime)
      {
        var timer := FireFirst(rest);
        rest := Tail(rest);
        ReadyGives(rest);
        assert fired + ([timer] + Fire(Value(), rest).1) == fired + [timer] + Fire(Value(), rest).1;
        fired := fired + [timer];
      }
      ReadyGives(rest);
      FireStops(Value(), rest);
      assert fired + [] == fired;
    }

    method Timeout() returns (timeout: uint32, linked: bool)
      requires Valid()
      modifies this
      ensures Valid() && Value() == Poll(old(Value()))
      ensures linked == (ring != []) && (linked ==> timeout == U32(Value().ring[0].at - elapsedTime))
    {
      reset := false;
      if ring == [] { return 0, false; }
      timeout, linked := U32(ring[0].scheduledTime - elapsedTime), true;
    }
  }
}
