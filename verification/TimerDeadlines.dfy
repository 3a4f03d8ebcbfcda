/** The reference the timer queue is held to: a map from armed timers to absolute deadlines. */
module TimerDeadlines {
  import opened Machine
  import opened TimerQueue

  /** When a timer is due, and the rank of the call that armed it. */
  datatype Deadline = Deadline(due: nat, rank: nat)

  /** `now` counts the time the queue was running; `frozen` mirrors its reset flag. */
  datatype Clock = Clock(now: nat, next: nat, armed: map<Timer, Deadline>, frozen: bool)

  predicate Earlier(a: Deadline, b: Deadline) {
    a.due < b.due || (a.due == b.due && a.rank < b.rank)
  }

  function Disarm(a: Clock, t: Timer): (b: Clock)
    ensures b.now == a.now && b.next == a.next && t !in b.armed
  {
    if t !in a.armed then a
    else a.(armed := a.armed - {t}, frozen := a.frozen || a.armed - {t} == map[])
  }

  function Apply(a: Clock, c: Command): Clock {
    match c
    case Kill(t) => Disarm(a, t)
    case Set(t, timeout) =>
      if timeout == 0 then a
      else
        var a1 := Disarm(a, t);
        a1.(armed := a1.armed[t := Deadline(a.now + timeout, a.next)], next := a.next + 1)
  }

  function ApplyAll(a: Clock, cs: seq<Command>): Clock
    decreases |cs|
  {
    if cs == [] then a else ApplyAll(Apply(a, cs[0]), cs[1..])
  }

  ghost predicate IsNext(a: Clock, t: Timer) {
    && t in a.armed && a.armed[t].due <= a.now
    && forall u :: u in a.armed && u != t ==> Earlier(a.armed[t], a.armed[u])
  }

  /** No armed timer is due. */
  ghost predicate Quiet(a: Clock) { forall t :: t in a.armed ==> a.now < a.armed[t].due }

  function Report(a: Clock, t: Timer, cs: seq<Command>): Clock {
    ApplyAll(a.(armed := a.armed - {t}), cs)
  }

  /** The reports are exactly the due timers, each the earliest at its turn, until none is due. */
  ghost predicate Legal(a: Clock, script: Script, fired: seq<Timer>)
    decreases |fired|
  {
    if fired == [] then Quiet(a)
    else IsNext(a, fired[0]) && Legal(Report(a, fired[0], Head(script)), Tail(script), fired[1..])
  }

  function After(a: Clock, script: Script, fired: seq<Timer>): Clock
    decreases |fired|
  {
    if fired == [] then a else After(Report(a, fired[0], Head(script)), Tail(script), fired[1..])
  }

  predicate Ticking(a: Clock) { a.armed != map[] && !a.frozen }

  ghost predicate Allowed(a: Clock, op: Op, fired: seq<Timer>) {
    match op
    case Pass(time, script) => if Ticking(a) then Legal(a.(now := a.now + time), script, fired) else fired == []
    case _ => fired == []
  }

  function Next(a: Clock, op: Op, fired: seq<Timer>): Clock {
    match op
    case Do(c) => Apply(a, c)
    case Pass(time, script) => if Ticking(a) then After(a.(now := a.now + time), script, fired) else a
    case Ask => a.(frozen := false)
  }

  /** The reports of a run are the ones the deadlines call for. */
  ghost predicate Behaves(a: Clock, ops: seq<Op>, reports: seq<seq<Timer>>)
    decreases |ops|
  {
    if ops == [] then reports == []
    else reports != [] && Allowed(a, ops[0], reports[0]) && Behaves(Next(a, ops[0], reports[0]), ops[1..], reports[1..])
  }

  // ---------------------------------------------------------------- what the deadlines promise

  /** What is due in `b` was due, with the same deadline, in `a`. */
  ghost predicate DueFrom(a: Clock, b: Clock) {
    b.now == a.now && forall t :: t in b.armed && b.armed[t].due <= b.now ==> t in a.armed && a.armed[t] == b.armed[t]
  }

  ghost predicate Touched(cs: seq<Command>, t: Timer) { exists i :: 0 <= i < |cs| && cs[i].timer == t }

  ghost predicate TouchedBy(script: Script, t: Timer) { exists i :: 0 <= i < |script| && Touched(script[i], t) }

  lemma {:induction false} ApplyAllDueFrom(a: Clock, cs: seq<Command>)
    ensures DueFrom(a, ApplyAll(a, cs))
    ensures forall t :: t in a.armed && !Touched(cs, t) ==>
              t in ApplyAll(a, cs).armed && ApplyAll(a, cs).armed[t] == a.armed[t]
    decreases |cs|
  {
    if cs != [] {
      ApplyAllDueFrom(Apply(a, cs[0]), cs[1..]);
      forall t | t in a.armed && !Touched(cs, t)
        ensures t in ApplyAll(a, cs).armed && ApplyAll(a, cs).armed[t] == a.armed[t]
      {
        assert cs[0].timer != t;
        assert !Touched(cs[1..], t) by {
          assert forall i :: 0 <= i < |cs[1..]| ==> cs[1..][i] == cs[i + 1];
        }
      }
    }
  }

  /** One advance reports each timer at most once, earliest deadline first, ties in the order
      they were armed; it reports only timers that were due, and every due timer that no
      procedure touched. */
  lemma {:induction false} ReportsExact(a: Clock, script: Script, fired: seq<Timer>)
    requires Legal(a, script, fired)
    ensures Quiet(After(a, script, fired)) && After(a, script, fired).now == a.now
    ensures forall i :: 0 <= i < |fired| ==> fired[i] in a.armed && a.armed[fired[i]].due <= a.now
    ensures forall i, j :: 0 <= i < j < |fired| ==>
              fired[i] != fired[j] && Earlier(a.armed[fired[i]], a.armed[fired[j]])
    ensures forall t :: t in a.armed && a.armed[t].due <= a.now && t !in fired ==> TouchedBy(script, t)
    decreases |fired|
  {
    if fired != [] {
      var b := a.(armed := a.armed - {fired[0]});
      var c := Report(a, fired[0], Head(script));
      ApplyAllDueFrom(b, Head(script));
      ReportsExact(c, Tail(script), fired[1..]);
      forall i | 1 <= i < |fired|
        ensures fired[i] in b.armed && b.armed[fired[i]].due <= a.now && b.armed[fired[i]] == c.armed[fired[i]]
      {
        assert fired[i] == fired[1..][i - 1];
      }
      forall i, j | 0 <= i < j < |fired|
        ensures fired[i] != fired[j] && Earlier(a.armed[fired[i]], a.armed[fired[j]])
      {
        assert fired[j] == fired[1..][j - 1];
        if 0 < i { assert fired[i] == fired[1..][i - 1]; }
      }
      forall t | t in a.armed && a.armed[t].due <= a.now && t !in fired ensures TouchedBy(script, t) {
        if !Touched(Head(script), t) {
          assert t in c.armed && t !in fired[1..];
          assert TouchedBy(Tail(script), t);
          var i :| 0 <= i < |Tail(script)| && Touched(Tail(script)[i], t);
          assert Touched(script[i + 1], t);
        } else {
          assert Touched(script[0], t);
        }
      }
    }
  }

  lemma ApplyKeepsQuiet(a: Clock, c: Command)
    requires Quiet(a)
    ensures Quiet(Apply(a, c)) && Apply(a, c).now == a.now
  {
  }

  /** A timer fires in the first advance that brings the running time since it was armed to its
      timeout: due by the time of the advance, and not due at any earlier moment. */
  lemma FirstAdvance(a: Clock, op: Op, fired: seq<Timer>)
    requires Quiet(a) && Allowed(a, op, fired)
    ensures Quiet(Next(a, op, fired))
    ensures forall t :: t in fired ==> t in a.armed && a.now < a.armed[t].due <= Next(a, op, fired).now
    ensures op.Pass? && Ticking(a) ==>
              forall t :: t in a.armed && a.armed[t].due <= a.now + op.time && t !in fired ==> TouchedBy(op.script, t)
  {
    match op
    case Do(c) => ApplyKeepsQuiet(a, c);
    case Pass(time, script) =>
      if Ticking(a) { ReportsExact(a.(now := a.now + time), script, fired); }
    case Ask =>
  }

  // ---------------------------------------------------------------- whole runs

  function Count(fired: seq<Timer>, t: Timer): nat {
    if fired == [] then 0 else (if fired[0] == t then 1 else 0) + Count(fired[1..], t)
  }

  /** How often a run reports a timer. */
  function Times(reports: seq<seq<Timer>>, t: Timer): nat {
    if reports == [] then 0 else Count(reports[0], t) + Times(reports[1..], t)
  }

  /** The clock after a run. */
  function Ends(a: Clock, ops: seq<Op>, reports: seq<seq<Timer>>): Clock
    requires |ops| == |reports|
    decreases |ops|
  {
    if ops == [] then a else Ends(Next(a, ops[0], reports[0]), ops[1..], reports[1..])
  }

  /** No operation, and no procedure it runs, sets or kills the timer. */
  ghost predicate Spares(op: Op, t: Timer) {
    match op
    case Do(c) => c.timer != t
    case Pass(_, script) => !TouchedBy(script, t)
    case Ask => true
  }

  lemma {:induction false} ApplyAllSpares(a: Clock, cs: seq<Command>, t: Timer)
    requires !Touched(cs, t)
    ensures ApplyAll(a, cs).now == a.now
    ensures t in ApplyAll(a, cs).armed <==> t in a.armed
    ensures t in a.armed ==> ApplyAll(a, cs).armed[t] == a.armed[t]
    decreases |cs|
  {
    if cs != [] {
      assert cs[0].timer != t;
      assert forall i :: 0 <= i < |cs[1..]| ==> cs[1..][i] == cs[i + 1];
      ApplyAllSpares(Apply(a, cs[0]), cs[1..], t);
    }
  }

  lemma SparedHead(script: Script, t: Timer)
    requires !TouchedBy(script, t)
    ensures !Touched(Head(script), t) && !TouchedBy(Tail(script), t)
  {
    assert forall i :: 0 <= i < |Tail(script)| ==> Tail(script)[i] == script[i + 1];
  }

  /** One advance reports an armed timer that no procedure touches once if it is due, and not else. */
  lemma {:induction false} LegalCounts(a: Clock, script: Script, fired: seq<Timer>, t: Timer)
    requires Legal(a, script, fired) && !TouchedBy(script, t)
    ensures var due := t in a.armed && a.armed[t].due <= a.now;
            var b := After(a, script, fired);
            && Count(fired, t) == (if due then 1 else 0)
            && (t in b.armed <==> t in a.armed && !due) && (t in b.armed ==> b.armed[t] == a.armed[t])
            && b.now == a.now
    decreases |fired|
  {
    if fired != [] {
      SparedHead(script, t);
      ApplyAllSpares(a.(armed := a.armed - {fired[0]}), Head(script), t);
      LegalCounts(Report(a, fired[0], Head(script)), Tail(script), fired[1..], t);
    }
  }

  /** One operation reports a timer once if it brings the clock to its deadline, and not else. */
  lemma OpCounts(a: Clock, op: Op, fired: seq<Timer>, t: Timer)
    requires Quiet(a) && Allowed(a, op, fired) && Spares(op, t)
    ensures var b := Next(a, op, fired);
            var due := t in a.armed && a.armed[t].due <= b.now;
            && Count(fired, t) == (if due then 1 else 0) && a.now <= b.now
            && (t in b.armed <==> t in a.armed && !due) && (t in b.armed ==> b.armed[t] == a.armed[t])
            && Quiet(b)
  {
    FirstAdvance(a, op, fired);
    match op
    case Do(c) => ApplyAllSpares(a, [c], t);
    case Pass(time, script) =>
      if Ticking(a) { LegalCounts(a.(now := a.now + time), script, fired, t); }
    case Ask =>
  }

  /** Over every run that behaves: up to each of its operations, a timer that none of them touches has
      been reported once if the running time has reached its deadline, and not at all before. */
  lemma {:induction false} FiresOnce(a: Clock, ops: seq<Op>, reports: seq<seq<Timer>>, t: Timer, k: nat)
    requires Behaves(a, ops, reports) && |ops| == |reports| && k <= |ops| && Quiet(a)
    requires forall i :: 0 <= i < k ==> Spares(ops[i], t)
    ensures Times(reports[..k], t) ==
            if t in a.armed && a.armed[t].due <= Ends(a, ops[..k], reports[..k]).now then 1 else 0
    ensures a.now <= Ends(a, ops[..k], reports[..k]).now
    decreases |ops|
  {
    if k > 0 {
      var b := Next(a, ops[0], reports[0]);
      OpCounts(a, ops[0], reports[0], t);
      assert ops[..k][1..] == ops[1..][..k - 1] && reports[..k][1..] == reports[1..][..k - 1];
      FiresOnce(b, ops[1..], reports[1..], t, k - 1);
    }
  }

  /** So a timer set once fires in the first advance by which its timeout has passed since. */
  lemma SetFiresOnce(a: Clock, timeout: uint32, ops: seq<Op>, reports: seq<seq<Timer>>, t: Timer, k: nat)
    requires timeout > 0 && Quiet(a) && Behaves(Apply(a, Set(t, timeout)), ops, reports)
    requires |ops| == |reports| && k <= |ops| && forall i :: 0 <= i < k ==> Spares(ops[i], t)
    ensures var b := Ends(Apply(a, Set(t, timeout)), ops[..k], reports[..k]);
            Times(reports[..k], t) == if b.now - a.now >= timeout then 1 else 0
  {
    ApplyKeepsQuiet(a, Set(t, timeout));
    FiresOnce(Apply(a, Set(t, timeout)), ops, reports, t, k);
  }
}
