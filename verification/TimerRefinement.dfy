/** The timer queue, with its wrapping and rebased clock, behaves as the map of deadlines. */
module TimerRefinement {
  import opened Machine
  import opened TimerQueue
  import opened TimerDeadlines

  // ---------------------------------------------------------------- the relation

  ghost predicate Linked(ring: seq<Entry>, t: Timer) { exists i :: 0 <= i < |ring| && ring[i].timer == t }

  ghost predicate Dated(ring: seq<Entry>, base: nat, armed: map<Timer, Deadline>) {
    forall i :: 0 <= i < |ring| ==> ring[i].timer in armed && armed[ring[i].timer].due == base + ring[i].at
  }

  /** Sorted by deadline, ties in the order they were armed. */
  ghost predicate Sorted(ring: seq<Entry>, armed: map<Timer, Deadline>)
    requires forall i :: 0 <= i < |ring| ==> ring[i].timer in armed
  {
    forall i, j :: 0 <= i < j < |ring| ==> Earlier(armed[ring[i].timer], armed[ring[j].timer])
  }

  ghost predicate Covers(ring: seq<Entry>, armed: map<Timer, Deadline>) { forall t :: t in armed ==> Linked(ring, t) }

  /** The list enumerates exactly the armed timers, `base` being the time of the last rebase. */
  ghost predicate Lists(ring: seq<Entry>, base: nat, armed: map<Timer, Deadline>) {
    Dated(ring, base, armed) && Sorted(ring, armed) && Covers(ring, armed)
  }

  ghost predicate Models(q: State, base: nat, a: Clock) {
    && a.now == base + q.elapsed
    && a.frozen == q.reset
    && Lists(q.ring, base, a.armed)
    && forall t :: t in a.armed ==> a.armed[t].rank < a.next
  }

  /** The list without its entry at `p`, and with `e` put in at `p`. */
  function Cut(ring: seq<Entry>, p: nat): seq<Entry>
    requires p < |ring|
  {
    ring[..p] + ring[p + 1..]
  }

  function Put(ring: seq<Entry>, p: nat, e: Entry): seq<Entry>
    requires p <= |ring|
  {
    ring[..p] + [e] + ring[p..]
  }

  lemma CutIndex(ring: seq<Entry>, p: nat)
    requires p < |ring|
    ensures |Cut(ring, p)| == |ring| - 1
    ensures forall i :: 0 <= i < |ring| - 1 ==> Cut(ring, p)[i] == ring[if i < p then i else i + 1]
  {
  }

  lemma PutIndex(ring: seq<Entry>, p: nat, e: Entry)
    requires p <= |ring|
    ensures |Put(ring, p, e)| == |ring| + 1
    ensures forall i :: 0 <= i <= |ring| ==>
              Put(ring, p, e)[i] == if i < p then ring[i] else if i == p then e else ring[i - 1]
  {
  }

  lemma CutCovers(ring: seq<Entry>, armed: map<Timer, Deadline>, p: nat)
    requires p < |ring| && Covers(ring, armed)
    ensures Covers(Cut(ring, p), armed - {ring[p].timer})
  {
    CutIndex(ring, p);
    hide Cut;
    forall u | u in armed - {ring[p].timer} ensures Linked(Cut(ring, p), u) {
      var i :| 0 <= i < |ring| && ring[i].timer == u;
      assert Cut(ring, p)[if i < p then i else i - 1].timer == u;
    }
  }

  lemma ListsCut(ring: seq<Entry>, base: nat, armed: map<Timer, Deadline>, p: nat)
    requires p < |ring| && Lists(ring, base, armed)
    ensures Lists(Cut(ring, p), base, armed - {ring[p].timer})
  {
    CutIndex(ring, p);
    CutCovers(ring, armed, p);
    hide Cut, Covers;
  }

  lemma ListsWithout(ring: seq<Entry>, base: nat, armed: map<Timer, Deadline>, t: Timer)
    requires Lists(ring, base, armed) && t in armed
    ensures Lists(Without(ring, t), base, armed - {t})
    ensures Scheduled(ring, t) + base == armed[t].due
  {
    assert Linked(ring, t);
    var p :| 0 <= p < |ring| && ring[p].timer == t;
    WithoutAt(ring, t, p);
    ListsCut(ring, base, armed, p);
  }

  lemma PutCovers(ring: seq<Entry>, armed: map<Timer, Deadline>, p: nat, e: Entry, d: Deadline)
    requires p <= |ring| && Covers(ring, armed)
    ensures Covers(Put(ring, p, e), armed[e.timer := d])
  {
    PutIndex(ring, p, e);
    hide Put;
    forall u | u in armed[e.timer := d] ensures Linked(Put(ring, p, e), u) {
      if u == e.timer {
        assert Put(ring, p, e)[p].timer == u;
      } else {
        var i :| 0 <= i < |ring| && ring[i].timer == u;
        assert Put(ring, p, e)[if i < p then i else i + 1].timer == u;
      }
    }
  }

  lemma DatedPut(ring: seq<Entry>, base: nat, armed: map<Timer, Deadline>, p: nat, e: Entry, rank: nat)
    requires p <= |ring| && Dated(ring, base, armed) && e.timer !in armed
    ensures Dated(Put(ring, p, e), base, armed[e.timer := Deadline(base + e.at, rank)])
  {
    PutIndex(ring, p, e);
    hide Put;
  }

  lemma ListsPut(ring: seq<Entry>, base: nat, armed: map<Timer, Deadline>, p: nat, e: Entry, rank: nat)
    requires p <= |ring| && Lists(ring, base, armed) && e.timer !in armed
    requires forall u :: u in armed ==> armed[u].rank < rank
    requires p > 0 ==> ring[p - 1].at <= e.at
    requires forall i :: p <= i < |ring| ==> e.at < ring[i].at
    ensures Lists(Put(ring, p, e), base, armed[e.timer := Deadline(base + e.at, rank)])
  {
    DatedPut(ring, base, armed, p, e, rank);
    PutCovers(ring, armed, p, e, Deadline(base + e.at, rank));
    SortedPut(ring, base, armed, p, e, rank);
    hide Put, Covers, Sorted;
  }

  lemma SortedPut(ring: seq<Entry>, base: nat, armed: map<Timer, Deadline>, p: nat, e: Entry, rank: nat)
    requires p <= |ring| && Dated(ring, base, armed) && Sorted(ring, armed) && e.timer !in armed
    requires forall u :: u in armed ==> armed[u].rank < rank
    requires p > 0 ==> ring[p - 1].at <= e.at
    requires forall i :: p <= i < |ring| ==> e.at < ring[i].at
    ensures var armed1 := armed[e.timer := Deadline(base + e.at, rank)];
            && (forall i :: 0 <= i < |Put(ring, p, e)| ==> Put(ring, p, e)[i].timer in armed1)
            && Sorted(Put(ring, p, e), armed1)
  {
    var d := Deadline(base + e.at, rank);
    var armed1 := armed[e.timer := d];
    PutIndex(ring, p, e);
    var r := Put(ring, p, e);
    hide Put;
    forall i | 0 <= i < p ensures Earlier(armed[ring[i].timer], d) {
      assert i < p - 1 ==> Earlier(armed[ring[i].timer], armed[ring[p - 1].timer]);
    }
    forall i | p <= i < |ring| ensures Earlier(d, armed[ring[i].timer]) {}
    hide Earlier;
    forall i, j | 0 <= i < j < |r| ensures Earlier(armed1[r[i].timer], armed1[r[j].timer]) {
      if i != p && j != p {
        var i0, j0 := if i < p then i else i - 1, if j < p then j else j - 1;
        assert Earlier(armed[ring[i0].timer], armed[ring[j0].timer]);
      }
    }
  }

  lemma ListsInsert(ring: seq<Entry>, base: nat, armed: map<Timer, Deadline>, e: Entry, rank: nat)
    requires Lists(ring, base, armed) && e.timer !in armed
    requires forall u :: u in armed ==> armed[u].rank < rank
    ensures Lists(Insert(ring, e), base, armed[e.timer := Deadline(base + e.at, rank)])
  {
    var p := InsertAt(ring, e);
    ListsPut(ring, base, armed, p, e, rank);
  }

  lemma NotLinked(ring: seq<Entry>, base: nat, armed: map<Timer, Deadline>, t: Timer)
    requires Lists(ring, base, armed) && t !in armed
    ensures Scheduled(ring, t) == 0
  {
    ScheduledNone(ring, t);
  }

  lemma DisarmModels(q: State, base: nat, a: Clock, t: Timer) returns (base1: nat)
    requires Models(q, base, a) && Discreet(q, t)
    ensures Models(if Scheduled(q.ring, t) != 0 then RemoveTimer(q, t) else q, base1, Disarm(a, t))
    ensures t !in Disarm(a, t).armed
  {
    base1 := base;
    if t in a.armed {
      ListsWithout(q.ring, base, a.armed, t);
      assert Linked(q.ring, t);
      if Without(q.ring, t) == [] {
        base1 := base + q.elapsed;
        assert forall u :: u in a.armed - {t} ==> Linked([], u);
      } else {
        assert Without(q.ring, t)[0].timer in a.armed - {t};
      }
    } else {
      NotLinked(q.ring, base, a.armed, t);
    }
  }

  /** The command does not address a timer that is linked at zero, unless it is refused anyway. */
  ghost predicate Heeded(q: State, c: Command) { (c.Set? && c.timeout == 0) || Discreet(q, c.timer) }

  ghost predicate HeededAll(q: State, cs: seq<Command>)
    decreases |cs|
  {
    cs == [] || (Heeded(q, cs[0]) && HeededAll(Obey(q, cs[0]), cs[1..]))
  }

  /** The procedures of one advance never address a timer that is linked at zero. */
  ghost predicate HeededScript(q: State, script: Script)
    requires GentleScript(script) && q.elapsed <= 0xFFFF
    decreases Due(q.ring, q.elapsed)
  {
    if q.ring == [] || q.ring[0].at > q.elapsed then true
    else
      var q1 := q.(ring := q.ring[1..]);
      ObeyAllKeepsDue(q1, Head(script));
      HeededAll(q1, Head(script)) && HeededScript(ObeyAll(q1, Head(script)), Tail(script))
  }

  /** The time the command schedules, on the clock as unlinking the timer leaves it, fits 32 bits. */
  predicate Fits(q: State, c: Command) {
    c.Set? && c.timeout > 0 ==> KillTimer(q, c.timer).elapsed + c.timeout < 0x1_0000_0000
  }

  lemma GentleFits(q: State, c: Command)
    requires (c.Set? ==> c.timeout < LIMIT) && q.elapsed <= 0xFFFF
    ensures Fits(q, c)
  {
    hide Scheduled, Without;
  }

  lemma ObeyModels(q: State, base: nat, a: Clock, c: Command) returns (base1: nat)
    requires Models(q, base, a) && Heeded(q, c) && Fits(q, c)
    ensures Models(Obey(q, c), base1, Apply(a, c))
  {
    match c
    case Kill(t) => base1 := DisarmModels(q, base, a, t);
    case Set(t, timeout) => base1 := SetModels(q, base, a, t, timeout);
  }

  /** Entries at zero come first, and their timers read as not linked. */
  lemma ZeroReadsUnlinked(q: State, base: nat, a: Clock, i: nat)
    requires Models(q, base, a) && i < |q.ring| && q.ring[i].at == 0
    ensures Scheduled(q.ring, q.ring[i].timer) == 0
    ensures forall j :: 0 <= j < i ==> q.ring[j].at == 0
  {
    forall j | 0 <= j < i ensures q.ring[j].at == 0 && q.ring[j].timer != q.ring[i].timer {
      assert Earlier(a.armed[q.ring[j].timer], a.armed[q.ring[i].timer]);
    }
    WithoutAt(q.ring, q.ring[i].timer, i);
  }

  /** The list enumerates the armed timers, whenever its last rebase was. */
  ghost predicate Follows(q: State, a: Clock) { exists base :: Models(q, base, a) }

  /** A command does to the list what it does to the deadlines if and only if it does not address a timer
      linked at zero and the time it schedules fits 32 bits. */
  lemma ObeyModelsIff(q: State, base: nat, a: Clock, c: Command)
    requires Models(q, base, a)
    ensures Follows(Obey(q, c), Apply(a, c)) <==> Heeded(q, c) && Fits(q, c)
  {
    hide Models, Obey, Apply, Heeded, Fits;
    if Heeded(q, c) && Fits(q, c) {
      var base1 := ObeyModels(q, base, a, c);
    } else {
      forall base1: nat ensures !Models(Obey(q, c), base1, Apply(a, c)) {
        if Heeded(q, c) { NotFitting(q, base, a, c, base1); } else { NotHeeded(q, base, a, c, base1); }
      }
    }
  }

  lemma NotHeeded(q: State, base: nat, a: Clock, c: Command, base1: nat)
    requires Models(q, base, a) && !Heeded(q, c)
    ensures !Models(Obey(q, c), base1, Apply(a, c))
  {
    hide Models, Insert, Scheduled, Without, Lists, U32;
    var i :| 0 <= i < |q.ring| && q.ring[i].timer == c.timer && q.ring[i].at == 0;
    ZeroReadsUnlinked(q, base, a, i);
    var q1, a1 := Obey(q, c), Apply(a, c);
    if Models(q1, base1, a1) {
      ModelsLists(q1, base1, a1);
      match c
      case Kill(t) => StillLinked(q.ring, i, base1, a1.armed);
      case Set(t, timeout) => LinkedTwice(q.ring, i, Entry(t, U32(q.elapsed + timeout)), base1, a1.armed);
    }
  }

  lemma ModelsLists(q: State, base: nat, a: Clock)
    requires Models(q, base, a)
    ensures Lists(q.ring, base, a.armed)
  {
  }

  lemma StillLinked(ring: seq<Entry>, i: nat, base: nat, armed: map<Timer, Deadline>)
    requires i < |ring| && ring[i].timer !in armed
    ensures !Lists(ring, base, armed)
  {
  }

  /** No timer has two entries. */
  lemma OneEntryEach(ring: seq<Entry>, base: nat, armed: map<Timer, Deadline>)
    requires Lists(ring, base, armed)
    ensures forall k, l :: 0 <= k < l < |ring| ==> ring[k].timer != ring[l].timer
  {
    forall k, l | 0 <= k < l < |ring| ensures ring[k].timer != ring[l].timer {
      assert Earlier(armed[ring[k].timer], armed[ring[l].timer]);
    }
  }

  lemma LinkedTwice(ring: seq<Entry>, i: nat, e: Entry, base: nat, armed: map<Timer, Deadline>)
    requires i < |ring| && ring[i].timer == e.timer
    ensures !Lists(Insert(ring, e), base, armed)
  {
    hide Lists;
    var p := InsertAt(ring, e);
    PutIndex(ring, p, e);
    var r := Insert(ring, e);
    assert r == Put(ring, p, e);
    hide Insert, Put;
    assert r[p] == e && r[if i < p then i else i + 1] == ring[i];
    if Lists(r, base, armed) { OneEntryEach(r, base, armed); }
  }

  lemma NotFitting(q: State, base: nat, a: Clock, c: Command, base1: nat)
    requires Models(q, base, a) && Heeded(q, c) && !Fits(q, c)
    ensures !Models(Obey(q, c), base1, Apply(a, c))
  {
    var q1 := KillTimer(q, c.timer);
    var e := Entry(c.timer, U32(q1.elapsed + c.timeout));
    assert Obey(q, c) == q1.(ring := Insert(q1.ring, e));
    WrongDate(q1.ring, e, base1, Apply(a, c).armed);
    hide Insert, Scheduled, Without, RemoveTimer, KillTimer, SetTimer, Heeded;
  }

  /** An entry at another time than its deadline. */
  lemma WrongDate(ring: seq<Entry>, e: Entry, base: nat, armed: map<Timer, Deadline>)
    ensures Dated(Insert(ring, e), base, armed) ==> e.timer in armed && armed[e.timer].due == base + e.at
  {
    var p := InsertAt(ring, e);
    PutIndex(ring, p, e);
    var r := Insert(ring, e);
    assert r == Put(ring, p, e);
    hide Insert, Put;
    assert r[p] == e;
  }

  lemma SetModels(q: State, base: nat, a: Clock, t: Timer, timeout: uint32) returns (base1: nat)
    requires Models(q, base, a) && Heeded(q, Set(t, timeout)) && Fits(q, Set(t, timeout))
    ensures Models(SetTimer(q, t, timeout), base1, Apply(a, Set(t, timeout)))
  {
    hide Models;
    if timeout == 0 {
      base1 := base;
    } else {
      base1 := DisarmModels(q, base, a, t);
      var q1 := if Scheduled(q.ring, t) != 0 then RemoveTimer(q, t) else q;
      ArmModels(q1, base1, Disarm(a, t), t, timeout);
    }
  }

  lemma ArmModels(q: State, base: nat, a: Clock, t: Timer, timeout: uint32)
    requires Models(q, base, a) && t !in a.armed
    requires q.elapsed + timeout < 0x1_0000_0000
    ensures Models(q.(ring := Insert(q.ring, Entry(t, U32(q.elapsed + timeout)))), base,
                   a.(armed := a.armed[t := Deadline(a.now + timeout, a.next)], next := a.next + 1))
  {
    ListsInsert(q.ring, base, a.armed, Entry(t, q.elapsed + timeout), a.next);
    hide Insert, Lists;
  }

  lemma {:induction false} ObeyAllModels(q: State, base: nat, a: Clock, cs: seq<Command>) returns (base1: nat)
    requires Models(q, base, a) && HeededAll(q, cs)
    requires Gentle(cs) && q.elapsed <= 0xFFFF
    ensures Models(ObeyAll(q, cs), base1, ApplyAll(a, cs))
    decreases |cs|
  {
    hide Models, Obey, Apply, Heeded, Fits;
    if cs == [] {
      base1 := base;
    } else {
      ObeyKeepsDue(q, cs[0]);
      GentleFits(q, cs[0]);
      base1 := ObeyModels(q, base, a, cs[0]);
      base1 := ObeyAllModels(Obey(q, cs[0]), base1, Apply(a, cs[0]), cs[1..]);
    }
  }

  lemma PopModels(q: State, base: nat, a: Clock)
    requires Models(q, base, a) && q.ring != [] && q.ring[0].at <= q.elapsed
    ensures IsNext(a, q.ring[0].timer)
    ensures Models(q.(ring := q.ring[1..]), base, a.(armed := a.armed - {q.ring[0].timer}))
  {
    ListsCut(q.ring, base, a.armed, 0);
    assert Cut(q.ring, 0) == q.ring[1..];
    var t := q.ring[0].timer;
    forall u | u in a.armed && u != t ensures Earlier(a.armed[t], a.armed[u]) {
      assert Linked(q.ring, u);
    }
  }

  lemma {:induction false} FireModels(q: State, base: nat, a: Clock, script: Script) returns (base1: nat)
    requires GentleScript(script) && q.elapsed <= 0xFFFF && Models(q, base, a)
    requires HeededScript(q, script)
    ensures var (q1, fired) := Fire(q, script);
            Legal(a, script, fired) && Models(q1, base1, After(a, script, fired)) && q1.elapsed <= q.elapsed
    decreases Due(q.ring, q.elapsed)
  {
    if q.ring == [] || q.ring[0].at > q.elapsed {
      base1 := base;
      forall t | t in a.armed ensures a.now < a.armed[t].due {
        assert Linked(q.ring, t);
        var i :| 0 <= i < |q.ring| && q.ring[i].timer == t;
        assert i > 0 ==> Earlier(a.armed[q.ring[0].timer], a.armed[t]);
      }
    } else {
      PopModels(q, base, a);
      hide Models, IsNext, Quiet;
      var q1 := q.(ring := q.ring[1..]);
      ObeyAllKeepsDue(q1, Head(script));
      base1 := ObeyAllModels(q1, base, a.(armed := a.armed - {q.ring[0].timer}), Head(script));
      base1 := FireModels(ObeyAll(q1, Head(script)), base1, Report(a, q.ring[0].timer, Head(script)), Tail(script));
    }
  }

  // ---------------------------------------------------------------- the clock

  /** The clock does not wrap, and if it is rebased once `time` has passed, no timer is overdue then. */
  ghost predicate Timely(q: State, time: uint32) {
    && q.elapsed + time < 0x1_0000_0000
    && (q.elapsed + time >= 0xFFFF ==> forall i :: 0 <= i < |q.ring| ==> q.elapsed + time <= q.ring[i].at)
  }

  /** Rebasing is invisible to the deadlines exactly when no timer is overdue. */
  lemma RebaseInvisible(q: State, base: nat)
    ensures (forall i :: 0 <= i < |q.ring| ==> base + q.elapsed + Rebase(q).ring[i].at == base + q.ring[i].at)
       <==> (forall i :: 0 <= i < |q.ring| ==> q.elapsed <= q.ring[i].at)
  {
    forall i | 0 <= i < |q.ring|
      ensures q.elapsed + U32(q.ring[i].at - q.elapsed) == q.ring[i].at <==> q.elapsed <= q.ring[i].at
    {
    }
  }

  /** A timer overdue at a rebase misses its report, and every later one for over a month. */
  lemma OverdueMissesReport(q: State, i: nat, time: uint32)
    requires i < |q.ring| && q.elapsed + time < 0x1_0000_0000
    requires 0xFFFF <= q.elapsed + time < q.ring[i].at + 0x1_0000 && q.ring[i].at < q.elapsed + time
    ensures var q1 := Tick(q, time);
            q1.elapsed == 0 && q1.ring[i].timer == q.ring[i].timer && q1.ring[i].at > 0xFFFE_FFFF
  {
  }

  lemma TickModels(q: State, base: nat, a: Clock, time: uint32) returns (base1: nat)
    requires Models(q, base, a) && Timely(q, time)
    ensures Models(Tick(q, time), base1, a.(now := a.now + time))
  {
    var q1 := q.(elapsed := q.elapsed + time);
    if q1.elapsed < 0xFFFF {
      base1 := base;
    } else {
      base1 := base + q1.elapsed;
      ListsShifted(q.ring, base, Rebase(q1).ring, base1, a.armed);
      hide Lists;
    }
  }

  lemma ListsShifted(ring: seq<Entry>, base: nat, r: seq<Entry>, base1: nat, armed: map<Timer, Deadline>)
    requires Lists(ring, base, armed) && |r| == |ring|
    requires forall i :: 0 <= i < |r| ==> r[i].timer == ring[i].timer && base1 + r[i].at == base + ring[i].at
    ensures Lists(r, base1, armed)
  {
    forall t | t in armed ensures Linked(r, t) {
      assert Linked(ring, t);
      var i :| 0 <= i < |ring| && ring[i].timer == t;
      assert r[i].timer == t;
    }
  }

  /** While time passes the deadlines stay where they were, whether the clock is rebased or not, if
      and only if no timer is overdue at a rebase. */
  lemma TickModelsIff(q: State, base: nat, a: Clock, time: uint32)
    requires Models(q, base, a) && q.ring != []
    ensures Follows(Tick(q, time), a.(now := a.now + time)) <==> Timely(q, time)
  {
    hide Models;
    if Timely(q, time) {
      var base1 := TickModels(q, base, a, time);
    } else {
      var b := a.(now := a.now + time);
      forall base1: nat ensures !Models(Tick(q, time), base1, b) {
        NotTimely(q, base, a, time, base1);
      }
    }
  }

  lemma NotTimely(q: State, base: nat, a: Clock, time: uint32, base1: nat)
    requires Models(q, base, a) && q.ring != [] && !Timely(q, time)
    ensures !Models(Tick(q, time), base1, a.(now := a.now + time))
  {
    var now := q.elapsed + time;
    var i := 0;
    if now < 0x1_0000_0000 { i :| 0 <= i < |q.ring| && q.ring[i].at < now; }
    assert Tick(q, time).ring[i].timer == q.ring[i].timer;
    hide Sorted, Covers;
  }

  // ---------------------------------------------------------------- the current timeout

  /** The timeout handed out is the time left until the earliest deadline, as long as that has not passed:
      a timer is linked if and only if one is armed, and no other is due before the first. */
  lemma TimeoutIsNext(q: State, base: nat, a: Clock)
    requires Models(q, base, a)
    ensures q.ring == [] <==> a.armed == map[]
    ensures q.ring != [] ==>
              var t := q.ring[0].timer;
              && t in a.armed && (forall u :: u in a.armed ==> a.armed[t].due <= a.armed[u].due)
              && U32(q.ring[0].at - q.elapsed) == U32(a.armed[t].due - a.now)
              && (a.now <= a.armed[t].due ==> U32(q.ring[0].at - q.elapsed) == a.armed[t].due - a.now)
  {
    hide U32;
    if a.armed != map[] {
      var t :| t in a.armed;
      assert Linked(q.ring, t);
    }
    if q.ring != [] {
      var t := q.ring[0].timer;
      assert a.armed[t].due == base + q.ring[0].at;
      forall u | u in a.armed ensures a.armed[t].due <= a.armed[u].due {
        assert Linked(q.ring, u);
        var i :| 0 <= i < |q.ring| && q.ring[i].timer == u;
      }
      Small(q.ring[0].at - q.elapsed);
    }
  }

  lemma Small(x: int)
    ensures 0 <= x < 0x1_0000_0000 ==> U32(x) == x
  {
  }
}
