/** Packets that come in time are played as long after each other as they were sent. */
module JitterBufferOnTime {
  import opened Options
  import opened Machine
  import opened JitterBuffer
  import opened JitterBufferLatePath
  import opened JitterBufferRing
  import opened JitterBufferTimetable
  import Arith

  /** The operation finds an anchor and keeps it, and delays nothing. */
  predicate Calm(c: Config, tt: Timetable, op: Op)
    requires 0 < c.frameTs
  {
    && tt.anchor.Some?
    && match op
       case Put(_, ts, marker) => Marked(c, tt, marker) == tt && Due(c, tt, ts) >= Reader(c, tt)
       case PutNamed(ev, ts, marker) => AfterNamed(c, tt, ev, ts, marker).delay == tt.delay
       case Get => true
       case Reset => false
  }

  predicate AllCalm(c: Config, tt: Timetable, ops: seq<Op>)
    requires 0 < c.frameTs
    decreases |ops|
  {
    ops == [] || (Calm(c, tt, ops[0]) && AllCalm(c, After(c, tt, ops[0]), ops[1..]))
  }

  lemma CalmStep(c: Config, tt: Timetable, op: Op)
    requires 0 < c.frameTs && Calm(c, tt, op)
    ensures After(c, tt, op).anchor == tt.anchor && After(c, tt, op).delay == tt.delay
  {
    hide Due, Length, LogStore, LogEvent, FramesTo;
  }

  lemma {:induction false} CalmKeeps(c: Config, tt: Timetable, ops: seq<Op>)
    requires 0 < c.frameTs && AllCalm(c, tt, ops)
    ensures TimetableOf(c, tt, ops).anchor == tt.anchor && TimetableOf(c, tt, ops).delay == tt.delay
    decreases |ops|
  {
    hide Calm, After;
    if ops != [] {
      CalmStep(c, tt, ops[0]);
      CalmKeeps(c, After(c, tt, ops[0]), ops[1..]);
    }
  }

  /** None of the operations changes what frame `m` has to play. */
  predicate AllLeave(c: Config, tt: Timetable, ops: seq<Op>, m: nat)
    requires 0 < c.frameTs
    decreases |ops|
  {
    ops == [] || (At(After(c, tt, ops[0]).log, m) == At(tt.log, m) && AllLeave(c, After(c, tt, ops[0]), ops[1..], m))
  }

  lemma {:induction false} LeftAlone(c: Config, tt: Timetable, ops: seq<Op>, m: nat)
    requires 0 < c.frameTs && AllLeave(c, tt, ops, m)
    ensures At(TimetableOf(c, tt, ops).log, m) == At(tt.log, m)
    decreases |ops|
  {
    hide After, At;
    if ops != [] { LeftAlone(c, After(c, tt, ops[0]), ops[1..], m); }
  }

  lemma {:induction false} TimetableSplit(c: Config, tt: Timetable, a: seq<Op>, b: seq<Op>)
    requires 0 < c.frameTs
    ensures TimetableOf(c, tt, a + b) == TimetableOf(c, TimetableOf(c, tt, a), b)
    ensures Playable(c, tt, a + b) <==> Playable(c, tt, a) && Playable(c, TimetableOf(c, tt, a), b)
    ensures AllCalm(c, tt, a + b) <==> AllCalm(c, tt, a) && AllCalm(c, TimetableOf(c, tt, a), b)
    decreases |a|
  {
    hide After, Feasible, Exhausted, Calm;
    if a == [] {
      assert a + b == b;
    } else {
      assert (a + b)[0] == a[0] && (a + b)[1..] == a[1..] + b;
      TimetableSplit(c, After(c, tt, a[0]), a[1..], b);
    }
  }

  lemma TimetableOne(c: Config, tt: Timetable, op: Op)
    requires 0 < c.frameTs
    ensures TimetableOf(c, tt, [op]) == After(c, tt, op) && (AllCalm(c, tt, [op]) <==> Calm(c, tt, op))
    ensures Playable(c, tt, [op]) <==> Feasible(c, tt, op) && (op.Reset? ==> Exhausted(tt))
  {
    hide After, Feasible, Exhausted, Calm;
    assert [op][1..] == [];
  }

  /** The packet is synchronised with: there is no anchor, or a marker and nothing left to be read. */
  predicate Synchronises(c: Config, tt: Timetable, op: Op) {
    op.Put? && (tt.anchor.None? || (op.marker && tt.end <= Reader(c, tt)))
  }

  /** It is the anchor then, and is itself played after the delay. */
  lemma SynchronisedPut(c: Config, tt: Timetable, op: Op)
    requires 0 < c.frameTs && Synchronises(c, tt, op) && tt.delay < Span(c) && Feasible(c, tt, op)
    ensures var r := After(c, tt, op);
            r.anchor == Some(Anchor(op.ts, Reader(c, tt))) && r.delay == tt.delay
  {
    hide Length, LogStore, FramesTo, U32;
    var r := Anchored(c, Marked(c, tt, op.marker), op.ts);
    ReaderOnFrame(c, tt);
    InWord(Reader(c, tt) + tt.delay);
    AlignAbove(Reader(c, tt) + tt.delay, Reader(c, tt), c.frameTs);
    hide OnFrame, Align;
    assert Due(c, r, op.ts) >= Reader(c, r);
  }

  lemma InWord(x: nat)
    requires x < 0x1_0000_0000
    ensures U32(x) == x
  {
  }

  lemma ReaderOnFrame(c: Config, tt: Timetable)
    requires 0 < c.frameTs
    ensures OnFrame(Reader(c, tt), c.frameTs) && Reader(c, tt) / c.frameTs == tt.next
  {
    Arith.DivModUnique(Reader(c, tt), c.frameTs, tt.next, 0);
  }

  lemma {:induction false} EnoughStored(c: Config, data: seq<Byte>, available: nat, k: nat)
    requires 0 < c.frameSize && k < available && (k + 1) * c.frameSize <= |data|
    ensures k < Stored(c, data, available)
    decreases k
  {
    PiecesFit(k, c.frameSize);
    if k > 0 { EnoughStored(c, data[c.frameSize..], available - 1, k - 1); }
  }

  lemma PiecesFit(k: nat, size: nat)
    ensures (k + 1) * size == k * size + size && k * size >= 0
    ensures k > 0 ==> (k - 1 + 1) * size == k * size
  {
    Arith.Product(k, size);
  }

  /** What a packet that is due in time does to the log: piece `k` goes to the `k`-th frame from its place on,
      and every frame but those of its pieces is left alone. */
  lemma PutInTime(c: Config, tt: Timetable, data: seq<Byte>, ts: uint32, marker: bool, k: nat)
    requires 0 < c.frameTs && 0 < c.frameSize && Calm(c, tt, Put(data, ts, marker))
    requires var n := Due(c, tt, ts) / c.frameTs;
             (k + 1) * c.frameSize <= |data| && tt.next <= n && n + k < tt.next + c.frameCount
    ensures var n := Due(c, tt, ts) / c.frameTs;
            var log := After(c, tt, Put(data, ts, marker)).log;
            && 0 <= k * c.frameSize <= k * c.frameSize + c.frameSize <= |data|
            && At(log, n + k).audio && At(log, n + k).payload == data[k * c.frameSize..k * c.frameSize + c.frameSize]
            && forall m: nat :: m < n || |data| < (m - n + 1) * c.frameSize ==> At(log, m) == At(tt.log, m)
  {
    hide Due, Length, LogStore, Stored, FrameNo, At;
    var w := Due(c, tt, ts);
    var n := w / c.frameTs;
    PlaceNumber(c, tt, w);
    var available := c.frameCount - FramesTo(c, tt, w);
    hide FramesTo;
    EnoughStored(c, data, available, k);
    StoredFrame(c, tt.log, n, data, available, k);
    forall m: nat | m < n || |data| < (m - n + 1) * c.frameSize
      ensures At(LogStore(c, tt.log, n, data, available), m) == At(tt.log, m)
    {
      StoredOnly(c, tt.log, n, data, available, m);
    }
  }

  lemma PlaceNumber(c: Config, tt: Timetable, w: uint32)
    requires 0 < c.frameTs && Reader(c, tt) <= w
    ensures w / c.frameTs == tt.next + FramesTo(c, tt, w)
  {
    AheadIs(c, tt, Reader(c, tt), w);
    if Reader(c, tt) < 0x1_0000_0000 { Position(c, tt.next, w); }
    hide Length, FramesTo, Ahead;
  }

  /** Nothing is stored before the first piece, or behind the last. */
  lemma StoredOnly(c: Config, log: Log, n: nat, data: seq<Byte>, available: nat, m: nat)
    requires 0 < c.frameSize && (m < n || |data| < (m - n + 1) * c.frameSize)
    ensures At(LogStore(c, log, n, data, available), m) == At(log, m)
  {
    hide At, LogStore;
    LogStoreKeys(c, log, n, data, available);
    if n <= m { StoredAtMost(c, data, available, m - n); }
  }

  lemma {:induction false} StoredAtMost(c: Config, data: seq<Byte>, available: nat, k: nat)
    requires 0 < c.frameSize && |data| < (k + 1) * c.frameSize
    ensures Stored(c, data, available) <= k
    decreases available
  {
    PiecesFit(k, c.frameSize);
    if available > 0 && |data| >= c.frameSize { StoredAtMost(c, data[c.frameSize..], available - 1, k - 1); }
  }

  /** A run with a packet that is synchronised with, and another one later. */
  datatype Scene = Scene(before: seq<Op>, first: Op, between: seq<Op>, packet: Op, after: seq<Op>)

  function AllOps(e: Scene): seq<Op> { e.before + [e.first] + e.between + [e.packet] + e.after }

  /** The timetable before the first packet, after it, and before the other one. */
  function Opening(c: Config, e: Scene): Timetable
    requires 0 < c.frameTs
  {
    TimetableOf(c, NewTimetable(c), e.before)
  }

  function Anchoring(c: Config, e: Scene): Timetable
    requires 0 < c.frameTs
  {
    After(c, Opening(c, e), e.first)
  }

  function Awaiting(c: Config, e: Scene): Timetable
    requires 0 < c.frameTs
  {
    TimetableOf(c, Anchoring(c, e), e.between)
  }

  /** The first packet is synchronised with; from then on up to the other one, this included, nothing is
      late and nothing else is synchronised with. */
  predicate InTime(c: Config, e: Scene)
    requires 0 < c.frameTs
  {
    && e.first.Put? && e.packet.Put? && Synchronises(c, Opening(c, e), e.first)
    && AllCalm(c, Anchoring(c, e), e.between) && Calm(c, Awaiting(c, e), e.packet)
  }

  /** The frame that is due as much later than the delay, after the reader's position at the first packet, as
      the other packet's timestamp is behind the first one's. */
  function FrameDue(c: Config, e: Scene): nat
    requires 0 < c.frameTs && e.first.Put? && e.packet.Put?
  {
    var due := Align(U32(Reader(c, Opening(c, e)) + (e.packet.ts - e.first.ts) + Opening(c, e).delay), c.frameTs);
    QuotientNat(due, c.frameTs);
    due / c.frameTs
  }

  /** The packet has a `k`-th piece, the ring room for it, and nothing else is written there later. */
  predicate PieceKept(c: Config, e: Scene, k: nat)
    requires 0 < c.frameTs && InTime(c, e)
  {
    && (k + 1) * c.frameSize <= |e.packet.data| && FrameDue(c, e) + k < Awaiting(c, e).next + c.frameCount
    && AllLeave(c, After(c, Awaiting(c, e), e.packet), e.after, FrameDue(c, e) + k)
  }

  ghost predicate IsPiece(f: Frame, data: seq<Byte>, size: nat, k: nat) {
    f.audio && 0 <= k * size <= k * size + size <= |data| && f.payload == data[k * size..k * size + size]
  }

  /** In time: after a synchronisation with a packet, and as long as nothing is late, the k-th piece of a
      packet is what the k-th read returns from the frame on that is due as long after the reader's position
      then as their timestamps are apart, and the delay later. */
  lemma PlayedOnTime(c: Config, e: Scene, k: nat)
    requires Configured(c) && 0 < c.frameSize && Playable(c, NewTimetable(c), AllOps(e))
    requires InTime(c, e) && PieceKept(c, e, k)
    ensures var out := Outputs(c, Init(c), AllOps(e));
            FrameDue(c, e) + k < |out| ==> IsPiece(out[FrameDue(c, e) + k], e.packet.data, c.frameSize, k)
  {
    hide After, Playable, TimetableOf, AllCalm, AllLeave, Outputs, At, FrameDue, Synchronises, Init, IsPiece, Calm,
      Length;
    SceneSplit(c, e);
    FrameDueIs(c, e);
    PutInTime(c, Awaiting(c, e), e.packet.data, e.packet.ts, e.packet.marker, k);
    LeftAlone(c, After(c, Awaiting(c, e), e.packet), e.after, FrameDue(c, e) + k);
    PieceIs(c, e, k);
    ReadsOnTime(c, AllOps(e));
  }

  lemma PieceIs(c: Config, e: Scene, k: nat)
    requires 0 < c.frameTs && InTime(c, e)
    requires var n := FrameDue(c, e) + k;
             && 0 <= k * c.frameSize <= k * c.frameSize + c.frameSize <= |e.packet.data|
             && var f := At(After(c, Awaiting(c, e), e.packet).log, n);
                f.audio && f.payload == e.packet.data[k * c.frameSize..k * c.frameSize + c.frameSize]
    ensures IsPiece(At(After(c, Awaiting(c, e), e.packet).log, FrameDue(c, e) + k), e.packet.data, c.frameSize, k)
  {
    hide After, FrameDue, Awaiting, InTime, At;
  }

  /** The timetables of a scene are those of its run. */
  lemma SceneSplit(c: Config, e: Scene)
    requires 0 < c.frameTs
    ensures TimetableOf(c, NewTimetable(c), AllOps(e))
         == TimetableOf(c, After(c, Awaiting(c, e), e.packet), e.after)
    ensures Playable(c, NewTimetable(c), AllOps(e)) ==>
              Playable(c, NewTimetable(c), e.before) && Feasible(c, Opening(c, e), e.first)
  {
    hide After, Playable, TimetableOf, AllCalm, Feasible, Exhausted;
    var start, t0, t1, t2 := NewTimetable(c), Opening(c, e), Anchoring(c, e), Awaiting(c, e);
    var tail := [e.packet] + e.after;
    assert AllOps(e) == e.before + ([e.first] + (e.between + tail));
    TimetableSplit(c, start, e.before, [e.first] + (e.between + tail));
    TimetableSplit(c, t0, [e.first], e.between + tail);
    TimetableOne(c, t0, e.first);
    TimetableSplit(c, t1, e.between, tail);
    TimetableSplit(c, t2, [e.packet], e.after);
    TimetableOne(c, t2, e.packet);
  }

  /** The packet is due at its frame. */
  lemma FrameDueIs(c: Config, e: Scene)
    requires Configured(c) && InTime(c, e)
    requires Playable(c, NewTimetable(c), e.before) && Feasible(c, Opening(c, e), e.first)
    ensures Due(c, Awaiting(c, e), e.packet.ts) / c.frameTs == FrameDue(c, e) >= Awaiting(c, e).next
    ensures Awaiting(c, e).anchor.Some?
  {
    hide After, Playable, TimetableOf, AllCalm, Feasible, Synchronises, Reader, Due, Align, U32;
    var t0, t1, t2 := Opening(c, e), Anchoring(c, e), Awaiting(c, e);
    DelayBound(c, e.before);
    SynchronisedPut(c, t0, e.first);
    CalmKeeps(c, t1, e.between);
    DueIs(c, t2, e.packet, e.first.ts, Reader(c, t0), t0.delay);
  }

  /** A packet found calm is due by the anchor, and not before the reader's frame. */
  lemma DueIs(c: Config, tt: Timetable, op: Op, ts0: uint32, r0: nat, d: nat)
    requires 0 < c.frameTs && op.Put? && Calm(c, tt, op) && tt.anchor == Some(Anchor(ts0, r0)) && tt.delay == d
    ensures Due(c, tt, op.ts) == Align(U32(r0 + (op.ts - ts0) + d), c.frameTs)
    ensures tt.next <= Due(c, tt, op.ts) / c.frameTs
  {
    hide U32, Align;
    ReaderOnFrame(c, tt);
    Arith.DivMonotone(Reader(c, tt), Due(c, tt, op.ts), c.frameTs);
    hide Length;
  }

  /** The delay never exceeds its maximum. */
  lemma DelayBound(c: Config, ops: seq<Op>)
    requires Configured(c) && Playable(c, NewTimetable(c), ops)
    ensures TimetableOf(c, NewTimetable(c), ops).delay < Span(c)
  {
    hide Init, Pending, Shows, Reachable, Length, Playable, TimetableOf, OnFrame;
    InitRefines(c);
    NewMatches(c);
    NewLog(c);
    RunMatches(c, Init(c), NewTimetable(c), ops);
    RunKeepsInvariant(c, Init(c), ops);
  }

  /** A late packet that is still played, with no time-skew detection, is played as soon as possible, and
      everything after it is due as much later as it was late. */
  lemma LateDelays(c: Config, tt: Timetable, ts: uint32, later: uint32)
    requires 0 < c.frameTs && tt.anchor.Some? && !c.skewDetection && tt.end <= Due(c, tt, ts) < Reader(c, tt)
    ensures var (r, at) := Belated(c, tt, ts);
            var late := Reader(c, tt) - Due(c, tt, ts);
            && (at.Some? <==> c.adaptive && tt.delay + late <= c.maxTs)
            && (at.Some? ==> at.value == Reader(c, tt) && Raw(r, later) == U32(Raw(tt, later) + late))
            && (at.None? ==> r == tt)
  {
    hide Due, Length, U32;
    var late := Reader(c, tt) - Due(c, tt, ts);
    Wrapped(tt.anchor.value.reader + (later - tt.anchor.value.ts) + tt.delay, late);
  }

  /** With time-skew detection as well, whatever delay and anchor gain is what everything after the packet is
      due later by. */
  lemma LateMoves(c: Config, tt: Timetable, ts: uint32, later: uint32)
    requires 0 < c.frameTs && tt.anchor.Some? && Due(c, tt, ts) < Reader(c, tt)
    ensures var r := Belated(c, tt, ts).0;
            && r.anchor.Some? && r.delay >= tt.delay && r.anchor.value.reader >= tt.anchor.value.reader
            && var moved := (r.delay - tt.delay) + (r.anchor.value.reader - tt.anchor.value.reader);
               Raw(r, later) == U32(Raw(tt, later) + moved)
  {
    hide Due, Length, U32, Align;
    var r := Belated(c, tt, ts).0;
    if 0 < tt.high < tt.delay { WholeIsNat(c, tt.delay - tt.high); }
    assert r.anchor.value.ts == tt.anchor.value.ts;
    Wrapped(tt.anchor.value.reader + (later - tt.anchor.value.ts) + tt.delay,
            (r.delay - tt.delay) + (r.anchor.value.reader - tt.anchor.value.reader));
  }

  lemma WholeIsNat(c: Config, length: nat)
    requires 0 < c.frameTs
    ensures Whole(c, length) >= 0
  {
  }

  lemma Wrapped(x: int, d: nat)
    ensures U32(U32(x) + d) == U32(x + d)
  {
    Lowered(x);
    Wraps(x + d, -(x / 0x1_0000_0000));
    hide U32;
  }
}