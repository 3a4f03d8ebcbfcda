/** The ring of the jitter buffer refines a log of accepted frames by frame number. */
module JitterBufferRing {
  import opened Options
  import opened Machine
  import opened JitterBuffer
  import opened JitterBufferLatePath
  import Arith

  // ---------------------------------------------------------------- the ring

  /** The guard the too-early test was meant to be. */
  predicate InReach(c: Config, s: State, ts: uint32, marker: bool)
    requires 0 < c.frameTs
  {
    var (s1, at) := Place(c, s, ts, marker);
    at.Some? ==> Ahead(c, s1.readTs, at.value) <= c.frameCount
  }

  /** Frame number `n` lies in the window the ring covers, starting at frame number `r`. */
  predicate InWindow(c: Config, r: nat, n: nat) { r <= n < r + c.frameCount }

  function Slot(c: Config, n: nat): (i: nat)
    requires 0 < c.frameCount
    ensures i < c.frameCount
  {
    n % c.frameCount
  }

  /** Live timestamps never share a slot. */
  lemma SlotInjective(c: Config, r: nat, n: nat, m: nat)
    requires 0 < c.frameCount && InWindow(c, r, n) && InWindow(c, r, m)
    ensures Slot(c, n) == Slot(c, m) ==> n == m
  {
    if Slot(c, n) == Slot(c, m) { Arith.ModInjective(n, m, c.frameCount); }
  }

  /** Frames by frame number (timestamp divided by the frame length). */
  type Log = map<nat, Frame>

  function At(log: Log, n: nat): Frame { if n in log then log[n] else EMPTY }

  /** Between `r` and the write position the ring shows exactly what the log holds. */
  ghost predicate Shows(c: Config, fs: seq<Frame>, r: nat, log: Log)
    requires 0 < c.frameCount == |fs|
  {
    forall n :: InWindow(c, r, n) ==> Visible(fs[Slot(c, n)]) == At(log, n)
  }

  function LogAudio(log: Log, n: nat, chunk: seq<Byte>): Log {
    log[n := At(log, n).(audio := true, payload := chunk)]
  }

  function LogStore(c: Config, log: Log, n: nat, data: seq<Byte>, available: nat): Log
    decreases available
  {
    if available == 0 || c.frameSize == 0 || |data| < c.frameSize then log
    else LogStore(c, LogAudio(log, n, data[..c.frameSize]), n + 1, data[c.frameSize..], available - 1)
  }

  function Stored(c: Config, data: seq<Byte>, available: nat): nat
    decreases available
  {
    if available == 0 || c.frameSize == 0 || |data| < c.frameSize then 0
    else 1 + Stored(c, data[c.frameSize..], available - 1)
  }

  lemma NextNumber(c: Config, ts: nat, n: nat)
    requires 0 < c.frameTs && FrameNo(c, ts) == n
    ensures FrameNo(c, ts + c.frameTs) == n + 1
  {
    Arith.ModShift(ts, c.frameTs, 1);
  }

  lemma LengthStep(c: Config, k: nat)
    ensures Length(c, k + 1) == Length(c, k) + c.frameTs && Length(c, 0) == 0
  {
  }

  lemma StoreAudioShows(c: Config, fs: seq<Frame>, w: uint32, n: nat, chunk: seq<Byte>, r: nat, log: Log)
    requires 0 < c.frameTs && 0 < c.frameCount == |fs|
    requires FrameNo(c, w) == n && InWindow(c, r, n) && Shows(c, fs, r, log)
    ensures Shows(c, StoreAudio(c, fs, w, chunk), r, LogAudio(log, n, chunk))
  {
    assert SlotOf(c, w) == Slot(c, n);
    hide SlotOf, Slot;
    forall m: nat | InWindow(c, r, m)
      ensures Visible(StoreAudio(c, fs, w, chunk)[Slot(c, m)]) == At(LogAudio(log, n, chunk), m)
    {
      SlotInjective(c, r, n, m);
    }
  }

  /** Storing `k` frames from `w` on writes them at the frame numbers `w` stands for. */
  lemma {:induction false} StoreShows(
    c: Config, fs: seq<Frame>, w: uint32, n: nat, data: seq<Byte>, available: nat, r: nat, log: Log)
    requires 0 < c.frameTs && 0 < c.frameCount == |fs|
    requires Shows(c, fs, r, log)
    requires FrameNo(c, w) == n && r <= n && n + available <= r + c.frameCount
    requires w + Length(c, available) < 0x1_0000_0000
    ensures Shows(c, Store(c, fs, w, data, available).0, r, LogStore(c, log, n, data, available))
    ensures Store(c, fs, w, data, available).1 == w + Length(c, Stored(c, data, available))
    ensures Stored(c, data, available) <= available
    decreases available
  {
    hide SlotOf, Slot, StoreAudio, LogAudio, Shows, FrameNo, Length;
    LengthStep(c, 0);
    if !(available == 0 || c.frameSize == 0 || |data| < c.frameSize) {
      var chunk, rest := data[..c.frameSize], data[c.frameSize..];
      StoreAudioShows(c, fs, w, n, chunk, r, log);
      LengthStep(c, available - 1);
      NextNumber(c, w, n);
      StoreShows(c, StoreAudio(c, fs, w, chunk), w + c.frameTs, n + 1, rest, available - 1, r, LogAudio(log, n, chunk));
      LengthStep(c, Stored(c, rest, available - 1));
    }
  }

  lemma {:induction false} LogStoreKeys(c: Config, log: Log, n: nat, data: seq<Byte>, available: nat)
    ensures forall m :: m in LogStore(c, log, n, data, available) <==>
                        m in log || n <= m < n + Stored(c, data, available)
    ensures forall m: nat :: m < n || n + Stored(c, data, available) <= m ==>
              At(LogStore(c, log, n, data, available), m) == At(log, m)
    decreases available
  {
    if !(available == 0 || c.frameSize == 0 || |data| < c.frameSize) {
      LogStoreKeys(c, LogAudio(log, n, data[..c.frameSize]), n + 1, data[c.frameSize..], available - 1);
    }
  }

  lemma {:induction false} LengthMonotone(c: Config, k: nat, m: nat)
    requires k <= m
    ensures Length(c, k) <= Length(c, m)
    ensures k < m ==> Length(c, k) + c.frameTs <= Length(c, m)
  {
    if k < m { Arith.MulStep(k, m, c.frameTs); }
  }

  lemma LengthSum(c: Config, k: nat, m: nat)
    ensures Length(c, k) + Length(c, m) == Length(c, k + m)
  {
  }

  ghost predicate Reachable(c: Config, r: nat, log: Log) {
    forall n :: n in log && r <= n ==> n < r + c.frameCount
  }

  /** The ring of `s`, whose reader stands at frame number `r`, shows the log. */
  ghost predicate Refines(c: Config, s: State, r: nat, log: Log) {
    && Invariant(c, s)
    && s.readTs == Length(c, r)
    && Shows(c, s.frames, r, log)
    && Reachable(c, r, log)
  }

  /** What is logged for the reader lies before the write position. A restart is the one
      operation that may break this. */
  ghost predicate Pending(c: Config, writeTs: uint32, r: nat, log: Log) {
    forall n: nat :: r <= n && At(log, n) != EMPTY ==> Length(c, n) < writeTs
  }

  lemma InitRefines(c: Config)
    requires Configured(c)
    ensures Refines(c, Init(c), 0, map[]) && Pending(c, Init(c).writeTs, 0, map[])
  {
  }

  /** Where a position ahead of the reader lies, in frames. */
  lemma Position(c: Config, r: nat, w: uint32)
    requires 0 < c.frameTs && Length(c, r) <= w
    ensures var n := r + Ahead(c, Length(c, r), w);
            FrameNo(c, w) == n && Length(c, n) <= w < Length(c, n) + c.frameTs
  {
    Arith.ModShift(w - Length(c, r), c.frameTs, r);
  }

  /** The frames a write adds to the log. */
  function LogWrite(c: Config, s: State, r: nat, log: Log, data: seq<Byte>, ts: uint32, marker: bool): Log
    requires 0 < c.frameTs
  {
    var (s1, at) := Place(c, s, ts, marker);
    if at.None? || at.value < s.readTs then log
    else
      var ahead := Ahead(c, s.readTs, at.value);
      if ahead >= c.frameCount then log else LogStore(c, log, r + ahead, data, c.frameCount - ahead)
  }

  lemma StoreEnd(c: Config, r: nat, w: uint32, k: nat)
    requires 0 < c.frameTs && Length(c, r) <= w && Ahead(c, Length(c, r), w) + k <= c.frameCount
    ensures w + Length(c, k) < Length(c, r) + Span(c)
  {
    var ahead := Ahead(c, Length(c, r), w);
    Position(c, r, w);
    hide Length, Ahead, FrameNo;
    LengthStep(c, r + ahead);
    LengthSum(c, r + ahead + 1, k);
    LengthSum(c, r, ahead + k + 1);
    LengthMonotone(c, ahead + k + 1, c.frameCount + 1);
  }

  lemma StorePending(c: Config, writeTs: uint32, r: nat, log: Log, w: uint32, n: nat, data: seq<Byte>,
                     available: nat, end: uint32)
    requires 0 < c.frameTs && Reachable(c, r, log)
    requires Length(c, n) <= w && r <= n && n + available <= r + c.frameCount
    requires Stored(c, data, available) <= available && end == w + Length(c, Stored(c, data, available))
    ensures Reachable(c, r, LogStore(c, log, n, data, available))
    ensures Pending(c, writeTs, r, log) ==> Pending(c, Later(end, writeTs), r, LogStore(c, log, n, data, available))
  {
    var k := Stored(c, data, available);
    LogStoreKeys(c, log, n, data, available);
    hide LogStore, Stored, Length;
    LengthSum(c, n, k);
    forall m | n <= m < n + k ensures Length(c, m) < Later(end, writeTs) {
      LengthMonotone(c, m, n + k);
    }
  }

  lemma StoreRefines(c: Config, s: State, r: nat, log: Log, w: uint32, ahead: nat, data: seq<Byte>)
    requires Refines(c, s, r, log) && NoWrap(c, s) && s.readTs <= w
    requires ahead == Ahead(c, s.readTs, w) < c.frameCount
    ensures var (fs, end) := Store(c, s.frames, w, data, c.frameCount - ahead);
            && var log1 := LogStore(c, log, r + ahead, data, c.frameCount - ahead);
            && Refines(c, s.(frames := fs, writeTs := Later(end, s.writeTs)), r, log1)
            && (Pending(c, s.writeTs, r, log) ==> Pending(c, Later(end, s.writeTs), r, log1))
  {
    hide Store, LogStore, Shows, FrameNo, OnFrame, Stored, Ahead, Length, Pending, Reachable;
    var available := c.frameCount - ahead;
    var k := Stored(c, data, available);
    Position(c, r, w);
    StoreEnd(c, r, w, available);
    StoreShows(c, s.frames, w, r + ahead, data, available, r, log);
    LengthMonotone(c, k, available);
    StorePending(c, s.writeTs, r, log, w, r + ahead, data, available, w + Length(c, k));
  }

  /** A packet within reach changes the ring exactly as it changes the log. */
  lemma WriteRefines(c: Config, s: State, r: nat, log: Log, data: seq<Byte>, ts: uint32, marker: bool)
    requires Refines(c, s, r, log) && NoWrap(c, s)
    requires InReach(c, s, ts, marker)
    ensures var s1 := Write(c, s, data, ts, marker).0;
            var log1 := LogWrite(c, s, r, log, data, ts, marker);
            && Refines(c, s1, r, log1)
            && (Pending(c, s.writeTs, r, log) ==> Pending(c, s1.writeTs, r, log1))
  {
    hide Place, Store, LogStore, Shows, Ahead, Length, Pending, Reachable, OnFrame, Bounded;
    PlacedAheadOfReader(c, s, ts, marker);
    var (s1, at) := Place(c, s, ts, marker);
    if at.Some? {
      var ahead := Ahead(c, s1.readTs, at.value);
      if ahead < c.frameCount { StoreRefines(c, s1, r, log, at.value, ahead, data); }
    }
  }

  lemma ReadShows(c: Config, fs: seq<Frame>, readTs: uint32, r: nat, writeTs: uint32, log: Log)
    requires 0 < c.frameTs && 0 < c.frameCount == |fs|
    requires readTs == Length(c, r) && Shows(c, fs, r, log) && Reachable(c, r, log)
    ensures var i := SlotOf(c, readTs);
            && Visible(fs[i]) == At(log, r)
            && Shows(c, fs[i := fs[i].(audio := false, event := false, marker := NoMarker)], r + 1, log)
    ensures Reachable(c, r + 1, log)
    ensures Pending(c, writeTs, r, log) && readTs >= writeTs ==> At(log, r) == EMPTY
  {
    Arith.DivModUnique(readTs, c.frameTs, r, 0);
    assert SlotOf(c, readTs) == Slot(c, r);
    Arith.ModShift(r, c.frameCount, 1);
    assert Slot(c, r + c.frameCount) == Slot(c, r);
    assert InWindow(c, r, r);
    hide SlotOf, Slot, Length;
    var fs1 := fs[Slot(c, r) := fs[Slot(c, r)].(audio := false, event := false, marker := NoMarker)];
    forall n: nat | InWindow(c, r + 1, n) ensures Visible(fs1[Slot(c, n)]) == At(log, n) {
      if n < r + c.frameCount { SlotInjective(c, r, n, r); }
    }
  }

  lemma MeasureKeeps(c: Config, s: State, readTs: uint32, frames: seq<Frame>, span: nat)
    requires Bounded(c, s, span) && InRange(s, span) && s.readTs <= readTs < s.readTs + span
    ensures var s1 := s.(readTs := readTs, frames := frames);
            Bounded(c, s1, span) && Bounded(c, Measure(s1), span) && SameRing(s1, Measure(s1))
  {
  }

  /** A read hands out the logged frame of its own timestamp, underflow included, and
      leaves the log alone: nothing accepted is lost or delivered at another time. */
  lemma ReadRefines(c: Config, s: State, r: nat, log: Log)
    requires Refines(c, s, r, log) && NoWrap(c, s)
    ensures Refines(c, Read(c, s).0, r + 1, log)
    ensures Pending(c, s.writeTs, r, log) ==> Read(c, s).1 == At(log, r) && Pending(c, Read(c, s).0.writeTs, r + 1, log)
  {
    hide Length, Shows, Reachable, OnFrame, SlotOf, Bounded, Pending, Span, Measure;
    ReadShows(c, s.frames, s.readTs, r, s.writeTs, log);
    ReaderMoves(c, s, r);
    PendingNext(c, s.writeTs, r, log);
    var i := SlotOf(c, s.readTs);
    var fs := s.frames[i := s.frames[i].(audio := false, event := false, marker := NoMarker)];
    MeasureKeeps(c, s, s.readTs + c.frameTs, fs, Span(c));
  }

  /** The reader moves on by one frame, without reaching the end of the clock. */
  lemma ReaderMoves(c: Config, s: State, r: nat)
    requires Invariant(c, s) && NoWrap(c, s) && s.readTs == Length(c, r)
    ensures s.readTs + c.frameTs == Length(c, r + 1) && OnFrame(s.readTs + c.frameTs, c.frameTs)
    ensures s.readTs + c.frameTs < s.readTs + Span(c) && U32(s.readTs + c.frameTs) == s.readTs + c.frameTs
  {
    hide Length, OnFrame, Bounded;
    LengthStep(c, r);
    NextOnFrame(c, s.readTs);
    LengthMonotone(c, 1, c.frameCount + 1);
    LengthStep(c, 0);
  }

  lemma PendingNext(c: Config, writeTs: uint32, r: nat, log: Log)
    ensures Pending(c, writeTs, r, log) ==> Pending(c, writeTs, r + 1, log)
  {
    hide Length, At;
  }

  lemma NextOnFrame(c: Config, ts: nat)
    requires 0 < c.frameTs && OnFrame(ts, c.frameTs)
    ensures OnFrame(ts + c.frameTs, c.frameTs)
  {
    Arith.ModShift(ts, c.frameTs, 1);
  }

  function LogEvent(log: Log, n: nat, ev: Event, isNew: bool): Log {
    var f := At(log, n);
    log[n := f.(event := true, ev := ev,
                marker := if isNew then StartOfEvent else if ev.edge then EndOfEvent else f.marker)]
  }

  /** The event an event write adds to the log. */
  function LogNamed(c: Config, s: State, log: Log, ev: Event, ts: uint32, marker: bool): Log
    requires WellFormed(c, s)
  {
    var o := WriteEvent(c, s, ev, ts, marker);
    if o.at.None? then log else LogEvent(log, FrameNo(c, o.at.value), ev, o.kind.NewEvent?)
  }

  lemma PlaceEventKeeps(c: Config, s: State, w: uint32, isNew: bool, span: nat)
    requires 0 < c.frameTs && Bounded(c, s, span) && InRange(s, span) && !s.sync
    requires 0 < c.frameCount
    ensures var (s1, result, w1) := PlaceEvent(c, s, w, isNew);
            && Bounded(c, s1, span) && !s1.sync && s1.readTs == s.readTs && s1.writeTs == s.writeTs
            && s1.frames == s.frames && s1.update == s.update && s1.base == s.base
            && (result.Ok? ==> s.readTs <= w1 && Ahead(c, s.readTs, w1) < c.frameCount)
  {
  }

  lemma PlaceEventRefines(c: Config, s: State, r: nat, log: Log, w: uint32, isNew: bool)
    requires Refines(c, s, r, log) && NoWrap(c, s) && !s.sync
    ensures var (s1, result, w1) := PlaceEvent(c, s, w, isNew);
            && Refines(c, s1, r, log) && s1.readTs == s.readTs && s1.writeTs == s.writeTs
            && (result.Ok? ==> s.readTs <= w1 && Ahead(c, s.readTs, w1) < c.frameCount)
  {
    PlaceEventKeeps(c, s, w, isNew, Span(c));
    hide PlaceEvent, Shows, Reachable, Pending, Length, OnFrame, Ahead;
  }

  lemma PutEventRefines(c: Config, s: State, r: nat, log: Log, ev: Event, w: uint32, n: nat, isNew: bool)
    requires Refines(c, s, r, log) && NoWrap(c, s) && s.readTs <= w && Ahead(c, s.readTs, w) < c.frameCount
    requires n == r + Ahead(c, s.readTs, w)
    ensures FrameNo(c, w) == n
    ensures var s1 := PutEvent(c, s, ev, w, isNew);
            var log1 := LogEvent(log, n, ev, isNew);
            && Refines(c, s1, r, log1)
            && (Pending(c, s.writeTs, r, log) ==> Pending(c, s1.writeTs, r, log1))
  {
    Position(c, r, w);
    PutEventShows(c, s, w, n, ev, isNew, r, log);
    StoreEnd(c, r, w, 1);
    LengthStep(c, 0);
    hide Shows, OnFrame, Length, Ahead, FrameNo, SlotOf;
  }

  lemma PutEventShows(c: Config, s: State, w: uint32, n: nat, ev: Event, isNew: bool, r: nat, log: Log)
    requires WellFormed(c, s) && FrameNo(c, w) == n && InWindow(c, r, n)
    requires Shows(c, s.frames, r, log)
    ensures Shows(c, PutEvent(c, s, ev, w, isNew).frames, r, LogEvent(log, n, ev, isNew))
  {
    assert SlotOf(c, w) == Slot(c, n);
    hide SlotOf, Slot, FrameNo;
    forall m: nat | InWindow(c, r, m)
      ensures Visible(PutEvent(c, s, ev, w, isNew).frames[Slot(c, m)]) == At(LogEvent(log, n, ev, isNew), m)
    {
      SlotInjective(c, r, n, m);
    }
  }

  lemma TrackKeeps(c: Config, s: State, r: nat, log: Log, ev: Event, ts: uint32, marker: bool)
    requires Refines(c, s, r, log) && NoWrap(c, s)
    ensures var s1 := Track(c, s, ev, ts, marker).0;
            Refines(c, s1, r, log) && !s1.sync && s1.readTs == s.readTs && s1.writeTs == s.writeTs
  {
    PrepareKeeps(c, s, ts, Span(c));
    hide Prepare, Classify, Shows, Reachable, Pending, Length, OnFrame;
  }

  /** An event write changes the ring exactly as it changes the log, for every timestamp. */
  lemma EventRefines(c: Config, s: State, r: nat, log: Log, ev: Event, ts: uint32, marker: bool)
    requires Refines(c, s, r, log) && NoWrap(c, s)
    ensures var o := WriteEvent(c, s, ev, ts, marker);
            var log1 := LogNamed(c, s, log, ev, ts, marker);
            && Refines(c, o.state, r, log1)
            && (Pending(c, s.writeTs, r, log) ==> Pending(c, o.state.writeTs, r, log1))
            && (o.at.Some? ==> r <= FrameNo(c, o.at.value))
  {
    hide Track, PlaceEvent, PutEvent, Stale, Shows, Reachable, Pending, Length, OnFrame, FrameNo, Ahead, Bounded;
    TrackKeeps(c, s, r, log, ev, ts, marker);
    var (s1, w, kind) := Track(c, s, ev, ts, marker);
    var isNew := kind.NewEvent?;
    if isNew || !Stale(Deref(s1).value, ev) {
      var w1 := if isNew then w else U32(w + Deref(s1).value.duration);
      PlaceEventRefines(c, s1, r, log, w1, isNew);
      var (s2, result, w2) := PlaceEvent(c, s1, w1, isNew);
      if result.Ok? {
        PutEventRefines(c, s2, r, log, ev, w2, r + Ahead(c, s2.readTs, w2), isNew);
      }
    }
  }

  function StepLog(c: Config, s: State, r: nat, log: Log, op: Op): Log
    requires WellFormed(c, s)
  {
    match op
    case Put(data, ts, marker) => LogWrite(c, s, r, log, data, ts, marker)
    case PutNamed(ev, ts, marker) => LogNamed(c, s, log, ev, ts, marker)
    case Get => log
    case Reset => log
  }

  function NextReader(r: nat, op: Op): nat { if op.Get? then r + 1 else r }

  /** Everything accepted during a run, by frame number; nothing is ever removed. */
  function RunLog(c: Config, s: State, r: nat, log: Log, ops: seq<Op>): Log
    requires WellFormed(c, s)
    decreases |ops|
  {
    if ops == [] then log
    else RunLog(c, Step(c, s, ops[0]), NextReader(r, ops[0]), StepLog(c, s, r, log, ops[0]), ops[1..])
  }

  /** The step stays inside the 32-bit clock and writes no packet beyond the ring. */
  predicate Admissible(c: Config, s: State, op: Op)
    requires WellFormed(c, s)
  {
    NoWrap(c, s) && (op.Put? ==> InReach(c, s, op.ts, op.marker))
  }

  predicate AdmissibleRun(c: Config, s: State, ops: seq<Op>)
    requires WellFormed(c, s)
    decreases |ops|
  {
    ops == [] || (Admissible(c, s, ops[0]) && AdmissibleRun(c, Step(c, s, ops[0]), ops[1..]))
  }

  lemma RestartKeeps(c: Config, s: State)
    requires Invariant(c, s) && NoWrap(c, s)
    ensures Invariant(c, Restart(c, s))
  {
    LengthMonotone(c, 0, c.frameCount + 1);
  }

  /** The reader would find nothing in any slot. */
  ghost predicate Blank(s: State) { forall i :: 0 <= i < |s.frames| ==> Visible(s.frames[i]) == EMPTY }

  /** The frame number of the window that slot `i` shows. */
  function NumberIn(c: Config, r: nat, i: nat): nat
    requires i < c.frameCount
  {
    r - r % c.frameCount + i + if r % c.frameCount <= i then 0 else c.frameCount
  }

  lemma NumberInShows(c: Config, r: nat, i: nat)
    requires i < c.frameCount
    ensures InWindow(c, r, NumberIn(c, r, i)) && Slot(c, NumberIn(c, r, i)) == i
  {
    var m := c.frameCount;
    var q := r / m;
    assert r - r % m == q * m;
    Arith.DivModUnique(q * m + i, m, q, i);
    Arith.ModShift(q * m + i, m, 1);
  }

  /** A restart leaves the frames in the ring but moves the write position back to the reader: it
      keeps what is logged ahead of the write position only if there is nothing to be read. */
  lemma RestartDropsPending(c: Config, s: State, r: nat, log: Log)
    requires Refines(c, s, r, log) && NoWrap(c, s)
    ensures Refines(c, Restart(c, s), r, log)
    ensures Pending(c, Restart(c, s).writeTs, r, log) <==> Blank(s)
  {
    RestartKeeps(c, s);
    forall n: nat | r <= n ensures Length(c, n) >= s.readTs { LengthMonotone(c, r, n); }
    hide Length, NumberIn, Slot;
    if Blank(s) {
      forall n: nat | r <= n ensures At(log, n) == EMPTY {
        if n in log { assert InWindow(c, r, n); }
      }
    } else {
      var i :| 0 <= i < |s.frames| && Visible(s.frames[i]) != EMPTY;
      NumberInShows(c, r, i);
      assert At(log, NumberIn(c, r, i)) != EMPTY;
    }
  }

  lemma StepRefines(c: Config, s: State, r: nat, log: Log, op: Op)
    requires Refines(c, s, r, log) && Admissible(c, s, op)
    ensures var s1, r1, log1 := Step(c, s, op), NextReader(r, op), StepLog(c, s, r, log, op);
            && Refines(c, s1, r1, log1)
            && (Pending(c, s.writeTs, r, log) && (op.Reset? ==> Blank(s)) ==> Pending(c, s1.writeTs, r1, log1))
  {
    match op
    case Put(data, ts, marker) => WriteRefines(c, s, r, log, data, ts, marker);
    case PutNamed(ev, ts, marker) => EventRefines(c, s, r, log, ev, ts, marker);
    case Get => ReadRefines(c, s, r, log);
    case Reset => RestartDropsPending(c, s, r, log);
  }

  lemma WindowLog(c: Config, s: State) returns (r: nat, log: Log)
    requires Invariant(c, s)
    ensures Refines(c, s, r, log)
  {
    r := FrameNo(c, s.readTs);
    log := map n | r <= n < r + c.frameCount :: Visible(s.frames[Slot(c, n)]);
  }

  /** Statistics ordered, delay within its maximum, write position within the ring: after
      every admissible run, restarts included. */
  lemma {:induction false} RunKeepsInvariant(c: Config, s: State, ops: seq<Op>)
    requires Invariant(c, s) && AdmissibleRun(c, s, ops)
    ensures Invariant(c, Run(c, s, ops))
    ensures Run(c, s, ops).minLen <= Run(c, s, ops).maxLen && Run(c, s, ops).playout <= c.maxTs
    decreases |ops|
  {
    if ops != [] {
      var r, log := WindowLog(c, s);
      StepRefines(c, s, r, log, ops[0]);
      RunKeepsInvariant(c, Step(c, s, ops[0]), ops[1..]);
    }
  }

  lemma {:induction false} LogKeepsPast(c: Config, s: State, r: nat, log: Log, ops: seq<Op>, n: nat)
    requires Refines(c, s, r, log) && AdmissibleRun(c, s, ops) && n < r
    ensures At(RunLog(c, s, r, log, ops), n) == At(log, n)
    decreases |ops|
  {
    if ops != [] {
      var op := ops[0];
      StepRefines(c, s, r, log, op);
      StepLogKeepsPast(c, s, r, log, op, n);
      LogKeepsPast(c, Step(c, s, op), NextReader(r, op), StepLog(c, s, r, log, op), ops[1..], n);
    }
  }

  lemma StepLogKeepsPast(c: Config, s: State, r: nat, log: Log, op: Op, n: nat)
    requires Refines(c, s, r, log) && Admissible(c, s, op) && n < r
    ensures At(StepLog(c, s, r, log, op), n) == At(log, n)
  {
    hide Place, Ahead, Shows, Reachable, Bounded, LogStore, Length, OnFrame, WriteEvent, FrameNo;
    match op
    case Put(data, ts, marker) =>
      var (s1, at) := Place(c, s, ts, marker);
      if at.Some? && at.value >= s.readTs {
        var ahead := Ahead(c, s.readTs, at.value);
        if ahead < c.frameCount { LogStoreKeys(c, log, r + ahead, data, c.frameCount - ahead); }
      }
    case PutNamed(ev, ts, marker) => EventRefines(c, s, r, log, ev, ts, marker);
    case Get =>
    case Reset =>
  }

  /** Every restart of the run finds nothing to be read in the ring. */
  ghost predicate HarmlessResets(c: Config, s: State, ops: seq<Op>)
    requires WellFormed(c, s)
    decreases |ops|
  {
    ops == [] || ((ops[0].Reset? ==> Blank(s)) && HarmlessResets(c, Step(c, s, ops[0]), ops[1..]))
  }

  /** The frames read, from frame number `r` on, are those logged for their numbers. */
  predicate Delivers(log: Log, r: nat, out: seq<Frame>) {
    forall i :: 0 <= i < |out| ==> out[i] == At(log, r + i)
  }

  lemma DeliversNext(log: Log, r: nat, out: seq<Frame>)
    requires Delivers(log, r + 1, out)
    ensures Delivers(log, r, [At(log, r)] + out)
  {
    hide At;
    forall i | 0 < i <= |out| ensures ([At(log, r)] + out)[i] == At(log, r + i) {
      assert out[i - 1] == At(log, r + 1 + (i - 1));
    }
  }

  /** Delivery: over a run whose restarts are harmless, the i-th read returns exactly what the whole
      run accepted for the i-th frame number, and an empty frame where it accepted nothing. */
  lemma {:induction false} Delivery(c: Config, s: State, r: nat, log: Log, ops: seq<Op>)
    requires Refines(c, s, r, log) && Pending(c, s.writeTs, r, log)
    requires AdmissibleRun(c, s, ops) && HarmlessResets(c, s, ops)
    ensures Delivers(RunLog(c, s, r, log, ops), r, Outputs(c, s, ops))
    ensures Refines(c, Run(c, s, ops), r + |Outputs(c, s, ops)|, RunLog(c, s, r, log, ops))
    decreases |ops|
  {
    hide Step, StepLog, LogWrite, LogNamed, InReach, InRange, Span, Shows, Reachable, Pending, Blank, Bounded;
    hide Length, OnFrame, Configured, Read, Delivers, At;
    if ops == [] {
      EmptyDelivers(RunLog(c, s, r, log, ops), r);
    } else {
      var op, rest := ops[0], ops[1..];
      StepRefines(c, s, r, log, op);
      var s1, r1, log1 := Step(c, s, op), NextReader(r, op), StepLog(c, s, r, log, op);
      Delivery(c, s1, r1, log1, rest);
      if op.Get? {
        GetDelivers(c, s, r, log);
        LogKeepsPast(c, s1, r1, log1, rest, r);
        DeliversNext(RunLog(c, s1, r1, log1, rest), r, Outputs(c, s1, rest));
      } else {
        assert [] + Outputs(c, s1, rest) == Outputs(c, s1, rest);
      }
    }
  }

  lemma EmptyDelivers(log: Log, r: nat)
    ensures Delivers(log, r, [])
  {
  }

  lemma GetDelivers(c: Config, s: State, r: nat, log: Log)
    requires Refines(c, s, r, log) && NoWrap(c, s) && Pending(c, s.writeTs, r, log)
    ensures Read(c, s).1 == At(log, r) && StepLog(c, s, r, log, Get) == log
  {
    hide Read, At, Pending;
    ReadRefines(c, s, r, log);
  }

  /** From its creation on, a buffer delivers frame after frame what was accepted for it. */
  lemma DeliveryFromCreation(c: Config, ops: seq<Op>)
    requires Configured(c) && AdmissibleRun(c, Init(c), ops) && HarmlessResets(c, Init(c), ops)
    ensures Delivers(RunLog(c, Init(c), 0, map[], ops), 0, Outputs(c, Init(c), ops))
    ensures Invariant(c, Run(c, Init(c), ops))
  {
    hide Init, Pending, Shows, Reachable, Invariant, Delivers;
    InitRefines(c);
    Delivery(c, Init(c), 0, map[], ops);
  }

  // ---------------------------------------------------------------- known limits

  lemma AvailableZero(c: Config, readTs: uint32, w: uint32)
    requires 0 < c.frameTs
    ensures Available(c, Ahead(c, readTs, w)) == 0 <==> Ahead(c, readTs, w) == c.frameCount
  {
    AheadFits(c, readTs, w);
    hide Ahead;
  }

  lemma AheadFits(c: Config, readTs: uint32, w: uint32)
    requires 0 < c.frameTs
    ensures Ahead(c, readTs, w) < 0x1_0000_0000
  {
    Arith.QuotientBound(U32(w - readTs), c.frameTs);
    hide U32;
  }

  /** The too-early test reports a full ring exactly when the packet is within reach:
      further ahead, the unsigned difference wraps and the packet is let through. */
  lemma TooEarlyTest(c: Config, s: State, data: seq<Byte>, ts: uint32, marker: bool)
    requires WellFormed(c, s)
    requires Place(c, s, ts, marker).1.Some?
    ensures var (s1, at) := Place(c, s, ts, marker);
            var full := Ahead(c, s1.readTs, at.value) >= c.frameCount;
            (Write(c, s, data, ts, marker).1 == TooEarly <==> full) <==> InReach(c, s, ts, marker)
  {
    hide Place, Store, Ahead, Available;
    var (s1, at) := Place(c, s, ts, marker);
    AvailableZero(c, s1.readTs, at.value);
  }

  const TINY := Config(false, false, 80, 2, 1, 0, 160)

  lemma TinyPlace(s: State, w: uint32)
    requires s.playout == s.offset == s.readTs == 0 && (w == 0 || w == 320)
    requires s.sync ==> w == 0
    ensures Place(TINY, s, w, false) == (s.(sync := false), Some(w))
  {
    hide Align, LatePlace, S32;
    TinyAlign(w);
  }

  lemma TinyAlign(w: uint32)
    requires w == 0 || w == 320
    ensures Align(w, 80) == w
  {
  }

  lemma TinyWrite(s: State, fs: seq<Frame>, w: uint32, b: Byte)
    requires s.frames == fs && |fs| == 2 && s.update.Unset? && s.playout == s.offset == s.readTs == 0
    requires (w == 0 || w == 320) && s.writeTs < w + 80 && (s.sync ==> w == 0)
    ensures Write(TINY, s, [b], w, false).0
         == s.(sync := false, frames := fs[0 := fs[0].(audio := true, payload := [b])], writeTs := w + 80)
  {
    var ahead := if w == 0 then 0 else 4;
    assert Ahead(TINY, 0, w) == ahead;
    TinyPlace(s, w);
    StoreOne(fs, w, b, Available(TINY, ahead));
    hide Place, Ahead, Store;
  }

  /** A packet two rings ahead overwrites the frame the reader is about to get. */
  lemma OverrunReplacesFrame()
    ensures Configured(TINY)
    ensures var s1 := Write(TINY, Init(TINY), [1], 0, false).0;
            var s2 := Write(TINY, s1, [2], 320, false).0;
            Read(TINY, s1).1.payload == [1] && Read(TINY, s2).1.payload == [2]
  {
    var s0 := Init(TINY);
    TinyWrite(s0, s0.frames, 0, 1);
    var s1 := Write(TINY, s0, [1], 0, false).0;
    TinyWrite(s1, s1.frames, 320, 2);
    assert SlotOf(TINY, 0) == 0;
    hide Write, SlotOf;
  }

  /** A restart with a frame pending: the frame was accepted, but its read returns nothing. */
  lemma RestartLosesFrame(ops: seq<Op>)
    requires ops == [Put([1], 0, false), Reset, Get]
    ensures AdmissibleRun(TINY, Init(TINY), ops) && Outputs(TINY, Init(TINY), ops) == [EMPTY]
    ensures At(RunLog(TINY, Init(TINY), 0, map[], ops), 0).payload == [1]
  {
    hide AdmissibleRun, Outputs, RunLog;
    PutResetGet(TINY, Init(TINY), 0, map[], ops);
    TinyRestart(Init(TINY), ops[0]);
  }

  lemma TinyRestart(s0: State, op: Op)
    requires s0 == Init(TINY) && op == Put([1], 0, false)
    ensures var s1 := Step(TINY, s0, op);
            var s2 := Restart(TINY, s1);
            && Admissible(TINY, s0, op) && NoWrap(TINY, s1) && NoWrap(TINY, s2) && Read(TINY, s2).1 == EMPTY
            && At(StepLog(TINY, s0, 0, map[], op), 0).payload == [1]
  {
    TinyWrite(s0, s0.frames, 0, 1);
    TinyPlace(s0, 0);
    TinyLog();
    hide Write, Place, LogStore, SlotOf;
  }

  /** A run that writes, restarts and reads. */
  lemma PutResetGet(c: Config, s: State, r: nat, log: Log, ops: seq<Op>)
    requires WellFormed(c, s) && |ops| == 3 && ops[0].Put? && ops[1].Reset? && ops[2].Get?
    ensures var s1 := Step(c, s, ops[0]);
            var s2 := Restart(c, s1);
            && (AdmissibleRun(c, s, ops) <==> Admissible(c, s, ops[0]) && NoWrap(c, s1) && NoWrap(c, s2))
            && Outputs(c, s, ops) == [Read(c, s2).1]
            && RunLog(c, s, r, log, ops) == StepLog(c, s, r, log, ops[0])
  {
    var s1 := Step(c, s, ops[0]);
    var s2 := Restart(c, s1);
    var rest, last := ops[1..], ops[1..][1..];
    assert rest == [Reset, Get] && last == [Get] && last[1..] == [];
    hide Write, Place, LogWrite, Read, Restart, NoWrap, InReach;
    var log1, s3 := StepLog(c, s, r, log, ops[0]), Step(c, s2, Get);
    assert Outputs(c, s3, []) == [] && RunLog(c, s3, r + 1, log1, []) == log1;
    assert Outputs(c, s2, last) == [Read(c, s2).1] + [] && RunLog(c, s2, r, log1, last) == log1;
    assert AdmissibleRun(c, s2, last) == NoWrap(c, s2);
    assert Outputs(c, s1, rest) == Outputs(c, s2, last) && RunLog(c, s1, r, log1, rest) == log1;
    assert AdmissibleRun(c, s1, rest) == (NoWrap(c, s1) && NoWrap(c, s2));
  }

  lemma TinyLog()
    ensures LogStore(TINY, map[], 0, [1], 2) == map[0 := EMPTY.(audio := true, payload := [1])]
  {
    assert [1][..1] == [1] && [1][1..] == [];
  }

  lemma StoreOne(fs: seq<Frame>, w: uint32, b: Byte, available: nat)
    requires |fs| == 2 && 0 < available && (w == 0 || w == 320)
    ensures Store(TINY, fs, w, [b], available) == (fs[0 := fs[0].(audio := true, payload := [b])], w + 80)
  {
    assert [b][..1] == [b] && [b][1..] == [];
    assert SlotOf(TINY, w) == 0;
  }

  lemma KeptBefore(c: Config, log: Log, n: nat, data: seq<Byte>, available: nat, m: nat)
    requires m < n
    ensures At(LogStore(c, log, n, data, available), m) == At(log, m)
  {
    LogStoreKeys(c, log, n, data, available);
  }

  lemma LoggedAt(log: Log, n: nat, data: seq<Byte>)
    ensures var f := At(LogAudio(log, n, data), n); f.audio && f.payload == data
  {
  }

  lemma {:induction false} StoredAt(c: Config, log: Log, n: nat, data: seq<Byte>, available: nat, k: nat, at: nat)
    requires k < Stored(c, data, available) && at == k * c.frameSize
    ensures at + c.frameSize <= |data|
    ensures var f := At(LogStore(c, log, n, data, available), n + k);
            f.audio && f.payload == data[at..at + c.frameSize]
    decreases available
  {
    hide LogAudio, At;
    var size := c.frameSize;
    var rest := data[size..];
    var log1 := LogAudio(log, n, data[..size]);
    if k == 0 {
      KeptBefore(c, log1, n + 1, rest, available - 1, n);
      LoggedAt(log, n, data[..size]);
    } else {
      OneMore(k, size);
      StoredAt(c, log1, n + 1, rest, available - 1, k - 1, at - size);
      PieceBehind(data, size, at - size, at);
    }
  }

  /** Frame `k` of an accepted packet is logged `k` frames after its first one. */
  lemma StoredFrame(c: Config, log: Log, n: nat, data: seq<Byte>, available: nat, k: nat)
    requires k < Stored(c, data, available)
    ensures 0 <= k * c.frameSize && k * c.frameSize + c.frameSize <= |data|
    ensures var f := At(LogStore(c, log, n, data, available), n + k);
            f.audio && f.payload == data[k * c.frameSize..k * c.frameSize + c.frameSize]
  {
    hide LogStore, Stored;
    StoredAt(c, log, n, data, available, k, k * c.frameSize);
  }

  lemma OneMore(k: nat, d: nat)
    ensures k * d == (k - 1) * d + d
  {
  }

  lemma PieceBehind(data: seq<Byte>, size: nat, from: nat, to: nat)
    requires from <= to && size + to <= |data|
    ensures data[size..][from..to] == data[size + from..size + to]
  {
  }
}
