/** When packets are played: a timetable that knows only when packets came and how often the buffer was
    read, and says what each read returns. */
module JitterBufferTimetable {
  import opened Options
  import opened Machine
  import opened JitterBuffer
  import opened JitterBufferLatePath
  import opened JitterBufferRing
  import opened JitterBufferEvents
  import Arith

  // ---------------------------------------------------------------- the timetable

  /** The packet that was last synchronised with, and where the reader stood then. */
  datatype Anchor = Anchor(ts: uint32, reader: int)

  /** The event being tracked: what was last told of it, and where it, or its segment, begins. */
  datatype Tracked = Tracked(last: Event, place: uint32)

  /** The playout delay; the number of the frame to be read next; the end of what was written; the least and
      greatest length measured, and how many measurements; and what is to be played, by frame number. */
  datatype Timetable = Timetable(anchor: Option<Anchor>, delay: nat, next: nat, end: nat, low: int, high: int,
                                 measured: nat, tracked: Option<Tracked>, log: Log)

  function NewTimetable(c: Config): Timetable { Timetable(None, c.initialTs, 0, 0, 0, 0, 0, None, map[]) }

  function Reader(c: Config, tt: Timetable): nat { Length(c, tt.next) }

  /** A packet is due as long behind the reader's position at the anchor as its timestamp is behind the
      anchor's, and the delay later, at the beginning of a frame. */
  function Due(c: Config, tt: Timetable, ts: uint32): uint32
    requires 0 < c.frameTs && tt.anchor.Some?
  {
    Align(Raw(tt, ts), c.frameTs)
  }

  function Raw(tt: Timetable, ts: uint32): uint32
    requires tt.anchor.Some?
  {
    U32(tt.anchor.value.reader + (ts - tt.anchor.value.ts) + tt.delay)
  }

  /** Without an anchor, a packet becomes the anchor. */
  function Anchored(c: Config, tt: Timetable, ts: uint32): (r: Timetable)
    ensures r.anchor.Some?
  {
    if tt.anchor.Some? then tt
    else
      var r := tt.(anchor := Some(Anchor(ts, Reader(c, tt))));
      if c.skewDetection then r.(low := tt.delay, high := tt.delay, measured := 0) else r
  }

  /** A marker makes the packet the anchor if there is nothing left to be read. */
  function Marked(c: Config, tt: Timetable, marker: bool): Timetable {
    if marker && tt.end <= Reader(c, tt) then tt.(anchor := None) else tt
  }

  /** Delays everything from this packet on, as far as the buffer may; or gives the packet up. */
  function Lengthened(c: Config, tt: Timetable, w: nat, more: nat): (Timetable, Option<nat>) {
    if more == 0 then (tt, Some(w))
    else if !c.adaptive || tt.delay + more > c.maxTs then (tt, None)
    else
      var r := tt.(delay := tt.delay + more);
      (if c.skewDetection then r.(low := tt.low + more, high := tt.high + more) else r, Some(w + more))
  }

  /** A packet due behind the reader, and not out of order, is played as soon as possible, and everything
      after it as much later; with time-skew detection the variation of the lengths may ask for more, and
      a skew moves the anchor instead. */
  function Belated(c: Config, tt: Timetable, ts: uint32): (Timetable, Option<nat>)
    requires 0 < c.frameTs && tt.anchor.Some? && Due(c, tt, ts) < Reader(c, tt)
  {
    var w, short := Due(c, tt, ts), Reader(c, tt) - Due(c, tt, ts);
    if w < tt.end then (tt, None)
    else
      var spread := tt.high - tt.low;
      var needed := if c.skewDetection && spread > tt.delay + short then Whole(c, spread - tt.delay) else short;
      if c.skewDetection && 0 < tt.high < tt.delay then
        var skew := Whole(c, tt.delay - tt.high);
        var anchor := Anchor(tt.anchor.value.ts, tt.anchor.value.reader + skew);
        var r := tt.(anchor := Some(anchor), low := tt.low + skew, high := tt.high + skew);
        Lengthened(c, r, Raw(r, ts), if skew < needed then needed - skew else 0)
      else Lengthened(c, tt, w, needed)
  }

  /** The whole frames of a length. */
  function Whole(c: Config, length: nat): nat
    requires 0 < c.frameTs
  {
    length / c.frameTs * c.frameTs
  }

  /** Where a packet is played, if it is. */
  function Assigned(c: Config, tt: Timetable, ts: uint32, marker: bool): (Timetable, Option<nat>)
    requires 0 < c.frameTs
  {
    var r := Anchored(c, Marked(c, tt, marker), ts);
    if Due(c, r, ts) >= Reader(c, r) then (r, Some(Due(c, r, ts))) else Belated(c, r, ts)
  }

  /** The frames from the reader to `w`. */
  function FramesTo(c: Config, tt: Timetable, w: nat): nat
    requires 0 < c.frameTs && Reader(c, tt) <= w
  {
    QuotientNat(w - Reader(c, tt), c.frameTs);
    (w - Reader(c, tt)) / c.frameTs
  }

  lemma QuotientNat(x: nat, d: nat)
    requires 0 < d
    ensures 0 <= x / d <= x
  {
    Arith.QuotientBound(x, d);
  }

  /** A packet is played from its place on, one frame after the other, as far as the buffer reaches. */
  function Written(c: Config, tt: Timetable, data: seq<Byte>, w: nat): Timetable
    requires 0 < c.frameTs
  {
    if w < Reader(c, tt) || FramesTo(c, tt, w) >= c.frameCount then tt
    else
      var room := c.frameCount - FramesTo(c, tt, w);
      var end := w + Length(c, Stored(c, data, room));
      tt.(log := LogStore(c, tt.log, tt.next + FramesTo(c, tt, w), data, room),
          end := if end > tt.end then end else tt.end)
  }

  function AfterPut(c: Config, tt: Timetable, data: seq<Byte>, ts: uint32, marker: bool): Timetable
    requires 0 < c.frameTs
  {
    var (r, at) := Assigned(c, tt, ts, marker);
    if at.None? then r else Written(c, r, data, at.value)
  }

  // ---------------------------------------------------------------- events

  /** Whether an event told of at `w` is another one than that tracked: after a marker, with another
      identity, or too late to be a further segment. */
  predicate IsNew(c: Config, tt: Timetable, ev: Event, w: uint32, marker: bool) {
    || marker || tt.tracked.None? || tt.tracked.value.last.id != ev.id
    || (w != tt.tracked.value.place && w > U32(tt.tracked.value.place + tt.tracked.value.last.duration + 4 * c.frameTs))
  }

  /** The event is told of at `at`, the event itself beginning at `place`. */
  function Told(c: Config, tt: Timetable, ev: Event, at: nat, place: uint32, isNew: bool): Timetable
    requires 0 < c.frameTs && Reader(c, tt) <= at
  {
    var end := at + c.frameTs;
    tt.(tracked := Some(Tracked(ev, place)), log := LogEvent(tt.log, tt.next + FramesTo(c, tt, at), ev, isNew),
        end := if end > tt.end then end else tt.end)
  }

  /** Tells of an event at `w`, or as soon as possible, everything after it being as much later; or not at
      all, if that is too late or beyond the ring. */
  function ToldFrom(c: Config, tt: Timetable, ev: Event, w: uint32, place: uint32, isNew: bool): Timetable
    requires 0 < c.frameTs
  {
    var reader := Reader(c, tt);
    if w < reader then
      if !c.adaptive || tt.delay + (reader - w) > c.maxTs then tt
      else Told(c, tt.(delay := tt.delay + (reader - w)), ev, reader, if isNew then U32(reader) else place, isNew)
    else if FramesTo(c, tt, w) >= c.frameCount then tt
    else Told(c, tt, ev, w, place, isNew)
  }

  /** A new event is told of where it is due. A further segment is noted, but not told of. An update is told
      of as long behind the event as it was known to last, if it says more than was known. */
  function AfterNamed(c: Config, tt: Timetable, ev: Event, ts: uint32, marker: bool): Timetable
    requires 0 < c.frameTs
  {
    var r := Anchored(c, tt, ts);
    var w := Due(c, r, ts);
    if IsNew(c, r, ev, w, marker) then ToldFrom(c, r.(tracked := Some(Tracked(ev, w))), ev, w, w, true)
    else if w != r.tracked.value.place then r.(tracked := Some(Tracked(ev, w)))
    else
      var last := r.tracked.value.last;
      if !Before(last, ev) then r else ToldFrom(c, r, ev, U32(w + last.duration), w, false)
  }

  // ---------------------------------------------------------------- reads and restarts

  /** With time-skew detection, each read measures the length left; fifty measurements are summed up in
      their mean. */
  function Measured(c: Config, tt: Timetable): Timetable {
    if !c.skewDetection then tt
    else
      var summed := tt.measured == 50;
      var mean, length := tt.low + (tt.high - tt.low) / 2, tt.end - Reader(c, tt);
      var low, high := if summed then mean else tt.low, if summed then mean else tt.high;
      tt.(low := if low <= high && length < low then length else low, high := if length > high then length else high,
          measured := if summed then 1 else tt.measured + 1)
  }

  function AfterRead(c: Config, tt: Timetable): Timetable { Measured(c, tt.(next := tt.next + 1)) }

  /** A restart waits for a new anchor, writes from the reader on, and takes back a delay at its maximum. */
  function AfterRestart(c: Config, tt: Timetable): Timetable {
    tt.(anchor := None, end := Reader(c, tt), tracked := None,
        delay := if c.adaptive && tt.delay == c.maxTs then c.initialTs else tt.delay)
  }

  function After(c: Config, tt: Timetable, op: Op): Timetable
    requires 0 < c.frameTs
  {
    match op
    case Put(data, ts, marker) => AfterPut(c, tt, data, ts, marker)
    case PutNamed(ev, ts, marker) => AfterNamed(c, tt, ev, ts, marker)
    case Get => AfterRead(c, tt)
    case Reset => AfterRestart(c, tt)
  }

  /** The timetable after a run, from the operations alone. */
  function TimetableOf(c: Config, tt: Timetable, ops: seq<Op>): Timetable
    requires 0 < c.frameTs
    decreases |ops|
  {
    if ops == [] then tt else TimetableOf(c, After(c, tt, ops[0]), ops[1..])
  }

  // ---------------------------------------------------------------- the buffer keeps the timetable

  /** The event that the buffer tracks is that of the timetable. */
  predicate Follows(s: State, tracked: Option<Tracked>)
    requires s.update.AtSlot? ==> s.update.slot < |s.frames|
  {
    match tracked
    case None => s.update.Unset?
    case Some(t) => Deref(s) == Some(t.last) && s.base.id == t.last.id && s.baseTs == t.place
  }

  /** The buffer has the numbers of the timetable. */
  predicate Numbers(c: Config, s: State, tt: Timetable) {
    && s.readTs == Reader(c, tt) && s.writeTs == tt.end && s.playout == tt.delay
    && s.minLen == tt.low && s.maxLen == tt.high && s.measured == tt.measured
    && (s.sync <==> tt.anchor.None?)
    && (tt.anchor.Some? ==> s.offset == U32(tt.anchor.value.ts - tt.anchor.value.reader))
  }

  predicate Matches(c: Config, s: State, tt: Timetable)
    requires WellFormed(c, s)
  {
    Numbers(c, s, tt) && Follows(s, tt.tracked)
  }

  lemma NewMatches(c: Config)
    requires Configured(c)
    ensures Matches(c, Init(c), NewTimetable(c))
  {
  }

  lemma RawIs(ts: uint32, anchor: Anchor, delay: nat)
    ensures U32(ts - U32(anchor.ts - anchor.reader) + delay) == U32(anchor.reader + (ts - anchor.ts) + delay)
  {
    var q := (anchor.ts - anchor.reader) / 0x1_0000_0000;
    Lowered(anchor.ts - anchor.reader);
    Wraps(anchor.reader + (ts - anchor.ts) + delay, q);
    hide U32;
  }

  lemma Lowered(x: int)
    ensures U32(x) == x - x / 0x1_0000_0000 * 0x1_0000_0000
  {
  }

  lemma Wraps(x: int, q: int)
    ensures U32(x + q * 0x1_0000_0000) == U32(x)
  {
  }

  lemma WholeIs(c: Config, length: uint32)
    requires 0 < c.frameTs
    ensures Align(length, c.frameTs) == Whole(c, length)
  {
  }

  /** The write position is the one due, and the offset is that of the anchor. */
  lemma PrepareIsDue(c: Config, s: State, tt: Timetable, ts: uint32)
    requires 0 < c.frameTs && Numbers(c, s, tt) && s.playout < 0x8000_0000
    ensures var (s1, w) := Prepare(c, s, ts);
            var r := Anchored(c, tt, ts);
            Numbers(c, s1, r) && w == Due(c, r, ts) && Reader(c, r) == Reader(c, tt)
  {
    hide Align, Length, U32;
    var r := Anchored(c, tt, ts);
    RawIs(ts, r.anchor.value, r.delay);
  }

  lemma GrowIsLengthened(c: Config, s: State, tt: Timetable, w: uint32, delta: uint32, span: nat)
    requires Numbers(c, s, tt) && Bounded(c, s, span) && InRange(s, span) && !s.sync
    requires delta <= s.readTs + 2 * span && w < s.readTs + 2 * span
    ensures var (s1, at) := Grow(c, s, w, delta);
            var (r, at1) := Lengthened(c, tt, w, delta);
            Numbers(c, s1, r) && (at.Some? <==> at1.Some?) && (at.Some? ==> at.value == at1.value)
  {
    hide Length;
  }

  lemma SkewIs(c: Config, s: State, tt: Timetable, skew: uint32, span: nat)
    requires Numbers(c, s, tt) && Bounded(c, s, span) && InRange(s, span) && !s.sync
    requires SkewSuspected(s) && skew <= s.playout - s.maxLen
    ensures var anchor := Anchor(tt.anchor.value.ts, tt.anchor.value.reader + skew);
            Numbers(c, ApplySkew(s, skew),
              tt.(anchor := Some(anchor), low := tt.low + skew, high := tt.high + skew))
  {
    hide Length, U32;
    Shifted(tt.anchor.value.ts - tt.anchor.value.reader, skew);
  }

  lemma Shifted(x: int, skew: nat)
    ensures U32(U32(x) - skew) == U32(x - skew)
  {
    Lowered(x);
    Wraps(x - skew, -(x / 0x1_0000_0000));
    hide U32;
  }

  /** The late branch without a skew, and with one. */
  lemma PlainIsBelated(c: Config, s: State, tt: Timetable, ts: uint32, w: uint32, span: nat)
    requires 0 < c.frameTs && OnFrame(s.readTs, c.frameTs)
    requires Numbers(c, s, tt) && Bounded(c, s, span) && InRange(s, span) && !s.sync
    requires s.writeTs <= w == Due(c, tt, ts) < s.readTs && OnFrame(w, c.frameTs)
    requires !c.skewDetection || !SkewSuspected(s)
    ensures var (s1, at) := LatePlace(c, s, ts, w);
            var (r, at1) := Belated(c, tt, ts);
            Numbers(c, s1, r) && (at.Some? <==> at1.Some?) && (at.Some? ==> at.value == at1.value)
  {
    hide OnFrame, Grow, Lengthened, U32, S32, Length, Raw, ApplySkew, Whole, Align, Bounded, Delta, Skew, Due;
    DeltaCovers(c, s, w, span);
    DeltaIs(c, s, tt, w, span);
    InBounds(s, w, span);
    GrowIsLengthened(c, s, tt, w, Delta(c, s, w), span);
  }

  lemma InBounds(s: State, w: uint32, span: nat)
    requires w < s.readTs
    ensures w < s.readTs + 2 * span
  {
  }

  lemma SkewedIsBelated(c: Config, s: State, tt: Timetable, ts: uint32, w: uint32, span: nat)
    requires 0 < c.frameTs && OnFrame(s.readTs, c.frameTs)
    requires Numbers(c, s, tt) && Bounded(c, s, span) && InRange(s, span) && !s.sync
    requires s.writeTs <= w == Due(c, tt, ts) < s.readTs && OnFrame(w, c.frameTs)
    requires w <= Raw(tt, ts) < s.readTs + span
    requires c.skewDetection && SkewSuspected(s)
    ensures var (s1, at) := LatePlace(c, s, ts, w);
            var (r, at1) := Belated(c, tt, ts);
            Numbers(c, s1, r) && (at.Some? <==> at1.Some?) && (at.Some? ==> at.value == at1.value)
  {
    hide OnFrame, Grow, Lengthened, U32, S32, Length, Raw, ApplySkew, Whole, Align, Bounded, Delta, Due;
    DeltaCovers(c, s, w, span);
    DeltaIs(c, s, tt, w, span);
    var delta, skew := Delta(c, s, w), Skew(c, s);
    WholeIs(c, s.playout - s.maxLen);
    RawOf(s, tt, ts);
    SkewKeeps(c, s, ts, w, skew, span);
    SkewFits(c, s, span);
    SkewIs(c, s, tt, skew, span);
    var s1 := ApplySkew(s, skew);
    var r := tt.(anchor := Some(Anchor(tt.anchor.value.ts, tt.anchor.value.reader + skew)),
                 low := tt.low + skew, high := tt.high + skew);
    InNumbers(c, s1, r);
    RawOf(s1, r, ts);
    GrowIsLengthened(c, s1, r, Raw(r, ts), if skew < delta then delta - skew else 0, span);
  }

  lemma SkewFits(c: Config, s: State, span: nat)
    requires SkewSuspected(s) && Bounded(c, s, span)
    ensures s.playout - s.maxLen < span
  {
  }

  lemma InNumbers(c: Config, s: State, tt: Timetable)
    requires Numbers(c, s, tt) && !s.sync
    ensures tt.anchor.Some?
    ensures s.offset == U32(tt.anchor.value.ts - tt.anchor.value.reader) && s.playout == tt.delay && !s.sync
    ensures s.readTs == Reader(c, tt) && s.minLen == tt.low && s.maxLen == tt.high && s.writeTs == tt.end
  {
    hide Length, U32;
  }

  lemma LateIsBelated(c: Config, s: State, tt: Timetable, ts: uint32, w: uint32, span: nat)
    requires 0 < c.frameTs < span && OnFrame(s.readTs, c.frameTs)
    requires Numbers(c, s, tt) && Bounded(c, s, span) && InRange(s, span) && !s.sync
    requires w == Due(c, tt, ts) < s.readTs
    ensures var (s1, at) := LatePlace(c, s, ts, w);
            var (r, at1) := Belated(c, tt, ts);
            Numbers(c, s1, r) && (at.Some? <==> at1.Some?) && (at.Some? ==> at.value == at1.value)
  {
    hide OnFrame, Length, Raw, Bounded, Lengthened, Grow, U32, S32, Numbers, Whole;
    InNumbers(c, s, tt);
    if w >= s.writeTs {
      assert w == Align(Raw(tt, ts), c.frameTs) <= Raw(tt, ts) < s.readTs + span;
      if c.skewDetection && SkewSuspected(s) {
        SkewedIsBelated(c, s, tt, ts, w, span);
      } else {
        PlainIsBelated(c, s, tt, ts, w, span);
      }
    }
  }

  lemma RawOf(s: State, tt: Timetable, ts: uint32)
    requires tt.anchor.Some? && s.offset == U32(tt.anchor.value.ts - tt.anchor.value.reader) && s.playout == tt.delay
    ensures U32(ts - s.offset + s.playout) == Raw(tt, ts)
  {
    hide U32;
    RawIs(ts, tt.anchor.value, tt.delay);
  }

  lemma DeltaIs(c: Config, s: State, tt: Timetable, w: uint32, span: nat)
    requires 0 < c.frameTs && Bounded(c, s, span) && InRange(s, span) && Numbers(c, s, tt) && w < s.readTs
    ensures var spread, short := tt.high - tt.low, s.readTs - w;
            Delta(c, s, w)
              == if c.skewDetection && spread > tt.delay + short then Whole(c, spread - tt.delay) else short
  {
    hide Align, Length, Whole;
    var spread := s.maxLen - s.minLen;
    assert U32(spread) == spread && U32(s.playout + (s.readTs - w)) == s.playout + (s.readTs - w);
    if c.skewDetection && spread > s.playout + (s.readTs - w) {
      assert U32(spread - s.playout) == spread - s.playout;
      WholeIs(c, spread - s.playout);
    }
  }

  lemma PlaceIsAssigned(c: Config, s: State, tt: Timetable, ts: uint32, marker: bool)
    requires Invariant(c, s) && NoWrap(c, s) && Numbers(c, s, tt)
    ensures var (s1, at) := Place(c, s, ts, marker);
            var (r, at1) := Assigned(c, tt, ts, marker);
            && Numbers(c, s1, r) && (at.Some? <==> at1.Some?) && (at.Some? ==> at.value == at1.value)
            && r.next == tt.next && r.log == tt.log && r.tracked == tt.tracked && r.end == tt.end
  {
    hide Length, OnFrame, Prepare, LatePlace, Belated, Due, Bounded;
    SpanIsLong(c, s);
    var s0 := if marker && s.writeTs <= s.readTs then s.(sync := true) else s;
    var r0 := Marked(c, tt, marker);
    StillBounded(c, s, s0);
    PrepareKeeps(c, s0, ts, Span(c));
    PrepareIsDue(c, s0, r0, ts);
    var (s1, w) := Prepare(c, s0, ts);
    var r := Anchored(c, r0, ts);
    if w < s1.readTs {
      LateIsBelated(c, s1, r, ts, w, Span(c));
      BelatedKeeps(c, r, ts);
    }
  }

  lemma StillBounded(c: Config, s: State, s0: State)
    requires Bounded(c, s, Span(c)) && (s0 == s || s0 == s.(sync := true))
    ensures Bounded(c, s0, Span(c))
  {
    hide Length;
  }

  lemma SpanIsLong(c: Config, s: State)
    requires Invariant(c, s) && NoWrap(c, s)
    ensures c.frameTs < Span(c) && s.playout < 0x8000_0000
  {
    LengthMonotone(c, 1, c.frameCount + 1);
    LengthMonotone(c, 0, c.frameCount);
    LengthStep(c, 0);
    LengthStep(c, 1);
    LengthMonotone(c, 2, c.frameCount + 1);
    hide Length;
  }

  lemma BelatedKeeps(c: Config, tt: Timetable, ts: uint32)
    requires 0 < c.frameTs && tt.anchor.Some? && Due(c, tt, ts) < Reader(c, tt)
    ensures var r := Belated(c, tt, ts).0;
            r.next == tt.next && r.log == tt.log && r.tracked == tt.tracked && r.end == tt.end
  {
    hide Due, Length, Whole, Raw;
  }

  lemma {:induction false} StoreEndIs(c: Config, fs: seq<Frame>, w: uint32, data: seq<Byte>, available: nat)
    requires 0 < c.frameTs && 0 < c.frameCount == |fs| && w + Length(c, available) < 0x1_0000_0000
    ensures Store(c, fs, w, data, available).1 == w + Length(c, Stored(c, data, available))
    ensures Stored(c, data, available) <= available
    decreases available
  {
    hide Length, StoreAudio;
    LengthStep(c, 0);
    if !(available == 0 || c.frameSize == 0 || |data| < c.frameSize) {
      var rest := data[c.frameSize..];
      LengthStep(c, available - 1);
      LengthMonotone(c, 0, available - 1);
      StoreEndIs(c, StoreAudio(c, fs, w, data[..c.frameSize]), w + c.frameTs, rest, available - 1);
      LengthStep(c, Stored(c, rest, available - 1));
    }
  }

  lemma AheadIs(c: Config, tt: Timetable, readTs: uint32, w: uint32)
    requires 0 < c.frameTs && readTs == Reader(c, tt) <= w
    ensures Ahead(c, readTs, w) == FramesTo(c, tt, w)
  {
    hide Length;
  }

  /** A packet within reach is written where the timetable says. */
  lemma WriteIsWritten(c: Config, s: State, tt: Timetable, data: seq<Byte>, w: uint32)
    requires Invariant(c, s) && NoWrap(c, s) && Numbers(c, s, tt) && s.readTs <= w
    requires Ahead(c, s.readTs, w) <= c.frameCount
    ensures var ahead, r := Ahead(c, s.readTs, w), Written(c, tt, data, w);
            var available := Available(c, ahead);
            var (fs, end) := Store(c, s.frames, w, data, available);
            && (available > 0 <==> ahead < c.frameCount)
            && (available == 0 ==> r == tt)
            && (available > 0 ==>
                 && Numbers(c, s.(frames := fs, writeTs := Later(end, s.writeTs)), r)
                 && r.log == LogStore(c, tt.log, tt.next + ahead, data, c.frameCount - ahead)
                 && r.next == tt.next && r.tracked == tt.tracked)
  {
    hide Length, OnFrame, Bounded, Store, LogStore, Stored, Ahead, FramesTo;
    AheadIs(c, tt, s.readTs, w);
    var ahead := FramesTo(c, tt, w);
    if ahead < c.frameCount {
      StoreFits(c, tt, w, c.frameCount - ahead);
      StoreEndIs(c, s.frames, w, data, c.frameCount - ahead);
    }
  }

  lemma StoreFits(c: Config, tt: Timetable, w: nat, k: nat)
    requires 0 < c.frameTs && Reader(c, tt) <= w < 0x1_0000_0000 && FramesTo(c, tt, w) + k <= c.frameCount
    requires Reader(c, tt) + 4 * Span(c) < 0x8000_0000
    ensures w + Length(c, k) < 0x1_0000_0000
  {
    hide Length, FramesTo;
    AheadIs(c, tt, Reader(c, tt), w);
    StoreEnd(c, tt.next, w, k);
    LengthMonotone(c, 0, c.frameCount + 1);
    LengthStep(c, 0);
  }

  lemma PutMatches(c: Config, s: State, tt: Timetable, data: seq<Byte>, ts: uint32, marker: bool)
    requires Invariant(c, s) && NoWrap(c, s) && Matches(c, s, tt) && InReach(c, s, ts, marker)
    ensures var s1, r := Write(c, s, data, ts, marker).0, AfterPut(c, tt, data, ts, marker);
            && Matches(c, s1, r) && r.next == tt.next
            && r.log == LogWrite(c, s, tt.next, tt.log, data, ts, marker)
  {
    hide Place, Assigned, Length, OnFrame, Bounded, Store, LogStore, Ahead, FramesTo, Written, Numbers, Available,
      Deref;
    PlaceIsAssigned(c, s, tt, ts, marker);
    PlacedAheadOfReader(c, s, ts, marker);
    DerefStable(c, s, Put(data, ts, marker));
    var (s1, at) := Place(c, s, ts, marker);
    var (r, at1) := Assigned(c, tt, ts, marker);
    if at.Some? {
      ReaderIs(c, s1, r);
      WriteIsWritten(c, s1, r, data, at.value);
      assert AfterPut(c, tt, data, ts, marker) == Written(c, r, data, at.value);
      assert Written(c, r, data, at.value).next == tt.next;
    } else {
      assert AfterPut(c, tt, data, ts, marker) == r;
    }
  }

  lemma ReaderIs(c: Config, s: State, tt: Timetable)
    requires Numbers(c, s, tt)
    ensures s.readTs == Reader(c, tt)
  {
    hide Length;
  }

  // ---------------------------------------------------------------- events in the timetable

  lemma ClassIs(c: Config, s: State, tt: Timetable, ev: Event, w: uint32, marker: bool)
    requires WellFormed(c, s) && Matches(c, s, tt)
    ensures var kind := Classify(c, s, ev, w, marker);
            && (kind.NewEvent? <==> IsNew(c, tt, ev, w, marker))
            && (!kind.NewEvent? ==> s.base.id == ev.id) && (kind.Refresh? ==> s.baseTs == w)
            && (!kind.NewEvent? ==> (kind.Refresh? <==> w == tt.tracked.value.place))
  {
    hide U32, Length;
  }

  /** Whether the ring takes an event at `w`, and what taking it costs. */
  lemma PlaceMoves(c: Config, s: State, tt: Timetable, w: uint32, isNew: bool)
    requires Invariant(c, s) && NoWrap(c, s) && Numbers(c, s, tt)
    ensures var (s1, result, w1) := PlaceEvent(c, s, w, isNew);
            && (result == Ok <==> if w < s.readTs then c.adaptive && tt.delay + (s.readTs - w) <= c.maxTs
                                  else FramesTo(c, tt, w) < c.frameCount)
            && (result != Ok ==> s1 == s)
            && (result == Ok ==>
                 && w1 == (if w < s.readTs then s.readTs else w)
                 && s1 == s.(playout := s.playout + (w1 - w),
                             baseTs := if isNew && w < s.readTs then w1 else s.baseTs))
  {
    hide OnFrame, Length, Ahead, FramesTo;
    if w >= s.readTs { AheadIs(c, tt, s.readTs, w); }
  }

  lemma PutIsTold(c: Config, s: State, tt: Timetable, ev: Event, w: uint32, place: uint32, isNew: bool)
    requires WellFormed(c, s) && Numbers(c, s, tt) && s.base.id == ev.id && s.baseTs == place
    requires s.readTs <= w && w + c.frameTs < 0x1_0000_0000
    ensures var r := Told(c, tt, ev, w, place, isNew);
            && Matches(c, PutEvent(c, s, ev, w, isNew), r) && r.next == tt.next
            && r.log == LogEvent(tt.log, FrameNo(c, w), ev, isNew)
  {
    hide Length, FrameNo, SlotOf, FramesTo, LogEvent;
    AheadIs(c, tt, s.readTs, w);
    Position(c, tt.next, w);
  }

  /** From a position on, the event is told of as the timetable says. */
  lemma PlaceIsTold(c: Config, s: State, tt: Timetable, ev: Event, w: uint32, place: uint32, isNew: bool)
    requires Invariant(c, s) && NoWrap(c, s) && Matches(c, s, tt) && s.base.id == ev.id && s.baseTs == place
    requires isNew ==> place == w
    ensures var (s1, result, w1) := PlaceEvent(c, s, w, isNew);
            var r := ToldFrom(c, tt, ev, w, place, isNew);
            && (result != Ok ==> s1 == s && r == tt)
            && (result == Ok ==>
                 && Matches(c, PutEvent(c, s1, ev, w1, isNew), r) && r.next == tt.next
                 && r.log == LogEvent(tt.log, FrameNo(c, w1), ev, isNew))
  {
    hide OnFrame, Bounded, PlaceEvent, PutEvent, LogEvent, FrameNo, Told, Length, FramesTo, Follows;
    PlaceMoves(c, s, tt, w, isNew);
    var (s1, result, w1) := PlaceEvent(c, s, w, isNew);
    if result == Ok {
      EventFits(c, s, tt, w1);
      PutIsTold(c, s1, tt.(delay := s1.playout), ev, w1, s1.baseTs, isNew);
    }
  }

  lemma EventFits(c: Config, s: State, tt: Timetable, w: uint32)
    requires Invariant(c, s) && NoWrap(c, s) && Numbers(c, s, tt) && s.readTs <= w
    requires w == s.readTs || FramesTo(c, tt, w) < c.frameCount
    ensures w + c.frameTs < 0x1_0000_0000 && U32(s.readTs) == s.readTs
  {
    hide Length, FramesTo, OnFrame, Bounded;
    NothingTo(c, tt);
    StoreFits(c, tt, w, 1);
    LengthStep(c, 0);
  }

  lemma NothingTo(c: Config, tt: Timetable)
    requires 0 < c.frameTs
    ensures FramesTo(c, tt, Reader(c, tt)) == 0
  {
    hide Length;
    Arith.DivModUnique(0, c.frameTs, 0, 0);
  }

  lemma NamedMatches(c: Config, s: State, tt: Timetable, ev: Event, ts: uint32, marker: bool)
    requires Invariant(c, s) && NoWrap(c, s) && Matches(c, s, tt)
    ensures var o, r := WriteEvent(c, s, ev, ts, marker), AfterNamed(c, tt, ev, ts, marker);
            && Matches(c, o.state, r) && r.next == tt.next
            && r.log == LogNamed(c, s, tt.log, ev, ts, marker)
  {
    hide Prepare, Classify, IsNew, PlaceEvent, PutEvent, LogEvent, FrameNo, ToldFrom, Length, OnFrame, Bounded, Due,
      Numbers, Stale, Before, U32;
    SpanIsLong(c, s);
    NumbersBound(c, s, tt);
    PrepareIsDue(c, s, tt, ts);
    PrepareKeeps(c, s, ts, Span(c));
    TrackInvariant(c, s, ev, ts, marker);
    var (s0, w) := Prepare(c, s, ts);
    var r := Anchored(c, tt, ts);
    ClassIs(c, s0, r, ev, w, marker);
    var (s1, _, kind) := Track(c, s, ev, ts, marker);
    if !kind.Refresh? { SameNumbers(c, s0, s1, r, r.(tracked := Some(Tracked(ev, w)))); }
    if kind.NewEvent? {
      PlaceIsTold(c, s1, r.(tracked := Some(Tracked(ev, w))), ev, w, w, true);
    } else {
      StaleIs(Deref(s1).value, ev);
      if kind.Refresh? && Before(Deref(s1).value, ev) {
        PlaceIsTold(c, s1, r, ev, U32(w + Deref(s1).value.duration), w, false);
      }
    }
  }

  lemma TrackInvariant(c: Config, s: State, ev: Event, ts: uint32, marker: bool)
    requires Invariant(c, s) && NoWrap(c, s)
    ensures var s1 := Track(c, s, ev, ts, marker).0; Invariant(c, s1) && NoWrap(c, s1)
  {
    hide Prepare, Classify, OnFrame, Length;
    PrepareKeeps(c, s, ts, Span(c));
  }

  lemma NumbersBound(c: Config, s: State, tt: Timetable)
    requires Numbers(c, s, tt)
    ensures s.playout == tt.delay
  {
    hide Length;
  }

  lemma SameNumbers(c: Config, s: State, s1: State, tt: Timetable, r: Timetable)
    requires Numbers(c, s, tt) && r == tt.(tracked := r.tracked)
    requires s1 == s.(base := s1.base, baseTs := s1.baseTs, update := s1.update)
    ensures Numbers(c, s1, r)
  {
    hide Length;
  }

  lemma StaleIs(last: Event, ev: Event)
    ensures Stale(last, ev) <==> !Before(last, ev)
    ensures Stale(ev, ev)
  {
  }

  // ---------------------------------------------------------------- whole runs

  lemma ReadMatches(c: Config, s: State, tt: Timetable)
    requires Invariant(c, s) && NoWrap(c, s) && Matches(c, s, tt) && s.readTs == Length(c, tt.next)
    ensures var s1, r := Read(c, s).0, AfterRead(c, tt);
            Matches(c, s1, r) && r.next == tt.next + 1 && r.log == tt.log
  {
    hide Length, OnFrame, SlotOf, Deref;
    ReaderMoves(c, s, tt.next);
    DerefStable(c, s, Get);
  }

  lemma ResetMatches(c: Config, s: State, tt: Timetable)
    requires WellFormed(c, s) && Matches(c, s, tt)
    ensures var s1, r := Restart(c, s), AfterRestart(c, tt);
            Matches(c, s1, r) && r.next == tt.next && r.log == tt.log
  {
    hide Length;
  }

  /** Each operation does to the timetable what it does to the buffer and its log. */
  lemma StepMatches(c: Config, s: State, tt: Timetable, op: Op)
    requires Invariant(c, s) && Admissible(c, s, op) && Matches(c, s, tt)
    ensures var s1, r := Step(c, s, op), After(c, tt, op);
            && Matches(c, s1, r) && r.next == NextReader(tt.next, op) && r.log == StepLog(c, s, tt.next, tt.log, op)
  {
    hide Write, WriteEvent, Read, Restart, AfterPut, AfterNamed, AfterRead, AfterRestart, LogWrite, LogNamed, Bounded;
    NumbersReader(c, s, tt);
    hide Matches;
    match op
    case Put(data, ts, marker) => PutMatches(c, s, tt, data, ts, marker);
    case PutNamed(ev, ts, marker) => NamedMatches(c, s, tt, ev, ts, marker);
    case Get => ReadMatches(c, s, tt);
    case Reset => ResetMatches(c, s, tt);
  }

  lemma NumbersReader(c: Config, s: State, tt: Timetable)
    requires WellFormed(c, s) && Matches(c, s, tt)
    ensures s.readTs == Length(c, tt.next)
  {
    hide Length;
  }

  // ---------------------------------------------------------------- what runs may do

  /** The operation leaves the reader short of the end of the clock, and packets within reach of the ring. */
  predicate Feasible(c: Config, tt: Timetable, op: Op)
    requires 0 < c.frameTs
  {
    && Reader(c, tt) + 4 * Span(c) < 0x8000_0000
    && (op.Put? ==>
         var (r, at) := Assigned(c, tt, op.ts, op.marker);
         at.Some? && Reader(c, r) <= at.value ==> FramesTo(c, r, at.value) <= c.frameCount)
  }

  /** There is nothing to be played any more. */
  ghost predicate Exhausted(tt: Timetable) { forall n: nat :: tt.next <= n ==> At(tt.log, n) == EMPTY }

  /** Every operation of a run fits, and restarts find nothing to be played. */
  ghost predicate Playable(c: Config, tt: Timetable, ops: seq<Op>)
    requires 0 < c.frameTs
    decreases |ops|
  {
    ops == []
    || (Feasible(c, tt, ops[0]) && (ops[0].Reset? ==> Exhausted(tt)) && Playable(c, After(c, tt, ops[0]), ops[1..]))
  }

  lemma FeasibleIs(c: Config, s: State, tt: Timetable, op: Op)
    requires Invariant(c, s) && Matches(c, s, tt)
    ensures Admissible(c, s, op) <==> Feasible(c, tt, op)
  {
    hide Place, Assigned, Length, OnFrame, Bounded, Ahead, FramesTo, Follows;
    if op.Put? && NoWrap(c, s) {
      PlaceIsAssigned(c, s, tt, op.ts, op.marker);
      PlacedAheadOfReader(c, s, op.ts, op.marker);
      var (s1, at) := Place(c, s, op.ts, op.marker);
      var (r, at1) := Assigned(c, tt, op.ts, op.marker);
      if at.Some? { AheadIs(c, r, s1.readTs, at.value); }
    }
  }

  lemma BlankIs(c: Config, s: State, tt: Timetable)
    requires Refines(c, s, tt.next, tt.log)
    ensures Blank(s) <==> Exhausted(tt)
  {
    hide Length, NumberIn, Slot, OnFrame, Bounded;
    if Blank(s) {
      forall n: nat | tt.next <= n ensures At(tt.log, n) == EMPTY {
        if n in tt.log { assert InWindow(c, tt.next, n); }
      }
    } else {
      var i :| 0 <= i < |s.frames| && Visible(s.frames[i]) != EMPTY;
      NumberInShows(c, tt.next, i);
      assert At(tt.log, NumberIn(c, tt.next, i)) != EMPTY;
    }
  }

  /** Along every run that the timetable can play, buffer and log are those of the timetable. */
  lemma {:induction false} RunMatches(c: Config, s: State, tt: Timetable, ops: seq<Op>)
    requires Refines(c, s, tt.next, tt.log) && Matches(c, s, tt) && Playable(c, tt, ops)
    ensures AdmissibleRun(c, s, ops) && HarmlessResets(c, s, ops)
    ensures Matches(c, Run(c, s, ops), TimetableOf(c, tt, ops))
    ensures RunLog(c, s, tt.next, tt.log, ops) == TimetableOf(c, tt, ops).log
    decreases |ops|
  {
    hide Step, StepLog, After, Matches, Shows, Reachable, Bounded, OnFrame, Length, InReach, InRange, Feasible,
      Exhausted, Blank;
    if ops != [] {
      FeasibleIs(c, s, tt, ops[0]);
      BlankIs(c, s, tt);
      StepMatches(c, s, tt, ops[0]);
      StepRefines(c, s, tt.next, tt.log, ops[0]);
      RunMatches(c, Step(c, s, ops[0]), After(c, tt, ops[0]), ops[1..]);
    }
  }

  /** From the creation of the buffer on, every read of a run that the timetable can play returns what the
      timetable has for its frame. */
  lemma ReadsOnTime(c: Config, ops: seq<Op>)
    requires Configured(c) && Playable(c, NewTimetable(c), ops)
    ensures Delivers(TimetableOf(c, NewTimetable(c), ops).log, 0, Outputs(c, Init(c), ops))
  {
    hide Init, Pending, Shows, Reachable, Invariant, Delivers, Matches;
    InitRefines(c);
    NewMatches(c);
    NewLog(c);
    RunMatches(c, Init(c), NewTimetable(c), ops);
    DeliveryFromCreation(c, ops);
  }

  lemma NewLog(c: Config)
    ensures NewTimetable(c).next == 0 && NewTimetable(c).log == map[]
  {
  }
}
