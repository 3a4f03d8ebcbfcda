/** The RTP jitter buffer: a ring of frames indexed by timestamp, with an adaptive
    playout delay, time-skew detection and in-place tracking of named events. */
module JitterBuffer {
  import opened Options
  import opened Machine
  import Arith

  type Byte = x: int | 0 <= x < 0x100

  datatype Marker = NoMarker | StartOfEvent | EndOfEvent | NewSegment

  /** A named event of section 2.3 of RFC 4733, without volume and reserved bit. */
  datatype Event = Event(id: uint8, edge: bool, duration: uint16)

  const ZERO_EVENT := Event(0, false, 0)

  /** A ring slot. `audio` and `event` are the two bits of the frame type; payload and
      event are left behind when a read clears the type. */
  datatype Frame = Frame(audio: bool, event: bool, marker: Marker, payload: seq<Byte>, ev: Event)

  const EMPTY := Frame(false, false, NoMarker, [], ZERO_EVENT)

  /** What a reader of the slot gets to see. */
  function Visible(f: Frame): Frame {
    Frame(f.audio, f.event, f.marker, if f.audio then f.payload else [], if f.event then f.ev else ZERO_EVENT)
  }

  predicate Occupied(f: Frame) { f.audio || f.event }

  /** What creation derives from the configuration; constant afterwards. Delays ending in
      `Ts` are in timestamp units. */
  datatype Config = Config(
    adaptive: bool, skewDetection: bool,
    frameTs: uint32, frameCount: uint32, frameSize: nat,
    initialTs: uint32, maxTs: uint32)

  /** `event_write_update`: unset, pointing at the base event, or into a ring slot. */
  datatype Pointer = Unset | AtBase | AtSlot(slot: nat)

  datatype State = State(
    playout: uint32, sync: bool, offset: uint32, writeTs: uint32, readTs: uint32,
    minLen: int32, maxLen: int32, measured: nat,
    baseTs: uint32, base: Event, update: Pointer, frames: seq<Frame>)

  datatype Result = Ok | TooLate | TooEarly

  // ---------------------------------------------------------------- creation

  /** The validated `initial` and `max` delays (milliseconds), before rounding. */
  function MaxDelay(initial: nat, max: nat): nat {
    var m := if max < initial then 2 * initial else max;
    if m == 0 then 600 else m
  }

  function RoundUp10(ms: nat): nat { if ms % 10 != 0 then ms + 10 - ms % 10 else ms }

  predicate Fits(frameTs: nat, initial: nat, max: nat) {
    && 0 < frameTs
    && 10 <= MaxDelay(initial, max) < 0x1_0000_0000
    && frameTs * (MaxDelay(initial, max) + RoundUp10(initial)) < 0x1_0000_0000
  }

  lemma DelaysFit(frameTs: nat, a: nat, b: nat)
    requires frameTs * (a + b) < 0x1_0000_0000
    ensures 0 <= frameTs * a < 0x1_0000_0000 && 0 <= frameTs * b < 0x1_0000_0000
  {
    Arith.Product(frameTs, a);
    Arith.Product(frameTs, b);
    assert frameTs * (a + b) == frameTs * a + frameTs * b;
  }

  function MakeConfig(adaptive: bool, skew: bool, frameTs: uint32, frameSize: nat, initial: nat, max: nat): Config
    requires Fits(frameTs, initial, max)
  {
    DelaysFit(frameTs, MaxDelay(initial, max), RoundUp10(initial));
    Config(adaptive, skew, frameTs, MaxDelay(initial, max) / 10, frameSize,
           frameTs * RoundUp10(initial) / 10, frameTs * MaxDelay(initial, max) / 10)
  }

  function Init(c: Config): State {
    State(c.initialTs, true, 0, 0, 0, 0, 0, 0, 0, ZERO_EVENT, Unset, seq(c.frameCount, _ => EMPTY))
  }

  // ---------------------------------------------------------------- operations

  predicate OnFrame(ts: nat, unit: nat)
    requires 0 < unit
  {
    ts % unit == 0
  }

  function Align(ts: uint32, unit: uint32): (r: uint32)
    requires 0 < unit
    ensures r <= ts < r + unit && OnFrame(r, unit)
  {
    AlignFacts(ts, unit);
    ts - ts % unit
  }

  lemma AlignFacts(ts: nat, unit: nat)
    requires 0 < unit
    ensures 0 <= ts % unit <= ts && ts % unit < unit && (ts - ts % unit) % unit == 0
  {
    Arith.MulStep(-1, ts / unit, unit);
    Arith.DivModUnique(ts - ts % unit, unit, ts / unit, 0);
  }

  /** The number of the frame that timestamp `ts` falls into. */
  function FrameNo(c: Config, ts: nat): nat
    requires 0 < c.frameTs
  {
    ts / c.frameTs
  }

  function SlotOf(c: Config, ts: nat): (i: nat)
    requires 0 < c.frameTs && 0 < c.frameCount
    ensures i < c.frameCount
  {
    FrameNo(c, ts) % c.frameCount
  }

  function Restart(c: Config, s: State): State {
    s.(sync := true, offset := 0, writeTs := s.readTs,
       baseTs := 0, base := ZERO_EVENT, update := Unset,
       playout := if c.adaptive && s.playout == c.maxTs then c.initialTs else s.playout)
  }

  /** Synchronises the write offset if asked to and computes the aligned write position. */
  function Prepare(c: Config, s: State, ts: uint32): (State, uint32)
    requires 0 < c.frameTs
  {
    var s1 := if !s.sync then s
              else var s0 := s.(offset := U32(ts - s.readTs), sync := false);
                   if c.skewDetection then s0.(minLen := S32(s.playout), maxLen := S32(s.playout), measured := 0)
                   else s0;
    (s1, Align(U32(ts - s1.offset + s1.playout), c.frameTs))
  }

  /** Raises the playout delay by `delta`, or gives the packet up. */
  function Grow(c: Config, s: State, w: uint32, delta: uint32): (State, Option<uint32>) {
    if delta == 0 then (s, Some(w))
    else if !c.adaptive || U32(s.playout + delta) > c.maxTs then (s, None)
    else
      var s1 := s.(playout := U32(s.playout + delta));
      (if c.skewDetection then s1.(minLen := S32(s.minLen + delta), maxLen := S32(s.maxLen + delta)) else s1,
       Some(U32(w + delta)))
  }

  predicate SkewSuspected(s: State) { 0 < s.maxLen < s.playout }

  function Skew(c: Config, s: State): (skew: uint32)
    requires 0 < c.frameTs && SkewSuspected(s)
    ensures skew <= s.playout - s.maxLen
  {
    Align(s.playout - s.maxLen, c.frameTs)
  }

  /** The adjustment the packet needs, enlarged by the collected statistics. */
  function Delta(c: Config, s: State, w: uint32): uint32
    requires 0 < c.frameTs && w < s.readTs
  {
    var delta := s.readTs - w;
    if c.skewDetection && U32(s.maxLen - s.minLen) > U32(s.playout + delta)
    then Align(U32(s.maxLen - s.minLen - s.playout), c.frameTs)
    else delta
  }

  function ApplySkew(s: State, skew: uint32): State {
    s.(offset := U32(s.offset - skew), minLen := S32(s.minLen + skew), maxLen := S32(s.maxLen + skew))
  }

  /** The branch for a packet whose write position is already behind the read position. */
  function LatePlace(c: Config, s: State, ts: uint32, w: uint32): (State, Option<uint32>)
    requires 0 < c.frameTs && w < s.readTs
  {
    if w < s.writeTs then (s, None)
    else
      var delta := Delta(c, s, w);
      if c.skewDetection && SkewSuspected(s) then
        var skew := Skew(c, s);
        var s1 := ApplySkew(s, skew);
        Grow(c, s1, U32(ts - s1.offset + s1.playout), if skew < delta then delta - skew else 0)
      else
        Grow(c, s, w, delta)
  }

  /** Everything a write does before it touches the ring: the state reached and the position
      chosen, unless the packet is dropped as too late. */
  function Place(c: Config, s: State, ts: uint32, marker: bool): (State, Option<uint32>)
    requires 0 < c.frameTs
  {
    var s0 := if marker && s.writeTs <= s.readTs then s.(sync := true) else s;
    var (s1, w) := Prepare(c, s0, ts);
    if w >= s1.readTs then (s1, Some(w)) else LatePlace(c, s1, ts, w)
  }

  function StoreAudio(c: Config, fs: seq<Frame>, w: uint32, chunk: seq<Byte>): (r: seq<Frame>)
    requires 0 < c.frameTs && 0 < c.frameCount == |fs|
    ensures |r| == |fs|
  {
    var i := SlotOf(c, w);
    fs[i := fs[i].(audio := true, payload := chunk)]
  }

  /** Dissects the packet into frames, as long as slots are available and whole frames are left. */
  function Store(c: Config, fs: seq<Frame>, w: uint32, data: seq<Byte>, available: nat): (r: (seq<Frame>, uint32))
    requires 0 < c.frameTs && 0 < c.frameCount == |fs|
    ensures |r.0| == |fs|
    decreases available
  {
    if available == 0 || c.frameSize == 0 || |data| < c.frameSize then (fs, w)
    else Store(c, StoreAudio(c, fs, w, data[..c.frameSize]), U32(w + c.frameTs), data[c.frameSize..], available - 1)
  }

  /** Whole frames from `readTs` to `w`. */
  function Ahead(c: Config, readTs: uint32, w: uint32): nat
    requires 0 < c.frameTs
  {
    U32(w - readTs) / c.frameTs
  }

  /** Slots left at `ahead` frames from the reader. The C code computes them unsigned, so the
      result only reaches zero when `ahead` is exactly the size of the ring. */
  function Available(c: Config, ahead: nat): uint64 { U64(c.frameCount - ahead) }

  function Later(a: uint32, b: uint32): uint32 { if a > b then a else b }

  predicate WellFormed(c: Config, s: State) {
    && 0 < c.frameTs
    && 0 < c.frameCount == |s.frames|
    && (s.update.AtSlot? ==> s.update.slot < |s.frames|)
  }

  function Write(c: Config, s: State, data: seq<Byte>, ts: uint32, marker: bool): (r: (State, Result))
    requires WellFormed(c, s)
    ensures WellFormed(c, r.0)
  {
    var (s1, at) := Place(c, s, ts, marker);
    if at.None? then (s1, TooLate)
    else
      var available := Available(c, Ahead(c, s1.readTs, at.value));
      if available == 0 then (s1, TooEarly)
      else
        var (fs, end) := Store(c, s1.frames, at.value, data, available);
        (s1.(frames := fs, writeTs := Later(end, s1.writeTs)), Ok)
  }

  /** The event `event_write_update` points at. */
  function Deref(s: State): Option<Event>
    requires s.update.AtSlot? ==> s.update.slot < |s.frames|
  {
    match s.update
    case Unset => None
    case AtBase => Some(s.base)
    case AtSlot(i) => Some(s.frames[i].ev)
  }

  /** How an incoming event relates to the one being tracked. */
  datatype EventClass = NewEvent | Continuation | Refresh

  function Classify(c: Config, s: State, ev: Event, w: uint32, marker: bool): EventClass
    requires WellFormed(c, s)
  {
    if marker || s.base.id != ev.id || s.update.Unset? then NewEvent
    else if s.baseTs == w then Refresh
    else if w > U32(s.baseTs + Deref(s).value.duration + 4 * c.frameTs) then NewEvent
    else Continuation
  }

  function Rebase(s: State, ev: Event, w: uint32): State {
    s.(base := ev, update := AtBase, baseTs := w)
  }

  /** An update older than, or equal to, what has been tracked already. */
  predicate Stale(tracked: Event, ev: Event) {
    || ev.duration < tracked.duration
    || (ev.duration == tracked.duration && (tracked.edge || tracked.edge == ev.edge))
  }

  function PutEvent(c: Config, s: State, ev: Event, w: uint32, isNew: bool): (r: State)
    requires WellFormed(c, s)
    ensures WellFormed(c, r)
  {
    var i := SlotOf(c, w);
    var f := s.frames[i];
    var marker := if isNew then StartOfEvent else if ev.edge then EndOfEvent else f.marker;
    s.(frames := s.frames[i := f.(ev := ev, event := true, marker := marker)],
       update := AtSlot(i),
       writeTs := Later(U32(w + c.frameTs), s.writeTs))
  }

  /** Brings an event to a position inside the ring, or drops it. */
  function PlaceEvent(c: Config, s: State, w: uint32, isNew: bool): (State, Result, uint32)
    requires 0 < c.frameTs
  {
    if w < s.readTs then
      var delta := s.readTs - w;
      if !c.adaptive || U32(s.playout + delta) > c.maxTs then (s, TooLate, w)
      else
        var w1 := U32(w + delta);
        var s1 := s.(playout := U32(s.playout + delta));
        (if isNew then s1.(baseTs := w1) else s1, Ok, w1)
    else if Ahead(c, s.readTs, w) >= c.frameCount then (s, TooEarly, w)
    else (s, Ok, w)
  }

  /** Outcome of an event write; `at` is the position at which the ring took the event, if it did. */
  datatype EventOutcome = EventOutcome(state: State, result: Result, kind: EventClass, at: Option<uint32>)

  /** Prepares the write position and decides which event the packet belongs to. */
  function Track(c: Config, s: State, ev: Event, ts: uint32, marker: bool): (r: (State, uint32, EventClass))
    requires WellFormed(c, s)
    ensures WellFormed(c, r.0) && (!r.2.NewEvent? ==> Deref(r.0).Some?)
  {
    var (s0, w) := Prepare(c, s, ts);
    var kind := Classify(c, s0, ev, w, marker);
    (if kind.Refresh? then s0 else Rebase(s0, ev, w), w, kind)
  }

  function WriteEvent(c: Config, s: State, ev: Event, ts: uint32, marker: bool): (r: EventOutcome)
    requires WellFormed(c, s)
    ensures WellFormed(c, r.state)
  {
    var (s1, w, kind) := Track(c, s, ev, ts, marker);
    if !kind.NewEvent? && Stale(Deref(s1).value, ev) then EventOutcome(s1, Ok, kind, None)
    else
      var w1 := if kind.NewEvent? then w else U32(w + Deref(s1).value.duration);
      var (s2, result, w2) := PlaceEvent(c, s1, w1, kind.NewEvent?);
      if result != Ok then EventOutcome(s2, result, kind, None)
      else EventOutcome(PutEvent(c, s2, ev, w2, kind.NewEvent?), Ok, kind, Some(w2))
  }

  function Measure(s: State): State {
    var s1 := if s.measured != 50 then s
              else var mean := S32(s.minLen + (s.maxLen - s.minLen) / 2);
                   s.(minLen := mean, maxLen := mean, measured := 0);
    var length := S32(s1.writeTs - s1.readTs);
    var s2 := if length > s1.maxLen then s1.(maxLen := length)
              else if length < s1.minLen then s1.(minLen := length)
              else s1;
    s2.(measured := s2.measured + 1)
  }

  function Read(c: Config, s: State): (r: (State, Frame))
    requires WellFormed(c, s)
    ensures WellFormed(c, r.0)
  {
    var i := SlotOf(c, s.readTs);
    var out := if s.writeTs > s.readTs then Visible(s.frames[i]) else EMPTY;
    var s1 := s.(frames := s.frames[i := s.frames[i].(audio := false, event := false, marker := NoMarker)],
                 readTs := U32(s.readTs + c.frameTs));
    (if c.skewDetection then Measure(s1) else s1, out)
  }

  // ---------------------------------------------------------------- runs

  datatype Op =
    | Put(data: seq<Byte>, ts: uint32, marker: bool)
    | PutNamed(ev: Event, ts: uint32, marker: bool)
    | Get
    | Reset

  function Step(c: Config, s: State, op: Op): (r: State)
    requires WellFormed(c, s)
    ensures WellFormed(c, r)
  {
    match op
    case Put(data, ts, marker) => Write(c, s, data, ts, marker).0
    case PutNamed(ev, ts, marker) => WriteEvent(c, s, ev, ts, marker).state
    case Get => Read(c, s).0
    case Reset => Restart(c, s)
  }

  function Run(c: Config, s: State, ops: seq<Op>): (r: State)
    requires WellFormed(c, s)
    ensures WellFormed(c, r)
    decreases |ops|
  {
    if ops == [] then s else Run(c, Step(c, s, ops[0]), ops[1..])
  }

  /** What the reads of a run return, in order. */
  function Outputs(c: Config, s: State, ops: seq<Op>): seq<Frame>
    requires WellFormed(c, s)
    decreases |ops|
  {
    if ops == [] then []
    else (if ops[0].Get? then [Read(c, s).1] else []) + Outputs(c, Step(c, s, ops[0]), ops[1..])
  }

  // ---------------------------------------------------------------- the buffer itself

  /** The jitter buffer with its fields updated in place. Every method is tied to the
      operation of the same purpose above. */
  class Buffer {
    const config: Config
    const frames: array<Frame>
    var playoutDelay: uint32
    var writeSync: bool
    var writeOffset: uint32
    var writeTs: uint32
    var readTs: uint32
    var minLength: int32
    var maxLength: int32
    var measurements: nat
    var eventBaseTs: uint32
    var eventBase: Event
    var eventUpdate: Pointer

    ghost function Value(): State
      reads this, frames
    {
      State(playoutDelay, writeSync, writeOffset, writeTs, readTs, minLength, maxLength, measurements,
            eventBaseTs, eventBase, eventUpdate, frames[..])
    }

    ghost predicate Valid()
      reads this, frames
    {
      WellFormed(config, Value())
    }

    constructor (c: Config)
      requires 0 < c.frameTs && 0 < c.frameCount
      ensures Valid() && fresh(frames) && config == c && Value() == Init(c)
    {
      config := c;
      frames := new Frame[c.frameCount](_ => EMPTY);
      playoutDelay, writeSync, writeOffset, writeTs, readTs := c.initialTs, true, 0, 0, 0;
      minLength, maxLength, measurements := 0, 0, 0;
      eventBaseTs, eventBase, eventUpdate := 0, ZERO_EVENT, Unset;
    }

    method RestartBuffer()
      requires Valid()
      modifies this
      ensures Valid() && Value() == Restart(config, old(Value()))
    {
      writeSync, writeOffset, writeTs := true, 0, readTs;
      eventBaseTs, eventBase, eventUpdate := 0, ZERO_EVENT, Unset;
      if config.adaptive && playoutDelay == config.maxTs {
        playoutDelay := config.initialTs;
      }
    }

    method PrepareWrite(ts: uint32) returns (w: uint32)
      requires Valid()
      modifies this
      ensures Valid() && (Value(), w) == Prepare(config, old(Value()), ts)
    {
      if writeSync {
        writeOffset := U32(ts - readTs);
        writeSync := false;
        if config.skewDetection {
          minLength, maxLength := S32(playoutDelay), S32(playoutDelay);
          measurements := 0;
        }
      }
      w := Align(U32(ts - writeOffset + playoutDelay), config.frameTs);
    }

    /** The late branch: enlarge the adjustment, shift for a skew, grow the delay or give up. */
    method PlaceLate(ts: uint32, w0: uint32) returns (at: Option<uint32>)
      requires Valid() && w0 < readTs
      modifies this
      ensures Valid() && (Value(), at) == LatePlace(config, old(Value()), ts, w0)
    {
      hide Align, Delta, Skew, ApplySkew, U32, S32, Grow;
      if w0 < writeTs { return None; }
      var w := w0;
      var delta := Adjustment(w);
      if config.skewDetection && 0 < maxLength && maxLength < playoutDelay {
        var skew := ShiftForSkew();
        w := U32(ts - writeOffset + playoutDelay);
        delta := if skew < delta then delta - skew else 0;
      }
      at := GrowDelay(w, delta);
    }

    method Adjustment(w: uint32) returns (delta: uint32)
      requires Valid() && w < readTs
      ensures delta == Delta(config, Value(), w)
    {
      hide Align, U32;
      delta := readTs - w;
      if config.skewDetection && U32(maxLength - minLength) > U32(playoutDelay + delta) {
        delta := Align(U32(maxLength - minLength - playoutDelay), config.frameTs);
      }
    }

    method ShiftForSkew() returns (skew: uint32)
      requires Valid() && SkewSuspected(Value())
      modifies this
      ensures Valid() && skew == Skew(config, old(Value())) && Value() == ApplySkew(old(Value()), skew)
    {
      hide Align, U32, S32;
      skew := Align(playoutDelay - maxLength, config.frameTs);
      writeOffset := U32(writeOffset - skew);
      minLength, maxLength := S32(minLength + skew), S32(maxLength + skew);
    }

    method GrowDelay(w: uint32, delta: uint32) returns (at: Option<uint32>)
      requires Valid()
      modifies this
      ensures Valid() && (Value(), at) == Grow(config, old(Value()), w, delta)
    {
      if delta == 0 { return Some(w); }
      if !config.adaptive || U32(playoutDelay + delta) > config.maxTs { return None; }
      playoutDelay := U32(playoutDelay + delta);
      if config.skewDetection {
        minLength, maxLength := S32(minLength + delta), S32(maxLength + delta);
      }
      at := Some(U32(w + delta));
    }

    method WriteAudio(data: seq<Byte>, ts: uint32, marker: bool) returns (result: Result)
      requires Valid()
      modifies this, frames
      ensures Valid() && (Value(), result) == Write(config, old(Value()), data, ts, marker)
    {
      hide Align, Prepare, LatePlace, Available, Ahead, Store;
      if marker && writeTs <= readTs { writeSync := true; }
      var first := PrepareWrite(ts);
      var at := Some(first);
      if first < readTs { at := PlaceLate(ts, first); }
      if at.None? { return TooLate; }
      var available := Available(config, Ahead(config, readTs, at.value));
      if available == 0 { return TooEarly; }
      var w := StoreFrames(at.value, data, available);
      if w > writeTs { writeTs := w; }
      result := Ok;
    }

    /** Cuts the packet into frames, as long as slots are available and whole frames are left. */
    method StoreFrames(at: uint32, data: seq<Byte>, available: nat) returns (w: uint32)
      requires Valid()
      modifies frames
      ensures Valid() && (frames[..], w) == Store(config, old(frames[..]), at, data, available)
    {
      hide SlotOf, U32;
      ghost var before := frames[..];
      var left: nat, rest := available, data;
      w := at;
      while left != 0 && config.frameSize != 0 && |rest| >= config.frameSize
        invariant Store(config, frames[..], w, rest, left) == Store(config, before, at, data, available)
        invariant Valid()
        decreases left
      {
        var i := SlotOf(config, w);
        frames[i] := frames[i].(audio := true, payload := rest[..config.frameSize]);
        w, left, rest := U32(w + config.frameTs), left - 1, rest[config.frameSize..];
      }
    }

    /** Decides whether the packet starts a new event, continues the tracked one in a new
        segment, or updates it. */
    method TrackEvent(ev: Event, ts: uint32, marker: bool) returns (w: uint32, isNew: bool)
      requires Valid()
      modifies this
      ensures Valid()
      ensures var (s, w1, kind) := Track(config, old(Value()), ev, ts, marker);
              Value() == s && w == w1 && isNew == kind.NewEvent?
    {
      isNew := marker;
      w := PrepareWrite(ts);
      hide Prepare, Align, U32;
      if !isNew {
        if eventBase.id != ev.id || eventUpdate.Unset? {
          isNew := true;
        } else if eventBaseTs != w {
          var last := LastUpdate();
          if w > U32(eventBaseTs + last.duration + 4 * config.frameTs) {
            isNew := true;
          } else {
            eventBase, eventUpdate, eventBaseTs := ev, AtBase, w;
          }
        }
      }
      if isNew {
        eventBase, eventUpdate, eventBaseTs := ev, AtBase, w;
      }
    }

    method PlaceNamed(w0: uint32, isNew: bool) returns (result: Result, w: uint32)
      requires Valid()
      modifies this
      ensures Valid() && (Value(), result, w) == PlaceEvent(config, old(Value()), w0, isNew)
    {
      hide Ahead, U32;
      w := w0;
      if w < readTs {
        var delta := readTs - w;
        if !config.adaptive || U32(playoutDelay + delta) > config.maxTs { return TooLate, w; }
        playoutDelay := U32(playoutDelay + delta);
        w := U32(w + delta);
        if isNew { eventBaseTs := w; }
      } else if Ahead(config, readTs, w) >= config.frameCount {
        return TooEarly, w;
      }
      result := Ok;
    }

    method WriteNamedEvent(ev: Event, ts: uint32, marker: bool) returns (result: Result)
      requires Valid()
      modifies this, frames
      ensures Valid()
      ensures var o := WriteEvent(config, old(Value()), ev, ts, marker); Value() == o.state && result == o.result
    {
      hide Track, PlaceEvent, PutEvent, U32;
      var w, isNew := TrackEvent(ev, ts, marker);
      if !isNew {
        var last := LastUpdate();
        if ev.duration < last.duration { return Ok; }
        if ev.duration == last.duration && (last.edge || last.edge == ev.edge) { return Ok; }
        w := U32(w + last.duration);
      }
      result, w := PlaceNamed(w, isNew);
      if result == Ok { StoreEvent(ev, w, isNew); }
    }

    /** Writes the event into its slot, which is the one to be updated from now on. */
    method StoreEvent(ev: Event, w: uint32, isNew: bool)
      requires Valid()
      modifies this, frames
      ensures Valid() && Value() == PutEvent(config, old(Value()), ev, w, isNew)
    {
      hide SlotOf, U32;
      var i := SlotOf(config, w);
      frames[i] := frames[i].(ev := ev, event := true);
      if isNew {
        frames[i] := frames[i].(marker := StartOfEvent);
      } else if ev.edge {
        frames[i] := frames[i].(marker := EndOfEvent);
      }
      eventUpdate := AtSlot(i);
      var end := U32(w + config.frameTs);
      if end > writeTs { writeTs := end; }
    }

    method LastUpdate() returns (ev: Event)
      requires Valid() && !eventUpdate.Unset?
      ensures Deref(Value()) == Some(ev)
    {
      ev := if eventUpdate.AtSlot? then frames[eventUpdate.slot].ev else eventBase;
    }

    method ReadFrame() returns (out: Frame)
      requires Valid()
      modifies this, frames
      ensures Valid() && (Value(), out) == Read(config, old(Value()))
    {
      var i := SlotOf(config, readTs);
      out := if writeTs > readTs then Visible(frames[i]) else EMPTY;
      frames[i] := frames[i].(audio := false, event := false, marker := NoMarker);
      readTs := U32(readTs + config.frameTs);
      if config.skewDetection { UpdateStatistics(); }
    }

    method UpdateStatistics()
      requires Valid()
      modifies this
      ensures Valid() && Value() == Measure(old(Value()))
    {
      if measurements == 50 {
        var mean := S32(minLength + (maxLength - minLength) / 2);
        minLength, maxLength, measurements := mean, mean, 0;
      }
      var length := S32(writeTs - readTs);
      if length > maxLength {
        maxLength := length;
      } else if length < minLength {
        minLength := length;
      }
      measurements := measurements + 1;
    }
  }
}
