/** The RTP transmitter: media frames collected into packets of a fixed number of frames, named
    events sent at once (sections 2.5.1 and 2.5.2 of RFC 4733). */
module RtpTransmitter {
  import opened Options
  import opened Machine

  datatype EventMarker = StartOfEvent | NewSegment | EndOfEvent | Unmarked

  datatype NamedEvent = NamedEvent(id: uint8, duration: uint16, marker: EventMarker)

  /** A frame of one tick; with neither audio nor an event, it is of type none. */
  datatype Frame = Frame(audio: bool, event: Option<NamedEvent>, data: seq<uint8>)

  datatype Packet =
    | AudioPacket(seqNum: uint16, marker: bool, timestamp: uint32, payload: seq<uint8>)
    | EventPacket(seqNum: uint16, marker: bool, timestamp: uint32, id: uint8, duration: uint16, edge: bool)

  /** Frames in a packet, samples in a frame, and whether events were negotiated. */
  datatype Config = Config(packetFrames: uint16, samplesPerFrame: uint32, events: bool)

  /** `marker` and `headerTs` are the prepared header, `payload` the frames collected behind it, and
      `sent` the packets handed to the socket. */
  datatype Tx = Tx(timestamp: uint32, base: uint32, current: nat, inactivity: bool, lastSeq: uint16,
                   marker: bool, headerTs: uint32, payload: seq<uint8>, sent: seq<Packet>)

  /** A transmitter as the stream is opened. */
  function Open(timestamp: uint32, lastSeq: uint16): Tx { Tx(timestamp, 0, 0, true, lastSeq, false, 0, [], []) }

  // ---------------------------------------------------------------- one tick

  function DataSend(cfg: Config, t: Tx, data: seq<uint8>): Tx {
    var t1 := t.(payload := t.payload + data, current := t.current + 1);
    if t1.current == cfg.packetFrames then
      var seqNum := U16(t1.lastSeq + 1);
      t1.(lastSeq := seqNum, sent := t1.sent + [AudioPacket(seqNum, t1.marker, t1.headerTs, t1.payload)], current := 0)
    else t1
  }

  function EventSend(t: Tx, e: NamedEvent): Tx {
    var seqNum := U16(t.lastSeq + 1);
    t.(lastSeq := seqNum,
       sent := t.sent + [EventPacket(seqNum, e.marker == StartOfEvent, t.base, e.id, e.duration,
                                     e.marker == EndOfEvent)])
  }

  function EventPart(cfg: Config, t: Tx, f: Frame): Tx {
    if f.event.None? || !cfg.events then t
    else
      var e := f.event.value;
      EventSend(if e.marker == StartOfEvent || e.marker == NewSegment then t.(base := t.timestamp) else t, e)
  }

  function AudioPart(cfg: Config, t: Tx, f: Frame): Tx {
    if !f.audio then t
    else
      var t1 := if t.current == 0
                then t.(marker := t.inactivity, headerTs := t.timestamp, payload := [], inactivity := false)
                else t;
      DataSend(cfg, t1, f.data)
  }

  function Transmit(cfg: Config, t: Tx, f: Frame): Tx {
    var t1 := t.(timestamp := U32(t.timestamp + cfg.samplesPerFrame));
    if !f.audio && f.event.None? then
      if t1.inactivity then t1
      else if t1.current == 0 then t1.(inactivity := true)
      else DataSend(cfg, t1, f.data)
    else AudioPart(cfg, EventPart(cfg, t1, f), f)
  }

  function Run(cfg: Config, t: Tx, fs: seq<Frame>): Tx {
    if fs == [] then t else Transmit(cfg, Run(cfg, t, fs[..|fs| - 1]), fs[|fs| - 1])
  }

  // ---------------------------------------------------------------- the packets there should be

  predicate Silent(f: Frame) { !f.audio && f.event.None? }

  /** While a packet is being filled, every frame but one with nothing but an event goes into it. */
  predicate Fills(f: Frame) { f.audio || f.event.None? }

  /** The ticks that make up a packet. */
  datatype Window = Window(start: nat, end: nat)

  /** The packets completed, and the start and size of the one being filled, if its size is positive. */
  datatype Plan = Plan(windows: seq<Window>, start: nat, count: nat)

  /** The frame goes into the packet being filled, or begins one. */
  predicate Taken(current: nat, f: Frame) { if current > 0 then Fills(f) else f.audio }

  /** A packet begins with an audio frame, and ends when it has its number of frames. */
  function PlanOf(fs: seq<Frame>, size: nat): Plan {
    if fs == [] then Plan([], 0, 0)
    else
      var p, n := PlanOf(fs[..|fs| - 1], size), |fs|;
      var start := if p.count > 0 then p.start else n - 1;
      if !Taken(p.count, fs[n - 1]) then p
      else if p.count + 1 == size then Plan(p.windows + [Window(start, n)], start, 0)
      else Plan(p.windows, start, p.count + 1)
  }

  /** Where the packet begins that frame `n - 1` goes into. */
  function StartOf(p: Plan, n: nat): nat
    requires n > 0
  {
    if p.count > 0 then p.start else n - 1
  }

  /** Plan `q` is plan `p` after one more frame, the last of `fs`. */
  ghost predicate Extends(fs: seq<Frame>, size: nat, p: Plan, q: Plan) {
    && fs != []
    && var start := StartOf(p, |fs|);
       if !Taken(p.count, fs[|fs| - 1]) then q == p
       else if p.count + 1 == size then q == Plan(p.windows + [Window(start, |fs|)], start, 0)
       else q == Plan(p.windows, start, p.count + 1)
  }

  lemma PlanNext(fs: seq<Frame>, size: nat)
    requires fs != []
    ensures Extends(fs, size, PlanOf(fs[..|fs| - 1], size), PlanOf(fs, size))
  {
  }

  /** How many of the ticks from `b` to `e` fill a packet. */
  function FillCount(fs: seq<Frame>, b: nat, e: nat): nat
    requires b <= e <= |fs|
  {
    if e == b then 0 else FillCount(fs, b, e - 1) + if Fills(fs[e - 1]) then 1 else 0
  }

  /** What the ticks from `b` to `e` fill a packet with. */
  function Collect(fs: seq<Frame>, b: nat, e: nat): seq<uint8>
    requires b <= e <= |fs|
  {
    if e == b then [] else Collect(fs, b, e - 1) + if Fills(fs[e - 1]) then fs[e - 1].data else []
  }

  /** The media clock after `k` ticks. */
  function Clock(timestamp: uint32, samples: uint32, k: nat): uint32 {
    if k == 0 then timestamp else U32(Clock(timestamp, samples, k - 1) + samples)
  }

  /** Somewhere from `b` to `e` there is a frame of type none. */
  ghost predicate Pauses(fs: seq<Frame>, b: nat, e: nat)
    requires e <= |fs|
  {
    exists j :: b <= j < e && Silent(fs[j])
  }

  function EndOf(p: Plan, k: nat): nat
    requires k <= |p.windows|
  {
    if k == 0 then 0 else p.windows[k - 1].end
  }

  /** Packets are planned one after the other; each has the right number of frames, beginning and
      ending with one of them, and no audio is left between packets. */
  ghost predicate WellPlanned(fs: seq<Frame>, size: nat, p: Plan) {
    && p.count < size
    && (forall k :: 0 <= k < |p.windows| ==> GoodWindow(fs, size, p, k))
    && EndOf(p, |p.windows|) <= |fs|
    && if p.count == 0 then forall j :: EndOf(p, |p.windows|) <= j < |fs| ==> !fs[j].audio
       else
         && EndOf(p, |p.windows|) <= p.start < |fs| && fs[p.start].audio && p.count == FillCount(fs, p.start, |fs|)
         && forall j :: EndOf(p, |p.windows|) <= j < p.start ==> !fs[j].audio
  }

  ghost predicate GoodWindow(fs: seq<Frame>, size: nat, p: Plan, k: nat)
    requires k < |p.windows|
  {
    var w := p.windows[k];
    && EndOf(p, k) <= w.start < w.end <= |fs| && fs[w.start].audio && Fills(fs[w.end - 1])
    && FillCount(fs, w.start, w.end) == size
    && forall j :: EndOf(p, k) <= j < w.start ==> !fs[j].audio
  }

  lemma {:induction false} FillCountPrefix(fs: seq<Frame>, gs: seq<Frame>, b: nat, e: nat)
    requires b <= e <= |fs| && fs <= gs
    ensures FillCount(fs, b, e) == FillCount(gs, b, e) && Collect(fs, b, e) == Collect(gs, b, e)
  {
    if b < e { FillCountPrefix(fs, gs, b, e - 1); }
  }

  lemma {:induction false} PlanIsGood(fs: seq<Frame>, size: nat)
    requires size > 0
    ensures WellPlanned(fs, size, PlanOf(fs, size))
  {
    hide WellPlanned, Extends;
    if fs == [] {
      NoPlan(size);
    } else {
      var before := fs[..|fs| - 1];
      PlanIsGood(before, size);
      PlanNext(fs, size);
      PlanStep(before, fs, size, PlanOf(before, size), PlanOf(fs, size));
    }
  }

  lemma NoPlan(size: nat)
    requires size > 0
    ensures WellPlanned([], size, Plan([], 0, 0))
  {
  }

  lemma PlanStep(before: seq<Frame>, fs: seq<Frame>, size: nat, p: Plan, q: Plan)
    requires size > 0 && fs != [] && before == fs[..|fs| - 1]
    requires WellPlanned(before, size, p) && Extends(fs, size, p, q)
    ensures WellPlanned(fs, size, q)
  {
    var n := |fs|;
    forall k | 0 <= k < |p.windows| ensures GoodWindow(fs, size, p, k) { GoodStays(before, fs, size, p, k); }
    WindowsStay(fs, size, p, q);
    if p.count > 0 { FillCountPrefix(before, fs, p.start, n - 1); }
    hide GoodWindow, Collect;
    if |q.windows| > |p.windows| {
      NewWindow(fs, size, p, q);
    } else if q.count > p.count {
      assert FillCount(fs, n - 1, n) == 1;
    }
    assert forall k :: 0 <= k < |q.windows| ==> GoodWindow(fs, size, q, k);
  }

  lemma GoodStays(before: seq<Frame>, fs: seq<Frame>, size: nat, p: Plan, k: nat)
    requires k < |p.windows| && before <= fs && GoodWindow(before, size, p, k)
    ensures GoodWindow(fs, size, p, k)
  {
    FillCountPrefix(before, fs, p.windows[k].start, p.windows[k].end);
  }

  /** The window that the last frame completes. */
  lemma NewWindow(fs: seq<Frame>, size: nat, p: Plan, q: Plan)
    requires fs != [] && p.count < size && |p.windows| < |q.windows|
    requires EndOf(p, |p.windows|) < |fs| && EndOf(q, |p.windows|) == EndOf(p, |p.windows|)
    requires var start := if p.count > 0 then p.start else |fs| - 1;
             && q.windows == p.windows + [Window(start, |fs|)] && p.count + 1 == size && Taken(p.count, fs[|fs| - 1])
             && EndOf(p, |p.windows|) <= start < |fs| && fs[start].audio && FillCount(fs, start, |fs| - 1) == p.count
             && forall j :: EndOf(p, |p.windows|) <= j < start ==> !fs[j].audio
    ensures GoodWindow(fs, size, q, |p.windows|)
  {
  }

  lemma WindowsStay(fs: seq<Frame>, size: nat, p: Plan, q: Plan)
    requires |p.windows| <= |q.windows| && q.windows[..|p.windows|] == p.windows
    requires forall k :: 0 <= k < |p.windows| ==> GoodWindow(fs, size, p, k)
    ensures forall k :: 0 <= k < |p.windows| ==> GoodWindow(fs, size, q, k) && EndOf(q, k) == EndOf(p, k)
    ensures EndOf(q, |p.windows|) == EndOf(p, |p.windows|)
  {
    forall k | 0 <= k < |p.windows| ensures GoodWindow(fs, size, q, k) && EndOf(q, k) == EndOf(p, k) {
      assert GoodWindow(fs, size, p, k) && q.windows[..|p.windows|][k] == q.windows[k];
      if k > 0 { assert q.windows[..|p.windows|][k - 1] == q.windows[k - 1]; }
    }
    if p.windows != [] { assert q.windows[..|p.windows|][|p.windows| - 1] == q.windows[|p.windows| - 1]; }
  }

  lemma {:induction false} ConsecutiveIff(fs: seq<Frame>, b: nat, e: nat)
    requires b <= e <= |fs|
    ensures FillCount(fs, b, e) <= e - b
    ensures FillCount(fs, b, e) == e - b <==> forall j :: b <= j < e ==> Fills(fs[j])
  {
    if b < e { ConsecutiveIff(fs, b, e - 1); }
  }

  /** So a packet spans at least as many ticks as it has frames, and exactly as many, which is what
      its timestamp promises, if and only if no such frame came in between. */
  lemma WindowLength(fs: seq<Frame>, size: nat, p: Plan, k: nat)
    requires WellPlanned(fs, size, p) && k < |p.windows|
    ensures var w := p.windows[k];
            && w.end <= |fs| && w.end - w.start >= size
            && (w.end - w.start == size <==> forall j :: w.start <= j < w.end ==> Fills(fs[j]))
  {
    assert GoodWindow(fs, size, p, k);
    ConsecutiveIff(fs, p.windows[k].start, p.windows[k].end);
  }

  // ---------------------------------------------------------------- the packets there are

  function AudioOf(sent: seq<Packet>): (r: seq<Packet>)
    ensures forall k :: 0 <= k < |r| ==> r[k].AudioPacket?
  {
    if sent == [] then []
    else
      var before, last := AudioOf(sent[..|sent| - 1]), sent[|sent| - 1];
      if last.AudioPacket? then before + [last] else before
  }

  lemma AudioNext(sent: seq<Packet>, p: Packet)
    ensures AudioOf(sent + [p]) == if p.AudioPacket? then AudioOf(sent) + [p] else AudioOf(sent)
  {
    assert (sent + [p])[..|sent|] == sent;
  }

  /** Packet `k` carries its window: its clock, its frames, and the marker if it begins a talkspurt. */
  ghost predicate Carries(fs: seq<Frame>, first: uint32, samples: uint32, p: Plan, k: nat, a: Packet)
    requires k < |p.windows| && a.AudioPacket? && EndOf(p, k) <= p.windows[k].start <= p.windows[k].end <= |fs|
  {
    var w := p.windows[k];
    && (a.marker <==> Begins(fs, k, EndOf(p, k), w.start))
    && a.timestamp == Clock(first, samples, w.start + 1)
    && a.payload == Collect(fs, w.start, w.end)
  }

  /** A packet starting at tick `b` after `k` others, the last of which ended at `last`, is the first
      after inactivity. */
  ghost predicate Begins(fs: seq<Frame>, k: nat, last: nat, b: nat)
    requires b <= |fs|
  {
    k == 0 || Pauses(fs, last, b)
  }

  ghost predicate AllCarry(size: nat, samples: uint32, first: uint32, fs: seq<Frame>, p: Plan, audio: seq<Packet>)
    requires WellPlanned(fs, size, p) && forall k :: 0 <= k < |audio| ==> audio[k].AudioPacket?
  {
    && |audio| == |p.windows|
    && forall k :: 0 <= k < |audio| ==> GoodWindow(fs, size, p, k) && Carries(fs, first, samples, p, k, audio[k])
  }

  /** The transmitter is where the plan says. */
  ghost predicate InStep(size: nat, samples: uint32, first: uint32, fs: seq<Frame>, p: Plan, t: Tx)
    requires WellPlanned(fs, size, p)
  {
    && t.timestamp == Clock(first, samples, |fs|) && t.current == p.count
    && if p.count == 0 then t.inactivity <==> Begins(fs, |p.windows|, EndOf(p, |p.windows|), |fs|)
       else
         && !t.inactivity && t.headerTs == Clock(first, samples, p.start + 1)
         && (t.marker <==> Begins(fs, |p.windows|, EndOf(p, |p.windows|), p.start))
         && t.payload == Collect(fs, p.start, |fs|)
  }

  lemma PausesNext(before: seq<Frame>, fs: seq<Frame>, b: nat)
    requires fs != [] && before == fs[..|fs| - 1] && b <= |before|
    ensures Pauses(fs, b, |fs|) <==> Pauses(before, b, |before|) || Silent(fs[|fs| - 1])
    ensures forall e :: 0 <= e <= |before| ==> (Pauses(fs, b, e) <==> Pauses(before, b, e))
  {
    if Pauses(before, b, |before|) {
      var j :| b <= j < |before| && Silent(before[j]);
      assert Silent(fs[j]);
    }
  }

  /** What a tick does, `marker`, `ts` and `payload` being those of the packet the frame goes into. */
  ghost predicate Ticked(size: nat, samples: uint32, t: Tx, f: Frame, r: Tx) {
    && r.timestamp == U32(t.timestamp + samples)
    && if !Taken(t.current, f) then
         && r.current == t.current && r.marker == t.marker && r.headerTs == t.headerTs && r.payload == t.payload
         && (r.inactivity <==> t.inactivity || (t.current == 0 && Silent(f)))
         && AudioOf(r.sent) == AudioOf(t.sent)
       else
         && !r.inactivity
         && r.marker == (if t.current == 0 then t.inactivity else t.marker)
         && r.headerTs == (if t.current == 0 then r.timestamp else t.headerTs)
         && r.payload == (if t.current == 0 then f.data else t.payload + f.data)
         && r.current == (if t.current + 1 == size then 0 else t.current + 1)
         && AudioOf(r.sent) == if t.current + 1 == size
              then AudioOf(t.sent) + [AudioPacket(r.lastSeq, r.marker, r.headerTs, r.payload)]
                               else AudioOf(t.sent)
  }

  lemma EventKeeps(cfg: Config, t: Tx, f: Frame)
    ensures var r := EventPart(cfg, t, f);
            && r == t.(base := r.base, lastSeq := r.lastSeq, sent := r.sent) && AudioOf(r.sent) == AudioOf(t.sent)
  {
    if f.event.Some? && cfg.events {
      var e, seqNum := f.event.value, U16(t.lastSeq + 1);
      var base := if e.marker == StartOfEvent || e.marker == NewSegment then t.timestamp else t.base;
      AudioNext(t.sent, EventPacket(seqNum, e.marker == StartOfEvent, base, e.id, e.duration, e.marker == EndOfEvent));
    }
    hide AudioOf, U16;
  }

  lemma SendKeeps(cfg: Config, t: Tx, data: seq<uint8>)
    ensures var r := DataSend(cfg, t, data);
            && r.timestamp == t.timestamp && r.inactivity == t.inactivity
            && r.marker == t.marker && r.headerTs == t.headerTs
            && r.payload == t.payload + data
            && r.current == (if t.current + 1 == cfg.packetFrames then 0 else t.current + 1)
            && AudioOf(r.sent) == if t.current + 1 == cfg.packetFrames
                 then AudioOf(t.sent) + [AudioPacket(r.lastSeq, r.marker, r.headerTs, r.payload)]
                                  else AudioOf(t.sent)
  {
    AudioNext(t.sent, AudioPacket(U16(t.lastSeq + 1), t.marker, t.headerTs, t.payload + data));
    hide AudioOf, U16;
  }

  lemma TransmitTicks(cfg: Config, t: Tx, f: Frame)
    requires t.current > 0 ==> !t.inactivity
    ensures Ticked(cfg.packetFrames, cfg.samplesPerFrame, t, f, Transmit(cfg, t, f))
  {
    hide EventPart, DataSend, AudioOf, U32;
    var t1 := t.(timestamp := U32(t.timestamp + cfg.samplesPerFrame));
    EventKeeps(cfg, t1, f);
    var t2 := EventPart(cfg, t1, f);
    var t3 := if t2.current == 0
              then t2.(marker := t2.inactivity, headerTs := t2.timestamp, payload := [], inactivity := false)
              else t2;
    SendKeeps(cfg, t3, f.data);
    SendKeeps(cfg, t1, f.data);
    assert [] + f.data == f.data;
  }

  lemma BeginsNext(before: seq<Frame>, fs: seq<Frame>, p: Plan, b: nat)
    requires fs != [] && before == fs[..|fs| - 1] && EndOf(p, |p.windows|) <= |before| && b <= |before|
    ensures Begins(fs, |p.windows|, EndOf(p, |p.windows|), |fs|) <==>
              Begins(before, |p.windows|, EndOf(p, |p.windows|), |before|) || Silent(fs[|fs| - 1])
    ensures Begins(fs, |p.windows|, EndOf(p, |p.windows|), b) <==> Begins(before, |p.windows|, EndOf(p, |p.windows|), b)
  {
    hide Pauses;
    PausesNext(before, fs, EndOf(p, |p.windows|));
  }

  lemma FillLast(fs: seq<Frame>, b: nat, e: nat)
    requires b <= e <= |fs|
    ensures b == e ==> Collect(fs, b, e) == [] && FillCount(fs, b, e) == 0
    ensures b < e ==>
              && Collect(fs, b, e) == Collect(fs, b, e - 1) + (if Fills(fs[e - 1]) then fs[e - 1].data else [])
              && FillCount(fs, b, e) == FillCount(fs, b, e - 1) + if Fills(fs[e - 1]) then 1 else 0
  {
  }

  lemma FillNext(before: seq<Frame>, fs: seq<Frame>, b: nat)
    requires fs != [] && before == fs[..|fs| - 1] && b <= |before|
    ensures Collect(before, |before|, |before|) == [] && FillCount(before, |before|, |before|) == 0
    ensures var f := fs[|fs| - 1];
            && Collect(fs, b, |fs|)
               == (if Fills(f) then Collect(before, b, |before|) + f.data else Collect(before, b, |before|))
            && FillCount(fs, b, |fs|) == FillCount(before, b, |before|) + if Fills(f) then 1 else 0
  {
    hide Collect, FillCount;
    FillLast(before, |before|, |before|);
    FillLast(fs, b, |fs|);
    FillCountPrefix(before, fs, b, |before|);
    assert Collect(before, b, |before|) + [] == Collect(before, b, |before|);
  }

  lemma PlanBounds(fs: seq<Frame>, size: nat, p: Plan)
    requires WellPlanned(fs, size, p)
    ensures EndOf(p, |p.windows|) <= |fs| && p.count < size
    ensures p.count > 0 ==> EndOf(p, |p.windows|) <= p.start < |fs|
  {
    hide GoodWindow, FillCount;
  }

  lemma SameEnd(p: Plan, q: Plan)
    ensures p.windows == q.windows ==> EndOf(p, |p.windows|) == EndOf(q, |q.windows|)
  {
  }

  lemma ClockNext(first: uint32, samples: uint32, k: nat)
    ensures Clock(first, samples, k + 1) == U32(Clock(first, samples, k) + samples)
  {
  }

  lemma NothingBefore(data: seq<uint8>)
    ensures [] + data == data
  {
  }

  /** A frame that is not taken changes no more than the clock and the inactivity. */
  lemma IdleInStep(size: nat, samples: uint32, first: uint32, fs: seq<Frame>, t: Tx, r: Tx, p: Plan)
    requires size > 0 && fs != [] && Ticked(size, samples, t, fs[|fs| - 1], r) && !Taken(p.count, fs[|fs| - 1])
    requires WellPlanned(fs[..|fs| - 1], size, p) && WellPlanned(fs, size, p)
    requires InStep(size, samples, first, fs[..|fs| - 1], p, t)
    ensures InStep(size, samples, first, fs, p, r)
  {
    hide AudioOf, U32, Begins, WellPlanned, Collect, FillCount, EndOf, Clock;
    ClockNext(first, samples, |fs| - 1);
    var before := fs[..|fs| - 1];
    PlanBounds(before, size, p);
    BeginsNext(before, fs, p, if p.count > 0 then p.start else 0);
    if p.count > 0 { FillNext(before, fs, p.start); }
  }

  /** What the packet is made of that frame `fs[|fs| - 1]` goes into, which begins at tick `start`. */
  ghost predicate Holds(samples: uint32, first: uint32, fs: seq<Frame>, p: Plan, start: nat, r: Tx) {
    && EndOf(p, |p.windows|) <= start < |fs|
    && r.payload == Collect(fs, start, |fs|) && r.headerTs == Clock(first, samples, start + 1)
    && (r.marker <==> Begins(fs, |p.windows|, EndOf(p, |p.windows|), start))
  }

  lemma HoldsFirst(size: nat, samples: uint32, first: uint32, fs: seq<Frame>, t: Tx, r: Tx, p: Plan)
    requires size > 0 && fs != [] && Ticked(size, samples, t, fs[|fs| - 1], r)
    requires WellPlanned(fs[..|fs| - 1], size, p) && Taken(p.count, fs[|fs| - 1]) && p.count == 0
    requires InStep(size, samples, first, fs[..|fs| - 1], p, t)
    ensures Holds(samples, first, fs, p, |fs| - 1, r)
  {
    hide AudioOf, U32, Begins, WellPlanned, Collect, FillCount, EndOf, Clock;
    ClockNext(first, samples, |fs| - 1);
    var before := fs[..|fs| - 1];
    PlanBounds(before, size, p);
    BeginsNext(before, fs, p, |before|);
    FillNext(before, fs, |before|);
    NothingBefore(fs[|fs| - 1].data);
  }

  lemma HoldsNext(size: nat, samples: uint32, first: uint32, fs: seq<Frame>, t: Tx, r: Tx, p: Plan)
    requires size > 0 && fs != [] && Ticked(size, samples, t, fs[|fs| - 1], r)
    requires WellPlanned(fs[..|fs| - 1], size, p) && Taken(p.count, fs[|fs| - 1]) && p.count > 0
    requires InStep(size, samples, first, fs[..|fs| - 1], p, t)
    ensures Holds(samples, first, fs, p, p.start, r)
  {
    hide AudioOf, U32, Begins, WellPlanned, Collect, FillCount, EndOf, Clock;
    var before := fs[..|fs| - 1];
    PlanBounds(before, size, p);
    BeginsNext(before, fs, p, p.start);
    FillNext(before, fs, p.start);
  }

  /** What a frame that is taken adds to. */
  lemma TakenHolds(size: nat, samples: uint32, first: uint32, fs: seq<Frame>, t: Tx, r: Tx, p: Plan)
    requires size > 0 && fs != [] && Ticked(size, samples, t, fs[|fs| - 1], r)
    requires WellPlanned(fs[..|fs| - 1], size, p) && Taken(p.count, fs[|fs| - 1])
    requires InStep(size, samples, first, fs[..|fs| - 1], p, t)
    ensures Holds(samples, first, fs, p, StartOf(p, |fs|), r)
  {
    hide Ticked, WellPlanned, InStep, Holds;
    if p.count > 0 {
      HoldsNext(size, samples, first, fs, t, r, p);
    } else {
      HoldsFirst(size, samples, first, fs, t, r, p);
    }
  }

  /** A frame that is taken without completing a packet is the latest part of it. */
  lemma TakenInStep(size: nat, samples: uint32, first: uint32, fs: seq<Frame>, t: Tx, r: Tx, p: Plan, q: Plan)
    requires size > 0 && fs != [] && Ticked(size, samples, t, fs[|fs| - 1], r) && Taken(p.count, fs[|fs| - 1])
    requires p.count + 1 != size
    requires WellPlanned(fs[..|fs| - 1], size, p) && Extends(fs, size, p, q) && WellPlanned(fs, size, q)
    requires InStep(size, samples, first, fs[..|fs| - 1], p, t)
    ensures InStep(size, samples, first, fs, q, r)
  {
    hide AudioOf, U32, Begins, WellPlanned, Collect, FillCount, EndOf, Clock, StartOf;
    ClockNext(first, samples, |fs| - 1);
    TakenHolds(size, samples, first, fs, t, r, p);
    SameEnd(p, q);
  }

  /** One tick keeps the transmitter in step with the plan, whose new state is `q`. */
  lemma TickInStep(size: nat, samples: uint32, first: uint32, fs: seq<Frame>, t: Tx, r: Tx, p: Plan, q: Plan)
    requires size > 0 && fs != [] && Ticked(size, samples, t, fs[|fs| - 1], r)
    requires WellPlanned(fs[..|fs| - 1], size, p) && Extends(fs, size, p, q) && WellPlanned(fs, size, q)
    requires InStep(size, samples, first, fs[..|fs| - 1], p, t)
    ensures InStep(size, samples, first, fs, q, r)
  {
    hide AudioOf, U32, Pauses, WellPlanned, FillCount, Collect, PlanOf;
    if !Taken(p.count, fs[|fs| - 1]) {
      IdleInStep(size, samples, first, fs, t, r, p);
    } else if p.count + 1 == size {
      assert EndOf(q, |q.windows|) == |fs|;
      NoPause(fs, |fs|);
    } else {
      TakenInStep(size, samples, first, fs, t, r, p, q);
    }
  }

  lemma NoPause(fs: seq<Frame>, n: nat)
    requires n <= |fs|
    ensures !Pauses(fs, n, n)
  {
  }

  lemma CarryStays(before: seq<Frame>, fs: seq<Frame>, first: uint32, samples: uint32, p: Plan, q: Plan, k: nat,
                   a: Packet)
    requires before <= fs && k < |p.windows| <= |q.windows| && q.windows[..|p.windows|] == p.windows && a.AudioPacket?
    requires EndOf(p, k) <= p.windows[k].start <= p.windows[k].end <= |before|
    requires Carries(before, first, samples, p, k, a)
    ensures EndOf(q, k) == EndOf(p, k) && q.windows[k] == p.windows[k] && Carries(fs, first, samples, q, k, a)
  {
    var w := p.windows[k];
    assert q.windows[..|p.windows|][k] == q.windows[k];
    if k > 0 { assert q.windows[..|p.windows|][k - 1] == q.windows[k - 1]; }
    FillCountPrefix(before, fs, w.start, w.end);
    if Pauses(fs, EndOf(p, k), w.start) {
      var j :| EndOf(p, k) <= j < w.start && Silent(fs[j]);
      assert Silent(before[j]);
    }
    if Pauses(before, EndOf(p, k), w.start) {
      var j :| EndOf(p, k) <= j < w.start && Silent(before[j]);
      assert Silent(fs[j]);
    }
  }

  lemma NewPlanned(fs: seq<Frame>, size: nat, p: Plan, q: Plan)
    requires fs != [] && Extends(fs, size, p, q) && |q.windows| > |p.windows|
    ensures Taken(p.count, fs[|fs| - 1]) && p.count + 1 == size
    ensures |q.windows| == |p.windows| + 1 && q.windows[|p.windows|] == Window(StartOf(p, |fs|), |fs|)
    ensures EndOf(q, |p.windows|) == EndOf(p, |p.windows|)
  {
  }

  /** The packet that a tick completes carries the window that it completes. */
  lemma NewCarries(size: nat, samples: uint32, first: uint32, fs: seq<Frame>, t: Tx, r: Tx, p: Plan, q: Plan)
    requires size > 0 && fs != [] && Ticked(size, samples, t, fs[|fs| - 1], r)
    requires WellPlanned(fs[..|fs| - 1], size, p) && Extends(fs, size, p, q) && WellPlanned(fs, size, q)
    requires |q.windows| > |p.windows|
    requires InStep(size, samples, first, fs[..|fs| - 1], p, t)
    ensures |q.windows| == |p.windows| + 1 && GoodWindow(fs, size, q, |p.windows|)
    ensures var a := AudioPacket(r.lastSeq, r.marker, r.headerTs, r.payload);
            AudioOf(r.sent) == AudioOf(t.sent) + [a] && Carries(fs, first, samples, q, |p.windows|, a)
  {
    hide AudioOf, U32, Pauses, Collect, Clock, EndOf, Extends, FillCount;
    NewPlanned(fs, size, p, q);
    TakenHolds(size, samples, first, fs, t, r, p);
    assert GoodWindow(fs, size, q, |p.windows|);
  }

  lemma TickCarries(size: nat, samples: uint32, first: uint32, fs: seq<Frame>, t: Tx, r: Tx, p: Plan, q: Plan)
    requires size > 0 && fs != [] && Ticked(size, samples, t, fs[|fs| - 1], r)
    requires WellPlanned(fs[..|fs| - 1], size, p) && Extends(fs, size, p, q) && WellPlanned(fs, size, q)
    requires InStep(size, samples, first, fs[..|fs| - 1], p, t)
    requires t.current == p.count && AllCarry(size, samples, first, fs[..|fs| - 1], p, AudioOf(t.sent))
    ensures AllCarry(size, samples, first, fs, q, AudioOf(r.sent))
  {
    hide Carries, GoodWindow, AudioOf, EndOf, InStep, WellPlanned, Ticked, Extends;
    var before, had, has := fs[..|fs| - 1], AudioOf(t.sent), AudioOf(r.sent);
    AudioGrows(size, samples, fs, t, r, p, q);
    PlanBounds(before, size, p);
    if |q.windows| > |p.windows| { NewCarries(size, samples, first, fs, t, r, p, q); }
    forall k | 0 <= k < |p.windows|
      ensures GoodWindow(fs, size, q, k) && EndOf(q, k) <= q.windows[k].start <= q.windows[k].end <= |fs|
              && k < |has| && Carries(fs, first, samples, q, k, has[k])
    {
      assert GoodWindow(before, size, p, k);
      WindowIn(before, size, p, k);
      assert Carries(before, first, samples, p, k, had[k]);
      CarryStays(before, fs, first, samples, p, q, k, had[k]);
      GoodAgain(before, fs, size, p, q, k);
    }
  }

  lemma WindowIn(fs: seq<Frame>, size: nat, p: Plan, k: nat)
    requires k < |p.windows| && GoodWindow(fs, size, p, k)
    ensures EndOf(p, k) <= p.windows[k].start <= p.windows[k].end <= |fs|
  {
  }

  lemma GoodAgain(before: seq<Frame>, fs: seq<Frame>, size: nat, p: Plan, q: Plan, k: nat)
    requires k < |p.windows| <= |q.windows| && before <= fs && GoodWindow(before, size, p, k)
    requires EndOf(q, k) == EndOf(p, k) && q.windows[k] == p.windows[k]
    ensures GoodWindow(fs, size, q, k)
  {
    hide EndOf, FillCount, Collect;
    FillCountPrefix(before, fs, p.windows[k].start, p.windows[k].end);
  }

  lemma AudioGrows(size: nat, samples: uint32, fs: seq<Frame>, t: Tx, r: Tx, p: Plan, q: Plan)
    requires fs != [] && Ticked(size, samples, t, fs[|fs| - 1], r) && Extends(fs, size, p, q) && t.current == p.count
    ensures |p.windows| <= |q.windows| <= |p.windows| + 1 && q.windows[..|p.windows|] == p.windows
    ensures |q.windows| == |p.windows| ==> AudioOf(r.sent) == AudioOf(t.sent)
  {
    hide AudioOf, U32;
  }

  // ---------------------------------------------------------------- whole runs

  lemma OpenInStep(size: nat, samples: uint32, first: uint32, lastSeq: uint16)
    requires size > 0
    ensures var p := PlanOf([], size);
            && WellPlanned([], size, p) && InStep(size, samples, first, [], p, Open(first, lastSeq))
            && AllCarry(size, samples, first, [], p, AudioOf(Open(first, lastSeq).sent))
  {
  }

  /** For every run of frames, the audio packets sent are the planned ones, each carrying its window
      with the clock of its first tick, the frames of its window, and the marker if it is the first
      after inactivity. */
  lemma {:induction false} PacketsAsPlanned(cfg: Config, first: uint32, lastSeq: uint16, fs: seq<Frame>)
    requires cfg.packetFrames > 0
    ensures var p, t := PlanOf(fs, cfg.packetFrames), Run(cfg, Open(first, lastSeq), fs);
            && WellPlanned(fs, cfg.packetFrames, p)
            && InStep(cfg.packetFrames, cfg.samplesPerFrame, first, fs, p, t)
            && AllCarry(cfg.packetFrames, cfg.samplesPerFrame, first, fs, p, AudioOf(t.sent))
  {
    hide PlanOf, WellPlanned, AudioOf, AllCarry, Ticked, Transmit, Extends;
    if fs == [] {
      OpenInStep(cfg.packetFrames, cfg.samplesPerFrame, first, lastSeq);
    } else {
      var before, size, samples := fs[..|fs| - 1], cfg.packetFrames, cfg.samplesPerFrame;
      var t, p, q := Run(cfg, Open(first, lastSeq), before), PlanOf(before, size), PlanOf(fs, size);
      PacketsAsPlanned(cfg, first, lastSeq, before);
      PlanIsGood(fs, size);
      PlanNext(fs, size);
      NotIdle(size, samples, first, before, p, t);
      hide InStep;
      TransmitTicks(cfg, t, fs[|fs| - 1]);
      TickInStep(size, samples, first, fs, t, Transmit(cfg, t, fs[|fs| - 1]), p, q);
      TickCarries(size, samples, first, fs, t, Transmit(cfg, t, fs[|fs| - 1]), p, q);
    }
  }

  lemma NotIdle(size: nat, samples: uint32, first: uint32, fs: seq<Frame>, p: Plan, t: Tx)
    requires WellPlanned(fs, size, p) && InStep(size, samples, first, fs, p, t)
    ensures t.current == p.count && (t.current > 0 ==> !t.inactivity)
  {
  }

  /** Sequence numbers step by one over all packets, audio and events alike. */
  ghost predicate Numbered(lastSeq: uint16, t: Tx) {
    && t.lastSeq == U16(lastSeq + |t.sent|)
    && forall i :: 0 <= i < |t.sent| ==> t.sent[i].seqNum == U16(lastSeq + i + 1)
  }

  lemma NextNumber(lastSeq: uint16, n: nat)
    ensures U16(U16(lastSeq + n) + 1) == U16(lastSeq + n + 1)
  {
  }

  lemma EventNumbered(cfg: Config, lastSeq: uint16, t: Tx, f: Frame)
    requires Numbered(lastSeq, t)
    ensures Numbered(lastSeq, EventPart(cfg, t, f))
  {
    NextNumber(lastSeq, |t.sent|);
    hide U16;
  }

  lemma SendNumbered(cfg: Config, lastSeq: uint16, t: Tx, data: seq<uint8>)
    requires Numbered(lastSeq, t)
    ensures Numbered(lastSeq, DataSend(cfg, t, data))
  {
    NextNumber(lastSeq, |t.sent|);
    hide U16;
  }

  lemma {:induction false} NumbersStep(cfg: Config, first: uint32, lastSeq: uint16, fs: seq<Frame>)
    ensures Numbered(lastSeq, Run(cfg, Open(first, lastSeq), fs))
  {
    hide EventPart, DataSend, U16, U32, Numbered;
    if fs == [] {
      OpenNumbered(first, lastSeq);
    } else {
      var t, f := Run(cfg, Open(first, lastSeq), fs[..|fs| - 1]), fs[|fs| - 1];
      NumbersStep(cfg, first, lastSeq, fs[..|fs| - 1]);
      var t1 := t.(timestamp := U32(t.timestamp + cfg.samplesPerFrame));
      SameNumbers(lastSeq, t, t1);
      SameNumbers(lastSeq, t, t1.(inactivity := true));
      SendNumbered(cfg, lastSeq, t1, f.data);
      EventNumbered(cfg, lastSeq, t1, f);
      var t2 := EventPart(cfg, t1, f);
      var t3 := if t2.current == 0
                then t2.(marker := t2.inactivity, headerTs := t2.timestamp, payload := [], inactivity := false)
                else t2;
      SameNumbers(lastSeq, t2, t3);
      SendNumbered(cfg, lastSeq, t3, f.data);
    }
  }

  lemma OpenNumbered(first: uint32, lastSeq: uint16)
    ensures Numbered(lastSeq, Open(first, lastSeq))
  {
  }

  lemma SameNumbers(lastSeq: uint16, t: Tx, r: Tx)
    requires Numbered(lastSeq, t) && r.sent == t.sent && r.lastSeq == t.lastSeq
    ensures Numbered(lastSeq, r)
  {
  }

  lemma {:induction false} ClockAdds(timestamp: uint32, samples: uint32, k: nat)
    ensures Clock(timestamp, samples, k) == U32(timestamp + k * samples)
  {
    hide U32;
    if k == 0 {
      InRange(timestamp);
    } else {
      var before := (k - 1) * samples;
      OneMore(k, samples);
      ClockAdds(timestamp, samples, k - 1);
      WrapSum(timestamp + before, samples);
    }
  }

  lemma OneMore(k: nat, d: nat)
    requires k > 0
    ensures (k - 1) * d >= 0 && k * d == (k - 1) * d + d
  {
  }

  lemma InRange(x: uint32)
    ensures U32(x) == x
  {
  }

  lemma WrapSum(x: nat, d: nat)
    ensures U32(U32(x) + d) == U32(x + d)
  {
  }

  // ---------------------------------------------------------------- the transmitter itself

  class Transmitter {
    const cfg: Config
    var timestamp: uint32
    var base: uint32
    var current: nat
    var inactivity: bool
    var lastSeq: uint16
    var marker: bool
    var headerTs: uint32
    var payload: seq<uint8>
    var sent: seq<Packet>

    ghost function State(): Tx
      reads this
    {
      Tx(timestamp, base, current, inactivity, lastSeq, marker, headerTs, payload, sent)
    }

    constructor (cfg: Config, timestamp: uint32, lastSeq: uint16)
      ensures this.cfg == cfg && State() == Open(timestamp, lastSeq)
    {
      this.cfg, this.timestamp, this.lastSeq := cfg, timestamp, lastSeq;
      base, current, inactivity, marker, headerTs, payload, sent := 0, 0, true, false, 0, [], [];
    }

    method HeaderPrepare()
      modifies `marker, `headerTs, `payload, `inactivity
      ensures State() == old(State()).(marker := old(inactivity), headerTs := timestamp, payload := [],
                                       inactivity := false)
    {
      marker, headerTs, payload := inactivity, timestamp, [];
      if inactivity { inactivity := false; }
    }

    method SendData(data: seq<uint8>)
      modifies `payload, `current, `lastSeq, `sent
      ensures State() == DataSend(cfg, old(State()), data)
    {
      payload := payload + data;
      current := current + 1;
      if current == cfg.packetFrames {
        lastSeq := U16(lastSeq + 1);
        sent := sent + [AudioPacket(lastSeq, marker, headerTs, payload)];
        current := 0;
      }
    }

    method SendEvent(e: NamedEvent)
      modifies `lastSeq, `sent
      ensures State() == EventSend(old(State()), e)
    {
      lastSeq := U16(lastSeq + 1);
      sent := sent + [EventPacket(lastSeq, e.marker == StartOfEvent, base, e.id, e.duration, e.marker == EndOfEvent)];
    }

    method TransmitFrame(f: Frame)
      modifies this
      ensures State() == Transmit(cfg, old(State()), f)
    {
      hide DataSend, EventSend, U32;
      timestamp := U32(timestamp + cfg.samplesPerFrame);
      if !f.audio && f.event.None? {
        if !inactivity {
          if current == 0 {
            inactivity := true;
          } else {
            SendData(f.data);
          }
        }
        return;
      }
      if f.event.Some? && cfg.events {
        var e := f.event.value;
        if e.marker == StartOfEvent {
          base := timestamp;
        } else if e.marker == NewSegment {
          base := timestamp;
        }
        SendEvent(e);
      }
      if f.audio {
        if current == 0 { HeaderPrepare(); }
        SendData(f.data);
      }
    }
  }
}
