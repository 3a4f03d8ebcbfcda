/** Named events: what the update pointer of the jitter buffer dereferences to. */
module JitterBufferEvents {
  import opened Options
  import opened Machine
  import opened JitterBuffer

  /** Strictly further along the same event: longer, or equally long and now ended. */
  predicate Before(a: Event, b: Event) {
    a.duration < b.duration || (a.duration == b.duration && !a.edge && b.edge)
  }

  ghost predicate Climbs(h: seq<Event>) {
    forall i, j :: 0 <= i < j < |h| ==> Before(h[i], h[j])
  }

  /** The events tracked since the current segment began, before and after one step. */
  function StepHistory(c: Config, s: State, h: seq<Event>, op: Op): seq<Event>
    requires WellFormed(c, s)
  {
    match op
    case PutNamed(ev, ts, marker) =>
      var o := WriteEvent(c, s, ev, ts, marker);
      if !o.kind.Refresh? then [ev] else if o.at.Some? then h + [ev] else h
    case Reset => []
    case _ => h
  }

  function History(c: Config, s: State, h: seq<Event>, ops: seq<Op>): seq<Event>
    requires WellFormed(c, s)
    decreases |ops|
  {
    if ops == [] then h else History(c, Step(c, s, ops[0]), StepHistory(c, s, h, ops[0]), ops[1..])
  }

  /** The update pointer dereferences to the last event of the segment. */
  ghost predicate Tracks(c: Config, s: State, h: seq<Event>)
    requires WellFormed(c, s)
  {
    && Climbs(h)
    && Deref(s) == if h == [] then None else Some(h[|h| - 1])
  }

  lemma {:induction false} StoreKeepsEvents(c: Config, fs: seq<Frame>, w: uint32, data: seq<Byte>, available: nat)
    requires 0 < c.frameTs && 0 < c.frameCount == |fs|
    ensures forall i :: 0 <= i < |fs| ==> Store(c, fs, w, data, available).0[i].ev == fs[i].ev
    decreases available
  {
    hide SlotOf;
    if !(available == 0 || c.frameSize == 0 || |data| < c.frameSize) {
      StoreKeepsEvents(
        c, StoreAudio(c, fs, w, data[..c.frameSize]), U32(w + c.frameTs), data[c.frameSize..], available - 1);
    }
  }

  lemma PlaceKeepsEvents(c: Config, s: State, ts: uint32, marker: bool)
    requires 0 < c.frameTs
    ensures var s1 := Place(c, s, ts, marker).0;
            s1.update == s.update && s1.base == s.base && s1.frames == s.frames
  {
    hide Align, Delta, Skew, U32, S32;
  }

  /** Recycling slots for audio, or reading them, never changes the tracked event. */
  lemma DerefStable(c: Config, s: State, op: Op)
    requires WellFormed(c, s) && (op.Put? || op.Get?)
    ensures Deref(Step(c, s, op)) == Deref(s)
  {
    hide Place, SlotOf, Available, Ahead, Store, S32;
    match op
    case Put(data, ts, marker) =>
      PlaceKeepsEvents(c, s, ts, marker);
      var (s1, at) := Place(c, s, ts, marker);
      if at.Some? {
        StoreKeepsEvents(c, s1.frames, at.value, data, Available(c, Ahead(c, s1.readTs, at.value)));
      }
    case Get =>
  }

  lemma EventTracked(c: Config, s: State, ev: Event, ts: uint32, marker: bool)
    requires WellFormed(c, s)
    ensures var o := WriteEvent(c, s, ev, ts, marker);
            && (Deref(o.state) == if o.kind.Refresh? && o.at.None? then Deref(s) else Some(ev))
            && (o.kind.Continuation? ==> o.at.None?)
            && (o.kind.Refresh? ==> Deref(s).Some?)
            && (o.kind.Refresh? && o.at.Some? ==> Before(Deref(s).value, ev))
  {
    hide Align, SlotOf, Ahead;
  }

  /** Along every run the update pointer yields the last tracked event, however the ring was
      recycled, and within a segment (duration, end) strictly increases: duplicates and
      outdated updates are never recorded. */
  lemma {:induction false} EventsTracked(c: Config, s: State, h: seq<Event>, ops: seq<Op>)
    requires WellFormed(c, s) && Tracks(c, s, h)
    ensures Tracks(c, Run(c, s, ops), History(c, s, h, ops))
    decreases |ops|
  {
    if ops != [] {
      var op := ops[0];
      if op.PutNamed? { EventTracked(c, s, op.ev, op.ts, op.marker); }
      if op.Put? || op.Get? { DerefStable(c, s, op); }
      hide WriteEvent, Write, Read, WellFormed;
      EventsTracked(c, Step(c, s, op), StepHistory(c, s, h, op), ops[1..]);
    }
  }
}
