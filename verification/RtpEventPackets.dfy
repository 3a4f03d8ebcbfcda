/** What the RTP transmitter says about named events, and in which order events and audio are sent. */
module RtpEventPackets {
  import opened Options
  import opened Machine
  import opened RtpTransmitter

  predicate SendsEvent(cfg: Config, f: Frame) { cfg.events && f.event.Some? }

  /** The frame starts an event, or a further segment of one. */
  predicate Opens(f: Frame) {
    f.event.Some? && (f.event.value.marker == StartOfEvent || f.event.value.marker == NewSegment)
  }

  /** The last of the first `n` ticks that starts an event or a segment. */
  function LastOpening(fs: seq<Frame>, n: nat): (r: Option<nat>)
    requires n <= |fs|
    ensures r.Some? ==> r.value < n && Opens(fs[r.value]) && forall i :: r.value < i < n ==> !Opens(fs[i])
    ensures r.None? ==> forall i :: 0 <= i < n ==> !Opens(fs[i])
  {
    if n == 0 then None else if Opens(fs[n - 1]) then Some(n - 1) else LastOpening(fs, n - 1)
  }

  /** The clock of that tick, or zero if there is none. */
  function BaseClock(cfg: Config, first: uint32, fs: seq<Frame>, n: nat): uint32
    requires n <= |fs|
  {
    match LastOpening(fs, n)
    case None => 0
    case Some(j) => Clock(first, cfg.samplesPerFrame, j + 1)
  }

  /** How many of the first `n` ticks send an event. */
  function Events(cfg: Config, fs: seq<Frame>, n: nat): nat
    requires n <= |fs|
  {
    if n == 0 then 0 else Events(cfg, fs, n - 1) + if SendsEvent(cfg, fs[n - 1]) then 1 else 0
  }

  /** Packet `p` tells of the event of tick `i`: its identity and duration, the marker exactly on its start,
      the edge exactly on its end, and as timestamp the clock at which it, or its segment, started. */
  ghost predicate Conveys(cfg: Config, first: uint32, fs: seq<Frame>, i: nat, p: Packet)
    requires i < |fs| && fs[i].event.Some?
  {
    var e := fs[i].event.value;
    && p.EventPacket? && p.id == e.id && p.duration == e.duration
    && (p.marker <==> e.marker == StartOfEvent) && (p.edge <==> e.marker == EndOfEvent)
    && p.timestamp == BaseClock(cfg, first, fs, i + 1)
  }

  /** The packets sent before tick `i`: its events, and the audio packets completed. */
  function Before(cfg: Config, fs: seq<Frame>, i: nat): nat
    requires i <= |fs|
  {
    Events(cfg, fs, i) + |PlanOf(fs[..i], cfg.packetFrames).windows|
  }

  /** Every event frame has its packet at its place, and every audio packet stands behind the events of all
      ticks up to the one that completes it; nothing else is sent. */
  ghost predicate InOrder(cfg: Config, first: uint32, fs: seq<Frame>, sent: seq<Packet>) {
    && |sent| == Before(cfg, fs, |fs|)
    && (forall i :: 0 <= i < |fs| && SendsEvent(cfg, fs[i]) ==> EventInPlace(cfg, first, fs, sent, i))
    && (forall k :: 0 <= k < |PlanOf(fs, cfg.packetFrames).windows| ==> AudioInPlace(cfg, fs, sent, k))
  }

  ghost predicate EventInPlace(cfg: Config, first: uint32, fs: seq<Frame>, sent: seq<Packet>, i: nat)
    requires i < |fs| && SendsEvent(cfg, fs[i])
  {
    Before(cfg, fs, i) < |sent| && Conveys(cfg, first, fs, i, sent[Before(cfg, fs, i)])
  }

  ghost predicate AudioInPlace(cfg: Config, fs: seq<Frame>, sent: seq<Packet>, k: nat)
    requires k < |PlanOf(fs, cfg.packetFrames).windows|
  {
    var w := PlanOf(fs, cfg.packetFrames).windows[k];
    && w.end <= |fs| && k < |AudioOf(sent)|
    && k + Events(cfg, fs, w.end) < |sent|
    && sent[k + Events(cfg, fs, w.end)] == AudioOf(sent)[k]
  }

  // ---------------------------------------------------------------- one tick

  /** What tick `f` sends, `r` being the transmitter after it. */
  ghost predicate Sends(cfg: Config, t: Tx, f: Frame, r: Tx) {
    var opening := SendsEvent(cfg, f) && Opens(f);
    var full := Taken(t.current, f) && t.current + 1 == cfg.packetFrames;
    && r.base == (if opening then U32(t.timestamp + cfg.samplesPerFrame) else t.base)
    && exists events: seq<Packet>, audio: seq<Packet> ::
         && r.sent == t.sent + events + audio
         && (if SendsEvent(cfg, f) then |events| == 1 && Announces(f.event.value, r.base, events[0]) else events == [])
         && (if full then |audio| == 1 && audio[0].AudioPacket? else audio == [])
  }

  predicate Announces(e: NamedEvent, base: uint32, p: Packet) {
    && p.EventPacket? && p.id == e.id && p.duration == e.duration && p.timestamp == base
    && (p.marker <==> e.marker == StartOfEvent) && (p.edge <==> e.marker == EndOfEvent)
  }

  lemma EventSends(cfg: Config, t: Tx, f: Frame) returns (events: seq<Packet>)
    ensures var r := EventPart(cfg, t, f);
            && r.sent == t.sent + events && r.current == t.current && r.inactivity == t.inactivity
            && r.timestamp == t.timestamp
            && r.base == (if SendsEvent(cfg, f) && Opens(f) then t.timestamp else t.base)
            && if SendsEvent(cfg, f) then |events| == 1 && Announces(f.event.value, r.base, events[0]) else events == []
  {
    hide U16;
    var r := EventPart(cfg, t, f);
    events := if SendsEvent(cfg, f) then [r.sent[|r.sent| - 1]] else [];
  }

  lemma DataSends(cfg: Config, t: Tx, data: seq<uint8>) returns (audio: seq<Packet>)
    ensures var r := DataSend(cfg, t, data);
            && r.sent == t.sent + audio && r.base == t.base
            && if t.current + 1 == cfg.packetFrames then |audio| == 1 && audio[0].AudioPacket? else audio == []
  {
    hide U16;
    var r := DataSend(cfg, t, data);
    audio := if t.current + 1 == cfg.packetFrames then [r.sent[|r.sent| - 1]] else [];
  }

  lemma TransmitSends(cfg: Config, t: Tx, f: Frame)
    requires t.current > 0 ==> !t.inactivity
    ensures Sends(cfg, t, f, Transmit(cfg, t, f))
  {
    hide EventPart, DataSend, U32, Announces;
    var t1 := t.(timestamp := U32(t.timestamp + cfg.samplesPerFrame));
    var r := Transmit(cfg, t, f);
    if Silent(f) {
      var audio := DataSends(cfg, t1, f.data);
      if t.current == 0 { audio := []; }
      assert r.sent == t.sent + [] + audio;
    } else {
      var events := EventSends(cfg, t1, f);
      var t2 := EventPart(cfg, t1, f);
      if f.audio {
        var t3 := if t2.current == 0
                  then t2.(marker := t2.inactivity, headerTs := t2.timestamp, payload := [], inactivity := false)
                  else t2;
        var audio := DataSends(cfg, t3, f.data);
        assert r.sent == t.sent + events + audio;
      } else {
        assert r.sent == t.sent + events + [];
      }
    }
  }

  // ---------------------------------------------------------------- whole runs

  lemma {:induction false} EventsPrefix(cfg: Config, before: seq<Frame>, fs: seq<Frame>, n: nat)
    requires before <= fs && n <= |before|
    ensures Events(cfg, before, n) == Events(cfg, fs, n) && LastOpening(before, n) == LastOpening(fs, n)
  {
    if n > 0 { EventsPrefix(cfg, before, fs, n - 1); }
  }

  lemma BaseNext(cfg: Config, first: uint32, fs: seq<Frame>)
    requires fs != []
    ensures var n := |fs| - 1;
            BaseClock(cfg, first, fs, n + 1)
              == if Opens(fs[n]) then U32(Clock(first, cfg.samplesPerFrame, n) + cfg.samplesPerFrame)
                 else BaseClock(cfg, first, fs[..n], n)
  {
    EventsPrefix(cfg, fs[..|fs| - 1], fs, |fs| - 1);
    ClockNext(first, cfg.samplesPerFrame, |fs| - 1);
    hide U32, Clock;
  }

  lemma {:induction false} BaseFollows(cfg: Config, first: uint32, lastSeq: uint16, fs: seq<Frame>)
    requires cfg.packetFrames > 0 && cfg.events
    ensures Run(cfg, Open(first, lastSeq), fs).base == BaseClock(cfg, first, fs, |fs|)
  {
    hide Transmit, PlanOf, BaseClock, Clock, U32, AudioOf, Opens;
    if fs == [] {
      NoBase(cfg, first);
    } else {
      var before := fs[..|fs| - 1];
      BaseFollows(cfg, first, lastSeq, before);
      Standing(cfg, first, lastSeq, before);
      TransmitBase(cfg, Run(cfg, Open(first, lastSeq), before), fs[|fs| - 1]);
      BaseNext(cfg, first, fs);
    }
  }

  lemma TransmitBase(cfg: Config, t: Tx, f: Frame)
    requires (t.current > 0 ==> !t.inactivity) && cfg.events
    ensures Transmit(cfg, t, f).base == if Opens(f) then U32(t.timestamp + cfg.samplesPerFrame) else t.base
  {
    hide Transmit, U32, Announces;
    TransmitSends(cfg, t, f);
  }

  lemma NoBase(cfg: Config, first: uint32)
    ensures BaseClock(cfg, first, [], 0) == 0
  {
  }

  /** Clock and packet of a transmitter, wherever a run has taken it. */
  lemma Standing(cfg: Config, first: uint32, lastSeq: uint16, fs: seq<Frame>)
    requires cfg.packetFrames > 0
    ensures var t := Run(cfg, Open(first, lastSeq), fs);
            && t.timestamp == Clock(first, cfg.samplesPerFrame, |fs|)
            && t.current == PlanOf(fs, cfg.packetFrames).count && (t.current > 0 ==> !t.inactivity)
            && |AudioOf(t.sent)| == |PlanOf(fs, cfg.packetFrames).windows|
  {
    hide Run, PlanOf, WellPlanned, Clock, AudioOf, Carries, GoodWindow;
    PacketsAsPlanned(cfg, first, lastSeq, fs);
  }

  /** One more tick keeps what was sent before in place. */
  lemma EventStays(cfg: Config, first: uint32, before: seq<Frame>, fs: seq<Frame>, sent: seq<Packet>,
                   now: seq<Packet>, i: nat)
    requires before <= fs && sent <= now && i < |before| && SendsEvent(cfg, fs[i])
    requires EventInPlace(cfg, first, before, sent, i)
    ensures EventInPlace(cfg, first, fs, now, i)
  {
    hide PlanOf, Events, LastOpening, Clock;
    EventsPrefix(cfg, before, fs, i);
    EventsPrefix(cfg, before, fs, i + 1);
    assert before[..i] == fs[..i];
  }

  lemma AudioStays(cfg: Config, before: seq<Frame>, fs: seq<Frame>, sent: seq<Packet>, now: seq<Packet>, k: nat)
    requires before <= fs && sent <= now && AudioOf(sent) <= AudioOf(now)
    requires PlanOf(before, cfg.packetFrames).windows <= PlanOf(fs, cfg.packetFrames).windows
    requires k < |PlanOf(before, cfg.packetFrames).windows| && AudioInPlace(cfg, before, sent, k)
    ensures AudioInPlace(cfg, fs, now, k)
  {
    hide PlanOf, Events, AudioOf;
    EventsPrefix(cfg, before, fs, PlanOf(before, cfg.packetFrames).windows[k].end);
  }

  lemma AudioOfTick(sent: seq<Packet>, events: seq<Packet>, audio: seq<Packet>)
    requires |events| <= 1 && |audio| <= 1
    requires (events != [] ==> events[0].EventPacket?) && (audio != [] ==> audio[0].AudioPacket?)
    ensures AudioOf(sent + events + audio) == AudioOf(sent) + audio
  {
    hide AudioOf;
    if events == [] {
      assert sent + events == sent;
    } else {
      AudioNext(sent, events[0]);
      assert events == [events[0]];
    }
    if audio == [] {
      assert sent + events + audio == sent + events && AudioOf(sent) + audio == AudioOf(sent);
    } else {
      AudioNext(sent + events, audio[0]);
      assert audio == [audio[0]];
    }
  }

  /** Over every run, from the frames alone: one packet for each event frame if events were negotiated and
      none otherwise, what it says, and its place among all packets; and the places of the audio packets. */
  lemma {:induction false} EventsConveyed(cfg: Config, first: uint32, lastSeq: uint16, fs: seq<Frame>)
    requires cfg.packetFrames > 0
    ensures InOrder(cfg, first, fs, Run(cfg, Open(first, lastSeq), fs).sent)
  {
    hide Transmit, AudioOf, InOrder, AudioInPlace, Conveys;
    if fs == [] {
      NothingSent(cfg, first);
    } else {
      var before, f := fs[..|fs| - 1], fs[|fs| - 1];
      var t, r := Run(cfg, Open(first, lastSeq), before), Run(cfg, Open(first, lastSeq), fs);
      EventsConveyed(cfg, first, lastSeq, before);
      Standing(cfg, first, lastSeq, before);
      TransmitSends(cfg, t, f);
      if cfg.events { BaseFollows(cfg, first, lastSeq, fs); }
      TickInOrder(cfg, first, fs, t, r);
    }
  }

  lemma NothingSent(cfg: Config, first: uint32)
    ensures InOrder(cfg, first, [], [])
  {
  }

  lemma TickInOrder(cfg: Config, first: uint32, fs: seq<Frame>, t: Tx, r: Tx)
    requires cfg.packetFrames > 0 && fs != [] && InOrder(cfg, first, fs[..|fs| - 1], t.sent)
    requires t.current == PlanOf(fs[..|fs| - 1], cfg.packetFrames).count && Sends(cfg, t, fs[|fs| - 1], r)
    requires |AudioOf(t.sent)| == |PlanOf(fs[..|fs| - 1], cfg.packetFrames).windows|
    requires cfg.events ==> r.base == BaseClock(cfg, first, fs, |fs|)
    ensures InOrder(cfg, first, fs, r.sent)
  {
    hide AudioOf, LastOpening, Clock, U32, BaseClock, Conveys, AudioInPlace, EventInPlace, Opens, Announces, PlanOf,
      Taken, InOrder, Events;
    var f := fs[|fs| - 1];
    var events: seq<Packet>, audio: seq<Packet> :|
      && r.sent == t.sent + events + audio
      && (if SendsEvent(cfg, f) then |events| == 1 && Announces(f.event.value, r.base, events[0]) else events == [])
      && (if Taken(t.current, f) && t.current + 1 == cfg.packetFrames then |audio| == 1 && audio[0].AudioPacket?
          else audio == []);
    PacketsInOrder(cfg, first, fs, t.sent, events, audio, r.sent, r.base);
  }

  lemma PacketsInOrder(cfg: Config, first: uint32, fs: seq<Frame>, sent: seq<Packet>, events: seq<Packet>,
                       audio: seq<Packet>, now: seq<Packet>, base: uint32)
    requires fs != [] && InOrder(cfg, first, fs[..|fs| - 1], sent) && now == sent + events + audio
    requires var p := PlanOf(fs[..|fs| - 1], cfg.packetFrames);
             && |AudioOf(sent)| == |p.windows|
             && if Taken(p.count, fs[|fs| - 1]) && p.count + 1 == cfg.packetFrames
                then |audio| == 1 && audio[0].AudioPacket? else audio == []
    requires if SendsEvent(cfg, fs[|fs| - 1])
             then |events| == 1 && Announces(fs[|fs| - 1].event.value, base, events[0]) else events == []
    requires cfg.events ==> base == BaseClock(cfg, first, fs, |fs|)
    ensures InOrder(cfg, first, fs, now)
  {
    hide AudioOf, BaseClock, Conveys, AudioInPlace, EventInPlace, PlanOf, Taken, Events, Announces;
    var before, n := fs[..|fs| - 1], |fs| - 1;
    BeforeTick(cfg, fs);
    if events != [] { EventAnnounced(fs[n].event.value, base, events[0]); }
    AudioOfTick(sent, events, audio);
    NewWindow(cfg, fs, sent, events, audio, now);
    forall i | 0 <= i < |fs| && SendsEvent(cfg, fs[i]) ensures EventInPlace(cfg, first, fs, now, i) {
      if i < n {
        assert EventInPlace(cfg, first, before, sent, i);
        EventStays(cfg, first, before, fs, sent, now, i);
      } else {
        ConveysLast(cfg, first, fs, events[0], base);
        LastInPlace(cfg, first, fs, sent, events[0], now);
      }
    }
    forall k | 0 <= k < |PlanOf(before, cfg.packetFrames).windows| ensures AudioInPlace(cfg, fs, now, k) {
      assert AudioInPlace(cfg, before, sent, k);
      AudioStays(cfg, before, fs, sent, now, k);
    }
  }

  /** How many packets are sent before the last tick, and up to it. */
  lemma BeforeTick(cfg: Config, fs: seq<Frame>)
    requires fs != []
    ensures var n := |fs| - 1;
            && Before(cfg, fs, n) == Before(cfg, fs[..n], n)
            && Events(cfg, fs, n) == Events(cfg, fs[..n], n)
            && Before(cfg, fs[..n], n) == Events(cfg, fs[..n], n) + |PlanOf(fs[..n], cfg.packetFrames).windows|
            && Before(cfg, fs, |fs|) == Events(cfg, fs, n) + (if SendsEvent(cfg, fs[n]) then 1 else 0)
                                        + |PlanOf(fs, cfg.packetFrames).windows|
  {
    hide PlanOf;
    var n := |fs| - 1;
    EventsPrefix(cfg, fs[..n], fs, n);
    assert fs[..n][..n] == fs[..n] && fs[..|fs|] == fs;
  }

  lemma EventAnnounced(e: NamedEvent, base: uint32, p: Packet)
    requires Announces(e, base, p)
    ensures p.EventPacket?
  {
  }

  lemma LastInPlace(cfg: Config, first: uint32, fs: seq<Frame>, sent: seq<Packet>, p: Packet, now: seq<Packet>)
    requires fs != [] && SendsEvent(cfg, fs[|fs| - 1]) && |sent| == Before(cfg, fs, |fs| - 1) && sent + [p] <= now
    requires Conveys(cfg, first, fs, |fs| - 1, p)
    ensures EventInPlace(cfg, first, fs, now, |fs| - 1)
  {
    hide Conveys, Before;
    assert now[|sent|] == (sent + [p])[|sent|];
  }

  lemma ConveysLast(cfg: Config, first: uint32, fs: seq<Frame>, p: Packet, base: uint32)
    requires fs != [] && SendsEvent(cfg, fs[|fs| - 1]) && Announces(fs[|fs| - 1].event.value, base, p)
    requires base == BaseClock(cfg, first, fs, |fs|)
    ensures Conveys(cfg, first, fs, |fs| - 1, p)
  {
    hide BaseClock;
  }

  /** The audio packet that a tick completes comes last. */
  lemma NewWindow(cfg: Config, fs: seq<Frame>, sent: seq<Packet>, events: seq<Packet>, audio: seq<Packet>,
                  now: seq<Packet>)
    requires fs != [] && now == sent + events + audio
    requires var before := PlanOf(fs[..|fs| - 1], cfg.packetFrames);
             && |sent| == Events(cfg, fs, |fs| - 1) + |before.windows| && |AudioOf(sent)| == |before.windows|
             && |audio| == if Taken(before.count, fs[|fs| - 1]) && before.count + 1 == cfg.packetFrames then 1 else 0
    requires |events| == if SendsEvent(cfg, fs[|fs| - 1]) then 1 else 0
    requires AudioOf(now) == AudioOf(sent) + audio
    ensures var p, q := PlanOf(fs[..|fs| - 1], cfg.packetFrames), PlanOf(fs, cfg.packetFrames);
            && p.windows <= q.windows && |q.windows| == |p.windows| + |audio|
            && (audio != [] ==> AudioInPlace(cfg, fs, now, |p.windows|))
  {
    hide AudioOf;
    PlanNext(fs, cfg.packetFrames);
  }
}
