/** The RTP receiver's bookkeeping of packets: synchronization sources on probation, extended
    sequence numbers, and the intervals between reports (appendices A.1 and A.3 of RFC 3550). */
module RtpReceiver {
  import opened Machine
  import opened Arith

  const MAX_DROPOUT := 3000
  const MAX_MISORDER := 100
  const PROBATION := 5

  datatype State = State(
    ssrc: uint32, ssrcNew: uint32, probation: uint8,
    cycles: uint32, base: uint16, max: uint16,
    received: uint32, invalid: uint32, restarts: uint8,
    expectedPrior: uint32, receivedPrior: uint32, fraction: uint8, lost: uint32)

  const INITIAL := State(0, 0, 0, 0, 0, 0, 0, 0, 0, 0, 0, 0, 0)

  datatype SsrcResult = Update | Probation | Restart

  datatype SeqResult = InOrder | Misorder | Drift

  // ---------------------------------------------------------------- the steps

  function StatInit(r: State, ssrc: uint32, seqNum: uint16): State { r.(ssrc := ssrc, base := seqNum, max := seqNum) }

  /** Statistics and history start over; reports already made stay. */
  function Restarted(r: State): State {
    State(r.ssrc, 0, 0, 0, 0, 0, 0, 0, if r.restarts == 255 then 0 else r.restarts + 1, 0, 0, r.fraction, r.lost)
  }

  function SsrcUpdate(r: State, ssrc: uint32): (State, SsrcResult) {
    if r.ssrc == ssrc then (if r.probation != 0 then r.(probation := 0, ssrcNew := 0) else r, Update)
    else if r.ssrcNew == ssrc then
      var left: uint8 := if r.probation == 0 then 255 else r.probation - 1;
      if left == 0 then (r.(probation := 0, ssrc := ssrc), Restart) else (r.(probation := left), Probation)
    else (r.(ssrcNew := ssrc, probation := PROBATION), Probation)
  }

  function SeqUpdate(r: State, seqNum: uint16): State {
    (if U16(seqNum - r.max) < MAX_DROPOUT
     then r.(cycles := if seqNum < r.max then U32(r.cycles + 0x1_0000) else r.cycles, max := seqNum)
     else r).(received := U32(r.received + 1))
  }

  function SeqOutcome(r: State, seqNum: uint16): SeqResult {
    var delta := U16(seqNum - r.max);
    if delta < MAX_DROPOUT then InOrder else if delta <= 0x1_0000 - MAX_MISORDER then Drift else Misorder
  }

  /** A packet; `fails` says that its timestamp drifted or too many packets were discarded. */
  function Receive(r: State, ssrc: uint32, seqNum: uint16, fails: bool): (State, bool) {
    var r0 := if r.received == 0 then StatInit(r, ssrc, seqNum) else r;
    var (r1, result) := SsrcUpdate(r0, ssrc);
    if result == Probation then (r1.(invalid := U32(r1.invalid + 1)), false)
    else
      var r2 := if result == Restart then StatInit(Restarted(r1), ssrc, seqNum) else r1;
      var r3 := SeqUpdate(r2, seqNum);
      (if fails then Restarted(r3) else r3, !fails)
  }

  function Expected(r: State): uint32 { if r.received != 0 then U32(r.cycles + r.max - r.base + 1) else 0 }

  function Lost(expected: uint32, received: uint32): uint32 { if expected > received then expected - received else 0 }

  /** The eight-bit loss fraction. */
  function Fraction(expected: uint32, lost: uint32): uint8 {
    if expected == 0 || lost == 0 then 0 else U32(lost * 256) / expected % 256
  }

  function ExpectedInterval(r: State): uint32 { U32(Expected(r) - r.expectedPrior) }

  function ReceivedInterval(r: State): uint32 { U32(r.received - r.receivedPrior) }

  function Report(r: State): State {
    var lost := Lost(ExpectedInterval(r), ReceivedInterval(r));
    r.(expectedPrior := Expected(r), receivedPrior := r.received, fraction := Fraction(ExpectedInterval(r), lost),
       lost := Lost(Expected(r), r.received))
  }

  // ---------------------------------------------------------------- the loss fraction

  lemma ScaledQuotient(lost: nat, expected: nat)
    requires 0 < expected
    ensures lost < expected ==> lost * 256 / expected < 256
    ensures lost == expected ==> lost * 256 / expected == 256
  {
    if lost < expected {
      if lost * 256 / expected >= 256 {
        MulStep(255, lost * 256 / expected, expected);
      }
    } else if lost == expected {
      DivModUnique(lost * 256, expected, 256, 0);
    }
  }

  /** What the shift to the left cuts off is more than is expected in an interval. */
  lemma ShiftOverflows(lost: uint32, expected: uint32)
    requires 0 < lost < expected && lost >= 0x100_0000
    ensures U32(lost * 256) / expected < lost * 256 / expected
  {
    var low := U32(lost * 256);
    assert low + expected <= lost * 256;
    ModShift(low, expected, 1);
    DivMonotone(low + expected, lost * 256, expected);
  }

  /** Short of a complete loss the fraction is what is left of the shifted loss, divided. */
  lemma PartialLoss(expected: uint32, lost: uint32)
    requires 0 < lost < expected
    ensures Fraction(expected, lost) == U32(lost * 256) / expected
    ensures U32(lost * 256) / expected == lost * 256 / expected <==> lost < 0x100_0000
  {
    var low, all := U32(lost * 256), lost * 256;
    ScaledQuotient(lost, expected);
    DivMonotone(low, all, expected);
    QuotientBound(low, expected);
    if lost >= 0x100_0000 { ShiftOverflows(lost, expected); }
    IsByte(low / expected);
    hide U32;
  }

  lemma IsByte(q: nat)
    requires q < 256
    ensures q % 256 == q
  {
  }

  /** The eight bits reported are the 256th parts lost if and only if fewer than 2 to the 24 packets were
      lost, so that the shift by eight bits stays within 32, and a packet arrived at all. */
  lemma FractionExact(expected: uint32, received: uint32)
    requires expected > 0
    ensures var lost := Lost(expected, received);
            Fraction(expected, lost) == lost * 256 / expected <==> lost < 0x100_0000 && received > 0
  {
    var lost := Lost(expected, received);
    if lost == 0 {
      DivModUnique(0, expected, 0, 0);
    } else if received == 0 {
      ScaledQuotient(lost, expected);
    } else {
      PartialLoss(expected, lost);
    }
    hide Fraction;
  }

  // ---------------------------------------------------------------- extended sequence numbers

  /** The low sixteen bits of a true number, as packets carry them. */
  function Low(x: nat): uint16 { x % 0x1_0000 }

  function Cycles(first: nat, high: nat): uint32 { U32((high / 0x1_0000 - first / 0x1_0000) * 0x1_0000) }

  /** The history stands at true number `high`, having begun at `first`. */
  predicate Tracks(r: State, first: nat, high: nat) {
    first <= high && r.base == Low(first) && r.max == Low(high) && r.cycles == Cycles(first, high)
  }

  function Max(a: nat, b: nat): nat { if a < b then b else a }

  /** Where the next true number may lie, relative to the highest so far. */
  predicate InReach(high: nat, x: nat) {
    if x > high then (x - high) % 0x1_0000_0000 < MAX_DROPOUT
    else var delta := (x - high) % 0x1_0000; delta == 0 || delta >= MAX_DROPOUT
  }

  lemma NearIsInReach(high: nat, x: nat)
    requires high - 62536 <= x <= high + 2999
    ensures InReach(high, x)
  {
  }

  lemma WrapAgain(x: int, q: int)
    ensures U32(x - q * 0x1_0000_0000) == U32(x)
  {
  }

  lemma TracksExpected(r: State, first: nat, high: nat)
    requires Tracks(r, first, high) && r.received != 0
    ensures Expected(r) == U32(high - first + 1)
  {
    var pages := high / 0x1_0000 - first / 0x1_0000;
    PageMod(pages);
    WrapAgain(high - first + 1, pages / 0x1_0000);
    assert pages * 0x1_0000 + Low(high) - Low(first) == high - first;
    hide U32, Low;
  }

  /** The 16-bit distance to the highest number, by how the true numbers lie. */
  lemma DeltaMeans(high: nat, x: nat)
    ensures U16(Low(x) - Low(high)) == (x - high) % 0x1_0000
    ensures Low(x) == Low(high) <==> (x - high) % 0x1_0000 == 0
  {
  }

  lemma PageMod(a: nat)
    ensures U32(a * 0x1_0000) == a % 0x1_0000 * 0x1_0000
  {
  }

  lemma PageShift(a: nat, k: nat, wrapped: nat)
    requires wrapped <= 1
    ensures (a + k + wrapped) % 0x1_0000 == (a % 0x1_0000 + wrapped) % 0x1_0000 <==> k % 0x1_0000 == 0
  {
  }

  lemma LowWord(low: nat, q: nat)
    requires low < 0x1_0000_0000
    ensures (q * 0x1_0000_0000 + low) % 0x1_0000_0000 == low
  {
    DivModUnique(q * 0x1_0000_0000 + low, 0x1_0000_0000, q, low);
  }

  lemma PageDistance(k: nat, delta: nat)
    requires delta < MAX_DROPOUT
    ensures (k * 0x1_0000 + delta) % 0x1_0000_0000 < MAX_DROPOUT <==> k % 0x1_0000 == 0
  {
    var low := k % 0x1_0000 * 0x1_0000 + delta;
    assert k * 0x1_0000 + delta == k / 0x1_0000 * 0x1_0000_0000 + low;
    LowWord(low, k / 0x1_0000);
  }

  lemma CyclesForward(first: nat, high: nat, x: nat)
    requires first <= high < x && (x - high) % 0x1_0000 < MAX_DROPOUT
    ensures Cycles(first, x)
              == (if Low(x) < Low(high) then U32(Cycles(first, high) + 0x1_0000) else Cycles(first, high))
            <==> (x - high) % 0x1_0000_0000 < MAX_DROPOUT
  {
    var k, delta := (x - high) / 0x1_0000, (x - high) % 0x1_0000;
    var wrapped := if x % 0x1_0000 < high % 0x1_0000 then 1 else 0;
    var a := high / 0x1_0000 - first / 0x1_0000;
    PageDecompose(high, x, k, delta);
    PageMod(a + k + wrapped);
    PageMod(a);
    PageMod(a % 0x1_0000 + wrapped);
    PageShift(a, k, wrapped);
    PageDistance(k, delta);
    hide U32;
  }

  lemma PageDecompose(high: nat, x: nat, k: nat, delta: nat)
    requires x - high == k * 0x1_0000 + delta && delta < MAX_DROPOUT
    ensures x / 0x1_0000 == high / 0x1_0000 + k + if x % 0x1_0000 < high % 0x1_0000 then 1 else 0
  {
  }

  lemma TracksAhead(r: State, first: nat, high: nat, x: nat)
    requires Tracks(r, first, high) && x > high
    ensures Tracks(SeqUpdate(r, Low(x)), first, x) <==> (x - high) % 0x1_0000_0000 < MAX_DROPOUT
  {
    hide U16, U32, Low, Cycles;
    DeltaMeans(high, x);
    NearMod(x - high);
    var near := (x - high) % 0x1_0000 < MAX_DROPOUT;
    if near { CyclesForward(first, high, x); }
  }

  lemma NearMod(d: nat)
    ensures d % 0x1_0000_0000 < MAX_DROPOUT ==> d % 0x1_0000 < MAX_DROPOUT
  {
    var q, low := d / 0x1_0000_0000, d % 0x1_0000_0000;
    if low < MAX_DROPOUT { DivModUnique(d, 0x1_0000, q * 0x1_0000, low); }
  }

  lemma TracksBehind(r: State, first: nat, high: nat, x: nat)
    requires Tracks(r, first, high) && x <= high
    ensures Tracks(SeqUpdate(r, Low(x)), first, high) <==>
              (x - high) % 0x1_0000 == 0 || (x - high) % 0x1_0000 >= MAX_DROPOUT
  {
    hide U16, U32, Low, Cycles;
    DeltaMeans(high, x);
  }

  /** Processing a packet keeps track of the highest true number if and only if the number is in
      reach: not more than 2999 ahead, nor just so far behind that it looks ahead. */
  lemma TracksIff(r: State, first: nat, high: nat, x: nat)
    requires Tracks(r, first, high)
    ensures Tracks(SeqUpdate(r, Low(x)), first, Max(high, x)) <==> InReach(high, x)
  {
    hide Tracks, SeqUpdate;
    if x > high { TracksAhead(r, first, high, x); } else { TracksBehind(r, first, high, x); }
  }

  // ---------------------------------------------------------------- between restarts

  /** What happens to a receiver of source `s`: its packets, by true number; packets of other sources
      that stay on probation; and reports. */
  datatype Event = Packet(x: nat) | Stranger(ssrc: uint32, seqNum: uint16) | Reported

  function Next(r: State, s: uint32, e: Event): State {
    match e
    case Packet(x) => Receive(r, s, Low(x), false).0
    case Stranger(ssrc, seqNum) => Receive(r, ssrc, seqNum, false).0
    case Reported => Report(r)
  }

  function Run(r: State, s: uint32, events: seq<Event>): State {
    if events == [] then r else Next(Run(r, s, events[..|events| - 1]), s, events[|events| - 1])
  }

  predicate OnProbation(r: State, e: Event) {
    e.Stranger? ==> r.received > 0 && e.ssrc != r.ssrc && SsrcUpdate(r, e.ssrc).1 == Probation
  }

  /** No other source takes over. */
  ghost predicate Steady(r: State, s: uint32, events: seq<Event>) {
    events == []
    || (&& Steady(r, s, events[..|events| - 1])
        && OnProbation(Run(r, s, events[..|events| - 1]), events[|events| - 1]))
  }

  function Numbers(events: seq<Event>): seq<nat> {
    if events == [] then []
    else
      var before, e := Numbers(events[..|events| - 1]), events[|events| - 1];
      if e.Packet? then before + [e.x] else before
  }

  function Highest(xs: seq<nat>): (h: nat)
    requires xs != []
    ensures xs[0] <= h
  {
    if |xs| == 1 then xs[0] else Max(Highest(xs[..|xs| - 1]), xs[|xs| - 1])
  }

  ghost predicate AllInReach(xs: seq<nat>) {
    forall i :: 0 < i < |xs| ==> InReach(Highest(xs[..i]), xs[i])
  }

  /** The intervals of all reports, summed. */
  function SumExpected(r: State, s: uint32, events: seq<Event>): nat {
    if events == [] then 0
    else
      var before := events[..|events| - 1];
      SumExpected(r, s, before) + if events[|events| - 1].Reported? then ExpectedInterval(Run(r, s, before)) else 0
  }

  function SumReceived(r: State, s: uint32, events: seq<Event>): nat {
    if events == [] then 0
    else
      var before := events[..|events| - 1];
      SumReceived(r, s, before) + if events[|events| - 1].Reported? then ReceivedInterval(Run(r, s, before)) else 0
  }

  predicate Fresh(r: State) { r.received == r.cycles == r.expectedPrior == r.receivedPrior == 0 }

  /** The bookkeeping after packets with true numbers `xs`: their count, and the highest among them. */
  ghost predicate Kept(r: State, s: uint32, xs: seq<nat>) {
    && r.received == |xs|
    && (xs == [] ==> r.cycles == 0)
    && (xs != [] ==> r.ssrc == s && Tracks(r, xs[0], Highest(xs)))
  }

  lemma PacketKeeps(r: State, s: uint32, xs: seq<nat>, x: nat)
    requires Kept(r, s, xs) && |xs| + 1 < 0x1_0000_0000 && (xs != [] ==> InReach(Highest(xs), x))
    ensures Kept(Receive(r, s, Low(x), false).0, s, xs + [x])
    ensures var n := Receive(r, s, Low(x), false).0;
              n.expectedPrior == r.expectedPrior && n.receivedPrior == r.receivedPrior
  {
    var ys := xs + [x];
    assert ys[..|xs|] == xs;
    if xs == [] {
      var r0 := StatInit(r, s, Low(x));
      assert Tracks(r0, x, x);
      TracksIff(SsrcUpdate(r0, s).0, x, x, x);
    } else {
      var r1 := SsrcUpdate(r, s).0;
      assert Tracks(r1, xs[0], Highest(xs));
      TracksIff(r1, xs[0], Highest(xs), x);
    }
    hide Tracks, InReach;
  }

  lemma StrangerKeeps(r: State, s: uint32, xs: seq<nat>, e: Event)
    requires Kept(r, s, xs) && e.Stranger? && OnProbation(r, e)
    ensures Kept(Next(r, s, e), s, xs)
    ensures Next(r, s, e).expectedPrior == r.expectedPrior && Next(r, s, e).receivedPrior == r.receivedPrior
  {
    hide Highest;
  }

  /** As long as no source takes over and every packet is in reach, the receiver counts its packets
      and its extended numbers stand at the true highest, across any number of wraps. */
  lemma {:induction false} RunTracks(r: State, s: uint32, events: seq<Event>)
    requires Fresh(r) && Steady(r, s, events) && AllInReach(Numbers(events)) && |Numbers(events)| < 0x1_0000_0000
    ensures Kept(Run(r, s, events), s, Numbers(events))
  {
    hide SsrcUpdate, Tracks, InReach, OnProbation, Receive, Report, Highest, Kept, AllInReach, Fresh, U16, U32;
    if events != [] {
      var before, e := events[..|events| - 1], events[|events| - 1];
      var xs := Numbers(before);
      ReachPrefix(xs, Numbers(events));
      RunTracks(r, s, before);
      match e {
        case Packet(x) => PacketKeeps(Run(r, s, before), s, xs, x);
        case Stranger(_, _) => StrangerKeeps(Run(r, s, before), s, xs, e);
        case Reported => ReportKeeps(Run(r, s, before), s, xs);
      }
    } else {
      FreshKept(r, s);
    }
  }

  /** Each number is at most 2999 above the highest before it, or 62536 below. */
  ghost predicate AllNear(xs: seq<nat>) {
    forall i :: 0 < i < |xs| ==> Highest(xs[..i]) - 62536 <= xs[i] <= Highest(xs[..i]) + 2999
  }

  /** So the receiver keeps count as long as numbers neither jump too far nor come too late. */
  lemma NearRunTracks(r: State, s: uint32, events: seq<Event>)
    requires Fresh(r) && Steady(r, s, events) && AllNear(Numbers(events)) && |Numbers(events)| < 0x1_0000_0000
    ensures Kept(Run(r, s, events), s, Numbers(events))
  {
    var xs := Numbers(events);
    forall i | 0 < i < |xs| ensures InReach(Highest(xs[..i]), xs[i]) { NearIsInReach(Highest(xs[..i]), xs[i]); }
    hide InReach, Kept, Steady;
    RunTracks(r, s, events);
  }

  lemma FreshKept(r: State, s: uint32)
    requires Fresh(r)
    ensures Kept(r, s, [])
  {
  }

  lemma ReportKeeps(r: State, s: uint32, xs: seq<nat>)
    requires Kept(r, s, xs)
    ensures Kept(Report(r), s, xs) && Report(r).expectedPrior == Expected(r) && Report(r).receivedPrior == r.received
  {
    hide Fraction, Lost, Highest, ExpectedInterval, ReceivedInterval, Expected;
  }

  lemma ReachPrefix(xs: seq<nat>, ys: seq<nat>)
    requires AllInReach(ys) && (ys == xs || (|ys| == |xs| + 1 && ys[..|xs|] == xs))
    ensures AllInReach(xs)
    ensures |ys| > |xs| > 0 ==> InReach(Highest(xs), ys[|xs|])
  {
    forall i | 0 < i < |xs| ensures InReach(Highest(xs[..i]), xs[i]) {
      assert ys[..i] == xs[..i] && ys[i] == xs[i];
    }
    if |ys| > |xs| > 0 { assert ys[..|xs|] == xs; }
  }

  /** Reports telescope: their received intervals add up to the packets counted by the last of them,
      their expected intervals to the numbers it expected, up to the width of the counter. */
  lemma {:induction false} ReportsTelescope(r: State, s: uint32, events: seq<Event>)
    requires Fresh(r) && Steady(r, s, events) && AllInReach(Numbers(events)) && |Numbers(events)| < 0x1_0000_0000
    ensures var n := Run(r, s, events);
            && SumReceived(r, s, events) == n.receivedPrior <= |Numbers(events)|
            && U32(SumExpected(r, s, events)) == n.expectedPrior
  {
    hide SsrcUpdate, Tracks, InReach, OnProbation, Receive, Report, Highest, AllInReach, Expected, U16;
    if events != [] {
      var before, e := events[..|events| - 1], events[|events| - 1];
      var t, xs := Run(r, s, before), Numbers(before);
      ReachPrefix(xs, Numbers(events));
      ReportsTelescope(r, s, before);
      RunTracks(r, s, before);
      match e {
        case Packet(x) => PacketKeeps(t, s, xs, x);
        case Stranger(_, _) => StrangerKeeps(t, s, xs, e);
        case Reported =>
          ReportKeeps(t, s, xs);
          IntervalAdds(SumExpected(r, s, before), t.expectedPrior, Expected(t));
      }
    }
  }

  lemma IntervalAdds(sum: nat, prior: uint32, expected: uint32)
    requires U32(sum) == prior
    ensures U32(sum + U32(expected - prior)) == expected
  {
  }

  /** What a report expects in total is the true span of the numbers seen. */
  lemma ExpectedIsSpan(r: State, s: uint32, events: seq<Event>)
    requires Fresh(r) && Steady(r, s, events) && AllInReach(Numbers(events)) && 0 < |Numbers(events)| < 0x1_0000_0000
    ensures var xs := Numbers(events);
            Expected(Run(r, s, events)) == U32(Highest(xs) - xs[0] + 1)
  {
    hide Run, Steady, AllInReach, Highest, Expected, Tracks, U32;
    RunTracks(r, s, events);
    var xs := Numbers(events);
    TracksExpected(Run(r, s, events), xs[0], Highest(xs));
  }

  // ---------------------------------------------------------------- the loss fraction over every run

  /** Whatever comes in: a packet of any source, by its true number, in time or not, or the time of a report. */
  datatype Input = Arrived(ssrc: uint32, x: nat, fails: bool) | Due

  function Serve(r: State, i: Input): State {
    match i
    case Arrived(ssrc, x, fails) => Receive(r, ssrc, Low(x), fails).0
    case Due => Report(r)
  }

  /** The receiver after a run, from its creation on. */
  function Served(inputs: seq<Input>): State {
    if inputs == [] then INITIAL else Serve(Served(inputs[..|inputs| - 1]), inputs[|inputs| - 1])
  }

  /** An interval without packets expects none, and the packets counted are at most `n`. */
  predicate Fair(r: State, n: nat) {
    r.receivedPrior <= r.received <= n && (r.received == r.receivedPrior ==> Expected(r) == r.expectedPrior)
  }

  lemma ServeKeepsFair(r: State, i: Input, n: nat)
    requires Fair(r, n) && n + 1 < 0x1_0000_0000
    ensures Fair(Serve(r, i), n + 1)
  {
    hide Fraction, Lost, U16;
  }

  lemma {:induction false} RunIsFair(inputs: seq<Input>)
    requires |inputs| < 0x1_0000_0000
    ensures Fair(Served(inputs), |inputs|)
  {
    hide Fair, Serve;
    if inputs == [] {
      InitialIsFair();
    } else {
      RunIsFair(inputs[..|inputs| - 1]);
      ServeKeepsFair(Served(inputs[..|inputs| - 1]), inputs[|inputs| - 1], |inputs| - 1);
    }
  }

  lemma InitialIsFair()
    ensures Fair(INITIAL, 0)
  {
  }

  /** Over every run, restarts and changes of the source included: a report that expected packets tells
      the 256th parts lost if and only if fewer than 2 to the 24 were lost; one that expected none tells
      zero, and no packets are expected in an interval in which none was received. */
  lemma ReportIsExactIff(inputs: seq<Input>)
    requires |inputs| < 0x1_0000_0000
    ensures var r := Served(inputs);
            var expected, received := ExpectedInterval(r), ReceivedInterval(r);
            var lost := Lost(expected, received);
            && (received == 0 ==> expected == 0)
            && (expected == 0 ==> Report(r).fraction == 0)
            && (expected > 0 ==> (Report(r).fraction == lost * 256 / expected <==> lost < 0x100_0000))
  {
    hide Served, Lost, Expected;
    RunIsFair(inputs);
    var r := Served(inputs);
    if ExpectedInterval(r) > 0 { FractionExact(ExpectedInterval(r), ReceivedInterval(r)); }
    hide Fraction;
  }

  // ---------------------------------------------------------------- a run that loses too many

  /** `n` packets, each as far ahead of the one before as a receiver follows. */
  function Sparse(n: nat): seq<Input> { seq(n, k requires 0 <= k < n => Arrived(1, 2999 * k, false)) }

  lemma {:induction false} SparseTracks(n: nat)
    requires 0 < n < 0x1_0000
    ensures var r := Served(Sparse(n));
            && r.received == n && r.ssrc == 1 && r.expectedPrior == r.receivedPrior == 0
            && Tracks(r, 0, 2999 * (n - 1))
  {
    hide Tracks, Low, U16, U32;
    var before := Sparse(n)[..n - 1];
    assert before == Sparse(n - 1);
    if n == 1 {
      SparseStarts(Sparse(1));
    } else {
      SparseTracks(n - 1);
      SparseStep(Served(before), n - 1);
    }
  }

  lemma SparseStarts(inputs: seq<Input>)
    requires |inputs| == 1 && inputs[0] == Arrived(1, 0, false)
    ensures var r := Served(inputs);
            r.received == 1 && r.ssrc == 1 && r.expectedPrior == r.receivedPrior == 0 && Tracks(r, 0, 0)
  {
    assert Served(inputs[..0]) == INITIAL;
  }

  lemma SparseStep(r: State, k: nat)
    requires 0 < k < 0xFFFF && r.received == k && r.ssrc == 1 && Tracks(r, 0, 2999 * (k - 1))
    ensures var n := Serve(r, Arrived(1, 2999 * k, false));
            && n.received == k + 1 && n.ssrc == 1 && Tracks(n, 0, 2999 * k)
            && n.expectedPrior == r.expectedPrior && n.receivedPrior == r.receivedPrior
  {
    hide Low;
    var r1 := SsrcUpdate(r, 1).0;
    assert Tracks(r1, 0, 2999 * (k - 1));
    TracksIff(r1, 0, 2999 * (k - 1), 2999 * k);
    hide Tracks, U16;
  }

  /** 5601 packets numbered 0, 2999, 5998, ...: of 16794401 expected 16788800 are lost, 255 in 256 parts,
      and the report tells zero. */
  lemma SparseReportsNone()
    ensures var r := Served(Sparse(5601));
            && ExpectedInterval(r) == 16794401 && ReceivedInterval(r) == 5601
            && Lost(16794401, 5601) * 256 / 16794401 == 255 && Report(r).fraction == 0
  {
    hide Served, Sparse, Tracks;
    SparseTracks(5601);
    TracksExpected(Served(Sparse(5601)), 0, 2999 * 5600);
  }

  // ---------------------------------------------------------------- another source

  /** How many packets in a row a source has still to send to take over. */
  function Attempts(r: State, s: uint32): nat {
    if r.ssrcNew != s then PROBATION + 1 else if r.probation == 0 then 256 else r.probation
  }

  /** `k` packets in a row from source `s`, while the receiver stays with its own. */
  function Insist(r: State, s: uint32, k: nat): State {
    if k == 0 then r else SsrcUpdate(Insist(r, s, k - 1), s).0
  }

  /** A source takes over with exactly the last of its attempts, and not before. */
  lemma {:induction false} TakesOver(r: State, s: uint32, k: nat)
    requires r.ssrc != s && 0 < k <= Attempts(r, s)
    ensures SsrcUpdate(Insist(r, s, k - 1), s).1 == if k == Attempts(r, s) then Restart else Probation
    ensures k < Attempts(r, s) ==>
              && Insist(r, s, k).ssrc == r.ssrc && Insist(r, s, k).ssrcNew == s
              && Insist(r, s, k).probation == Attempts(r, s) - k
    ensures k == Attempts(r, s) ==> Insist(r, s, k).ssrc == s
  {
    if k > 1 { TakesOver(r, s, k - 1); }
  }

  /** No source but 0 is on probation without a count. */
  predicate Counted(r: State) { r.ssrcNew != 0 ==> 1 <= r.probation <= PROBATION }

  /** So any source but 0 takes over with at most six packets in a row; source 0, if no other was on
      probation before it, only with its 256th. */
  lemma AttemptsBounded(r: State, s: uint32, e: Event, own: uint32)
    requires Counted(r)
    ensures Counted(Next(r, own, e))
    ensures s != 0 ==> Attempts(r, s) <= 6
    ensures r.ssrcNew == 0 && r.probation == 0 ==> Attempts(r, s) == if s == 0 then 256 else 6
  {
    hide Fraction, Lost, ExpectedInterval, ReceivedInterval, Expected, Low, U16, U32;
  }

  // ---------------------------------------------------------------- the receiver itself

  class Receiver {
    var ssrc: uint32
    var ssrcNew: uint32
    var probation: uint8
    var cycles: uint32
    var base: uint16
    var max: uint16
    var received: uint32
    var invalid: uint32
    var restarts: uint8
    var expectedPrior: uint32
    var receivedPrior: uint32
    var fraction: uint8
    var lost: uint32

    ghost function Value(): State
      reads this
    {
      State(ssrc, ssrcNew, probation, cycles, base, max, received, invalid, restarts, expectedPrior, receivedPrior,
            fraction, lost)
    }

    constructor ()
      ensures Value() == INITIAL
    {
      ssrc, ssrcNew, probation, cycles, base, max := 0, 0, 0, 0, 0, 0;
      received, invalid, restarts, expectedPrior, receivedPrior, fraction, lost := 0, 0, 0, 0, 0, 0, 0;
    }

    method RxStatInit(source: uint32, seqNum: uint16)
      modifies `ssrc, `base, `max
      ensures Value() == StatInit(old(Value()), source, seqNum)
    {
      ssrc := source;
      base, max := seqNum, seqNum;
    }

    method HistoryReset()
      modifies `ssrcNew, `probation, `cycles, `base, `max
      ensures Value() == old(Value()).(ssrcNew := 0, probation := 0, cycles := 0, base := 0, max := 0)
    {
      cycles, base, max := 0, 0, 0;
      ssrcNew, probation := 0, 0;
    }

    method OverallStatReset()
      modifies `ssrcNew, `probation, `cycles, `base, `max, `received, `invalid, `restarts, `expectedPrior,
        `receivedPrior
      ensures Value() == Restarted(old(Value())).(restarts := 0)
    {
      received, invalid, restarts := 0, 0, 0;
      HistoryReset();
      expectedPrior, receivedPrior := 0, 0;
    }

    method RxRestart()
      modifies `ssrcNew, `probation, `cycles, `base, `max, `received, `invalid, `restarts, `expectedPrior,
        `receivedPrior
      ensures Value() == Restarted(old(Value()))
    {
      var count: uint8 := if restarts == 255 then 0 else restarts + 1;
      OverallStatReset();
      restarts := count;
    }

    method RxSsrcUpdate(source: uint32) returns (result: SsrcResult)
      modifies `ssrc, `ssrcNew, `probation
      ensures (Value(), result) == SsrcUpdate(old(Value()), source)
    {
      if ssrc == source {
        if probation != 0 {
          probation, ssrcNew := 0, 0;
        }
      } else if ssrcNew == source {
        probation := if probation == 0 then 255 else probation - 1;
        if probation == 0 {
          ssrc := source;
          return Restart;
        }
        return Probation;
      } else {
        ssrcNew, probation := source, PROBATION;
        return Probation;
      }
      result := Update;
    }

    method RxSeqUpdate(seqNum: uint16) returns (result: SeqResult)
      modifies `cycles, `max, `received
      ensures Value() == SeqUpdate(old(Value()), seqNum) && result == SeqOutcome(old(Value()), seqNum)
    {
      result := InOrder;
      var delta := U16(seqNum - max);
      if delta < MAX_DROPOUT {
        if seqNum < max { cycles := U32(cycles + 0x1_0000); }
        max := seqNum;
      } else if delta <= 0x1_0000 - MAX_MISORDER {
        result := Drift;
      } else {
        result := Misorder;
      }
      received := U32(received + 1);
    }

    method PacketReceive(source: uint32, seqNum: uint16, fails: bool) returns (ok: bool)
      modifies this
      ensures (Value(), ok) == Receive(old(Value()), source, seqNum, fails)
    {
      hide SsrcUpdate, SeqUpdate, SeqOutcome, U16, U32;
      if received == 0 { RxStatInit(source, seqNum); }
      var ssrcResult := RxSsrcUpdate(source);
      if ssrcResult == Probation {
        invalid := U32(invalid + 1);
        return false;
      } else if ssrcResult == Restart {
        RxRestart();
        RxStatInit(source, seqNum);
      }
      var _ := RxSeqUpdate(seqNum);
      if fails {
        RxRestart();
        return false;
      }
      ok := true;
    }

    method PeriodicHistoryUpdate()
      modifies `expectedPrior, `receivedPrior, `fraction, `lost
      ensures Value() == Report(old(Value()))
    {
      hide U32, Fraction;
      var expected: uint32 := 0;
      if received != 0 { expected := U32(cycles + max - base + 1); }
      var expectedInterval := U32(expected - expectedPrior);
      expectedPrior := expected;
      var receivedInterval := U32(received - receivedPrior);
      receivedPrior := received;
      var lostInterval: uint32 := 0;
      if expectedInterval > receivedInterval { lostInterval := expectedInterval - receivedInterval; }
      fraction := Fraction(expectedInterval, lostInterval);
      lost := 0;
      if expected > received { lost := expected - received; }
    }
  }
}
