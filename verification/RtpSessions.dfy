/** Restarts of the RTP receiver: a packet out of time, or another source that takes over, begins a new
    session, whose reports tell of its own packets alone. */
module RtpSessions {
  import opened Options
  import opened Machine
  import opened RtpReceiver

  /** A session: its source, the true numbers of the packets counted, how many of them the last report
      covered, and the packets ignored; the rival source that sent the last `row` packets, if another one
      did, and how many it needs; and the number of sessions before. */
  datatype Session = Session(source: uint32, numbers: seq<nat>, reported: nat, ignored: nat,
                             rival: Option<uint32>, row: nat, needed: nat, restarts: nat)

  const FIRST := Session(0, [], 0, 0, None, 0, 0, 0)

  /** How many packets in a row a source needs that begins to rival. */
  function Needed(ssrc: uint32, rival: Option<uint32>): nat {
    if ssrc == 0 && rival.None? then 256 else PROBATION + 1
  }

  /** The packet is one of the session, which an idle receiver begins with any source. */
  predicate Own(se: Session, ssrc: uint32) { se.numbers == [] || ssrc == se.source }

  /** The packet is the last that its source needs in a row to take over. */
  predicate Overtakes(se: Session, ssrc: uint32) {
    !Own(se, ssrc) && if se.rival == Some(ssrc) then se.row + 1 == se.needed else Needed(ssrc, se.rival) == 1
  }

  function Follow(se: Session, i: Input): (n: Session)
    ensures se.reported <= |se.numbers| ==> n.reported <= |n.numbers|
  {
    match i
    case Due => se.(reported := |se.numbers|)
    case Arrived(ssrc, x, fails) =>
      if Own(se, ssrc) then
        if fails then Session(ssrc, [], 0, 0, None, 0, 0, se.restarts + 1)
        else se.(source := ssrc, numbers := se.numbers + [x], rival := None, row := 0, needed := 0)
      else if Overtakes(se, ssrc) then
        if fails then Session(ssrc, [], 0, 0, None, 0, 0, se.restarts + 2)
        else Session(ssrc, [x], 0, 0, None, 0, 0, se.restarts + 1)
      else if se.rival == Some(ssrc) then se.(row := se.row + 1, ignored := se.ignored + 1)
      else se.(rival := Some(ssrc), row := 1, needed := Needed(ssrc, se.rival), ignored := se.ignored + 1)
  }

  /** The session that a run is in, from the inputs alone. */
  function Sessions(inputs: seq<Input>): (se: Session)
    ensures se.reported <= |se.numbers|
  {
    if inputs == [] then FIRST else Follow(Sessions(inputs[..|inputs| - 1]), inputs[|inputs| - 1])
  }

  /** No packet of a session jumps too far, or comes too late. */
  predicate Near(se: Session, i: Input) {
    i.Arrived? && !i.fails && se.numbers != [] && i.ssrc == se.source ==> InReach(Highest(se.numbers), i.x)
  }

  ghost predicate AllNear(inputs: seq<Input>) {
    inputs == [] || (AllNear(inputs[..|inputs| - 1]) && Near(Sessions(inputs[..|inputs| - 1]), inputs[|inputs| - 1]))
  }

  /** How many numbers a sequence of packets spans. */
  function Span(xs: seq<nat>): nat { if xs == [] then 0 else Highest(xs) - xs[0] + 1 }

  function Missing(expected: nat, received: nat): nat { if expected > received then expected - received else 0 }

  // ---------------------------------------------------------------- the receiver follows the session

  predicate Rivalled(r: State, se: Session) {
    match se.rival
    case None => r.ssrcNew == 0 && r.probation == 0
    case Some(s) =>
      && se.numbers != [] && s != se.source && 0 < se.row < se.needed <= 256
      && r.ssrcNew == s && r.probation == se.needed - se.row
  }

  predicate Reported(r: State, se: Session) {
    && se.reported <= |se.numbers| && r.receivedPrior == se.reported
    && r.expectedPrior == U32(Span(se.numbers[..se.reported]))
  }

  /** The receiver stands where the session says. */
  ghost predicate Stands(r: State, se: Session) {
    && Kept(r, se.source, se.numbers) && Rivalled(r, se) && Reported(r, se)
    && r.invalid == U32(se.ignored) && r.restarts == se.restarts % 256
  }

  lemma FirstStands()
    ensures Stands(INITIAL, FIRST)
  {
  }

  lemma NextWrap(n: nat)
    ensures U32(U32(n) + 1) == U32(n + 1)
    ensures (if n % 256 == 255 then 0 else n % 256 + 1) == (n + 1) % 256
  {
  }

  /** A receiver that has just been restarted. */
  lemma RestartedStands(r: State, se: Session, ssrc: uint32)
    requires r.restarts == se.restarts % 256
    ensures Stands(Restarted(r), Session(ssrc, [], 0, 0, None, 0, 0, se.restarts + 1))
  {
    NextWrap(se.restarts);
    hide U32;
    assert U32(0) == 0 by { InWord(0); }
  }

  lemma InWord(n: nat)
    ensures n < 0x1_0000_0000 ==> U32(n) == n
  {
  }

  /** A packet of the session is counted. */
  lemma OwnStands(r: State, se: Session, ssrc: uint32, x: nat)
    requires Stands(r, se) && Own(se, ssrc) && Near(se, Arrived(ssrc, x, false)) && |se.numbers| + 1 < 0x1_0000_0000
    ensures Receive(r, ssrc, Low(x), false).1
    ensures Stands(Receive(r, ssrc, Low(x), false).0, Follow(se, Arrived(ssrc, x, false)))
  {
    hide SeqUpdate, Tracks, InReach, Highest, U32, Span, Low;
    if se.numbers == [] { FreshKeeps(r, se.source, ssrc); }
    PacketKeeps(r, ssrc, se.numbers, x);
    OwnCounts(r, ssrc, Low(x));
    assert (se.numbers + [x])[..se.reported] == se.numbers[..se.reported];
  }

  lemma FreshKeeps(r: State, s: uint32, ssrc: uint32)
    requires Kept(r, s, [])
    ensures Kept(r, ssrc, [])
  {
  }

  /** What receiving a packet of the receiver's own source leaves alone. */
  lemma OwnCounts(r: State, ssrc: uint32, seqNum: uint16)
    requires r.received == 0 || r.ssrc == ssrc
    ensures var (n, ok) := Receive(r, ssrc, seqNum, false);
            && ok && n.invalid == r.invalid && n.restarts == r.restarts
            && (r.probation != 0 || r.ssrcNew == 0 ==> n.ssrcNew == 0 && n.probation == 0)
  {
    hide U16, U32;
  }

  /** A packet that fails restarts the receiver once it has been counted. */
  lemma FailsAfter(r: State, ssrc: uint32, seqNum: uint16)
    ensures var (n, ok) := Receive(r, ssrc, seqNum, false);
            Receive(r, ssrc, seqNum, true) == (if ok then Restarted(n) else n, false)
  {
    hide SsrcUpdate, SeqUpdate;
  }

  lemma OwnFailStands(r: State, se: Session, ssrc: uint32, x: nat)
    requires Stands(r, se) && Own(se, ssrc)
    ensures !Receive(r, ssrc, Low(x), true).1
    ensures Stands(Receive(r, ssrc, Low(x), true).0, Follow(se, Arrived(ssrc, x, true)))
  {
    hide Receive, Tracks, Low, U32;
    OwnCounts(r, ssrc, Low(x));
    FailsAfter(r, ssrc, Low(x));
    RestartedStands(Receive(r, ssrc, Low(x), false).0, se, ssrc);
  }

  /** A packet of another source that does not take over is ignored. */
  lemma RivalStands(r: State, se: Session, ssrc: uint32, x: nat, fails: bool)
    requires Stands(r, se) && !Own(se, ssrc) && !Overtakes(se, ssrc)
    ensures !Receive(r, ssrc, Low(x), fails).1
    ensures Stands(Receive(r, ssrc, Low(x), fails).0, Follow(se, Arrived(ssrc, x, fails)))
  {
    hide Cycles, Low, U32, Span, Highest;
    NextWrap(se.ignored);
  }

  /** What is left of the receiver when another source takes over. */
  lemma TakeoverResets(r: State, ssrc: uint32, seqNum: uint16)
    requires r.received > 0 && SsrcUpdate(r, ssrc).1 == Restart
    ensures var (n, ok) := Receive(r, ssrc, seqNum, false);
            && ok && n == Restarted(r).(ssrc := ssrc, base := seqNum, max := seqNum, received := 1)
  {
  }

  lemma TakeoverStands(r: State, se: Session, ssrc: uint32, x: nat)
    requires Stands(r, se) && Overtakes(se, ssrc)
    ensures Receive(r, ssrc, Low(x), false).1
    ensures Stands(Receive(r, ssrc, Low(x), false).0, Follow(se, Arrived(ssrc, x, false)))
  {
    hide Tracks, Low, U32, Span, Receive, Highest;
    TakeoverResets(r, ssrc, Low(x));
    NextWrap(se.restarts);
    NewSource(Receive(r, ssrc, Low(x), false).0, ssrc, x, se.restarts + 1);
  }

  lemma NewSource(n: State, ssrc: uint32, x: nat, restarts: nat)
    requires n.ssrc == ssrc && n.base == n.max == Low(x) && n.received == 1 && n.cycles == 0
    requires n.ssrcNew == 0 && n.probation == 0 && n.invalid == 0 && n.expectedPrior == n.receivedPrior == 0
    requires n.restarts == restarts % 256
    ensures Stands(n, Session(ssrc, [x], 0, 0, None, 0, 0, restarts))
  {
    hide Low;
    assert [x][..0] == [];
  }

  lemma TakeoverFailStands(r: State, se: Session, ssrc: uint32, x: nat)
    requires Stands(r, se) && Overtakes(se, ssrc)
    ensures !Receive(r, ssrc, Low(x), true).1
    ensures Stands(Receive(r, ssrc, Low(x), true).0, Follow(se, Arrived(ssrc, x, true)))
  {
    hide Tracks, Low, U32, Span, Highest;
    hide Receive;
    TakeoverResets(r, ssrc, Low(x));
    FailsAfter(r, ssrc, Low(x));
    NextWrap(se.restarts);
    RestartedStands(Receive(r, ssrc, Low(x), false).0, se.(restarts := se.restarts + 1), ssrc);
  }

  lemma DueStands(r: State, se: Session)
    requires Stands(r, se)
    ensures Stands(Report(r), Follow(se, Due))
  {
    hide Fraction, Lost, ExpectedInterval, ReceivedInterval, Tracks, Highest;
    ReportKeeps(r, se.source, se.numbers);
    ExpectedOf(r, se);
    assert se.numbers[..|se.numbers|] == se.numbers;
    hide U32;
  }

  /** What the receiver expects in all is the span of its session. */
  lemma ExpectedOf(r: State, se: Session)
    requires Kept(r, se.source, se.numbers)
    ensures Expected(r) == U32(Span(se.numbers))
  {
    hide Tracks, Highest;
    if se.numbers != [] {
      TracksExpected(r, se.numbers[0], Highest(se.numbers));
    }
    hide U32;
  }

  /** Whether an input is a packet that is counted and passed on. */
  predicate PassedOn(se: Session, i: Input) {
    i.Arrived? && !i.fails && (Own(se, i.ssrc) || Overtakes(se, i.ssrc))
  }

  lemma StepStands(r: State, se: Session, i: Input)
    requires Stands(r, se) && Near(se, i) && |se.numbers| + 1 < 0x1_0000_0000
    ensures Stands(Serve(r, i), Follow(se, i))
    ensures i.Arrived? ==> Receive(r, i.ssrc, Low(i.x), i.fails).1 == PassedOn(se, i)
  {
    hide Stands, Receive, Follow, Report, Low, Own, Overtakes;
    match i
    case Due => DueStands(r, se);
    case Arrived(ssrc, x, fails) =>
      if Own(se, ssrc) {
        if fails { OwnFailStands(r, se, ssrc, x); } else { OwnStands(r, se, ssrc, x); }
      } else if Overtakes(se, ssrc) {
        if fails { TakeoverFailStands(r, se, ssrc, x); } else { TakeoverStands(r, se, ssrc, x); }
      } else {
        RivalStands(r, se, ssrc, x, fails);
      }
  }

  lemma FollowGrows(se: Session, i: Input)
    ensures |Follow(se, i).numbers| <= |se.numbers| + 1
  {
  }

  /** Over every run, from its creation on, the receiver counts and tracks the packets of its session alone:
      those of one source since it took over, or since a packet failed. */
  lemma {:induction false} SessionStands(inputs: seq<Input>)
    requires AllNear(inputs) && |inputs| < 0x1_0000_0000
    ensures Stands(Served(inputs), Sessions(inputs)) && |Sessions(inputs).numbers| <= |inputs|
  {
    hide Stands, Serve, Follow, Near;
    if inputs == [] {
      FirstStands();
    } else {
      var before, i := inputs[..|inputs| - 1], inputs[|inputs| - 1];
      SessionStands(before);
      StepStands(Served(before), Sessions(before), i);
      FollowGrows(Sessions(before), i);
    }
  }

  /** A report tells of its session alone: the packets missing from the span of its numbers, in all and
      since the report before. */
  lemma ReportTellsSession(inputs: seq<Input>)
    requires AllNear(inputs) && |inputs| < 0x1_0000_0000
    ensures var se, r := Sessions(inputs), Report(Served(inputs));
            var all, covered := Span(se.numbers), Span(se.numbers[..se.reported]);
            var expected, received := U32(all - covered), |se.numbers| - se.reported;
            var lost := Missing(expected, received);
            && r.lost == Missing(U32(all), |se.numbers|)
            && (expected == 0 ==> r.fraction == 0)
            && (expected > 0 ==> (r.fraction == lost * 256 / expected <==> lost < 0x100_0000))
  {
    hide Served, Sessions, AllNear, Span, Fraction, Expected, Rivalled, Tracks, Highest, Low;
    SessionStands(inputs);
    var r, se := Served(inputs), Sessions(inputs);
    ExpectedOf(r, se);
    WrapDifference(Span(se.numbers), Span(se.numbers[..se.reported]));
    ReportIsExactIff(inputs);
    InWord(|se.numbers| - se.reported);
    hide U32;
  }

  lemma WrapDifference(a: int, b: int)
    ensures U32(U32(a) - U32(b)) == U32(a - b)
  {
    var p, q := a / 0x1_0000_0000, b / 0x1_0000_0000;
    Lowered(a);
    Lowered(b);
    hide U32;
    assert U32(a) - U32(b) == a - b - (p - q) * 0x1_0000_0000;
    WrapAgain(a - b, p - q);
  }

  lemma Lowered(a: int)
    ensures U32(a) == a - a / 0x1_0000_0000 * 0x1_0000_0000
  {
  }
}
