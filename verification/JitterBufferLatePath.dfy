/** What every reachable jitter buffer keeps about its delay and its statistics, and where
    the late branch of a write places a packet. */
module JitterBufferLatePath {
  import opened Options
  import opened Machine
  import opened JitterBuffer
  import Arith

  /** `k` frames in timestamp units. */
  function Length(c: Config, k: nat): nat { k * c.frameTs }

  /** One frame more than the ring holds, in timestamp units. */
  function Span(c: Config): nat { Length(c, c.frameCount + 1) }

  predicate Configured(c: Config) {
    && 0 < c.frameTs && 0 < c.frameCount
    && Length(c, c.frameCount) <= c.maxTs < Span(c)
    && c.initialTs <= c.maxTs
  }

  /** The read clock is `4 * span` short of the end of the signed 32-bit range. */
  predicate InRange(s: State, span: nat) { s.readTs + 4 * span < 0x8000_0000 }

  predicate NoWrap(c: Config, s: State) { InRange(s, Span(c)) }

  /** What every reachable state keeps about its numbers; `span` bounds the buffered time. */
  predicate Bounded(c: Config, s: State, span: nat) {
    && s.playout <= c.maxTs < span
    && s.writeTs < s.readTs + span
    && 0 <= s.minLen + s.readTs && s.minLen <= s.maxLen < c.maxTs + span
    && (s.sync || !c.skewDetection || s.maxLen < s.playout + span)
  }

  predicate Invariant(c: Config, s: State) {
    && Configured(c) && WellFormed(c, s)
    && OnFrame(s.readTs, c.frameTs)
    && Bounded(c, s, Span(c))
  }

  lemma ScaledOrder(f: nat, r: nat, m: nat)
    requires 0 < f && r % 10 == 0
    ensures f * r / 10 == f * (r / 10)
    ensures f * r / 10 <= f * m / 10 <==> r <= m
    ensures m / 10 * f <= f * m / 10 < (m / 10 + 1) * f
  {
    var k, n, e := r / 10, m / 10, m % 10;
    assert r == 10 * k && m == 10 * n + e;
    calc { f * r; f * (10 * k); 10 * (f * k); }
    calc { f * m; f * (10 * n + e); f * (10 * n) + f * e; 10 * (f * n) + f * e; }
    Arith.MulStep(-1, e, f);
    Arith.MulStep(e, 10, f);
    assert n * f == f * n && (n + 1) * f == n * f + f && e * f == f * e;
    if k < n { Arith.MulStep(k, n, f); }
    if n < k { Arith.MulStep(n, k, f); }
    assert k * f == f * k;
  }

  /** A created buffer honours its own maximum exactly when the rounded initial delay does. */
  lemma CreationValid(adaptive: bool, skew: bool, frameTs: uint32, frameSize: nat, initial: nat, max: nat)
    requires Fits(frameTs, initial, max)
    ensures var c := MakeConfig(adaptive, skew, frameTs, frameSize, initial, max);
            && (Invariant(c, Init(c)) <==> RoundUp10(initial) <= MaxDelay(initial, max))
            && (Init(c).playout <= c.maxTs <==> RoundUp10(initial) <= MaxDelay(initial, max))
  {
    ScaledOrder(frameTs, RoundUp10(initial), MaxDelay(initial, max));
  }

  lemma AlignAbove(x: uint32, m: uint32, unit: uint32)
    requires 0 < unit && OnFrame(m, unit) && m <= x
    ensures m <= Align(x, unit)
  {
    Arith.DivMonotone(m, x, unit);
    var a, b := m / unit, x / unit;
    if a < b { Arith.MulStep(a, b, unit); }
  }

  lemma DifferenceAligned(a: uint32, b: uint32, unit: uint32)
    requires 0 < unit && OnFrame(a, unit) && OnFrame(b, unit) && b <= a
    ensures OnFrame(a - b, unit)
  {
    Arith.ModShift(a, unit, -(b / unit));
  }

  lemma AlignedGap(x: uint32, readTs: uint32, w: uint32, unit: uint32)
    requires 0 < unit && OnFrame(readTs, unit) && OnFrame(w, unit) && w < readTs && readTs - w <= x
    ensures readTs - w <= Align(x, unit) <= x
  {
    DifferenceAligned(readTs, w, unit);
    AlignAbove(x, readTs - w, unit);
  }

  /** A late packet's adjustment covers at least its distance to the read position. */
  lemma DeltaCovers(c: Config, s: State, w: uint32, span: nat)
    requires 0 < c.frameTs && OnFrame(s.readTs, c.frameTs)
    requires Bounded(c, s, span) && InRange(s, span) && !s.sync
    requires w < s.readTs && OnFrame(w, c.frameTs)
    ensures s.readTs - w <= Delta(c, s, w) <= s.readTs + 2 * span
  {
    hide Align, OnFrame;
    var spread := s.maxLen - s.minLen;
    assert 0 <= spread <= s.readTs + 2 * span;
    assert U32(spread) == spread && U32(s.playout + (s.readTs - w)) == s.playout + (s.readTs - w);
    if c.skewDetection && spread > s.playout + (s.readTs - w) {
      AlignedGap(spread - s.playout, s.readTs, w, c.frameTs);
      assert U32(spread - s.playout) == spread - s.playout;
    }
  }

  /** Growing keeps the statistics ordered and the delay within its maximum, and moves the
      packet by exactly `delta`. */
  lemma GrowKeeps(c: Config, s: State, w: uint32, delta: uint32, span: nat)
    requires Bounded(c, s, span) && InRange(s, span) && !s.sync
    requires delta <= s.readTs + 2 * span && w < s.readTs + 2 * span
    ensures var (s1, at) := Grow(c, s, w, delta);
            && Bounded(c, s1, span) && SameRing(s, s1) && !s1.sync
            && (at.Some? ==> at.value == w + delta)
  {
  }

  predicate SameRing(s: State, s1: State) {
    && s1.readTs == s.readTs && s1.writeTs == s.writeTs && s1.frames == s.frames
    && s1.update == s.update && s1.base == s.base && s1.baseTs == s.baseTs
  }

  lemma PrepareKeeps(c: Config, s: State, ts: uint32, span: nat)
    requires 0 < c.frameTs && Bounded(c, s, span) && InRange(s, span)
    ensures var (s1, w) := Prepare(c, s, ts);
            Bounded(c, s1, span) && SameRing(s, s1) && !s1.sync
  {
    hide Align, OnFrame;
  }

  lemma SkewKeeps(c: Config, s: State, ts: uint32, w: uint32, skew: uint32, span: nat)
    requires SkewSuspected(s) && skew <= s.playout - s.maxLen
    requires Bounded(c, s, span) && InRange(s, span) && !s.sync
    requires w <= U32(ts - s.offset + s.playout) < s.readTs + span
    ensures var s1 := ApplySkew(s, skew);
            && Bounded(c, s1, span) && SameRing(s, s1) && !s1.sync
            && w + skew <= U32(ts - s1.offset + s1.playout) < s.readTs + span + skew
  {
    ShiftedRaw(ts, s.offset, s.playout, skew);
  }

  lemma ShiftedRaw(ts: uint32, offset: uint32, playout: uint32, skew: uint32)
    requires U32(ts - offset + playout) + skew < 0x1_0000_0000
    ensures U32(ts - U32(offset - skew) + playout) == U32(ts - offset + playout) + skew
  {
  }

  lemma LatePlaceKeeps(c: Config, s: State, ts: uint32, w: uint32, span: nat)
    requires 0 < c.frameTs < span && OnFrame(s.readTs, c.frameTs)
    requires Bounded(c, s, span) && InRange(s, span) && !s.sync
    requires w == Align(U32(ts - s.offset + s.playout), c.frameTs) < s.readTs
    ensures var (s1, at) := LatePlace(c, s, ts, w);
            && Bounded(c, s1, span) && SameRing(s, s1) && !s1.sync
            && (at.Some? ==> s.readTs <= at.value)
  {
    hide OnFrame, Grow, Delta, Skew, ApplySkew, U32, S32;
    assert w <= U32(ts - s.offset + s.playout) < s.readTs + span;
    hide Align;
    if w >= s.writeTs {
      DeltaCovers(c, s, w, span);
      var delta := Delta(c, s, w);
      if c.skewDetection && SkewSuspected(s) {
        var skew := Skew(c, s);
        SkewKeeps(c, s, ts, w, skew, span);
        var s1 := ApplySkew(s, skew);
        GrowKeeps(c, s1, U32(ts - s1.offset + s1.playout), if skew < delta then delta - skew else 0, span);
      } else {
        GrowKeeps(c, s, w, delta, span);
      }
    }
  }

  lemma PlaceKeeps(c: Config, s: State, ts: uint32, marker: bool, span: nat)
    requires 0 < c.frameTs < span && OnFrame(s.readTs, c.frameTs)
    requires Bounded(c, s, span) && InRange(s, span)
    ensures var (s1, at) := Place(c, s, ts, marker);
            && Bounded(c, s1, span) && SameRing(s, s1) && !s1.sync
            && (at.Some? ==> s.readTs <= at.value)
  {
    hide Align, OnFrame;
    var s0 := if marker && s.writeTs <= s.readTs then s.(sync := true) else s;
    PrepareKeeps(c, s0, ts, span);
    var (s1, w) := Prepare(c, s0, ts);
    if w < s1.readTs { LatePlaceKeeps(c, s1, ts, w, span); }
  }

  /** No placed packet ends up behind the reader, whatever combination of statistics,
      skew shift and adaptive growth the late branch went through. */
  lemma PlacedAheadOfReader(c: Config, s: State, ts: uint32, marker: bool)
    requires Invariant(c, s) && NoWrap(c, s)
    ensures var (s1, at) := Place(c, s, ts, marker);
            && Invariant(c, s1) && SameRing(s, s1) && !s1.sync
            && (at.Some? ==> s.readTs <= at.value)
  {
    Arith.MulStep(0, c.frameCount, c.frameTs);
    assert c.frameTs < Span(c);
    PlaceKeeps(c, s, ts, marker, Span(c));
  }
}
