/** RTP port ranges: split among media engines, and searched for a free pair. */
module PortAllocation {
  import opened Machine
  import opened Arith

  /** A range of ports with its cursor; the pair at port `p` is `p` for RTP and `p + 1` for RTCP. */
  datatype Range = Range(min: uint16, max: uint16, cur: uint16)

  predicate Proper(r: Range) { r.min < r.max <= 0xFFFE }

  /** The wrap of a cursor at 65536 stays within the range. */
  predicate Closed(r: Range) { r.min < r.max && (r.max <= 0xFFFE || r.min % 2 == 1 || r.min == 0) }

  // ---------------------------------------------------------------- the search

  function NextPort(r: Range, port: uint16): uint16 {
    var n := U16(port + 2);
    if n >= r.max then r.min else n
  }

  /** The cursor after `i` steps of the search. */
  function Cursor(r: Range, i: nat): uint16 { if i == 0 then r.cur else NextPort(r, Cursor(r, i - 1)) }

  /** How many pairs the range offers. */
  function Pairs(r: Range): nat
    requires r.min < r.max
  {
    (r.max - r.min + 1) / 2
  }

  /** The port is the first of a pair of the range. */
  predicate OnGrid(r: Range, port: uint16) { r.min <= port < r.max && (port - r.min) % 2 == 0 }

  function PairAt(r: Range, k: nat): int { r.min + 2 * k }

  /** Position `i` steps on from `k` in a cycle of `n`. */
  function Turn(k: nat, i: nat, n: nat): int { if k + i < n then k + i else k + i - n }

  lemma {:induction false} CursorTurns(r: Range, i: nat)
    requires Closed(r) && OnGrid(r, r.cur) && i <= Pairs(r)
    ensures Cursor(r, i) == r.min + 2 * Turn((r.cur - r.min) / 2, i, Pairs(r))
  {
    if i > 0 { CursorTurns(r, i - 1); }
  }

  lemma NextOnGrid(r: Range, port: uint16)
    requires Proper(r)
    ensures OnGrid(r, r.min)
    ensures OnGrid(r, port) ==> OnGrid(r, NextPort(r, port))
    ensures NextPort(r, port) < r.max
    ensures port < r.max ==> NextPort(r, port) == port + 2 || NextPort(r, port) == r.min
  {
  }

  /** From elsewhere the search enters the grid, or moves on, but does not return. */
  lemma {:induction false} OffGrid(r: Range, i: nat)
    requires Proper(r) && !OnGrid(r, r.cur) && i > 0
    ensures Cursor(r, i) < r.max && Cursor(r, i) != r.cur
    ensures r.cur < r.max ==> r.cur < Cursor(r, i) || OnGrid(r, Cursor(r, i))
  {
    hide OnGrid, NextPort;
    NextOnGrid(r, Cursor(r, i - 1));
    if i > 1 { OffGrid(r, i - 1); }
  }

  /** With no pair of the range free, the search comes back to where it began, and ends. */
  ghost predicate Returns(r: Range) { exists i: nat :: i > 0 && Cursor(r, i) == r.cur }

  lemma FullTurn(r: Range)
    requires Closed(r) && OnGrid(r, r.cur)
    ensures Pairs(r) > 0 && Cursor(r, Pairs(r)) == r.cur && forall i: nat :: 0 < i < Pairs(r) ==> Cursor(r, i) != r.cur
  {
    var k, n := (r.cur - r.min) / 2, Pairs(r);
    CursorTurns(r, n);
    forall i: nat | 0 < i < n ensures Cursor(r, i) != r.cur { CursorTurns(r, i); }
  }

  /** With the maximum at port 65535 an even cursor goes round all even ports ... */
  lemma {:induction false} EvenTurns(r: Range, i: nat)
    requires r.min < r.max == 0xFFFF && r.cur % 2 == 0
    ensures Cursor(r, i) == (r.cur + 2 * i) % 0x1_0000
  {
    hide NextPort;
    if i > 0 {
      EvenTurns(r, i - 1);
      EvenStep(r, r.cur + 2 * i - 2);
    }
  }

  lemma EvenStep(r: Range, x: nat)
    requires r.min < r.max == 0xFFFF && x % 2 == 0
    ensures NextPort(r, x % 0x1_0000) == (x + 2) % 0x1_0000
  {
  }

  /** ... and an odd one that is not at a pair of the range does not come back. */
  lemma {:induction false} OddLeaves(r: Range, i: nat)
    requires r.min < r.max == 0xFFFF && r.cur % 2 == 1 && !OnGrid(r, r.cur) && i > 0
    ensures Cursor(r, i) < 0xFFFF && (r.cur == 0xFFFF || Cursor(r, i) % 2 == 0 || Cursor(r, i) > r.cur)
  {
    hide NextPort, OnGrid;
    if i > 1 { OddLeaves(r, i - 1); } else { assert Cursor(r, 0) == r.cur; }
    OddStep(r, Cursor(r, i - 1));
  }

  lemma OddStep(r: Range, port: uint16)
    requires r.min < r.max == 0xFFFF && r.cur % 2 == 1 && !OnGrid(r, r.cur)
    requires port == r.cur || (port < 0xFFFF && (r.cur == 0xFFFF || port % 2 == 0 || port > r.cur))
    ensures var n := NextPort(r, port); n < 0xFFFF && (r.cur == 0xFFFF || n % 2 == 0 || n > r.cur)
  {
  }

  /** Where a search with no free port comes back to its beginning. */
  predicate ComesBack(r: Range) { OnGrid(r, r.cur) || (r.max == 0xFFFF && r.cur % 2 == 0) }

  /** The search comes back to where it began if and only if it began at a pair of its range, or at an
      even port while the range ends at 65535; in a range that it does not leave, it does so after
      exactly as many steps as there are pairs. */
  lemma SearchReturns(r: Range)
    requires r.min < r.max
    ensures Returns(r) <==> ComesBack(r)
    ensures Closed(r) && OnGrid(r, r.cur) ==>
              Cursor(r, Pairs(r)) == r.cur && forall i: nat :: 0 < i < Pairs(r) ==> Cursor(r, i) != r.cur
  {
    hide Cursor, OnGrid, Pairs;
    if Closed(r) && OnGrid(r, r.cur) {
      FullTurn(r);
    } else if r.max == 0xFFFF && r.cur % 2 == 0 {
      EvenTurns(r, 0x8000);
    } else {
      NotAtPair(r);
      forall i: nat | i > 0 ensures Cursor(r, i) != r.cur {
        if r.max == 0xFFFF { OddLeaves(r, i); } else { OffGrid(r, i); }
      }
    }
  }

  lemma NotAtPair(r: Range)
    requires r.min < r.max && !(Closed(r) && OnGrid(r, r.cur)) && !(r.max == 0xFFFF && r.cur % 2 == 0)
    ensures !OnGrid(r, r.cur)
  {
  }

  /** On its way the search offers every pair of the range exactly once. */
  lemma OffersEach(r: Range, k: nat)
    requires Closed(r) && OnGrid(r, r.cur) && k < Pairs(r)
    ensures exists i :: 0 <= i < Pairs(r) && Cursor(r, i) == PairAt(r, k)
    ensures forall i, j :: 0 <= i < j < Pairs(r) ==> Cursor(r, i) != Cursor(r, j)
  {
    forall i: nat | i <= Pairs(r)
      ensures Cursor(r, i) == r.min + 2 * Turn((r.cur - r.min) / 2, i, Pairs(r))
    {
      CursorTurns(r, i);
    }
    var k0, n := (r.cur - r.min) / 2, Pairs(r);
    var i := if k >= k0 then k - k0 else k - k0 + n;
    assert Turn(k0, i, n) == k;
    assert Cursor(r, i) == PairAt(r, k);
  }

  lemma StepStays(r: Range, port: uint16)
    requires Closed(r) && OnGrid(r, port)
    ensures OnGrid(r, NextPort(r, port))
  {
  }

  lemma {:induction false} StaysForever(r: Range, i: nat)
    requires Closed(r) && OnGrid(r, r.cur)
    ensures OnGrid(r, Cursor(r, i))
  {
    hide OnGrid, NextPort;
    if i > 0 {
      StaysForever(r, i - 1);
      StepStays(r, Cursor(r, i - 1));
    }
  }

  lemma {:induction false} Climbs(r: Range, i: nat)
    requires r.max == 0xFFFF && r.cur + 2 * i <= 0xFFFE
    ensures Cursor(r, i) == r.cur + 2 * i
  {
    if i > 0 { Climbs(r, i - 1); }
  }

  /** A search that began at a pair of its range never leaves the range if and only if the range ends
      below port 65535, or starts at an odd port, or at 0, where the cursor wraps to. */
  lemma WrapEscapes(r: Range)
    requires r.min < r.max && OnGrid(r, r.cur)
    ensures (forall i: nat :: OnGrid(r, Cursor(r, i))) <==> r.max <= 0xFFFE || r.min % 2 == 1 || r.min == 0
  {
    if Closed(r) {
      forall i: nat ensures OnGrid(r, Cursor(r, i)) { StaysForever(r, i); }
    } else {
      var i := (0xFFFE - r.cur) / 2;
      Climbs(r, i);
      assert Cursor(r, i + 1) == 0;
      assert !OnGrid(r, Cursor(r, i + 1));
    }
  }

  // ---------------------------------------------------------------- the split

  /** Ports per engine, an even number. */
  function PerEngine(lo: uint16, hi: uint16, n: nat): nat
    requires lo <= hi && n > 0
  {
    var p := (hi - lo) / n;
    if p % 2 != 0 then p - 1 else p
  }

  /** Range of engine `i` among `n`. */
  function Split(lo: uint16, hi: uint16, n: nat, i: nat): (r: Range)
    requires lo <= hi && i < n
    ensures r.cur == r.min
  {
    SplitFits(lo, hi, n, i);
    var p := PerEngine(lo, hi, n);
    Range(lo + i * p, if i == n - 1 then hi else lo + i * p + p, lo + i * p)
  }

  lemma SplitFits(lo: uint16, hi: uint16, n: nat, i: nat)
    requires lo <= hi && i < n
    ensures var p := PerEngine(lo, hi, n); i * p >= 0 && lo + i * p + p <= hi
  {
    var q, p := (hi - lo) / n, PerEngine(lo, hi, n);
    assert n * q <= hi - lo;
    assert n * (q - p) >= 0;
    MulStep(i, n, p);
  }

  /** With at least two ports for each, the engines' ranges partition the whole range, at even
      offsets, and all but the last are of even size. */
  lemma RangesPartition(lo: uint16, hi: uint16, n: nat, i: nat)
    requires lo < hi && i < n && (n == 1 || (hi - lo) / n >= 2)
    ensures var r := Split(lo, hi, n, i);
            && r.min < r.max && (hi <= 0xFFFE ==> Proper(r)) && (r.min - lo) % 2 == 0
            && (i == 0 ==> r.min == lo)
            && (if i == n - 1 then r.max == hi else r.max == Split(lo, hi, n, i + 1).min && (r.max - r.min) % 2 == 0)
  {
    var p := PerEngine(lo, hi, n);
    SplitFits(lo, hi, n, i);
    EvenTimes(i, p);
    assert i * p + p == (i + 1) * p;
    if n > 1 { assert p >= 2; }
  }

  /** Every engine but the last has the greatest even number of ports that does not exceed an equal share;
      the last has all the rest. */
  lemma EqualShares(lo: uint16, hi: uint16, n: nat, i: nat)
    requires lo <= hi && i < n
    ensures var r, share := Split(lo, hi, n, i), (hi - lo) / n;
            if i < n - 1 then (r.max - r.min) % 2 == 0 && r.max - r.min <= share < r.max - r.min + 2
            else r.max == hi && hi - lo - (n - 1) * share <= r.max - r.min
  {
    var p, q := PerEngine(lo, hi, n), (hi - lo) / n;
    SplitFits(lo, hi, n, i);
    if i == n - 1 { NoMoreThan(n - 1, p, q); }
  }

  lemma NoMoreThan(k: nat, p: nat, q: nat)
    requires p <= q
    ensures k * p <= k * q
  {
    if p < q { MulStep(p, q, k); }
  }

  lemma EvenTimes(i: nat, p: nat)
    requires p % 2 == 0
    ensures (i * p) % 2 == 0 && (i == 0 ==> i * p == 0)
  {
    assert i * p == 2 * (i * (p / 2));
  }

  lemma {:induction false} RangesAscend(lo: uint16, hi: uint16, n: nat, i: nat, j: nat)
    requires lo < hi && i < j < n && (hi - lo) / n >= 2
    ensures Split(lo, hi, n, i).max <= Split(lo, hi, n, j).min
  {
    hide Split;
    RangesPartition(lo, hi, n, i);
    if j > i + 1 {
      RangesAscend(lo, hi, n, i, j - 1);
      RangesPartition(lo, hi, n, j - 1);
    }
  }

  /** The range of engine `i`, the cursor of the first one being wherever its searches have left it. */
  function Assigned(lo: uint16, hi: uint16, n: nat, i: nat, cur: uint16): Range
    requires lo <= hi && i < n
  {
    if i == 0 then Split(lo, hi, n, 0).(cur := cur) else Split(lo, hi, n, i)
  }

  /** The port comes up in the searches of an engine, each of which goes on where the last one stopped. */
  ghost predicate Offers(r: Range, p: uint16) { exists i: nat :: Cursor(r, i) == p }

  /** The pairs at two ports have a port in common. */
  predicate Overlap(p: int, q: int) { p - 1 <= q <= p + 1 }

  /** Whatever two engines ever offer, the pairs do not overlap. */
  ghost predicate Apart(r: Range, s: Range) {
    forall p: uint16, q: uint16 :: Offers(r, p) && Offers(s, q) ==> !Overlap(p, q)
  }

  ghost predicate AllApart(lo: uint16, hi: uint16, n: nat, cur: uint16)
    requires lo <= hi
  {
    forall i, j :: 0 <= i < j < n ==> Apart(Assigned(lo, hi, n, i, cur), Assigned(lo, hi, n, j, cur))
  }

  /** A range that is not left offers its own pairs only. */
  lemma OffersOwn(r: Range, p: uint16)
    requires Closed(r) && OnGrid(r, r.cur) && Offers(r, p)
    ensures OnGrid(r, p)
  {
    var i: nat :| Cursor(r, i) == p;
    StaysForever(r, i);
  }

  lemma OffersPair(r: Range, p: uint16)
    requires Closed(r) && OnGrid(r, r.cur) && OnGrid(r, p)
    ensures Offers(r, p)
  {
    var k := (p - r.min) / 2;
    OffersEach(r, k);
    var i :| 0 <= i < Pairs(r) && Cursor(r, i) == PairAt(r, k);
    hide Cursor;
  }

  lemma ClosedApart(r: Range, s: Range)
    requires Closed(r) && OnGrid(r, r.cur) && Closed(s) && OnGrid(s, s.cur) && r.max <= s.min
    requires (s.min - r.min) % 2 == 0
    ensures Apart(r, s)
  {
    hide Offers;
    forall p: uint16, q: uint16 | Offers(r, p) && Offers(s, q) ensures !Overlap(p, q) {
      OffersOwn(r, p);
      OffersOwn(s, q);
    }
  }

  lemma OffersStart(r: Range)
    ensures Offers(r, r.cur)
  {
    assert Cursor(r, 0) == r.cur;
  }

  /** A port that both offer. */
  lemma Meet(r: Range, s: Range, p: uint16)
    requires Offers(r, p) && Offers(s, p)
    ensures !Apart(r, s)
  {
    assert Overlap(p, p);
  }

  lemma OffersEven(r: Range, p: uint16)
    requires r.min < r.max == 0xFFFF && r.cur % 2 == 0 && p % 2 == 0
    ensures Offers(r, p)
  {
    hide Cursor;
    var i := if r.cur <= p then (p - r.cur) / 2 else (p + 0x1_0000 - r.cur) / 2;
    EvenTurns(r, i);
    assert Cursor(r, i) == p;
  }

  lemma RangesApart(lo: uint16, hi: uint16, n: nat, i: nat, j: nat, cur: uint16)
    requires lo < hi && (hi <= 0xFFFE || lo % 2 == 1) && i < j < n && (hi - lo) / n >= 2
    requires OnGrid(Split(lo, hi, n, 0), cur)
    ensures Apart(Assigned(lo, hi, n, i, cur), Assigned(lo, hi, n, j, cur))
  {
    hide Split, Apart, Assigned;
    RangesAscend(lo, hi, n, i, j);
    AssignedClosed(lo, hi, n, i, cur);
    AssignedClosed(lo, hi, n, j, cur);
    ClosedApart(Assigned(lo, hi, n, i, cur), Assigned(lo, hi, n, j, cur));
  }

  lemma AssignedClosed(lo: uint16, hi: uint16, n: nat, i: nat, cur: uint16)
    requires lo < hi && (hi <= 0xFFFE || lo % 2 == 1) && i < n && n > 1 && (hi - lo) / n >= 2
    requires i == 0 ==> OnGrid(Split(lo, hi, n, 0), cur)
    ensures var r := Assigned(lo, hi, n, i, cur);
            && Closed(r) && OnGrid(r, r.cur) && (r.min - lo) % 2 == 0
            && r.min == Split(lo, hi, n, i).min && r.max == Split(lo, hi, n, i).max
  {
    hide Split;
    RangesPartition(lo, hi, n, i);
    StartsAtMin(lo, hi, n, i);
  }

  lemma StartsAtMin(lo: uint16, hi: uint16, n: nat, i: nat)
    requires lo < hi && i < n
    ensures Split(lo, hi, n, i).cur == Split(lo, hi, n, i).min
  {
  }

  /** With fewer than two ports each, the first two engines offer the very first port. */
  lemma NoPorts(lo: uint16, hi: uint16, n: nat, cur: uint16)
    requires lo < hi && n > 1 && (hi - lo) / n < 2 && OnGrid(Range(lo, hi, lo), cur) && cur <= 0xFFFD
    ensures !Apart(Assigned(lo, hi, n, 0, cur), Assigned(lo, hi, n, 1, cur))
  {
    assert PerEngine(lo, hi, n) == 0;
    var r, s := Assigned(lo, hi, n, 0, cur), Assigned(lo, hi, n, 1, cur);
    assert Cursor(r, 0) == cur;
    assert Cursor(r, 1) == lo;
    OffersStart(s);
    Meet(r, s, lo);
    hide Cursor;
  }

  /** The engine in whose range a port lies. */
  lemma {:induction false} OwnerOf(lo: uint16, hi: uint16, n: nat, p: uint16, i: nat) returns (j: nat)
    requires lo < hi && i < n && (hi - lo) / n >= 2 && Split(lo, hi, n, i).min <= p < hi
    ensures i <= j < n && Split(lo, hi, n, j).min <= p < Split(lo, hi, n, j).max
    decreases n - i
  {
    hide Split;
    RangesPartition(lo, hi, n, i);
    if p < Split(lo, hi, n, i).max {
      j := i;
    } else {
      j := OwnerOf(lo, hi, n, p, i + 1);
    }
  }

  lemma InWhole(lo: uint16, hi: uint16, p: uint16)
    requires OnGrid(Range(lo, hi, lo), p)
    ensures lo <= p < hi
  {
  }

  lemma OnOtherGrid(r: Range, s: Range, p: uint16)
    requires OnGrid(r, p) && s.min <= p < s.max && (s.min - r.min) % 2 == 0
    ensures OnGrid(s, p)
  {
  }

  /** A cursor left beyond the range of the first engine offers a port of another one. */
  lemma Trespasses(lo: uint16, hi: uint16, n: nat, cur: uint16) returns (j: nat)
    requires lo < hi && (hi <= 0xFFFE || lo % 2 == 1) && n > 1 && (hi - lo) / n >= 2
    requires OnGrid(Range(lo, hi, lo), cur) && cur >= Split(lo, hi, n, 0).max
    ensures 0 < j < n && !Apart(Assigned(lo, hi, n, 0, cur), Assigned(lo, hi, n, j, cur))
  {
    hide Split, Apart, Offers, Cursor, OnGrid;
    RangesPartition(lo, hi, n, 0);
    InWhole(lo, hi, cur);
    j := OwnerOf(lo, hi, n, cur, 0);
    AssignedClosed(lo, hi, n, j, cur);
    OnOtherGrid(Range(lo, hi, lo), Assigned(lo, hi, n, j, cur), cur);
    var r, s := Assigned(lo, hi, n, 0, cur), Assigned(lo, hi, n, j, cur);
    OffersPair(s, cur);
    OffersStart(r);
    Meet(r, s, cur);
  }

  /** The last engine goes round all even ports if the whole range ends at 65535 and starts at an even one. */
  lemma LastEscapes(lo: uint16, n: nat, cur: uint16)
    requires lo < 0xFFFF && lo % 2 == 0 && n > 1 && cur % 2 == 0
    ensures !Apart(Assigned(lo, 0xFFFF, n, 0, cur), Assigned(lo, 0xFFFF, n, n - 1, cur))
  {
    hide Apart, Offers, Cursor, PerEngine;
    LastIsEven(lo, n);
    var r, s := Assigned(lo, 0xFFFF, n, 0, cur), Assigned(lo, 0xFFFF, n, n - 1, cur);
    OffersEven(s, cur);
    OffersStart(r);
    Meet(r, s, cur);
  }

  lemma LastIsEven(lo: uint16, n: nat)
    requires lo < 0xFFFF && lo % 2 == 0 && n > 1
    ensures var r := Split(lo, 0xFFFF, n, n - 1); r.cur == r.min < r.max == 0xFFFF && r.min % 2 == 0
  {
    var p := PerEngine(lo, 0xFFFF, n);
    SplitFits(lo, 0xFFFF, n, n - 1);
    EvenTimes(n - 1, p);
    hide PerEngine;
  }

  /** No two engines ever offer overlapping pairs if and only if there are at least two ports for each,
      the cursor of the first has not been left beyond its range, and the last does not leave its own. */
  lemma NoOverlapIff(lo: uint16, hi: uint16, n: nat, cur: uint16)
    requires lo < hi && n > 1 && OnGrid(Range(lo, hi, lo), cur)
    ensures AllApart(lo, hi, n, cur)
       <==> (hi - lo) / n >= 2 && cur < Split(lo, hi, n, 0).max && (hi <= 0xFFFE || lo % 2 == 1)
  {
    hide Split, Apart;
    if hi == 0xFFFF && lo % 2 == 0 {
      LastEscapes(lo, n, cur);
    } else if (hi - lo) / n < 2 {
      NoPorts(lo, hi, n, cur);
    } else if cur >= Split(lo, hi, n, 0).max {
      var j := Trespasses(lo, hi, n, cur);
    } else {
      RangesPartition(lo, hi, n, 0);
      forall i, j | 0 <= i < j < n
        ensures Apart(Assigned(lo, hi, n, i, cur), Assigned(lo, hi, n, j, cur))
      {
        RangesApart(lo, hi, n, i, j, cur);
      }
    }
  }

  /** One more engine is assigned while the first one's cursor is at `cur`, which stays: a search of the
      first engine that finds no free port ends if and only if the cursor is below its new maximum. */
  lemma LateAssignmentIff(lo: uint16, hi: uint16, n: nat, cur: uint16)
    requires lo < hi && n > 0 && (hi - lo) / (n + 1) >= 2 && OnGrid(Split(lo, hi, n, 0), cur)
    ensures var after := Split(lo, hi, n + 1, 0).(cur := cur); Proper(after) && (Returns(after) <==> cur < after.max)
  {
    hide Returns, Split;
    var after := Split(lo, hi, n + 1, 0).(cur := cur);
    RangesPartition(lo, hi, n + 1, 0);
    RangesPartition(lo, hi, n + 1, 1);
    SplitEach(lo, hi, n, 0);
    SearchReturns(after);
  }

  /** A second engine assigned while the first one's cursor is in the upper half of the whole range: a
      search of the first one that finds no free port ended before, and does not end any more ... */
  lemma LateAssignment()
    ensures var before, after := Split(10000, 20000, 1, 0).(cur := 18000), Split(10000, 20000, 2, 0).(cur := 18000);
            Proper(before) && Proper(after) && Returns(before) && !Returns(after)
  {
    hide Returns, Cursor, Pairs;
    var before, after := Split(10000, 20000, 1, 0).(cur := 18000), Split(10000, 20000, 2, 0).(cur := 18000);
    assert before == Range(10000, 20000, 18000) && after == Range(10000, 15000, 18000);
    hide Split;
    SearchReturns(before);
    SearchReturns(after);
  }

  /** ... and what it offers belongs to the second engine, which offers it as well. */
  lemma EnginesCollide()
    ensures !AllApart(10000, 20000, 2, 18000)
  {
    hide AllApart;
    assert Split(10000, 20000, 2, 0).max == 15000;
    hide Split;
    NoOverlapIff(10000, 20000, 2, 18000);
  }

  // ---------------------------------------------------------------- the factory

  class Factory {
    const lo: uint16
    const hi: uint16
    var engines: seq<nat>
    var slots: seq<Range>

    /** The slots have the ranges of the split, wherever their cursors are. */
    ghost predicate Valid()
      reads this
    {
      && lo <= hi && |engines| == |slots|
      && (forall i :: 0 <= i < |slots| ==> slots[i] == Split(lo, hi, |slots|, i).(cur := slots[i].cur))
    }

    constructor (lo: uint16, hi: uint16)
      requires lo <= hi
      ensures Valid() && this.lo == lo && this.hi == hi && engines == []
    {
      this.lo, this.hi, engines, slots := lo, hi, [], [];
    }

    /** Gives an engine a range of its own, splitting the whole range evenly anew. The cursors start
        over, except that of the first slot, which stays where it is. */
    method EngineAssign(engine: nat)
      requires Valid()
      modifies this
      ensures Valid()
      ensures engine in old(engines) ==> engines == old(engines) && slots == old(slots)
      ensures engine !in old(engines) ==> engines == old(engines) + [engine]
      ensures engine !in old(engines) ==>
                var cur := if old(slots) == [] then lo else old(slots)[0].cur;
                forall i :: 0 <= i < |slots| ==> slots[i] == Assigned(lo, hi, |slots|, i, cur)
    {
      if engine in engines { return; }
      hide Split, PerEngine;
      var n := |slots| + 1;
      SplitEach(lo, hi, n, 0);
      if n > 1 { SplitEach(lo, hi, n - 1, 0); }
      engines, slots := engines + [engine], slots + [Range(lo, hi, lo)];
      ghost var cur := slots[0].cur;
      if n > 1 {
        var p := PerEngine(lo, hi, n);
        slots := slots[0 := slots[0].(max := slots[0].min + p)];
        var i := 1;
        while i < n - 1
          invariant 1 <= i <= n - 1 && n == |slots| == |engines| && engines == old(engines) + [engine]
          invariant slots[0] == Split(lo, hi, n, 0).(cur := cur)
          invariant forall a :: 1 <= a < i ==> slots[a] == Split(lo, hi, n, a)
          invariant slots[n - 1] == Range(lo, hi, lo)
        {
          SplitEach(lo, hi, n, i - 1);
          SplitEach(lo, hi, n, i);
          var min := slots[i - 1].max;
          slots := slots[i := Range(min, min + p, min)];
          i := i + 1;
        }
        SplitEach(lo, hi, n, n - 2);
        SplitEach(lo, hi, n, n - 1);
        var min := slots[n - 2].max;
        slots := slots[n - 1 := slots[n - 1].(min := min, cur := min)];
      }
    }

    /** Looks for a pair of engine `e` that can be bound, from the cursor once around its range. */
    method Search(e: nat, bindable: set<uint16>) returns (ok: bool, port: uint16)
      requires e < |slots| && Closed(slots[e]) && OnGrid(slots[e], slots[e].cur)
      modifies `slots
      ensures |slots| == |old(slots)| && slots == old(slots)[e := old(slots)[e].(cur := slots[e].cur)]
      ensures OnGrid(slots[e], slots[e].cur)
      ensures ok ==> port in bindable && Found(old(slots)[e], bindable, port, slots[e].cur)
      ensures !ok ==> slots == old(slots) && forall k :: 0 <= k < Pairs(slots[e]) ==> PairAt(slots[e], k) !in bindable
    {
      hide NextPort, OnGrid, Cursor, Pairs;
      var r := slots[e];
      ghost var n, i := Pairs(r), 0;
      var cur := r.cur;
      FullTurn(r);
      CursorStarts(r);
      while true
        invariant 0 <= i < n && cur == Cursor(r, i) && slots == old(slots)
        invariant forall j :: 0 <= j < i ==> Cursor(r, j) !in bindable
        decreases n - i
      {
        StaysOnGrid(r, i + 1);
        port := cur;
        cur := NextPort(r, cur);
        if port in bindable {
          slots := slots[e := r.(cur := cur)];
          CursorAside(r, slots[e], cur);
          return true, port;
        }
        i := i + 1;
        if r.cur == cur { break; }
      }
      forall k | 0 <= k < n ensures PairAt(r, k) !in bindable { OffersEach(r, k); }
      ok := false;
    }
  }

  /** The first pair on the way that can be bound, the cursor being left at the one after it. */
  ghost predicate Found(r: Range, bindable: set<uint16>, port: uint16, next: uint16)
    requires Closed(r)
  {
    && next == NextPort(r, port)
    && exists i :: 0 <= i < Pairs(r) && port == Cursor(r, i) && forall j :: 0 <= j < i ==> Cursor(r, j) !in bindable
  }

  lemma CursorStarts(r: Range)
    requires Closed(r)
    ensures Cursor(r, 0) == r.cur && Pairs(r) > 0
  {
  }

  lemma CursorAside(r: Range, s: Range, port: uint16)
    requires s.min == r.min && s.max == r.max
    ensures OnGrid(r, port) <==> OnGrid(s, port)
  {
  }

  lemma StaysOnGrid(r: Range, i: nat)
    requires Closed(r) && OnGrid(r, r.cur) && 0 < i <= Pairs(r)
    ensures Cursor(r, i) == NextPort(r, Cursor(r, i - 1)) && OnGrid(r, Cursor(r, i))
  {
    CursorTurns(r, i);
  }

  /** The range of an engine from that of the one before it. */
  lemma SplitEach(lo: uint16, hi: uint16, n: nat, i: nat)
    requires lo <= hi && i < n
    ensures var r, p := Split(lo, hi, n, i), PerEngine(lo, hi, n);
            && r.cur == r.min && r.min + p <= hi
            && r.max == (if i == n - 1 then hi else r.min + p)
            && (i == 0 ==> r.min == lo)
            && (i < n - 1 ==> Split(lo, hi, n, i + 1).min == r.max)
  {
    SplitFits(lo, hi, n, i);
    var p := PerEngine(lo, hi, n);
    assert i * p + p == (i + 1) * p;
  }
}
