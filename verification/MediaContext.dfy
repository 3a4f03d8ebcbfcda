/** The media context: terminations in slots, an association matrix with cached row and column
    counts, and the topology of media objects derived from it. */
module MediaContext {
  import opened Options
  import opened Machine

  const NO_SLOT: int := 0xFFFF_FFFF_FFFF_FFFF

  /** A termination: its slot, and whether its audio stream can be received from and sent to. */
  class Termination {
    var slot: nat
    var receives: bool
    var sends: bool

    constructor (receives: bool, sends: bool)
      ensures slot == NO_SLOT && this.receives == receives && this.sends == sends
    {
      slot := NO_SLOT;
      this.receives, this.sends := receives, sends;
    }
  }

  /** Header of a row and column of the matrix. */
  datatype Item = Item(termination: Option<Termination>, tx: uint8, rx: uint8)

  const VACANT := Item(None, 0, 0)

  type Matrix = seq<seq<bool>>

  predicate Square(on: Matrix, n: nat) { |on| == n && forall i :: 0 <= i < n ==> |on[i]| == n }

  // ---------------------------------------------------------------- counting

  function Count(row: seq<bool>): (n: nat)
    ensures n <= |row|
  {
    if row == [] then 0 else Count(row[..|row| - 1]) + if row[|row| - 1] then 1 else 0
  }

  function Column(on: Matrix, j: nat): (c: seq<bool>)
    requires forall i :: 0 <= i < |on| ==> j < |on[i]|
    ensures |c| == |on|
  {
    seq(|on|, i requires 0 <= i < |on| => on[i][j])
  }

  function Occupied(h: seq<Item>): seq<bool> { seq(|h|, i requires 0 <= i < |h| => h[i].termination.Some?) }

  lemma {:induction false} CountUpdate(row: seq<bool>, j: nat, b: bool)
    requires j < |row|
    ensures Count(row[j := b]) == Count(row) + (if b then 1 else 0) - (if row[j] then 1 else 0)
  {
    var last := |row| - 1;
    assert row[j := b][..last] == if j == last then row[..last] else row[..last][j := b];
    if j < last { CountUpdate(row[..last], j, b); }
  }

  lemma {:induction false} CountAtLeast(row: seq<bool>, j: nat)
    requires j < |row|
    ensures row[j] ==> Count(row) >= 1
    ensures !row[j] ==> Count(row) < |row|
    ensures forall k :: 0 <= k < |row| && k != j && row[j] && row[k] ==> Count(row) >= 2
  {
    var without := row[j := false];
    CountUpdate(row, j, false);
    CountUpdate(row, j, true);
    forall k | 0 <= k < |row| && k != j && row[k] ensures Count(without) >= 1 {
      CountPositive(without, k);
    }
  }

  lemma {:induction false} CountPositive(row: seq<bool>, j: nat)
    requires j < |row| && row[j]
    ensures Count(row) >= 1
  {
    if j < |row| - 1 { CountPositive(row[..|row| - 1], j); }
  }

  lemma {:induction false} CountZero(row: seq<bool>)
    ensures Count(row) == 0 <==> forall j :: 0 <= j < |row| ==> !row[j]
  {
    if row != [] {
      CountZero(row[..|row| - 1]);
      forall j | 0 <= j < |row| && row[j] ensures Count(row) >= 1 { CountPositive(row, j); }
    }
  }

  // ---------------------------------------------------------------- the invariant

  ghost predicate RowsCounted(h: seq<Item>, on: Matrix)
    requires Square(on, |h|)
  {
    forall i :: 0 <= i < |h| ==> h[i].tx as nat == Count(on[i])
  }

  ghost predicate ColumnsCounted(h: seq<Item>, on: Matrix)
    requires Square(on, |h|)
  {
    forall j :: 0 <= j < |h| ==> h[j].rx as nat == Count(Column(on, j))
  }

  /** Edges connect occupied slots only. */
  ghost predicate Attached(h: seq<Item>, on: Matrix)
    requires Square(on, |h|)
  {
    forall i, j :: 0 <= i < |h| && 0 <= j < |h| ==> BothThere(h, on, i, j)
  }

  /** An edge from slot `i` to slot `j` has both its ends. */
  predicate BothThere(h: seq<Item>, on: Matrix, i: nat, j: nat)
    requires Square(on, |h|) && i < |h| && j < |h|
  {
    on[i][j] ==> h[i].termination.Some? && h[j].termination.Some?
  }

  /** What every run of the context keeps: cached counts equal row and column sums, vacant
      slots have no edges, and `count` is the number of occupied slots. */
  ghost predicate Consistent(h: seq<Item>, on: Matrix, count: nat) {
    && Square(on, |h|)
    && RowsCounted(h, on) && ColumnsCounted(h, on) && Attached(h, on)
    && count == Count(Occupied(h))
  }

  function Set(on: Matrix, i: nat, j: nat, b: bool): (r: Matrix)
    requires i < |on| && j < |on[i]|
    ensures Square(on, |on|) ==> Square(r, |on|)
  {
    on[i := on[i][j := b]]
  }

  lemma ColumnSet(on: Matrix, n: nat, i: nat, j: nat, b: bool)
    requires Square(on, n) && i < n && j < n
    ensures forall k :: 0 <= k < n ==>
              Column(Set(on, i, j, b), k) == if k == j then Column(on, k)[i := b] else Column(on, k)
  {
  }

  function Bit(b: bool): nat { if b then 1 else 0 }

  function Counted(h: seq<Item>, i: nat, j: nat, tx: uint8, rx: uint8): (r: seq<Item>)
    requires i < |h| && j < |h|
    ensures |r| == |h|
  {
    var h1 := h[i := h[i].(tx := tx)];
    h1[j := h1[j].(rx := rx)]
  }

  lemma CountersInRange(h: seq<Item>, on: Matrix, count: nat, i: nat, j: nat)
    requires Consistent(h, on, count) && i < |h| && j < |h|
    ensures on[i][j] ==> h[i].tx >= 1 && h[j].rx >= 1
    ensures !on[i][j] ==> h[i].tx as nat < |h| && h[j].rx as nat < |h|
  {
    CountAtLeast(on[i], j);
    CountAtLeast(Column(on, j), i);
  }

  lemma RowsKeep(h: seq<Item>, on: Matrix, i: nat, j: nat, b: bool, tx: uint8, rx: uint8)
    requires Square(on, |h|) && RowsCounted(h, on) && i < |h| && j < |h|
    requires tx as nat == h[i].tx as nat + Bit(b) - Bit(on[i][j])
    ensures RowsCounted(Counted(h, i, j, tx, rx), Set(on, i, j, b))
  {
    CountUpdate(on[i], j, b);
    hide Count;
  }

  lemma ColumnsKeep(h: seq<Item>, on: Matrix, i: nat, j: nat, b: bool, tx: uint8, rx: uint8)
    requires Square(on, |h|) && ColumnsCounted(h, on) && i < |h| && j < |h|
    requires rx as nat == h[j].rx as nat + Bit(b) - Bit(on[i][j])
    ensures ColumnsCounted(Counted(h, i, j, tx, rx), Set(on, i, j, b))
  {
    CountUpdate(Column(on, j), i, b);
    ColumnSet(on, |h|, i, j, b);
    hide Count, Column, Set;
  }

  lemma AttachedKeeps(h: seq<Item>, on: Matrix, i: nat, j: nat, b: bool, tx: uint8, rx: uint8)
    requires Square(on, |h|) && Attached(h, on) && i < |h| && j < |h|
    requires b ==> h[i].termination.Some? && h[j].termination.Some?
    ensures Attached(Counted(h, i, j, tx, rx), Set(on, i, j, b))
    ensures Occupied(Counted(h, i, j, tx, rx)) == Occupied(h)
  {
    hide Counted, Set;
    var h1, on1 := Counted(h, i, j, tx, rx), Set(on, i, j, b);
    CountedStays(h, i, j, tx, rx);
    forall k, l | 0 <= k < |h| && 0 <= l < |h| ensures BothThere(h1, on1, k, l) {
      SetAt(on, i, j, b, k, l);
      assert BothThere(h, on, k, l);
    }
    assert forall k :: 0 <= k < |h| ==> Occupied(h1)[k] == Occupied(h)[k];
  }

  lemma CountedStays(h: seq<Item>, i: nat, j: nat, tx: uint8, rx: uint8)
    requires i < |h| && j < |h|
    ensures forall k :: 0 <= k < |h| ==> Counted(h, i, j, tx, rx)[k].termination == h[k].termination
  {
  }

  lemma SetAt(on: Matrix, i: nat, j: nat, b: bool, k: nat, l: nat)
    requires Square(on, |on|) && i < |on| && j < |on| && k < |on| && l < |on|
    ensures Set(on, i, j, b)[k][l] == if k == i && l == j then b else on[k][l]
  {
  }

  /** Changing one edge and the two counters that belong to it keeps the invariant. */
  lemma EdgeKeeps(h: seq<Item>, on: Matrix, count: nat, i: nat, j: nat, b: bool, tx: uint8, rx: uint8)
    requires Consistent(h, on, count) && i < |h| && j < |h|
    requires b ==> h[i].termination.Some? && h[j].termination.Some?
    requires tx as nat == h[i].tx as nat + Bit(b) - Bit(on[i][j])
    requires rx as nat == h[j].rx as nat + Bit(b) - Bit(on[i][j])
    ensures Consistent(Counted(h, i, j, tx, rx), Set(on, i, j, b), count)
  {
    RowsKeep(h, on, i, j, b, tx, rx);
    ColumnsKeep(h, on, i, j, b, tx, rx);
    AttachedKeeps(h, on, i, j, b, tx, rx);
    hide RowsCounted, ColumnsCounted, Attached, Count, Occupied, Counted, Set;
  }

  // ---------------------------------------------------------------- the topology

  /** Media objects, streams being named by the slots they belong to. */
  datatype MediaObject =
    | Bridge(source: nat, sink: nat)
    | Multiplier(source: nat, sinks: seq<nat>)
    | Mixer(sources: seq<nat>, sink: nat)

  /** Indices of the set entries below `n`, in order. */
  function Indices(row: seq<bool>, n: nat): (r: seq<nat>)
    requires n <= |row|
    ensures |r| == Count(row[..n])
  {
    if n == 0 then []
    else
      assert row[..n][..n - 1] == row[..n - 1];
      Indices(row, n - 1) + if row[n - 1] then [n - 1] else []
  }

  predicate Carries(o: MediaObject, i: nat, j: nat) {
    match o
    case Bridge(source, sink) => source == i && sink == j
    case Multiplier(source, sinks) => source == i && j in sinks
    case Mixer(sources, sink) => sink == j && i in sources
  }

  /** How many objects carry audio from `i` to `j`. */
  function Carriers(os: seq<MediaObject>, i: nat, j: nat): nat {
    if os == [] then 0 else Carriers(os[..|os| - 1], i, j) + Bit(Carries(os[|os| - 1], i, j))
  }

  function FirstSet(row: seq<bool>, from: nat): (j: nat)
    requires from <= |row|
    ensures from <= j <= |row| && (j < |row| ==> row[j])
    ensures forall k :: from <= k < j ==> !row[k]
    decreases |row| - from
  {
    if from == |row| || row[from] then from else FirstSet(row, from + 1)
  }

  /** The object by which slot `i` sends: none, a bridge, or a multiplier. A single edge into a
      mixed slot is left to the mixer. */
  function Senders(h: seq<Item>, on: Matrix, i: nat): seq<MediaObject>
    requires Square(on, |h|) && i < |h|
  {
    if h[i].tx == 0 then []
    else if h[i].tx == 1 then
      var j := FirstSet(on[i], 0);
      if j == |h| || h[j].rx > 1 then [] else [Bridge(i, j)]
    else [Multiplier(i, Indices(on[i], |h|))]
  }

  function Mixers(h: seq<Item>, on: Matrix, j: nat): seq<MediaObject>
    requires Square(on, |h|) && j < |h|
  {
    if h[j].rx > 1 then [Mixer(Indices(Column(on, j), |h|), j)] else []
  }

  function SlotObjects(h: seq<Item>, on: Matrix, k: nat): seq<MediaObject>
    requires Square(on, |h|) && k < |h|
  {
    if h[k].termination.None? then [] else Senders(h, on, k) + Mixers(h, on, k)
  }

  /** The objects for the first `n` slots. */
  function Topology(h: seq<Item>, on: Matrix, n: nat): seq<MediaObject>
    requires Square(on, |h|) && n <= |h|
  {
    if n == 0 then [] else Topology(h, on, n - 1) + SlotObjects(h, on, n - 1)
  }

  lemma {:induction false} CarriersAppend(a: seq<MediaObject>, b: seq<MediaObject>, i: nat, j: nat)
    ensures Carriers(a + b, i, j) == Carriers(a, i, j) + Carriers(b, i, j)
  {
    if b == [] {
      assert a + b == a;
    } else {
      var last := |b| - 1;
      assert (a + b)[..|a + b| - 1] == a + b[..last];
      CarriersAppend(a, b[..last], i, j);
    }
  }

  ghost predicate Ascending(s: seq<nat>) { forall a, b :: 0 <= a < b < |s| ==> s[a] < s[b] }

  lemma {:induction false} IndicesMembers(row: seq<bool>, n: nat)
    requires n <= |row|
    ensures forall k :: k in Indices(row, n) <==> 0 <= k < n && row[k]
  {
    if n > 0 { IndicesMembers(row, n - 1); }
  }

  lemma {:induction false} IndicesAscend(row: seq<bool>, n: nat)
    requires n <= |row|
    ensures Ascending(Indices(row, n))
  {
    if n == 0 {
    } else {
      IndicesAscend(row, n - 1);
      IndicesMembers(row, n - 1);
      hide Ascending;
      AscendingNext(Indices(row, n - 1), n - 1);
    }
  }

  lemma AscendingNext(s: seq<nat>, n: nat)
    requires Ascending(s) && forall k :: k in s ==> k < n
    ensures Ascending(s + [n])
  {
    assert forall a :: 0 <= a < |s| ==> s[a] in s;
  }

  predicate Sends(h: seq<Item>, on: Matrix, i: nat, j: nat)
    requires Square(on, |h|) && i < |h| && j < |h|
  {
    on[i][j] && (h[i].tx > 1 || h[j].rx <= 1)
  }

  lemma SingleEdge(row: seq<bool>, j: nat)
    requires Count(row) == 1 && j < |row|
    ensures FirstSet(row, 0) < |row| && (row[j] <==> FirstSet(row, 0) == j)
  {
    var first := FirstSet(row, 0);
    CountZero(row);
    if first < |row| { CountAtLeast(row, first); }
  }

  lemma SendersCarry(h: seq<Item>, on: Matrix, count: nat, k: nat, i: nat, j: nat)
    requires Consistent(h, on, count) && k < |h| && i < |h| && j < |h|
    ensures Carriers(Senders(h, on, k), i, j) == Bit(k == i && Sends(h, on, i, j))
  {
    CountZero(on[k]);
    if h[k].tx == 1 { SingleEdge(on[k], j); }
    IndicesMembers(on[k], |h|);
    CarriersOne(Multiplier(k, Indices(on[k], |h|)), i, j);
    CarriersOne(Bridge(k, FirstSet(on[k], 0)), i, j);
    hide Count, ColumnsCounted, Attached, Occupied, Indices, FirstSet, Carriers;
  }

  lemma CarriersOne(o: MediaObject, i: nat, j: nat)
    ensures Carriers([o], i, j) == Bit(Carries(o, i, j)) && Carriers([], i, j) == 0
  {
    assert [o][..0] == [];
  }

  lemma MixersCarry(h: seq<Item>, on: Matrix, count: nat, k: nat, i: nat, j: nat)
    requires Consistent(h, on, count) && k < |h| && i < |h| && j < |h|
    ensures Carriers(Mixers(h, on, k), i, j) == Bit(k == j && on[i][j] && h[j].rx > 1)
  {
    IndicesMembers(Column(on, k), |h|);
  }

  lemma SlotCarries(h: seq<Item>, on: Matrix, count: nat, k: nat, i: nat, j: nat)
    requires Consistent(h, on, count) && k < |h| && i < |h| && j < |h|
    ensures Carriers(SlotObjects(h, on, k), i, j)
              == Bit(k == i && Sends(h, on, i, j)) + Bit(k == j && on[i][j] && h[j].rx > 1)
  {
    assert BothThere(h, on, i, j);
    if h[k].termination.Some? {
      SendersCarry(h, on, count, k, i, j);
      MixersCarry(h, on, count, k, i, j);
      CarriersAppend(Senders(h, on, k), Mixers(h, on, k), i, j);
      hide Senders, Mixers, Carriers, Sends;
    }
  }

  lemma {:induction false} TopologyCarries(h: seq<Item>, on: Matrix, count: nat, n: nat, i: nat, j: nat)
    requires Consistent(h, on, count) && Square(on, |h|) && n <= |h| && i < |h| && j < |h|
    ensures Carriers(Topology(h, on, n), i, j)
              == Bit(i < n && Sends(h, on, i, j)) + Bit(j < n && on[i][j] && h[j].rx > 1)
  {
    hide Consistent, SlotObjects, Sends;
    if n > 0 {
      TopologyCarries(h, on, count, n - 1, i, j);
      CarriersAppend(Topology(h, on, n - 1), SlotObjects(h, on, n - 1), i, j);
      SlotCarries(h, on, count, n - 1, i, j);
    }
  }

  /** The topology covers the matrix: an edge is carried by exactly one object, or by two if it
      both fans out and is mixed; where there is no edge, nothing is carried. */
  lemma TopologyCovers(h: seq<Item>, on: Matrix, count: nat, i: nat, j: nat)
    requires Consistent(h, on, count) && i < |h| && j < |h|
    ensures Carriers(Topology(h, on, |h|), i, j) == if !on[i][j] then 0 else if h[i].tx > 1 && h[j].rx > 1 then 2 else 1
  {
    TopologyCarries(h, on, count, |h|, i, j);
    CountersInRange(h, on, count, i, j);
  }

  lemma IndicesAll(row: seq<bool>)
    ensures var r := Indices(row, |row|);
            |r| == Count(row) && Ascending(r) && forall j :: j in r <==> 0 <= j < |row| && row[j]
  {
    IndicesAscend(row, |row|);
    IndicesMembers(row, |row|);
    assert row[..|row|] == row;
  }

  /** The arrays of a multiplier and of a mixer are filled completely, without duplicates, with
      exactly the partners of the slot. */
  lemma ArraysFilled(h: seq<Item>, on: Matrix, count: nat, k: nat)
    requires Consistent(h, on, count) && k < |h|
    ensures var sinks := Indices(on[k], |h|);
            |sinks| == h[k].tx as nat && Ascending(sinks) && forall j :: j in sinks <==> 0 <= j < |h| && on[k][j]
    ensures var sources := Indices(Column(on, k), |h|);
            |sources| == h[k].rx as nat && Ascending(sources) && forall i :: i in sources <==> 0 <= i < |h| && on[i][k]
  {
    hide Consistent, Indices, Count, Ascending;
    SquareOf(h, on, count);
    RowTotal(h, on, count, k);
    IndicesAll(on[k]);
    IndicesAll(Column(on, k));
  }

  /** Which object carries what: a bridge between a slot that sends nowhere else and one that receives from
      nowhere else, a multiplier to all of several sinks, a mixer of all of several sources. */
  ghost predicate Fitting(on: Matrix, o: MediaObject)
    requires Square(on, |on|)
  {
    match o
    case Bridge(i, j) =>
      i < |on| && j < |on| && Count(on[i]) == 1 && on[i][j] && Count(Column(on, j)) == 1
    case Multiplier(i, sinks) =>
      i < |on| && Count(on[i]) > 1 && |sinks| == Count(on[i]) && forall j :: j in sinks <==> 0 <= j < |on| && on[i][j]
    case Mixer(sources, j) =>
      && j < |on| && Count(Column(on, j)) > 1 && |sources| == Count(Column(on, j))
      && forall i :: i in sources <==> 0 <= i < |on| && on[i][j]
  }

  ghost predicate AllFitting(on: Matrix, os: seq<MediaObject>)
    requires Square(on, |on|)
  {
    forall k :: 0 <= k < |os| ==> Fitting(on, os[k])
  }

  lemma SendersFit(h: seq<Item>, on: Matrix, count: nat, k: nat)
    requires Consistent(h, on, count) && Square(on, |h|) && Square(on, |on|) && k < |h|
    ensures AllFitting(on, Senders(h, on, k))
  {
    hide Attached, Occupied, Count, Indices, Column;
    ArraysFilled(h, on, count, k);
    SquareOf(h, on, count);
    if h[k].tx == 1 {
      var j := FirstSet(on[k], 0);
      if j < |h| && h[j].rx <= 1 { EdgeCounted(h, on, count, k, j); }
    }
  }

  lemma EdgeCounted(h: seq<Item>, on: Matrix, count: nat, i: nat, j: nat)
    requires Consistent(h, on, count) && Square(on, |h|) && i < |h| && j < |h| && on[i][j] && h[j].rx <= 1
    ensures Count(Column(on, j)) == 1
  {
    CountPositive(Column(on, j), i);
    hide Count;
  }

  lemma MixersFit(h: seq<Item>, on: Matrix, count: nat, k: nat)
    requires Consistent(h, on, count) && Square(on, |h|) && Square(on, |on|) && k < |h|
    ensures AllFitting(on, Mixers(h, on, k))
  {
    hide Attached, Occupied, Count, Indices, Column;
    ArraysFilled(h, on, count, k);
    SquareOf(h, on, count);
  }

  /** Every object of the topology fits the matrix. */
  lemma {:induction false} ObjectsFit(h: seq<Item>, on: Matrix, count: nat, n: nat)
    requires Consistent(h, on, count) && Square(on, |h|) && Square(on, |on|) && n <= |h|
    ensures AllFitting(on, Topology(h, on, n))
  {
    hide Consistent, Senders, Mixers, AllFitting;
    NoneFit(on);
    if n > 0 {
      ObjectsFit(h, on, count, n - 1);
      SendersFit(h, on, count, n - 1);
      MixersFit(h, on, count, n - 1);
      BothFit(on, Senders(h, on, n - 1), Mixers(h, on, n - 1));
      BothFit(on, Topology(h, on, n - 1), SlotObjects(h, on, n - 1));
    }
  }

  lemma NoneFit(on: Matrix)
    requires Square(on, |on|)
    ensures AllFitting(on, [])
  {
  }

  lemma BothFit(on: Matrix, a: seq<MediaObject>, b: seq<MediaObject>)
    requires Square(on, |on|) && AllFitting(on, a) && AllFitting(on, b)
    ensures AllFitting(on, a + b)
  {
    hide Fitting;
  }

  // ---------------------------------------------------------------- the context itself

  /** `s` with row and column `i` cleared. */
  function Cleared(on: Matrix, i: nat): (r: Matrix)
    requires forall k :: 0 <= k < |on| ==> |on[k]| == |on|
    ensures Square(r, |on|)
  {
    seq(|on|, k requires 0 <= k < |on| => seq(|on|, l requires 0 <= l < |on| => on[k][l] && k != i && l != i))
  }

  function AllOff(n: nat): (r: Matrix)
    ensures Square(r, n)
  {
    seq(n, _ => seq(n, _ => false))
  }

  class Context {
    const capacity: nat
    const header: array<Item>
    const matrix: array2<bool>
    var count: nat
    var objects: seq<MediaObject>

    ghost function Edges(): (on: Matrix)
      reads matrix
      requires matrix.Length0 == matrix.Length1
      ensures Square(on, matrix.Length0)
      ensures forall i, j :: 0 <= i < matrix.Length0 && 0 <= j < matrix.Length0 ==> on[i][j] == matrix[i, j]
    {
      seq(matrix.Length0, i requires 0 <= i < matrix.Length0 reads matrix =>
        seq(matrix.Length1, j requires 0 <= j < matrix.Length1 reads matrix => matrix[i, j]))
    }

    ghost predicate Valid()
      reads this, header, matrix
    {
      && capacity == header.Length == matrix.Length0 == matrix.Length1 <= 255
      && Consistent(header[..], Edges(), count)
    }

    constructor (maxTerminations: nat)
      requires maxTerminations <= 255
      ensures Valid() && fresh(header) && fresh(matrix) && capacity == maxTerminations && objects == []
      ensures header[..] == seq(capacity, _ => VACANT) && Edges() == AllOff(capacity) && count == 0
    {
      capacity := maxTerminations;
      header := new Item[maxTerminations](_ => VACANT);
      matrix := new bool[maxTerminations, maxTerminations]((_, _) => false);
      count, objects := 0, [];
      new;
      assert header[..] == seq(capacity, _ => VACANT);
      assert forall i :: 0 <= i < capacity ==> Edges()[i] == AllOff(capacity)[i];
      EmptyConsistent(header[..], Edges());
    }

    /** Switches one edge, together with the two counters that belong to it. */
    method SetEdge(i: nat, j: nat, b: bool)
      requires Valid() && i < capacity && j < capacity && matrix[i, j] != b
      requires b ==> header[i].termination.Some? && header[j].termination.Some?
      modifies header, matrix
      ensures Valid() && Edges() == Set(old(Edges()), i, j, b)
      ensures forall k :: 0 <= k < capacity ==> header[k].termination == old(header[k].termination)
    {
      hide Consistent, Counted, Set, Edges, Square;
      ghost var h, on := header[..], Edges();
      SquareOf(h, on, count);
      CountersInRange(h, on, count, i, j);
      var tx: uint8 := if b then header[i].tx + 1 else header[i].tx - 1;
      var rx: uint8 := if b then header[j].rx + 1 else header[j].rx - 1;
      EdgeKeeps(h, on, count, i, j, b, tx, rx);
      matrix[i, j] := b;
      header[i] := header[i].(tx := tx);
      header[j] := header[j].(rx := rx);
      CountedIs(h, header[..], i, j, tx, rx);
      SetIs(on, Edges(), i, j, b);
    }

    /** Puts a termination into the first vacant slot, if there is one. */
    method AddTermination(t: Termination) returns (ok: bool)
      requires Valid()
      modifies `count, header, t`slot
      ensures Valid() && Edges() == old(Edges())
      ensures ok <==> exists k :: 0 <= k < capacity && old(header[k].termination).None?
      ensures ok ==> t.slot < capacity && count == old(count) + 1
                     && var i := t.slot;
                        && header[..] == old(header[..])[i := Item(Some(t), 0, 0)]
                        && forall k :: 0 <= k <= i ==> old(header[k].termination).Some? == (k < i)
      ensures !ok ==> header[..] == old(header[..]) && count == old(count)
    {
      hide Consistent, Edges;
      var i := 0;
      while i < capacity
        invariant 0 <= i <= capacity && header[..] == old(header[..])
        invariant forall k :: 0 <= k < i ==> header[k].termination.Some?
      {
        if header[i].termination.None? {
          OccupyKeeps(header[..], Edges(), count, i, t);
          header[i] := Item(Some(t), 0, 0);
          t.slot := i;
          count := count + 1;
          assert header[..] == old(header[..])[i := Item(Some(t), 0, 0)];
          return true;
        }
        i := i + 1;
      }
      ok := false;
    }

    /** Takes a termination out of its slot, with all edges of the slot. */
    method SubtractTermination(t: Termination) returns (ok: bool)
      requires Valid()
      modifies `count, header, matrix, t`slot
      ensures Valid()
      ensures ok <==> old(t.slot) < capacity && old(header[t.slot].termination) == Some(t)
      ensures !ok ==>
                && header[..] == old(header[..]) && Edges() == old(Edges()) && count == old(count)
                && t.slot == old(t.slot)
      ensures ok ==> var i := old(t.slot);
                     && Edges() == Cleared(old(Edges()), i) && count == old(count) - 1 && t.slot == NO_SLOT
                     && forall k :: 0 <= k < capacity ==>
                          header[k].termination == if k == i then None else old(header[k].termination)
    {
      hide Consistent, Edges, Cleared, Set, Count;
      var i := t.slot;
      if i >= capacity || header[i].termination != Some(t) { return false; }
      ghost var on, occupied := Edges(), Occupied(header[..]);
      var j, k := 0, 0;
      while j < capacity && k < count
        invariant 0 <= j <= capacity && Valid() && count == old(count) && t.slot == i
        invariant forall l :: 0 <= l < capacity ==> header[l].termination == old(header[l].termination)
        invariant PartCleared(Edges(), on, i, j)
        invariant Occupied(header[..]) == occupied && k == Count(occupied[..j])
      {
        OccupiedStep(header[..], j);
        VacantEdges(header[..], Edges(), count, i, j);
        PartClearedStep(Edges(), on, i, j);
        if header[j].termination.Some? {
          k := k + 1;
          ClearBoth(i, j);
          assert Occupied(header[..]) == occupied;
        }
        j := j + 1;
      }
      OccupiedRest(header[..], Edges(), count, j, k);
      ClearedNow(header[..], Edges(), on, count, i, j);
      VacateKeeps(header[..], Edges(), count, i);
      ghost var h := header[..];
      header[i] := header[i].(termination := None);
      assert header[..] == h[i := h[i].(termination := None)];
      t.slot := NO_SLOT;
      count := count - 1;
      ok := true;
    }

    /** Switches off both edges between two slots, where they are on. */
    method ClearBoth(i: nat, j: nat)
      requires Valid() && i < capacity && j < capacity
      modifies header, matrix
      ensures Valid() && (forall l :: 0 <= l < capacity ==> header[l].termination == old(header[l].termination))
      ensures Edges() == Set(Set(old(Edges()), i, j, false), j, i, false)
    {
      hide Consistent, Edges;
      SetSame(Edges(), i, j);
      if matrix[i, j] { SetEdge(i, j, false); }
      SetSame(Edges(), j, i);
      if matrix[j, i] { SetEdge(j, i, false); }
    }

    /** Whether both terminations sit in this context, at the slots they say. */
    predicate BothHere(t1: Termination, t2: Termination)
      reads header, t1, t2
      requires capacity == header.Length
    {
      t1.slot < capacity && t2.slot < capacity && header[t1.slot].termination == Some(t1)
        && header[t2.slot].termination == Some(t2)
    }

    /** Connects two terminations in each direction their streams allow. */
    method AddAssociation(t1: Termination, t2: Termination) returns (ok: bool)
      requires Valid()
      modifies header, matrix
      ensures Valid() && ok == old(BothHere(t1, t2))
      ensures forall k :: 0 <= k < capacity ==> header[k].termination == old(header[k].termination)
      ensures !ok ==> Edges() == old(Edges())
      ensures ok ==> forall a, b :: 0 <= a < capacity && 0 <= b < capacity ==>
                Edges()[a][b] == (old(Edges())[a][b]
                                  || (a == t1.slot && b == t2.slot && t1.receives && t2.sends)
                                  || (a == t2.slot && b == t1.slot && t2.receives && t1.sends))
    {
      hide Consistent, Edges;
      if !BothHere(t1, t2) { return false; }
      var i, j := t1.slot, t2.slot;
      if !matrix[i, j] && t1.receives && t2.sends { SetEdge(i, j, true); }
      if !matrix[j, i] && t2.receives && t1.sends { SetEdge(j, i, true); }
      ok := true;
    }

    method RemoveAssociation(t1: Termination, t2: Termination) returns (ok: bool)
      requires Valid()
      modifies header, matrix
      ensures Valid() && ok == old(BothHere(t1, t2))
      ensures forall k :: 0 <= k < capacity ==> header[k].termination == old(header[k].termination)
      ensures !ok ==> Edges() == old(Edges())
      ensures ok ==> Edges() == Set(Set(old(Edges()), t1.slot, t2.slot, false), t2.slot, t1.slot, false)
    {
      if !BothHere(t1, t2) { return false; }
      ClearBoth(t1.slot, t2.slot);
      ok := true;
    }

    /** Switches off every edge, and destroys the topology. The scan looks at half the matrix,
        skips slots without edges and stops after the last occupied slot. */
    method ResetAssociations()
      requires Valid()
      modifies `objects, header, matrix
      ensures Valid() && objects == [] && Edges() == AllOff(capacity)
      ensures forall l :: 0 <= l < capacity ==>
                header[l].termination == old(header[l].termination) && header[l].tx == header[l].rx == 0
    {
      hide Consistent, Edges, Set, Count, AllOff;
      DestroyTopology();
      ghost var occupied := Occupied(header[..]);
      var i, k := 0, 0;
      while i < capacity && k < count
        invariant 0 <= i <= capacity && Valid() && objects == []
        invariant forall l :: 0 <= l < capacity ==> header[l].termination == old(header[l].termination)
        invariant Occupied(header[..]) == occupied && k == Count(occupied[..i])
        invariant NoEdgesBelow(Edges(), i)
      {
        OccupiedStep(header[..], i);
        IdleSlot(header[..], Edges(), count, i);
        if header[i].termination.Some? {
          k := k + 1;
          if header[i].tx != 0 || header[i].rx != 0 {
            ClearFrom(i);
            assert Occupied(header[..]) == occupied;
          }
        }
        i := i + 1;
      }
      OccupiedRest(header[..], Edges(), count, i, k);
      AllOffNow(header[..], Edges(), count, i);
      assert |header[..]| == capacity;
    }

    method ClearFrom(i: nat)
      requires Valid() && i < capacity && NoEdgesBelow(Edges(), i)
      modifies header, matrix
      ensures Valid() && NoEdgesBelow(Edges(), i + 1)
      ensures forall l :: 0 <= l < capacity ==> header[l].termination == old(header[l].termination)
    {
      hide Consistent, Edges;
      var j := i;
      while j < capacity
        invariant i <= j <= capacity && Valid() && NoEdgesBelow(Edges(), i)
        invariant forall l :: 0 <= l < capacity ==> header[l].termination == old(header[l].termination)
        invariant forall b :: i <= b < j ==> !Edges()[i][b] && !Edges()[b][i]
      {
        VacantEdges(header[..], Edges(), count, i, j);
        if header[j].termination.Some? { ClearBoth(i, j); }
        j := j + 1;
      }
    }

    method DestroyTopology()
      modifies `objects
      ensures objects == []
    {
      objects := [];
    }

    /** The bridge or multiplier by which an occupied slot sends, if any. */
    method SendersOf(i: nat) returns (out: seq<MediaObject>)
      requires Valid() && i < capacity && header[i].termination.Some?
      ensures SquareHere() && out == Senders(header[..], Edges(), i)
    {
      hide Consistent, Edges;
      SquareOf(header[..], Edges(), count);
      if header[i].tx == 0 { return []; }
      if header[i].tx == 1 {
        out := BridgeOf(i);
      } else {
        var sinks := Sinks(i);
        out := [Multiplier(i, sinks)];
      }
    }

    ghost predicate SquareHere()
      reads header, matrix
      requires matrix.Length0 == matrix.Length1
    {
      Square(Edges(), header.Length)
    }

    method BridgeOf(i: nat) returns (out: seq<MediaObject>)
      requires Valid() && i < capacity && header[i].tx == 1
      ensures SquareHere() && out == Senders(header[..], Edges(), i)
    {
      hide Consistent, Edges;
      ghost var on := Edges();
      SquareOf(header[..], on, count);
      var j := 0;
      while j < capacity
        invariant 0 <= j <= capacity && FirstSet(on[i], 0) == FirstSet(on[i], j)
      {
        VacantEdges(header[..], on, count, i, j);
        if header[j].termination.Some? && matrix[i, j] {
          return if header[j].rx > 1 then [] else [Bridge(i, j)];
        }
        j := j + 1;
      }
      out := [];
    }

    method Sinks(i: nat) returns (sinks: seq<nat>)
      requires Valid() && i < capacity
      ensures SquareHere() && sinks == Indices(Edges()[i], capacity)
    {
      hide Consistent, Edges, Count, Indices, Square;
      ghost var on := Edges();
      SquareOf(header[..], on, count);
      IndicesAll(on[i]);
      IndicesNext(on[i], 0);
      RowTotal(header[..], on, count, i);
      sinks := [];
      var j := 0;
      while j < capacity && |sinks| < header[i].tx as nat
        invariant 0 <= j <= capacity && sinks == Indices(on[i], j)
      {
        VacantEdges(header[..], on, count, i, j);
        IndicesNext(on[i], j);
        if header[j].termination.Some? && matrix[i, j] { sinks := sinks + [j]; }
        j := j + 1;
      }
      IndicesRest(on[i], j);
    }

    method Sources(j: nat) returns (sources: seq<nat>)
      requires Valid() && j < capacity
      ensures SquareHere() && sources == Indices(Column(Edges(), j), capacity)
    {
      hide Consistent, Edges, Count, Indices, Square;
      ghost var on := Edges();
      SquareOf(header[..], on, count);
      RowTotal(header[..], on, count, j);
      ghost var column := Column(on, j);
      IndicesNext(column, 0);
      sources := [];
      var i := 0;
      while i < capacity && |sources| < header[j].rx as nat
        invariant 0 <= i <= capacity && sources == Indices(column, i)
      {
        VacantEdges(header[..], on, count, j, i);
        IndicesNext(column, i);
        if header[i].termination.Some? && matrix[i, j] { sources := sources + [i]; }
        i := i + 1;
      }
      IndicesRest(column, i);
    }

    /** Rebuilds the media objects from the association matrix. */
    method ApplyTopology()
      requires Valid()
      modifies `objects
      ensures Valid() && objects == Topology(header[..], Edges(), capacity)
    {
      hide Consistent, Edges, Count, Senders;
      DestroyTopology();
      ghost var h, on := header[..], Edges();
      SquareOf(h, on, count);
      var i, k := 0, 0;
      while i < capacity && k < count
        invariant 0 <= i <= capacity && objects == Topology(h, on, i) && k == Count(Occupied(h)[..i])
      {
        OccupiedStep(h, i);
        if header[i].termination.Some? {
          k := k + 1;
          var out := SendersOf(i);
          objects := objects + out;
          if header[i].rx > 1 {
            var sources := Sources(i);
            objects := objects + [Mixer(sources, i)];
          }
        }
        TopologyStep(h, on, i);
        i := i + 1;
      }
      OccupiedRest(h, on, count, i, k);
      TopologyRest(h, on, i, capacity);
    }
  }

  ghost predicate NoEdgesBelow(on: Matrix, n: nat)
    requires Square(on, |on|)
  {
    forall a, b :: 0 <= a < |on| && 0 <= b < |on| && (a < n || b < n) ==> !on[a][b]
  }

  /** A slot that is vacant, or whose counters are both zero, has no edges. */
  lemma IdleSlot(h: seq<Item>, on: Matrix, count: nat, i: nat)
    requires Consistent(h, on, count) && i < |h| && NoEdgesBelow(on, i)
    ensures h[i].termination.None? || (h[i].tx == 0 && h[i].rx == 0) ==> NoEdgesBelow(on, i + 1)
  {
    CountZero(on[i]);
    CountZero(Column(on, i));
    if h[i].termination.None? || (h[i].tx == 0 && h[i].rx == 0) {
      forall b | 0 <= b < |h| ensures !on[i][b] && !on[b][i] {
        VacantEdges(h, on, count, b, i);
        assert Column(on, i)[b] == on[b][i];
      }
    }
    hide Count;
  }

  lemma AllOffNow(h: seq<Item>, on: Matrix, count: nat, n: nat)
    requires Consistent(h, on, count) && n <= |h| && NoEdgesBelow(on, n)
    requires forall l :: n <= l < |h| ==> h[l].termination.None?
    ensures on == AllOff(|h|) && forall l :: 0 <= l < |h| ==> h[l].tx == h[l].rx == 0
  {
    forall a, b | 0 <= a < |h| && 0 <= b < |h| ensures !on[a][b] {
      if n <= a { VacantEdges(h, on, count, b, a); }
    }
    forall a | 0 <= a < |h| ensures on[a] == AllOff(|h|)[a] && h[a].tx == h[a].rx == 0 {
      CountZero(on[a]);
      CountZero(Column(on, a));
    }
  }

  lemma RowTotal(h: seq<Item>, on: Matrix, count: nat, i: nat)
    requires Consistent(h, on, count) && i < |h|
    ensures h[i].tx as nat == Count(on[i]) && h[i].rx as nat == Count(Column(on, i))
  {
  }

  lemma IndicesNext(row: seq<bool>, n: nat)
    requires n <= |row|
    ensures Indices(row, 0) == []
    ensures n < |row| ==> Indices(row, n + 1) == Indices(row, n) + if row[n] then [n] else []
  {
  }

  /** Once as many indices have been found as there are, the others are not set. */
  lemma {:induction false} IndicesRest(row: seq<bool>, n: nat)
    requires n <= |row| && (n == |row| || |Indices(row, n)| >= Count(row))
    ensures Indices(row, n) == Indices(row, |row|)
  {
    if n < |row| {
      CountPrefix(row, n);
      IndicesSkip(row, n, |row|);
    }
  }

  lemma {:induction false} IndicesSkip(row: seq<bool>, n: nat, m: nat)
    requires n <= m <= |row| && forall j :: n <= j < m ==> !row[j]
    ensures Indices(row, n) == Indices(row, m)
  {
    if n < m { IndicesSkip(row, n, m - 1); }
  }

  lemma TopologyStep(h: seq<Item>, on: Matrix, i: nat)
    requires Square(on, |h|) && i < |h|
    ensures Topology(h, on, i + 1) == Topology(h, on, i) + SlotObjects(h, on, i)
    ensures h[i].termination.Some? ==>
              Topology(h, on, i + 1) == Topology(h, on, i) + Senders(h, on, i) + Mixers(h, on, i)
    ensures h[i].termination.None? ==> Topology(h, on, i + 1) == Topology(h, on, i)
  {
  }

  lemma {:induction false} TopologyRest(h: seq<Item>, on: Matrix, i: nat, n: nat)
    requires Square(on, |h|) && i <= n <= |h| && forall l :: i <= l < n ==> h[l].termination.None?
    ensures Topology(h, on, n) == Topology(h, on, i)
  {
    hide Topology, SlotObjects, Senders, Mixers;
    if i < n {
      TopologyRest(h, on, i, n - 1);
      TopologyStep(h, on, n - 1);
    }
  }

  lemma SetSame(on: Matrix, i: nat, j: nat)
    requires Square(on, |on|) && i < |on| && j < |on|
    ensures !on[i][j] ==> Set(on, i, j, false) == on
    ensures on[i][j] ==> Set(on, i, j, true) == on
  {
    assert on[i][j := on[i][j]] == on[i];
    assert on[i := on[i]] == on;
  }

  /** Row and column `i` have been cleared up to `j`. */
  ghost predicate PartCleared(now: Matrix, on: Matrix, i: nat, j: nat)
    requires Square(on, |on|) && Square(now, |on|)
  {
    forall a, b :: 0 <= a < |on| && 0 <= b < |on| ==>
      now[a][b] == (on[a][b] && !(a == i && b < j) && !(b == i && a < j))
  }

  lemma PartClearedStep(now: Matrix, on: Matrix, i: nat, j: nat)
    requires Square(on, |on|) && Square(now, |on|) && i < |on| && j < |on| && PartCleared(now, on, i, j)
    ensures PartCleared(Set(Set(now, i, j, false), j, i, false), on, i, j + 1)
    ensures !now[i][j] && !now[j][i] ==> PartCleared(now, on, i, j + 1)
  {
  }

  lemma OccupiedStep(h: seq<Item>, j: nat)
    requires j < |h|
    ensures Count(Occupied(h)[..j + 1]) == Count(Occupied(h)[..j]) + Bit(h[j].termination.Some?)
  {
    assert Occupied(h)[..j + 1][..j] == Occupied(h)[..j];
  }

  lemma VacantEdges(h: seq<Item>, on: Matrix, count: nat, i: nat, j: nat)
    requires Consistent(h, on, count) && i < |h| && j < |h|
    ensures h[j].termination.None? ==> !on[i][j] && !on[j][i]
  {
    assert BothThere(h, on, i, j) && BothThere(h, on, j, i);
  }

  lemma {:induction false} CountPrefix(row: seq<bool>, n: nat)
    requires n <= |row| && Count(row[..n]) >= Count(row)
    ensures forall j :: n <= j < |row| ==> !row[j]
  {
    assert row[..|row|] == row;
    if n < |row| {
      var shorter := row[..|row| - 1];
      assert shorter[..n] == row[..n];
      CountMonotone(row, n, |row| - 1);
      CountPrefix(shorter, n);
    }
  }

  lemma {:induction false} CountMonotone(row: seq<bool>, n: nat, m: nat)
    requires n <= m <= |row|
    ensures Count(row[..n]) <= Count(row[..m])
  {
    if n < m {
      CountMonotone(row, n, m - 1);
      assert row[..m][..m - 1] == row[..m - 1];
    }
  }

  /** A scan that has met as many occupied slots as there are has met them all. */
  lemma OccupiedRest(h: seq<Item>, on: Matrix, count: nat, j: nat, k: nat)
    requires Consistent(h, on, count) && j <= |h| && k == Count(Occupied(h)[..j]) && (j == |h| || k >= count)
    ensures forall l :: j <= l < |h| ==> h[l].termination.None?
  {
    hide Count, RowsCounted, ColumnsCounted, Attached;
    if j < |h| {
      CountPrefix(Occupied(h), j);
      forall l | j <= l < |h| ensures h[l].termination.None? { assert !Occupied(h)[l]; }
    }
  }

  lemma ClearedNow(h: seq<Item>, now: Matrix, on: Matrix, count: nat, i: nat, j: nat)
    requires Consistent(h, now, count) && Square(on, |h|) && i < |h| && j <= |h| && PartCleared(now, on, i, j)
    requires forall l :: j <= l < |h| ==> h[l].termination.None?
    ensures now == Cleared(on, i) && Isolated(now, i)
  {
    forall l | 0 <= l < |h| ensures !now[i][l] && !now[l][i] {
      VacantEdges(h, now, count, i, l);
    }
    hide Consistent, PartCleared, Cleared, Isolated;
    forall a | 0 <= a < |h| ensures now[a] == Cleared(on, i)[a] { ClearedRow(now, on, i, j, a); }
  }

  lemma ClearedRow(now: Matrix, on: Matrix, i: nat, j: nat, a: nat)
    requires Square(on, |on|) && Square(now, |on|) && i < |on| && a < |on|
    requires PartCleared(now, on, i, j) && Isolated(now, i)
    ensures now[a] == Cleared(on, i)[a]
  {
    hide Cleared;
    forall b | 0 <= b < |on| ensures now[a][b] == Cleared(on, i)[a][b] {
      ClearedAt(on, i, a, b);
      assert !now[a][i] && !now[i][b];
    }
  }

  lemma ClearedAt(on: Matrix, i: nat, a: nat, b: nat)
    requires Square(on, |on|) && a < |on| && b < |on|
    ensures Cleared(on, i)[a][b] == (on[a][b] && a != i && b != i)
  {
  }

  /** Neither row nor column `i` has an edge. */
  ghost predicate Isolated(on: Matrix, i: nat)
    requires Square(on, |on|) && i < |on|
  {
    forall j :: 0 <= j < |on| ==> !on[i][j] && !on[j][i]
  }

  lemma VacantIsolated(h: seq<Item>, on: Matrix, count: nat, i: nat)
    requires Consistent(h, on, count) && i < |h| && h[i].termination.None?
    ensures Isolated(on, i) && Count(on[i]) == 0 && Count(Column(on, i)) == 0
  {
    forall j | 0 <= j < |on| ensures !on[i][j] && !on[j][i] {
      assert BothThere(h, on, i, j) && BothThere(h, on, j, i);
    }
    CountZero(on[i]);
    CountZero(Column(on, i));
  }

  /** Replacing the termination of a slot without edges keeps all but the number of slots. */
  lemma ReplaceKeeps(h: seq<Item>, on: Matrix, i: nat, item: Item)
    requires Square(on, |h|) && RowsCounted(h, on) && ColumnsCounted(h, on) && Attached(h, on)
    requires i < |h| && Isolated(on, i) && item.tx == h[i].tx && item.rx == h[i].rx
    ensures var h1 := h[i := item]; RowsCounted(h1, on) && ColumnsCounted(h1, on) && Attached(h1, on)
  {
    hide Count, Column;
    var h1 := h[i := item];
    forall k, l | 0 <= k < |h| && 0 <= l < |h| ensures BothThere(h1, on, k, l) {
      assert !on[i][l] && !on[k][i];
      assert BothThere(h, on, k, l);
    }
  }

  lemma OccupyKeeps(h: seq<Item>, on: Matrix, count: nat, i: nat, t: Termination)
    requires Consistent(h, on, count) && i < |h| && h[i].termination.None?
    ensures Consistent(h[i := Item(Some(t), 0, 0)], on, count + 1)
  {
    VacantIsolated(h, on, count, i);
    ReplaceKeeps(h, on, i, Item(Some(t), 0, 0));
    assert Occupied(h[i := Item(Some(t), 0, 0)]) == Occupied(h)[i := true];
    CountUpdate(Occupied(h), i, true);
    hide Count, RowsCounted, ColumnsCounted, Attached;
  }

  lemma VacateKeeps(h: seq<Item>, on: Matrix, count: nat, i: nat)
    requires Consistent(h, on, count) && i < |h| && h[i].termination.Some? && Isolated(on, i)
    ensures count > 0 && Consistent(h[i := h[i].(termination := None)], on, count - 1)
  {
    ReplaceKeeps(h, on, i, h[i].(termination := None));
    assert Occupied(h[i := h[i].(termination := None)]) == Occupied(h)[i := false];
    CountUpdate(Occupied(h), i, false);
    hide Count, RowsCounted, ColumnsCounted, Attached;
  }

  lemma EmptyConsistent(h: seq<Item>, on: Matrix)
    requires h == seq(|h|, _ => VACANT) && on == AllOff(|h|)
    ensures Consistent(h, on, 0)
  {
    CountZero(Occupied(h));
    forall i | 0 <= i < |h| ensures Count(on[i]) == 0 && Count(Column(on, i)) == 0 {
      CountZero(on[i]);
      CountZero(Column(on, i));
    }
    hide Count;
  }

  lemma SquareOf(h: seq<Item>, on: Matrix, count: nat)
    requires Consistent(h, on, count)
    ensures |on| == |h| && forall i :: 0 <= i < |h| ==> |on[i]| == |h|
  {
  }

  lemma CountedIs(h: seq<Item>, h1: seq<Item>, i: nat, j: nat, tx: uint8, rx: uint8)
    requires i < |h| && j < |h| && |h1| == |h|
    requires forall k :: 0 <= k < |h| && k != i && k != j ==> h1[k] == h[k]
    requires i != j ==> h1[i] == h[i].(tx := tx) && h1[j] == h[j].(rx := rx)
    requires i == j ==> h1[i] == h[i].(tx := tx, rx := rx)
    ensures h1 == Counted(h, i, j, tx, rx)
  {
  }

  lemma SetIs(on: Matrix, on1: Matrix, i: nat, j: nat, b: bool)
    requires Square(on, |on|) && Square(on1, |on|) && i < |on| && j < |on|
    requires forall k, l :: 0 <= k < |on| && 0 <= l < |on| ==> on1[k][l] == if k == i && l == j then b else on[k][l]
    ensures on1 == Set(on, i, j, b)
  {
    var s := Set(on, i, j, b);
    forall k | 0 <= k < |on| ensures on1[k] == s[k] {}
  }
}
