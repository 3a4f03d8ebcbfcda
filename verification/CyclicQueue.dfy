/** The growable ring of pointers behind the request queue. */
module CyclicQueue {
  import opened Options
  import opened Arith

  const DEFAULT_SIZE := 100

  /** Index of the `i`th element after `tail` in a ring of `max` entries. */
  function Slot(tail: nat, i: nat, max: nat): (k: nat)
    requires max > 0
    ensures k < max
  {
    (tail + i) % max
  }

  lemma SlotInjective(tail: nat, i: nat, j: nat, max: nat)
    requires i < max && j < max && Slot(tail, i, max) == Slot(tail, j, max)
    ensures i == j
  {
    ModInjective(tail + i, tail + j, max);
  }

  lemma SlotWraps(tail: nat, i: nat, max: nat)
    requires tail < max && i <= max
    ensures Slot(tail, i, max) == if tail + i < max then tail + i else tail + i - max
  {
    if tail + i >= max {
      DivModUnique(tail + i, max, 1, tail + i - max);
    }
  }

  lemma SlotNext(tail: nat, i: nat, max: nat)
    requires tail < max && i < max
    ensures Slot(Slot(tail, i, max), 1, max) == Slot(tail, i + 1, max)
    ensures Slot(Slot(tail, 1, max), i, max) == Slot(tail, i + 1, max)
  {
    hide Slot;
    SlotWraps(tail, i, max);
    SlotWraps(tail, 1, max);
    SlotWraps(tail, i + 1, max);
    SlotWraps(Slot(tail, i, max), 1, max);
    SlotWraps(Slot(tail, 1, max), i, max);
  }

  function Grown(max: nat): nat { max + max / 2 }

  /** Growing makes room if and only if there were at least two entries. */
  lemma GrownIff(max: nat)
    ensures Grown(max) > max <==> max >= 2
  {
  }

  class Queue<T(0)> {
    var data: array<T>
    var maxSize: nat
    var actualSize: nat
    var head: nat
    var tail: nat

    ghost predicate Valid()
      reads this
    {
      && data.Length == maxSize > 0
      && actualSize <= maxSize && tail < maxSize && head == Slot(tail, actualSize, maxSize)
    }

    /** What the queue holds, oldest first. */
    ghost function Contents(): (s: seq<T>)
      requires Valid()
      reads this, data
      ensures |s| == actualSize
    {
      var d, first, n, max := data[..], tail, actualSize, maxSize;
      seq(n, i requires 0 <= i < n => d[Slot(first, i, max)])
    }

    constructor (size: nat)
      requires size > 0
      ensures Valid() && fresh(data) && Contents() == [] && maxSize == size
    {
      data := new T[size];
      maxSize, actualSize, head, tail := size, 0, 0, 0;
    }

    method Push(obj: T)
      requires Valid() && (actualSize < maxSize || Grown(maxSize) > maxSize)
      modifies this, data
      ensures Valid() && (data == old(data) || fresh(data)) && maxSize >= old(maxSize)
      ensures Contents() == old(Contents()) + [obj]
    {
      GrownIff(maxSize);
      if actualSize >= maxSize { Resize(); }
      hide Slot;
      ghost var s := Contents();
      forall i | 0 <= i < actualSize ensures Slot(tail, i, maxSize) != head {
        if Slot(tail, i, maxSize) == head { SlotInjective(tail, i, actualSize, maxSize); }
      }
      SlotNext(tail, actualSize, maxSize);
      data[head] := obj;
      head := Slot(head, 1, maxSize);
      actualSize := actualSize + 1;
      assert Contents() == s + [obj];
    }

    method Pop() returns (obj: Option<T>)
      requires Valid()
      modifies `tail, `actualSize
      ensures Valid()
      ensures old(Contents()) == [] ==> obj == None && Contents() == []
      ensures old(Contents()) != [] ==> obj.Some? && old(Contents()) == [obj.value] + Contents()
    {
      if actualSize == 0 { return None; }
      hide Slot;
      SlotWraps(tail, 0, maxSize);
      obj := Some(data[tail]);
      ghost var s, was := Contents(), tail;
      SlotNext(tail, actualSize - 1, maxSize);
      tail := Slot(tail, 1, maxSize);
      actualSize := actualSize - 1;
      forall i | 0 <= i < actualSize ensures Contents()[i] == s[i + 1] { SlotNext(was, i, maxSize); }
      assert s == [s[0]] + Contents();
    }

    method Clear()
      requires Valid()
      modifies `actualSize, `head, `tail
      ensures Valid() && Contents() == []
    {
      actualSize, head, tail := 0, 0, 0;
    }

    /** Despite its name, true when the queue holds something. */
    method IsEmpty() returns (b: bool)
      requires Valid()
      ensures b <==> Contents() != []
    {
      b := actualSize != 0;
    }

    /** Moves the elements of a full ring to the front of a larger one. */
    method Resize()
      requires Valid() && actualSize == maxSize
      modifies this
      ensures data.Length == maxSize == Grown(old(maxSize)) && fresh(data)
      ensures tail == 0 && actualSize == head == old(maxSize)
      ensures forall i :: 0 <= i < actualSize ==> data[i] == old(Contents())[i]
      ensures Valid() <==> Grown(old(maxSize)) > old(maxSize)
      ensures Valid() ==> Contents() == old(Contents())
    {
      GrownIff(maxSize);
      var n, offset := Grown(maxSize), maxSize - head;
      var more := new T[n];
      SlotWraps(tail, maxSize, maxSize);
      forall i | 0 <= i < offset { more[i] := data[head + i]; }
      forall i | 0 <= i < head { more[offset + i] := data[i]; }
      forall i | 0 <= i < maxSize ensures more[i] == Contents()[i] { SlotWraps(tail, i, maxSize); }
      tail, head, maxSize, data := 0, maxSize, n, more;
      if head >= 2 {
        SlotWraps(0, actualSize, maxSize);
        forall i | 0 <= i < actualSize ensures Slot(0, i, maxSize) == i { SlotWraps(0, i, maxSize); }
      }
    }
  }
}
