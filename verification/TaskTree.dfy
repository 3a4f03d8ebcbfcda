/** The message-counted start, offline and online protocol over a tree of tasks. The three kinds of
    request use separate counters and messages, so each is a wave of its own through the tree. */
module TaskTree {

  // ---------------------------------------------------------------- the tree

  /** Child rings and parents; task 0 is the root, and tasks are numbered after their parents. */
  datatype Tree = Tree(ring: seq<seq<nat>>, parent: seq<nat>)

  ghost predicate Distinct(s: seq<nat>) { forall i, j :: 0 <= i < j < |s| ==> s[i] != s[j] }

  predicate ChildOf(tree: Tree, c: nat, t: nat) { 0 < c < |tree.parent| && tree.parent[c] == t }

  ghost predicate WellFormed(tree: Tree) {
    && |tree.ring| == |tree.parent| > 0
    && (forall c :: 0 < c < |tree.parent| ==> tree.parent[c] < c)
    && (forall t :: 0 <= t < |tree.ring| ==> Distinct(tree.ring[t]))
    && (forall t, i :: 0 <= t < |tree.ring| && 0 <= i < |tree.ring[t]| ==> ChildOf(tree, tree.ring[t][i], t))
    && (forall c :: 0 < c < |tree.parent| ==> c in tree.ring[tree.parent[c]])
  }

  // ---------------------------------------------------------------- one wave

  /** State of one kind of request: per task, the requests and completions in its mailbox, its
      pending counter and how often it has raised completion; `open` says whether the task would
      accept a request, and `once` that accepting one closes it, as starting does. */
  datatype Wave = Wave(requests: seq<nat>, completes: seq<nat>, pending: seq<nat>, raised: seq<nat>,
                       open: seq<bool>, once: bool)

  predicate Shape(w: Wave, n: nat) {
    |w.requests| == n && |w.completes| == n && |w.pending| == n && |w.raised| == n && |w.open| == n
  }

  /** Asks the first `i` children of task `t`, counting those that accept. */
  function Ask(tree: Tree, w: Wave, t: nat, i: nat): (r: Wave)
    requires WellFormed(tree) && Shape(w, |tree.ring|) && t < |tree.ring| && i <= |tree.ring[t]|
    ensures Shape(r, |tree.ring|) && r.once == w.once
  {
    if i == 0 then w
    else
      var r, c := Ask(tree, w, t, i - 1), tree.ring[t][i - 1];
      assert ChildOf(tree, c, t);
      if !r.open[c] then r
      else r.(requests := r.requests[c := r.requests[c] + 1],
              pending := r.pending[t := r.pending[t] + 1],
              open := r.open[c := !r.once])
  }

  /** Raises completion of `t`, telling its parent. */
  function Raise(tree: Tree, w: Wave, t: nat): (r: Wave)
    requires WellFormed(tree) && Shape(w, |tree.ring|) && t < |tree.ring|
    ensures Shape(r, |tree.ring|) && r.once == w.once
  {
    var r := w.(raised := w.raised[t := w.raised[t] + 1]);
    if t == 0 then r else var p := tree.parent[t]; r.(completes := r.completes[p := r.completes[p] + 1])
  }

  function Settle(tree: Tree, w: Wave, t: nat): (r: Wave)
    requires WellFormed(tree) && Shape(w, |tree.ring|) && t < |tree.ring|
    ensures Shape(r, |tree.ring|) && r.once == w.once
  {
    if w.pending[t] == 0 then Raise(tree, w, t) else w
  }

  datatype Action = Request(task: nat) | Complete(task: nat)

  predicate Enabled(w: Wave, a: Action) {
    match a
    case Request(t) => t < |w.requests| && w.requests[t] > 0
    case Complete(t) => t < |w.completes| && w.completes[t] > 0
  }

  /** A task takes one message out of its mailbox and processes it. */
  function Step(tree: Tree, w: Wave, a: Action): (r: Wave)
    requires WellFormed(tree) && Shape(w, |tree.ring|) && Enabled(w, a)
    ensures Shape(r, |tree.ring|) && r.once == w.once
  {
    match a
    case Request(t) =>
      var taken := w.(requests := w.requests[t := w.requests[t] - 1]);
      Settle(tree, Ask(tree, taken, t, |tree.ring[t]|), t)
    case Complete(t) =>
      var taken := w.(completes := w.completes[t := w.completes[t] - 1]);
      if taken.pending[t] == 0 then taken
      else Settle(tree, taken.(pending := taken.pending[t := taken.pending[t] - 1]), t)
  }

  // ---------------------------------------------------------------- the invariant

  predicate Fresh(w: Wave, t: nat)
    requires Shape(w, |w.requests|) && t < |w.requests|
  {
    w.requests[t] == 0 && w.pending[t] == 0 && w.raised[t] == 0
  }

  predicate Busy(w: Wave, t: nat)
    requires Shape(w, |w.requests|) && t < |w.requests|
  {
    w.requests[t] > 0 || w.pending[t] > 0
  }

  /** The task has processed the request. */
  predicate Past(w: Wave, t: nat)
    requires Shape(w, |w.requests|) && t < |w.requests|
  {
    w.requests[t] == 0 && (w.pending[t] > 0 || w.raised[t] > 0)
  }

  function Flags(w: Wave): (r: seq<bool>)
    requires Shape(w, |w.requests|)
    ensures |r| == |w.requests|
  {
    seq(|w.requests|, t requires 0 <= t < |w.requests| => Busy(w, t))
  }

  predicate At(flags: seq<bool>, c: nat) { c < |flags| && flags[c] }

  /** How many tasks of a ring have their flag set. */
  function Count(ring: seq<nat>, flags: seq<bool>): (n: nat) {
    if ring == [] then 0 else Count(ring[..|ring| - 1], flags) + if At(flags, ring[|ring| - 1]) then 1 else 0
  }

  /** What holds of a task and its children, `accepts` being `open` when the wave began: its
      pending counter is the number of children asked and not yet accounted for, that is, still
      busy or with their completion in this task's mailbox. */
  ghost predicate Local(tree: Tree, accepts: seq<bool>, w: Wave, t: nat)
    requires WellFormed(tree) && Shape(w, |tree.ring|) && |accepts| == |tree.ring| && t < |tree.ring|
  {
    && w.requests[t] <= 1 && w.raised[t] <= 1
    && (w.requests[t] > 0 ==> w.pending[t] == 0 && w.raised[t] == 0) && (w.raised[t] > 0 ==> w.pending[t] == 0)
    && w.pending[t] == Count(tree.ring[t], Flags(w)) + w.completes[t]
    && w.open[t] == (accepts[t] && (w.once ==> Fresh(w, t)))
    && (t > 0 ==> (Fresh(w, t) <==> !Past(w, tree.parent[t]) || !accepts[t]))
  }

  ghost predicate Inv(tree: Tree, accepts: seq<bool>, w: Wave) {
    && WellFormed(tree) && Shape(w, |tree.ring|) && |accepts| == |tree.ring|
    && !Fresh(w, 0)
    && forall t :: 0 <= t < |tree.ring| ==> Local(tree, accepts, w, t)
  }

  lemma {:induction false} CountSame(ring: seq<nat>, f: seq<bool>, g: seq<bool>)
    requires forall i :: 0 <= i < |ring| ==> At(f, ring[i]) == At(g, ring[i])
    ensures Count(ring, f) == Count(ring, g)
  {
    if ring != [] { CountSame(ring[..|ring| - 1], f, g); }
  }

  /** One task of a ring has changed its flag. */
  lemma {:induction false} CountOne(ring: seq<nat>, f: seq<bool>, g: seq<bool>, x: nat)
    requires Distinct(ring) && x in ring && forall i :: 0 <= i < |ring| ==>
               ring[i] == x || At(f, ring[i]) == At(g, ring[i])
    ensures Count(ring, g) + (if At(f, x) then 1 else 0) == Count(ring, f) + if At(g, x) then 1 else 0
  {
    var last := |ring| - 1;
    if ring[last] == x {
      CountSame(ring[..last], f, g);
    } else {
      CountOne(ring[..last], f, g, x);
    }
  }

  lemma {:induction false} CountNone(ring: seq<nat>, f: seq<bool>)
    ensures Count(ring, f) == 0 <==> forall i :: 0 <= i < |ring| ==> !At(f, ring[i])
  {
    if ring != [] { CountNone(ring[..|ring| - 1], f); }
  }

  lemma CountNext(ring: seq<nat>, f: seq<bool>, i: nat)
    requires i < |ring|
    ensures Count(ring[..i + 1], f) == Count(ring[..i], f) + if At(f, ring[i]) then 1 else 0
  {
    assert ring[..i + 1][..i] == ring[..i];
  }

  /** `c` is among the first `i` children of `t`. */
  ghost predicate Asked(tree: Tree, t: nat, i: nat, c: nat)
    requires t < |tree.ring| && i <= |tree.ring[t]|
  {
    exists j :: 0 <= j < i && tree.ring[t][j] == c
  }

  /** What asking the first `i` children does. */
  lemma {:induction false} AskEffect(tree: Tree, w: Wave, t: nat, i: nat)
    requires WellFormed(tree) && Shape(w, |tree.ring|) && t < |tree.ring| && i <= |tree.ring[t]|
    ensures var r := Ask(tree, w, t, i);
            && r.raised == w.raised && r.completes == w.completes
            && r.pending[t] == w.pending[t] + Count(tree.ring[t][..i], w.open)
            && (forall c :: 0 <= c < |tree.ring| && c != t ==> r.pending[c] == w.pending[c])
            && (forall c :: 0 <= c < |tree.ring| ==>
                 r.requests[c] == w.requests[c] + if Asked(tree, t, i, c) && w.open[c] then 1 else 0)
            && (forall c :: 0 <= c < |tree.ring| ==> r.open[c] == (w.open[c] && !(w.once && Asked(tree, t, i, c))))
  {
    hide Count, WellFormed;
    if i > 0 {
      AskEffect(tree, w, t, i - 1);
      AskStep(tree, w, t, i);
      CountNext(tree.ring[t], w.open, i - 1);
    } else {
      CountNone(tree.ring[t][..0], w.open);
    }
  }

  lemma AskStep(tree: Tree, w: Wave, t: nat, i: nat)
    requires WellFormed(tree) && Shape(w, |tree.ring|) && t < |tree.ring| && 0 < i <= |tree.ring[t]|
    ensures var c := tree.ring[t][i - 1]; ChildOf(tree, c, t) && c != t && c < |tree.ring| && !Asked(tree, t, i - 1, c)
    ensures forall c :: Asked(tree, t, i, c) <==> Asked(tree, t, i - 1, c) || c == tree.ring[t][i - 1]
  {
    assert ChildOf(tree, tree.ring[t][i - 1], t);
  }

  /** All of a ring has been asked: the children of `t`. */
  lemma AskedAll(tree: Tree, t: nat, c: nat)
    requires WellFormed(tree) && t < |tree.ring|
    ensures Asked(tree, t, |tree.ring[t]|, c) <==> ChildOf(tree, c, t)
  {
  }

  // ---------------------------------------------------------------- what a step changes

  /** `r` is `w` after task `t` has processed its request, asking `n` children. */
  ghost predicate Requested(tree: Tree, w: Wave, r: Wave, t: nat, n: nat) {
    && WellFormed(tree) && Shape(w, |tree.ring|) && Shape(r, |tree.ring|) && t < |tree.ring| && r.once == w.once
    && forall c :: 0 <= c < |tree.ring| ==>
      && r.requests[c] == w.requests[c] + Bit(ChildOf(tree, c, t) && w.open[c]) - Bit(c == t)
      && r.pending[c] == w.pending[c] + (if c == t then n else 0)
      && r.raised[c] == w.raised[c] + Bit(c == t && r.pending[t] == 0)
      && r.completes[c] == w.completes[c] + Bit(ChildOf(tree, t, c) && r.pending[t] == 0)
      && r.open[c] == (w.open[c] && !(w.once && ChildOf(tree, c, t)))
  }

  /** `r` is `w` after task `t` has processed a completion it was waiting for. */
  ghost predicate Completed(tree: Tree, w: Wave, r: Wave, t: nat) {
    && WellFormed(tree) && Shape(w, |tree.ring|) && Shape(r, |tree.ring|) && t < |tree.ring| && r.once == w.once
    && r.requests == w.requests && r.open == w.open
    && forall c :: 0 <= c < |tree.ring| ==>
      && r.pending[c] == w.pending[c] - Bit(c == t)
      && r.raised[c] == w.raised[c] + Bit(c == t && r.pending[t] == 0)
      && r.completes[c] == w.completes[c] + Bit(ChildOf(tree, t, c) && r.pending[t] == 0) - Bit(c == t)
  }

  function Bit(b: bool): int { if b then 1 else 0 }

  lemma RequestEffect(tree: Tree, w: Wave, t: nat)
    requires WellFormed(tree) && Shape(w, |tree.ring|) && t < |tree.ring| && w.requests[t] > 0
    ensures Requested(tree, w, Step(tree, w, Request(t)), t, Count(tree.ring[t], w.open))
  {
    hide Count, Ask, Asked;
    var taken := w.(requests := w.requests[t := w.requests[t] - 1]);
    AskEffect(tree, taken, t, |tree.ring[t]|);
    forall c | 0 <= c < |tree.ring|
      ensures Asked(tree, t, |tree.ring[t]|, c) <==> ChildOf(tree, c, t)
    {
      AskedAll(tree, t, c);
    }
    assert tree.ring[t][..|tree.ring[t]|] == tree.ring[t];
  }

  lemma CompleteEffect(tree: Tree, w: Wave, t: nat)
    requires WellFormed(tree) && Shape(w, |tree.ring|) && t < |tree.ring| && w.completes[t] > 0
    ensures w.pending[t] > 0 ==> Completed(tree, w, Step(tree, w, Complete(t)), t)
  {
  }

  // ---------------------------------------------------------------- the invariant is kept

  /** The ring of a task none of whose children but possibly `t` has changed its flag. */
  lemma RingCount(tree: Tree, f: seq<bool>, g: seq<bool>, u: nat, t: nat)
    requires WellFormed(tree) && u < |tree.ring| && t < |tree.ring| && |f| == |g| == |tree.ring|
    requires forall c :: 0 <= c < |tree.ring| && ChildOf(tree, c, u) && c != t ==> f[c] == g[c]
    ensures Count(tree.ring[u], g) == Count(tree.ring[u], f) + if ChildOf(tree, t, u) then Bit(g[t]) - Bit(f[t]) else 0
  {
    var ring := tree.ring[u];
    forall i | 0 <= i < |ring| ensures ring[i] == t || At(f, ring[i]) == At(g, ring[i]) {
      assert ChildOf(tree, ring[i], u);
    }
    if ChildOf(tree, t, u) {
      CountOne(ring, f, g, t);
    } else {
      forall i | 0 <= i < |ring| ensures ring[i] != t { assert ChildOf(tree, ring[i], u); }
      CountSame(ring, f, g);
    }
  }

  /** Below a task that has not processed its request yet, nothing has happened. */
  lemma FreshBelow(tree: Tree, accepts: seq<bool>, w: Wave, t: nat)
    requires Inv(tree, accepts, w) && t < |tree.ring| && w.requests[t] > 0
    ensures w.requests[t] == 1 && w.completes[t] == w.pending[t] == w.raised[t] == 0
    ensures forall c :: 0 <= c < |tree.ring| && ChildOf(tree, c, t) ==> Fresh(w, c) && w.open[c] == accepts[c]
  {
    assert Local(tree, accepts, w, t);
    forall c | 0 <= c < |tree.ring| && ChildOf(tree, c, t) ensures Fresh(w, c) && w.open[c] == accepts[c] {
      assert Local(tree, accepts, w, c);
    }
  }

  /** The children that were open are now the busy ones. */
  lemma RingOpen(tree: Tree, w: Wave, r: Wave, t: nat)
    requires t < |tree.ring| && Requested(tree, w, r, t, Count(tree.ring[t], w.open))
    requires forall c :: 0 <= c < |tree.ring| && ChildOf(tree, c, t) ==> Fresh(w, c)
    ensures Count(tree.ring[t], Flags(r)) == Count(tree.ring[t], w.open)
  {
    var ring := tree.ring[t];
    forall i | 0 <= i < |ring| ensures At(w.open, ring[i]) == At(Flags(r), ring[i]) {
      assert ChildOf(tree, ring[i], t);
    }
    CountSame(ring, w.open, Flags(r));
  }

  lemma RequestCount(tree: Tree, accepts: seq<bool>, w: Wave, r: Wave, t: nat, u: nat)
    requires Inv(tree, accepts, w) && t < |tree.ring| && u < |tree.ring|
    requires Requested(tree, w, r, t, Count(tree.ring[t], w.open)) && w.requests[t] > 0
    ensures r.pending[u] == Count(tree.ring[u], Flags(r)) + r.completes[u]
  {
    hide Count;
    FreshBelow(tree, accepts, w, t);
    assert Local(tree, accepts, w, u);
    if u == t {
      RingOpen(tree, w, r, t);
    } else {
      RingCount(tree, Flags(w), Flags(r), u, t);
    }
  }

  lemma RequestKeeps(tree: Tree, accepts: seq<bool>, w: Wave, t: nat)
    requires Inv(tree, accepts, w) && t < |tree.ring| && w.requests[t] > 0
    ensures Inv(tree, accepts, Step(tree, w, Request(t)))
  {
    hide Count, Step, Flags;
    var r := Step(tree, w, Request(t));
    RequestEffect(tree, w, t);
    FreshBelow(tree, accepts, w, t);
    forall u | 0 <= u < |tree.ring| ensures Local(tree, accepts, r, u) {
      RequestCount(tree, accepts, w, r, t, u);
      assert Local(tree, accepts, w, u);
    }
  }

  lemma CompleteCount(tree: Tree, accepts: seq<bool>, w: Wave, r: Wave, t: nat, u: nat)
    requires Inv(tree, accepts, w) && Completed(tree, w, r, t) && w.completes[t] > 0 && u < |tree.ring|
    ensures r.pending[u] == Count(tree.ring[u], Flags(r)) + r.completes[u]
  {
    hide Count;
    assert Local(tree, accepts, w, t);
    assert Local(tree, accepts, w, u);
    RingCount(tree, Flags(w), Flags(r), u, t);
  }

  lemma CompleteKeeps(tree: Tree, accepts: seq<bool>, w: Wave, t: nat)
    requires Inv(tree, accepts, w) && t < |tree.ring| && w.completes[t] > 0
    ensures w.pending[t] > 0 && Inv(tree, accepts, Step(tree, w, Complete(t)))
  {
    hide Count, Step, Flags;
    var r := Step(tree, w, Complete(t));
    assert Local(tree, accepts, w, t);
    CompleteEffect(tree, w, t);
    forall u | 0 <= u < |tree.ring| ensures Local(tree, accepts, r, u) {
      CompleteCount(tree, accepts, w, r, t, u);
      assert Local(tree, accepts, w, u);
    }
  }
}
