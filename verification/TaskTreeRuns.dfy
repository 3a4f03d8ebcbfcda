/** Whole runs of the task tree protocol, for every tree and every order in which the tasks process
    the messages in their mailboxes. */
module TaskTreeRuns {
  import opened TaskTree

  // ---------------------------------------------------------------- runs

  ghost predicate CanRun(tree: Tree, w: Wave, actions: seq<Action>)
    requires WellFormed(tree) && Shape(w, |tree.ring|)
    decreases actions
  {
    actions == [] || (Enabled(w, actions[0]) && CanRun(tree, Step(tree, w, actions[0]), actions[1..]))
  }

  ghost function Run(tree: Tree, w: Wave, actions: seq<Action>): (r: Wave)
    requires WellFormed(tree) && Shape(w, |tree.ring|) && CanRun(tree, w, actions)
    ensures Shape(r, |tree.ring|) && r.once == w.once
    decreases actions
  {
    if actions == [] then w else Run(tree, Step(tree, w, actions[0]), actions[1..])
  }

  /** No request of this kind is outstanding anywhere. */
  ghost predicate Calm(w: Wave)
    requires Shape(w, |w.requests|)
  {
    forall t :: 0 <= t < |w.requests| ==> w.requests[t] == w.completes[t] == w.pending[t] == 0
  }

  ghost predicate Drained(w: Wave)
    requires Shape(w, |w.requests|)
  {
    forall t :: 0 <= t < |w.requests| ==> w.requests[t] == w.completes[t] == 0
  }

  /** The root is asked; completions are counted from here on. */
  function Begin(w: Wave): (r: Wave)
    requires Shape(w, |w.requests|) && |w.requests| > 0 && w.open[0]
    ensures Shape(r, |w.requests|) && r.once == w.once
  {
    w.(requests := w.requests[0 := w.requests[0] + 1], raised := seq(|w.raised|, _ => 0), open := w.open[0 := !w.once])
  }

  lemma BeginKeeps(tree: Tree, w: Wave)
    requires WellFormed(tree) && Shape(w, |tree.ring|) && Calm(w) && w.open[0]
    ensures Inv(tree, w.open, Begin(w))
  {
    var r := Begin(w);
    forall t | 0 <= t < |tree.ring| ensures Local(tree, w.open, r, t) {
      forall i | 0 <= i < |tree.ring[t]|
        ensures !At(Flags(r), tree.ring[t][i])
      {
        assert ChildOf(tree, tree.ring[t][i], t);
      }
      CountNone(tree.ring[t], Flags(r));
    }
  }

  lemma StepKeeps(tree: Tree, accepts: seq<bool>, w: Wave, a: Action)
    requires Inv(tree, accepts, w) && Enabled(w, a)
    ensures Inv(tree, accepts, Step(tree, w, a))
  {
    match a
    case Request(t) => RequestKeeps(tree, accepts, w, t);
    case Complete(t) => CompleteKeeps(tree, accepts, w, t);
  }

  // ---------------------------------------------------------------- who is reached

  /** The request gets to `t`: every task on the way from the root accepts it. */
  ghost predicate Reached(tree: Tree, accepts: seq<bool>, t: nat)
    requires WellFormed(tree) && |accepts| == |tree.ring| && t < |tree.ring|
    decreases t
  {
    t == 0 || (accepts[t] && Reached(tree, accepts, tree.parent[t]))
  }

  ghost predicate Descendant(tree: Tree, d: nat, t: nat)
    requires WellFormed(tree) && d < |tree.ring|
    decreases d
  {
    d > 0 && (tree.parent[d] == t || Descendant(tree, tree.parent[d], t))
  }

  lemma {:induction false} TouchedIsReached(tree: Tree, accepts: seq<bool>, w: Wave, t: nat)
    requires Inv(tree, accepts, w) && t < |tree.ring| && !Fresh(w, t)
    ensures Reached(tree, accepts, t)
    decreases t
  {
    assert Local(tree, accepts, w, t);
    if t > 0 {
      var p := tree.parent[t];
      assert Local(tree, accepts, w, p);
      TouchedIsReached(tree, accepts, w, p);
    }
  }

  /** A child that was reached has completed by the time its parent does. */
  lemma ChildFirst(tree: Tree, accepts: seq<bool>, w: Wave, c: nat)
    requires Inv(tree, accepts, w) && 0 < c < |tree.ring| && accepts[c] && w.raised[tree.parent[c]] > 0
    ensures w.raised[c] == 1
  {
    var p := tree.parent[c];
    assert Local(tree, accepts, w, p) && Local(tree, accepts, w, c);
    CountNone(tree.ring[p], Flags(w));
    var i :| 0 <= i < |tree.ring[p]| && tree.ring[p][i] == c;
    assert !At(Flags(w), tree.ring[p][i]);
  }

  /** Completion is raised at most once, and only after every descendant the request got to has
      raised it. */
  lemma {:induction false} DescendantsFirst(tree: Tree, accepts: seq<bool>, w: Wave, t: nat, d: nat)
    requires Inv(tree, accepts, w) && t < |tree.ring| && d < |tree.ring| && w.raised[t] > 0
    requires Descendant(tree, d, t) && Reached(tree, accepts, d)
    ensures w.raised[t] == 1 && w.raised[d] == 1
    decreases d
  {
    assert Local(tree, accepts, w, t);
    var p := tree.parent[d];
    if p != t { DescendantsFirst(tree, accepts, w, t, p); }
    ChildFirst(tree, accepts, w, d);
  }

  // ---------------------------------------------------------------- how long a wave takes

  /** Messages that task `t` still has to process, or to have its parent process. */
  ghost function Term(tree: Tree, accepts: seq<bool>, w: Wave, t: nat): int
    requires WellFormed(tree) && |accepts| == |tree.ring| && Shape(w, |tree.ring|) && t < |tree.ring|
  {
    Bit(Reached(tree, accepts, t) && !Past(w, t)) + Bit(t > 0 && Reached(tree, accepts, t) && w.raised[t] == 0)
      + w.completes[t]
  }

  ghost function Terms(tree: Tree, accepts: seq<bool>, w: Wave): (r: seq<int>)
    requires WellFormed(tree) && |accepts| == |tree.ring| && Shape(w, |tree.ring|)
    ensures |r| == |tree.ring|
  {
    seq(|tree.ring|, t requires 0 <= t < |tree.ring| => Term(tree, accepts, w, t))
  }

  function Sum(s: seq<int>): int { if s == [] then 0 else Sum(s[..|s| - 1]) + s[|s| - 1] }

  lemma {:induction false} SumUpdate(s: seq<int>, i: nat, x: int)
    requires i < |s|
    ensures Sum(s[i := x]) == Sum(s) + x - s[i]
  {
    var last := |s| - 1;
    assert s[i := x][..last] == if i == last then s[..last] else s[..last][i := x];
    if i < last { SumUpdate(s[..last], i, x); }
  }

  ghost function Remaining(tree: Tree, accepts: seq<bool>, w: Wave): int
    requires WellFormed(tree) && |accepts| == |tree.ring| && Shape(w, |tree.ring|)
  {
    Sum(Terms(tree, accepts, w))
  }

  /** How a step of `t` changes the term of `u`: its own falls by the message processed, and by one
      more if it completes, while its parent gains the completion. */
  ghost predicate TermMoves(tree: Tree, accepts: seq<bool>, w: Wave, r: Wave, t: nat, u: nat)
    requires WellFormed(tree) && |accepts| == |tree.ring| && Shape(w, |tree.ring|) && Shape(r, |tree.ring|)
    requires t < |tree.ring| && u < |tree.ring|
  {
    Term(tree, accepts, r, u) == Term(tree, accepts, w, u) - (if u == t then 1 + Bit(Completes(r, t)) else 0)
                                 + Bit(Completes(r, t) && u == tree.parent[t])
  }

  /** After its step, a task other than the root has completed. */
  predicate Completes(r: Wave, t: nat)
    requires t < |r.pending|
  {
    r.pending[t] == 0 && t > 0
  }

  lemma RequestTerm(tree: Tree, accepts: seq<bool>, w: Wave, r: Wave, t: nat, u: nat)
    requires Inv(tree, accepts, w) && Inv(tree, accepts, r) && t < |tree.ring| && u < |tree.ring|
    requires w.requests[t] > 0 && Requested(tree, w, r, t, Count(tree.ring[t], w.open))
    ensures TermMoves(tree, accepts, w, r, t, u)
  {
    hide Count, Reached, Flags;
    FreshBelow(tree, accepts, w, t);
    TouchedIsReached(tree, accepts, w, t);
    assert Local(tree, accepts, w, u) && Local(tree, accepts, r, u);
  }

  lemma CompleteTerm(tree: Tree, accepts: seq<bool>, w: Wave, r: Wave, t: nat, u: nat)
    requires Inv(tree, accepts, w) && Inv(tree, accepts, r) && t < |tree.ring| && u < |tree.ring|
    requires w.completes[t] > 0 && Completed(tree, w, r, t)
    ensures TermMoves(tree, accepts, w, r, t, u)
  {
    hide Count, Reached, Flags;
    assert Local(tree, accepts, w, t);
    TouchedIsReached(tree, accepts, w, t);
    assert Local(tree, accepts, w, u) && Local(tree, accepts, r, u);
  }

  lemma StepTerm(tree: Tree, accepts: seq<bool>, w: Wave, a: Action, u: nat)
    requires Inv(tree, accepts, w) && Enabled(w, a) && u < |tree.ring|
    ensures TermMoves(tree, accepts, w, Step(tree, w, a), a.task, u)
  {
    hide Step, Local, TermMoves, Requested, Completed;
    var r, t := Step(tree, w, a), a.task;
    StepKeeps(tree, accepts, w, a);
    if a.Request? {
      RequestEffect(tree, w, t);
      RequestTerm(tree, accepts, w, r, t, u);
    } else {
      CompleteKeeps(tree, accepts, w, t);
      CompleteEffect(tree, w, t);
      CompleteTerm(tree, accepts, w, r, t, u);
    }
  }

  /** Every step of a wave brings it exactly one message closer to its end. */
  lemma StepCounts(tree: Tree, accepts: seq<bool>, w: Wave, a: Action)
    requires Inv(tree, accepts, w) && Enabled(w, a)
    ensures Remaining(tree, accepts, Step(tree, w, a)) == Remaining(tree, accepts, w) - 1
  {
    hide Step, Local, Term, Sum;
    var r, t, s := Step(tree, w, a), a.task, Terms(tree, accepts, w);
    var s1, p := s[t := s[t] - 1 - Bit(Completes(r, t))], tree.parent[t];
    forall u | 0 <= u < |tree.ring| ensures Terms(tree, accepts, r)[u] == s1[u] + Bit(Completes(r, t) && u == p) {
      StepTerm(tree, accepts, w, a, u);
    }
    SumUpdate(s, t, s1[t]);
    if Completes(r, t) {
      SumUpdate(s1, p, s1[p] + 1);
      assert Terms(tree, accepts, r) == s1[p := s1[p] + 1];
    } else {
      assert Terms(tree, accepts, r) == s1;
    }
  }

  lemma {:induction false} RunCounts(tree: Tree, accepts: seq<bool>, w: Wave, actions: seq<Action>)
    requires Inv(tree, accepts, w) && CanRun(tree, w, actions)
    ensures var r := Run(tree, w, actions);
            Inv(tree, accepts, r) && |actions| + Remaining(tree, accepts, r) == Remaining(tree, accepts, w)
    decreases actions
  {
    hide Local, Remaining, Step;
    if actions != [] {
      StepKeeps(tree, accepts, w, actions[0]);
      StepCounts(tree, accepts, w, actions[0]);
      RunCounts(tree, accepts, Step(tree, w, actions[0]), actions[1..]);
    }
  }

  // ---------------------------------------------------------------- the end of a wave

  /** With all mailboxes drained, nobody is waiting. */
  lemma {:induction false} NobodyWaits(tree: Tree, accepts: seq<bool>, w: Wave, t: nat)
    requires Inv(tree, accepts, w) && Drained(w) && t < |tree.ring|
    ensures w.pending[t] == 0
    decreases |tree.ring| - t
  {
    assert Local(tree, accepts, w, t);
    var ring := tree.ring[t];
    forall i | 0 <= i < |ring| ensures !At(Flags(w), ring[i]) {
      assert ChildOf(tree, ring[i], t);
      NobodyWaits(tree, accepts, w, ring[i]);
    }
    CountNone(ring, Flags(w));
  }

  /** With all mailboxes drained, exactly the tasks the request got to have completed, once each. */
  lemma {:induction false} DrainedIsDone(tree: Tree, accepts: seq<bool>, w: Wave, t: nat)
    requires Inv(tree, accepts, w) && Drained(w) && t < |tree.ring|
    ensures w.pending[t] == 0 && w.raised[t] == Bit(Reached(tree, accepts, t))
    ensures w.open[t] == (accepts[t] && (w.once ==> !Reached(tree, accepts, t)))
    ensures Term(tree, accepts, w, t) == 0
    decreases t
  {
    NobodyWaits(tree, accepts, w, t);
    assert Local(tree, accepts, w, t);
    if t > 0 { DrainedIsDone(tree, accepts, w, tree.parent[t]); }
  }

  lemma {:induction false} SumZero(s: seq<int>)
    requires forall i :: 0 <= i < |s| ==> s[i] >= 0
    ensures Sum(s) >= 0 && (Sum(s) == 0 <==> forall i :: 0 <= i < |s| ==> s[i] == 0)
  {
    if s != [] { SumZero(s[..|s| - 1]); }
  }

  /** Nothing remains exactly when all mailboxes are drained. */
  lemma RemainingZero(tree: Tree, accepts: seq<bool>, w: Wave)
    requires Inv(tree, accepts, w)
    ensures Remaining(tree, accepts, w) >= 0 && (Remaining(tree, accepts, w) == 0 <==> Drained(w))
  {
    hide Sum, Local, Reached;
    SumZero(Terms(tree, accepts, w));
    if Drained(w) {
      forall t | 0 <= t < |tree.ring| ensures Terms(tree, accepts, w)[t] == 0 { DrainedIsDone(tree, accepts, w, t); }
    } else {
      var t :| 0 <= t < |tree.ring| && (w.requests[t] > 0 || w.completes[t] > 0);
      if w.requests[t] > 0 { TouchedIsReached(tree, accepts, w, t); }
      assert Terms(tree, accepts, w)[t] == Term(tree, accepts, w, t) > 0;
    }
  }

  /** How many of the first `n` tasks the request gets to. */
  ghost function Audience(tree: Tree, accepts: seq<bool>, n: nat): int
    requires WellFormed(tree) && |accepts| == |tree.ring| && n <= |tree.ring|
  {
    if n == 0 then 0 else Audience(tree, accepts, n - 1) + Bit(Reached(tree, accepts, n - 1))
  }

  lemma {:induction false} BeginTerms(tree: Tree, w: Wave, n: nat)
    requires WellFormed(tree) && Shape(w, |tree.ring|) && Calm(w) && w.open[0] && 0 < n <= |tree.ring|
    ensures Sum(Terms(tree, w.open, Begin(w))[..n]) == 2 * Audience(tree, w.open, n) - 1
  {
    var s := Terms(tree, w.open, Begin(w));
    assert s[..n][..n - 1] == s[..n - 1];
    if n == 1 { assert s[..0] == []; } else { BeginTerms(tree, w, n - 1); }
  }

  /** A wave through a calm tree: however the tasks interleave, it ends after exactly two messages
      for every task it gets to, less one; by then each of them has raised completion once, no
      other task has, and the tree is calm again. */
  lemma WaveCompletes(tree: Tree, w: Wave, actions: seq<Action>)
    requires WellFormed(tree) && Shape(w, |tree.ring|) && Calm(w) && w.open[0]
    requires CanRun(tree, Begin(w), actions)
    ensures var r := Run(tree, Begin(w), actions);
            var length := 2 * Audience(tree, w.open, |tree.ring|) - 1;
            && |actions| <= length
            && (|actions| == length <==> Drained(r))
            && (Drained(r) ==>
                  && Calm(r)
                  && forall t :: 0 <= t < |tree.ring| ==> r.raised[t] == Bit(Reached(tree, w.open, t)))
  {
    hide Inv, Local, Terms, Reached, Audience;
    var r, s := Run(tree, Begin(w), actions), Terms(tree, w.open, Begin(w));
    BeginKeeps(tree, w);
    RunCounts(tree, w.open, Begin(w), actions);
    RemainingZero(tree, w.open, r);
    BeginTerms(tree, w, |tree.ring|);
    assert s[..|s|] == s;
    if Drained(r) {
      forall t | 0 <= t < |tree.ring| ensures r.pending[t] == 0 && r.raised[t] == Bit(Reached(tree, w.open, t)) {
        DrainedIsDone(tree, w.open, r, t);
      }
    }
  }

  /** A task never receives a completion it is not waiting for, so the error branch is not taken. */
  lemma CompletionsAreAwaited(tree: Tree, w: Wave, actions: seq<Action>, t: nat)
    requires WellFormed(tree) && Shape(w, |tree.ring|) && Calm(w) && w.open[0] && t < |tree.ring|
    requires CanRun(tree, Begin(w), actions)
    ensures var r := Run(tree, Begin(w), actions); r.completes[t] <= r.pending[t] && r.raised[t] <= 1
  {
    BeginKeeps(tree, w);
    RunCounts(tree, w.open, Begin(w), actions);
    assert Local(tree, w.open, Run(tree, Begin(w), actions), t);
  }

  // ---------------------------------------------------------------- overlapping requests

  /** What can happen to a tree at any time: a request is submitted to a task, or a task processes a
      message. */
  datatype Event = Submit(task: nat) | Process(action: Action)

  predicate Possible(w: Wave, e: Event) {
    match e
    case Submit(t) => t < |w.requests|
    case Process(a) => Enabled(w, a)
  }

  function Happen(tree: Tree, w: Wave, e: Event): (r: Wave)
    requires WellFormed(tree) && Shape(w, |tree.ring|) && Possible(w, e)
    ensures Shape(r, |tree.ring|)
  {
    match e
    case Submit(t) =>
      if w.open[t] then w.(requests := w.requests[t := w.requests[t] + 1], open := w.open[t := !w.once]) else w
    case Process(a) => Step(tree, w, a)
  }

  ghost predicate CanHappen(tree: Tree, w: Wave, events: seq<Event>)
    requires WellFormed(tree) && Shape(w, |tree.ring|)
    decreases events
  {
    events == [] || (Possible(w, events[0]) && CanHappen(tree, Happen(tree, w, events[0]), events[1..]))
  }

  ghost function History(tree: Tree, w: Wave, events: seq<Event>): (r: Wave)
    requires WellFormed(tree) && Shape(w, |tree.ring|) && CanHappen(tree, w, events)
    ensures Shape(r, |tree.ring|)
    decreases events
  {
    if events == [] then w else History(tree, Happen(tree, w, events[0]), events[1..])
  }

  /** How many requests task `t` processes, and how many of them while it is still waiting for the
      completions of an earlier one. */
  ghost function Served(events: seq<Event>, t: nat): nat
    decreases events
  {
    if events == [] then 0 else (if events[0] == Process(Request(t)) then 1 else 0) + Served(events[1..], t)
  }

  ghost function Merged(tree: Tree, w: Wave, events: seq<Event>, t: nat): nat
    requires WellFormed(tree) && Shape(w, |tree.ring|) && CanHappen(tree, w, events) && t < |tree.ring|
    decreases events
  {
    if events == [] then 0
    else (if events[0] == Process(Request(t)) && w.pending[t] > 0 then 1 else 0)
         + Merged(tree, Happen(tree, w, events[0]), events[1..], t)
  }

  /** Completions a task has raised, and one more while it waits. */
  function Owed(w: Wave, t: nat): int
    requires Shape(w, |w.requests|) && t < |w.requests|
  {
    w.raised[t] + Bit(w.pending[t] > 0)
  }

  lemma EventOwes(tree: Tree, w: Wave, e: Event, t: nat)
    requires WellFormed(tree) && Shape(w, |tree.ring|) && Possible(w, e) && t < |tree.ring|
    ensures Owed(Happen(tree, w, e), t) == Owed(w, t) + Bit(e == Process(Request(t)) && w.pending[t] == 0)
  {
    if e.Process? {
      match e.action
      case Request(u) => RequestEffect(tree, w, u);
      case Complete(u) => CompleteEffect(tree, w, u);
    }
    hide Ask, Count;
  }

  /** In whatever history, completions raised, and one more while the task waits, are as many as the
      requests it processed less those it processed while it was waiting. */
  lemma {:induction false} HistoryOwes(tree: Tree, w: Wave, events: seq<Event>, t: nat)
    requires WellFormed(tree) && Shape(w, |tree.ring|) && CanHappen(tree, w, events) && t < |tree.ring|
    ensures Owed(History(tree, w, events), t) == Owed(w, t) + Served(events, t) - Merged(tree, w, events, t)
    decreases events
  {
    hide Owed, Happen;
    if events != [] {
      EventOwes(tree, w, events[0], t);
      HistoryOwes(tree, Happen(tree, w, events[0]), events[1..], t);
    }
  }

  /** From a moment at which a task waits for nothing, each request it processes has raised a completion
      of its own if and only if it processed none while waiting and does not wait now. */
  lemma MergesIff(tree: Tree, w: Wave, events: seq<Event>, t: nat)
    requires WellFormed(tree) && Shape(w, |tree.ring|) && CanHappen(tree, w, events) && t < |tree.ring|
    requires w.pending[t] == 0
    ensures var r := History(tree, w, events);
            r.raised[t] == w.raised[t] + Served(events, t) <==> Merged(tree, w, events, t) == 0 && r.pending[t] == 0
  {
    HistoryOwes(tree, w, events, t);
  }

  // ---------------------------------------------------------------- what a task waits for

  /** What the parent of `c` is waiting for on its account: requests not processed yet, those merged into
      others, and one under way. `merged` counts the requests merged so far. */
  function Load(w: Wave, merged: seq<nat>, c: nat): (n: nat)
    requires Shape(w, |w.requests|) && |merged| == |w.requests| && c < |w.requests|
  {
    w.requests[c] + merged[c] + Bit(w.pending[c] > 0)
  }

  ghost predicate Inside(tree: Tree, ring: seq<nat>) { forall i :: 0 <= i < |ring| ==> ring[i] < |tree.ring| }

  function Loads(w: Wave, merged: seq<nat>, ring: seq<nat>): nat
    requires Shape(w, |w.requests|) && |merged| == |w.requests|
    requires forall i :: 0 <= i < |ring| ==> ring[i] < |w.requests|
  {
    if ring == [] then 0
    else Loads(w, merged, ring[..|ring| - 1]) + Load(w, merged, ring[|ring| - 1])
  }

  lemma RingInside(tree: Tree, t: nat)
    requires WellFormed(tree) && t < |tree.ring|
    ensures forall i :: 0 <= i < |tree.ring[t]| ==> tree.ring[t][i] < |tree.ring|
    ensures forall i :: 0 <= i < |tree.ring[t]| ==> ChildOf(tree, tree.ring[t][i], t)
  {
    forall i | 0 <= i < |tree.ring[t]| ensures ChildOf(tree, tree.ring[t][i], t) {}
  }

  /** A task waits for the completions in its mailbox and for what its children have to account for. */
  ghost predicate Balanced(tree: Tree, w: Wave, merged: seq<nat>, p: nat)
    requires WellFormed(tree) && Shape(w, |tree.ring|) && |merged| == |tree.ring| && p < |tree.ring|
  {
    RingInside(tree, p);
    w.pending[p] == w.completes[p] + Loads(w, merged, tree.ring[p])
  }

  ghost predicate AllBalanced(tree: Tree, w: Wave, merged: seq<nat>) {
    && WellFormed(tree) && Shape(w, |tree.ring|) && |merged| == |tree.ring|
    && forall p :: 0 <= p < |tree.ring| ==> Balanced(tree, w, merged, p)
  }

  /** The loads of a ring change by as many as its open tasks, if each open one gets a request, and, if
      `t` is in the ring, by what the load of `t` changes. */
  lemma {:induction false} LoadsChange(w: Wave, m: seq<nat>, r: Wave, k: seq<nat>, ring: seq<nat>, asked: seq<bool>,
                                       t: nat)
    requires Shape(w, |w.requests|) && Shape(r, |w.requests|) && |m| == |k| == |w.requests|
    requires Distinct(ring) && forall i :: 0 <= i < |ring| ==> ring[i] < |w.requests|
    requires forall i :: 0 <= i < |ring| && ring[i] != t ==>
               Load(r, k, ring[i]) == Load(w, m, ring[i]) + Bit(At(asked, ring[i]))
    requires t < |w.requests|
    ensures Loads(r, k, ring) == Loads(w, m, ring) + Count(ring, asked)
                                 + if t in ring then Load(r, k, t) - Load(w, m, t) - Bit(At(asked, t)) else 0
  {
    hide Load;
    if ring != [] {
      var last := |ring| - 1;
      assert ring == ring[..last] + [ring[last]];
      LoadsChange(w, m, r, k, ring[..last], asked, t);
    }
  }

  /** The requests merged once the event has happened. */
  function Tally(w: Wave, merged: seq<nat>, e: Event): (k: seq<nat>)
    requires Shape(w, |w.requests|) && |merged| == |w.requests| && Possible(w, e)
    ensures |k| == |merged|
  {
    if e.Process? && e.action.Request? && w.pending[e.action.task] > 0
    then merged[e.action.task := merged[e.action.task] + 1]
    else merged
  }

  lemma InRing(tree: Tree, t: nat, p: nat)
    requires WellFormed(tree) && t < |tree.ring| && p < |tree.ring|
    ensures t in tree.ring[p] <==> ChildOf(tree, t, p)
  {
    RingInside(tree, p);
  }

  /** The tasks asked by `t`. */
  function AskedBy(tree: Tree, w: Wave, t: nat): (f: seq<bool>)
    requires Shape(w, |tree.ring|)
    ensures |f| == |tree.ring|
  {
    seq(|tree.ring|, c requires 0 <= c < |tree.ring| => ChildOf(tree, c, t) && w.open[c])
  }

  lemma CountAsked(tree: Tree, w: Wave, t: nat, p: nat)
    requires WellFormed(tree) && Shape(w, |tree.ring|) && t < |tree.ring| && p < |tree.ring|
    ensures Count(tree.ring[p], AskedBy(tree, w, t)) == if p == t then Count(tree.ring[t], w.open) else 0
  {
    RingInside(tree, p);
    if p == t {
      CountSame(tree.ring[t], AskedBy(tree, w, t), w.open);
    } else {
      CountNone(tree.ring[p], AskedBy(tree, w, t));
    }
  }

  lemma RequestBalances(tree: Tree, w: Wave, m: seq<nat>, r: Wave, t: nat, p: nat)
    requires AllBalanced(tree, w, m) && t < |tree.ring| && p < |tree.ring| && w.requests[t] > 0
    requires Requested(tree, w, r, t, Count(tree.ring[t], w.open))
    ensures Balanced(tree, r, Tally(w, m, Process(Request(t))), p)
  {
    hide Count, Loads;
    RingInside(tree, p);
    var k := Tally(w, m, Process(Request(t)));
    assert Balanced(tree, w, m, p);
    LoadsChange(w, m, r, k, tree.ring[p], AskedBy(tree, w, t), t);
    CountAsked(tree, w, t, p);
    InRing(tree, t, p);
  }

  lemma CompleteBalances(tree: Tree, w: Wave, m: seq<nat>, r: Wave, t: nat, p: nat)
    requires AllBalanced(tree, w, m) && t < |tree.ring| && p < |tree.ring|
    requires w.completes[t] > 0 && w.pending[t] > 0 && Completed(tree, w, r, t)
    ensures Balanced(tree, r, m, p)
  {
    hide Count, Loads;
    RingInside(tree, p);
    assert Balanced(tree, w, m, p);
    CountNone(tree.ring[p], []);
    LoadsChange(w, m, r, m, tree.ring[p], [], t);
    InRing(tree, t, p);
  }

  lemma SubmitBalances(tree: Tree, w: Wave, m: seq<nat>, p: nat)
    requires AllBalanced(tree, w, m) && p < |tree.ring|
    ensures Balanced(tree, Happen(tree, w, Submit(0)), m, p)
  {
    hide Count, Loads;
    var r := Happen(tree, w, Submit(0));
    RingInside(tree, p);
    assert Balanced(tree, w, m, p);
    CountNone(tree.ring[p], []);
    LoadsChange(w, m, r, m, tree.ring[p], [], 0);
    InRing(tree, 0, p);
  }

  lemma EventBalances(tree: Tree, w: Wave, m: seq<nat>, e: Event)
    requires AllBalanced(tree, w, m) && Possible(w, e) && (e.Submit? ==> e.task == 0)
    ensures AllBalanced(tree, Happen(tree, w, e), Tally(w, m, e))
  {
    hide Balanced, Step, Requested, Completed, Loads, Count;
    var r := Happen(tree, w, e);
    forall p | 0 <= p < |tree.ring| ensures Balanced(tree, r, Tally(w, m, e), p) {
      match e
      case Submit(_) => SubmitBalances(tree, w, m, p);
      case Process(Request(t)) =>
        RequestEffect(tree, w, t);
        RequestBalances(tree, w, m, r, t, p);
      case Process(Complete(t)) =>
        Awaited(tree, w, m, t);
        CompleteEffect(tree, w, t);
        CompleteBalances(tree, w, m, r, t, p);
    }
  }

  lemma Awaited(tree: Tree, w: Wave, m: seq<nat>, t: nat)
    requires AllBalanced(tree, w, m) && t < |tree.ring|
    ensures w.completes[t] <= w.pending[t]
  {
    assert Balanced(tree, w, m, t);
  }

  /** Requests are submitted to the root only. */
  ghost predicate ToRoot(events: seq<Event>) {
    forall i :: 0 <= i < |events| && events[i].Submit? ==> events[i].task == 0
  }

  /** The requests merged by each task. */
  ghost function AllMerged(tree: Tree, w: Wave, m: seq<nat>, events: seq<Event>): (k: seq<nat>)
    requires WellFormed(tree) && Shape(w, |tree.ring|) && |m| == |tree.ring| && CanHappen(tree, w, events)
    ensures |k| == |tree.ring|
    decreases events
  {
    if events == [] then m
    else AllMerged(tree, Happen(tree, w, events[0]), Tally(w, m, events[0]), events[1..])
  }

  lemma {:induction false} MergedIs(tree: Tree, w: Wave, m: seq<nat>, events: seq<Event>, t: nat)
    requires WellFormed(tree) && Shape(w, |tree.ring|) && |m| == |tree.ring| && CanHappen(tree, w, events)
    requires t < |tree.ring|
    ensures AllMerged(tree, w, m, events)[t] == m[t] + Merged(tree, w, events, t)
    decreases events
  {
    hide Happen;
    if events != [] { MergedIs(tree, Happen(tree, w, events[0]), Tally(w, m, events[0]), events[1..], t); }
  }

  lemma {:induction false} HistoryBalances(tree: Tree, w: Wave, m: seq<nat>, events: seq<Event>)
    requires AllBalanced(tree, w, m) && CanHappen(tree, w, events) && ToRoot(events)
    ensures AllBalanced(tree, History(tree, w, events), AllMerged(tree, w, m, events))
    decreases events
  {
    hide Balanced, Happen;
    if events != [] {
      EventBalances(tree, w, m, events[0]);
      HistoryBalances(tree, Happen(tree, w, events[0]), Tally(w, m, events[0]), events[1..]);
    }
  }

  function Zeros(n: nat): (z: seq<nat>)
    ensures |z| == n
  {
    seq(n, _ => 0)
  }

  lemma {:induction false} LoadsZero(w: Wave, m: seq<nat>, ring: seq<nat>)
    requires Shape(w, |w.requests|) && |m| == |w.requests|
    requires forall i :: 0 <= i < |ring| ==> ring[i] < |w.requests|
    ensures Loads(w, m, ring) == 0 <==> forall i :: 0 <= i < |ring| ==> Load(w, m, ring[i]) == 0
  {
    hide Load;
    if ring != [] { LoadsZero(w, m, ring[..|ring| - 1]); }
  }

  lemma CalmIsBalanced(tree: Tree, w: Wave)
    requires WellFormed(tree) && Shape(w, |tree.ring|) && Calm(w)
    ensures AllBalanced(tree, w, Zeros(|tree.ring|))
  {
    forall p | 0 <= p < |tree.ring| ensures Balanced(tree, w, Zeros(|tree.ring|), p) {
      RingInside(tree, p);
      LoadsZero(w, Zeros(|tree.ring|), tree.ring[p]);
    }
  }

  /** A history that starts with a calm tree, with requests submitted to the root at any time. */
  ghost predicate FromCalm(tree: Tree, w: Wave, events: seq<Event>) {
    && WellFormed(tree) && Shape(w, |tree.ring|) && Calm(w)
    && CanHappen(tree, w, events) && ToRoot(events)
  }

  /** What every history comes to: a task waits for the completions in its mailbox, and for each child
      as many as it has requests, has merged requests and, once, if it is waiting itself. */
  lemma HistoryWaits(tree: Tree, w: Wave, events: seq<Event>, p: nat)
    requires FromCalm(tree, w, events) && p < |tree.ring|
    ensures var r, merged := History(tree, w, events), AllMerged(tree, w, Zeros(|tree.ring|), events);
            && (forall c :: 0 <= c < |tree.ring| ==> merged[c] == Merged(tree, w, events, c))
            && Balanced(tree, r, merged, p) && r.completes[p] <= r.pending[p]
  {
    hide Balanced, Run, Step;
    var z := Zeros(|tree.ring|);
    CalmIsBalanced(tree, w);
    HistoryBalances(tree, w, z, events);
    forall c | 0 <= c < |tree.ring| ensures AllMerged(tree, w, z, events)[c] == Merged(tree, w, events, c) {
      MergedIs(tree, w, z, events, c);
    }
    Awaited(tree, History(tree, w, events), AllMerged(tree, w, z, events), p);
  }

  /** With drained mailboxes and no merged requests but the root's, nobody waits. */
  lemma {:induction false} NobodyIsLeft(tree: Tree, r: Wave, m: seq<nat>, t: nat)
    requires AllBalanced(tree, r, m) && Drained(r) && t < |tree.ring|
    requires forall c :: 0 < c < |tree.ring| ==> m[c] == 0
    ensures r.pending[t] == 0
    decreases |tree.ring| - t
  {
    RingInside(tree, t);
    var ring := tree.ring[t];
    forall i | 0 <= i < |ring| ensures Load(r, m, ring[i]) == 0 {
      assert ChildOf(tree, ring[i], t);
      NobodyIsLeft(tree, r, m, ring[i]);
    }
    LoadsZero(r, m, ring);
    assert Balanced(tree, r, m, t);
  }

  /** Where a task waits for nothing, its children have nothing to account for. */
  lemma QuietBelow(tree: Tree, r: Wave, m: seq<nat>, t: nat, c: nat)
    requires AllBalanced(tree, r, m) && t < |tree.ring| && c < |tree.ring| && ChildOf(tree, c, t) && r.pending[t] == 0
    ensures r.requests[c] == m[c] == r.pending[c] == 0
  {
    RingInside(tree, t);
    assert Balanced(tree, r, m, t);
    LoadsZero(r, m, tree.ring[t]);
    var i :| 0 <= i < |tree.ring[t]| && tree.ring[t][i] == c;
    assert Load(r, m, tree.ring[t][i]) == 0;
  }

  /** No task but the root has processed a request while it was waiting. */
  ghost predicate MergedAtRootOnly(tree: Tree, w: Wave, events: seq<Event>)
    requires WellFormed(tree) && Shape(w, |tree.ring|) && CanHappen(tree, w, events)
  {
    forall t :: 0 < t < |tree.ring| ==> Merged(tree, w, events, t) == 0
  }

  lemma DrainedWaits(tree: Tree, w: Wave, m: seq<nat>, r: Wave)
    requires WellFormed(tree) && Shape(w, |tree.ring|) && AllBalanced(tree, r, m) && Drained(r)
    ensures Calm(r) <==> forall t :: 0 < t < |tree.ring| ==> m[t] == 0
  {
    hide Balanced;
    if Calm(r) {
      forall t | 0 < t < |tree.ring| ensures m[t] == 0 { QuietBelow(tree, r, m, tree.parent[t], t); }
    }
    if forall t :: 0 < t < |tree.ring| ==> m[t] == 0 {
      forall t | 0 <= t < |tree.ring| ensures r.pending[t] == 0 { NobodyIsLeft(tree, r, m, t); }
    }
  }

  /** With all mailboxes empty the tree is calm again if and only if no task but the root has processed a
      request while it was waiting; otherwise some task waits for ever. */
  lemma CalmAgainIff(tree: Tree, w: Wave, events: seq<Event>)
    requires FromCalm(tree, w, events) && Drained(History(tree, w, events))
    ensures Calm(History(tree, w, events)) <==> MergedAtRootOnly(tree, w, events)
  {
    var r, m := History(tree, w, events), AllMerged(tree, w, Zeros(|tree.ring|), events);
    CalmIsBalanced(tree, w);
    HistoryBalances(tree, w, Zeros(|tree.ring|), events);
    forall p | 0 <= p < |tree.ring| ensures m[p] == Merged(tree, w, events, p) {
      MergedIs(tree, w, Zeros(|tree.ring|), events, p);
    }
    DrainedWaits(tree, w, m, r);
    hide Calm, Drained, AllBalanced;
  }

  /** Below the root, a task that has a request has only one and waits for nothing. */
  ghost predicate SingleFile(w: Wave)
    requires Shape(w, |w.requests|)
  {
    forall t :: 0 < t < |w.requests| && w.requests[t] > 0 ==> w.requests[t] == 1 && w.pending[t] == 0
  }

  /** While the root processes no request as it waits, requests go through the tree one after another. */
  lemma StaysSingleFile(tree: Tree, w: Wave, m: seq<nat>, e: Event)
    requires AllBalanced(tree, w, m) && SingleFile(w) && Possible(w, e) && (e.Submit? ==> e.task == 0)
    requires e == Process(Request(0)) ==> w.pending[0] == 0
    ensures SingleFile(Happen(tree, w, e)) && Tally(w, m, e) == m
  {
    hide Step, Balanced, WellFormed;
    match e
    case Submit(_) =>
    case Process(Request(t)) =>
      forall c | 0 <= c < |tree.ring| && ChildOf(tree, c, t) ensures w.requests[c] == w.pending[c] == 0 {
        QuietBelow(tree, w, m, t, c);
      }
      RequestEffect(tree, w, t);
    case Process(Complete(t)) =>
      Awaited(tree, w, m, t);
      CompleteEffect(tree, w, t);
  }

  lemma {:induction false} NoMerges(tree: Tree, w: Wave, m: seq<nat>, events: seq<Event>, t: nat)
    requires AllBalanced(tree, w, m) && CanHappen(tree, w, events) && ToRoot(events) && SingleFile(w)
    requires Merged(tree, w, events, 0) == 0 && t < |tree.ring|
    ensures Merged(tree, w, events, t) == 0
    decreases events
  {
    hide Balanced, Happen;
    if events != [] {
      EventBalances(tree, w, m, events[0]);
      StaysSingleFile(tree, w, m, events[0]);
      NoMerges(tree, Happen(tree, w, events[0]), m, events[1..], t);
    }
  }

  /** With all mailboxes empty, every task has raised a completion of its own for each request it
      processed if and only if the root has processed none while it was waiting. */
  lemma AllAnsweredIff(tree: Tree, w: Wave, events: seq<Event>)
    requires FromCalm(tree, w, events) && Drained(History(tree, w, events))
    ensures var r := History(tree, w, events);
            && ((forall t :: 0 <= t < |tree.ring| ==> r.raised[t] == w.raised[t] + Served(events, t))
                <==> Merged(tree, w, events, 0) == 0)
            && (r.raised[0] == w.raised[0] + Served(events, 0) <==> Merged(tree, w, events, 0) == 0)
  {
    hide AllBalanced;
    var r := History(tree, w, events);
    if Merged(tree, w, events, 0) == 0 {
      CalmIsBalanced(tree, w);
      forall t | 0 <= t < |tree.ring| ensures Merged(tree, w, events, t) == 0 {
        NoMerges(tree, w, Zeros(|tree.ring|), events, t);
      }
      CalmAgainIff(tree, w, events);
    }
    forall t | 0 <= t < |tree.ring|
      ensures r.raised[t] == w.raised[t] + Served(events, t) <==> Merged(tree, w, events, t) == 0 && r.pending[t] == 0
    {
      MergesIff(tree, w, events, t);
    }
  }

  /** Steps of a root with one child, while no task refuses. */
  lemma PairSteps(w: Wave, a: Action, r: Wave)
    requires Shape(w, 2) && Shape(r, 2) && Enabled(w, a) && w.open == r.open == [true, true] && !w.once && !r.once
    requires match a
      case Request(t) =>
        if t == 0 then
          r == w.(requests := [w.requests[0] - 1, w.requests[1] + 1], pending := [w.pending[0] + 1, w.pending[1]])
        else
          w.pending[1] == 0
          && r == w.(requests := [w.requests[0], w.requests[1] - 1], completes := [w.completes[0] + 1, w.completes[1]],
                                          raised := [w.raised[0], w.raised[1] + 1])
      case Complete(t) =>
        t == 0 && w.pending[0] > 0
        && r == w.(completes := [w.completes[0] - 1, w.completes[1]], pending := [w.pending[0] - 1, w.pending[1]],
                   raised := [w.raised[0] + Bit(w.pending[0] == 1), w.raised[1]])
    ensures WellFormed(Tree([[1], []], [0, 0])) && Step(Tree([[1], []], [0, 0]), w, a) == r
  {
    var tree := Tree([[1], []], [0, 0]);
    assert 1 in tree.ring[0];
    if a == Request(0) {
      var taken := w.(requests := w.requests[0 := w.requests[0] - 1]);
      assert Ask(tree, taken, 0, 0) == taken;
    }
  }

  /** Two overlapping requests for a root with one child: both are taken, completion is raised once. */
  lemma OverlapMerges()
    ensures var tree := Tree([[1], []], [0, 0]);
            var w := Wave([2, 0], [0, 0], [0, 0], [0, 0], [true, true], false);
            var actions := [Request(0), Request(0), Request(1), Request(1), Complete(0), Complete(0)];
            && WellFormed(tree) && CanRun(tree, w, actions)
            && Run(tree, w, actions) == w.(requests := [0, 0], raised := [1, 2])
  {
    var tree := Tree([[1], []], [0, 0]);
    var w := Wave([2, 0], [0, 0], [0, 0], [0, 0], [true, true], false);
    var w1 := Wave([1, 1], [0, 0], [1, 0], [0, 0], [true, true], false);
    var w2 := Wave([0, 2], [0, 0], [2, 0], [0, 0], [true, true], false);
    var w3 := Wave([0, 1], [1, 0], [2, 0], [0, 1], [true, true], false);
    var w4 := Wave([0, 0], [2, 0], [2, 0], [0, 2], [true, true], false);
    var w5 := Wave([0, 0], [1, 0], [1, 0], [0, 2], [true, true], false);
    var w6 := Wave([0, 0], [0, 0], [0, 0], [1, 2], [true, true], false);
    PairSteps(w, Request(0), w1);
    PairSteps(w1, Request(0), w2);
    PairSteps(w2, Request(1), w3);
    PairSteps(w3, Request(1), w4);
    PairSteps(w4, Complete(0), w5);
    PairSteps(w5, Complete(0), w6);
    assert CanRun(tree, w6, []) && Run(tree, w6, []) == w6;
    Unroll(tree, w5, Complete(0), []);
    Unroll(tree, w4, Complete(0), [Complete(0)]);
    Unroll(tree, w3, Request(1), [Complete(0), Complete(0)]);
    Unroll(tree, w2, Request(1), [Request(1), Complete(0), Complete(0)]);
    Unroll(tree, w1, Request(0), [Request(1), Request(1), Complete(0), Complete(0)]);
    Unroll(tree, w, Request(0), [Request(0), Request(1), Request(1), Complete(0), Complete(0)]);
    hide Step;
  }

  lemma Unroll(tree: Tree, w: Wave, a: Action, rest: seq<Action>)
    requires WellFormed(tree) && Shape(w, |tree.ring|) && Enabled(w, a) && CanRun(tree, Step(tree, w, a), rest)
    ensures CanRun(tree, w, [a] + rest) && Run(tree, w, [a] + rest) == Run(tree, Step(tree, w, a), rest)
  {
    assert ([a] + rest)[1..] == rest;
  }

  /** A root with one child, which has one child itself. */
  const CHAIN := Tree([[1], [2], []], [0, 0, 1])

  /** A step in the chain, while no task refuses. */
  function ChainAfter(w: Wave, a: Action): Wave
    requires Shape(w, 3) && Enabled(w, a)
  {
    match a
    case Request(t) =>
      var taken := w.requests[t := w.requests[t] - 1];
      if t < 2 then w.(requests := taken[t + 1 := taken[t + 1] + 1], pending := w.pending[t := w.pending[t] + 1])
      else w.(requests := taken, raised := w.raised[2 := w.raised[2] + 1],
              completes := w.completes[1 := w.completes[1] + 1])
    case Complete(t) =>
      var n := w.(completes := w.completes[t := w.completes[t] - 1],
                  pending := w.pending[t := if w.pending[t] > 0 then w.pending[t] - 1 else 0]);
      if w.pending[t] != 1 then n
      else n.(raised := n.raised[t := n.raised[t] + 1],
              completes := if t == 0 then n.completes else n.completes[t - 1 := n.completes[t - 1] + 1])
  }

  lemma ChainIsTree()
    ensures WellFormed(CHAIN)
  {
    assert 1 in CHAIN.ring[0] && 2 in CHAIN.ring[1];
  }

  lemma ChainStep(w: Wave, a: Action, r: Wave)
    requires Shape(w, 3) && w.open == [true, true, true] && !w.once && Enabled(w, a) && r == ChainAfter(w, a)
    requires a == Request(2) || a == Complete(2) ==> w.pending[2] == 0
    ensures WellFormed(CHAIN) && Step(CHAIN, w, a) == r
  {
    ChainIsTree();
    if a.Request? && a.task < 2 {
      var t := a.task;
      var taken := w.(requests := w.requests[t := w.requests[t] - 1]);
      assert Ask(CHAIN, taken, t, 0) == taken;
    }
  }

  /** Three tasks in a row and two overlapping requests: the last task raises two completions, the middle
      one, which merged the requests, only one, and the root waits for ever. */
  lemma RootWaitsForever()
    ensures var w := Wave([2, 0, 0], [0, 0, 0], [0, 0, 0], [0, 0, 0], [true, true, true], false);
            var actions := [Request(0), Request(0), Request(1), Request(1), Request(2), Request(2),
                            Complete(1), Complete(1), Complete(0)];
            && WellFormed(CHAIN) && CanRun(CHAIN, w, actions)
            && Run(CHAIN, w, actions) == w.(requests := [0, 0, 0], pending := [1, 0, 0], raised := [0, 1, 2])
  {
    hide Step, Run, CanRun, WellFormed;
    ChainIsTree();
    var open := [true, true, true];
    var w := Wave([2, 0, 0], [0, 0, 0], [0, 0, 0], [0, 0, 0], open, false);
    var w2 := Wave([0, 2, 0], [0, 0, 0], [2, 0, 0], [0, 0, 0], open, false);
    var w4 := Wave([0, 0, 2], [0, 0, 0], [2, 2, 0], [0, 0, 0], open, false);
    var rest4, w9 := ChainGoesOn(w4);
    TwoSteps(w2, Request(1), Wave([0, 1, 1], [0, 0, 0], [2, 1, 0], [0, 0, 0], open, false), w4, rest4);
    var rest2 := [Request(1), Request(1)] + rest4;
    TwoSteps(w, Request(0), Wave([1, 1, 0], [0, 0, 0], [1, 0, 0], [0, 0, 0], open, false), w2, rest2);
    assert [Request(0), Request(0)] + rest2
        == [Request(0), Request(0), Request(1), Request(1), Request(2), Request(2),
            Complete(1), Complete(1), Complete(0)];
  }

  lemma ChainGoesOn(w: Wave) returns (rest: seq<Action>, r: Wave)
    requires w == Wave([0, 0, 2], [0, 0, 0], [2, 2, 0], [0, 0, 0], [true, true, true], false)
    ensures rest == [Request(2), Request(2), Complete(1), Complete(1), Complete(0)]
    ensures r == w.(requests := [0, 0, 0], pending := [1, 0, 0], raised := [0, 1, 2])
    ensures WellFormed(CHAIN) && CanRun(CHAIN, w, rest) && Run(CHAIN, w, rest) == r
  {
    hide Step, Run, CanRun, WellFormed;
    var w6 := Wave([0, 0, 0], [0, 2, 0], [2, 2, 0], [0, 0, 2], w.open, false);
    rest, r := ChainEnds(w6);
    TwoSteps(w, Request(2), Wave([0, 0, 1], [0, 1, 0], [2, 2, 0], [0, 0, 1], w.open, false), w6, rest);
    rest := [Request(2), Request(2)] + rest;
  }

  lemma ChainEnds(w: Wave) returns (rest: seq<Action>, r: Wave)
    requires w == Wave([0, 0, 0], [0, 2, 0], [2, 2, 0], [0, 0, 2], [true, true, true], false)
    ensures rest == [Complete(1), Complete(1), Complete(0)]
    ensures r == w.(completes := [0, 0, 0], pending := [1, 0, 0], raised := [0, 1, 2])
    ensures WellFormed(CHAIN) && CanRun(CHAIN, w, rest) && Run(CHAIN, w, rest) == r
  {
    hide Step, Run, CanRun, WellFormed;
    ChainIsTree();
    rest := [Complete(1), Complete(1), Complete(0)];
    r := Wave([0, 0, 0], [0, 0, 0], [1, 0, 0], [0, 1, 2], w.open, false);
    NoSteps(CHAIN, r);
    var w8 := Wave([0, 0, 0], [1, 0, 0], [2, 0, 0], [0, 1, 2], w.open, false);
    ChainStep(w8, Complete(0), r);
    Unroll(CHAIN, w8, Complete(0), []);
    assert [Complete(0)] + [] == [Complete(0)];
    TwoSteps(w, Complete(1), Wave([0, 0, 0], [0, 1, 0], [2, 1, 0], [0, 0, 2], w.open, false), w8, [Complete(0)]);
    assert rest == [Complete(1), Complete(1)] + [Complete(0)];
  }

  lemma NoSteps(tree: Tree, w: Wave)
    requires WellFormed(tree) && Shape(w, |tree.ring|)
    ensures CanRun(tree, w, []) && Run(tree, w, []) == w
  {
  }

  /** The same step twice. */
  lemma TwoSteps(w: Wave, a: Action, mid: Wave, r: Wave, rest: seq<Action>)
    requires Shape(w, 3) && Shape(mid, 3) && Shape(r, 3) && w.open == mid.open == [true, true, true]
    requires !w.once && !mid.once && Enabled(w, a) && Enabled(mid, a)
    requires mid == ChainAfter(w, a) && r == ChainAfter(mid, a)
    requires a == Request(2) || a == Complete(2) ==> w.pending[2] == mid.pending[2] == 0
    requires WellFormed(CHAIN) && CanRun(CHAIN, r, rest)
    ensures CanRun(CHAIN, w, [a, a] + rest) && Run(CHAIN, w, [a, a] + rest) == Run(CHAIN, r, rest)
  {
    hide Step, ChainAfter, Run, CanRun, WellFormed;
    ChainStep(w, a, mid);
    ChainStep(mid, a, r);
    Unroll(CHAIN, mid, a, rest);
    Unroll(CHAIN, w, a, [a] + rest);
    assert [a] + ([a] + rest) == [a, a] + rest;
  }

  // ---------------------------------------------------------------- all three kinds together

  datatype Kind = Start | Offline | Online

  /** The waves of the three kinds. */
  datatype System = System(start: Wave, offline: Wave, online: Wave) {
    function Of(k: Kind): Wave {
      match k case Start => start case Offline => offline case Online => online
    }
    function With(k: Kind, w: Wave): System {
      match k case Start => this.(start := w) case Offline => this.(offline := w) case Online => this.(online := w)
    }
  }

  ghost predicate Sized(tree: Tree, s: System) {
    WellFormed(tree) && Shape(s.start, |tree.ring|) && Shape(s.offline, |tree.ring|) && Shape(s.online, |tree.ring|)
  }

  ghost predicate CanRunAll(tree: Tree, s: System, actions: seq<(Kind, Action)>)
    requires Sized(tree, s)
    decreases actions
  {
    actions == []
    || var (k, a) := actions[0];
       Enabled(s.Of(k), a) && CanRunAll(tree, s.With(k, Step(tree, s.Of(k), a)), actions[1..])
  }

  ghost function RunAll(tree: Tree, s: System, actions: seq<(Kind, Action)>): (r: System)
    requires Sized(tree, s) && CanRunAll(tree, s, actions)
    ensures Sized(tree, r)
    decreases actions
  {
    if actions == [] then s
    else var (k, a) := actions[0]; RunAll(tree, s.With(k, Step(tree, s.Of(k), a)), actions[1..])
  }

  function Only(actions: seq<(Kind, Action)>, k: Kind): seq<Action> {
    if actions == [] then []
    else if actions[0].0 == k then [actions[0].1] + Only(actions[1..], k)
    else Only(actions[1..], k)
  }

  /** In a run of all three kinds, each kind runs as it would on its own. */
  lemma {:induction false} KindsAreIndependent(tree: Tree, s: System, actions: seq<(Kind, Action)>, k: Kind)
    requires Sized(tree, s) && CanRunAll(tree, s, actions)
    ensures CanRun(tree, s.Of(k), Only(actions, k))
    ensures RunAll(tree, s, actions).Of(k) == Run(tree, s.Of(k), Only(actions, k))
    decreases actions
  {
    hide Step;
    if actions != [] {
      var (k0, a) := actions[0];
      var next := s.With(k0, Step(tree, s.Of(k0), a));
      KindsAreIndependent(tree, next, actions[1..], k);
      assert k0 != k ==> next.Of(k) == s.Of(k);
      if k0 == k { Unroll(tree, s.Of(k), a, Only(actions[1..], k)); }
    }
  }
}
