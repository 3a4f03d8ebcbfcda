/** The tasks of a tree as they update their counters and mailboxes in place, for one kind of request. */
module TaskTreeTasks {
  import opened TaskTree

  lemma AskStarts(tree: Tree, w: Wave, t: nat)
    requires WellFormed(tree) && Shape(w, |tree.ring|) && t < |tree.ring|
    ensures Ask(tree, w, t, 0) == w
  {
  }

  lemma AskGoesOn(tree: Tree, w: Wave, t: nat, i: nat)
    requires WellFormed(tree) && Shape(w, |tree.ring|) && t < |tree.ring| && i < |tree.ring[t]|
    ensures var r, c := Ask(tree, w, t, i), tree.ring[t][i];
            && c < |tree.ring|
            && Ask(tree, w, t, i + 1) == if !r.open[c] then r
                                         else r.(requests := r.requests[c := r.requests[c] + 1],
                                                 pending := r.pending[t := r.pending[t] + 1],
                                                 open := r.open[c := !r.once])
  {
    assert ChildOf(tree, tree.ring[t][i], t);
  }

  lemma SettleIs(tree: Tree, w: Wave, t: nat)
    requires WellFormed(tree) && Shape(w, |tree.ring|) && t < |tree.ring|
    ensures Settle(tree, w, t) == if w.pending[t] == 0 then Raise(tree, w, t) else w
  {
  }

  class Tasks {
    const tree: Tree
    const once: bool
    const requests: array<nat>
    const completes: array<nat>
    const pending: array<nat>
    const raised: array<nat>
    const open: array<bool>

    ghost predicate Valid() {
      && WellFormed(tree)
      && requests.Length == completes.Length == pending.Length == raised.Length == open.Length == |tree.ring|
      && requests != completes && requests != pending && requests != raised
      && completes != pending && completes != raised && pending != raised
    }

    ghost function State(): (w: Wave)
      requires Valid()
      reads requests, completes, pending, raised, open
      ensures Shape(w, |tree.ring|)
    {
      Wave(requests[..], completes[..], pending[..], raised[..], open[..], once)
    }

    constructor (tree: Tree, once: bool)
      requires WellFormed(tree)
      ensures Valid() && this.tree == tree && this.once == once
      ensures fresh(requests) && fresh(completes) && fresh(pending) && fresh(raised) && fresh(open)
      ensures forall t :: 0 <= t < |tree.ring| ==> Fresh(State(), t) && State().completes[t] == 0 && State().open[t]
    {
      var n := |tree.ring|;
      this.tree, this.once := tree, once;
      requests, completes, pending, raised :=
        new nat[n](_ => 0), new nat[n](_ => 0), new nat[n](_ => 0), new nat[n](_ => 0);
      open := new bool[n](_ => true);
    }

    /** Asks one task; a task that is not idle refuses to start. */
    method Request(c: nat) returns (ok: bool)
      requires Valid() && c < |tree.ring|
      modifies requests, open
      ensures ok == old(State()).open[c]
      ensures State() == if ok then old(State()).(requests := old(State()).requests[c := old(State()).requests[c] + 1],
                                                  open := old(State()).open[c := !once])
                         else old(State())
    {
      if !open[c] { return false; }
      open[c] := !once;
      requests[c] := requests[c] + 1;
      ok := true;
    }

    method CompleteRaise(t: nat)
      requires Valid() && t < |tree.ring|
      modifies completes, raised
      ensures State() == Raise(tree, old(State()), t)
    {
      raised[t] := raised[t] + 1;
      if t > 0 { completes[tree.parent[t]] := completes[tree.parent[t]] + 1; }
    }

    method RequestProcess(t: nat)
      requires Valid() && t < |tree.ring|
      modifies requests, open, pending, completes, raised
      ensures State() == Settle(tree, Ask(tree, old(State()), t, |tree.ring[t]|), t)
    {
      hide Ask, Settle, WellFormed;
      AskStarts(tree, State(), t);
      var i := 0;
      while i < |tree.ring[t]|
        invariant 0 <= i <= |tree.ring[t]| && State() == Ask(tree, old(State()), t, i)
      {
        AskGoesOn(tree, old(State()), t, i);
        var c := tree.ring[t][i];
        var ok := Request(c);
        if ok { pending[t] := pending[t] + 1; }
        i := i + 1;
      }
      SettleIs(tree, State(), t);
      if pending[t] == 0 { CompleteRaise(t); }
    }

    method RequestComplete(t: nat) returns (ok: bool)
      requires Valid() && t < |tree.ring|
      modifies pending, completes, raised
      ensures ok <==> old(State()).pending[t] > 0
      ensures State() == if !ok then old(State())
                         else
                           var now := old(State());
                           Settle(tree, now.(pending := now.pending[t := now.pending[t] - 1]), t)
    {
      if pending[t] == 0 { return false; }
      pending[t] := pending[t] - 1;
      if pending[t] == 0 { CompleteRaise(t); }
      ok := true;
    }

    /** Takes a message out of a mailbox and dispatches it. */
    method Process(a: Action)
      requires Valid() && Enabled(State(), a)
      modifies requests, open, pending, completes, raised
      ensures State() == Step(tree, old(State()), a)
    {
      hide Ask, Settle;
      match a {
        case Request(t) =>
          requests[t] := requests[t] - 1;
          assert State() == old(State()).(requests := old(State()).requests[t := old(State()).requests[t] - 1]);
          RequestProcess(t);
        case Complete(t) =>
          completes[t] := completes[t] - 1;
          assert State() == old(State()).(completes := old(State()).completes[t := old(State()).completes[t] - 1]);
          var ok := RequestComplete(t);
      }
    }
  }
}
