/** The media engine's requests: packed into containers by their producers, queued, and executed
    container by container with one response each. What a request does to the media state is a
    parameter. */
module MediaEngine {
  import opened Options
  import opened CyclicQueue

  const MAX_MPF_MESSAGE_COUNT := 5

  datatype MessageType = Request | Response | Event

  datatype Message<B> = Message(kind: MessageType, body: B, success: bool)

  /** Messages sent together, and the producer that packed them. */
  datatype Container<B> = Container(owner: nat, messages: seq<Message<B>>)

  /** The executor of requests: the new media state, and whether it succeeded. */
  type Executor<!M, !B> = (M, B) -> (M, bool)

  // ---------------------------------------------------------------- one container

  /** The media state after executing the requests among `msgs` in order. */
  function Execute<M, B>(run: Executor<M, B>, m: M, msgs: seq<Message<B>>): M {
    if msgs == [] then m
    else
      var before := Execute(run, m, msgs[..|msgs| - 1]);
      if msgs[|msgs| - 1].kind.Request? then run(before, msgs[|msgs| - 1].body).0 else before
  }

  /** The response to a message; one that is not a request is returned as it is. */
  function Answer<M, B>(run: Executor<M, B>, m: M, msg: Message<B>): Message<B> {
    if msg.kind.Request? then Message(Response, msg.body, run(m, msg.body).1) else msg
  }

  function Respond<M, B>(run: Executor<M, B>, m: M, msgs: seq<Message<B>>): (r: seq<Message<B>>)
    ensures |r| == |msgs|
  {
    if msgs == [] then []
    else Respond(run, m, msgs[..|msgs| - 1]) + [Answer(run, Execute(run, m, msgs[..|msgs| - 1]), msgs[|msgs| - 1])]
  }

  /** The media states that `msgs` take the engine through: a request goes from one to the next, any
      other message changes nothing. */
  ghost predicate Passes<M, B>(run: Executor<M, B>, msgs: seq<Message<B>>, states: seq<M>) {
    && |states| == |msgs| + 1
    && forall i :: 0 <= i < |msgs| ==>
         states[i + 1] == if msgs[i].kind.Request? then run(states[i], msgs[i].body).0 else states[i]
  }

  /** At the index of each request stands a response with its body, which tells whether the request
      succeeded in the state it was reached in; any other message is returned as it is. */
  ghost predicate Tells<M, B>(run: Executor<M, B>, msgs: seq<Message<B>>, states: seq<M>, replies: seq<Message<B>>)
    requires |states| == |msgs| + 1
  {
    && |replies| == |msgs|
    && forall i :: 0 <= i < |msgs| ==>
         if msgs[i].kind.Request? then
           && replies[i].kind.Response? && replies[i].body == msgs[i].body
           && replies[i].success == run(states[i], msgs[i].body).1
         else replies[i] == msgs[i]
  }

  /** Serving `msgs` from media state `m` on gives these replies, and ends in state `end`. */
  ghost predicate Serves<M(!new), B(!new)>(run: Executor<M, B>, m: M, msgs: seq<Message<B>>,
                                           replies: seq<Message<B>>, end: M)
  {
    exists states: seq<M> ::
      && Passes(run, msgs, states) && states[0] == m && states[|msgs|] == end
      && Tells(run, msgs, states, replies)
  }

  /** The states that a run of messages passes are those of executing them one after the other. */
  lemma {:induction false} PassedIs<M, B>(run: Executor<M, B>, m: M, msgs: seq<Message<B>>, states: seq<M>, i: nat)
    requires Passes(run, msgs, states) && states[0] == m && i <= |msgs|
    ensures states[i] == Execute(run, m, msgs[..i])
  {
    if i > 0 {
      PassedIs(run, m, msgs, states, i - 1);
      assert msgs[..i][..i - 1] == msgs[..i - 1];
    }
  }

  lemma {:induction false} RespondAt<M, B>(run: Executor<M, B>, m: M, msgs: seq<Message<B>>, i: nat)
    requires i < |msgs|
    ensures Respond(run, m, msgs)[i] == Answer(run, Execute(run, m, msgs[..i]), msgs[i])
  {
    if i < |msgs| - 1 {
      RespondAt(run, m, msgs[..|msgs| - 1], i);
      assert msgs[..|msgs| - 1][..i] == msgs[..i];
    }
  }

  /** The replies are those of the engine if and only if each stands at the index of its request, has
      its body, and tells how the request did after the ones before it. */
  lemma ResponsesAligned<M(!new), B(!new)>(run: Executor<M, B>, m: M, msgs: seq<Message<B>>,
                                           replies: seq<Message<B>>, end: M)
    ensures Serves(run, m, msgs, replies, end) <==>
              replies == Respond(run, m, msgs) && end == Execute(run, m, msgs)
  {
    hide Execute, Respond;
    assert msgs[..|msgs|] == msgs;
    forall i | 0 <= i < |msgs| ensures Respond(run, m, msgs)[i] == Answer(run, Execute(run, m, msgs[..i]), msgs[i]) {
      RespondAt(run, m, msgs, i);
    }
    if Serves(run, m, msgs, replies, end) {
      var states: seq<M> :| Passes(run, msgs, states) && states[0] == m && states[|msgs|] == end
                            && Tells(run, msgs, states, replies);
      forall i | 0 <= i <= |msgs| ensures states[i] == Execute(run, m, msgs[..i]) {
        PassedIs(run, m, msgs, states, i);
      }
      assert replies == Respond(run, m, msgs);
    }
    if replies == Respond(run, m, msgs) && end == Execute(run, m, msgs) {
      var states := seq(|msgs| + 1, i requires 0 <= i <= |msgs| => Execute(run, m, msgs[..i]));
      ServeNothing(run, m);
      assert msgs[..0] == [];
      forall i | 0 <= i < |msgs|
        ensures states[i + 1] == if msgs[i].kind.Request? then run(states[i], msgs[i].body).0 else states[i]
      {
        ServeNext(run, m, msgs, i);
      }
      assert Passes(run, msgs, states) && Tells(run, msgs, states, replies);
    }
  }

  /** One more message executed and answered. */
  lemma ServeNext<M, B>(run: Executor<M, B>, m: M, msgs: seq<Message<B>>, i: nat)
    requires i < |msgs|
    ensures var before, request := Execute(run, m, msgs[..i]), msgs[i];
            && Execute(run, m, msgs[..i + 1]) == (if request.kind.Request? then run(before, request.body).0 else before)
            && Respond(run, m, msgs[..i + 1]) == Respond(run, m, msgs[..i]) + [Answer(run, before, request)]
  {
    assert msgs[..i + 1][..i] == msgs[..i];
  }

  lemma {:induction false} ExecuteAppend<M, B>(run: Executor<M, B>, m: M, a: seq<Message<B>>, b: seq<Message<B>>)
    ensures Execute(run, m, a + b) == Execute(run, Execute(run, m, a), b)
  {
    if b == [] {
      assert a + b == a;
    } else {
      ExecuteAppend(run, m, a, b[..|b| - 1]);
      assert (a + b)[..|a + b| - 1] == a + b[..|b| - 1];
    }
  }

  // ---------------------------------------------------------------- producers, queue and engine

  /** `filling` has the container each producer is packing; `served` and `replies` are what the
      engine has executed and answered. */
  datatype Traffic<M, B> = Traffic(filling: map<nat, seq<Message<B>>>, queue: seq<Container<B>>,
                                   served: seq<Container<B>>, replies: seq<seq<Message<B>>>, media: M)

  datatype Op<B> = Add(producer: nat, body: B) | Send(producer: nat) | Serve

  function SendOne<M, B>(s: Traffic<M, B>, p: nat): Traffic<M, B> {
    if p !in s.filling then s
    else s.(queue := s.queue + [Container(p, s.filling[p])], filling := s.filling - {p})
  }

  /** Packs a request; a container that is full is sent first. */
  function AddOne<M, B>(s: Traffic<M, B>, p: nat, body: B): Traffic<M, B> {
    var s1 := if p in s.filling && |s.filling[p]| >= MAX_MPF_MESSAGE_COUNT then SendOne(s, p) else s;
    s1.(filling := s1.filling[p := Filling(s1, p) + [Message(Request, body, true)]])
  }

  function Filling<M, B>(s: Traffic<M, B>, p: nat): seq<Message<B>> { if p in s.filling then s.filling[p] else [] }

  /** Executes the container at the head of the queue. */
  function ServeOne<M, B>(run: Executor<M, B>, s: Traffic<M, B>): Traffic<M, B> {
    if s.queue == [] then s
    else
      var c := s.queue[0];
      s.(queue := s.queue[1..], served := s.served + [c], replies := s.replies + [Respond(run, s.media, c.messages)],
         media := Execute(run, s.media, c.messages))
  }

  function Step<M, B>(run: Executor<M, B>, s: Traffic<M, B>, op: Op<B>): Traffic<M, B> {
    match op
    case Add(p, body) => AddOne(s, p, body)
    case Send(p) => SendOne(s, p)
    case Serve => ServeOne(run, s)
  }

  function Run<M, B>(run: Executor<M, B>, m: M, ops: seq<Op<B>>): Traffic<M, B> {
    if ops == [] then Traffic(map[], [], [], [], m) else Step(run, Run(run, m, ops[..|ops| - 1]), ops[|ops| - 1])
  }

  /** The requests of one producer, in the order added. */
  function Added<B>(ops: seq<Op<B>>, p: nat): seq<Message<B>> {
    if ops == [] then []
    else
      var before := Added(ops[..|ops| - 1], p);
      match ops[|ops| - 1]
      case Add(q, body) => if q == p then before + [Message(Request, body, true)] else before
      case _ => before
  }

  /** The messages of one producer in a sequence of containers. */
  function Of<B>(cs: seq<Container<B>>, p: nat): seq<Message<B>> {
    if cs == [] then []
    else if cs[|cs| - 1].owner == p then Of(cs[..|cs| - 1], p) + cs[|cs| - 1].messages
    else Of(cs[..|cs| - 1], p)
  }

  function All<B>(cs: seq<Container<B>>): seq<Message<B>> {
    if cs == [] then [] else All(cs[..|cs| - 1]) + cs[|cs| - 1].messages
  }

  lemma {:induction false} OfAppend<B>(a: seq<Container<B>>, b: seq<Container<B>>, p: nat)
    ensures Of(a + b, p) == Of(a, p) + Of(b, p)
  {
    if b == [] {
      assert a + b == a;
    } else {
      OfAppend(a, b[..|b| - 1], p);
      assert (a + b)[..|a + b| - 1] == a + b[..|b| - 1];
    }
  }

  lemma OfOne<B>(c: Container<B>, p: nat)
    ensures Of([c], p) == if c.owner == p then c.messages else []
  {
    assert [c][..0] == [];
  }

  /** All a producer has under way: served, queued, and not yet sent. */
  function UnderWay<M, B>(s: Traffic<M, B>, p: nat): seq<Message<B>> { Of(s.served + s.queue, p) + Filling(s, p) }

  lemma SendKeeps<M, B>(s: Traffic<M, B>, q: nat, p: nat)
    ensures UnderWay(SendOne(s, q), p) == UnderWay(s, p)
  {
    if q in s.filling {
      var c := Container(q, s.filling[q]);
      assert s.served + (s.queue + [c]) == (s.served + s.queue) + [c];
      OfAppend(s.served + s.queue, [c], p);
      OfOne(c, p);
    }
  }

  lemma AddKeeps<M, B>(s: Traffic<M, B>, q: nat, body: B, p: nat)
    ensures UnderWay(AddOne(s, q, body), p) == UnderWay(s, p) + if q == p then [Message(Request, body, true)] else []
  {
    hide Of;
    var s1 := if q in s.filling && |s.filling[q]| >= MAX_MPF_MESSAGE_COUNT then SendOne(s, q) else s;
    SendKeeps(s, q, p);
    assert Of(s1.served + s1.queue, p) + (Filling(s1, p) + [Message(Request, body, true)])
      == UnderWay(s1, p) + [Message(Request, body, true)];
  }

  /** A producer's requests are executed at most once each and in the order added: what was served
      of them, what is queued and what is still being packed are, in this order, what was added. */
  lemma {:induction false} RequestsInOrder<M, B>(run: Executor<M, B>, m: M, ops: seq<Op<B>>, p: nat)
    ensures var s := Run(run, m, ops); Of(s.served, p) + Of(s.queue, p) + Filling(s, p) == Added(ops, p)
  {
    hide Of, SendOne, AddOne, ServeOne;
    var s := Run(run, m, ops);
    OfAppend(s.served, s.queue, p);
    if ops != [] {
      var before, op := ops[..|ops| - 1], ops[|ops| - 1];
      var t := Run(run, m, before);
      RequestsInOrder(run, m, before, p);
      OfAppend(t.served, t.queue, p);
      match op {
        case Add(q, body) => AddKeeps(t, q, body, p);
        case Send(q) => SendKeeps(t, q, p);
        case Serve => ServeKeeps(run, t, p);
      }
    } else {
      NothingYet(p, s.served, s.queue);
    }
  }

  lemma NothingYet<B>(p: nat, served: seq<Container<B>>, queue: seq<Container<B>>)
    requires served == queue == []
    ensures Of(served, p) == Of(queue, p) == []
  {
  }

  lemma ServeKeeps<M, B>(run: Executor<M, B>, s: Traffic<M, B>, p: nat)
    ensures UnderWay(ServeOne(run, s), p) == UnderWay(s, p)
  {
    if s.queue != [] { assert s.served + [s.queue[0]] + s.queue[1..] == s.served + s.queue; }
  }

  /** A container on its way holds between one and five requests. */
  ghost predicate Packed<B>(msgs: seq<Message<B>>) {
    1 <= |msgs| <= MAX_MPF_MESSAGE_COUNT && forall i :: 0 <= i < |msgs| ==> msgs[i].kind.Request?
  }

  ghost predicate AllPacked<M, B>(s: Traffic<M, B>) {
    && (forall p :: p in s.filling ==> Packed(s.filling[p]))
    && (forall k :: 0 <= k < |s.queue| ==> Packed(s.queue[k].messages))
    && (forall k :: 0 <= k < |s.served| ==> Packed(s.served[k].messages))
  }

  lemma {:induction false} ContainersArePacked<M, B>(run: Executor<M, B>, m: M, ops: seq<Op<B>>)
    ensures AllPacked(Run(run, m, ops))
  {
    hide AllPacked, Step;
    if ops == [] {
      NothingPacked(run, m);
    } else {
      ContainersArePacked(run, m, ops[..|ops| - 1]);
      StepPacks(run, Run(run, m, ops[..|ops| - 1]), ops[|ops| - 1]);
    }
  }

  lemma NothingPacked<M, B>(run: Executor<M, B>, m: M)
    ensures AllPacked(Run(run, m, []))
  {
  }

  lemma StepPacks<M, B>(run: Executor<M, B>, s: Traffic<M, B>, op: Op<B>)
    requires AllPacked(s)
    ensures AllPacked(Step(run, s, op))
  {
  }

  /** How many containers of a producer are not full, and how often it asked for one to be sent. */
  function Partial<B>(cs: seq<Container<B>>, p: nat): nat {
    if cs == [] then 0
    else
      var c := cs[|cs| - 1];
      Partial(cs[..|cs| - 1], p) + if c.owner == p && |c.messages| < MAX_MPF_MESSAGE_COUNT then 1 else 0
  }

  function Asked<B>(ops: seq<Op<B>>, p: nat): nat {
    if ops == [] then 0
    else
      var op := ops[|ops| - 1];
      Asked(ops[..|ops| - 1], p) + if op.Send? && op.producer == p then 1 else 0
  }

  lemma {:induction false} PartialSplit<B>(a: seq<Container<B>>, b: seq<Container<B>>, p: nat)
    ensures Partial(a + b, p) == Partial(a, p) + Partial(b, p)
  {
    if b == [] {
      assert a + b == a;
    } else {
      PartialSplit(a, b[..|b| - 1], p);
      assert (a + b)[..|a + b| - 1] == a + b[..|b| - 1];
    }
  }

  lemma PartialOne<B>(c: Container<B>, p: nat)
    ensures Partial([c], p) == if c.owner == p && |c.messages| < MAX_MPF_MESSAGE_COUNT then 1 else 0
  {
    assert [c][..0] == [];
  }

  /** A container is sent before it is full only when its producer asks for it. */
  lemma {:induction false} FullUnlessAsked<M, B>(run: Executor<M, B>, m: M, ops: seq<Op<B>>, p: nat)
    ensures var s := Run(run, m, ops); Partial(s.served, p) + Partial(s.queue, p) <= Asked(ops, p)
  {
    hide AddOne, SendOne, ServeOne, Execute, Respond;
    if ops != [] {
      var before, op := ops[..|ops| - 1], ops[|ops| - 1];
      FullUnlessAsked(run, m, before, p);
      StepPartial(run, Run(run, m, before), op, p);
    }
  }

  lemma StepPartial<M, B>(run: Executor<M, B>, s: Traffic<M, B>, op: Op<B>, p: nat)
    ensures var n := Step(run, s, op);
            Partial(n.served, p) + Partial(n.queue, p)
              <= Partial(s.served, p) + Partial(s.queue, p) + if op.Send? && op.producer == p then 1 else 0
  {
    hide Execute, Respond, Partial;
    match op
    case Add(q, body) =>
      if q in s.filling { PartialLast(s.queue, Container(q, s.filling[q]), p); }
    case Send(q) =>
      if q in s.filling { PartialLast(s.queue, Container(q, s.filling[q]), p); }
    case Serve =>
      if s.queue != [] {
        PartialLast(s.served, s.queue[0], p);
        PartialSplit([s.queue[0]], s.queue[1..], p);
        PartialOne(s.queue[0], p);
        assert [s.queue[0]] + s.queue[1..] == s.queue;
      }
  }

  lemma PartialLast<B>(cs: seq<Container<B>>, c: Container<B>, p: nat)
    ensures Partial(cs + [c], p)
         == Partial(cs, p) + if c.owner == p && |c.messages| < MAX_MPF_MESSAGE_COUNT then 1 else 0
  {
    hide Partial;
    PartialSplit(cs, [c], p);
    PartialOne(c, p);
  }

  /** The media state is that of executing the served requests one after the other, and every
      container is answered from the state in which it was reached. */
  ghost predicate InSequence<M(!new), B(!new)>(run: Executor<M, B>, m: M, s: Traffic<M, B>) {
    && s.media == Execute(run, m, All(s.served)) && |s.replies| == |s.served|
    && forall k :: 0 <= k < |s.served| ==> AnsweredAt(run, m, s, k)
  }

  ghost predicate AnsweredAt<M, B>(run: Executor<M, B>, m: M, s: Traffic<M, B>, k: nat)
    requires k < |s.served| == |s.replies|
  {
    s.replies[k] == Respond(run, Execute(run, m, All(s.served[..k])), s.served[k].messages)
  }

  lemma AllNext<B>(cs: seq<Container<B>>, c: Container<B>)
    ensures All(cs + [c]) == All(cs) + c.messages && (cs + [c])[..|cs|] == cs
  {
    assert (cs + [c])[..|cs|] == cs;
  }

  lemma ServeInSequence<M(!new), B(!new)>(run: Executor<M, B>, m: M, s: Traffic<M, B>)
    requires InSequence(run, m, s)
    ensures InSequence(run, m, ServeOne(run, s))
  {
    hide Execute, Respond, All;
    if s.queue != [] {
      var c, r := s.queue[0], ServeOne(run, s);
      AllNext(s.served, c);
      ExecuteAppend(run, m, All(s.served), c.messages);
      forall k | 0 <= k < |r.served| ensures AnsweredAt(run, m, r, k) {
        if k < |s.served| {
          assert AnsweredAt(run, m, s, k) && r.served[..k] == s.served[..k];
        }
      }
    }
  }

  lemma {:induction false} ServedInSequence<M(!new), B(!new)>(run: Executor<M, B>, m: M, ops: seq<Op<B>>)
    ensures InSequence(run, m, Run(run, m, ops))
  {
    hide ServeOne, AllPacked;
    if ops != [] {
      var before, op := ops[..|ops| - 1], ops[|ops| - 1];
      ServedInSequence(run, m, before);
      var t := Run(run, m, before);
      if op.Serve? {
        ServeInSequence(run, m, t);
      } else {
        var s := Step(run, t, op);
        forall k | 0 <= k < |s.served| ensures AnsweredAt(run, m, s, k) { assert AnsweredAt(run, m, t, k); }
      }
    }
  }

  /** The containers served took the media state from `m` to where it is, through `states`, and each was
      replied to as serving it from the state before it gives. */
  ghost predicate Replied<M(!new), B(!new)>(run: Executor<M, B>, m: M, s: Traffic<M, B>, states: seq<M>) {
    && |states| == |s.served| + 1 && |s.replies| == |s.served| && states[0] == m && states[|s.served|] == s.media
    && forall k :: 0 <= k < |s.served| ==>
         Serves(run, states[k], s.served[k].messages, s.replies[k], states[k + 1])
  }

  /** In every run, each request served has a reply at its place, in its container, that tells how it did
      in the media state left behind by all the requests before it. */
  lemma {:induction false} RepliesTell<M(!new), B(!new)>(run: Executor<M, B>, m: M, ops: seq<Op<B>>)
    ensures exists states: seq<M> :: Replied(run, m, Run(run, m, ops), states)
  {
    hide Serves, Execute, Respond;
    if ops == [] {
      assert Replied(run, m, Run(run, m, ops), [m]);
    } else {
      var before, op := ops[..|ops| - 1], ops[|ops| - 1];
      RepliesTell(run, m, before);
      var t, s := Run(run, m, before), Run(run, m, ops);
      var states: seq<M> :| Replied(run, m, t, states);
      if op.Serve? && t.queue != [] {
        var c := t.queue[0];
        ResponsesAligned(run, t.media, c.messages, Respond(run, t.media, c.messages), s.media);
        assert Replied(run, m, s, states + [s.media]);
      } else {
        assert Replied(run, m, s, states);
      }
    }
  }

  /** Once a producer has sent everything and the queue is drained, all its requests are served. */
  lemma DrainedIsServed<M, B>(run: Executor<M, B>, m: M, ops: seq<Op<B>>, p: nat)
    requires Run(run, m, ops).queue == [] && p !in Run(run, m, ops).filling
    ensures Of(Run(run, m, ops).served, p) == Added(ops, p)
  {
    RequestsInOrder(run, m, ops, p);
    NothingYet<B>(p, [], Run(run, m, ops).queue);
  }

  lemma ServeNothing<M, B>(run: Executor<M, B>, m: M)
    ensures Execute(run, m, []) == m && Respond(run, m, []) == []
  {
  }

  // ---------------------------------------------------------------- the engine itself

  /** Serves the queue until it is empty. */
  function Drain<M, B>(run: Executor<M, B>, s: Traffic<M, B>): (r: Traffic<M, B>)
    ensures r.queue == []
    decreases |s.queue|
  {
    if s.queue == [] then s else Drain(run, ServeOne(run, s))
  }

  /** Draining is a run of as many servings as there are containers queued. */
  lemma {:induction false} DrainIsRun<M, B>(run: Executor<M, B>, m: M, ops: seq<Op<B>>)
    ensures var n := |Run(run, m, ops).queue|;
            Drain(run, Run(run, m, ops)) == Run(run, m, ops + seq(n, _ => Serve))
    decreases |Run(run, m, ops).queue|
  {
    var s := Run(run, m, ops);
    if s.queue == [] {
      assert ops + seq(0, _ => Serve) == ops;
    } else {
      var next, n := ops + [Serve], |s.queue|;
      assert next[..|next| - 1] == ops;
      DrainIsRun(run, m, next);
      assert next + seq(n - 1, _ => Serve) == ops + seq(n, _ => Serve);
    }
  }

  lemma DrainNext<M, B>(run: Executor<M, B>, s: Traffic<M, B>)
    ensures s.queue == [] ==> Drain(run, s) == s
    ensures s.queue != [] ==>
              && Drain(run, s) == Drain(run, ServeOne(run, s))
              && var c := s.queue[0];
                 ServeOne(run, s) == Traffic(s.filling, s.queue[1..], s.served + [c],
                   s.replies + [Respond(run, s.media, c.messages)],
                                             Execute(run, s.media, c.messages))
  {
  }

  class Engine<M(!new), B(!new)> {
    const run: Executor<M, B>
    const requests: Queue<Container<B>>
    var filling: map<nat, seq<Message<B>>>
    var served: seq<Container<B>>
    var replies: seq<seq<Message<B>>>
    var media: M

    ghost predicate Valid()
      reads requests
    {
      requests.Valid() && requests.maxSize >= 2
    }

    ghost function State(): Traffic<M, B>
      requires Valid()
      reads this, requests, requests.data
    {
      Traffic(filling, requests.Contents(), served, replies, media)
    }

    constructor (run: Executor<M, B>, media: M)
      ensures Valid() && fresh(requests) && fresh(requests.data) && this.run == run
      ensures State() == Traffic(map[], [], [], [], media)
    {
      this.run, this.media := run, media;
      requests := new Queue<Container<B>>(DEFAULT_SIZE);
      filling, served, replies := map[], [], [];
    }

    method MessageSend(p: nat) returns (ok: bool)
      requires Valid()
      modifies `filling, requests, requests.data
      ensures Valid() && (requests.data == old(requests.data) || fresh(requests.data))
      ensures ok == (p in old(filling)) && State() == SendOne(old(State()), p)
    {
      if p !in filling { return false; }
      requests.Push(Container(p, filling[p]));
      filling := filling - {p};
      ok := true;
    }

    method MessageAdd(p: nat, body: B)
      requires Valid()
      modifies `filling, requests, requests.data
      ensures Valid() && (requests.data == old(requests.data) || fresh(requests.data))
      ensures State() == AddOne(old(State()), p, body)
      decreases p in filling
    {
      if p in filling {
        if |filling[p]| >= MAX_MPF_MESSAGE_COUNT {
          var _ := MessageSend(p);
          MessageAdd(p, body);
          return;
        }
      } else {
        filling := filling[p := []];
      }
      filling := filling[p := filling[p] + [Message(Request, body, true)]];
    }

    /** Executes the requests of a container, writing each response over its request's copy. */
    method MsgProcess(c: Container<B>)
      modifies `media, `replies
      ensures media == Execute(run, old(media), c.messages)
      ensures replies == old(replies) + [Respond(run, old(media), c.messages)]
      ensures Serves(run, old(media), c.messages, replies[|replies| - 1], media)
    {
      hide Execute, Respond, Serves;
      var response, i := c.messages, 0;
      ServeNothing(run, media);
      assert c.messages[..0] == [];
      while i < |c.messages|
        invariant 0 <= i <= |c.messages| == |response| && replies == old(replies)
        invariant media == Execute(run, old(media), c.messages[..i])
        invariant response[..i] == Respond(run, old(media), c.messages[..i]) && response[i..] == c.messages[i..]
      {
        ServeNext(run, old(media), c.messages, i);
        var request := c.messages[i];
        assert response[i] == response[i..][0] == c.messages[i..][0] == request;
        if request.kind.Request? {
          var (next, ok) := run(media, request.body);
          media := next;
          response := response[i := Message(Response, request.body, ok)];
        }
        assert response[..i + 1] == response[..i] + [response[i]];
        assert response[i + 1..] == c.messages[i + 1..];
        i := i + 1;
      }
      assert c.messages[..i] == c.messages && response[..i] == response;
      replies := replies + [response];
      ResponsesAligned(run, old(media), c.messages, response, media);
    }

    /** The engine's clock tick: serves the queue until it is empty. */
    method ServeAll()
      requires Valid()
      modifies this, requests
      ensures Valid() && State() == Drain(run, old(State())) && requests.Contents() == []
    {
      hide Execute, Respond, ServeOne, Drain;
      ghost var goal := Drain(run, State());
      DrainNext(run, State());
      var msg := requests.Pop();
      while msg.Some?
        invariant Valid() && requests.data == old(requests.data)
        invariant msg.Some? ==> goal == Drain(run, State().(queue := [msg.value] + requests.Contents()))
        invariant msg.None? ==> requests.Contents() == [] && goal == State()
        decreases msg.Some?, |requests.Contents()|
      {
        ghost var s := State().(queue := [msg.value] + requests.Contents());
        DrainNext(run, s);
        MsgProcess(msg.value);
        served := served + [msg.value];
        ghost var t := State();
        assert s.queue[1..] == requests.Contents();
        assert t == ServeOne(run, s);
        DrainNext(run, t);
        msg := requests.Pop();
      }
    }
  }
}
