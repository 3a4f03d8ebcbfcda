/** The media buffer: chunks of audio and event marks, read out as fixed-size frames. */
module ChunkBuffer {
  import opened Options
  import opened Machine

  datatype FrameType = Audio | Video | Event

  datatype Chunk = Chunk(data: seq<uint8>, types: set<FrameType>)

  /** The unread part of the chunk being read, the chunks queued behind it, and the advertised size. */
  datatype Buffer = Buffer(current: Option<Chunk>, queue: seq<Chunk>, size: int)

  const EMPTY := Buffer(None, [], 0)

  /** The chunks still to be read. */
  function Chunks(current: Option<Chunk>, queue: seq<Chunk>): seq<Chunk> {
    if current.None? then queue else [current.value] + queue
  }

  /** The bytes still to be read. */
  function Unread(b: Buffer): seq<uint8> { Flat(Chunks(b.current, b.queue)) }

  /** The bytes of chunks, one after the other. */
  function Flat(chunks: seq<Chunk>): seq<uint8> {
    if chunks == [] then [] else Flat(chunks[..|chunks| - 1]) + chunks[|chunks| - 1].data
  }

  function Min(a: nat, b: nat): (r: nat) { if a < b then a else b }

  // ---------------------------------------------------------------- reading

  datatype Reading = Reading(bytes: seq<uint8>, types: set<FrameType>, current: Option<Chunk>, queue: seq<Chunk>)

  /** Reads up to `n` bytes chunk by chunk, beginning with the first chunk even if `n` is zero. */
  function ReadChunks(chunks: seq<Chunk>, n: nat): (r: Reading)
    ensures |r.bytes| <= n
    decreases |chunks|
  {
    if chunks == [] then Reading([], {}, None, [])
    else
      var c := chunks[0];
      if n < |c.data| then Reading(c.data[..n], c.types, Some(Chunk(c.data[n..], c.types)), chunks[1..])
      else if n == |c.data| then Reading(c.data, c.types, None, chunks[1..])
      else Then(c.data, c.types, ReadChunks(chunks[1..], n - |c.data|))
  }

  /** `r`, preceded by the bytes and types of a chunk that was used up. */
  function Then(bytes: seq<uint8>, types: set<FrameType>, r: Reading): Reading {
    Reading(bytes + r.bytes, types + r.types, r.current, r.queue)
  }

  /** `bytes` filled up with zeros to `n`. */
  function Padded(bytes: seq<uint8>, n: nat): (r: seq<uint8>)
    requires |bytes| <= n
    ensures |r| == n && r[..|bytes|] == bytes && forall i :: |bytes| <= i < n ==> r[i] == 0
  {
    bytes + seq(n - |bytes|, _ => 0)
  }

  lemma {:induction false} FlatFirst(chunks: seq<Chunk>)
    requires chunks != []
    ensures Flat(chunks) == chunks[0].data + Flat(chunks[1..])
  {
    var last := |chunks| - 1;
    if last > 0 {
      FlatFirst(chunks[..last]);
      assert chunks[..last][1..] == chunks[1..][..last - 1];
    } else {
      assert chunks[1..] == [] && chunks[..0] == [];
    }
  }

  lemma {:induction false} FlatAppend(a: seq<Chunk>, b: seq<Chunk>)
    ensures Flat(a + b) == Flat(a) + Flat(b)
  {
    if b == [] {
      assert a + b == a;
    } else {
      var last := |b| - 1;
      FlatAppend(a, b[..last]);
      FlatLast(a + b);
      FlatLast(b);
      hide Flat;
      assert (a + b)[..|a| + last] == a + b[..last] && (a + b)[|a| + last] == b[last];
      Assoc(Flat(a), Flat(b[..last]), b[last].data);
    }
  }

  lemma FlatLast(chunks: seq<Chunk>)
    requires chunks != []
    ensures Flat(chunks) == Flat(chunks[..|chunks| - 1]) + chunks[|chunks| - 1].data
  {
  }

  lemma Assoc(a: seq<uint8>, b: seq<uint8>, c: seq<uint8>)
    ensures a + (b + c) == a + b + c
  {
  }

  lemma SplitAt(d: seq<uint8>, f: seq<uint8>, n: nat)
    requires n <= |d| + |f|
    ensures n <= |d| ==> (d + f)[..n] == d[..n] && (d + f)[n..] == d[n..] + f
    ensures n >= |d| ==> (d + f)[..n] == d + f[..n - |d|] && (d + f)[n..] == f[n - |d|..]
  {
  }

  /** The frame `r` of `n` bytes holds the next bytes in order, and what is left is the rest of them. */
  predicate TakesNext(r: Reading, flat: seq<uint8>, n: nat) {
    r.bytes == flat[..Min(n, |flat|)] && Flat(Chunks(r.current, r.queue)) == flat[Min(n, |flat|)..]
  }

  lemma CutChunk(c: Chunk, queue: seq<Chunk>, n: nat)
    requires n < |c.data|
    ensures TakesNext(Reading(c.data[..n], c.types, Some(Chunk(c.data[n..], c.types)), queue), c.data + Flat(queue), n)
  {
    var cut := [Chunk(c.data[n..], c.types)] + queue;
    FlatFirst(cut);
    assert cut[1..] == queue;
    hide Flat;
    SplitAt(c.data, Flat(queue), n);
  }

  lemma WholeChunk(c: Chunk, queue: seq<Chunk>)
    ensures TakesNext(Reading(c.data, c.types, None, queue), c.data + Flat(queue), |c.data|)
  {
    hide Flat;
    SplitAt(c.data, Flat(queue), |c.data|);
    assert Flat(queue)[0..] == Flat(queue);
  }

  lemma ThenTakesNext(c: Chunk, r: Reading, flat: seq<uint8>, n: nat)
    requires n > |c.data| && TakesNext(r, flat, n - |c.data|)
    ensures TakesNext(Then(c.data, c.types, r), c.data + flat, n)
  {
    hide Flat;
    SplitAt(c.data, flat, Min(n, |c.data + flat|));
  }

  /** A frame holds the next bytes in order, and what is left is the rest of them. */
  lemma {:induction false} ReadTakesNext(chunks: seq<Chunk>, n: nat)
    ensures TakesNext(ReadChunks(chunks, n), Flat(chunks), n)
    decreases |chunks|
  {
    if chunks == [] {
      assert Flat([]) == [];
    } else {
      hide Flat, TakesNext, Then;
      var c, queue := chunks[0], chunks[1..];
      FlatFirst(chunks);
      if n < |c.data| {
        CutChunk(c, queue, n);
      } else if n == |c.data| {
        WholeChunk(c, queue);
      } else {
        ReadTakesNext(queue, n - |c.data|);
        ThenTakesNext(c, ReadChunks(queue, n - |c.data|), Flat(queue), n);
      }
    }
  }

  /** Chunk `k` is touched by a read of `n` bytes: it is the first, or the ones before it fall short. */
  predicate Touched(chunks: seq<Chunk>, n: nat, k: nat)
    requires k < |chunks|
  {
    k == 0 || |Flat(chunks[..k])| < n
  }

  ghost predicate HasType(chunks: seq<Chunk>, n: nat, t: FrameType) {
    exists k :: 0 <= k < |chunks| && Touched(chunks, n, k) && t in chunks[k].types
  }

  /** The type of a frame is the union of the types of the chunks touched, zero-length ones included. */
  lemma {:induction false} ReadTypes(chunks: seq<Chunk>, n: nat, t: FrameType)
    ensures t in ReadChunks(chunks, n).types <==> HasType(chunks, n, t)
    decreases |chunks|
  {
    if chunks != [] {
      var c := chunks[0];
      assert Touched(chunks, n, 0);
      if n > |c.data| {
        ReadTypes(chunks[1..], n - |c.data|, t);
        TypesShift(chunks, n, t);
      } else {
        forall k | 0 < k < |chunks| ensures !Touched(chunks, n, k) { FlatFirst(chunks[..k]); }
      }
    }
  }

  lemma TouchedShift(chunks: seq<Chunk>, n: nat, k: nat)
    requires chunks != [] && k < |chunks| - 1 && n > |chunks[0].data|
    ensures Touched(chunks[1..], n - |chunks[0].data|, k) == Touched(chunks, n, k + 1)
  {
    FlatFirst(chunks[..k + 1]);
    assert chunks[..k + 1][1..] == chunks[1..][..k];
  }

  lemma TypesShift(chunks: seq<Chunk>, n: nat, t: FrameType)
    requires chunks != [] && n > |chunks[0].data|
    ensures HasType(chunks, n, t) <==> t in chunks[0].types || HasType(chunks[1..], n - |chunks[0].data|, t)
  {
    var rest, m := chunks[1..], n - |chunks[0].data|;
    FirstTouched(chunks, n);
    hide Touched;
    if HasType(chunks, n, t) {
      var k :| 0 <= k < |chunks| && Touched(chunks, n, k) && t in chunks[k].types;
      if k > 0 {
        TouchedShift(chunks, n, k - 1);
        assert Touched(rest, m, k - 1) && t in rest[k - 1].types;
      }
    }
    if HasType(rest, m, t) {
      var k :| 0 <= k < |rest| && Touched(rest, m, k) && t in rest[k].types;
      TouchedShift(chunks, n, k);
      assert Touched(chunks, n, k + 1) && t in chunks[k + 1].types;
    }
  }

  lemma FirstTouched(chunks: seq<Chunk>, n: nat)
    requires chunks != []
    ensures Touched(chunks, n, 0)
  {
  }

  // ---------------------------------------------------------------- whole runs

  datatype Op = WriteAudio(data: seq<uint8>) | WriteEvent(types: set<FrameType>) | ReadFrame(n: nat) | Restart

  function Step(b: Buffer, op: Op): Buffer {
    match op
    case WriteAudio(data) => b.(queue := b.queue + [Chunk(data, {Audio})], size := b.size + |data|)
    case WriteEvent(types) => b.(queue := b.queue + [Chunk([], types)])
    case ReadFrame(n) => var r := ReadChunks(Chunks(b.current, b.queue), n);
      Buffer(r.current, r.queue, b.size - |r.bytes|)
    case Restart => b.(queue := [])
  }

  function Run(b: Buffer, ops: seq<Op>): Buffer {
    if ops == [] then b else Step(Run(b, ops[..|ops| - 1]), ops[|ops| - 1])
  }

  /** What the writes of a run have put in. */
  function Written(ops: seq<Op>): seq<uint8> {
    if ops == [] then []
    else
      var before := Written(ops[..|ops| - 1]);
      match ops[|ops| - 1] case WriteAudio(data) => before + data case _ => before
  }

  /** What the reads of a run have taken out, without the padding. */
  function Delivered(b: Buffer, ops: seq<Op>): seq<uint8> {
    if ops == [] then []
    else
      var now, before := Run(b, ops[..|ops| - 1]), Delivered(b, ops[..|ops| - 1]);
      match ops[|ops| - 1]
      case ReadFrame(n) => before + ReadChunks(Chunks(now.current, now.queue), n).bytes
      case _ => before
  }

  /** How many bytes the restarts of a run found queued. */
  function Dropped(b: Buffer, ops: seq<Op>): nat {
    if ops == [] then 0
    else
      Dropped(b, ops[..|ops| - 1])
      + match ops[|ops| - 1] case Restart => |Flat(Run(b, ops[..|ops| - 1]).queue)| case _ => 0
  }

  lemma StepUnread(b: Buffer, op: Op)
    ensures match op
            case WriteAudio(data) => Unread(Step(b, op)) == Unread(b) + data
            case WriteEvent(_) => Unread(Step(b, op)) == Unread(b)
            case ReadFrame(n) => ReadChunks(Chunks(b.current, b.queue), n).bytes + Unread(Step(b, op)) == Unread(b)
            case Restart => Unread(b) == Unread(Step(b, op)) + Flat(b.queue)
  {
    hide Flat, ReadChunks;
    var chunks := Chunks(b.current, b.queue);
    match op
    case WriteAudio(data) => AppendUnread(b, Chunk(data, {Audio}));
    case WriteEvent(types) => AppendUnread(b, Chunk([], types)); assert Unread(b) + [] == Unread(b);
    case ReadFrame(n) => ReadTakesNext(chunks, n);
    case Restart => FlatAppend(Chunks(b.current, []), b.queue); assert chunks == Chunks(b.current, []) + b.queue;
  }

  lemma AppendUnread(b: Buffer, c: Chunk)
    ensures Flat(Chunks(b.current, b.queue + [c])) == Unread(b) + c.data
  {
    var chunks := Chunks(b.current, b.queue);
    assert Chunks(b.current, b.queue + [c]) == chunks + [c];
    assert (chunks + [c])[..|chunks|] == chunks;
  }

  /** Without a restart, what has been delivered followed by what is unread is what was written. */
  lemma {:induction false} BytesInOrder(b: Buffer, ops: seq<Op>)
    requires Restart !in ops
    ensures Delivered(b, ops) + Unread(Run(b, ops)) == Unread(b) + Written(ops)
  {
    hide Step, Unread;
    if ops == [] {
      assert [] + Unread(b) == Unread(b) + [];
    } else {
      var before, op := ops[..|ops| - 1], ops[|ops| - 1];
      assert op in ops;
      BytesInOrder(b, before);
      StepUnread(Run(b, before), op);
      if op.WriteAudio? {
        assert Delivered(b, before) + (Unread(Run(b, before)) + op.data)
          == Delivered(b, before) + Unread(Run(b, before)) + op.data;
        assert Unread(b) + (Written(before) + op.data) == Unread(b) + Written(before) + op.data;
      } else if op.ReadFrame? {
        var bytes := ReadChunks(Chunks(Run(b, before).current, Run(b, before).queue), op.n).bytes;
        assert Delivered(b, before) + bytes + Unread(Run(b, ops))
          == Delivered(b, before) + (bytes + Unread(Run(b, ops)));
      }
    }
  }

  /** Chunks with bytes are audio, and events tell of nothing else than they were written with. */
  ghost predicate Typed(chunks: seq<Chunk>) {
    forall k :: 0 <= k < |chunks| && chunks[k].data != [] ==> chunks[k].types == {Audio}
  }

  lemma {:induction false} RunTyped(ops: seq<Op>)
    ensures Typed(Chunks(Run(EMPTY, ops).current, Run(EMPTY, ops).queue))
  {
    hide Typed, Step;
    if ops == [] {
      EmptyTyped();
    } else {
      RunTyped(ops[..|ops| - 1]);
      StepTyped(Run(EMPTY, ops[..|ops| - 1]), ops[|ops| - 1]);
    }
  }

  lemma EmptyTyped()
    ensures Typed(Chunks(EMPTY.current, EMPTY.queue))
  {
  }

  lemma StepTyped(b: Buffer, op: Op)
    requires Typed(Chunks(b.current, b.queue))
    ensures Typed(Chunks(Step(b, op).current, Step(b, op).queue))
  {
    hide ReadChunks;
    var chunks := Chunks(b.current, b.queue);
    match op
    case WriteAudio(data) =>
      var c := Chunk(data, {Audio});
      assert Chunks(b.current, b.queue + [c]) == chunks + [c];
    case WriteEvent(types) =>
      var c := Chunk([], types);
      assert Chunks(b.current, b.queue + [c]) == chunks + [c];
    case ReadFrame(n) => LeftTyped(chunks, n);
    case Restart => assert Chunks(b.current, []) <= chunks;
  }

  lemma {:induction false} LeftTyped(chunks: seq<Chunk>, n: nat)
    requires Typed(chunks)
    ensures var r := ReadChunks(chunks, n); Typed(Chunks(r.current, r.queue)) && (r.bytes != [] ==> Audio in r.types)
    decreases |chunks|
  {
    if chunks != [] && n > |chunks[0].data| { LeftTyped(chunks[1..], n - |chunks[0].data|); }
  }

  /** In every run, a frame with bytes in it is one of audio. */
  lemma BytesAreAudio(ops: seq<Op>, n: nat)
    ensures var b := Run(EMPTY, ops);
            var r := ReadChunks(Chunks(b.current, b.queue), n);
            r.bytes != [] ==> Audio in r.types
  {
    hide ReadChunks, Typed;
    RunTyped(ops);
    LeftTyped(Chunks(Run(EMPTY, ops).current, Run(EMPTY, ops).queue), n);
  }

  /** An event is not missed: what it was written with shows in the first frame that takes more bytes than were
      unread before it, or begins with it. */
  lemma EventShows(ops: seq<Op>, types: set<FrameType>, n: nat, t: FrameType)
    requires t in types
    requires var b := Run(EMPTY, ops); |Unread(b)| < n || Chunks(b.current, b.queue) == []
    ensures var b := Run(EMPTY, ops + [WriteEvent(types)]); t in ReadChunks(Chunks(b.current, b.queue), n).types
  {
    hide Flat, ReadChunks;
    assert (ops + [WriteEvent(types)])[..|ops|] == ops;
    var b := Run(EMPTY, ops);
    var was := Chunks(b.current, b.queue);
    var chunks := Chunks(b.current, b.queue + [Chunk([], types)]);
    assert chunks == was + [Chunk([], types)] && chunks[..|was|] == was;
    ReadTypes(chunks, n, t);
    assert Touched(chunks, n, |was|) && t in chunks[|was|].types;
  }

  /** The advertised size exceeds the unread bytes by exactly those that restarts found queued; so
      it is the unread size if and only if no restart dropped a byte. */
  lemma {:induction false} SizeIsUnread(ops: seq<Op>)
    ensures Run(EMPTY, ops).size == |Unread(Run(EMPTY, ops))| + Dropped(EMPTY, ops)
  {
    hide Unread;
    if ops == [] {
      EmptyUnread();
    } else {
      var before, op := ops[..|ops| - 1], ops[|ops| - 1];
      SizeIsUnread(before);
      StepUnread(Run(EMPTY, before), op);
    }
  }

  lemma EmptyUnread()
    ensures Unread(EMPTY) == []
  {
  }

  // ---------------------------------------------------------------- the buffer itself

  class MediaBuffer {
    var queue: seq<Chunk>
    var current: Option<Chunk>
    var remaining: nat
    var size: int

    ghost predicate Valid()
      reads this
    {
      current.Some? ==> remaining <= |current.value.data|
    }

    ghost function State(): Buffer
      requires Valid()
      reads this
    {
      Buffer(if current.None? then None
             else Some(Chunk(current.value.data[|current.value.data| - remaining..], current.value.types)),
             queue, size)
    }

    constructor ()
      ensures Valid() && State() == EMPTY
    {
      queue, current, remaining, size := [], None, 0, 0;
    }

    method RestartBuffer()
      requires Valid()
      modifies `queue
      ensures Valid() && State() == Step(old(State()), Restart)
    {
      queue := [];
    }

    method AudioWrite(data: seq<uint8>)
      requires Valid()
      modifies `queue, `size
      ensures Valid() && State() == Step(old(State()), WriteAudio(data))
    {
      queue := queue + [Chunk(data, {Audio})];
      size := size + |data|;
    }

    method EventWrite(types: set<FrameType>)
      requires Valid()
      modifies `queue
      ensures Valid() && State() == Step(old(State()), WriteEvent(types))
    {
      queue := queue + [Chunk([], types)];
    }

    /** Makes the first queued chunk the one being read, unless one is being read already. */
    method ChunkRead() returns (ok: bool)
      requires Valid()
      modifies `queue, `current, `remaining
      ensures Valid() && Chunks(State().current, State().queue) == Chunks(old(State()).current, old(State()).queue)
      ensures ok == current.Some? && (!ok ==> State() == old(State()) && queue == [])
    {
      if current.None? {
        if queue == [] { return false; }
        assert [queue[0]] + queue[1..] == queue && queue[0].data[0..] == queue[0].data;
        current, queue, remaining := Some(queue[0]), queue[1..], |queue[0].data|;
      }
      ok := true;
    }

    /** Copies `count` bytes of `data` into the frame. */
    static method CopyOut(frame: array<uint8>, at: nat, data: seq<uint8>, from: nat, count: nat)
      requires at + count <= frame.Length && from + count <= |data|
      modifies frame
      ensures frame[..at + count] == old(frame[..at]) + data[from..from + count]
    {
      forall k | 0 <= k < count { frame[at + k] := data[from + k]; }
    }

    /** Copies from the chunk being read what the rest of the frame has room for; the chunk is done
        with once its last byte has been copied. */
    method CopyChunk(frame: array<uint8>, left: nat) returns (now: nat)
      requires Valid() && current.Some? && left <= frame.Length
      modifies `current, `remaining, `size, frame
      ensures Valid()
      ensures var c := old(State()).current.value;
              && now == left - Min(left, |c.data|) && size == old(size) - (left - now)
              && frame[..frame.Length - now] == old(frame[..frame.Length - left]) + c.data[..left - now]
              && State().current == if left < |c.data| then Some(Chunk(c.data[left..], c.types)) else None
    {
      var data, at := current.value.data, frame.Length - left;
      ghost var tail := data[|data| - remaining..];
      if left < remaining {
        assert tail[..left] == data[|data| - remaining..|data| - remaining + left];
        assert tail[left..] == data[|data| - (remaining - left)..];
        CopyOut(frame, at, data, |data| - remaining, left);
        remaining := remaining - left;
        size := size - left;
        now := 0;
      } else {
        assert tail[..remaining] == data[|data| - remaining..|data| - remaining + remaining];
        CopyOut(frame, at, data, |data| - remaining, remaining);
        now := left - remaining;
        size := size - remaining;
        remaining := 0;
        current := None;
      }
    }

    /** Fills a frame, adding the types of the chunks it touches to those the frame has. */
    method FrameRead(frame: array<uint8>, had: set<FrameType>) returns (types: set<FrameType>)
      requires Valid()
      modifies this, frame
      ensures Valid() && State() == Step(old(State()), ReadFrame(frame.Length))
      ensures var r := ReadChunks(Chunks(old(State()).current, old(State()).queue), frame.Length);
              types == had + r.types && frame[..] == Padded(r.bytes, frame.Length)
    {
      hide ReadChunks, Then, Chunks;
      ghost var r := ReadChunks(Chunks(State().current, State().queue), frame.Length);
      var left, more := frame.Length, true;
      ghost var seen: set<FrameType> := {};
      types := had;
      ThenNothing(r);
      while more
        invariant Valid() && 0 <= left <= frame.Length && types == had + seen
        invariant size + frame.Length - left == old(size)
        invariant more ==>
                    var now := Chunks(State().current, State().queue);
                    r == Then(frame[..frame.Length - left], seen, ReadChunks(now, left))
        invariant !more ==> r == Reading(frame[..frame.Length - left], seen, State().current, State().queue)
        decreases more, |Chunks(State().current, State().queue)|
      {
        more := ChunkRead();
        ReadOne(State().current, State().queue, left, frame[..frame.Length - left], seen);
        if more {
          types := types + current.value.types;
          seen := seen + current.value.types;
          left := CopyChunk(frame, left);
          more := left > 0;
        }
      }
      forall k | frame.Length - left <= k < frame.Length { frame[k] := 0; }
      assert frame[..] == Padded(r.bytes, frame.Length);
    }
  }

  lemma ThenNothing(r: Reading)
    ensures Then([], {}, r) == r
  {
  }

  /** One chunk of a read that has got `bytes` and `seen` so far. */
  lemma ReadOne(current: Option<Chunk>, queue: seq<Chunk>, n: nat, bytes: seq<uint8>, seen: set<FrameType>)
    ensures |Chunks(current, queue)| == |queue| + if current.Some? then 1 else 0
    ensures var r := Then(bytes, seen, ReadChunks(Chunks(current, queue), n));
            match current
            case None => queue == [] ==> r == Reading(bytes, seen, None, [])
            case Some(c) =>
              var got := bytes + c.data[..Min(n, |c.data|)];
              if n < |c.data| then r == Reading(got, seen + c.types, Some(Chunk(c.data[n..], c.types)), queue)
              else if n == |c.data| then r == Reading(got, seen + c.types, None, queue)
              else r == Then(got, seen + c.types, ReadChunks(Chunks(None, queue), n - |c.data|))
    ensures |Chunks(None, queue)| == |queue|
  {
    if current.Some? { assert current.value.data[..|current.value.data|] == current.value.data; }
    if current.Some? && n > |current.value.data| {
      var rest := ReadChunks(queue, n - |current.value.data|);
      assert ([current.value] + queue)[1..] == queue;
      assert bytes + (current.value.data + rest.bytes) == bytes + current.value.data + rest.bytes;
      assert seen + (current.value.types + rest.types) == seen + current.value.types + rest.types;
    }
  }
}
