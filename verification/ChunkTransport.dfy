/** Task results cut into chunks by the probe, multiplexed on one session stream and
    put back together by the gateway. */
module ChunkTransport {
  import opened Wrappers

  type TaskId = string

  const DEFAULT_CHUNK_SIZE := 256 * 1024
  const UINT32: nat := 0x1_0000_0000

  datatype Frame = Chunk(task: TaskId, number: nat, data: Bytes) | Result(task: TaskId, count: nat)

  // ----- the probe: cutting -----

  function Flatten(chunks: seq<Bytes>): Bytes {
    if chunks == [] then [] else Flatten(chunks[..|chunks| - 1]) + chunks[|chunks| - 1]
  }

  lemma FlattenAppend(chunks: seq<Bytes>, chunk: Bytes)
    ensures Flatten(chunks + [chunk]) == Flatten(chunks) + chunk
  {
    assert (chunks + [chunk])[..|chunks|] == chunks;
  }

  function EffectiveSize(chunkSize: int): nat { if chunkSize <= 0 then DEFAULT_CHUNK_SIZE else chunkSize }

  /** Exactly the payload, in pieces that are full except possibly the last; an empty
      payload is one empty piece. */
  ghost predicate IsCutOf(payload: Bytes, size: nat, chunks: seq<Bytes>) {
    && chunks != [] && Flatten(chunks) == payload
    && (forall i | 0 <= i < |chunks| - 1 :: |chunks[i]| == size)
    && |chunks[|chunks| - 1]| <= size
    && (chunks[|chunks| - 1] == [] ==> payload == [])
  }

  method ChunkPayload(payload: Bytes, chunkSize: int) returns (chunks: seq<Bytes>)
    ensures IsCutOf(payload, EffectiveSize(chunkSize), chunks)
  {
    var size := if chunkSize <= 0 then DEFAULT_CHUNK_SIZE else chunkSize;
    if payload == [] {
      assert Flatten([[]]) == [] by { assert Flatten([]) == []; }
      return [[]];
    }
    chunks := [];
    var i := 0;
    while i < |payload|
      invariant 0 <= i
      invariant i <= |payload| ==> i == |chunks| * size
      invariant Flatten(chunks) == payload[..if i <= |payload| then i else |payload|]
      invariant i < |payload| ==> forall j | 0 <= j < |chunks| :: |chunks[j]| == size
      invariant i >= |payload| ==>
                  && chunks != [] && (forall j | 0 <= j < |chunks| - 1 :: |chunks[j]| == size)
                  && 0 < |chunks[|chunks| - 1]| <= size
      decreases |payload| - i
    {
      var end := i + size;
      if end > |payload| { end := |payload|; }
      FlattenAppend(chunks, payload[i..end]);
      assert payload[..i] + payload[i..end] == payload[..end];
      chunks := chunks + [payload[i..end]];
      i := i + size;
    }
    assert payload[..|payload|] == payload;
  }

  /** The frames one task's result travels in, with uint32 numbering. */
  function Encode(task: TaskId, chunks: seq<Bytes>): seq<Frame> {
    ChunkFrames(task, chunks) + [Result(task, |chunks| % UINT32)]
  }

  function ChunkFrames(task: TaskId, chunks: seq<Bytes>): (frames: seq<Frame>)
    ensures |frames| == |chunks|
    ensures forall i | 0 <= i < |chunks| :: frames[i] == Chunk(task, i % UINT32, chunks[i])
  {
    seq(|chunks|, i requires 0 <= i < |chunks| => Chunk(task, i % UINT32, chunks[i]))
  }

  // ----- the gateway: reassembling -----

  datatype Outcome = Data(data: Bytes) | IntegrityError

  function Joined(m: map<nat, Bytes>, n: nat): Bytes
    requires forall i: nat | i < n :: i in m
  {
    if n == 0 then [] else Joined(m, n - 1) + m[n - 1]
  }

  /** A map holding every number below its size. */
  ghost predicate Gapless(m: map<nat, Bytes>) { forall i: nat | i < |m| :: i in m }

  ghost function Reassembled(m: map<nat, Bytes>, expected: nat): Outcome {
    if |m| % UINT32 == expected && Gapless(m) then Data(Joined(m, |m|)) else IntegrityError
  }

  function Below(n: nat): (r: set<nat>)
    ensures |r| == n && forall i: nat :: i in r <==> i < n
  {
    if n == 0 then {} else Below(n - 1) + {n - 1}
  }

  lemma GaplessKeys(m: map<nat, Bytes>)
    ensures Gapless(m) <==> m.Keys == Below(|m|)
  {
    if Gapless(m) {
      assert Below(|m|) <= m.Keys;
      if Below(|m|) != m.Keys { SubsetSmaller(Below(|m|), m.Keys); }
    }
  }

  lemma SubsetSmaller(a: set<nat>, b: set<nat>)
    requires a < b
    ensures |a| < |b|
  {
    assert |b| == |a| + |b - a| by { assert b == a + (b - a); }
    var x :| x in b - a;
    assert |b - a| >= 1;
  }

  /** With fewer than 2^32 chunks, reassembly succeeds exactly on the numbers
      0 .. expected-1; any other set of numbers is an integrity error. */
  lemma ReassemblyExactly(m: map<nat, Bytes>, expected: nat)
    requires |m| < UINT32
    ensures Reassembled(m, expected).Data? <==> m.Keys == Below(expected)
  {
    SmallMod(|m|);
    assert |m| == |m.Keys|;
    if expected == |m| { GaplessKeys(m); }
    else { assert |Below(expected)| != |m.Keys|; }
  }

  lemma SmallMod(n: nat)
    ensures n < UINT32 ==> n % UINT32 == n
  {}

  /** The map keys in increasing order, as the library sort leaves them. */
  method SortedKeys(m: map<nat, Bytes>) returns (keys: seq<nat>)
    ensures |keys| == |m| && (forall i | 0 <= i < |keys| :: keys[i] in m)
    ensures forall i, j | 0 <= i < j < |keys| :: keys[i] < keys[j]
  {
    keys := [];
    var todo := m.Keys;
    while todo != {}
      invariant todo <= m.Keys && |keys| + |todo| == |m|
      invariant forall i | 0 <= i < |keys| :: keys[i] in m
      invariant forall i, j | 0 <= i < j < |keys| :: keys[i] < keys[j]
      invariant forall i, k | 0 <= i < |keys| && k in todo :: keys[i] < k
      decreases todo
    {
      var least := Least(todo);
      todo := todo - {least};
      keys := keys + [least];
    }
  }

  method Least(s: set<nat>) returns (least: nat)
    requires s != {}
    ensures least in s && forall x | x in s :: least <= x
  {
    least :| least in s;
    var rest := s - {least};
    while rest != {}
      invariant rest <= s && least in s && forall x | x in s && x !in rest :: least <= x
      decreases rest
    {
      var x :| x in rest;
      rest := rest - {x};
      if x < least { least := x; }
    }
  }

  lemma {:induction false} SortedAtLeastIndex(keys: seq<nat>, i: nat)
    requires i < |keys| && forall i, j | 0 <= i < j < |keys| :: keys[i] < keys[j]
    ensures i <= keys[i]
  {
    if i == 0 {
    } else {
      SortedAtLeastIndex(keys, i - 1);
    }
  }

  /** A gapless map sorts to 0, 1, 2, … and nothing else does. */
  lemma {:induction false} SortedGapless(m: map<nat, Bytes>, keys: seq<nat>)
    requires |keys| == |m| && (forall i | 0 <= i < |keys| :: keys[i] in m)
    requires forall i, j | 0 <= i < j < |keys| :: keys[i] < keys[j]
    ensures Gapless(m) <==> forall i | 0 <= i < |keys| :: keys[i] == i
  {
    if Gapless(m) {
      GaplessKeys(m);
      forall i | 0 <= i < |keys| ensures keys[i] == i {
        SortedAtLeastIndex(keys, i);
        SortedBelow(keys, i, |m|);
      }
    } else {
      var i: nat :| i < |m| && i !in m;
      assert keys[i] != i;
    }
  }

  lemma {:induction false} SortedBelow(keys: seq<nat>, i: nat, bound: nat)
    requires i < |keys| == bound && (forall j | 0 <= j < |keys| :: keys[j] < bound)
    requires forall i, j | 0 <= i < j < |keys| :: keys[i] < keys[j]
    ensures keys[i] <= i
    decreases |keys| - i
  {
    if i + 1 < |keys| { SortedBelow(keys, i + 1, bound); }
  }

  method ReassembleChunks(m: map<nat, Bytes>, expected: nat) returns (r: Outcome)
    requires forall k | k in m :: k < UINT32
    ensures r == Reassembled(m, expected)
  {
    if |m| % UINT32 != expected { return IntegrityError; }
    var keys := SortedKeys(m);
    SortedGapless(m, keys);
    var i := 0;
    while i < |keys|
      invariant 0 <= i <= |keys| && forall j | 0 <= j < i :: keys[j] == j
    {
      SortedAtLeastIndex(keys, i);
      if i % UINT32 != keys[i] { return IntegrityError; }
      i := i + 1;
    }
    var out: Bytes := [];
    i := 0;
    while i < |keys|
      invariant 0 <= i <= |keys| && out == Joined(m, i)
    {
      out := out + m[keys[i]];
      i := i + 1;
    }
    r := Data(out);
  }

  // ----- the session's maps -----

  /** A waiting dispatcher's one-slot channel, empty or holding its outcome; and the
      chunks received per task, whether anyone waits or not. */
  datatype Inbox = Inbox(pending: map<TaskId, Option<Outcome>>, chunks: map<TaskId, map<nat, Bytes>>)

  datatype Event = Register(task: TaskId) | Unregister(task: TaskId) | Arrive(frame: Frame)

  function ChunksOf(b: Inbox, task: TaskId): map<nat, Bytes> { if task in b.chunks then b.chunks[task] else map[] }

  ghost function Step(b: Inbox, e: Event): Inbox {
    match e
    case Register(task) => b.(pending := b.pending[task := None])
    case Unregister(task) => Inbox(b.pending - {task}, b.chunks - {task})
    case Arrive(Chunk(task, number, data)) => b.(chunks := b.chunks[task := ChunksOf(b, task)[number := data]])
    case Arrive(Result(task, count)) =>
      // No one waiting: dropped. A second result would find the slot taken.
      if task !in b.pending || b.pending[task].Some? then b
      else b.(pending := b.pending[task := Some(Reassembled(ChunksOf(b, task), count))])
  }

  class SessionInbox {
    var pending: map<TaskId, Option<Outcome>>
    var chunks: map<TaskId, map<nat, Bytes>>

    ghost function View(): Inbox
      reads this
    {
      Inbox(pending, chunks)
    }

    ghost predicate Valid()
      reads this
    {
      forall t, k | t in chunks && k in chunks[t] :: k < UINT32
    }

    constructor ()
      ensures Valid() && View() == Inbox(map[], map[])
    {
      pending, chunks := map[], map[];
    }

    method RegisterPending(task: TaskId)
      requires Valid()
      modifies this`pending
      ensures Valid() && View() == Step(old(View()), Register(task))
    {
      pending := pending[task := None];
    }

    method UnregisterPending(task: TaskId)
      requires Valid()
      modifies this
      ensures Valid() && View() == Step(old(View()), Unregister(task))
    {
      pending, chunks := pending - {task}, chunks - {task};
    }

    method ReceiveChunk(task: TaskId, number: nat, data: Bytes)
      requires Valid() && number < UINT32
      modifies this`chunks
      ensures Valid() && View() == Step(old(View()), Arrive(Chunk(task, number, data)))
    {
      var m: map<nat, Bytes> := map[];
      if task in chunks { m := chunks[task]; }
      chunks := chunks[task := m[number := data]];
    }

    method ReceiveResult(task: TaskId, count: nat)
      requires Valid()
      modifies this`pending
      ensures Valid() && View() == Step(old(View()), Arrive(Result(task, count)))
    {
      var m: map<nat, Bytes> := map[];
      if task in chunks { m := chunks[task]; }
      if task !in pending { return; }
      var outcome := ReassembleChunks(m, count);
      if pending[task].None? { pending := pending[task := Some(outcome)]; }
    }
  }

  // ----- any interleaving -----

  ghost function After(events: seq<Event>): Inbox {
    if events == [] then Inbox(map[], map[]) else Step(After(events[..|events| - 1]), events[|events| - 1])
  }

  function TaskOf(e: Event): TaskId { if e.Arrive? then e.frame.task else e.task }

  /** The events of one task, in the order they happened. */
  function Own(events: seq<Event>, task: TaskId): seq<Event> {
    if events == [] then []
    else
      var rest := Own(events[..|events| - 1], task);
      if TaskOf(events[|events| - 1]) == task then rest + [events[|events| - 1]] else rest
  }

  ghost predicate SameFor(a: Inbox, b: Inbox, task: TaskId) {
    && (task in a.pending <==> task in b.pending)
    && (task in a.pending ==> a.pending[task] == b.pending[task])
    && ChunksOf(a, task) == ChunksOf(b, task)
  }

  lemma StepsAlike(a: Inbox, b: Inbox, e: Event, task: TaskId)
    requires SameFor(a, b, task)
    ensures TaskOf(e) == task ==> SameFor(Step(a, e), Step(b, e), task)
    ensures TaskOf(e) != task ==> SameFor(Step(a, e), b, task)
  {}

  /** A task's slot and chunks depend on that task's own events alone. */
  lemma {:induction false} TasksAreIndependent(events: seq<Event>, task: TaskId)
    ensures SameFor(After(events), After(Own(events, task)), task)
  {
    if events == [] {
    } else {
      var init, e := events[..|events| - 1], events[|events| - 1];
      TasksAreIndependent(init, task);
      StepsAlike(After(init), After(Own(init, task)), e, task);
      if TaskOf(e) == task {
        var own := Own(events, task);
        assert own[..|own| - 1] == Own(init, task);
      }
    }
  }

  function Arrivals(frames: seq<Frame>): (events: seq<Event>)
    ensures |events| == |frames| && forall i | 0 <= i < |frames| :: events[i] == Arrive(frames[i])
  {
    seq(|frames|, i requires 0 <= i < |frames| => Arrive(frames[i]))
  }

  /** Chunk number to data, a later chunk of the same number winning. */
  function ChunkMap(frames: seq<Frame>): map<nat, Bytes>
    requires forall i | 0 <= i < |frames| :: frames[i].Chunk?
  {
    if frames == [] then map[]
    else ChunkMap(frames[..|frames| - 1])[frames[|frames| - 1].number := frames[|frames| - 1].data]
  }

  lemma {:induction false} ChunksAccumulate(task: TaskId, frames: seq<Frame>)
    requires forall i | 0 <= i < |frames| :: frames[i].Chunk? && frames[i].task == task
    ensures var b := After([Register(task)] + Arrivals(frames));
            task in b.pending && b.pending[task].None? && ChunksOf(b, task) == ChunkMap(frames)
  {
    var events := [Register(task)] + Arrivals(frames);
    if frames == [] {
      assert events == [Register(task)];
      assert After([]) == Inbox(map[], map[]);
    } else {
      var init := frames[..|frames| - 1];
      ChunksAccumulate(task, init);
      assert events[..|events| - 1] == [Register(task)] + Arrivals(init);
    }
  }

  /** What a still-waiting dispatcher gets, for any frames of its task and any events
      of other tasks in between. */
  lemma DispatcherGets(events: seq<Event>, task: TaskId, frames: seq<Frame>, count: nat)
    requires forall i | 0 <= i < |frames| :: frames[i].Chunk? && frames[i].task == task
    requires Own(events, task) == [Register(task)] + Arrivals(frames) + [Arrive(Result(task, count))]
    ensures task in After(events).pending
            && After(events).pending[task] == Some(Reassembled(ChunkMap(frames), count))
  {
    TasksAreIndependent(events, task);
    ChunksAccumulate(task, frames);
    var own := Own(events, task);
    assert own[..|own| - 1] == [Register(task)] + Arrivals(frames);
  }

  lemma {:induction false} EncodedChunkMap(task: TaskId, chunks: seq<Bytes>)
    requires |chunks| <= UINT32
    ensures forall i: nat :: i in ChunkMap(ChunkFrames(task, chunks)) <==> i < |chunks|
    ensures forall i: nat | i < |chunks| :: ChunkMap(ChunkFrames(task, chunks))[i] == chunks[i]
  {
    if chunks == [] {
    } else {
      var n := |chunks| - 1;
      EncodedChunkMap(task, chunks[..n]);
      SmallMod(n);
      var frames := ChunkFrames(task, chunks);
      assert frames[..n] == ChunkFrames(task, chunks[..n]);
      assert ChunkMap(frames) == ChunkMap(frames[..n])[n := chunks[n]];
    }
  }

  lemma {:induction false} JoinedIsFlatten(m: map<nat, Bytes>, chunks: seq<Bytes>, n: nat)
    requires n <= |chunks| && forall i: nat | i < n :: i in m && m[i] == chunks[i]
    ensures Joined(m, n) == Flatten(chunks[..n])
  {
    if n == 0 {
    } else {
      JoinedIsFlatten(m, chunks, n - 1);
      assert chunks[..n][..n - 1] == chunks[..n - 1];
    }
  }

  /** Any number of concurrent tasks with distinct ids, any interleaving that keeps
      each task's own order: a dispatcher still waiting gets exactly its payload. At
      2^32 chunks the announced count wraps to zero, as does the gateway's. */
  lemma DispatcherGetsItsPayload(events: seq<Event>, task: TaskId, payload: Bytes, size: nat, chunks: seq<Bytes>)
    requires IsCutOf(payload, size, chunks) && |chunks| <= UINT32
    requires Own(events, task) == [Register(task)] + Arrivals(Encode(task, chunks))
    ensures task in After(events).pending && After(events).pending[task] == Some(Data(payload))
  {
    var frames := ChunkFrames(task, chunks);
    var m := ChunkMap(frames);
    var count := |chunks| % UINT32;
    assert Arrivals(Encode(task, chunks)) == Arrivals(frames) + [Arrive(Result(task, count))];
    assert Own(events, task) == [Register(task)] + Arrivals(frames) + [Arrive(Result(task, count))];
    DispatcherGets(events, task, frames, count);
    EncodedChunkMap(task, chunks);
    assert m.Keys == Below(|chunks|);
    assert |m| == |m.Keys| == |chunks|;
    JoinedIsFlatten(m, chunks, |chunks|);
    assert chunks[..|chunks|] == chunks;
  }

  /** A still-waiting dispatcher whose task's chunk numbers are not exactly 0 .. n-1
      gets an integrity error, and only then. */
  lemma DispatcherGetsIntegrityErrorExactly(events: seq<Event>, task: TaskId, frames: seq<Frame>, count: nat)
    requires forall i | 0 <= i < |frames| :: frames[i].Chunk? && frames[i].task == task
    requires Own(events, task) == [Register(task)] + Arrivals(frames) + [Arrive(Result(task, count))]
    requires |ChunkMap(frames)| < UINT32
    ensures task in After(events).pending
    ensures After(events).pending[task] == Some(IntegrityError)
            <==> (set i | 0 <= i < |frames| :: frames[i].number) != Below(count)
  {
    DispatcherGets(events, task, frames, count);
    ReassemblyExactly(ChunkMap(frames), count);
    ChunkMapKeys(frames);
  }

  lemma {:induction false} ChunkMapKeys(frames: seq<Frame>)
    requires forall i | 0 <= i < |frames| :: frames[i].Chunk?
    ensures ChunkMap(frames).Keys == set i | 0 <= i < |frames| :: frames[i].number
  {
    if frames == [] {
    } else {
      var init := frames[..|frames| - 1];
      ChunkMapKeys(init);
      assert (set i | 0 <= i < |frames| :: frames[i].number)
          == (set i | 0 <= i < |init| :: init[i].number) + {frames[|init|].number};
    }
  }
}
