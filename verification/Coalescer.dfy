/** The per-worker commit coalescer. Asyncio code is atomic between awaits and no
    critical section awaits inside the lock, so each method below is one atomic
    segment of a task: a submit, a turn of the drainer up to its next await, a
    cancellation delivered at an await, or the admission-closing part of close.
    Segments are specified by functions on the coalescer's value, and the promises
    are proved over every sequence of segments. */
module Coalescer {
  import opened Wrappers

  type Time = int // microseconds

  const BATCH_SIZE := 8
  const MAX_WAIT: Time := 10_000

  /** StopIteration is the one exception a future refuses to hold, with a Refusal. */
  datatype Exc = Closed | Mismatch | StopIteration | Refusal | Other(code: int)

  /** What a future holds once done, and what the executor answers per item. */
  datatype Answer = Value(v: int) | Failed(exc: Exc)

  /** What the executor hands back: a list, something that is not iterable, an
      iterable that raises while it is read, or an exception. */
  datatype Return = Answers(list: seq<Answer>) | NotIterable | IterationRaises(exc: Exc) | Raises(exc: Exc)

  /** An accepted candidate; its id is its admission number and names its future. */
  datatype Pending = Pending(id: nat, event: int, enqueuedAt: Time)

  /** The drainer task: none, created but not yet run, waiting for arrivals, waiting
      for the executor, or cancelled before its first step ever ran. */
  datatype Drainer = NoDrainer | Created | Collecting(deadline: Time) | Executing | NeverRan

  datatype Batch = Batch(items: seq<Pending>, at: Time)

  /** The coalescer's fields, then the history the promises speak about. */
  datatype State = State(
    queue: seq<Pending>, inflight: seq<Pending>, drainer: Drainer, arrival: bool, closing: bool,
    failure: Option<Exc>, futures: map<nat, Answer>,
    admitted: seq<Pending>, taken: seq<Batch>, outcomes: seq<Return>, lost: seq<Pending>)

  const EMPTY := State([], [], NoDrainer, false, false, None, map[], [], [], [], [])

  // ----- resolving futures -----

  function Resolve(f: map<nat, Answer>, id: nat, a: Answer): map<nat, Answer> {
    if id in f then f else f[id := a]
  }

  function ResolveAll(f: map<nat, Answer>, items: seq<Pending>, a: Answer): map<nat, Answer> {
    if items == [] then f else Resolve(ResolveAll(f, items[..|items| - 1], a), items[|items| - 1].id, a)
  }

  function ResolveEach(f: map<nat, Answer>, items: seq<Pending>, answers: seq<Answer>): map<nat, Answer>
    requires |items| == |answers|
  {
    if items == [] then f
    else
      var n := |items| - 1;
      Resolve(ResolveEach(f, items[..n], answers[..n]), items[n].id, answers[n])
  }

  // ----- the segments, on values -----

  predicate Refuses(s: State) { s.failure.Some? || s.closing }

  function Submit(s: State, event: int, now: Time): State {
    if Refuses(s) then s
    else
      var item := Pending(|s.admitted|, event, now);
      s.(queue := s.queue + [item], arrival := true, admitted := s.admitted + [item],
         drainer := if s.drainer.NoDrainer? then Created else s.drainer)
  }

  function Take(s: State, now: Time): State {
    var size := if |s.queue| < BATCH_SIZE then |s.queue| else BATCH_SIZE;
    if size == 0 then s.(drainer := NoDrainer) // nothing to run; the next turn finds the queue empty
    else s.(queue := s.queue[size..], inflight := s.queue[..size], drainer := Executing,
            taken := s.taken + [Batch(s.queue[..size], now)])
  }

  function AwaitGroup(s: State, deadline: Time, now: Time): State {
    if deadline - now <= 0 then Take(s, now)
    else
      var cleared := s.(arrival := false);
      if |s.queue| >= BATCH_SIZE then Take(cleared, now) else cleared.(drainer := Collecting(deadline))
  }

  /** The top of the drain loop, up to its next await. */
  function Turn(s: State, now: Time): State {
    if s.queue == [] then s.(drainer := NoDrainer)
    else if |s.queue| >= BATCH_SIZE then Take(s, now)
    else AwaitGroup(s, s.queue[0].enqueuedAt + MAX_WAIT, now)
  }

  function FailEverything(s: State, exc: Exc): State {
    s.(failure := Some(exc), closing := true, drainer := NoDrainer, inflight := [], queue := [],
       futures := ResolveAll(ResolveAll(s.futures, s.inflight, Failed(exc)), s.queue, Failed(exc)))
  }

  /** The answer each member of a group of this size gets. */
  function Expected(r: Return, size: nat, k: nat): Answer
    requires k < size && !r.IterationRaises?
  {
    match r
    case Raises(exc) => Failed(exc)
    case NotIterable => Failed(Mismatch)
    case Answers(list) => if |list| == size then list[k] else Failed(Mismatch)
  }

  /** How many of these answers, from the first on, futures accept. */
  function Accepted(list: seq<Answer>): (k: nat)
    ensures k <= |list| && (k < |list| ==> list[k] == Failed(StopIteration))
    ensures forall j | 0 <= j < k :: list[j] != Failed(StopIteration)
  {
    if list == [] then 0
    else
      var k := Accepted(list[..|list| - 1]);
      if k < |list| - 1 || list[|list| - 1] == Failed(StopIteration) then k else |list|
  }

  /** How many members of a group of this size get their answer. */
  function Delivered(r: Return, size: nat): (k: nat)
    ensures k <= size
  {
    match r
    case IterationRaises(_) => 0
    case Answers(list) => if |list| == size then Accepted(list) else size
    case _ => size
  }

  /** The executor came back: the rest of `_run_batch`, then the loop goes on. An answer
      that raises while it is read, or that holds an exception no future accepts, ends
      the drainer with the rest of the group out of flight. */
  function GroupReturned(s: State, r: Return, now: Time): State {
    var freed := s.(inflight := [], outcomes := s.outcomes + [r]);
    match r
    case IterationRaises(exc) => FailEverything(freed.(lost := s.inflight), exc)
    case Raises(exc) => Turn(freed.(futures := ResolveAll(s.futures, s.inflight, Failed(exc))), now)
    case NotIterable => Turn(freed.(futures := ResolveAll(s.futures, s.inflight, Failed(Mismatch))), now)
    case Answers(list) =>
      if |list| == |s.inflight| then
        var k := Accepted(list);
        var resolved := freed.(futures := ResolveEach(s.futures, s.inflight[..k], list[..k]));
        if k < |list| then FailEverything(resolved.(lost := s.inflight[k..]), Refusal) else Turn(resolved, now)
      else Turn(freed.(futures := ResolveAll(s.futures, s.inflight, Failed(Mismatch))), now)
  }

  /** A CancelledError at the drainer's await. Thrown into a coroutine that never
      ran, it does not reach the handler in `_drain`. */
  function CancelDrainer(s: State): State {
    if s.drainer.Created? then s.(drainer := NeverRan)
    else if s.drainer.Collecting? || s.drainer.Executing? then FailEverything(s, Closed)
    else s
  }

  function CrashDrainer(s: State, exc: Exc): State {
    if s.drainer.Collecting? || s.drainer.Executing? then FailEverything(s, exc) else s
  }

  function BeginClose(s: State): State { s.(closing := true, arrival := true) }

  // ----- the same segments, as the object runs them -----

  class MergeCommitCoalescer {
    var queue: seq<Pending>
    var inflight: seq<Pending>
    var drainer: Drainer
    var arrival: bool
    var closing: bool
    var failure: Option<Exc>
    var futures: map<nat, Answer>
    var admissions: nat
    ghost var admitted: seq<Pending>
    ghost var taken: seq<Batch>
    ghost var outcomes: seq<Return>
    ghost var lost: seq<Pending>

    ghost function View(): State
      reads this
    {
      State(queue, inflight, drainer, arrival, closing, failure, futures, admitted, taken, outcomes, lost)
    }

    ghost predicate Valid()
      reads this
    {
      admissions == |admitted|
    }

    constructor ()
      ensures Valid() && View() == EMPTY
    {
      queue, inflight, drainer, arrival, closing, failure := [], [], NoDrainer, false, false, None;
      futures, admissions, admitted, taken, outcomes, lost := map[], 0, [], [], [], [];
    }

    method SubmitEvent(event: int, now: Time) returns (accepted: Option<nat>)
      requires Valid()
      modifies this
      ensures Valid() && View() == Submit(old(View()), event, now)
      ensures accepted == if Refuses(old(View())) then None else Some(|old(admitted)|)
    {
      if failure.Some? || closing { return None; }
      var item := Pending(admissions, event, now);
      queue, arrival := queue + [item], true;
      admitted, admissions := admitted + [item], admissions + 1;
      if drainer.NoDrainer? { drainer := Created; }
      accepted := Some(item.id);
    }

    method ResolveOne(id: nat, a: Answer)
      modifies this`futures
      ensures futures == Resolve(old(futures), id, a)
    {
      if id !in futures { futures := futures[id := a]; }
    }

    method ResolveGroup(items: seq<Pending>, a: Answer)
      modifies this`futures
      ensures futures == ResolveAll(old(futures), items, a)
    {
      var i := 0;
      while i < |items|
        invariant 0 <= i <= |items| && futures == ResolveAll(old(futures), items[..i], a)
      {
        assert items[..i + 1][..i] == items[..i];
        ResolveOne(items[i].id, a);
        i := i + 1;
      }
      assert items[..i] == items;
    }

    /** Stops at the first answer that its future refuses. */
    method ResolveZip(items: seq<Pending>, answers: seq<Answer>) returns (k: nat)
      requires |items| == |answers|
      modifies this`futures
      ensures k == Accepted(answers) && futures == ResolveEach(old(futures), items[..k], answers[..k])
    {
      k := 0;
      while k < |items| && answers[k] != Failed(StopIteration)
        invariant 0 <= k <= |items| && futures == ResolveEach(old(futures), items[..k], answers[..k])
        invariant forall j | 0 <= j < k :: answers[j] != Failed(StopIteration)
      {
        assert items[..k + 1][..k] == items[..k] && answers[..k + 1][..k] == answers[..k];
        ResolveOne(items[k].id, answers[k]);
        k := k + 1;
      }
    }

    method TakeBatch(now: Time)
      requires Valid()
      modifies this`queue, this`inflight, this`drainer, this`taken
      ensures Valid() && View() == Take(old(View()), now)
    {
      var size := if |queue| < BATCH_SIZE then |queue| else BATCH_SIZE;
      var batch := [];
      ghost var q := queue;
      while |batch| < size
        invariant |batch| <= size && batch == q[..|batch|] && queue == q[|batch|..]
        invariant View() == old(View()).(queue := queue)
      {
        batch, queue := batch + [queue[0]], queue[1..];
      }
      if batch != [] {
        inflight, drainer := batch, Executing;
        taken := taken + [Batch(batch, now)];
      } else {
        drainer := NoDrainer;
      }
    }

    method AwaitGroupSegment(deadline: Time, now: Time)
      requires Valid()
      modifies this
      ensures Valid() && View() == AwaitGroup(old(View()), deadline, now)
    {
      if deadline - now <= 0 { TakeBatch(now); return; }
      arrival := false;
      if |queue| >= BATCH_SIZE { TakeBatch(now); return; }
      drainer := Collecting(deadline);
    }

    method DrainTurn(now: Time)
      requires Valid()
      modifies this
      ensures Valid() && View() == Turn(old(View()), now)
    {
      if queue == [] { drainer := NoDrainer; return; }
      var deadline := queue[0].enqueuedAt + MAX_WAIT;
      if |queue| >= BATCH_SIZE { TakeBatch(now); } else { AwaitGroupSegment(deadline, now); }
    }

    method FailAll(exc: Exc)
      requires Valid()
      modifies this
      ensures Valid() && View() == FailEverything(old(View()), exc)
    {
      failure, closing, drainer := Some(exc), true, NoDrainer;
      var stranded := inflight;
      inflight := [];
      ResolveGroup(stranded, Failed(exc));
      ghost var f, q := futures, queue;
      ghost var i := 0;
      while queue != []
        invariant 0 <= i <= |q| && queue == q[i..] && futures == ResolveAll(f, q[..i], Failed(exc))
        invariant Valid() && failure == Some(exc) && closing && drainer == NoDrainer && inflight == []
        invariant arrival == old(arrival) && admitted == old(admitted) && taken == old(taken)
        invariant outcomes == old(outcomes) && lost == old(lost)
        decreases |queue|
      {
        assert q[..i + 1][..i] == q[..i];
        ResolveOne(queue[0].id, Failed(exc));
        queue, i := queue[1..], i + 1;
      }
      assert q[..i] == q;
    }

    method GroupReturnedSegment(r: Return, now: Time)
      requires Valid()
      modifies this
      ensures Valid() && View() == GroupReturned(old(View()), r, now)
    {
      var batch := inflight;
      inflight := [];
      outcomes := outcomes + [r];
      ghost var freed := View();
      match r {
        case IterationRaises(exc) =>
          lost := batch;
          FailAll(exc);
          return;
        case Raises(exc) => ResolveGroup(batch, Failed(exc));
        case NotIterable => ResolveGroup(batch, Failed(Mismatch));
        case Answers(list) =>
          if |list| != |batch| {
            ResolveGroup(batch, Failed(Mismatch));
          } else {
            var k := ResolveZip(batch, list);
            if k < |list| {
              lost := batch[k..];
              FailAll(Refusal);
              return;
            }
          }
      }
      assert View() == freed.(futures := futures);
      DrainTurn(now);
    }

    method CancelDrainerSegment()
      requires Valid()
      modifies this
      ensures Valid() && View() == CancelDrainer(old(View()))
    {
      match drainer
      case Created => drainer := NeverRan;
      case Collecting(_) => FailAll(Closed);
      case Executing => FailAll(Closed);
      case _ =>
    }

    method CloseSegment() returns (awaited: bool)
      requires Valid()
      modifies this`closing, this`arrival
      ensures Valid() && View() == BeginClose(old(View())) && awaited == !drainer.NoDrainer?
    {
      closing := true;
      awaited := !drainer.NoDrainer?;
      arrival := true;
    }
  }
}
