/** What the coalescer promises under every schedule of submits, waiter
    cancellations, drainer turns, executor answers of any shape, drainer
    cancellation or crash, and close. */
module CoalescerRuns {
  import opened Wrappers
  import opened Coalescer

  datatype Action =
    | Submits(event: int, now: Time)
    | WaiterDetaches(id: nat)
    | FirstTurn(now: Time)
    | ArrivalWakes(now: Time)
    | TimesOut(now: Time)
    | ExecutorReturns(r: Return, now: Time)
    | DrainerCancelled
    | DrainerCrashes(exc: Exc)
    | CloseBegins

  predicate Enabled(s: State, a: Action) {
    match a
    case FirstTurn(_) => s.drainer.Created?
    case ArrivalWakes(_) => s.drainer.Collecting? && s.arrival
    case TimesOut(now) => s.drainer.Collecting? && now >= s.drainer.deadline // timers do not fire early
    // a StopIteration raised, not returned, arrives as another exception
    case ExecutorReturns(r, _) => s.drainer.Executing? && (r.Raises? || r.IterationRaises? ==> r.exc != StopIteration)
    case DrainerCrashes(exc) => exc != StopIteration
    case _ => true
  }

  function Next(s: State, a: Action): State
    requires Enabled(s, a)
  {
    match a
    case Submits(event, now) => Submit(s, event, now)
    case WaiterDetaches(_) => s // the accepted item stays; its outcome is only no longer awaited
    case FirstTurn(now) => Turn(s, now)
    case ArrivalWakes(now) => AwaitGroup(s, s.drainer.deadline, now)
    case TimesOut(now) => Take(s, now)
    case ExecutorReturns(r, now) => GroupReturned(s, r, now)
    case DrainerCancelled => CancelDrainer(s)
    case DrainerCrashes(exc) => CrashDrainer(s, exc)
    case CloseBegins => BeginClose(s)
  }

  ghost predicate IsRun(states: seq<State>, actions: seq<Action>) {
    && |states| == |actions| + 1 && states[0] == EMPTY
    && forall i | 0 <= i < |actions| :: Enabled(states[i], actions[i]) && states[i + 1] == Next(states[i], actions[i])
  }

  // ----- invariants -----

  /** How many items these groups hold. */
  function Total(taken: seq<Batch>): nat {
    if taken == [] then 0 else Total(taken[..|taken| - 1]) + |taken[|taken| - 1].items|
  }

  function Flat(taken: seq<Batch>): seq<Pending> {
    if taken == [] then [] else Flat(taken[..|taken| - 1]) + taken[|taken| - 1].items
  }

  /** Items off the queue, and of those the ones no longer in flight. */
  function Off(s: State): int { |s.admitted| - |s.queue| }
  function Settled(s: State): int { Off(s) - |s.inflight| }

  /** The items of a group that its answer left without an outcome. */
  predicate IsLost(s: State, id: nat) { s.lost != [] && s.lost[0].id <= id < s.lost[0].id + |s.lost| }

  /** A stretch of the admission order: consecutive ids from `lo`. */
  predicate Consecutive(items: seq<Pending>, lo: nat) { forall k | 0 <= k < |items| :: items[k].id == lo + k }

  /** Admission order is settled items, then the group in flight, then the queue;
      the settled ones are exactly the resolved ones, save a lost group. */
  ghost predicate Placed(s: State) {
    && Consecutive(s.admitted, 0)
    && 0 <= Settled(s)
    && s.queue == s.admitted[Off(s)..]
    && s.inflight == s.admitted[Settled(s)..Off(s)]
    && (s.lost != [] ==> s.failure.Some? && Consecutive(s.lost, s.lost[0].id)
                         && s.lost[0].id + |s.lost| <= Settled(s))
    && forall id: nat :: id in s.futures <==> id < Settled(s) && !IsLost(s, id)
  }

  ghost predicate DrainerSound(s: State) {
    && (s.failure.Some? ==> s.closing && s.drainer.NoDrainer?)
    && match s.drainer
       case NoDrainer => s.queue == [] && s.inflight == []
       case Executing => s.inflight != [] && s.taken != [] && s.taken[|s.taken| - 1].items == s.inflight
       case Collecting(d) =>
         s.queue != [] && s.inflight == [] && d == s.queue[0].enqueuedAt + MAX_WAIT
         && (|s.queue| >= BATCH_SIZE ==> s.arrival)
       case _ => s.queue != [] && s.inflight == []
  }

  /** A group is one to eight items, and short only once its oldest item's budget is spent. */
  predicate GroupShape(b: Batch) {
    1 <= |b.items| <= BATCH_SIZE
    && (|b.items| < BATCH_SIZE ==> b.at >= b.items[0].enqueuedAt + MAX_WAIT)
  }

  ghost predicate GroupsSound(s: State) {
    && (forall g | 0 <= g < |s.taken| :: GroupShape(s.taken[g]))
    && Total(s.taken) <= Off(s)
    && Flat(s.taken) == s.admitted[..Total(s.taken)]
    && (s.failure.None? ==> Total(s.taken) == Off(s))
  }

  /** The members of a group that came back hold their own answers. */
  ghost predicate HoldsOwn(f: map<nat, Answer>, items: seq<Pending>, r: Return) {
    forall k | 0 <= k < Delivered(r, |items|) :: items[k].id in f && f[items[k].id] == Expected(r, |items|, k)
  }

  ghost predicate AllHoldOwn(f: map<nat, Answer>, taken: seq<Batch>, outcomes: seq<Return>)
    requires |outcomes| <= |taken|
  {
    forall g | 0 <= g < |outcomes| :: HoldsOwn(f, taken[g].items, outcomes[g])
  }

  /** Who is resolved without an answer of its group was failed with the drainer. */
  ghost predicate RestFailed(f: map<nat, Answer>, returned: nat, failure: Option<Exc>) {
    forall id | id in f && id >= returned :: failure.Some? && f[id] == Failed(failure.value)
  }

  ghost predicate OutcomesSound(s: State) {
    && |s.outcomes| <= |s.taken| <= |s.outcomes| + 1
    && (s.drainer.Executing? ==> |s.taken| == |s.outcomes| + 1)
    && (!s.drainer.Executing? && s.failure.None? ==> |s.taken| == |s.outcomes|)
    && AllHoldOwn(s.futures, s.taken, s.outcomes)
    && RestFailed(s.futures, Total(s.taken[..|s.outcomes|]), s.failure)
  }

  ghost predicate Inv(s: State) { Placed(s) && DrainerSound(s) && GroupsSound(s) && OutcomesSound(s) }

  // ----- resolving -----

  lemma {:induction false} ResolveAllIds(f: map<nat, Answer>, items: seq<Pending>, lo: nat, a: Answer)
    requires Consecutive(items, lo)
    ensures forall id: nat :: id in ResolveAll(f, items, a) <==> id in f || lo <= id < lo + |items|
    ensures forall id | id in f :: ResolveAll(f, items, a)[id] == f[id]
    ensures forall id: nat | lo <= id < lo + |items| && id !in f :: ResolveAll(f, items, a)[id] == a
  {
    if items == [] {
    } else {
      ResolveAllIds(f, items[..|items| - 1], lo, a);
    }
  }

  lemma {:induction false} ResolveEachIds(f: map<nat, Answer>, items: seq<Pending>, lo: nat, answers: seq<Answer>)
    requires |items| == |answers| && Consecutive(items, lo)
    requires forall id | id in f :: id < lo
    ensures forall id: nat :: id in ResolveEach(f, items, answers) <==> id in f || lo <= id < lo + |items|
    ensures forall id | id in f :: ResolveEach(f, items, answers)[id] == f[id]
    ensures forall k: nat | k < |items| :: ResolveEach(f, items, answers)[lo + k] == answers[k]
  {
    if items == [] {
    } else {
      var n := |items| - 1;
      ResolveEachIds(f, items[..n], lo, answers[..n]);
      assert items[n].id == lo + n;
    }
  }

  /** Every member of a group of this size gets its answer. */
  predicate Complete(r: Return, size: nat) { !r.IterationRaises? && Delivered(r, size) == size }

  /** The members that get an answer of a group that is not complete take theirs. */
  function Partly(f: map<nat, Answer>, items: seq<Pending>, r: Return): map<nat, Answer> {
    var k := Delivered(r, |items|);
    if r.Answers? && |r.list| == |items| then ResolveEach(f, items[..k], r.list[..k]) else f
  }

  lemma PartlyHoldsOwn(f: map<nat, Answer>, items: seq<Pending>, lo: nat, r: Return)
    requires !Complete(r, |items|) && Consecutive(items, lo) && forall id | id in f :: id < lo
    ensures forall id: nat :: id in Partly(f, items, r) <==> id in f || lo <= id < lo + Delivered(r, |items|)
    ensures forall id | id in f :: Partly(f, items, r)[id] == f[id]
    ensures HoldsOwn(Partly(f, items, r), items, r)
  {
    var k := Delivered(r, |items|);
    if r.Answers? && |r.list| == |items| { ResolveEachIds(f, items[..k], lo, r.list[..k]); }
  }

  /** An open group's members take their answers, whatever the executor gave back. */
  function Answered(f: map<nat, Answer>, items: seq<Pending>, r: Return): map<nat, Answer>
    requires Complete(r, |items|)
  {
    match r
    case Raises(exc) => ResolveAll(f, items, Failed(exc))
    case NotIterable => ResolveAll(f, items, Failed(Mismatch))
    case Answers(list) =>
      if |list| == |items| then ResolveEach(f, items, list) else ResolveAll(f, items, Failed(Mismatch))
  }

  lemma AnsweredHoldsOwn(f: map<nat, Answer>, items: seq<Pending>, lo: nat, r: Return)
    requires Complete(r, |items|) && Consecutive(items, lo) && forall id | id in f :: id < lo
    ensures forall id: nat :: id in Answered(f, items, r) <==> id in f || lo <= id < lo + |items|
    ensures forall id | id in f :: Answered(f, items, r)[id] == f[id]
    ensures HoldsOwn(Answered(f, items, r), items, r)
  {
    match r
    case Raises(exc) => ResolveAllIds(f, items, lo, Failed(exc));
    case NotIterable => ResolveAllIds(f, items, lo, Failed(Mismatch));
    case Answers(list) =>
      if |list| == |items| { ResolveEachIds(f, items, lo, list); }
      else { ResolveAllIds(f, items, lo, Failed(Mismatch)); }
  }

  lemma HoldsOwnGrows(f: map<nat, Answer>, f': map<nat, Answer>, taken: seq<Batch>, outcomes: seq<Return>)
    requires |outcomes| <= |taken| && AllHoldOwn(f, taken, outcomes)
    requires forall id | id in f :: id in f' && f'[id] == f[id]
    ensures AllHoldOwn(f', taken, outcomes)
  {
    forall g | 0 <= g < |outcomes| ensures HoldsOwn(f', taken[g].items, outcomes[g]) {
      assert HoldsOwn(f, taken[g].items, outcomes[g]);
    }
  }

  // ----- each segment keeps the invariant -----

  /** Between groups: nothing in flight, and the drainer is about to look at the queue. */
  ghost predicate Ready(s: State) {
    && Placed(s) && GroupsSound(s) && s.inflight == [] && s.failure.None?
    && |s.taken| == |s.outcomes| && AllHoldOwn(s.futures, s.taken, s.outcomes)
    && RestFailed(s.futures, Total(s.taken), s.failure)
  }

  lemma TakeKeepsInv(s: State, now: Time)
    requires Ready(s) && s.queue != []
    requires |s.queue| < BATCH_SIZE ==> now >= s.queue[0].enqueuedAt + MAX_WAIT
    ensures Inv(Take(s, now))
  {
    var r := Take(s, now);
    var size := |r.inflight|;
    assert r.taken[..|s.taken|] == s.taken;
    assert Off(r) == Off(s) + size && Settled(r) == Settled(s) == Off(s);
    assert r.queue == r.admitted[Off(r)..];
    assert r.inflight == r.admitted[Settled(r)..Off(r)];
    assert GroupShape(Batch(r.inflight, now));
    assert Flat(r.taken) == s.admitted[..Off(s)] + r.inflight == r.admitted[..Off(r)];
    forall g | 0 <= g < |r.outcomes| ensures HoldsOwn(r.futures, r.taken[g].items, r.outcomes[g]) {
      assert r.taken[g] == s.taken[g] && HoldsOwn(s.futures, s.taken[g].items, s.outcomes[g]);
    }
  }

  lemma AwaitGroupKeepsInv(s: State, now: Time)
    requires Ready(s) && s.queue != []
    ensures Inv(AwaitGroup(s, s.queue[0].enqueuedAt + MAX_WAIT, now))
  {
    var deadline := s.queue[0].enqueuedAt + MAX_WAIT;
    if deadline - now <= 0 { TakeKeepsInv(s, now); }
    else {
      var cleared := s.(arrival := false);
      assert Ready(cleared);
      if |s.queue| >= BATCH_SIZE { TakeKeepsInv(cleared, now); }
      else { assert s.taken[..|s.outcomes|] == s.taken; }
    }
  }

  lemma TurnKeepsInv(s: State, now: Time)
    requires Ready(s)
    ensures Inv(Turn(s, now))
  {
    assert s.taken[..|s.outcomes|] == s.taken;
    if s.queue == [] {}
    else if |s.queue| >= BATCH_SIZE { TakeKeepsInv(s, now); }
    else { AwaitGroupKeepsInv(s, now); }
  }

  lemma InvIsReady(s: State)
    requires Inv(s) && s.inflight == [] && s.failure.None?
    ensures Ready(s)
  {
    assert s.taken[..|s.outcomes|] == s.taken;
  }

  lemma SubmitKeepsInv(s: State, event: int, now: Time)
    requires Inv(s)
    ensures Inv(Submit(s, event, now))
  {
    if !Refuses(s) {
      var r := Submit(s, event, now);
      var item := r.admitted[|s.admitted|];
      AppendSlices(s.admitted, item, Settled(s), Off(s));
      AppendSlices(s.admitted, item, 0, Total(s.taken));
      SubmitPlaced(s, event, now);
    }
  }

  lemma SubmitPlaced(s: State, event: int, now: Time)
    requires Placed(s) && !Refuses(s)
    ensures Placed(Submit(s, event, now))
  {
    var r := Submit(s, event, now);
    AppendSlices(s.admitted, r.admitted[|s.admitted|], Settled(s), Off(s));
    assert Off(r) == Off(s) && Settled(r) == Settled(s);
  }

  lemma AppendSlices(a: seq<Pending>, x: Pending, lo: nat, hi: nat)
    requires lo <= hi <= |a|
    ensures (a + [x])[hi..] == a[hi..] + [x] && (a + [x])[lo..hi] == a[lo..hi] && (a + [x])[..hi] == a[..hi]
  {
  }

  /** Failing resolves everything still open, and only that. */
  lemma FailKeepsInv(s: State, exc: Exc)
    requires Placed(s.(failure := Some(exc))) && GroupsSound(s) && s.failure.None?
    requires |s.outcomes| <= |s.taken| <= |s.outcomes| + 1
    requires AllHoldOwn(s.futures, s.taken, s.outcomes)
    requires RestFailed(s.futures, Total(s.taken[..|s.outcomes|]), None)
    ensures Inv(FailEverything(s, exc))
  {
    var r := FailEverything(s, exc);
    var mid := ResolveAll(s.futures, s.inflight, Failed(exc));
    ResolveAllIds(s.futures, s.inflight, Settled(s), Failed(exc));
    ResolveAllIds(mid, s.queue, Off(s), Failed(exc));
    HoldsOwnGrows(s.futures, r.futures, s.taken, s.outcomes);
    assert Off(r) == |r.admitted| == Settled(r);
    assert Placed(r);
  }

  /** The executor's answer, before the loop goes on. */
  lemma AnswersKeepReady(s: State, r: Return)
    requires Inv(s) && s.drainer.Executing? && Complete(r, |s.inflight|)
    ensures Ready(s.(inflight := [], outcomes := s.outcomes + [r], futures := Answered(s.futures, s.inflight, r)))
  {
    var g := |s.outcomes|;
    var n := s.(inflight := [], outcomes := s.outcomes + [r], futures := Answered(s.futures, s.inflight, r));
    AnsweredHoldsOwn(s.futures, s.inflight, Settled(s), r);
    HoldsOwnGrows(s.futures, n.futures, s.taken, s.outcomes);
    assert Off(n) == Off(s) == Settled(n);
    OneMoreHoldsOwn(n.futures, s.taken, s.outcomes, r);
    assert Placed(n);
  }

  /** What a group that its answer does not complete leaves before the drainer fails. */
  function Broken(s: State, r: Return): State {
    s.(inflight := [], outcomes := s.outcomes + [r], futures := Partly(s.futures, s.inflight, r),
       lost := s.inflight[Delivered(r, |s.inflight|)..])
  }

  function LossOf(r: Return): Exc { if r.IterationRaises? then r.exc else Refusal }

  lemma BrokenGroup(s: State, r: Return, now: Time)
    requires !Complete(r, |s.inflight|)
    ensures GroupReturned(s, r, now) == FailEverything(Broken(s, r), LossOf(r))
  {
    assert s.inflight[0..] == s.inflight;
  }

  lemma AnsweredInFull(s: State, r: Return, now: Time)
    requires Complete(r, |s.inflight|)
    ensures GroupReturned(s, r, now)
            == Turn(s.(inflight := [], outcomes := s.outcomes + [r], futures := Answered(s.futures, s.inflight, r)), now)
  {
    if r.Answers? && |r.list| == |s.inflight| {
      assert s.inflight[..|r.list|] == s.inflight && r.list[..|r.list|] == r.list;
    }
  }

  lemma BrokenPlaced(s: State, r: Return, exc: Exc)
    requires Placed(s) && s.failure.None? && s.lost == [] && s.inflight != [] && !Complete(r, |s.inflight|)
    ensures Placed(Broken(s, r).(failure := Some(exc)))
  {
    var n := Broken(s, r);
    var k := Delivered(r, |s.inflight|);
    assert Consecutive(s.inflight, Settled(s));
    PartlyHoldsOwn(s.futures, s.inflight, Settled(s), r);
    assert Off(n) == Off(s) == Settled(n);
    LostSuffix(s.inflight, Settled(s), k);
  }

  lemma LostSuffix(items: seq<Pending>, lo: nat, k: nat)
    requires Consecutive(items, lo) && k <= |items|
    ensures Consecutive(items[k..], lo + k) && (items[k..] != [] ==> items[k..][0].id == lo + k)
  {
  }

  lemma BrokenOutcomes(s: State, r: Return)
    requires Inv(s) && s.drainer.Executing? && !Complete(r, |s.inflight|)
    ensures var n := Broken(s, r);
            AllHoldOwn(n.futures, n.taken, n.outcomes) && RestFailed(n.futures, Total(n.taken[..|n.outcomes|]), None)
  {
    BrokenHoldsOwn(s, r);
    BrokenRestFailed(s, r);
  }

  lemma BrokenHoldsOwn(s: State, r: Return)
    requires Placed(s) && DrainerSound(s) && s.drainer.Executing? && !Complete(r, |s.inflight|)
    requires |s.taken| == |s.outcomes| + 1 && AllHoldOwn(s.futures, s.taken, s.outcomes)
    ensures var n := Broken(s, r); AllHoldOwn(n.futures, n.taken, n.outcomes)
  {
    var n := Broken(s, r);
    assert Consecutive(s.inflight, Settled(s));
    PartlyHoldsOwn(s.futures, s.inflight, Settled(s), r);
    HoldsOwnGrows(s.futures, n.futures, s.taken, s.outcomes);
    OneMoreHoldsOwn(n.futures, s.taken, s.outcomes, r);
  }

  lemma BrokenRestFailed(s: State, r: Return)
    requires Placed(s) && GroupsSound(s) && s.failure.None? && !Complete(r, |s.inflight|)
    requires |s.taken| == |s.outcomes| + 1
    ensures var n := Broken(s, r); RestFailed(n.futures, Total(n.taken[..|n.outcomes|]), None)
  {
    var n := Broken(s, r);
    assert Consecutive(s.inflight, Settled(s));
    PartlyHoldsOwn(s.futures, s.inflight, Settled(s), r);
    assert n.taken[..|n.outcomes|] == n.taken;
  }

  lemma OneMoreHoldsOwn(f: map<nat, Answer>, taken: seq<Batch>, outcomes: seq<Return>, r: Return)
    requires |taken| == |outcomes| + 1 && AllHoldOwn(f, taken, outcomes) && HoldsOwn(f, taken[|outcomes|].items, r)
    ensures AllHoldOwn(f, taken, outcomes + [r])
  {
    forall g | 0 <= g < |outcomes| + 1 ensures HoldsOwn(f, taken[g].items, (outcomes + [r])[g]) {
      if g < |outcomes| { assert HoldsOwn(f, taken[g].items, outcomes[g]); }
    }
  }

  lemma BrokenGroupKeepsInv(s: State, r: Return, now: Time)
    requires Inv(s) && s.drainer.Executing? && !Complete(r, |s.inflight|)
    ensures Inv(GroupReturned(s, r, now))
  {
    BrokenGroup(s, r, now);
    BrokenPlaced(s, r, LossOf(r));
    BrokenOutcomes(s, r);
    FailKeepsInv(Broken(s, r), LossOf(r));
  }

  lemma ReturnKeepsInv(s: State, r: Return, now: Time)
    requires Inv(s) && s.drainer.Executing?
    ensures Inv(GroupReturned(s, r, now))
  {
    if Complete(r, |s.inflight|) {
      AnswersKeepReady(s, r);
      AnsweredInFull(s, r, now);
      TurnKeepsInv(s.(inflight := [], outcomes := s.outcomes + [r], futures := Answered(s.futures, s.inflight, r)), now);
    } else {
      BrokenGroupKeepsInv(s, r, now);
    }
  }

  /** The two states differ in their flags alone. */
  predicate SameItems(s: State, r: State) {
    && r.queue == s.queue && r.inflight == s.inflight && r.failure == s.failure && r.futures == s.futures
    && r.admitted == s.admitted && r.taken == s.taken && r.outcomes == s.outcomes && r.lost == s.lost
  }

  lemma FlagsKeepPlaces(s: State, r: State)
    requires Placed(s) && SameItems(s, r)
    ensures Placed(r)
  {
  }

  lemma FlagsKeepOutcomes(s: State, r: State)
    requires OutcomesSound(s) && SameItems(s, r) && r.drainer.Executing? == s.drainer.Executing?
    ensures OutcomesSound(r)
  {
  }

  lemma FlagsKeepInv(s: State, r: State)
    requires Inv(s) && SameItems(s, r) && DrainerSound(r) && r.drainer.Executing? == s.drainer.Executing?
    ensures Inv(r)
  {
    FlagsKeepPlaces(s, r);
    FlagsKeepOutcomes(s, r);
  }

  lemma CancelKeepsInv(s: State)
    requires Inv(s)
    ensures Inv(CancelDrainer(s))
  {
    if s.drainer.Collecting? || s.drainer.Executing? { FailKeepsInv(s, Closed); }
    else { FlagsKeepInv(s, CancelDrainer(s)); }
  }

  lemma CloseKeepsInv(s: State)
    requires Inv(s)
    ensures Inv(BeginClose(s))
  {
    FlagsKeepInv(s, BeginClose(s));
  }

  lemma StepKeepsInv(s: State, a: Action)
    requires Inv(s) && Enabled(s, a)
    ensures Inv(Next(s, a))
  {
    match a
    case Submits(event, now) => SubmitKeepsInv(s, event, now);
    case WaiterDetaches(_) =>
    case FirstTurn(now) => InvIsReady(s); TurnKeepsInv(s, now);
    case ArrivalWakes(now) => InvIsReady(s); AwaitGroupKeepsInv(s, now);
    case TimesOut(now) => InvIsReady(s); TakeKeepsInv(s, now);
    case ExecutorReturns(r, now) => ReturnKeepsInv(s, r, now);
    case DrainerCancelled => CancelKeepsInv(s);
    case DrainerCrashes(exc) =>
      if s.drainer.Collecting? || s.drainer.Executing? { FailKeepsInv(s, exc); }
    case CloseBegins => CloseKeepsInv(s);
  }

  lemma {:induction false} InvReaches(states: seq<State>, n: nat)
    requires n < |states| && Inv(states[0]) && forall i | 0 <= i < |states| - 1 && Inv(states[i]) :: Inv(states[i + 1])
    ensures Inv(states[n])
  {
    if n == 0 {
    } else {
      InvReaches(states, n - 1);
      assert Inv(states[n - 1 + 1]);
    }
  }

  lemma RunKeepsInv(states: seq<State>, actions: seq<Action>, n: nat)
    requires IsRun(states, actions) && n < |states|
    ensures Inv(states[n])
  {
    forall i | 0 <= i < |actions| && Inv(states[i]) ensures Inv(states[i + 1]) { StepKeepsInv(states[i], actions[i]); }
    InvReaches(states, n);
  }

  // ----- the promises -----

  ghost predicate Among(items: seq<Pending>, id: nat) { exists k | 0 <= k < |items| :: items[k].id == id }

  predicate ExactlyOne(a: bool, b: bool, c: bool, d: bool) {
    && (a || b || c || d)
    && !(a && b) && !(a && c) && !(a && d) && !(b && c) && !(b && d) && !(c && d)
  }

  lemma AmongStretch(admitted: seq<Pending>, items: seq<Pending>, lo: nat, hi: nat, id: nat)
    requires Consecutive(admitted, 0) && lo <= hi <= |admitted| && items == admitted[lo..hi]
    ensures Among(items, id) <==> lo <= id < hi
  {
    if lo <= id < hi { assert items[id - lo].id == id; }
  }

  /** In every reachable state an accepted item is in exactly one place: queue, group
      in flight, resolved, or a group lost to an answer that raised while read or held an
      exception a future refuses. */
  lemma EveryItemInOnePlace(states: seq<State>, actions: seq<Action>, n: nat, id: nat)
    requires IsRun(states, actions) && n < |states| && id < |states[n].admitted|
    ensures var s := states[n];
            ExactlyOne(Among(s.queue, id), Among(s.inflight, id), id in s.futures, IsLost(s, id))
  {
    RunKeepsInv(states, actions, n);
    var s := states[n];
    AmongStretch(s.admitted, s.queue, Off(s), |s.admitted|, id);
    AmongStretch(s.admitted, s.inflight, Settled(s), Off(s), id);
  }

  /** Admission order is the taken groups followed by the queue, until the drainer
      fails; and no drainer means nothing is pending. */
  lemma AdmissionOrderIsGroupsThenQueue(states: seq<State>, actions: seq<Action>, n: nat)
    requires IsRun(states, actions) && n < |states|
    ensures states[n].failure.None? ==> states[n].admitted == Flat(states[n].taken) + states[n].queue
    ensures Flat(states[n].taken) <= states[n].admitted
    ensures states[n].drainer.NoDrainer? ==> states[n].queue == [] && states[n].inflight == []
  {
    RunKeepsInv(states, actions, n);
    GroupsThenQueue(states[n]);
  }

  lemma GroupsThenQueue(s: State)
    requires Placed(s) && GroupsSound(s)
    ensures s.failure.None? ==> s.admitted == Flat(s.taken) + s.queue
    ensures Flat(s.taken) <= s.admitted
  {
    assert s.admitted == s.admitted[..Off(s)] + s.admitted[Off(s)..];
  }

  lemma {:induction false} ResolveAllKeeps(f: map<nat, Answer>, items: seq<Pending>, a: Answer)
    ensures forall id | id in f :: id in ResolveAll(f, items, a) && ResolveAll(f, items, a)[id] == f[id]
  {
    if items == [] {
    } else {
      ResolveAllKeeps(f, items[..|items| - 1], a);
    }
  }

  lemma {:induction false} ResolveEachKeeps(f: map<nat, Answer>, items: seq<Pending>, answers: seq<Answer>)
    requires |items| == |answers|
    ensures forall id | id in f :: id in ResolveEach(f, items, answers) && ResolveEach(f, items, answers)[id] == f[id]
  {
    if items == [] {
    } else {
      ResolveEachKeeps(f, items[..|items| - 1], answers[..|items| - 1]);
    }
  }

  ghost predicate Extends(f: map<nat, Answer>, f': map<nat, Answer>) {
    forall id | id in f :: id in f' && f'[id] == f[id]
  }

  lemma StepKeepsFutures(s: State, a: Action)
    requires Enabled(s, a)
    ensures Extends(s.futures, Next(s, a).futures)
  {
    match a
    case ExecutorReturns(r, now) => ReturnKeepsFutures(s, r, now);
    case DrainerCancelled => FailKeepsFutures(s, Closed);
    case DrainerCrashes(exc) => FailKeepsFutures(s, exc);
    case _ =>
  }

  lemma ReturnKeepsFutures(s: State, r: Return, now: Time)
    requires Enabled(s, ExecutorReturns(r, now))
    ensures Extends(s.futures, Next(s, ExecutorReturns(r, now)).futures)
  {
    match r
    case Raises(exc) => ResolveAllKeeps(s.futures, s.inflight, Failed(exc));
    case NotIterable => ResolveAllKeeps(s.futures, s.inflight, Failed(Mismatch));
    case IterationRaises(exc) =>
      ResolveAllKeeps(s.futures, [], Failed(exc));
      ResolveAllKeeps(s.futures, s.queue, Failed(exc));
    case Answers(list) =>
      if |list| == |s.inflight| { ZipKeepsFutures(s, list); }
      else { ResolveAllKeeps(s.futures, s.inflight, Failed(Mismatch)); }
  }

  lemma ZipKeepsFutures(s: State, list: seq<Answer>)
    requires |list| == |s.inflight|
    ensures var k := Accepted(list); var f := ResolveEach(s.futures, s.inflight[..k], list[..k]);
            Extends(s.futures, f) && Extends(s.futures, ResolveAll(ResolveAll(f, [], Failed(Refusal)), s.queue, Failed(Refusal)))
  {
    var k := Accepted(list);
    var f := ResolveEach(s.futures, s.inflight[..k], list[..k]);
    ResolveEachKeeps(s.futures, s.inflight[..k], list[..k]);
    ResolveAllKeeps(f, s.queue, Failed(Refusal));
  }

  lemma FailKeepsFutures(s: State, exc: Exc)
    ensures Extends(s.futures, FailEverything(s, exc).futures)
  {
    ResolveAllKeeps(s.futures, s.inflight, Failed(exc));
    ResolveAllKeeps(ResolveAll(s.futures, s.inflight, Failed(exc)), s.queue, Failed(exc));
  }

  /** A future, once done, keeps its outcome for the rest of the run. */
  lemma {:induction false} FuturesResolveOnce(states: seq<State>, actions: seq<Action>, m: nat, n: nat, id: nat)
    requires IsRun(states, actions) && m <= n < |states| && id in states[m].futures
    ensures id in states[n].futures && states[n].futures[id] == states[m].futures[id]
  {
    if m < n {
      FuturesResolveOnce(states, actions, m, n - 1, id);
      StepKeepsFutures(states[n - 1], actions[n - 1]);
    }
  }

  /** Each member of a group that came back holds its own answer of that group; every
      other resolved item was failed together with the drainer. */
  lemma EachFutureHoldsItsOwnOutcome(states: seq<State>, actions: seq<Action>, n: nat)
    requires IsRun(states, actions) && n < |states|
    ensures |states[n].outcomes| <= |states[n].taken|
    ensures forall g, k | 0 <= g < |states[n].outcomes|
                          && 0 <= k < Delivered(states[n].outcomes[g], |states[n].taken[g].items|) ::
              var id := states[n].taken[g].items[k].id;
              id in states[n].futures
              && states[n].futures[id] == Expected(states[n].outcomes[g], |states[n].taken[g].items|, k)
    ensures forall id | id in states[n].futures && id >= Total(states[n].taken[..|states[n].outcomes|]) ::
              states[n].failure.Some? && states[n].futures[id] == Failed(states[n].failure.value)
  {
    RunKeepsInv(states, actions, n);
    var s := states[n];
    forall g | 0 <= g < |s.outcomes| ensures HoldsOwn(s.futures, s.taken[g].items, s.outcomes[g]) {}
  }

  /** No group taken, or the front of the queue taken as one more group. */
  predicate TakesFront(s: State, r: State) {
    || r.taken == s.taken
    || (&& |r.taken| == |s.taken| + 1 && s.taken < r.taken
        && var b := r.taken[|s.taken|].items;
        b <= s.queue && r.queue == s.queue[|b|..])
  }

  lemma TurnTakesFront(s: State, deadline: Time, now: Time)
    ensures TakesFront(s, Take(s, now)) && Take(s, now).lost == s.lost && !Take(s, now).drainer.NeverRan?
    ensures TakesFront(s, AwaitGroup(s, deadline, now)) && AwaitGroup(s, deadline, now).lost == s.lost
            && !AwaitGroup(s, deadline, now).drainer.NeverRan?
    ensures Take(s, now).closing == s.closing && Take(s, now).admitted == s.admitted
    ensures AwaitGroup(s, deadline, now).closing == s.closing && AwaitGroup(s, deadline, now).admitted == s.admitted
  {}

  lemma StepTakes(s: State, a: Action)
    requires Enabled(s, a)
    ensures TakesFront(s, Next(s, a))
    ensures s.drainer.Executing? && !a.ExecutorReturns? ==> Next(s, a).taken == s.taken
  {
    match a
    case FirstTurn(now) => if s.queue != [] { TurnTakesFront(s, s.queue[0].enqueuedAt + MAX_WAIT, now); }
    case ArrivalWakes(now) => TurnTakesFront(s, s.drainer.deadline, now);
    case TimesOut(now) => TurnTakesFront(s, 0, now);
    case ExecutorReturns(r, now) =>
      if Complete(r, |s.inflight|) {
        AnsweredInFull(s, r, now);
        var n := s.(inflight := [], outcomes := s.outcomes + [r], futures := Answered(s.futures, s.inflight, r));
        assert Next(s, a) == Turn(n, now);
        if s.queue != [] { TurnTakesFront(n, n.queue[0].enqueuedAt + MAX_WAIT, now); }
      }
    case _ =>
  }

  /** Groups: one to eight items, a prefix of the queue, short only once the oldest
      item's budget is spent, and never taken while another group is in flight. */
  lemma GroupIsQueuePrefix(states: seq<State>, actions: seq<Action>, n: nat)
    requires IsRun(states, actions) && n < |actions| && states[n + 1].taken != states[n].taken
    ensures |states[n + 1].taken| == |states[n].taken| + 1 && states[n].taken < states[n + 1].taken
    ensures var b := states[n + 1].taken[|states[n].taken|];
            && b.items <= states[n].queue && states[n + 1].queue == states[n].queue[|b.items|..]
            && GroupShape(b)
            && (states[n].drainer.Executing? ==> actions[n].ExecutorReturns?)
  {
    RunKeepsInv(states, actions, n);
    RunKeepsInv(states, actions, n + 1);
    assert Enabled(states[n], actions[n]) && states[n + 1] == Next(states[n], actions[n]);
    StepTakes(states[n], actions[n]);
    assert GroupShape(states[n + 1].taken[|states[n].taken|]);
  }

  /** No arrival is lost between clearing the flag and waiting: a drainer asleep over
      a full queue has its flag set. */
  lemma NoArrivalIsLost(states: seq<State>, actions: seq<Action>, n: nat)
    requires IsRun(states, actions) && n < |states|
    requires states[n].drainer.Collecting? && |states[n].queue| >= BATCH_SIZE
    ensures Enabled(states[n], ArrivalWakes(0))
  {
    RunKeepsInv(states, actions, n);
  }

  // ----- close -----

  /** The awaited drainer task is over: it returned, failed, or was cancelled unstarted. */
  predicate DrainerDone(s: State) { s.drainer.NoDrainer? || s.drainer.NeverRan? }

  /** The steps that strand accepted items: cancelling a drainer that never ran, and an
      executor answer that raises while it is read or holds an exception a future
      refuses. */
  predicate Strands(s: State, a: Action) {
    || (a.DrainerCancelled? && s.drainer.Created?)
    || (a.ExecutorReturns? && s.drainer.Executing? && Delivered(a.r, |s.inflight|) < |s.inflight|)
  }

  predicate Stranded(s: State) { s.lost != [] || s.drainer.NeverRan? }

  ghost predicate EverStrands(states: seq<State>, actions: seq<Action>, n: nat)
    requires n <= |actions| <= |states|
  {
    exists m | 0 <= m < n :: Strands(states[m], actions[m])
  }

  /** What the end of a group leaves of the things that strand and close. */
  lemma ReturnFrame(s: State, r: Return, now: Time)
    requires s.drainer.Executing?
    ensures var n := GroupReturned(s, r, now);
            && n.admitted == s.admitted && (s.closing ==> n.closing)
            && (s.inflight != [] ==> (Stranded(n) <==> s.lost != [] || Delivered(r, |s.inflight|) < |s.inflight|))
  {
    if Complete(r, |s.inflight|) {
      AnsweredInFull(s, r, now);
      var n := s.(inflight := [], outcomes := s.outcomes + [r], futures := Answered(s.futures, s.inflight, r));
      if s.queue != [] { TurnTakesFront(n, n.queue[0].enqueuedAt + MAX_WAIT, now); }
    } else {
      BrokenGroup(s, r, now);
    }
  }

  lemma StepStrands(s: State, a: Action)
    requires Enabled(s, a) && (s.drainer.Created? ==> s.queue != []) && (s.drainer.Executing? ==> s.inflight != [])
    ensures Stranded(Next(s, a)) <==> Stranded(s) || Strands(s, a)
  {
    if a.ExecutorReturns? { ReturnFrame(s, a.r, a.now); } else { OtherStepStrands(s, a); }
  }

  lemma OtherStepStrands(s: State, a: Action)
    requires Enabled(s, a) && !a.ExecutorReturns? && (s.drainer.Created? ==> s.queue != [])
    ensures Stranded(Next(s, a)) <==> Stranded(s) || Strands(s, a)
  {
    match a
    case FirstTurn(now) => TurnTakesFront(s, s.queue[0].enqueuedAt + MAX_WAIT, now);
    case ArrivalWakes(now) => TurnTakesFront(s, s.drainer.deadline, now);
    case TimesOut(now) => TurnTakesFront(s, 0, now);
    case _ =>
  }

  lemma {:induction false} StrandedExactly(states: seq<State>, actions: seq<Action>, n: nat)
    requires IsRun(states, actions) && n < |states|
    ensures Stranded(states[n]) <==> EverStrands(states, actions, n)
  {
    if n == 0 {
    } else {
      StrandedExactly(states, actions, n - 1);
      RunKeepsInv(states, actions, n - 1);
      StepStrands(states[n - 1], actions[n - 1]);
      if EverStrands(states, actions, n) && !Strands(states[n - 1], actions[n - 1]) {
        var m :| 0 <= m < n && Strands(states[m], actions[m]);
        assert m < n - 1;
      }
    }
  }

  lemma ClosingStays(s: State, a: Action)
    requires Enabled(s, a) && s.closing
    ensures Next(s, a).closing && Next(s, a).admitted == s.admitted
  {
    match a
    case FirstTurn(now) => if s.queue != [] { TurnTakesFront(s, s.queue[0].enqueuedAt + MAX_WAIT, now); }
    case ArrivalWakes(now) => TurnTakesFront(s, s.drainer.deadline, now);
    case TimesOut(now) => TurnTakesFront(s, 0, now);
    case ExecutorReturns(r, now) => ReturnFrame(s, r, now);
    case _ =>
  }

  lemma {:induction false} ClosingStaysAndAdmitsNone(states: seq<State>, actions: seq<Action>, m: nat, n: nat)
    requires IsRun(states, actions) && m <= n < |states| && states[m].closing
    ensures states[n].closing && states[n].admitted == states[m].admitted
  {
    if m == n {
    } else {
      ClosingStaysAndAdmitsNone(states, actions, m, n - 1);
      RunStepCloses(states, actions, n - 1);
    }
  }

  lemma RunStepCloses(states: seq<State>, actions: seq<Action>, k: nat)
    requires IsRun(states, actions) && k < |actions| && states[k].closing
    ensures states[k + 1].closing && states[k + 1].admitted == states[k].admitted
  {
    ClosingStays(states[k], actions[k]);
  }

  /** A normal return from close: no later admission, and every accepted item is
      resolved exactly when no step of the run stranded one. */
  lemma CloseReturnsWithAllResolvedExactly(states: seq<State>, actions: seq<Action>, c: nat, n: nat)
    requires IsRun(states, actions) && c < n < |states|
    requires actions[c] == CloseBegins && DrainerDone(states[n])
    ensures (forall id: nat | id < |states[n].admitted| :: id in states[n].futures)
            <==> !EverStrands(states, actions, n)
    ensures forall k | n <= k < |states| :: states[k].admitted == states[n].admitted
  {
    RunKeepsInv(states, actions, n);
    StrandedExactly(states, actions, n);
    assert states[c + 1] == Next(states[c], actions[c]);
    ClosingStaysAndAdmitsNone(states, actions, c + 1, n);
    forall k | n <= k < |states| ensures states[k].admitted == states[n].admitted {
      ClosingStaysAndAdmitsNone(states, actions, n, k);
    }
    var s := states[n];
    if s.drainer.NeverRan? { assert |s.admitted| - 1 !in s.futures; }
    if s.lost != [] { assert IsLost(s, s.lost[0].id); }
  }

  /** A drainer cancelled before its first step leaves its item unresolved, and close
      still returns normally. */
  lemma CancelledUnstartedDrainerStrands() returns (states: seq<State>, actions: seq<Action>)
    ensures IsRun(states, actions) && |actions| == 3 && actions[2] == CloseBegins
    ensures DrainerDone(states[3]) && |states[3].admitted| == 1 && states[3].futures == map[]
  {
    actions := [Submits(7, 0), DrainerCancelled, CloseBegins];
    var s1 := Submit(EMPTY, 7, 0);
    var s2 := CancelDrainer(s1);
    states := [EMPTY, s1, s2, BeginClose(s2)];
  }

  /** An answer that raises while it is read strands its whole group: the group was
      already taken out of flight when the drainer fails the rest. */
  lemma RaisingAnswerStrands() returns (states: seq<State>, actions: seq<Action>)
    ensures IsRun(states, actions) && |actions| == 4
    ensures var s := states[4];
            DrainerDone(s) && s.closing && |s.admitted| == 1 && s.queue == [] && s.inflight == [] && s.futures == map[]
  {
    var r := IterationRaises(Other(1));
    actions := [Submits(7, 0), FirstTurn(0), TimesOut(MAX_WAIT), ExecutorReturns(r, MAX_WAIT)];
    var s1 := Submit(EMPTY, 7, 0);
    var s2 := Turn(s1, 0);
    var s3 := Take(s2, MAX_WAIT);
    assert s3.drainer.Executing?;
    states := [EMPTY, s1, s2, s3, GroupReturned(s3, r, MAX_WAIT)];
  }

  /** So does an answer that holds an exception the member's future refuses. */
  lemma RefusedExceptionStrands() returns (states: seq<State>, actions: seq<Action>)
    ensures IsRun(states, actions) && |actions| == 4 && actions[3].ExecutorReturns? && actions[3].r.Answers?
    ensures var s := states[4];
            DrainerDone(s) && s.closing && |s.admitted| == 1 && s.queue == [] && s.inflight == [] && s.futures == map[]
  {
    var r := Answers([Failed(StopIteration)]);
    actions := [Submits(7, 0), FirstTurn(0), TimesOut(MAX_WAIT), ExecutorReturns(r, MAX_WAIT)];
    var s1 := Submit(EMPTY, 7, 0);
    var s2 := Turn(s1, 0);
    var s3 := Take(s2, MAX_WAIT);
    assert s3.drainer.Executing? && |s3.inflight| == 1 && Accepted(r.list) == 0;
    states := [EMPTY, s1, s2, s3, GroupReturned(s3, r, MAX_WAIT)];
  }
}
