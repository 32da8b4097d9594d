/** The investigation workflow: a bounded collect/analyze loop under round, cost and
    time budgets, raw-command and remediation approvals fed by signals in any order,
    and one closing activity. Every activity is awaited, and during an await any
    signals may arrive; what the awaits bring is a script over the await counter. */
module Workflow {
  import opened Wrappers
  import F = StepFrame

  type ApprovalId = string

  datatype Decision = Decision(approvalId: ApprovalId, decision: string)

  /** Budget entries that are present: rounds, cost and wall seconds. */
  datatype Budget = Budget(maxRounds: Option<int>, maxCost: Option<real>, maxWall: Option<int>)

  datatype Signal = Pause | Resume | Abort | AdjustBudget(budget: Budget) | ApprovalDecided(decision: Decision)

  datatype Kind = RawCommand | Remediation

  datatype ActionKind = Playbook | Ignore | ManualRecommendation | CodeFixRecommendation | OtherAction

  /** What an approval is asked for: a raw command, or a proposed action with the
      parameters it is to run with. */
  datatype Subject = Command(text: string) | Proposed(kind: ActionKind, playbook: string, params: F.Json)

  datatype Report = Report(status: string, confidence: real, missingInfo: bool, commands: seq<string>)

  datatype CaseInfo = CaseInfo(rejected: bool, budget: Budget, threshold: real)

  datatype Status = Received | Open | Investigating | AwaitingApproval | Rejected | NeedsHuman | ClosedSummary | Resolved

  /** What the outside world does: the signals of the k-th await and its result, and
      the signal batches of the k-th condition wait. */
  datatype Script = Script(
    signals: nat -> seq<Signal>, waits: nat -> seq<seq<Signal>>, clock: nat -> int, case_: CaseInfo,
    spend: nat -> real, report: nat -> Report, validates: nat -> bool, approvalId: nat -> ApprovalId,
    actions: nat -> seq<Subject>, playbookOk: nat -> bool, verifiedOk: nat -> bool)

  /** Why a round did not start. */
  datatype Stop = WasAborted | PastDeadline(now: int, deadline: int) | OverCost(spent: real, cost: real)

  /** The activities and decisions of a run, in order. `Entered`, `Checked` and
      `Refused` record what the loop computed with; `Adjusted` an override being
      applied. */
  datatype Act =
    | CaseCreated
    | Planned
    | Entered(bound: int, cost: real, deadline: int)
    | Checked(round: int, aborted: bool, now: int, deadline: int, spent: real, cost: real)
    | Refused(reason: Stop)
    | Adjusted(override: Budget, now: int)
    | Collected(round: int)
    | Analyzed(report: Report)
    | Recorded(round: int)
    | Validated(command: string, ok: bool)
    | ApprovalCreated(id: ApprovalId, kind: Kind, subject: Subject)
    | Decided(id: ApprovalId, kind: Kind, subject: Subject, decision: string, timeout: bool, from: nat, to: nat)
    | RanRawCommand(command: string)
    | PlannedRemediation(actions: seq<Subject>)
    | ExecutedPlaybook(subject: Subject, ok: bool)
    | VerifiedFix(subject: Subject, ok: bool)
    | Closed(status: Status)

  const APPROVED := "approved"

  // ----- reading a run's record -----

  function Collects(acts: seq<Act>): nat {
    if acts == [] then 0
    else Collects(acts[..|acts| - 1]) + if acts[|acts| - 1].Collected? then 1 else 0
  }

  function Closings(acts: seq<Act>): nat {
    if acts == [] then 0
    else Closings(acts[..|acts| - 1]) + if acts[|acts| - 1].Closed? then 1 else 0
  }

  function LastReport(acts: seq<Act>): Option<Report> {
    if acts == [] then None
    else if acts[|acts| - 1].Analyzed? then Some(acts[|acts| - 1].report)
    else LastReport(acts[..|acts| - 1])
  }

  /** The actions the last remediation plan proposed. */
  function LastPlan(acts: seq<Act>): Option<seq<Subject>> {
    if acts == [] then None
    else if acts[|acts| - 1].PlannedRemediation? then Some(acts[|acts| - 1].actions)
    else LastPlan(acts[..|acts| - 1])
  }

  predicate Concludes(r: Report, threshold: real) { r.status == "concluded" && r.confidence >= threshold }

  /** Inconclusive, and nothing left to look for. */
  predicate Hopeless(r: Report) { r.status == "inconclusive" && !r.missingInfo }

  /** The last report, if any, neither concludes nor gives up. */
  predicate StillOpen(acts: seq<Act>, threshold: real) {
    LastReport(acts).Some? ==> !Concludes(LastReport(acts).value, threshold) && !Hopeless(LastReport(acts).value)
  }

  predicate HasConcluded(acts: seq<Act>, threshold: real) {
    LastReport(acts).Some? && Concludes(LastReport(acts).value, threshold)
  }

  predicate IsPlaybook(a: Subject) { a.Proposed? && a.kind == Playbook }

  /** An approval was asked for, and decided, for this remediation. */
  predicate AskedFor(acts: seq<Act>, subject: Subject) {
    exists i :: 0 <= i < |acts| && acts[i].Decided? && acts[i].kind == Remediation && acts[i].subject == subject
  }

  /** Every playbook of the plan was put up for approval. */
  predicate AllAsked(acts: seq<Act>) {
    LastPlan(acts).Some?
    && forall i | 0 <= i < |LastPlan(acts).value| && IsPlaybook(LastPlan(acts).value[i]) :: AskedFor(acts, LastPlan(acts).value[i])
  }

  /** What sends a case to a human: a refused round, a failed playbook or verification,
      a hopeless report, or a range of rounds used up. */
  predicate NeedsAHuman(acts: seq<Act>, threshold: real) {
    && acts != []
    && var last := acts[|acts| - 1];
    || last.Refused?
    || (last.ExecutedPlaybook? && !last.ok)
    || (last.VerifiedFix? && !last.ok)
    || (LastReport(acts).Some? && Hopeless(LastReport(acts).value))
    || (|Bounds(acts)| == 1 && Collects(acts) == Positive(Bounds(acts)[0]) && StillOpen(acts, threshold))
  }

  /** The deadline in force: set on entry, moved by an override that names wall time. */
  function DeadlineOf(acts: seq<Act>): Option<int> {
    if acts == [] then None
    else
      var a := acts[|acts| - 1];
      if a.Entered? then Some(a.deadline)
      else if a.Adjusted? && a.override.maxWall.Some? then Some(a.now + a.override.maxWall.value)
      else DeadlineOf(acts[..|acts| - 1])
  }

  /** The cost limit in force: set on entry, moved by an override that names a cost. */
  function CostOf(acts: seq<Act>): Option<real> {
    if acts == [] then None
    else
      var a := acts[|acts| - 1];
      if a.Entered? then Some(a.cost)
      else if a.Adjusted? && a.override.maxCost.Some? then Some(a.override.maxCost.value)
      else CostOf(acts[..|acts| - 1])
  }

  /** Some signal heard in this stretch carried this decision for this approval. */
  ghost predicate Heard(heard: seq<Decision>, id: ApprovalId, decision: string, from: nat, to: nat) {
    exists k :: 0 <= from <= k < to <= |heard| && heard[k] == Decision(id, decision)
  }

  /** The last two entries: an approval of exactly this subject, created and approved. */
  predicate JustApproved(acts: seq<Act>, kind: Kind, subject: Subject) {
    && |acts| >= 2
    && var d := acts[|acts| - 1];
    && d.Decided? && d.kind == kind && d.subject == subject && d.decision == APPROVED && !d.timeout
    && acts[|acts| - 2] == ApprovalCreated(d.id, kind, subject)
  }

  /** The last entry passed this round's checks, or only an override came after them. */
  predicate JustChecked(acts: seq<Act>, round: int) {
    && |acts| >= 1
    && var n := |acts| - (if acts[|acts| - 1].Adjusted? then 2 else 1);
    && 0 <= n
    && var c := acts[n];
    c.Checked? && c.round == round && !c.aborted && c.now < c.deadline && c.spent < c.cost
  }

  /** The rule each entry obeys, given the entries before it and the signals heard. */
  ghost predicate Lawful(before: seq<Act>, a: Act, heard: seq<Decision>, threshold: real) {
    match a
    case Checked(_, _, _, deadline, _, cost) => DeadlineOf(before) == Some(deadline) && CostOf(before) == Some(cost)
    case Refused(PastDeadline(now, deadline)) => DeadlineOf(before) == Some(deadline) && now >= deadline
    case Refused(OverCost(spent, cost)) => CostOf(before) == Some(cost) && spent >= cost
    case Collected(round) => JustChecked(before, round) && round == Collects(before) + 1 && StillOpen(before, threshold)
    case Decided(id, kind, subject, decision, timeout, from, to) =>
      && |before| >= 1 && before[|before| - 1] == ApprovalCreated(id, kind, subject)
      && (if timeout then decision == "denied" else Heard(heard, id, decision, from, to))
    case RanRawCommand(command) =>
      && JustApproved(before, RawCommand, Command(command))
      && |before| >= 3 && before[|before| - 3] == Validated(command, true)
    case ExecutedPlaybook(subject, _) => JustApproved(before, Remediation, subject) && subject.Proposed? && subject.kind == Playbook
    case VerifiedFix(subject, _) => |before| >= 1 && before[|before| - 1] == ExecutedPlaybook(subject, true)
    case PlannedRemediation(_) => HasConcluded(before, threshold)
    case Closed(status) =>
      (match status
       case Rejected => |before| == 1 && before[0] == CaseCreated
       case NeedsHuman => NeedsAHuman(before, threshold)
       case ClosedSummary => AllAsked(before)
       case Resolved => AllAsked(before)
       case _ => false)
    case _ => true
  }

  ghost predicate AllLawful(acts: seq<Act>, heard: seq<Decision>, threshold: real) {
    acts == [] || (AllLawful(acts[..|acts| - 1], heard, threshold)
                   && Lawful(acts[..|acts| - 1], acts[|acts| - 1], heard, threshold))
  }

  lemma LawfulAppend(acts: seq<Act>, a: Act, heard: seq<Decision>, threshold: real)
    requires AllLawful(acts, heard, threshold) && Lawful(acts, a, heard, threshold)
    ensures AllLawful(acts + [a], heard, threshold)
    ensures LastReport(acts + [a]) == if a.Analyzed? then Some(a.report) else LastReport(acts)
  {
    assert (acts + [a])[..|acts|] == acts;
  }

  lemma {:induction false} LawfulAt(acts: seq<Act>, heard: seq<Decision>, threshold: real, i: nat)
    requires AllLawful(acts, heard, threshold) && i < |acts|
    ensures Lawful(acts[..i], acts[i], heard, threshold)
  {
    var n := |acts| - 1;
    if i < n {
      LawfulAt(acts[..n], heard, threshold, i);
      assert acts[..n][..i] == acts[..i];
    }
  }

  /** Right before entry `i` an approval of this subject was created, and decided by a
      signal heard for it. */
  ghost predicate ApprovedBefore(acts: seq<Act>, heard: seq<Decision>, i: nat, kind: Kind, subject: Subject) {
    && 2 <= i <= |acts| && acts[i - 1].Decided?
    && var d := acts[i - 1];
    && acts[i - 2] == ApprovalCreated(d.id, kind, subject)
    && d.kind == kind && d.subject == subject && Heard(heard, d.id, APPROVED, d.from, d.to)
  }

  /** A raw command ran only right behind its own validation and its own approval. */
  ghost predicate CommandGated(acts: seq<Act>, heard: seq<Decision>, i: nat)
    requires i < |acts|
  {
    acts[i].RanRawCommand? ==>
      && ApprovedBefore(acts, heard, i, RawCommand, Command(acts[i].command))
      && i >= 3 && acts[i - 3] == Validated(acts[i].command, true)
  }

  /** A playbook ran only right behind its own approval. */
  ghost predicate PlaybookGated(acts: seq<Act>, heard: seq<Decision>, i: nat)
    requires i < |acts|
  {
    acts[i].ExecutedPlaybook? ==>
      ApprovedBefore(acts, heard, i, Remediation, acts[i].subject) && IsPlaybook(acts[i].subject)
  }

  /** Entry `c` is this round's check, passed against the limits in force before it. */
  ghost predicate CheckedAt(acts: seq<Act>, i: nat, c: nat)
    requires i < |acts| && acts[i].Collected?
  {
    && c < i && (c == i - 1 || (c == i - 2 && acts[i - 1].Adjusted?)) && acts[c].Checked?
    && acts[c].round == acts[i].round && !acts[c].aborted
    && DeadlineOf(acts[..c]) == Some(acts[c].deadline) && acts[c].now < acts[c].deadline
    && CostOf(acts[..c]) == Some(acts[c].cost) && acts[c].spent < acts[c].cost
  }

  /** The n-th collection is round n, and passed the abort, deadline and cost checks. */
  ghost predicate RoundChecked(acts: seq<Act>, i: nat)
    requires i < |acts|
  {
    acts[i].Collected? ==> acts[i].round == Collects(acts[..i]) + 1 && exists c :: CheckedAt(acts, i, c)
  }

  /** A case goes to a human only for one of the reasons, and closes otherwise only once
      every playbook of its plan was put up for approval. */
  ghost predicate ClosingJustified(acts: seq<Act>, threshold: real, i: nat)
    requires i < |acts|
  {
    acts[i].Closed? ==>
      && acts[i].status in {Rejected, NeedsHuman, ClosedSummary, Resolved}
      && (acts[i].status == NeedsHuman ==> NeedsAHuman(acts[..i], threshold))
      && (acts[i].status == ClosedSummary || acts[i].status == Resolved ==> AllAsked(acts[..i]))
  }

  lemma {:induction false} RawCommandIsGated(acts: seq<Act>, heard: seq<Decision>, threshold: real, i: nat)
    requires AllLawful(acts, heard, threshold) && i < |acts| && acts[i].RanRawCommand?
    ensures CommandGated(acts, heard, i)
  {
    LawfulAt(acts, heard, threshold, i);
    LawfulAt(acts, heard, threshold, i - 1);
  }

  lemma {:induction false} PlaybookIsGated(acts: seq<Act>, heard: seq<Decision>, threshold: real, i: nat)
    requires AllLawful(acts, heard, threshold) && i < |acts| && acts[i].ExecutedPlaybook?
    ensures PlaybookGated(acts, heard, i)
  {
    LawfulAt(acts, heard, threshold, i);
    LawfulAt(acts, heard, threshold, i - 1);
  }

  lemma {:induction false} RoundIsChecked(acts: seq<Act>, heard: seq<Decision>, threshold: real, i: nat)
    requires AllLawful(acts, heard, threshold) && i < |acts| && acts[i].Collected?
    ensures RoundChecked(acts, i)
  {
    LawfulAt(acts, heard, threshold, i);
    var c := if acts[i - 1].Adjusted? then i - 2 else i - 1;
    LawfulAt(acts, heard, threshold, c);
    assert CheckedAt(acts, i, c);
  }

  /** Every entry of a lawful record is justified by the entries before it. */
  lemma {:induction false} RecordIsJustified(acts: seq<Act>, heard: seq<Decision>, threshold: real)
    requires AllLawful(acts, heard, threshold)
    ensures forall i | 0 <= i < |acts| :: CommandGated(acts, heard, i) && PlaybookGated(acts, heard, i)
    ensures forall i | 0 <= i < |acts| :: RoundChecked(acts, i) && ClosingJustified(acts, threshold, i)
  {
    forall i | 0 <= i < |acts|
      ensures CommandGated(acts, heard, i) && PlaybookGated(acts, heard, i)
      ensures RoundChecked(acts, i) && ClosingJustified(acts, threshold, i)
    {
      if acts[i].RanRawCommand? { RawCommandIsGated(acts, heard, threshold, i); }
      if acts[i].ExecutedPlaybook? { PlaybookIsGated(acts, heard, threshold, i); }
      if acts[i].Collected? { RoundIsChecked(acts, heard, threshold, i); }
      LawfulAt(acts, heard, threshold, i);
    }
  }

  lemma {:induction false} HearingMoreStaysLawful(acts: seq<Act>, heard: seq<Decision>, more: seq<Decision>, threshold: real)
    requires AllLawful(acts, heard, threshold) && heard <= more
    ensures AllLawful(acts, more, threshold)
  {
    if acts == [] {
    } else {
      HearingMoreStaysLawful(acts[..|acts| - 1], heard, more, threshold);
      var a := acts[|acts| - 1];
      if a.Decided? && !a.timeout {
        var k :| 0 <= a.from <= k < a.to <= |heard| && heard[k] == Decision(a.id, a.decision);
        assert more[k] == heard[k];
      }
    }
  }

  function Update(b: Budget, o: Budget): Budget {
    Budget(if o.maxRounds.Some? then o.maxRounds else b.maxRounds,
           if o.maxCost.Some? then o.maxCost else b.maxCost,
           if o.maxWall.Some? then o.maxWall else b.maxWall)
  }

  /** An empty override is falsy and is left alone. */
  predicate Truthy(o: Option<Budget>) { o.Some? && o.value != Budget(None, None, None) }

  function GetOr<T>(o: Option<T>, default: T): T { if o.Some? then o.value else default }

  predicate Approved(a: Act) { a.Decided? && a.kind == Remediation && a.decision == APPROVED }

  /** The approved playbook at `i` was executed and verified successfully right after. */
  predicate Succeeded(acts: seq<Act>, i: nat)
    requires i < |acts| && acts[i].Decided?
  {
    i + 2 < |acts| && acts[i + 1] == ExecutedPlaybook(acts[i].subject, true) && acts[i + 2] == VerifiedFix(acts[i].subject, true)
  }

  /** No round was refused for an abort. */
  ghost predicate NoAbort(acts: seq<Act>) { forall i | 0 <= i < |acts| :: acts[i] != Refused(WasAborted) }

  /** Outside an approval wait, without an id, or for the awaited approval. */
  predicate Takes(awaiting: Option<ApprovalId>, id: ApprovalId) {
    awaiting.None? || id == "" || id == awaiting.value
  }

  /** The decision stored after these signals: the last one taken, if any. */
  function StoredAfter(stored: Option<Decision>, batch: seq<Signal>, awaiting: Option<ApprovalId>): Option<Decision> {
    if batch == [] then stored
    else
      var s := batch[|batch| - 1];
      if s.ApprovalDecided? && Takes(awaiting, s.decision.approvalId) then Some(s.decision)
      else StoredAfter(stored, batch[..|batch| - 1], awaiting)
  }

  predicate Names(stored: Option<Decision>, id: ApprovalId) { stored.Some? && stored.value.approvalId == id }

  /** What a wait for approval `id` ends with: the first stored decision that names it,
      looked at before the wait and after each batch of signals. */
  function WaitResult(stored: Option<Decision>, batches: seq<seq<Signal>>, id: ApprovalId): Option<string>
    decreases |batches|
  {
    if Names(stored, id) then Some(stored.value.decision)
    else if batches == [] then None
    else WaitResult(StoredAfter(stored, batches[0], Some(id)), batches[1..], id)
  }

  /** Of the batch's decisions that name this approval or no approval, the last names it. */
  predicate Decides(batch: seq<Signal>, id: ApprovalId) { Names(StoredAfter(None, batch, Some(id)), id) }

  lemma {:induction false} StoredUnlessTaken(stored: Option<Decision>, batch: seq<Signal>, awaiting: Option<ApprovalId>)
    ensures StoredAfter(stored, batch, awaiting)
            == if StoredAfter(None, batch, awaiting).Some? then StoredAfter(None, batch, awaiting) else stored
  {
    if batch == [] {
    } else {
      StoredUnlessTaken(stored, batch[..|batch| - 1], awaiting);
    }
  }

  /** A wait is answered if and only if a decision for its approval was stored when it
      began, or closes one of its batches. */
  lemma {:induction false} WaitIsAnsweredExactly(stored: Option<Decision>, batches: seq<seq<Signal>>, id: ApprovalId)
    ensures WaitResult(stored, batches, id).Some?
            <==> Names(stored, id) || exists i :: 0 <= i < |batches| && Decides(batches[i], id)
    decreases |batches|
  {
    if Names(stored, id) || batches == [] {
    } else {
      var next := StoredAfter(stored, batches[0], Some(id));
      StoredUnlessTaken(stored, batches[0], Some(id));
      WaitIsAnsweredExactly(next, batches[1..], id);
      if i :| 0 <= i < |batches| && Decides(batches[i], id) {
        if i > 0 { assert batches[1..][i - 1] == batches[i]; }
      }
      if j :| 0 <= j < |batches[1..]| && Decides(batches[1..][j], id) { assert batches[j + 1] == batches[1..][j]; }
    }
  }

  /** The decision of an approval whose creation, notification and wait brought these
      signals; None is the timeout. */
  function Answer(created: seq<Signal>, notified: seq<Signal>, waited: seq<seq<Signal>>, id: ApprovalId): Option<string> {
    WaitResult(StoredAfter(StoredAfter(None, created, None), notified, Some(id)), waited, id)
  }

  /** An approval request is answered if and only if, of the decisions that arrived while
      the approval was created, the last names it and none taken during the notification
      replaced it, or some later batch ends with a decision for it. A heard decision is
      lost exactly when none of these holds. */
  lemma RequestIsAnsweredExactly(created: seq<Signal>, notified: seq<Signal>, waited: seq<seq<Signal>>, id: ApprovalId)
    ensures Answer(created, notified, waited, id).Some? <==>
            || Decides(notified, id)
            || (Names(StoredAfter(None, created, None), id) && StoredAfter(None, notified, Some(id)).None?)
            || (exists i :: 0 <= i < |waited| && Decides(waited[i], id))
  {
    var early := StoredAfter(None, created, None);
    StoredUnlessTaken(early, notified, Some(id));
    WaitIsAnsweredExactly(StoredAfter(early, notified, Some(id)), waited, id);
  }

  /** An approval heard while its approval was being created, lost to a later decision
      that names no approval: the request times out as denied. */
  lemma HeardApprovalCanBeLost() returns (created: seq<Signal>, id: ApprovalId)
    ensures ApprovalDecided(Decision(id, APPROVED)) in created && Answer(created, [], [], id) == None
  {
    id := "a";
    var first, second := ApprovalDecided(Decision(id, APPROVED)), ApprovalDecided(Decision("", "denied"));
    created := [first, second];
    assert created[0] == first && created[1] == second;
  }

  /** Whether an open case is paused after these signals: the last pause or resume counts. */
  function PausedAfter(paused: bool, batch: seq<Signal>): bool {
    if batch == [] then paused
    else
      var s := batch[|batch| - 1];
      if s.Pause? then true else if s.Resume? then false else PausedAfter(paused, batch[..|batch| - 1])
  }

  /** These signals end a pause: they abort, or their last pause or resume is a resume. */
  predicate Frees(batch: seq<Signal>) { Abort in batch || !PausedAfter(true, batch) }

  /** Some signals of this wait end a pause. */
  predicate Freed(batches: seq<seq<Signal>>) { exists i :: 0 <= i < |batches| && Frees(batches[i]) }

  function DecisionsInAll(batches: seq<seq<Signal>>): seq<Decision> {
    if batches == [] then [] else DecisionsInAll(batches[..|batches| - 1]) + DecisionsIn(batches[|batches| - 1])
  }

  /** What one more signal of a batch changes. */
  lemma SignalNext(batch: seq<Signal>, i: nat, paused: bool, stored: Option<Decision>, awaiting: Option<ApprovalId>)
    requires i < |batch|
    ensures Abort in batch[..i + 1] <==> Abort in batch[..i] || batch[i] == Abort
    ensures var s := batch[i];
            && DecisionsIn(batch[..i + 1]) == DecisionsIn(batch[..i]) + (if s.ApprovalDecided? then [s.decision] else [])
            && PausedAfter(paused, batch[..i + 1])
               == (if s.Pause? then true else if s.Resume? then false else PausedAfter(paused, batch[..i]))
            && StoredAfter(stored, batch[..i + 1], awaiting)
               == (if s.ApprovalDecided? && Takes(awaiting, s.decision.approvalId) then Some(s.decision)
                   else StoredAfter(stored, batch[..i], awaiting))
  {
    assert batch[..i + 1][..i] == batch[..i] && batch[..i + 1] == batch[..i] + [batch[i]];
  }

  lemma DecisionsNext(batches: seq<seq<Signal>>, i: nat)
    requires i < |batches|
    ensures DecisionsInAll(batches[..i + 1]) == DecisionsInAll(batches[..i]) + DecisionsIn(batches[i])
  {
    assert batches[..i + 1][..i] == batches[..i];
  }

  lemma WaitGoesOn(stored: Option<Decision>, batches: seq<seq<Signal>>, i: nat, id: ApprovalId)
    requires i < |batches| && !Names(stored, id)
    ensures WaitResult(stored, batches[i..], id)
            == WaitResult(StoredAfter(stored, batches[i], Some(id)), batches[i + 1..], id)
  {
    assert batches[i..][1..] == batches[i + 1..];
  }

  /** The approval decisions among these signals, in order. */
  function DecisionsIn(batch: seq<Signal>): seq<Decision> {
    if batch == [] then []
    else DecisionsIn(batch[..|batch| - 1])
         + if batch[|batch| - 1].ApprovalDecided? then [batch[|batch| - 1].decision] else []
  }

  ghost predicate NoneApproved(acts: seq<Act>) { forall i | 0 <= i < |acts| :: !Approved(acts[i]) }

  class InvestigationWorkflow {
    const script: Script
    var k: nat // awaits so far
    var paused: bool
    var aborted: bool
    var budgetOverride: Option<Budget>
    var approvalDecision: Option<Decision>
    var awaitingApprovalId: Option<ApprovalId>
    var status: Status
    var lastReport: Option<Report>
    ghost var acts: seq<Act>
    ghost var heard: seq<Decision>

    ghost var since: nat // signals heard before the current approval request

    /** A stored decision was heard since the current approval request began. */
    ghost predicate Stored()
      reads this
    {
      since <= |heard| && (approvalDecision.Some? ==> exists i :: since <= i < |heard| && heard[i] == approvalDecision.value)
    }

    ghost predicate Valid()
      reads this
    {
      && AllLawful(acts, heard, script.case_.threshold)
      && lastReport == LastReport(acts)
      && Stored()
      && (aborted || NoAbort(acts))
    }

    /** Outside an approval wait. */
    ghost predicate Ready()
      reads this
    {
      Valid() && awaitingApprovalId == None
    }

    constructor (script: Script)
      ensures this.script == script && Ready() && acts == [] && heard == [] && k == 0 && !aborted && !paused
    {
      this.script := script;
      k, paused, aborted, budgetOverride := 0, false, false, None;
      approvalDecision, awaitingApprovalId, status, lastReport := None, None, Received, None;
      acts, heard, since := [], [], 0;
    }

    predicate Terminal()
      reads this
    {
      status in {Rejected, NeedsHuman, ClosedSummary, Resolved}
    }

    /** Outside an approval wait, without an id, or for the awaited approval. */
    predicate Accepts(id: ApprovalId)
      reads this
    {
      Takes(awaitingApprovalId, id)
    }

    /** The signal handlers. */
    method Handle(s: Signal)
      modifies this`paused, this`aborted, this`budgetOverride, this`approvalDecision, this`heard
      ensures heard == if s.ApprovalDecided? then old(heard) + [s.decision] else old(heard)
      ensures approvalDecision == if s.ApprovalDecided? && Accepts(s.decision.approvalId) then Some(s.decision)
                                  else old(approvalDecision)
      ensures paused == if s.Resume? then false else if s.Pause? && !Terminal() then true else old(paused)
      ensures aborted == (old(aborted) || (s.Abort? && !Terminal()))
      ensures budgetOverride == if s.AdjustBudget? && !Terminal() then Some(s.budget) else old(budgetOverride)
      ensures old(Stored()) ==> Stored()
    {
      ghost var h, stored := heard, approvalDecision;
      if Stored() && stored.Some? { StoredGrows(h, if s.ApprovalDecided? then h + [s.decision] else h, stored); }
      match s
      case Pause => if !Terminal() { paused := true; }
      case Resume => paused := false;
      case Abort => if !Terminal() { aborted := true; }
      case AdjustBudget(b) => if !Terminal() { budgetOverride := Some(b); }
      case ApprovalDecided(d) =>
        heard := heard + [d];
        if awaitingApprovalId.Some? && d.approvalId != "" && d.approvalId != awaitingApprovalId.value { return; }
        approvalDecision := Some(d);
        assert heard[|h|] == d;
    }

    /** A batch of signals. */
    method Deliver(batch: seq<Signal>)
      requires Valid()
      modifies this`paused, this`aborted, this`budgetOverride, this`approvalDecision, this`heard
      ensures Valid() && heard == old(heard) + DecisionsIn(batch) && (old(aborted) ==> aborted)
      ensures approvalDecision == StoredAfter(old(approvalDecision), batch, awaitingApprovalId)
      ensures !Terminal() ==>
                paused == PausedAfter(old(paused), batch) && aborted == (old(aborted) || Abort in batch)
    {
      HandleAll(batch);
      HearingMoreStaysLawful(acts, old(heard), heard, script.case_.threshold);
    }

    method HandleAll(batch: seq<Signal>)
      requires Stored()
      modifies this`paused, this`aborted, this`budgetOverride, this`approvalDecision, this`heard
      ensures Stored() && heard == old(heard) + DecisionsIn(batch) && (old(aborted) ==> aborted)
      ensures approvalDecision == StoredAfter(old(approvalDecision), batch, awaitingApprovalId)
      ensures !Terminal() ==>
                paused == PausedAfter(old(paused), batch) && aborted == (old(aborted) || Abort in batch)
    {
      var i := 0;
      while i < |batch|
        invariant 0 <= i <= |batch| && heard == old(heard) + DecisionsIn(batch[..i]) && Stored()
        invariant old(aborted) ==> aborted
        invariant !Terminal() ==>
                    paused == PausedAfter(old(paused), batch[..i]) && aborted == (old(aborted) || Abort in batch[..i])
        invariant approvalDecision == StoredAfter(old(approvalDecision), batch[..i], awaitingApprovalId)
      {
        SignalNext(batch, i, old(paused), old(approvalDecision), awaitingApprovalId);
        Handle(batch[i]);
        i := i + 1;
      }
      assert batch[..|batch|] == batch;
    }

    lemma StoredGrows(h: seq<Decision>, more: seq<Decision>, d: Option<Decision>)
      requires h <= more && d.Some? && exists i :: since <= i < |h| && h[i] == d.value
      ensures exists i :: since <= i < |more| && more[i] == d.value
    {
      var i :| since <= i < |h| && h[i] == d.value;
      assert more[i] == h[i];
    }

    /** Awaiting an activity. */
    method Await()
      requires Valid()
      modifies this`k, this`paused, this`aborted, this`budgetOverride, this`approvalDecision, this`heard
      ensures Valid() && old(heard) <= heard && k == old(k) + 1 && (old(aborted) ==> aborted)
      ensures approvalDecision == StoredAfter(old(approvalDecision), script.signals(old(k)), awaitingApprovalId)
    {
      Deliver(script.signals(k));
      k := k + 1;
    }

    /** An activity: its entry, then its await. */
    method Perform(ghost a: Act)
      requires Valid() && Lawful(acts, a, heard, script.case_.threshold) && !a.Analyzed?
      requires a == Refused(WasAborted) ==> aborted
      modifies this`k, this`paused, this`aborted, this`budgetOverride, this`approvalDecision, this`heard, this`acts
      ensures Valid() && acts == old(acts) + [a] && old(heard) <= heard && k == old(k) + 1
      ensures approvalDecision == StoredAfter(old(approvalDecision), script.signals(old(k)), awaitingApprovalId)
    {
      LawfulAppend(acts, a, heard, script.case_.threshold);
      acts := acts + [a];
      Await();
    }

    /** The last wait was for the end of a pause, and no signals of it ended the pause. */
    ghost predicate StaysPaused()
      reads this
    {
      paused && !aborted && k > 0 && !Freed(script.waits(k - 1))
    }

    /** `_wait_if_paused`: the run goes on exactly if it was not paused, or was aborted,
        or some signals of the wait end the pause; otherwise it stays paused for good. */
    method WaitIfPaused() returns (running: bool)
      requires Valid() && !Terminal()
      modifies this`k, this`paused, this`aborted, this`budgetOverride, this`approvalDecision, this`heard
      ensures Valid() && old(heard) <= heard
      ensures running <==> !paused || aborted
      ensures running <==> !old(paused) || old(aborted) || Freed(script.waits(old(k)))
      ensures k == old(k) + 1 && (!running ==> StaysPaused())
    {
      var batches := script.waits(k);
      k := k + 1;
      var i := 0;
      while paused && !aborted && i < |batches|
        invariant 0 <= i <= |batches| && Valid() && old(heard) <= heard && k == old(k) + 1
        invariant i == 0 ==> paused == old(paused) && aborted == old(aborted)
        invariant i > 0 ==> old(paused) && !old(aborted) && ((!paused || aborted) <==> Frees(batches[i - 1]))
        invariant forall j | 0 <= j < i - 1 :: !Frees(batches[j])
      {
        Deliver(batches[i]);
        i := i + 1;
      }
      running := !(paused && !aborted);
    }

    /** Signals are heard until a decision for this approval is stored, or none are left. */
    method HearUntilNamed(id: ApprovalId, batches: seq<seq<Signal>>)
      requires Valid() && awaitingApprovalId == Some(id)
      modifies this`paused, this`aborted, this`budgetOverride, this`approvalDecision, this`heard
      ensures Valid() && old(heard) <= heard
      ensures WaitResult(old(approvalDecision), batches, id)
              == if Names(approvalDecision, id) then Some(approvalDecision.value.decision) else None
      ensures !Names(approvalDecision, id) ==> heard == old(heard) + DecisionsInAll(batches)
    {
      var i := 0;
      while !(approvalDecision.Some? && approvalDecision.value.approvalId == id) && i < |batches|
        invariant 0 <= i <= |batches| && Valid() && heard == old(heard) + DecisionsInAll(batches[..i])
        invariant WaitResult(approvalDecision, batches[i..], id) == WaitResult(old(approvalDecision), batches, id)
        decreases |batches| - i
      {
        DecisionsNext(batches, i);
        WaitGoesOn(approvalDecision, batches, i, id);
        Deliver(batches[i]);
        i := i + 1;
      }
      assert batches[..|batches|] == batches;
    }

    /** The gate of an approval wait: only a decision for this very approval passes. */
    method WaitForDecision(id: ApprovalId) returns (timeout: bool, decision: string)
      requires Valid() && awaitingApprovalId == Some(id)
      modifies this`k, this`paused, this`aborted, this`budgetOverride, this`approvalDecision, this`heard
      ensures Valid() && old(heard) <= heard
      ensures if timeout then decision == "denied" else Heard(heard, id, decision, since, |heard|)
      ensures WaitResult(old(approvalDecision), script.waits(old(k)), id) == if timeout then None else Some(decision)
      ensures timeout ==> heard == old(heard) + DecisionsInAll(script.waits(old(k)))
    {
      var batches := script.waits(k);
      k := k + 1;
      HearUntilNamed(id, batches);
      timeout := !(approvalDecision.Some? && approvalDecision.value.approvalId == id);
      decision := if timeout then "denied" else approvalDecision.value.decision;
    }

    method ForgetDecision()
      requires Ready()
      modifies this`approvalDecision, this`since
      ensures Ready() && approvalDecision == None && since == |heard|
    {
      approvalDecision := None;
      since := |heard|;
    }

    /** What was stored before the approval existed is dropped; what arrives while it is
        created is kept, whatever approval it names. */
    method OpenApproval(kind: Kind, subject: Subject) returns (id: ApprovalId)
      requires Ready()
      modifies this
      ensures Valid() && acts == old(acts) + [ApprovalCreated(id, kind, subject)] && id == script.approvalId(old(k))
      ensures awaitingApprovalId == Some(id) && status == AwaitingApproval && since == |old(heard)| && k == old(k) + 1
      ensures approvalDecision == StoredAfter(None, script.signals(old(k)), None)
    {
      ForgetDecision();
      id := script.approvalId(k);
      Perform(ApprovalCreated(id, kind, subject)); // create_approval
      awaitingApprovalId := Some(id);
      status := AwaitingApproval;
    }

    /** The decision is the one the script's signals from await `k0` on give. */
    predicate Answered(k0: nat, id: ApprovalId, timeout: bool, decision: string) {
      Answer(script.signals(k0), script.signals(k0 + 1), script.waits(k0 + 2), id)
      == if timeout then None else Some(decision)
    }

    /** The first half of `_request_approval`: create the approval, notify, wait. */
    method AskAndWait(kind: Kind, subject: Subject) returns (id: ApprovalId, timeout: bool, decision: string)
      requires Ready()
      modifies this
      ensures Ready() && acts == old(acts) + [ApprovalCreated(id, kind, subject)]
      ensures if timeout then decision == "denied" else Heard(heard, id, decision, since, |heard|)
      ensures id == script.approvalId(old(k)) && Answered(old(k), id, timeout, decision)
    {
      id := OpenApproval(kind, subject);
      timeout, decision := NotifyAndWait(id);
      awaitingApprovalId := None;
    }

    method NotifyAndWait(id: ApprovalId) returns (timeout: bool, decision: string)
      requires Valid() && awaitingApprovalId == Some(id)
      modifies this`k, this`paused, this`aborted, this`budgetOverride, this`approvalDecision, this`heard
      ensures Valid() && old(heard) <= heard
      ensures if timeout then decision == "denied" else Heard(heard, id, decision, since, |heard|)
      ensures WaitResult(StoredAfter(old(approvalDecision), script.signals(old(k)), Some(id)), script.waits(old(k) + 1), id)
              == if timeout then None else Some(decision)
    {
      Await(); // send_notifications
      timeout, decision := WaitForDecision(id);
    }

    /** `_request_approval`: whatever signals come, and however early or late, the
        decision acted on is a decision heard for the approval just created, or the
        timeout denial. */
    method RequestApproval(kind: Kind, subject: Subject) returns (decision: string)
      requires Ready()
      modifies this
      ensures Ready()
      ensures |acts| == |old(acts)| + 2 && acts[..|old(acts)|] == old(acts)
      ensures acts[|acts| - 2].ApprovalCreated? && acts[|acts| - 1].Decided?
      ensures acts[|acts| - 1].kind == kind && acts[|acts| - 1].subject == subject && acts[|acts| - 1].decision == decision
      ensures decision == APPROVED ==> JustApproved(acts, kind, subject)
      ensures Answered(old(k), script.approvalId(old(k)), acts[|acts| - 1].timeout, decision)
      ensures status == Investigating
    {
      ghost var before := acts;
      var id, timeout;
      id, timeout, decision := AskAndWait(kind, subject);
      ghost var decided := Decided(id, kind, subject, decision, timeout, since, |heard|);
      Perform(decided); // record_approval_decision
      status := Investigating;
      TwoAppended(before, ApprovalCreated(id, kind, subject), decided);
    }

    /** The raw-command gate of one report: a command runs only behind its own
        validation and its own approval. */
    method RawCommandGate(commands: seq<string>)
      requires Ready()
      modifies this
      ensures Ready() && SameProgress(old(acts), acts) && GateTrace(old(acts), acts, commands)
      ensures status in {old(status), Investigating}
    {
      var i := 0;
      while i < |commands|
        invariant 0 <= i <= |commands|
        invariant Ready() && SameProgress(old(acts), acts) && GateTrace(old(acts), acts, commands[..i])
        invariant status in {old(status), Investigating}
        decreases |commands| - i
      {
        ghost var before := acts;
        GateCommand(commands[i]);
        GateTraceStep(old(acts), before, acts, commands, i);
        i := i + 1;
      }
      assert commands[..|commands|] == commands;
    }

    method GateCommand(command: string)
      requires Ready()
      modifies this
      ensures Ready() && SameProgress(old(acts), acts) && GateBlock(old(acts), acts, command)
      ensures status in {old(status), Investigating}
    {
      var ok := script.validates(k);
      NeutralAppend(acts, Validated(command, ok));
      Perform(Validated(command, ok));
      if ok { RunIfApproved(command); }
    }

    /** A validated command: asked for, and run if approved. */
    method RunIfApproved(command: string)
      requires Ready() && acts != [] && acts[|acts| - 1] == Validated(command, true)
      modifies this
      ensures Ready() && SameProgress(old(acts), acts) && ApprovalBlock(old(acts), acts, command)
      ensures status == Investigating
    {
      ghost var asked := acts;
      var decision := RequestApproval(RawCommand, Command(command));
      NeutralPair(asked, acts);
      if decision == APPROVED {
        assert acts[|acts| - 3] == asked[|asked| - 1];
        NeutralAppend(acts, RanRawCommand(command));
        Perform(RanRawCommand(command));
      }
    }

    /** `_needs_human`: the closing activity, then the notification. */
    method ToNeedsHuman()
      requires Ready() && NeedsAHuman(acts, script.case_.threshold)
      modifies this
      ensures Ready() && acts == old(acts) + [Closed(NeedsHuman)]
      ensures Closings(acts) == old(Closings(acts)) + 1 && Collects(acts) == old(Collects(acts))
      ensures Bounds(acts) == old(Bounds(acts)) && (old(NoneApproved(acts)) ==> NoneApproved(acts))
    {
      ClosedAppend(acts, NeedsHuman);
      Perform(Closed(NeedsHuman));
      status := NeedsHuman;
      Await();
    }

    /** The round does not start: to a human. */
    method Refuse(reason: Stop)
      requires Ready() && Lawful(acts, Refused(reason), heard, script.case_.threshold) && (reason.WasAborted? ==> aborted)
      modifies this
      ensures Ready() && acts == old(acts) + [Refused(reason), Closed(NeedsHuman)]
      ensures Closings(acts) == old(Closings(acts)) + 1 && Collects(acts) == old(Collects(acts))
      ensures Bounds(acts) == old(Bounds(acts)) && (old(NoneApproved(acts)) ==> NoneApproved(acts))
    {
      NeutralAppend(acts, Refused(reason));
      Note(Refused(reason));
      ToNeedsHuman();
    }

    /** The abort, deadline and cost checks at the start of a round. */
    method CheckRound(round: int, deadline: int, cost: real) returns (step: RoundStep)
      requires Ready() && InLoop(acts, round - 1, deadline, cost) && StillOpen(acts, script.case_.threshold)
      requires status == Investigating
      modifies this
      ensures Ready() && step != Concluded && NoneApproved(acts) && Bounds(acts) == old(Bounds(acts))
      ensures Collects(acts) == round - 1
      ensures step == Ended ==> |acts| >= 2 && acts[|acts| - 2].Refused?
      ensures step == GoOn ==> StillOpen(acts, script.case_.threshold)
      ensures step == Ended ==> Closings(acts) == 1 && acts[|acts| - 1] == Closed(NeedsHuman)
      ensures step == Blocked ==> Closings(acts) == 0 && StaysPaused()
      ensures step == GoOn ==> status == Investigating
      ensures step == GoOn ==>
                InLoop(acts, round - 1, deadline, cost) && JustChecked(acts, round) && acts[|acts| - 1].Checked?
    {
      var running := WaitIfPaused();
      if !running { return Blocked; }
      step := CheckLimits(round, deadline, cost);
    }

    /** The same checks, past the wait for the end of a pause. */
    method CheckLimits(round: int, deadline: int, cost: real) returns (step: RoundStep)
      requires Ready() && InLoop(acts, round - 1, deadline, cost) && StillOpen(acts, script.case_.threshold)
      requires status == Investigating
      modifies this
      ensures Ready() && (step == GoOn || step == Ended) && NoneApproved(acts) && Bounds(acts) == old(Bounds(acts))
      ensures Collects(acts) == round - 1
      ensures step == Ended ==> |acts| >= 2 && acts[|acts| - 2].Refused?
      ensures step == Ended ==> Closings(acts) == 1 && acts[|acts| - 1] == Closed(NeedsHuman)
      ensures step == GoOn ==> StillOpen(acts, script.case_.threshold) && status == Investigating
      ensures step == GoOn ==>
                InLoop(acts, round - 1, deadline, cost) && JustChecked(acts, round) && acts[|acts| - 1].Checked?
    {
      var stopped := aborted;
      if stopped { Refuse(WasAborted); return Ended; }
      var now := script.clock(k);
      if now >= deadline { Refuse(PastDeadline(now, deadline)); return Ended; }
      var spent := script.spend(k);
      Await(); // get_spend
      if spent >= cost { Refuse(OverCost(spent, cost)); return Ended; }
      NeutralAppend(acts, Checked(round, stopped, now, deadline, spent, cost));
      Note(Checked(round, stopped, now, deadline, spent, cost));
      return GoOn;
    }

    /** An override moves the cost limit and the deadline, never the loop's range. */
    method ApplyOverride(ghost round: int, deadline: int, cost: real, budget: Budget)
      returns (deadline': int, cost': real, budget': Budget)
      requires Ready() && InLoop(acts, round - 1, deadline, cost) && (budget.maxCost.Some? ==> budget.maxCost.value == cost)
      requires JustChecked(acts, round) && acts[|acts| - 1].Checked? && StillOpen(acts, script.case_.threshold)
      modifies this
      ensures Ready() && InLoop(acts, round - 1, deadline', cost') && Bounds(acts) == old(Bounds(acts))
      ensures status == old(status)
      ensures StillOpen(acts, script.case_.threshold)
      ensures budget'.maxCost.Some? ==> budget'.maxCost.value == cost'
      ensures JustChecked(acts, round)
      ensures acts == if Truthy(old(budgetOverride))
                      then old(acts) + [Adjusted(old(budgetOverride).value, script.clock(old(k)))] else old(acts)
      ensures budget' == if Truthy(old(budgetOverride)) then Update(budget, old(budgetOverride).value) else budget
      ensures Truthy(old(budgetOverride)) ==> budgetOverride == None
    {
      deadline', cost', budget' := deadline, cost, budget;
      if Truthy(budgetOverride) {
        var o := budgetOverride.value;
        var at := script.clock(k);
        budget' := Update(budget, o);
        cost' := GetOr(budget'.maxCost, cost);
        if o.maxWall.Some? { deadline' := at + o.maxWall.value; }
        budgetOverride := None;
        AdjustedAppend(acts, o, at, round - 1, deadline, cost);
        Note(Adjusted(o, at));
      }
    }

    method Collect(round: int, ghost deadline: int, ghost cost: real)
      requires Ready() && InLoop(acts, round - 1, deadline, cost) && JustChecked(acts, round)
      requires StillOpen(acts, script.case_.threshold)
      modifies this
      ensures Ready() && acts == old(acts) + [Collected(round)] && status == old(status)
      ensures InLoop(acts, round, deadline, cost) && Bounds(acts) == old(Bounds(acts))
    {
      CollectedAppend(acts, round - 1, deadline, cost);
      Perform(Collected(round));
    }

    /** One round of the loop. */
    method Round(round: int, deadline: int, cost: real, budget: Budget)
      returns (step: RoundStep, deadline': int, cost': real, budget': Budget)
      requires Ready() && InLoop(acts, round - 1, deadline, cost) && (budget.maxCost.Some? ==> budget.maxCost.value == cost)
      requires StillOpen(acts, script.case_.threshold) && status == Investigating
      modifies this
      ensures Ready() && NoneApproved(acts) && Bounds(acts) == old(Bounds(acts)) && Collects(acts) <= round
      ensures step == GoOn ==> StillOpen(acts, script.case_.threshold)
      ensures step == Ended ==> Closings(acts) == 1 && acts[|acts| - 1] == Closed(NeedsHuman)
      ensures step == Blocked ==> Closings(acts) == 0 && StaysPaused()
      ensures step == GoOn ==> status == Investigating
      ensures step == GoOn || step == Concluded ==>
                InLoop(acts, round, deadline', cost') && (budget'.maxCost.Some? ==> budget'.maxCost.value == cost')
      ensures step == Concluded ==> HasConcluded(acts, script.case_.threshold)
    {
      deadline', cost', budget' := deadline, cost, budget;
      step := CheckRound(round, deadline, cost);
      if step != GoOn { return; }
      deadline', cost', budget' := ApplyOverride(round, deadline, cost, budget);
      Collect(round, deadline', cost');
      step := Analyze(round, deadline', cost');
    }

    /** The rest of a round, from the analysis of what was collected. */
    method Analyze(round: int, ghost deadline: int, ghost cost: real) returns (step: RoundStep)
      requires Ready() && InLoop(acts, round, deadline, cost) && status == Investigating
      modifies this
      ensures Ready() && NoneApproved(acts) && Bounds(acts) == old(Bounds(acts))
      ensures step == GoOn ==> status == Investigating
      ensures step == Ended ==>
                Closings(acts) == 1 && acts[|acts| - 1] == Closed(NeedsHuman) && Collects(acts) <= round
      ensures step != Blocked && (step != Ended ==> InLoop(acts, round, deadline, cost))
      ensures LastReport(acts) == Some(script.report(old(k)))
      ensures step == Concluded <==> Concludes(script.report(old(k)), script.case_.threshold)
      ensures step == Ended <==> Hopeless(script.report(old(k)))
    {
      var report := Review(round, deadline, cost);
      if report.status == "concluded" && report.confidence >= script.case_.threshold { return Concluded; }
      if report.status == "inconclusive" && !report.missingInfo {
        GiveUp();
        return Ended;
      }
      PlanNext();
      return GoOn;
    }

    method GiveUp()
      requires Ready() && acts != [] && LastReport(acts).Some? && Hopeless(LastReport(acts).value)
      modifies this
      ensures Ready() && acts == old(acts) + [Closed(NeedsHuman)] && LastReport(acts) == old(LastReport(acts))
      ensures Closings(acts) == old(Closings(acts)) + 1 && Collects(acts) == old(Collects(acts))
      ensures Bounds(acts) == old(Bounds(acts)) && (old(NoneApproved(acts)) ==> NoneApproved(acts))
    {
      ClosedKeepsReport(acts, NeedsHuman);
      ToNeedsHuman();
    }

    method PlanNext()
      requires Ready()
      modifies this
      ensures Ready() && SameProgress(old(acts), acts) && status == old(status)
    {
      NeutralAppend(acts, Planned);
      Perform(Planned); // plan_next
    }

    /** The analysis of a round, recorded, and its raw commands. */
    method Review(round: int, ghost deadline: int, ghost cost: real) returns (report: Report)
      requires Ready() && InLoop(acts, round, deadline, cost) && status == Investigating
      modifies this
      ensures Ready() && InLoop(acts, round, deadline, cost) && Bounds(acts) == old(Bounds(acts))
      ensures status == Investigating
      ensures report == script.report(old(k)) && LastReport(acts) == Some(report)
      ensures GateTrace(old(acts) + [Analyzed(report)] + [Recorded(round)], acts, report.commands)
    {
      report := RecordReport(round, deadline, cost);
      RawCommandGate(report.commands);
    }

    method RecordReport(round: int, ghost deadline: int, ghost cost: real) returns (report: Report)
      requires Ready() && InLoop(acts, round, deadline, cost) && status == Investigating
      modifies this
      ensures Ready() && InLoop(acts, round, deadline, cost) && Bounds(acts) == old(Bounds(acts))
      ensures status == Investigating && report == script.report(old(k)) && LastReport(acts) == Some(report)
      ensures acts == old(acts) + [Analyzed(report)] + [Recorded(round)]
    {
      report := script.report(k);
      AnalyzedAppend(acts, report, round, deadline, cost);
      NoteReport(report);
      Await(); // analyze
      NeutralAppend(acts, Recorded(round));
      Perform(Recorded(round));
    }

    method NoteReport(report: Report)
      requires Valid()
      modifies this`acts, this`lastReport
      ensures Valid() && acts == old(acts) + [Analyzed(report)]
    {
      LawfulAppend(acts, Analyzed(report), heard, script.case_.threshold);
      acts := acts + [Analyzed(report)];
      lastReport := Some(report);
    }

    /** An entry that is computed, not awaited. */
    method Note(ghost a: Act)
      requires Valid() && Lawful(acts, a, heard, script.case_.threshold) && !a.Analyzed?
      requires a == Refused(WasAborted) ==> aborted
      modifies this`acts
      ensures Valid() && acts == old(acts) + [a]
    {
      LawfulAppend(acts, a, heard, script.case_.threshold);
      acts := acts + [a];
    }

    /** The limits a run enters the loop with. */
    method EnterLoop(budget: Budget) returns (bound: int, deadline: int, cost: real)
      requires Ready() && Collects(acts) == 0 && Closings(acts) == 0 && NoneApproved(acts) && Bounds(acts) == []
      requires LastReport(acts) == None
      modifies this
      ensures Ready() && acts == old(acts) + [Entered(bound, cost, deadline)] && status == Investigating
      ensures bound == GetOr(budget.maxRounds, 15) && cost == GetOr(budget.maxCost, 10.0)
      ensures deadline == script.clock(old(k)) + GetOr(budget.maxWall, 1800)
      ensures InLoop(acts, 0, deadline, cost) && Bounds(acts) == [bound] && LastReport(acts) == None
    {
      deadline := script.clock(k) + GetOr(budget.maxWall, 1800);
      bound := GetOr(budget.maxRounds, 15);
      cost := GetOr(budget.maxCost, 10.0);
      status := Investigating;
      EnteredAppend(acts, bound, cost, deadline);
      Note(Entered(bound, cost, deadline));
    }

    /** The bounded loop: its range is fixed on entry, whatever overrides come later. */
    method Investigate(budget: Budget) returns (step: RoundStep)
      requires Ready() && Collects(acts) == 0 && Closings(acts) == 0 && NoneApproved(acts) && Bounds(acts) == []
      requires LastReport(acts) == None
      modifies this
      ensures Ready() && step != GoOn && NoneApproved(acts)
      ensures Bounds(acts) == [GetOr(budget.maxRounds, 15)]
      ensures Collects(acts) <= Positive(GetOr(budget.maxRounds, 15))
      ensures step == Ended ==> Closings(acts) == 1 && acts[|acts| - 1] == Closed(NeedsHuman)
      ensures step != Ended ==> Closings(acts) == 0
      ensures step == Blocked ==> StaysPaused()
      ensures step == Concluded ==> HasConcluded(acts, script.case_.threshold)
    {
      var bound, deadline, cost := EnterLoop(budget);
      var current := budget;
      var round := 1;
      while round <= bound
        invariant 1 <= round <= Positive(bound) + 1
        invariant Ready() && InLoop(acts, round - 1, deadline, cost) && Bounds(acts) == [bound]
        invariant StillOpen(acts, script.case_.threshold) && status == Investigating
        invariant current.maxCost.Some? ==> current.maxCost.value == cost
        decreases bound - round
      {
        step, deadline, cost, current := Round(round, deadline, cost, current);
        if step != GoOn { return; }
        round := round + 1;
      }
      ToNeedsHuman(); // the range is used up
      step := Ended;
    }

    /** One approved playbook: executed, settled, verified. */
    method ApplyPlaybook(action: Subject) returns (ok: bool)
      requires Ready() && JustApproved(acts, Remediation, action) && action.Proposed? && action.kind == Playbook
      modifies this
      ensures Ready() && |old(acts)| < |acts| && acts[..|old(acts)|] == old(acts)
      ensures ok ==> acts == old(acts) + [ExecutedPlaybook(action, true), VerifiedFix(action, true)]
      ensures !ok ==> acts == old(acts) + [ExecutedPlaybook(action, false)]
                      || acts == old(acts) + [ExecutedPlaybook(action, true), VerifiedFix(action, false)]
    {
      ghost var before := acts;
      var executed := script.playbookOk(k);
      Perform(ExecutedPlaybook(action, executed));
      if !executed { return false; }
      Await(); // settle timer
      ok := script.verifiedOk(k);
      Perform(VerifiedFix(action, ok));
      assert acts == before + [ExecutedPlaybook(action, true), VerifiedFix(action, ok)];
    }

    /** One proposed playbook: asked for, and applied if approved. */
    method TryPlaybook(action: Subject) returns (outcome: Attempt)
      requires Ready() && Closings(acts) == 0 && ApprovedSucceeded(acts) && IsPlaybook(action)
      modifies this
      ensures Ready() && Collects(acts) == old(Collects(acts)) && Bounds(acts) == old(Bounds(acts))
      ensures old(acts) <= acts && AskedFor(acts, action)
      ensures outcome != GaveUp ==> LastPlan(acts) == old(LastPlan(acts))
      ensures outcome == Denied ==>
                Closings(acts) == 0 && ApprovedSucceeded(acts) && (NoneApproved(acts) <==> old(NoneApproved(acts)))
      ensures outcome == Applied ==> Closings(acts) == 0 && AllApprovedSucceeded(acts)
      ensures outcome == GaveUp ==>
                Closings(acts) == 1 && acts[|acts| - 1] == Closed(NeedsHuman) && !AllApprovedSucceeded(acts)
    {
      ghost var a0 := acts;
      var decision := RequestApproval(Remediation, action);
      ghost var a1 := acts;
      RequestedProgress(a0, a1);
      RequestAsks(a0, a1);
      if decision != APPROVED { return Denied; }
      outcome := RunPlaybook(action, a0);
      AskedStays(a1, acts, action);
    }

    /** One playbook, right behind its approval. */
    method RunPlaybook(action: Subject, ghost a0: seq<Act>) returns (outcome: Attempt)
      requires Ready() && Closings(acts) == 0 && JustApproved(acts, Remediation, action) && IsPlaybook(action)
      requires ApprovedSucceeded(a0) && Requested(a0, acts)
      modifies this
      ensures Ready() && Collects(acts) == old(Collects(acts)) && Bounds(acts) == old(Bounds(acts)) && old(acts) <= acts
      ensures outcome != Denied
      ensures outcome == Applied ==>
                Closings(acts) == 0 && AllApprovedSucceeded(acts) && LastPlan(acts) == old(LastPlan(acts))
      ensures outcome == GaveUp ==>
                Closings(acts) == 1 && acts[|acts| - 1] == Closed(NeedsHuman) && !AllApprovedSucceeded(acts)
    {
      ghost var a1 := acts;
      var ok := ApplyPlaybook(action);
      if ok {
        SucceededProgress(a0, a1, acts);
        return Applied;
      }
      FailedProgress(a1, acts);
      ghost var a2 := acts;
      ToNeedsHuman();
      FailureStays(a2, acts, |a1| - 1);
      return GaveUp;
    }

    /** A closing activity with its notification. */
    method Close(r: Status)
      requires Ready() && Lawful(acts, Closed(r), heard, script.case_.threshold)
      modifies this
      ensures Ready() && acts == old(acts) + [Closed(r)] && status == r
    {
      Perform(Closed(r));
      status := r;
      if r != ClosedSummary { Await(); } // send_notifications
    }

    /** The remediation loop and its closing: resolved exactly when some playbook was
        approved and every approved one was executed and verified successfully. */
    method Remediate(actions: seq<Subject>) returns (r: Status)
      requires Ready() && Closings(acts) == 0 && NoneApproved(acts) && LastPlan(acts) == Some(actions)
      modifies this
      ensures Ready() && Closings(acts) == 1 && acts[|acts| - 1] == Closed(r)
      ensures Collects(acts) == old(Collects(acts)) && Bounds(acts) == old(Bounds(acts))
      ensures r == Resolved <==> AllApprovedSucceeded(acts)
      ensures r in {NeedsHuman, ClosedSummary, Resolved}
    {
      var executedAny := false;
      var i := 0;
      while i < |actions|
        invariant Ready() && Closings(acts) == 0
        invariant Collects(acts) == old(Collects(acts)) && Bounds(acts) == old(Bounds(acts))
        invariant (executedAny <==> !NoneApproved(acts)) && ApprovedSucceeded(acts)
        invariant 0 <= i <= |actions| && LastPlan(acts) == Some(actions)
        invariant forall j | 0 <= j < i && IsPlaybook(actions[j]) :: AskedFor(acts, actions[j])
        decreases |actions| - i
      {
        if IsPlaybook(actions[i]) {
          ghost var before := acts;
          var outcome := TryPlaybook(actions[i]);
          forall j | 0 <= j < i && IsPlaybook(actions[j]) ensures AskedFor(acts, actions[j]) {
            AskedStays(before, acts, actions[j]);
          }
          if outcome == GaveUp { return NeedsHuman; }
          executedAny := executedAny || outcome == Applied;
        }
        i := i + 1;
      }
      r := if executedAny then Resolved else ClosedSummary;
      ClosedProgress(acts, r);
      Close(r);
    }

    method PlanRemediation() returns (actions: seq<Subject>)
      requires Ready() && HasConcluded(acts, script.case_.threshold)
      modifies this
      ensures Ready() && SameProgress(old(acts), acts)
      ensures actions == script.actions(old(k)) && LastPlan(acts) == Some(actions)
    {
      actions := script.actions(k);
      NeutralAppend(acts, PlannedRemediation(actions));
      PlanAppend(acts, actions);
      Perform(PlannedRemediation(actions));
    }

    /** From the conclusion on: plan the remediation, then close with a summary or remediate. */
    method Conclude() returns (r: Status)
      requires Ready() && Closings(acts) == 0 && NoneApproved(acts)
      requires HasConcluded(acts, script.case_.threshold)
      modifies this
      ensures Ready() && Closings(acts) == 1 && acts[|acts| - 1] == Closed(r)
      ensures Collects(acts) == old(Collects(acts)) && Bounds(acts) == old(Bounds(acts))
      ensures r == Resolved <==> AllApprovedSucceeded(acts)
      ensures r in {NeedsHuman, ClosedSummary, Resolved}
    {
      var actions := PlanRemediation();
      if forall i | 0 <= i < |actions| :: SummaryOnly(actions[i]) {
        ClosedProgress(acts, ClosedSummary);
        Close(ClosedSummary);
        return ClosedSummary;
      }
      r := Remediate(actions);
    }

    /** An override signalled while the case is created is laid over its budget, and
        kept for the first round. */
    method CreateCase() returns (budget: Budget)
      requires Ready() && acts == []
      modifies this
      ensures Ready() && |acts| == 1 && acts[0] == CaseCreated && status == Open
      ensures budget == if Truthy(budgetOverride) then Update(script.case_.budget, budgetOverride.value)
                        else script.case_.budget
    {
      Perform(CaseCreated);
      budget := script.case_.budget;
      if Truthy(budgetOverride) { budget := Update(budget, budgetOverride.value); }
      status := Open;
    }

    /** Case creation, and rejection of a platform that is not ready. */
    method Begin() returns (rejected: bool, budget: Budget)
      requires Ready() && acts == []
      modifies this
      ensures Ready() && Collects(acts) == 0 && Bounds(acts) == [] && NoneApproved(acts) && LastReport(acts) == None
      ensures rejected == script.case_.rejected
      ensures rejected ==> Closings(acts) == 1 && acts[|acts| - 1] == Closed(Rejected)
      ensures !rejected ==> Closings(acts) == 0
    {
      budget := CreateCase();
      rejected := script.case_.rejected;
      if rejected {
        FirstTwo(acts, Closed(Rejected));
        Close(Rejected);
      } else {
        FirstTwo(acts, Planned);
        Perform(Planned); // plan_initial
      }
    }

    /** A whole run, for any script. Every entry of its record is lawful; it closes
        exactly once and with its result, unless its last wait was for the end of a pause
        that no signal ended; it collects at most as often as the bound it entered with;
        and it is resolved exactly when some playbook was approved and every approved one
        succeeded. */
    method Run() returns (r: Option<Status>)
      requires Ready() && acts == [] && heard == []
      modifies this
      ensures AllLawful(acts, heard, script.case_.threshold) && (aborted || NoAbort(acts))
      ensures forall i | 0 <= i < |acts| :: CommandGated(acts, heard, i) && PlaybookGated(acts, heard, i)
      ensures forall i | 0 <= i < |acts| :: RoundChecked(acts, i) && ClosingJustified(acts, script.case_.threshold, i)
      ensures r == Some(Rejected) <==> script.case_.rejected
      ensures r.Some? ==> Closings(acts) == 1 && acts != [] && acts[|acts| - 1] == Closed(r.value)
      ensures r.None? ==> Closings(acts) == 0 && StaysPaused()
      ensures |Bounds(acts)| <= 1 && Collects(acts) <= if Bounds(acts) == [] then 0 else Positive(Bounds(acts)[0])
      ensures r == Some(Resolved) <==> AllApprovedSucceeded(acts)
    {
      r := Proceed();
      RecordIsJustified(acts, heard, script.case_.threshold);
    }

    method Proceed() returns (r: Option<Status>)
      requires Ready() && acts == []
      modifies this
      ensures Ready()
      ensures r == Some(Rejected) <==> script.case_.rejected
      ensures r.Some? ==> Closings(acts) == 1 && acts != [] && acts[|acts| - 1] == Closed(r.value)
      ensures r.None? ==> Closings(acts) == 0 && StaysPaused()
      ensures |Bounds(acts)| <= 1 && Collects(acts) <= if Bounds(acts) == [] then 0 else Positive(Bounds(acts)[0])
      ensures r == Some(Resolved) <==> AllApprovedSucceeded(acts)
    {
      var rejected, budget := Begin();
      if rejected { return Some(Rejected); }
      var step := Investigate(budget);
      if step == Blocked { return None; }
      if step == Ended { return Some(NeedsHuman); }
      var closed := Conclude();
      r := Some(closed);
    }
  }

  /** The entries of one validated command: its approval, decided, and its run exactly
      if approved. */
  predicate ApprovalBlock(before: seq<Act>, after: seq<Act>, command: string) {
    var n := |before|;
    && n + 2 <= |after| && after[..n] == before
    && after[n].ApprovalCreated? && after[n].kind == RawCommand && after[n].subject == Command(command)
    && after[n + 1].Decided? && after[n + 1].id == after[n].id
    && if after[n + 1].decision == APPROVED then |after| == n + 3 && after[n + 2] == RanRawCommand(command)
       else |after| == n + 2
  }

  /** The entries of one requested command: validated, and asked for exactly if valid. */
  ghost predicate GateBlock(before: seq<Act>, after: seq<Act>, command: string) {
    || after == before + [Validated(command, false)]
    || ApprovalBlock(before + [Validated(command, true)], after, command)
  }

  /** One block for each requested command, in order. */
  ghost predicate GateTrace(before: seq<Act>, after: seq<Act>, commands: seq<string>)
    decreases commands
  {
    if commands == [] then after == before
    else
      var front, last := commands[..|commands| - 1], commands[|commands| - 1];
      exists mid :: GateTrace(before, mid, front) && GateBlock(mid, after, last)
  }

  lemma GateTraceStep(before: seq<Act>, mid: seq<Act>, after: seq<Act>, commands: seq<string>, i: nat)
    requires i < |commands| && GateTrace(before, mid, commands[..i]) && GateBlock(mid, after, commands[i])
    ensures GateTrace(before, after, commands[..i + 1])
  {
    assert commands[..i + 1][..i] == commands[..i];
  }

  datatype Attempt = Denied | Applied | GaveUp

  function Positive(n: int): nat { if n > 0 then n else 0 }

  predicate SummaryOnly(a: Subject) {
    a.Proposed? && (a.kind == Ignore || a.kind == ManualRecommendation || a.kind == CodeFixRecommendation)
  }

  ghost predicate ApprovedSucceeded(acts: seq<Act>) {
    forall i | 0 <= i < |acts| && Approved(acts[i]) :: Succeeded(acts, i)
  }

  /** At least one playbook was approved, and every approved one succeeded. */
  ghost predicate AllApprovedSucceeded(acts: seq<Act>) { !NoneApproved(acts) && ApprovedSucceeded(acts) }

  lemma EnteredAppend(acts: seq<Act>, bound: int, cost: real, deadline: int)
    requires Collects(acts) == 0 && Closings(acts) == 0 && NoneApproved(acts) && Bounds(acts) == []
    ensures InLoop(acts + [Entered(bound, cost, deadline)], 0, deadline, cost)
    ensures Bounds(acts + [Entered(bound, cost, deadline)]) == [bound]
    ensures LastReport(acts + [Entered(bound, cost, deadline)]) == LastReport(acts)
  {
    assert (acts + [Entered(bound, cost, deadline)])[..|acts|] == acts;
  }

  /** Appending entries that are no closings, collections or loop entries. */
  lemma {:induction false} PlainAppend(acts: seq<Act>, more: seq<Act>)
    requires forall i | 0 <= i < |more| ::
               !more[i].Collected? && !more[i].Closed? && !more[i].Entered? && !more[i].PlannedRemediation?
    ensures Collects(acts + more) == Collects(acts) && Closings(acts + more) == Closings(acts)
    ensures Bounds(acts + more) == Bounds(acts) && LastPlan(acts + more) == LastPlan(acts)
  {
    if more == [] { assert acts + more == acts; }
    else {
      var init := more[..|more| - 1];
      PlainAppend(acts, init);
      assert (acts + more)[..|acts + more| - 1] == acts + init;
    }
  }

  /** One approval request further. */
  predicate Requested(a0: seq<Act>, a1: seq<Act>) {
    |a1| == |a0| + 2 && a1[..|a0|] == a0 && a1[|a0|].ApprovalCreated? && a1[|a0| + 1].Decided?
  }

  lemma RequestAsks(a0: seq<Act>, a1: seq<Act>)
    requires Requested(a0, a1) && a1[|a0| + 1].kind == Remediation
    ensures a0 <= a1 && AskedFor(a1, a1[|a0| + 1].subject)
  {
  }

  /** After an approval request: its two entries, the last possibly an approval. */
  lemma RequestedProgress(a0: seq<Act>, a1: seq<Act>)
    requires Requested(a0, a1) && ApprovedSucceeded(a0)
    ensures Collects(a1) == Collects(a0) && Closings(a1) == Closings(a0) && Bounds(a1) == Bounds(a0)
    ensures LastPlan(a1) == LastPlan(a0)
    ensures !Approved(a1[|a0| + 1]) ==> ApprovedSucceeded(a1) && (NoneApproved(a1) <==> NoneApproved(a0))
  {
    assert a1 == a0 + a1[|a0|..];
    PlainAppend(a0, a1[|a0|..]);
    assert forall i | 0 <= i < |a0| :: a1[i] == a0[i];
    forall i | 0 <= i < |a0| && Approved(a1[i]) ensures Succeeded(a1, i) { assert Succeeded(a0, i); }
  }

  lemma SucceededProgress(a0: seq<Act>, a1: seq<Act>, a2: seq<Act>)
    requires Requested(a0, a1) && ApprovedSucceeded(a0) && Approved(a1[|a0| + 1])
    requires a2 == a1 + [ExecutedPlaybook(a1[|a0| + 1].subject, true), VerifiedFix(a1[|a0| + 1].subject, true)]
    ensures Collects(a2) == Collects(a1) && Closings(a2) == Closings(a1) && Bounds(a2) == Bounds(a1)
    ensures LastPlan(a2) == LastPlan(a1)
    ensures ApprovedSucceeded(a2) && !NoneApproved(a2)
  {
    PlainAppend(a1, a2[|a1|..]);
    assert a2 == a1 + a2[|a1|..];
    assert Approved(a2[|a0| + 1]);
    assert forall i | 0 <= i < |a0| :: a2[i] == a1[i] == a0[i];
    forall i | 0 <= i < |a2| && Approved(a2[i]) ensures Succeeded(a2, i) {
      if i < |a0| { assert Succeeded(a0, i); }
    }
  }

  lemma FailedProgress(a1: seq<Act>, a2: seq<Act>)
    requires |a1| >= 1 && Approved(a1[|a1| - 1])
    requires var s := a1[|a1| - 1].subject;
             a2 == a1 + [ExecutedPlaybook(s, false)] || a2 == a1 + [ExecutedPlaybook(s, true), VerifiedFix(s, false)]
    ensures Collects(a2) == Collects(a1) && Closings(a2) == Closings(a1) && Bounds(a2) == Bounds(a1)
    ensures a2[|a1| - 1] == a1[|a1| - 1] && !Succeeded(a2, |a1| - 1)
    ensures |a2| > |a1| && (a2[|a1|] == ExecutedPlaybook(a1[|a1| - 1].subject, false) || |a2| == |a1| + 2)
  {
    PlainAppend(a1, a2[|a1|..]);
    assert a2 == a1 + a2[|a1|..];
  }

  /** A failed playbook stays failed when the run closes. */
  lemma FailureStays(acts: seq<Act>, after: seq<Act>, i: nat)
    requires after == acts + [Closed(NeedsHuman)] && i + 1 < |acts| && Approved(acts[i]) && !Succeeded(acts, i)
    requires acts[i + 1] == ExecutedPlaybook(acts[i].subject, false) || i + 3 == |acts|
    ensures !AllApprovedSucceeded(after)
  {
    assert Approved(after[i]) && !Succeeded(after, i);
  }

  lemma ClosingKeepsSuccess(acts: seq<Act>, after: seq<Act>, r: Status)
    requires after == acts + [Closed(r)] && ApprovedSucceeded(acts)
    ensures ApprovedSucceeded(after) && (NoneApproved(after) <==> NoneApproved(acts))
  {
    assert forall i | 0 <= i < |acts| :: after[i] == acts[i];
    forall i | 0 <= i < |after| && Approved(after[i]) ensures Succeeded(after, i) { assert Succeeded(acts, i); }
  }

  lemma ClosedProgress(acts: seq<Act>, r: Status)
    requires ApprovedSucceeded(acts)
    ensures var after := acts + [Closed(r)];
            && Closings(after) == Closings(acts) + 1 && Collects(after) == Collects(acts) && Bounds(after) == Bounds(acts)
            && ApprovedSucceeded(after) && (NoneApproved(after) <==> NoneApproved(acts))
            && after[|after| - 1] == Closed(r)
  {
    ClosedAppend(acts, r);
    ClosingKeepsSuccess(acts, acts + [Closed(r)], r);
  }

  datatype RoundStep = GoOn | Concluded | Ended | Blocked

  /** The loop bounds a run entered with. */
  function Bounds(acts: seq<Act>): seq<int> {
    if acts == [] then []
    else Bounds(acts[..|acts| - 1]) + if acts[|acts| - 1].Entered? then [acts[|acts| - 1].bound] else []
  }

  /** Inside the loop after this many rounds, with these limits in force. */
  ghost predicate InLoop(acts: seq<Act>, rounds: int, deadline: int, cost: real) {
    && Collects(acts) == rounds && Closings(acts) == 0 && NoneApproved(acts)
    && DeadlineOf(acts) == Some(deadline) && CostOf(acts) == Some(cost)
  }

  /** Nothing the loop counts or measures changed. */
  ghost predicate SameProgress(before: seq<Act>, after: seq<Act>) {
    && Collects(after) == Collects(before) && Closings(after) == Closings(before)
    && LastReport(after) == LastReport(before) && DeadlineOf(after) == DeadlineOf(before)
    && CostOf(after) == CostOf(before) && Bounds(after) == Bounds(before)
    && (NoneApproved(before) ==> NoneApproved(after))
  }

  predicate Neutral(a: Act) {
    !a.Collected? && !a.Closed? && !a.Analyzed? && !a.Entered? && !a.Adjusted? && !Approved(a)
  }

  lemma AdjustedAppend(acts: seq<Act>, o: Budget, at: int, rounds: int, deadline: int, cost: real)
    requires InLoop(acts, rounds, deadline, cost)
    ensures InLoop(acts + [Adjusted(o, at)], rounds, if o.maxWall.Some? then at + o.maxWall.value else deadline,
                   if o.maxCost.Some? then o.maxCost.value else cost)
    ensures Bounds(acts + [Adjusted(o, at)]) == Bounds(acts) && LastReport(acts + [Adjusted(o, at)]) == LastReport(acts)
  {
    assert (acts + [Adjusted(o, at)])[..|acts|] == acts;
  }

  lemma CollectedAppend(acts: seq<Act>, rounds: int, deadline: int, cost: real)
    requires InLoop(acts, rounds, deadline, cost)
    ensures InLoop(acts + [Collected(rounds + 1)], rounds + 1, deadline, cost)
    ensures Bounds(acts + [Collected(rounds + 1)]) == Bounds(acts)
  {
    assert (acts + [Collected(rounds + 1)])[..|acts|] == acts;
  }

  lemma AnalyzedAppend(acts: seq<Act>, report: Report, rounds: int, deadline: int, cost: real)
    requires InLoop(acts, rounds, deadline, cost)
    ensures InLoop(acts + [Analyzed(report)], rounds, deadline, cost)
    ensures Bounds(acts + [Analyzed(report)]) == Bounds(acts) && LastReport(acts + [Analyzed(report)]) == Some(report)
  {
    assert (acts + [Analyzed(report)])[..|acts|] == acts;
  }

  lemma ClosedAppend(acts: seq<Act>, status: Status)
    ensures var r := acts + [Closed(status)];
            && Closings(r) == Closings(acts) + 1 && Collects(r) == Collects(acts) && Bounds(r) == Bounds(acts)
            && (NoneApproved(acts) ==> NoneApproved(r))
  {
    assert (acts + [Closed(status)])[..|acts|] == acts;
  }

  lemma FirstTwo(first: seq<Act>, a: Act)
    requires |first| == 1 && first[0] == CaseCreated && (a == Planned || a == Closed(Rejected))
    ensures var acts := first + [a];
            && Collects(acts) == 0 && Closings(acts) == (if a.Closed? then 1 else 0) && Bounds(acts) == []
            && LastReport(acts) == None && NoneApproved(acts) && acts[|acts| - 1] == a
  {
    assert first == [] + [CaseCreated];
    NeutralAppend([], CaseCreated);
    if a.Closed? { ClosedAppend(first, Rejected); ClosedKeepsReport(first, Rejected); } else { NeutralAppend(first, a); }
  }

  lemma PlanAppend(acts: seq<Act>, actions: seq<Subject>)
    ensures LastPlan(acts + [PlannedRemediation(actions)]) == Some(actions)
  {
  }

  lemma AskedStays(before: seq<Act>, after: seq<Act>, subject: Subject)
    requires before <= after && AskedFor(before, subject)
    ensures AskedFor(after, subject)
  {
    var i :| 0 <= i < |before| && before[i].Decided? && before[i].kind == Remediation && before[i].subject == subject;
    assert after[i] == before[i];
  }

  lemma ClosedKeepsReport(acts: seq<Act>, status: Status)
    ensures LastReport(acts + [Closed(status)]) == LastReport(acts)
  {
    assert (acts + [Closed(status)])[..|acts|] == acts;
  }

  lemma TwoAppended(before: seq<Act>, a: Act, b: Act)
    ensures var acts := before + [a] + [b];
            acts[..|before|] == before && acts[|acts| - 2] == a && acts[|acts| - 1] == b
  {
  }

  lemma NeutralPair(before: seq<Act>, after: seq<Act>)
    requires |after| == |before| + 2 && after[..|before|] == before
    requires Neutral(after[|before|]) && Neutral(after[|before| + 1])
    ensures SameProgress(before, after)
  {
    var a, b := after[|before|], after[|before| + 1];
    assert after == before + [a] + [b];
    NeutralAppend(before, a);
    NeutralAppend(before + [a], b);
  }

  lemma NeutralAppend(acts: seq<Act>, a: Act)
    requires Neutral(a)
    ensures SameProgress(acts, acts + [a])
  {
    assert (acts + [a])[..|acts|] == acts;
  }
}
