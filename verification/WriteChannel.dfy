/** The signed write channel: a playbook that an investigation workflow executes is
    resolved to steps against the platform's configuration of that moment, its steps
    are signed one at a time by the worker, and a probe executes what it receives,
    trusting nothing but the signature, its key ring and its own write_enabled flag.
    Everything a probe receives is taken to be arbitrary: any step, any signature, at
    any time, any number of times. Signatures are ideal: one verifies only under the
    key and for the text it was made for (section 5.1 of RFC 8032), and the digest is
    taken as injective. */
module WriteChannel {
  import opened Wrappers
  import opened SigningKeys
  import F = StepFrame
  import W = Workflow

  /** A signature value; only the signer brings one into being. */
  datatype Signature = Signature(key: Key, message: string)

  /** The playbooks of the registry, and the ops their steps are made of. */
  datatype Playbook = KillQuery | UpdateConfigRestartWorkers | RestartCoordinator | RestartWorker | AdjustMemoryConfig

  datatype Op =
    | PrestoKillQuery | SwarmUpdateServiceEnv | SwarmRestartService
    | K8sPatchConfigmap | K8sRolloutRestart | K8sDeletePod

  function PlaybookId(p: Playbook): string {
    match p
    case KillQuery => "presto.kill_query"
    case UpdateConfigRestartWorkers => "presto.update_config_restart_workers"
    case RestartCoordinator => "presto.restart_coordinator"
    case RestartWorker => "presto.restart_worker"
    case AdjustMemoryConfig => "presto.adjust_memory_config"
  }

  function OpText(o: Op): string {
    match o
    case PrestoKillQuery => "presto_kill_query"
    case SwarmUpdateServiceEnv => "swarm_update_service_env"
    case SwarmRestartService => "swarm_restart_service"
    case K8sPatchConfigmap => "k8s_patch_configmap"
    case K8sRolloutRestart => "k8s_rollout_restart"
    case K8sDeletePod => "k8s_delete_pod"
  }

  /** The registry's entry for this id; None is an unknown playbook. */
  function Registered(id: string): (r: Option<Playbook>)
    ensures r.Some? ==> PlaybookId(r.value) == id
  {
    if id == PlaybookId(KillQuery) then Some(KillQuery)
    else if id == PlaybookId(UpdateConfigRestartWorkers) then Some(UpdateConfigRestartWorkers)
    else if id == PlaybookId(RestartCoordinator) then Some(RestartCoordinator)
    else if id == PlaybookId(RestartWorker) then Some(RestartWorker)
    else if id == PlaybookId(AdjustMemoryConfig) then Some(AdjustMemoryConfig)
    else None
  }

  /** Parameters that have a canonical JSON text. */
  type Params = j: F.Json | F.Wellformed(j) witness F.Null

  datatype StepSpec = StepSpec(op: Op, params: Params)

  /** A playbook resolved to its steps. */
  datatype Plan = Plan(playbook: Playbook, steps: seq<StepSpec>)

  type CaseId = nat

  // ----- the probe's gate -----

  datatype VerifyResult = VerifyResult(ok: bool, keyMatched: Option<Key>)

  predicate Verifies(key: Option<Key>, message: string, sig: Signature, signed: set<Signature>) {
    key.Some? && |key.value| == KEY_SIZE && sig == Signature(key.value, message) && sig in signed
  }

  /** `KeyRing.Verify` behind the write_enabled gate: current key first, then previous. */
  function VerifyStep(ring: KeyRing, writeEnabled: bool, step: F.Step, sig: Signature, signed: set<Signature>): VerifyResult {
    if !writeEnabled then VerifyResult(false, None)
    else if Verifies(ring.current, F.Frame(step), sig, signed) then VerifyResult(true, ring.current)
    else if Verifies(ring.previous, F.Frame(step), sig, signed) then VerifyResult(true, ring.previous)
    else VerifyResult(false, None)
  }

  /** A received step passes the gate exactly when writes are enabled and its signature
      was made, for its own frame, under the current key or one still in grace. */
  lemma VerifyStepExactly(keys: KeyState, grace: Time, now: Time, writeEnabled: bool, step: F.Step,
                          sig: Signature, signed: set<Signature>)
    ensures VerifyStep(RingAt(keys, grace, now), writeEnabled, step, sig, signed).ok
            <==> && writeEnabled && sig in signed && sig.message == F.Frame(step) && |sig.key| == KEY_SIZE
                 && (|| keys.current == Some(sig.key)
                     || (keys.previous == Some(sig.key) && grace > 0 && now - keys.rotatedAt <= grace))
  {
    var ring := RingAt(keys, grace, now);
    assert Verifies(ring.current, F.Frame(step), sig, signed) || Verifies(ring.previous, F.Frame(step), sig, signed)
      <==> sig in signed && sig.message == F.Frame(step) && |sig.key| == KEY_SIZE
           && (ring.current == Some(sig.key) || ring.previous == Some(sig.key));
  }

  // ----- the worker's step loop -----

  /** What came back for a dispatched step. */
  datatype Reply = Raised | Reply(exitCode: int, hasError: bool, dataOk: Option<bool>)

  predicate ReplyOk(r: Reply) {
    r.Reply? && r.exitCode == 0 && !r.hasError && r.dataOk != Some(false)
  }

  function StepOf(execution: string, a: Plan, i: nat): F.Step
    requires i < |a.steps|
  {
    F.Step(execution, PlaybookId(a.playbook), i, OpText(a.steps[i].op), a.steps[i].params)
  }

  datatype PlaybookResult = Done(steps: nat) | FailedAt(index: nat)

  /** The signatures of the first `n` steps, in order. */
  function SignedPrefix(execution: string, a: Plan, key: Key, n: nat): (r: seq<Signature>)
    requires n <= |a.steps|
    ensures |r| == n
  {
    if n == 0 then [] else SignedPrefix(execution, a, key, n - 1) + [Signature(key, F.Frame(StepOf(execution, a, n - 1)))]
  }

  /** The first `n` steps came back ok. */
  predicate FirstAreOk(replies: seq<Reply>, n: int)
    requires n <= |replies|
  {
    forall j | 0 <= j < n :: ReplyOk(replies[j])
  }

  method SignNext(execution: string, a: Plan, key: Key, signatures: seq<Signature>) returns (more: seq<Signature>)
    requires |signatures| < |a.steps| && signatures == SignedPrefix(execution, a, key, |signatures|)
    ensures |more| == |signatures| + 1 && more == SignedPrefix(execution, a, key, |more|)
  {
    more := signatures + [Signature(key, F.Frame(StepOf(execution, a, |signatures|)))];
  }

  /** The sign-and-dispatch loop of `execute_playbook`: signatures are made for steps
      0, 1, … in order, each only after every earlier step came back ok, and the
      first step that does not ends the run. */
  method SignAndDispatch(execution: string, a: Plan, key: Key, replies: seq<Reply>)
    returns (result: PlaybookResult, signatures: seq<Signature>)
    requires |replies| == |a.steps|
    ensures |signatures| <= |a.steps|
    ensures signatures == SignedPrefix(execution, a, key, |signatures|)
    ensures FirstAreOk(replies, |signatures| - 1)
    ensures result.Done? <==> FirstAreOk(replies, |replies|)
    ensures result.Done? ==> result.steps == |a.steps| == |signatures|
    ensures result.FailedAt? ==>
              result.index + 1 == |signatures| && !ReplyOk(replies[result.index]) && FirstAreOk(replies, result.index)
  {
    signatures := [];
    var i := 0;
    while i < |a.steps|
      invariant 0 <= i <= |a.steps| && |signatures| == i && FirstAreOk(replies, i)
      invariant signatures == SignedPrefix(execution, a, key, i)
    {
      signatures := SignNext(execution, a, key, signatures);
      if !ReplyOk(replies[i]) { return FailedAt(i), signatures; }
      i := i + 1;
    }
    result := Done(|a.steps|);
  }

  // ----- the protocol -----

  /** What the worker reads of the platform when a playbook starts. */
  datatype Env = Env(deployment: string, locators: F.Json)

  /** The deployment: the probe's settings and the registry's builders, any function of
      playbook, deployment, approved parameters and locators; None when one raises. */
  datatype Setup = Setup(writeEnabled: bool, grace: Time,
                         resolve: (Playbook, string, F.Json, F.Json) -> Option<seq<StepSpec>>)

  /** The record of one case's workflow run: its entries and the decisions it heard. */
  datatype Record = Record(acts: seq<W.Act>, heard: seq<W.Decision>, threshold: real)

  ghost predicate LawfulRecord(r: Record) { W.AllLawful(r.acts, r.heard, r.threshold) }

  /** A running playbook: the workflow entry it runs for, the environment it was resolved
      in, its steps, how many were signed and came back ok, and whether one did not. */
  datatype Execution = Execution(case_: CaseId, entry: nat, env: Env, plan: Plan, signed: nat, ok: nat, failed: bool)

  /** A step handed to the platform, with the ring it was checked against. */
  datatype Write = Write(step: F.Step, key: Key, at: Time, keys: KeyState)

  datatype State = State(cases: map<CaseId, Record>, executions: map<string, Execution>, signerKey: Key,
                         signatures: set<Signature>, probeKeys: KeyState, writes: seq<Write>)

  datatype Move =
    | OpenCase(id: CaseId, threshold: real)
    | WorkflowMoves(id: CaseId, acts: seq<W.Act>, heard: seq<W.Decision>)
    | Begin(execution: string, id: CaseId, env: Env)
    | Sign(execution: string)
    | StepReturns(execution: string, reply: Reply)
    | RotateSigner(key: Key)
    | InstallKey(key: Key, now: Time)
    | ProbeReceives(step: F.Step, sig: Signature, now: Time)

  /** What `execute_playbook` makes of the entry it runs for. */
  function Resolved(p: Setup, a: W.Act, env: Env): Option<Plan>
    requires a.ExecutedPlaybook?
  {
    if !a.subject.Proposed? || Registered(a.subject.playbook).None? then None
    else
      var playbook := Registered(a.subject.playbook).value;
      match p.resolve(playbook, env.deployment, a.subject.params, env.locators)
      case None => None
      case Some(steps) => Some(Plan(playbook, steps))
  }

  ghost predicate Enabled(p: Setup, s: State, m: Move) {
    match m
    case OpenCase(id, _) => id !in s.cases
    case WorkflowMoves(id, acts, heard) =>
      && id in s.cases && s.cases[id].acts <= acts && s.cases[id].heard <= heard
      && LawfulRecord(Record(acts, heard, s.cases[id].threshold))
    case Begin(execution, id, env) =>
      && execution !in s.executions && F.BarFree(execution) // a uuid
      && id in s.cases && s.cases[id].acts != []
      && var a := s.cases[id].acts[|s.cases[id].acts| - 1];
      a.ExecutedPlaybook? && Resolved(p, a, env).Some?
    case Sign(execution) =>
      && execution in s.executions
      && var x := s.executions[execution];
      !x.failed && x.signed == x.ok < |x.plan.steps|
    case StepReturns(execution, reply) =>
      execution in s.executions && s.executions[execution].signed == s.executions[execution].ok + 1
      && !s.executions[execution].failed
    case ProbeReceives(step, sig, now) => F.OnTheWire(step)
    case _ => true
  }

  ghost function Next(p: Setup, s: State, m: Move): State
    requires Enabled(p, s, m)
  {
    match m
    case OpenCase(id, threshold) => s.(cases := s.cases[id := Record([], [], threshold)])
    case WorkflowMoves(id, acts, heard) => s.(cases := s.cases[id := Record(acts, heard, s.cases[id].threshold)])
    case Begin(execution, id, env) =>
      var n := |s.cases[id].acts| - 1;
      s.(executions := s.executions[execution :=
        Execution(id, n, env, Resolved(p, s.cases[id].acts[n], env).value, 0, 0, false)])
    case Sign(execution) =>
      var x := s.executions[execution];
      s.(executions := s.executions[execution := x.(signed := x.signed + 1)],
         signatures := s.signatures + {Signature(s.signerKey, F.Frame(StepOf(execution, x.plan, x.signed)))})
    case StepReturns(execution, reply) =>
      var x := s.executions[execution];
      s.(executions := s.executions[execution := if ReplyOk(reply) then x.(ok := x.ok + 1) else x.(failed := true)])
    case RotateSigner(key) => s.(signerKey := key)
    case InstallKey(key, now) => s.(probeKeys := Installed(s.probeKeys, key, now))
    case ProbeReceives(step, sig, now) =>
      var v := VerifyStep(RingAt(s.probeKeys, p.grace, now), p.writeEnabled, step, sig, s.signatures);
      if v.ok && v.keyMatched.Some? then s.(writes := s.writes + [Write(step, v.keyMatched.value, now, s.probeKeys)]) else s
  }

  ghost predicate Init(s: State) {
    s.cases == map[] && s.executions == map[] && s.signatures == {} && s.probeKeys == NO_KEYS && s.writes == []
  }

  ghost predicate Moves(p: Setup, s: State, m: Move, r: State) { Enabled(p, s, m) && r == Next(p, s, m) }

  ghost predicate IsRun(p: Setup, states: seq<State>, moves: seq<Move>) {
    && |states| == |moves| + 1 && Init(states[0])
    && forall i | 0 <= i < |moves| :: Moves(p, states[i], moves[i], states[i + 1])
  }

  // ----- what every run keeps -----

  lemma PlaybookIdHoldsNoBar(p: Playbook)
    ensures F.BarFree(PlaybookId(p))
  {
  }

  lemma OpHoldsNoBar(o: Op)
    ensures F.BarFree(OpText(o))
  {
  }

  ghost predicate ExecutionSound(p: Setup, s: State, e: string)
    requires e in s.executions
  {
    var x := s.executions[e];
    && F.BarFree(e)
    && x.case_ in s.cases && x.entry < |s.cases[x.case_].acts|
    && s.cases[x.case_].acts[x.entry].ExecutedPlaybook?
    && Resolved(p, s.cases[x.case_].acts[x.entry], x.env) == Some(x.plan)
    && x.ok <= x.signed <= x.ok + 1 && x.signed <= |x.plan.steps|
  }

  /** This text is the frame of step `i` of execution `e`, all of whose earlier steps succeeded. */
  predicate IsFrameOf(s: State, message: string, e: string, i: nat) {
    && e in s.executions
    && i < s.executions[e].signed && i <= s.executions[e].ok && i < |s.executions[e].plan.steps|
    && message == F.Frame(StepOf(e, s.executions[e].plan, i))
  }

  ghost predicate SignedForAnExecution(s: State, message: string) {
    exists e, i :: IsFrameOf(s, message, e, i)
  }

  ghost predicate ExecutionsSound(p: Setup, s: State) { forall e | e in s.executions :: ExecutionSound(p, s, e) }

  ghost predicate SignaturesSound(s: State) { forall sig | sig in s.signatures :: SignedForAnExecution(s, sig.message) }

  ghost predicate CasesSound(s: State) { forall c | c in s.cases :: LawfulRecord(s.cases[c]) }

  ghost predicate Inv(p: Setup, s: State) { CasesSound(s) && ExecutionsSound(p, s) && SignaturesSound(s) }

  /** Executions only advance: what was signed stays accounted for. */
  lemma AdvanceKeepsSignatures(s: State, r: State)
    requires SignaturesSound(s) && r.signatures == s.signatures
    requires forall e | e in s.executions ::
               && e in r.executions && r.executions[e].plan == s.executions[e].plan
               && s.executions[e].signed <= r.executions[e].signed && s.executions[e].ok <= r.executions[e].ok
    ensures SignaturesSound(r)
  {
    forall sig | sig in r.signatures ensures SignedForAnExecution(r, sig.message) {
      assert SignedForAnExecution(s, sig.message);
      var e, i :| IsFrameOf(s, sig.message, e, i);
      assert IsFrameOf(r, sig.message, e, i);
    }
  }

  lemma SignKeepsSignatures(p: Setup, s: State, execution: string)
    requires SignaturesSound(s) && Enabled(p, s, Sign(execution))
    ensures SignaturesSound(Next(p, s, Sign(execution)))
  {
    var r := Next(p, s, Sign(execution));
    var x := s.executions[execution];
    AdvanceKeepsSignatures(s, r.(signatures := s.signatures));
    forall sig | sig in r.signatures ensures SignedForAnExecution(r, sig.message) {
      if sig in s.signatures {
        assert SignedForAnExecution(r.(signatures := s.signatures), sig.message);
        var e, i :| IsFrameOf(r.(signatures := s.signatures), sig.message, e, i);
        assert IsFrameOf(r, sig.message, e, i);
      } else {
        assert IsFrameOf(r, sig.message, execution, x.signed);
      }
    }
  }

  lemma StepKeepsSignatures(p: Setup, s: State, m: Move)
    requires SignaturesSound(s) && Enabled(p, s, m)
    ensures SignaturesSound(Next(p, s, m))
  {
    if m.Sign? { SignKeepsSignatures(p, s, m.execution); } else { AdvanceKeepsSignatures(s, Next(p, s, m)); }
  }

  lemma BeginKeepsExecutions(p: Setup, s: State, m: Move)
    requires ExecutionsSound(p, s) && Enabled(p, s, m) && m.Begin?
    ensures ExecutionsSound(p, Next(p, s, m))
  {
    var r := Next(p, s, m);
    forall e | e in r.executions ensures ExecutionSound(p, r, e) {
      if e != m.execution { assert ExecutionSound(p, s, e); }
    }
  }

  lemma StepKeepsExecutions(p: Setup, s: State, m: Move)
    requires ExecutionsSound(p, s) && Enabled(p, s, m)
    ensures ExecutionsSound(p, Next(p, s, m))
  {
    if m.Begin? { BeginKeepsExecutions(p, s, m); }
    else {
      CasesOnlyGrow(p, s, m);
      ExecutionsAdvance(p, s, m);
      AdvancedStaySound(p, s, Next(p, s, m));
    }
  }

  lemma AdvancedStaySound(p: Setup, s: State, r: State)
    requires ExecutionsSound(p, s) && CasesGrown(s, r)
    requires forall e | e in r.executions :: e in s.executions && Advances(s.executions[e], r.executions[e])
    ensures ExecutionsSound(p, r)
  {
    forall e | e in r.executions ensures ExecutionSound(p, r, e) {
      assert ExecutionSound(p, s, e);
      ExecutionCarries(p, s, r, e);
    }
  }

  /** The same execution, further on or failed. */
  predicate Advances(x: Execution, y: Execution) {
    && y == x.(signed := y.signed, ok := y.ok, failed := y.failed)
    && y.ok <= y.signed <= y.ok + 1 && y.signed <= |x.plan.steps|
  }

  lemma ExecutionsAdvance(p: Setup, s: State, m: Move)
    requires ExecutionsSound(p, s) && Enabled(p, s, m) && !m.Begin?
    ensures var r := Next(p, s, m);
            forall e | e in r.executions :: e in s.executions && Advances(s.executions[e], r.executions[e])
  {
    forall e | e in s.executions ensures Advances(s.executions[e], s.executions[e]) { assert ExecutionSound(p, s, e); }
  }

  ghost predicate CasesGrown(s: State, r: State) {
    forall c | c in s.cases :: c in r.cases && s.cases[c].acts <= r.cases[c].acts
  }

  lemma CasesOnlyGrow(p: Setup, s: State, m: Move)
    requires Enabled(p, s, m)
    ensures CasesGrown(s, Next(p, s, m))
  {
  }

  lemma ExecutionCarries(p: Setup, s: State, r: State, e: string)
    requires e in s.executions && e in r.executions && ExecutionSound(p, s, e) && CasesGrown(s, r)
    requires Advances(s.executions[e], r.executions[e])
    ensures ExecutionSound(p, r, e)
  {
  }

  lemma {:induction false} RunKeepsInv(p: Setup, states: seq<State>, moves: seq<Move>, n: nat)
    requires IsRun(p, states, moves) && n < |states|
    ensures Inv(p, states[n])
  {
    if n == 0 {
    } else {
      RunKeepsInv(p, states, moves, n - 1);
      var s, m := states[n - 1], moves[n - 1];
      assert Moves(p, s, m, states[n]);
      StepKeepsExecutions(p, s, m);
      StepKeepsSignatures(p, s, m);
    }
  }

  /** A step of an execution that a case's workflow started for a playbook: the approval
      of that very playbook with those very parameters was created, a decision for it
      that says approved was heard, and the step is the one the registry builds from
      these parameters in the environment the execution read. */
  ghost predicate Authorised(p: Setup, s: State, step: F.Step) {
    && step.execution in s.executions
    && var x := s.executions[step.execution];
    && x.case_ in s.cases && x.entry < |s.cases[x.case_].acts| && s.cases[x.case_].acts[x.entry].ExecutedPlaybook?
    && var record, subject := s.cases[x.case_], s.cases[x.case_].acts[x.entry].subject;
    && W.IsPlaybook(subject)
    && W.ApprovedBefore(record.acts, record.heard, x.entry, W.Remediation, subject)
    && Registered(subject.playbook).Some?
    && var steps := p.resolve(Registered(subject.playbook).value, x.env.deployment, subject.params, x.env.locators);
    && steps.Some? && step.index < |steps.value|
    && step == F.Step(step.execution, subject.playbook, step.index,
                      OpText(steps.value[step.index].op), steps.value[step.index].params)
  }

  lemma SignedIsAuthorised(p: Setup, s: State, e: string, i: nat)
    requires Inv(p, s) && e in s.executions && i < |s.executions[e].plan.steps|
    ensures Authorised(p, s, StepOf(e, s.executions[e].plan, i))
  {
    assert ExecutionSound(p, s, e);
    var x := s.executions[e];
    var record := s.cases[x.case_];
    assert LawfulRecord(record);
    W.PlaybookIsGated(record.acts, record.heard, record.threshold, x.entry);
  }

  /** The whole gate, in any run: when a received step reaches the platform,
      write_enabled holds; the key it verified under is the probe's current one or
      one replaced no longer than the grace window ago; that exact step, with its
      execution, playbook, index, op and parameters, is authorised by the case's
      workflow as above; it was signed; and every lower-index step of the execution had
      already come back ok. */
  lemma StepReachesPlatformOnlyIf(p: Setup, states: seq<State>, moves: seq<Move>, n: nat)
    requires IsRun(p, states, moves) && n < |moves| && states[n + 1].writes != states[n].writes
    ensures moves[n].ProbeReceives? && p.writeEnabled
    ensures var s, step, now := states[n], moves[n].step, moves[n].now;
            && |states[n + 1].writes| == |s.writes| + 1
            && states[n + 1].writes[|s.writes|].step == step
            && var key := states[n + 1].writes[|s.writes|].key;
            && Signature(key, F.Frame(step)) in s.signatures
            && (|| s.probeKeys.current == Some(key)
                || (s.probeKeys.previous == Some(key) && p.grace > 0 && now - s.probeKeys.rotatedAt <= p.grace))
            && Authorised(p, s, step)
            && step.index < s.executions[step.execution].signed
            && step.index <= s.executions[step.execution].ok
  {
    var s := states[n];
    assert Moves(p, s, moves[n], states[n + 1]);
    RunKeepsInv(p, states, moves, n);
    var step := moves[n].step;
    var w := states[n + 1].writes[|s.writes|];
    assert Signature(w.key, F.Frame(step)) in s.signatures;
    SignedFrameIsStep(p, s, step);
  }

  /** A signed frame belongs to one step only, the authorised one it was made for. */
  lemma SignedFrameIsStep(p: Setup, s: State, step: F.Step)
    requires Inv(p, s) && F.OnTheWire(step) && exists sig :: sig in s.signatures && sig.message == F.Frame(step)
    ensures Authorised(p, s, step)
    ensures step.index < s.executions[step.execution].signed && step.index <= s.executions[step.execution].ok
  {
    assert SignedForAnExecution(s, F.Frame(step));
    var e: string, i: nat :| IsFrameOf(s, F.Frame(step), e, i);
    assert ExecutionSound(p, s, e);
    PlaybookIdHoldsNoBar(s.executions[e].plan.playbook);
    OpHoldsNoBar(s.executions[e].plan.steps[i].op);
    F.BarFreeIsUnambiguous(StepOf(e, s.executions[e].plan, i));
    F.FrameDeterminesStep(StepOf(e, s.executions[e].plan, i), step);
    SignedIsAuthorised(p, s, e, i);
  }

  // ----- an authorised step does get through -----

  lemma ApprovedRecord(subject: W.Subject, threshold: real) returns (r: Record)
    requires W.IsPlaybook(subject)
    ensures LawfulRecord(r) && r.threshold == threshold && |r.acts| == 3 && r.acts[2] == W.ExecutedPlaybook(subject, true)
  {
    var heard := [W.Decision("a", W.APPROVED)];
    var created := W.ApprovalCreated("a", W.Remediation, subject);
    var decided := W.Decided("a", W.Remediation, subject, W.APPROVED, false, 0, 1);
    W.LawfulAppend([], created, heard, threshold);
    assert heard[0] == W.Decision("a", W.APPROVED);
    W.LawfulAppend([] + [created], decided, heard, threshold);
    var acts := [] + [created] + [decided];
    assert acts[0] == created && acts[1] == decided;
    W.LawfulAppend(acts, W.ExecutedPlaybook(subject, true), heard, threshold);
    r := Record(acts + [W.ExecutedPlaybook(subject, true)], heard, threshold);
  }

  lemma ExecutionStarts(p: Setup, record: Record, playbook: Playbook, params: F.Json, env: Env, key: Key)
    returns (s0: State, s1: State, s2: State, s3: State)
    requires LawfulRecord(record) && |record.acts| == 3
    requires record.acts[2] == W.ExecutedPlaybook(W.Proposed(W.Playbook, PlaybookId(playbook), params), true)
    requires p.resolve(playbook, env.deployment, params, env.locators).Some?
    ensures Init(s0) && Moves(p, s0, OpenCase(0, record.threshold), s1)
    ensures Moves(p, s1, WorkflowMoves(0, record.acts, record.heard), s2) && Moves(p, s2, Begin("e", 0, env), s3)
    ensures var plan := Plan(playbook, p.resolve(playbook, env.deployment, params, env.locators).value);
            s3 == State(map[0 := record], map["e" := Execution(0, 2, env, plan, 0, 0, false)], key, {}, NO_KEYS, [])
  {
    s0 := State(map[], map[], key, {}, NO_KEYS, []);
    s1 := Next(p, s0, OpenCase(0, record.threshold));
    assert Enabled(p, s1, WorkflowMoves(0, record.acts, record.heard));
    s2 := Next(p, s1, WorkflowMoves(0, record.acts, record.heard));
    assert s2 == State(map[0 := record], map[], key, {}, NO_KEYS, []);
    s3 := PlaybookStarts(p, s2, playbook, params, env);
  }

  lemma PlaybookStarts(p: Setup, s: State, playbook: Playbook, params: F.Json, env: Env) returns (r: State)
    requires s.executions == map[] && 0 in s.cases && |s.cases[0].acts| == 3
    requires s.cases[0].acts[2] == W.ExecutedPlaybook(W.Proposed(W.Playbook, PlaybookId(playbook), params), true)
    requires p.resolve(playbook, env.deployment, params, env.locators).Some?
    ensures Moves(p, s, Begin("e", 0, env), r)
    ensures var plan := Plan(playbook, p.resolve(playbook, env.deployment, params, env.locators).value);
            r == s.(executions := map["e" := Execution(0, 2, env, plan, 0, 0, false)])
  {
    RegisteredById(playbook);
    assert Enabled(p, s, Begin("e", 0, env));
    r := Next(p, s, Begin("e", 0, env));
  }

  lemma SignedStepIsWritten(p: Setup, s3: State, plan: Plan) returns (s4: State, s5: State, s6: State, step: F.Step)
    requires p.writeEnabled && |s3.signerKey| == KEY_SIZE && s3.probeKeys == NO_KEYS && s3.writes == []
    requires plan.steps != [] && "e" in s3.executions && s3.executions["e"].plan == plan
    requires s3.executions["e"].signed == s3.executions["e"].ok == 0 && !s3.executions["e"].failed
    ensures Moves(p, s3, InstallKey(s3.signerKey, 0), s4) && Moves(p, s4, Sign("e"), s5)
    ensures step == StepOf("e", plan, 0)
    ensures Moves(p, s5, ProbeReceives(step, Signature(s3.signerKey, F.Frame(step)), 1), s6)
    ensures s5.writes == [] && |s6.writes| == 1 && s6.writes[0].step == step
  {
    var key := s3.signerKey;
    step := StepOf("e", plan, 0);
    s4 := Next(p, s3, InstallKey(key, 0));
    assert s4.probeKeys.current == Some(key) && s4.signerKey == key;
    s5 := Next(p, s4, Sign("e"));
    var sig := Signature(key, F.Frame(step));
    assert sig in s5.signatures;
    var m := ProbeReceives(step, sig, 1);
    assert Enabled(p, s5, m);
    VerifyStepExactly(s5.probeKeys, p.grace, 1, true, step, sig, s5.signatures);
    s6 := Next(p, s5, m);
  }

  /** The first step of any plan the registry builds, in any deployment with writes
      enabled and for any key of the right size: there is a run in which it reaches the
      platform. */
  lemma AuthorisedStepGetsThrough(p: Setup, playbook: Playbook, params: F.Json, env: Env, key: Key)
    returns (states: seq<State>, moves: seq<Move>)
    requires p.writeEnabled && |key| == KEY_SIZE
    requires var steps := p.resolve(playbook, env.deployment, params, env.locators); steps.Some? && steps.value != []
    ensures IsRun(p, states, moves) && |moves| == 6 && states[5].writes == [] && |states[6].writes| == 1
    ensures var steps := p.resolve(playbook, env.deployment, params, env.locators).value;
            states[6].writes[0].step == StepOf("e", Plan(playbook, steps), 0)
  {
    var plan := Plan(playbook, p.resolve(playbook, env.deployment, params, env.locators).value);
    var record := ApprovedRecord(W.Proposed(W.Playbook, PlaybookId(playbook), params), 0.0);
    var s0, s1, s2, s3 := ExecutionStarts(p, record, playbook, params, env, key);
    var s4, s5, s6, step := SignedStepIsWritten(p, s3, plan);
    states, moves := [s0], [];
    states, moves := RunExtends(p, states, moves, OpenCase(0, 0.0), s1);
    states, moves := RunExtends(p, states, moves, WorkflowMoves(0, record.acts, record.heard), s2);
    states, moves := RunExtends(p, states, moves, Begin("e", 0, env), s3);
    states, moves := RunExtends(p, states, moves, InstallKey(key, 0), s4);
    states, moves := RunExtends(p, states, moves, Sign("e"), s5);
    states, moves := RunExtends(p, states, moves, ProbeReceives(step, Signature(key, F.Frame(step)), 1), s6);
  }

  lemma RunExtends(p: Setup, states: seq<State>, moves: seq<Move>, m: Move, r: State)
    returns (states': seq<State>, moves': seq<Move>)
    requires IsRun(p, states, moves) && Moves(p, states[|moves|], m, r)
    ensures states' == states + [r] && moves' == moves + [m] && IsRun(p, states', moves')
  {
    states', moves' := states + [r], moves + [m];
    forall i | 0 <= i < |moves'| ensures Moves(p, states'[i], moves'[i], states'[i + 1]) {
      if i < |moves| { assert Moves(p, states[i], moves[i], states[i + 1]); }
    }
  }

  lemma RegisteredById(playbook: Playbook)
    ensures Registered(PlaybookId(playbook)) == Some(playbook)
  {
    assert |PlaybookId(KillQuery)| == 17 && |PlaybookId(UpdateConfigRestartWorkers)| == 36;
    assert |PlaybookId(RestartCoordinator)| == 26 && |PlaybookId(RestartWorker)| == 21;
    assert |PlaybookId(AdjustMemoryConfig)| == 27;
  }
}
