# dbagent: a Dafny model of its correlation, write and transport protocols

dbagent watches database platforms, correlates alerts into cases, investigates each case
with a durable workflow, and repairs platforms through probes that execute signed
playbook steps. This project models the parts of it where several pieces of code have
to agree, and proves what they promise together:

* **Ingest** (`Tables`, `MergeBatch`, `Correlation`). The fused merge statement refines
  the slow path it short-cuts; a group of merges under savepoints equals running its
  statements alone; over every interleaving of gateway workers two openings of one
  (platform, fingerprint) are serialised by the advisory lock and the re-read behind it,
  concurrent first events open exactly one case, and events and audit rows stay matched
  one to one.
* **The commit coalescer** (`Coalescer`, `CoalescerRuns`). Under every schedule of
  submits, cancellations, executor answers of any shape, crashes and close: every
  accepted item is in one place, futures resolve once and with their own answer, groups
  are prefixes of the queue, no arrival is lost, and close returns with everything
  resolved if and only if no step of three named kinds occurred.
* **Signing keys** (`SigningKeys`, `KeyPropagation`, `GatewayServer`). The probe's key
  store and the gateway's reader agree, and a rotated key reaches every session.
* **The write channel** (`StepFrame`, `WriteChannel`). A step reaches a platform only if
  a case's workflow executed that playbook with those parameters behind an approval it
  heard, the step is what the registry builds from them in the environment read at that
  moment, and it was signed, in order, under a current key. Which frames determine
  their step is settled by an if-and-only-if.
* **Chunked results** (`ChunkTransport`). Multiplexed chunks come back as the payload.
* **The investigation workflow** (`Workflow`). Every run, under any script of signals,
  leaves a record in which each entry obeys a law that names its justification.
* **Kernels** (`Paging`, `CasePaging`, `EnvOverlay`, `PropertyOverlay`, `Demux`, with `Splitting` and
  `Wrappers` as shared vocabulary).

Code that computes is modelled by functions; objects and loops are classes and methods
proved against them; protocols are state machines (`Enabled`, `Next`, `IsRun`) whose
theorems quantify over all runs. Inputs from outside (clocks, query answers, executor
answers, signals, activity results, faults) are parameters that may take any value.

## What is assumed

* PostgreSQL: a statement reads committed rows plus its own transaction's rows (READ
  COMMITTED), an advisory transaction lock is held to commit or rollback, a primary key
  admits one row, `ORDER BY ... LIMIT` may break ties either way. Cases are never deleted
  and a new case id is fresh, so `Tables` and `Correlation` keep one row per case id,
  although the table's key is (investigation_id, created_at); `CasePaging` covers ids with
  several rows. `lower()` is modelled on ASCII.
* asyncio: code between awaits is atomic and timers do not fire early. A drainer crash
  happens at an await. A StopIteration that is raised, rather than returned in an answer,
  arrives as another exception (PEP 479). That a future refuses a returned StopIteration
  is Python 3.11's behaviour.
* Signatures are ideal: one verifies only under the key and for the text it was made
  for. The digest of a framed step is injective, as is UTF-8. An execution id is a uuid
  and contains no `|`. The builders of the playbook registry are any function from one of
  its five playbooks to steps of its six ops with JSON parameters
  (`services/worker/worker/playbooks.py`).
* The record of a workflow is lawful at each of its awaits: this is the class invariant
  that `Workflow.InvestigationWorkflow` keeps, and what `WriteChannel` takes a case's
  record to be.
* One poller propagates keys at a time, and a session's outbound frames are delivered in
  order.
* Python's `isoformat`/`fromisoformat` and urlsafe base64 are inverse to each other, and
  a timestamp's text holds no `|`. Newly inserted rows sort above the rows a listing
  started with.

## Where the code does less than it says

* A drainer task cancelled before its first step never enters the handler in `_drain`:
  its queue stays unresolved and `close` still returns
  (`CoalescerRuns.CancelledUnstartedDrainerStrands`). An executor answer that raises
  while it is iterated, other than with a TypeError, strands its group
  (`CoalescerRuns.RaisingAnswerStrands`), and so does an answer that holds an exception a
  future refuses (`CoalescerRuns.RefusedExceptionStrands`).
  `CoalescerRuns.CloseReturnsWithAllResolvedExactly` gives the exact condition.
* An approval fixes a playbook and its parameters, not its steps: these are built when the
  playbook starts, from the platform configuration of that moment
  (`WriteChannel.StepReachesPlatformOnlyIf` names both).
* An approval that was heard can be lost to a later decision that names no approval, and
  then counts as a timeout (`Workflow.HeardApprovalCanBeLost`, exactly when in
  `Workflow.RequestIsAnsweredExactly`).
* With a grace window of zero the two key holders differ at the rotation's own instant
  (`SigningKeys.ZeroGraceTellsThemApart`), and only then
  (`SigningKeys.StoreAndReaderAgreeExactly`).
* Two steps can share one frame (`StepFrame.BarsMakeFramesAmbiguous`). A frame determines
  its step if and only if the execution and playbook ids hold no `|` and no
  `|`-separated segment of the op, save its last, is a decimal number below 2^32
  (`StepFrame.FrameDeterminesStepExactly`).
* When investigation ids repeat, `list_investigations` can end its listing early
  (`CasePaging.RepeatedIdsHideARow`): never as long as no id has more than three rows, and
  three is the limit (`CasePaging.EndIsRightUpToThreeRowsExactly`). It can also list one
  id on two pages (`CasePaging.IdIsListedTwice`, exactly when in
  `CasePaging.IdIsListedOnceExactly`).
* `mergeEnv` misses a patched key that contains `=`, and only such a key
  (`EnvOverlay.PatchesLookUpExactly`), and can disturb another key
  (`EnvOverlay.EqualsSignDisturbsOtherKey`, exactly when in
  `EnvOverlay.OtherKeysKeepLookupExactly`).

## Model

| member | source | states |
|---|---|---|
| `Tables.BigintCastNeverOverflows` | libs/py/rca_common/rca_common/investigation_repo.py:161-239 | Behind the regular expression and length guards the SQL `::bigint` cast is in range for every jsonb override value |
| `Tables.SqlWindowAgreesWithSlowWindow` | libs/py/rca_common/rca_common/investigation_repo.py:161-239 | Whatever window the fused statement accepts is the window Python's `int()` computes on the slow path, for every platform configuration |
| `Tables.PyIntOfIntegerText` | services/gateway/gateway/ingest.py:211-263 | Python's `int()` gives the integer a plain integer text denotes, whether it came as a JSON number or string |
| `Tables.HitRefinesSlowPath` | libs/py/rca_common/rca_common/investigation_repo.py:161-239 | A hit means that on the same snapshot the slow path finds the platform online, computes the same window, merges into that very case, and could not open one |
| `Tables.MissExactly` | libs/py/rca_common/rca_common/investigation_repo.py:161-239 | A miss happens if and only if the platform is unknown or not online, its override is not accepted, or the slow re-read would find nothing either |
| `Tables.SameCaseWithoutTies` | libs/py/rca_common/rca_common/investigation_repo.py:76-136 | Without equal timestamps the fused statement and the slow select name the same case |
| `Tables.FusedIsTotal` | libs/py/rca_common/rca_common/investigation_repo.py:257-295 | The fused statement has an answer on every snapshot |
| `MergeBatch.RecoverSavepoint` | services/gateway/gateway/ingest.py:165-180 | Recovery restores exactly the rows of the savepoint, or reports the failure that poisons the group |
| `MergeBatch.FinishMergeBatch` | services/gateway/gateway/ingest.py:182-198 | One commit when some candidate hit, otherwise a rollback; a failed commit is reported as the group's failure and leaves the tables untouched unless the commit was applied before it was lost |
| `MergeBatch.RunCandidate` | services/gateway/gateway/ingest.py:137-154 | One candidate either fails alone and leaves what the group sees unchanged, or gets an answer the fused statement may give on it and leaves exactly its rows |
| `MergeBatch.ExecuteMergeBatch` | services/gateway/gateway/ingest.py:123-163 | A group that stays usable gives every candidate the answer, and leaves the tables, that running the candidates alone in order gives, with others' commits in between; a fatal path reports no hit and no miss; without an answer only others' rows were committed |
| `MergeBatch.ForeignCommutesWithOverlay` | services/gateway/gateway/ingest.py:123-163 | Commits of other transactions act on what the open group sees as they act on the tables |
| `MergeBatch.StepKeepsAlone` | services/gateway/gateway/ingest.py:137-154 | Filling one slot from what the open group sees extends the agreement with the one-by-one run |
| `Correlation.RunKeepsInv` | services/gateway/gateway/ingest.py:200-326 | Locks, decisions, openings, group rows and ledger stay sound over every run of interleaved transactions |
| `Correlation.SnapshotsAreReads` | services/gateway/gateway/ingest.py:211-263 | Every snapshot kept with a decision or an opening is the committed tables of the step at which its deciding re-read ran |
| `Correlation.OpeningsAreSerialised` | libs/py/rca_common/rca_common/investigation_repo.py:54-136 | Of two openings of one platform and fingerprint in any run, the later one's re-read ran after the earlier one committed, saw its case, and found it terminal or without an event in the window |
| `Correlation.FirstEventsOpenExactlyOneCase` | services/gateway/gateway/ingest.py:211-304 | On any schedule that makes no case of the slot terminal and whose deciding reads look back to the slot's earliest event, concurrent first events open exactly one case and every accepted one belongs to it |
| `Correlation.RunKeepsCalm` | services/gateway/gateway/ingest.py:211-304 | On such a schedule every deciding read and every opening of the slot saw recent events of open cases only |
| `Correlation.LedgerIsConserved` | services/gateway/gateway/ingest.py:200-326 | In every reachable state each event row has exactly one audit row, the one its disposition calls for, and conversely; each opened case has exactly one opened event |
| `Correlation.OwnSnapshotLacksCase` | services/gateway/gateway/ingest.py:265-304 | The snapshot an opening was decided on does not hold the case it opened |
| `Coalescer.MergeCommitCoalescer.TakeBatch` | services/gateway/gateway/merge_commit.py:177-179 | The front of the queue, at most eight items, goes in flight |
| `Coalescer.MergeCommitCoalescer.GroupReturnedSegment` | services/gateway/gateway/merge_commit.py:201-242 | Whatever the executor hands back, the group's futures and the next turn are what the specification says |
| `Coalescer.MergeCommitCoalescer.FailAll` | services/gateway/gateway/merge_commit.py:244-253 | Everything queued or in flight is failed, and only what was open changes |
| `Coalescer.MergeCommitCoalescer.ResolveZip` | services/gateway/gateway/merge_commit.py:238-242 | Answers go to members by position, up to the first that its future refuses |
| `CoalescerRuns.RunKeepsInv` | services/gateway/gateway/merge_commit.py:112-275 | The coalescer's invariant holds in every reachable state |
| `CoalescerRuns.EveryItemInOnePlace` | services/gateway/gateway/merge_commit.py:112-253 | In every reachable state an accepted item is in exactly one of: queue, group in flight, resolved, or lost to its group's answer |
| `CoalescerRuns.AdmissionOrderIsGroupsThenQueue` | services/gateway/gateway/merge_commit.py:165-199 | Admission order is the taken groups followed by the queue until the drainer fails, and no drainer means nothing is pending |
| `CoalescerRuns.FuturesResolveOnce` | services/gateway/gateway/merge_commit.py:290-297 | A future, once done, keeps its outcome for the rest of the run |
| `CoalescerRuns.EachFutureHoldsItsOwnOutcome` | services/gateway/gateway/merge_commit.py:201-242 | Each member of a group that its answer reached holds its own answer of that group, or the mismatch error; everyone else resolved was failed with the drainer |
| `CoalescerRuns.GroupIsQueuePrefix` | services/gateway/gateway/merge_commit.py:165-199 | A group taken has one to eight items, is a prefix of the queue, is short only once its oldest member's budget is spent, and is never taken while another is in flight |
| `CoalescerRuns.NoArrivalIsLost` | services/gateway/gateway/merge_commit.py:183-199 | A drainer asleep over a full queue has its arrival flag set |
| `CoalescerRuns.StrandedExactly` | services/gateway/gateway/merge_commit.py:153-242 | Something is stranded exactly when a step cancelled a drainer that never ran, an answer raised while it was read, or an answer held an exception a future refuses |
| `CoalescerRuns.ClosingStaysAndAdmitsNone` | services/gateway/gateway/merge_commit.py:143-149 | After close begins nothing is admitted any more |
| `CoalescerRuns.CloseReturnsWithAllResolvedExactly` | services/gateway/gateway/merge_commit.py:257-275 | When close returns, every accepted item is resolved if and only if no stranding step occurred, and nothing is admitted later |
| `CoalescerRuns.CancelledUnstartedDrainerStrands` | services/gateway/gateway/merge_commit.py:153-163 | A run in which a drainer cancelled before its first step leaves an item unresolved after close |
| `CoalescerRuns.RaisingAnswerStrands` | services/gateway/gateway/merge_commit.py:201-242 | A run in which an answer raising while it is read strands its group |
| `CoalescerRuns.RefusedExceptionStrands` | services/gateway/gateway/merge_commit.py:238-242 | A run in which a returned exception that the future refuses strands its member |
| `SigningKeys.KeyStore.Install` | probe/internal/writeops/keystore.go:52-73 | A new key becomes current and the old one previous; a repeated or malformed key changes nothing |
| `SigningKeys.Reader.Load` | services/probe-gateway/internal/signingkeys/signingkeys.go:48-73 | A readable sidecar with a key of the right size is installed, anything else changes nothing and reports an error |
| `SigningKeys.StoreMatchesReference` | probe/internal/writeops/keystore.go:52-73 | Over every history of presented keys the store holds what a reference reads off the history alone |
| `SigningKeys.StatesAgree` | services/probe-gateway/internal/signingkeys/signingkeys.go:48-73 | Store and reader, given the same keys, hold the same state |
| `SigningKeys.StoreAndReaderAgreeExactly` | services/probe-gateway/internal/signingkeys/signingkeys.go:75-93 | They name the same current key always, and the same previous key at an instant if and only if the window is not zero, only one key was ever presented, or the instant is not the one at which the last key was first presented behind another |
| `SigningKeys.ZeroGraceTellsThemApart` | probe/internal/writeops/keystore.go:75-86 | Two keys at times 0 and 5 and no grace: at time 5 the reader still offers the first key and the store does not |
| `SigningKeys.CurrentIsNotPrevious` | probe/internal/writeops/keystore.go:52-73 | The current key is never also the previous one |
| `SigningKeys.RepeatsNeverExtendGrace` | probe/internal/writeops/keystore.go:52-86 | Presenting the current key again, any number of times, never extends the previous key's grace |
| `GatewayServer.Server.AdmitSession` | services/probe-gateway/internal/gwserver/keyupdate.go:45-57 | The key acknowledged to a new session is the key recorded for it |
| `GatewayServer.PushTo` | services/probe-gateway/internal/gwserver/keyupdate.go:77-99 | One session is up to date, is sent the key and recorded, or is dropped and unchanged because it is closed or full |
| `GatewayServer.Server.PropagateSigningKey` | services/probe-gateway/internal/gwserver/keyupdate.go:62-101 | A pass accounts for every session, drops none if and only if all then hold the served key, and sends nothing and drops none if and only if all held it already |
| `KeyPropagation.RunKeepsInv` | services/probe-gateway/internal/gwserver/keyupdate.go:19-101 | Sessions, registrations and the running pass stay sound over every interleaving of admissions, passes, traffic and disconnects |
| `KeyPropagation.AcksAreSubsequenceOfHistory` | services/probe-gateway/internal/gwserver/keyupdate.go:45-101 | The keys a session is sent are an order-preserving subsequence of the served keys, and the recorded key is the last of them except between a push and its record |
| `KeyPropagation.PassReportsEverySession` | services/probe-gateway/internal/gwserver/keyupdate.go:62-101 | At the end of a pass its counts add up to the sessions it saw, a session counts as dropped exactly if it still lacks the served key, and without drops every registered session has been handed it |
| `KeyPropagation.ConvergedPassesSendNothing` | services/probe-gateway/cmd/probe-gateway/main.go:200-224 | Once converged, and until another key is served, later passes send and drop nothing |
| `KeyPropagation.ProbeHoldsServedKey` | probe/internal/sessionclient/client.go:174-222 | In every reachable state a probe's current key is that of the last usable ack delivered to it; once a converged session has nothing left to deliver it is the served key, whatever the probe held before |
| `KeyPropagation.DroppedSessionIsMadeUpFor` | services/probe-gateway/internal/gwserver/keyupdate.go:62-101 | A session dropped by one pass and not by a later one that saw it has been handed the key then served, by a frame enqueued in between |
| `ChunkTransport.ChunkPayload` | probe/internal/sessionclient/dispatch.go:150-166 | The pieces put together are the payload, all full except possibly the last; an empty payload is one empty piece |
| `ChunkTransport.ReassembleChunks` | services/probe-gateway/internal/gwserver/server.go:127-146 | The result of sorting, checking and joining is the specified outcome |
| `ChunkTransport.ReassemblyExactly` | services/probe-gateway/internal/gwserver/server.go:127-146 | Reassembly succeeds if and only if the chunk numbers are exactly 0 to expected-1 |
| `ChunkTransport.SessionInbox.ReceiveResult` | services/probe-gateway/internal/gwserver/server.go:114-125 | A waiting task gets its reassembled outcome once; an unknown task nothing |
| `ChunkTransport.TasksAreIndependent` | services/probe-gateway/internal/gwserver/server.go:88-125 | A task's slot and chunks depend on that task's own frames alone, whatever is interleaved |
| `ChunkTransport.DispatcherGets` | services/probe-gateway/internal/gwserver/server.go:103-125 | A dispatcher still waiting gets the reassembly of its own task's chunks, for any frames of its task and any other traffic |
| `ChunkTransport.DispatcherGetsItsPayload` | probe/internal/sessionclient/client.go:245-267 | Cutting, sending among any interleaved tasks, and reassembling gives back exactly the payload |
| `ChunkTransport.DispatcherGetsIntegrityErrorExactly` | services/probe-gateway/internal/gwserver/server.go:114-146 | A waiting dispatcher gets an integrity error if and only if its chunk numbers are not exactly 0 to count-1 |
| `StepFrame.FeedParts` | libs/py/rca_common/rca_common/signing/signer.py:45-67 | What the digest is fed part by part is the step's frame |
| `StepFrame.CanonicalUnique` | probe/internal/writeops/writeops.go:55-67 | Canonical JSON determines the value it was made of, even with more text behind it |
| `StepFrame.NoCanonicalBehindBar` | probe/internal/writeops/writeops.go:33-53 | Behind a bar inside one canonical text no canonical text can start |
| `StepFrame.FrameDeterminesStepExactly` | probe/internal/writeops/writeops.go:33-53 | Among steps with a uint32 index no other has this frame if and only if the execution and playbook ids hold no bar and no bar-separated segment of the op, save its last, is a decimal number below 2^32 |
| `StepFrame.BarsMakeFramesAmbiguous` | libs/py/rca_common/rca_common/signing/signer.py:45-67 | Two different steps that share one frame |
| `WriteChannel.SignAndDispatch` | services/worker/worker/activities/investigation.py:898-981 | Signatures are made for steps in order, each only after every earlier step came back ok; the run is done if and only if every step did, and otherwise stops at the first that did not |
| `WriteChannel.RunKeepsInv` | services/worker/worker/activities/investigation.py:704-981 | In every run each signature made is for a step of an execution that a lawful workflow record's playbook entry started, resolved from that entry's parameters, all of whose earlier steps succeeded |
| `WriteChannel.StepReachesPlatformOnlyIf` | probe/internal/sessionclient/dispatch.go:101-122 | In any run, when a received step reaches the platform: writes are enabled, its key is current or in grace, it was signed, every lower step had come back ok, and it is exactly the step the registry builds, in the environment the execution read, from the playbook and parameters of a workflow entry right behind their own approval, for which an approving decision was heard |
| `WriteChannel.AuthorisedStepGetsThrough` | services/worker/worker/activities/investigation.py:818-981 | For any registered playbook, parameters, environment and key there is a run in which the plan's first step is approved, signed and reaches the platform |
| `WriteChannel.SignedFrameIsStep` | services/worker/worker/activities/investigation.py:898-907 | A signed frame belongs to one step only, the authorised one it was made for |
| `Workflow.InvestigationWorkflow.Handle` | services/worker/worker/workflows/investigation.py:43-74 | Each signal's whole effect; a decision that names another approval than the awaited one is ignored |
| `Workflow.InvestigationWorkflow.Deliver` | services/worker/worker/workflows/investigation.py:43-74 | A batch of signals keeps the run's record lawful and is heard completely and in order |
| `Workflow.InvestigationWorkflow.WaitIfPaused` | services/worker/worker/workflows/investigation.py:451-453 | The run goes on if and only if it was not paused, or was aborted, or some signals of the wait abort it or have a resume as their last pause or resume |
| `Workflow.InvestigationWorkflow.WaitForDecision` | services/worker/worker/workflows/investigation.py:496-520 | The wait ends with the first stored decision that names this approval, and such a decision was heard; a timeout is a denial, and only after every signal of the wait was heard |
| `Workflow.InvestigationWorkflow.RequestApproval` | services/worker/worker/workflows/investigation.py:455-537 | Whatever signals come, early, late or duplicate, the decision acted on was heard for the approval just created, or is the timeout denial, and is the one these signals determine |
| `Workflow.RequestIsAnsweredExactly` | services/worker/worker/workflows/investigation.py:62-74 | A request is answered if and only if the last decision that arrived during creation names it and none taken during the notification replaced it, or a later batch of signals ends with a decision for it |
| `Workflow.HeardApprovalCanBeLost` | services/worker/worker/workflows/investigation.py:62-74 | An approval heard during creation and lost to a later decision without an approval id |
| `Workflow.InvestigationWorkflow.RawCommandGate` | services/worker/worker/workflows/investigation.py:255-293 | Every requested command leaves its own block: validated, asked for exactly if valid, run exactly if approved |
| `Workflow.InvestigationWorkflow.CheckRound` | services/worker/worker/workflows/investigation.py:180-194 | A round starts only past the abort, deadline and cost checks, and otherwise goes to a human with the reason recorded, or is blocked by a pause that no signal of its wait ended |
| `Workflow.InvestigationWorkflow.ApplyOverride` | services/worker/worker/workflows/investigation.py:196-204 | An override moves cost limit and deadline, is used once, and never moves the loop's range |
| `Workflow.InvestigationWorkflow.EnterLoop` | services/worker/worker/workflows/investigation.py:172-176 | The limits the loop starts with, from the budget or the defaults |
| `Workflow.InvestigationWorkflow.Analyze` | services/worker/worker/workflows/investigation.py:220-316 | A round concludes if and only if its report does at the threshold, and gives up if and only if the report is inconclusive with nothing missing |
| `Workflow.InvestigationWorkflow.Investigate` | services/worker/worker/workflows/investigation.py:172-320 | The loop collects at most as often as the bound it entered with, whatever overrides come later; it ends concluded, closed to a human, or in a pause that no signal of its wait ended |
| `Workflow.InvestigationWorkflow.ApplyPlaybook` | services/worker/worker/workflows/investigation.py:378-408 | An approved playbook is executed, and verified exactly if it executed successfully |
| `Workflow.InvestigationWorkflow.Remediate` | services/worker/worker/workflows/investigation.py:357-449 | Resolved if and only if some playbook was approved and every approved one executed and verified |
| `Workflow.InvestigationWorkflow.Conclude` | services/worker/worker/workflows/investigation.py:322-352 | Remediation is planned on a concluded report and closes once, with a summary or by remediating |
| `Workflow.InvestigationWorkflow.Run` | services/worker/worker/workflows/investigation.py:88-449 | In a whole run each raw command ran right behind its own validation and approval and each playbook right behind its own approval, decided by a signal heard for it; the n-th collection is round n and passed its checks; a case goes to a human only for one of five reasons and is summarised or resolved only once every planned playbook was put up; it closes exactly once with its result, unless its last wait was for the end of a pause, it is still paused and not aborted, and no signal of that wait ended the pause; rounds are bounded; resolved if and only if some playbook was approved and all approved ones succeeded |
| `Workflow.RecordIsJustified` | services/worker/worker/workflows/investigation.py:179-449 | Every entry of a lawful record is justified by the entries before it |
| `Paging.Clamp` | services/dashboard-api/dashboard_api/services.py:133 | The page size served is in range, and is the requested one when that is |
| `Paging.ListInvestigations` | services/dashboard-api/dashboard_api/services.py:160-179 | The page is made of the first row of each id, and is the plain page when ids are distinct |
| `Paging.TraversalIsTheListing` | services/dashboard-api/dashboard_api/services.py:811-867 | Following next_cursor to its end visits every matching row present at the start exactly once, in descending order, and nothing else, whatever newer rows are inserted between pages |
| `Paging.TraversalStops` | services/dashboard-api/dashboard_api/services.py:846-853 | A traversal of n rows has no page past the one that reaches the n-th row |
| `Paging.PageIsStretch` | services/dashboard-api/dashboard_api/services.py:124-179 | Page i is exactly the i-th stretch of the listing and names a next cursor exactly while rows remain |
| `CasePaging.EndIsRightUpToThreeRowsExactly` | services/dashboard-api/dashboard_api/services.py:160-179 | The end is reported rightly for every case list in which no id has more than c rows, and every page size, if and only if c is at most three |
| `CasePaging.RepeatedIdsHideARow` | services/dashboard-api/dashboard_api/services.py:160-179 | Four rows of one id whose page ends the list before an unseen case |
| `CasePaging.CaseTraversalTiles` | services/dashboard-api/dashboard_api/services.py:124-179 | The pages of a case traversal tile the listing at places that the listing and the page size alone determine, each listing once the ids of its own stretch of rows, whatever newer rows are inserted |
| `CasePaging.IdIsListedOnceExactly` | services/dashboard-api/dashboard_api/services.py:124-179 | With at most three rows per id every id is listed, and on page i alone if and only if all its rows lie in the i-th stretch, which the listing and the page size alone determine |
| `CasePaging.IdIsListedTwice` | services/dashboard-api/dashboard_api/services.py:160-179 | Rows with ids 7, 8, 7 and one case to a page: 7 is listed twice |
| `Paging.CursorRoundTrip` | services/dashboard-api/dashboard_api/services.py:40-51 | A cursor decodes to the timestamp and id it was made of, whatever the id's text |
| `EnvOverlay.MergeEnv` | probe/internal/runtimeenv/dockerenv/dockerenv.go:377-398 | For every iteration order: the last entry of each patched key is replaced in its place, one entry is appended per new key, everything else stays |
| `EnvOverlay.LookupAfterMerge` | probe/internal/runtimeenv/dockerenv/dockerenv.go:377-398 | Afterwards a patched key looks up its patch and every other key what it did before |
| `EnvOverlay.PatchesLookUpExactly` | probe/internal/runtimeenv/dockerenv/dockerenv.go:377-398 | Every patched key looks up its patch if and only if no patched key contains `=` |
| `EnvOverlay.OtherKeysKeepLookupExactly` | probe/internal/runtimeenv/dockerenv/dockerenv.go:377-398 | Every key that is not patched keeps its lookup if and only if each appended key that is the last to begin with such a key spells the very entry looked up before |
| `EnvOverlay.EqualsSignDisturbsOtherKey` | probe/internal/runtimeenv/dockerenv/dockerenv.go:389-396 | A patched key with `=` that changes the lookup of another key |
| `PropertyOverlay.SetProperty` | probe/internal/adapter/presto/writeops.go:228-251 | The text written is the lines with the first match replaced or a line appended, trailing blanks dropped |
| `PropertyOverlay.MergeProperties` | probe/internal/adapter/presto/writeops.go:202-226 | For every iteration order and both branches: the lines of the base stay in place and order, the first line of each patched key takes its patch, one line is appended per new key, blank lines aside |
| `PropertyOverlay.AdjustMemoryConfig` | probe/internal/adapter/presto/writeops.go:85-107 | A memory-config step is refused exactly without patches, with a key off the whitelist or without a readable file, and otherwise overlays the whitelisted keys as above |
| `PropertyOverlay.CheckWhitelist` | probe/internal/writeops/writeops.go:119-130 | Accepts exactly when every key is on the whitelist |
| `PropertyOverlay.LineAfterMerge` | probe/internal/adapter/presto/writeops.go:202-251 | Afterwards the first line that sets a patched key carries its patch, and the first line of any other key is the one it was |
| `PropertyOverlay.SetPropertyCarries` | probe/internal/adapter/presto/writeops.go:228-251 | Setting one more property keeps what earlier ones established |
| `Demux.SplitNonEmptyLines` | probe/internal/dockerapi/client.go:495-511 | The lines are the non-empty pieces between newlines, in order |
| `Demux.DemuxStreams` | probe/internal/dockerapi/client.go:457-479 | On arbitrary bytes the loop ends, stays in range, and yields per stream the lines of the frames read |
| `Demux.DemuxInvertsFraming` | probe/internal/dockerapi/client.go:457-493 | For every list of frames of type 0 to 2 and length below 2^32 it returns per stream, in order, the non-empty lines of the payloads |
| `Demux.FramesReadBack` | probe/internal/dockerapi/client.go:457-493 | Whole frames are read back exactly, whatever bytes follow them |
| `Demux.CutOffStream` | probe/internal/dockerapi/client.go:463-470 | A stream cut off inside its last frame keeps every whole frame and the part of the payload that arrived |
| `Splitting.SplitOfJoin` | probe/internal/adapter/presto/writeops.go:228-251 | Separator-free pieces joined are found again by splitting |

## Left out

- Web UI, HTTP and gRPC plumbing, Kubernetes, Docker and Presto calls: their results are arbitrary inputs here.
- LLM planning and analysis, prompts, evidence, approver feedback and notification texts: oracle values of the workflow model.
- TLS, certificates, HMAC, password hashing and JWT: library wrappers; only ideal signature verification is used.
- Redaction and the static validation rules of raw commands: the validator's verdict is an input.
- The digest behind `correlation_lock_key`: any function of platform and fingerprint, so collisions are covered.
- `decide_approval` and `decide_approval_atomic`: the dashboard's row updates; the workflow is proved for any decisions they may signal.
- Playbook maturity counters, probe online/offline bookkeeping, manifest refresh and task cancellation.
- `list_llm_calls`: it orders by timestamp alone while its cursor breaks ties by id, so no complete traversal is claimed for it.
- Workflow activities that fail for good: the model covers runs whose activities return.
- Invalid UTF-8 in .properties files: text is a sequence of characters.
- ChunkTransport.DispatcherGetsItsPayload: stated up to 2^32 chunks, because chunk numbers are uint32 and wrap beyond that.
- ChunkTransport.ReassemblyExactly: stated below 2^32 chunks, where the gateway's own uint32 count does not wrap.
- The database's answer to a listing query: filtering and ordering are the query's, stated by `Paging.IsQuery`.
- PropertyOverlay.MergeProperties: says nothing for keys with `=`, a newline or leading white space, which the whitelist check in `PropertyOverlay.AdjustMemoryConfig` excludes.
- Paging.TraversalIsTheListing: for `list_investigations` it applies when ids are distinct; `CasePaging` covers repeated ids.
- ChunkTransport.SessionInbox.ReceiveResult: a second result for a task still registered is ignored here, where the gateway's receive loop would wait for the slot to be emptied.
- The builders of the playbook registry: any function of playbook, deployment, parameters and locators stands for them.
