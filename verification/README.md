# Verification of the decision and encoding core

A Dafny model of the parts of the repository whose correctness is an argument rather than a single check: the
test-shard scheduler, the canonical and invertible encoders, the research workflow and its two reducers, the recovery
and settlement fences, the process-fence proof, the admission gate, and the build closure. Each `.dfy` file follows one
source file or one shared notion; `dafny verify dfyconfig.toml` checks them all.

| file | models |
|---|---|
| `ShardScheduler.dfy` | longest-processing-time assignment of test files to shards, with its approximation bounds |
| `BarsFrame.dfy`, `BarsRoundTrip.dfy` | the columnar bar frames: the loops that encode and decode, round trips, canonicity |
| `Doubles.dfy`, `Utf8.dfy`, `JsonText.dfy`, `CanonicalJson.dfy` | the canonical form of JSON values, down to bytes |
| `CallEvidence.dfy`, `CallReceipt.dfy` | request evidence and receipts built on that form |
| `YamlPrinter.dfy` | the indentation printer and its injectivity |
| `ResearchPlan.dfy` | plans, stages, validity, and the compare-and-swap `advance` |
| `PlanApproval.dfy`, `ResearchJudgment.dfy` | the two reducers whose decisions `advance` executes |
| `WorkflowRuns.dfy` | whole runs: termination, model calls, approvals across versions |
| `BusinessRecovery.dfy`, `RecoveryBudget.dfy` | recovery allocation over a run, its budget and its admission envelope |
| `SessionFence.dfy` | epoch, generation and attempt fences, and settlements, over a run |
| `ProcessFence.dfy`, `UntimedCleanup.dfy` | ordered preimage rows, the declared delta, and the recomputed poststate |
| `AdmissionGate.dfy` | the gate file shared by readers and operators, crash points included |
| `ComposeBuild.dfy` | the dependency worklist and the build targets |
| `Ordering.dfy`, `Decimals.dfy`, `Digests.dfy`, `Outcomes.dfy` | Python's `sorted`, `str` on integers, symbolic digests, results |

SHA-256 is a symbolic injective term of what was hashed. `round(float(value) * factor, 8)` is an arbitrary
deterministic function that may raise. Strings are sequences of Unicode scalar values.

Where the source and its documentation disagree the model follows the code:

- The comment at `packages/contracts/research_execution_plan.py:303` says a plan can be cancelled from every
  non-terminal stage; the table at lines 342 and 347-354 gives `final_selection` and `needs_attention` no such edge.
  `CancellableStages` states exactly which stages can.
- `advance` constrains `iteration` on three kinds of edge only (lines 705-711), so the termination bound is about runs
  that never enter `needs_attention` and whose round changes only where a decision names one. Neither half can be
  dropped: through `needs_attention` there are runs of every length that keep their round (`AttentionRunsUnbounded`),
  and where the round may fall back there are runs of every length that never need attention (`RoundRunsUnbounded`).
- `docs/architecture/adr/ADR-0087-deterministic-paper-account-approval.md:45-51` binds the paper-account approval to the
  plan and task version. Its digest is not: `plan_command_digest` leaves both versions out for this action
  (`packages/contracts/research_plan_approval.py:98-104`). `PaperDigestProceeds` states exactly where such a digest
  proceeds, and `PaperApprovalCarriesOver` exhibits a run on which an old one does. Only the comparison of the stored
  versions (`services/backend/app/agent_research.py:6526-6533`), which is not part of this model, stands against it.
- `validate_call_evidence` admits sequences up to 2**63 - 1, the canonical form only numbers up to 2**53 - 1:
  `ReceiptExact` states that a valid evidence has a receipt exactly when its sequence is at most 2**53 - 1, and
  `UnsafeSequenceHasNoReceipt` exhibits one without.
- `encode_snapshot_bars` is documented as lossless. It is exactly for rectangular panels with a field
  (`BarsPanelExact`, `FrameValid`): a missing field of a ragged row comes back as null, and a panel without fields does
  not decode at all (`RaggedSnapshotLoses`, `BareSnapshotStays`).
- A terminal-cleanup proof is meant to leave the rows as they are. It does exactly when the root row has an update time
  (`CleanupChangesNothing`): the proof's other checks force the six other mutable columns to be there, but a missing
  `updated_at` is written as null. `UntimedCleanupWrites` exhibits an accepted proof that does so.
- A gate torn by a crash in the middle of a write is refused by every later operator too (`TornGateStaysShut`).

## Model

| member | source | states |
|---|---|---|
| ShardScheduler.PartitionTestFiles | scripts/ci/run_backend_shards.py:18-34 | the loop computes the greedy schedule; it fails exactly on a bad inventory, deals every file to exactly one shard, leaves none empty (so the last guard never fires), and is within both bounds |
| ShardScheduler.LeastLoaded | scripts/ci/run_backend_shards.py:29 | the chosen shard is the first among the least loaded |
| ShardScheduler.LptBound | scripts/ci/run_backend_shards.py:18-34 | for m shards and every other assignment of the same files, 3m times the heaviest shard of the greedy schedule is at most (4m - 1) times the heaviest shard of the other |
| ShardScheduler.StepWithinBound | scripts/ci/run_backend_shards.py:28-31 | one greedy step, lightest file so far on the least loaded shard, stays within the ratio against every assignment |
| ShardScheduler.SlotCount | scripts/ci/run_backend_shards.py:28-31 | when no shard can take a file of more than a third of a target, no assignment whatever meets the target |
| ShardScheduler.StepBelowAverage | scripts/ci/run_backend_shards.py:29-31 | the least loaded shard times the number of shards, plus the file, is at most the total |
| ShardScheduler.ScheduleWithinBounds | scripts/ci/run_backend_shards.py:18-34 | the schedule partitions the files, has no empty shard, is near optimal, and each shard is within (m - 1)/m of the largest file above the average |
| ShardScheduler.BalancedBound | scripts/ci/run_backend_shards.py:18-34 | m times the heaviest shard of the schedule is at most the total plus (m - 1) times the largest file |
| ShardScheduler.EmptyFirstStep | scripts/ci/run_backend_shards.py:29-33 | while a shard is empty no shard gets a second file |
| Ordering.SortByCorrect | scripts/ci/run_backend_shards.py:28 | sorting by a key permutes the items and orders them |
| Ordering.SortedUnique | packages/contracts/bars_frame.py:81 | when keys tell items apart, their sorted arrangement is unique |
| BarsFrame.EncodeBarsFrame | packages/contracts/bars_frame.py:88-174 | the loops accept exactly the aligned, finite, duplicate-free panels whose raw fields the multipliers reproduce, and build the specified frame |
| BarsFrame.FillColumns | packages/contracts/bars_frame.py:121-139 | column by column, in row order, rejecting exactly the non-finite values |
| BarsFrame.Verify | packages/contracts/bars_frame.py:141-159 | accepts exactly when every adjusted field of every row is reproduced |
| BarsFrame.DecodeBarsFrame | packages/contracts/bars_frame.py:237-274 | appending rows and overwriting the adjusted fields in place yields the specified rows, and fails exactly on an invalid frame, an unavailable panel or a value that cannot be multiplied |
| BarsFrame.AdjustRows | packages/contracts/bars_frame.py:267-273 | the loop over rows and multipliers rewrites each row in place with its own |
| BarsFrame.Overwrite | packages/contracts/bars_frame.py:267-273 | the in-place loop multiplies every adjusted field that is present and not null, and no other |
| BarsRoundTrip.BarsPanelExact | packages/contracts/bars_frame.py:121-174 | a raw or snapshot frame with a field decodes, and to exactly the sorted bars if and only if the bars are rectangular |
| BarsRoundTrip.RaggedSnapshotLoses | packages/contracts/bars_frame.py:182-189 | a ragged snapshot that is accepted and does not decode to its rows |
| BarsRoundTrip.BareSnapshotStays | packages/contracts/bars_frame.py:206-207 | a panel without fields that is accepted and does not decode |
| BarsRoundTrip.ResearchPanelExact | packages/contracts/bars_frame.py:121-174 | the research panel rebuilt from an accepted raw frame is exactly the sorted research rows if and only if these agree with their bars on keys and unadjusted fields and are rectangular |
| BarsRoundTrip.PermutationInvariant | packages/contracts/bars_frame.py:76-85 | permuting bars, research rows and multipliers together gives an equal frame, or is rejected both times |
| BarsRoundTrip.SnapshotCanonical | packages/contracts/bars_frame.py:182-189 | encoding what a snapshot frame decodes to gives the same frame, ragged panels included |
| BarsRoundTrip.FrameValid | packages/contracts/bars_frame.py:192-229 | an accepted frame passes the decoder's checks exactly when the panel has a field |
| BarsRoundTrip.PairsDiffer | packages/contracts/bars_frame.py:82-84 | as many symbol/date pairs as rows means no two rows share one |
| JsonText.QuoteInjective | packages/contracts/domain_call_admission.py:67 | escaped string literals are read back (RFC 8259, section 7): different strings, different literals |
| JsonText.QuoteDelimited | packages/contracts/domain_call_admission.py:67 | a literal's end is found whatever follows it |
| Utf8.EncodeInjective | packages/contracts/domain_call_admission.py:67 | different strings have different UTF-8 bytes |
| Doubles.RealInjective | packages/contracts/domain_call_admission.py:51-56 | two doubles denote the same real exactly when they are the same or both zeros |
| Doubles.FromIntExact | packages/contracts/domain_call_admission.py:51-56 | every integer up to 2**53 - 1 in magnitude becomes a double of exactly its value |
| Doubles.HexTextInjective | packages/contracts/domain_call_admission.py:56 | `float.hex` tells all doubles apart |
| CanonicalJson.Walker.Visit | packages/contracts/domain_call_admission.py:42-64 | the traversal with its shared counter accepts exactly the sound trees within the depth bound whose nodes, keys counted, still fit; it adds their number and returns the tagged tree |
| CanonicalJson.Walker.VisitFields | packages/contracts/domain_call_admission.py:62-63 | the fields of an object in key order, each key a node of its own |
| CanonicalJson.Canonical | packages/contracts/domain_call_admission.py:38-72 | bytes are returned exactly when the node count, the height and the byte length are within bounds, and they are the canonical form |
| CanonicalJson.NumberTextExact | packages/contracts/domain_call_admission.py:51-56 | two safe numbers have the same text exactly when they are the same real: 1 and 1.0, 0 and -0.0 |
| CanonicalJson.PrintDelimited | packages/contracts/domain_call_admission.py:67 | the compact text of a tagged tree is read back whatever follows |
| CanonicalJson.TaggedExact | packages/contracts/domain_call_admission.py:42-64 | tagged trees are equal exactly when the values are, modulo key order and numeric spelling, a bool never a number |
| CanonicalJson.CanonicalExact | packages/contracts/domain_call_admission.py:38-72 | two accepted values have the same bytes exactly when they are the same JSON value |
| CallEvidence.RequestEvidenceExact | packages/contracts/domain_call_admission.py:98-126 | evidence exists exactly for a referenced call whose whole request is within the bounds; the second canonicalisation, without run and key, never fails on its own |
| CallEvidence.InputDigestExact | packages/contracts/domain_call_admission.py:117-126 | input digests agree exactly when the action and the effective content but run and key agree |
| CallEvidence.ReplayKeepsInput | packages/contracts/domain_call_admission.py:121-124 | another run and another key leave the input digest alone |
| CallEvidence.RequestDigestBinds | packages/contracts/domain_call_admission.py:117-126 | a request digest fixes action, task, run, key, trace and input |
| CallReceipt.ReceiptInjective | packages/contracts/domain_call_admission.py:146-150 | the event digest of a receipt determines the evidence |
| CallReceipt.ReceiptExact | packages/contracts/domain_call_admission.py:129-150 | valid evidence has a receipt exactly when its sequence is a safe integer |
| CallReceipt.UnsafeSequenceHasNoReceipt | packages/contracts/domain_call_admission.py:137-150 | a valid evidence without a receipt |
| YamlPrinter.YamlLines | scripts/dsh/plugin_registry.py:272-306 | the recursive loops print the specified lines, and fail exactly on an empty map standing in a list |
| YamlPrinter.LinesInjective | scripts/dsh/plugin_registry.py:260-306 | values with non-empty blocks, key-like keys and no list directly in a list never print the same lines, at any indentation |
| YamlPrinter.BlockDelimited | scripts/dsh/plugin_registry.py:272-305 | a printed block is told from what follows it by indentation: block and rest are both determined |
| YamlPrinter.ItemDelimited | scripts/dsh/plugin_registry.py:286-304 | the same for one list item, whether a map on the dash or a scalar |
| YamlPrinter.NestedListCollides | scripts/dsh/plugin_registry.py:303-304 | a list directly in a list prints like the text of its `str` |
| YamlPrinter.EmptyBlocksCollide | scripts/dsh/plugin_registry.py:278-280 | an empty map and an empty list under the same key print alike |
| ResearchPlan.AdvanceExactly | packages/contracts/research_execution_plan.py:674-755 | an advance is accepted exactly for a valid plan and an acceptable request, and then gives the built plan |
| ResearchPlan.AdvanceEffects | packages/contracts/research_execution_plan.py:674-755 | an accepted advance keeps identity and task version, adds one to the version, follows a legal edge, binds its approval to the new version, and enforces its three iteration rules |
| ResearchPlan.AdvanceOnce | packages/contracts/research_execution_plan.py:696-700 | a second advance against the same version is refused |
| ResearchPlan.HumanGateIsReadOnly | packages/contracts/research_execution_plan.py:483-571 | the stage table and the action's capabilities alone keep a human gate read-only: the validator's own guard never decides |
| ResearchPlan.HumanGateNeedsApproval | packages/contracts/research_execution_plan.py:212-301 | the stage table names a required approval at every human gate, so the lookup by action never decides there |
| ResearchPlan.NewPlanExactly | packages/contracts/research_execution_plan.py:580-667 | a new plan exists exactly for well-formed identities, versions, references and round, at the first stage with version one and no approval |
| ResearchPlan.StagePlanValid | packages/contracts/research_execution_plan.py:440-571 | the plan an advance builds is valid exactly under conditions on the caller's fields |
| ResearchPlan.CancellableStages | packages/contracts/research_execution_plan.py:310-356 | which stages can be cancelled |
| PlanApproval.ApprovalDecisionExecutable | packages/contracts/research_plan_approval.py:152-200 | an approved decision can always be advanced, to a valid plan at the next version whose approval names that version and a referenced resource |
| PlanApproval.ProceedsExactly | packages/contracts/research_plan_approval.py:152-184 | a gate proceeds exactly on a human approval of the pending command with the digest of this very plan |
| PlanApproval.BindIdempotent | packages/contracts/research_plan_approval.py:114-122 | binding the command digest always succeeds on a valid plan, is idempotent, and stores this plan's digest |
| PlanApproval.BoundPlanProceeds | packages/contracts/research_plan_approval.py:114-184 | a bound plan proceeds on its own digest |
| PlanApproval.DigestNamesItsPlan | packages/contracts/research_plan_approval.py:94-111 | but for the paper account, a digest advances only a plan with the same task, versions and references, and only the same command |
| PlanApproval.DigestRefusedElsewhere | packages/contracts/research_plan_approval.py:158-184 | at a plan of another version or other references it never proceeds |
| PlanApproval.PaperDigestIgnoresVersions | packages/contracts/research_plan_approval.py:82-111 | the paper-account digest agrees exactly when task and references do |
| PlanApproval.PaperDigestProceeds | packages/contracts/research_plan_approval.py:94-200 | a paper-account digest makes another plan proceed exactly when that plan waits at the paper-account gate for the same command of the same task and references, a human approves it, and no other digest is bound, whatever the versions |
| ResearchJudgment.ProposalCommitExecutable | packages/contracts/research_judgment.py:613-690 | a proposal's advance passes the legality check and `advance`, given the reference its gate binds |
| ResearchJudgment.ProposalNeedsReference | packages/contracts/research_execution_plan.py:440-480 | without that reference no approval makes it executable |
| ResearchJudgment.ProposalRouting | packages/contracts/research_judgment.py:613-672 | a proposal advances only its own plan, version and stage, names an iteration only at a revision, never past round three, and selection waits for round three |
| ResearchJudgment.FenceBound | packages/contracts/research_judgment.py:344-380 | the fence allows exactly no call, one call, or a second after durable progress |
| WorkflowRuns.FreshRunTerminates | packages/contracts/research_execution_plan.py:310-356 | from a new plan at round one, at most 29 advances |
| WorkflowRuns.RunBounded | packages/contracts/research_execution_plan.py:674-755 | from every plan, no more advances than the measure of stage and round |
| WorkflowRuns.LongestRun | packages/contracts/research_execution_plan.py:674-755 | both measures are attained by one completing run: its advances, and two fenced calls at every judgment stage |
| WorkflowRuns.FreshRunAttainsBounds | packages/contracts/research_judgment.py:344-380 | from every new plan that names its resources there is a run of exactly 29 advances and 16 model calls |
| WorkflowRuns.FreshPlanExists | packages/contracts/research_execution_plan.py:580-611 | there is a new plan that names its resources |
| WorkflowRuns.AttentionRunsUnbounded | packages/contracts/research_execution_plan.py:310-356 | through `needs_attention` there are runs of every length, even keeping their round |
| WorkflowRuns.RoundRunsUnbounded | packages/contracts/research_execution_plan.py:705-711 | where the round may fall back there are runs of every length that never need attention |
| WorkflowRuns.FreshRunModelCalls | packages/contracts/research_judgment.py:344-380 | with the per-stage fence, at most 16 model calls |
| WorkflowRuns.RunVersions | packages/contracts/research_execution_plan.py:718-755 | versions count the advances of a run; task and task version never change |
| WorkflowRuns.ApprovalNeverCarriesOver | packages/contracts/research_plan_approval.py:158-184 | within a run, a digest computed at one plan advances no other plan of it, but for the paper account |
| WorkflowRuns.ApprovalCarriesOverExactly | packages/contracts/research_plan_approval.py:152-200 | within a run a digest of any action proceeds at another plan exactly in that case |
| WorkflowRuns.PaperApprovalCarriesOver | packages/contracts/research_plan_approval.py:94-111 | from every fully referenced plan at the paper-account gate a run leads through `needs_attention` back to the gate, two versions on, where the old digest proceeds |
| WorkflowRuns.PaperGatePlanExists | packages/contracts/research_execution_plan.py:614-667 | there is such a plan |
| BusinessRecovery.TriggerMaterialInjective | packages/contracts/business_recovery.py:87-110 | the identity string determines reservation, run, generation, attempt and epoch, although a generation may contain `:` |
| BusinessRecovery.CarrierBindsReservation | packages/contracts/business_recovery.py:145-156 | a carrier verifies for one reservation only |
| BusinessRecovery.AllocateRecoveryAttempt | packages/contracts/business_recovery.py:400-452 | the scan answers as specified: replay, refusal of a changed snapshot, exhaustion, or a new numbered attempt |
| BusinessRecovery.CreatedPlaced | packages/contracts/business_recovery.py:436-452 | a created attempt has the next ordinal, a new trigger and an identity that verifies |
| BusinessRecovery.RunKeepsLedger | packages/contracts/business_recovery.py:400-452 | over every run of calls: ordinals exactly 1..n with n at most 3, distinct triggers, every stored carrier verifies, and none ever moves or changes |
| BusinessRecovery.AllocationIdempotent | packages/contracts/business_recovery.py:400-452 | at any later time the same loss gets the same attempt, and with another snapshot it is refused; neither changes the list |
| BusinessRecovery.AttemptNamesItsLoss | packages/contracts/business_recovery.py:400-452 | an attempt is only returned for its own loss, and is new exactly when no stored one names it |
| BusinessRecovery.LedgerLossesDistinct | packages/contracts/business_recovery.py:87-120 | no two stored attempts share loss or key |
| RecoveryBudget.BudgetConserved | packages/contracts/business_recovery.py:299-353 | in every admitted run each recovery starts above the floor, and what it and its predecessors charged stays within grant and reservation |
| RecoveryBudget.ChargesAddUp | packages/contracts/business_recovery.py:299-353 | the known cumulative charge is the sum of the charges, and nothing is admitted after an unreconciled one |
| RecoveryBudget.AtMostThreeRecoveries | packages/contracts/business_recovery.py:299-353 | with the contract's constants, at most three recoveries, each starting with the model-call floor |
| RecoveryBudget.AdmissionEnvelope | packages/contracts/business_recovery.py:255-296 | eligible exactly for exact reuses (or a read-only session); otherwise blocked with exactly the reasons of the refused calls, sorted |
| RecoveryBudget.RefusalExact | packages/contracts/business_recovery.py:237-290 | everything but an exact reuse by an action that mints no key is refused |
| SessionFence.AssertTerminalSettlement | packages/contracts/session_failure_containment.py:222-240 | the loop accepts exactly the attempts beyond every settled one |
| SessionFence.RunConsistent | packages/contracts/session_failure_containment.py:178-240 | under every interleaving, accepted settlements strictly increase and nothing settled is overwritten |
| SessionFence.StaleWriterChangesNothing | packages/contracts/session_failure_containment.py:178-219 | a writer is accepted exactly when it is the authority; any other changes nothing |
| SessionFence.SettledAttemptIsFinal | packages/contracts/session_failure_containment.py:199-240 | after a settlement, no writer at or behind it ever settles |
| ProcessFence.CheckOrder | packages/contracts/acp_operator_process_fence.py:1332-1344 | the adjacent test with its seen set accepts exactly the strictly ordered lists over allowed tables whose keys agree with their rows |
| ProcessFence.UniqueTextInjective | packages/contracts/acp_operator_process_fence.py:1338 | table and key can be read off the unique text |
| ProcessFence.ExpectedRows | packages/contracts/acp_operator_process_fence.py:1469-1477 | the copying loop builds the specified poststate |
| ProcessFence.ValidateProcessFenceProof | packages/contracts/acp_operator_process_fence.py:1324-1479 | accepts exactly the proofs whose rows are ordered and are the hashed preimage, whose delta, runs, settlement, product rows and audit id agree with the scope, and whose digest is that of the recomputed poststate |
| ProcessFence.PoststateKeepsRows | packages/contracts/acp_operator_process_fence.py:1469-1477 | row count, order, tables and keys are kept |
| ProcessFence.PoststateFrame | packages/contracts/acp_operator_process_fence.py:1469-1477 | the root row changes in its seven columns, a named run in its four, nothing else |
| ProcessFence.ActiveRunPost | packages/contracts/acp_operator_process_fence.py:1443-1457 | every previously active run ends interrupted and closed at the declared time, its version raised by exactly one |
| ProcessFence.OnlyActiveRunsChange | packages/contracts/acp_operator_process_fence.py:1469-1477 | given unique run ids, apart from the root exactly the previously active runs change |
| ProcessFence.RewritingGoesById | packages/contracts/acp_operator_process_fence.py:1475-1476 | without them, every run row with a named id is interrupted and closed, of whatever root |
| ProcessFence.RootPost | packages/contracts/acp_operator_process_fence.py:1409-1432 | the root ends with the fact's status, closed, and with the declared ingress facts |
| ProcessFence.EveryRunEndsClosed | packages/contracts/acp_operator_process_fence.py:1434-1477 | every run of the root ends in a terminal status with closed authority, none active |
| ProcessFence.CleanupChangesNothing | packages/contracts/acp_operator_process_fence.py:1303-1477 | a cleanup's poststate is its preimage exactly when the root row has an update time |
| ProcessFence.CleanupRootColumns | packages/contracts/acp_operator_process_fence.py:1303-1432 | the checks of a cleanup force the other six mutable columns to be there |
| UntimedCleanup.UntimedCleanupWrites | packages/contracts/acp_operator_process_fence.py:1332-1479 | a proof over a root row without update time is accepted and changes it |
| UntimedCleanup.UntimedProofExists | packages/contracts/acp_operator_process_fence.py:1308-1479 | there is such a proof |
| AdmissionGate.GateFile.SetState | scripts/dsh/admission.py:34-57 | writes the line exactly when the lock is obtained in time and the gate is well-formed; otherwise changes nothing |
| AdmissionGate.HistorySafe | scripts/dsh/admission.py:25-57 | over every interleaving, lock table and processes agree, exclusive excludes shared, and each holder's knowledge of the file is true |
| AdmissionGate.AdmittedMeansOpen | packages/operations/admission.py:17-46 | throughout an admission the file reads `open` and no operator holds the lock |
| AdmissionGate.ClosedUntilOpened | packages/operations/admission.py:17-46 | from a gate that does not read `open`, nobody is admitted until the truncation of an `open` written in full over a closed gate |
| AdmissionGate.CompletedCloseRefuses | scripts/dsh/admission.py:53-57 | a close refuses readers once it truncated, however short its write |
| AdmissionGate.ClosedAfterClose | packages/operations/admission.py:17-46 | over every interleaving, after the truncation of a `close` nobody is admitted until a later `open` completes |
| AdmissionGate.CrashLeavesOldOrRefused | scripts/dsh/admission.py:53-57 | a crash or short write at any byte leaves the old content or content readers refuse |
| AdmissionGate.TornGateStaysShut | scripts/dsh/admission.py:51-52 | content that is no gate is never changed again |
| AdmissionGate.CutWrite | scripts/dsh/admission.py:53-55 | what each prefix of the write leaves, before and after truncation |
| AdmissionGate.UninterruptedSetState | scripts/dsh/admission.py:34-58 | in the protocol too, an operator nothing interrupts writes the line over a well-formed gate, leaves any other as it was, and gives the lock back |
| ComposeBuild.DependencyClosure | scripts/dev/acp_compose.py:131-142 | exactly the reachable names, each once, ending on cyclic graphs too |
| ComposeBuild.BuildTargets | scripts/dev/acp_compose.py:145-165 | in the single-image case no extra role, the canonical target exactly if it builds and a role was selected, every other buildable selected service; no name twice |
| ComposeBuild.ClosedHoldsReachable | scripts/dev/acp_compose.py:131-142 | a list closed under dependencies holds everything reachable from it |

## Left out

- SHA-256 and HMAC: a digest is the symbolic term of its input, so collisions do not exist in the model.
- Value types Python checks at run time (`isinstance`, `type(x) is int`) are the model's types where the value has one type only; the JSON and frame models keep the checks that have an outcome of their own.
- Lone surrogates: the canonical form rejects strings that cannot be encoded; the model's strings have none.
- Parsing of observed arguments (`parse_observed_arguments`): `json.loads` is not part of this model.
- BarsFrame.EncodeBarsFrame: rows have a string symbol and date and no other field of those names; rows that lack one, and the `str` conversion of others, are not modelled. Booleans as cell values are texts.
- BarsFrame.EncodeBarsFrame: rows are sorted as aligned triples of bar, research row and multiplier, where the source sorts positions.
- CanonicalJson.Canonical: `RecursionError` cannot occur below depth 24 and is not modelled.
- YamlPrinter.LinesInjective: keys must be non-empty, without `:`, and not start with a space, a dash or a quote, which holds for the identifiers of the registry; numbers are known by their text.
- ResearchPlan: timestamps and the field-shape checks of references other than their identity pattern.
- ResearchJudgment: free texts, evidence items and byte limits of proposals, which play no part in the decision.
- BusinessRecovery: `canonical_snapshot_digest`, `verify_snapshot_closure` and receipts; a snapshot is its digest.
- ProcessFence.ValidateProcessFenceProof: field shapes, the request and the product scope's own validator, the delta's and the receipts' own digests, the operator and the fact's validator (before line 1303 in part, 1315-1323 and from 1480 on), each settled by one branch; the 64-digit shape of digests that are symbolic here.
- AdmissionGate: `fsync` and power loss; a crash is the end of a process, whose locks the kernel drops.
- AdmissionGate.GateFile.SetState: the wait between lock attempts is the sequence of their answers, the deadline how many fit.
- ComposeBuild.BuildTargets: the topology classification is a given boolean.
- `classify_recovery`, runtime continuity and terminal attachment: finite classifiers over booleans.
- `scripts/ci/watch-ci.py`: the watch loop and its verdict are not part of this model.
- Docker, Git, PostgreSQL, HTTP, backup and front-end code: plumbing around external tools.
