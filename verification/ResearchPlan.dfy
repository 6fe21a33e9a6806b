/** The research execution plan of packages/contracts/research_execution_plan.py: its closed vocabulary,
    its validation and its compare-and-swap advance. */
module ResearchPlan {
  import opened Digests
  import opened Outcomes

  // ----- vocabulary -----

  datatype Stage =
    | StrategyDraft | WaitingForStrategyApproval | ReadyToCreateBacktestTask | WaitingForTaskCreateApproval
    | WaitingForData | WaitingForTaskExecuteApproval | ReadyToExecuteBacktestTask | WaitingForBacktestJob
    | BacktestAnalysis | IterationComparison | FinalSelection | WaitingForPaperAccountApproval
    | ReadyToCreatePaperAccount | NeedsAttention | Completed

  /** `Finished` is the status the source spells `completed`. */
  datatype Status = Active | Waiting | Blocked | Finished | Cancelled

  datatype Action =
    | DraftStrategy | RequestStrategyApproval | CreateBacktestTask | WaitForData
    | ExecuteBacktestTaskApprovalWait | ExecuteBacktestTask | WaitForBacktestJob | AnalyseBacktestResult
    | CompareIterations | SelectBestIteration | RequestPaperAccountApproval | CreatePaperAccount
    | ResolveBlockers | NotifyUser | CancelResearch

  datatype Prerequisite =
    | StrategyDraftValidated | StrategyVersionApproved | BacktestTaskPrepared | SignalSnapshotValidated
    | BacktestTaskExecuteApproved | BacktestJobTerminal | BacktestResultAvailable | IterationAnalysisComplete
    | PreviousIterationSettled | PaperAccountCreateApproved

  datatype Postcondition =
    | StrategyDraftCreated | StrategyApprovalRequested | BacktestTaskCreated | NextRoundTaskCreateApprovalRequested
    | SignalJobCompleted | BacktestExecuteApprovalRequested | BacktestJobQueued | ResultAvailable
    | BacktestResultAnalysed | IterationCompared | BestIterationSelected | PaperAccountApprovalRequested
    | PaperAccountCreated | BlocksResolvedOrConfirmed | UserNotified | ResearchCancelled

  datatype Kind =
    | ResearchTask | Conversation | StrategyVersion | StrategyApproval | StockPoolSnapshot | SignalProducerJob
    | SignalSnapshot | BacktestTask | BacktestJob | BacktestResult | MlPrediction | PaperAccount

  datatype Capability =
    | ResearchGet | StrategyVersionCreate | BacktestTaskCreate | BacktestTaskGet | BacktestTaskExecute
    | BacktestAnalysisGet | PaperAccountCreate

  /** The approval actions a human may grant. */
  datatype ApprovalAction = ApproveStrategy | ApproveTaskCreate | ApproveExecute | ApprovePaperAccount

  datatype Requirement = Requirement(action: ApprovalAction, kind: Kind)

  type References = map<Kind, string>

  const MAX_ROUNDS := 3

  /** A command digest, as the symbolic term of what was hashed; `Foreign` is any other digest. */
  datatype CommandDigest =
    | PlanCommand(taskId: string, planVersion: int, taskVersion: int, action: ApprovalAction, kind: Kind,
                  resourceId: string, references: References)
    | PaperCommand(taskId: string, action: ApprovalAction, kind: Kind, resourceId: string, execution: PaperExecution,
                   references: References)
    | Foreign(text: string)

  datatype PaperExecution = PaperExecution(resourceId: string, name: string, cash: string)

  datatype Approval = Approval(
    action: ApprovalAction, kind: Kind, resourceId: string, planVersion: int, taskVersion: int,
    digest: Option<CommandDigest>)

  datatype Plan = Plan(
    taskId: string, planVersion: int, taskVersion: int, owner: string, workspace: string, conversation: string,
    stage: Stage, iteration: int, status: Status, action: Action, references: References,
    prerequisites: seq<Prerequisite>, postcondition: Postcondition, approval: Option<Approval>,
    idempotencyKey: string, capabilities: seq<Capability>, progress: Option<string>)

  // ----- the stage table -----

  datatype StageSpec = StageSpec(
    action: Action, statuses: set<Status>, prerequisites: seq<Prerequisite>, postcondition: Postcondition,
    approval: Option<Requirement>)

  function Spec(s: Stage): StageSpec {
    match s
    case StrategyDraft => StageSpec(DraftStrategy, {Active}, [], StrategyDraftCreated, None)
    case WaitingForStrategyApproval =>
      StageSpec(RequestStrategyApproval, {Waiting}, [StrategyDraftValidated], StrategyApprovalRequested,
                Some(Requirement(ApproveStrategy, StrategyVersion)))
    case ReadyToCreateBacktestTask =>
      StageSpec(CreateBacktestTask, {Active}, [StrategyVersionApproved], BacktestTaskCreated,
                Some(Requirement(ApproveTaskCreate, StrategyVersion)))
    case WaitingForTaskCreateApproval =>
      StageSpec(RequestStrategyApproval, {Waiting}, [StrategyVersionApproved], NextRoundTaskCreateApprovalRequested,
                Some(Requirement(ApproveTaskCreate, StrategyVersion)))
    case WaitingForData => StageSpec(WaitForData, {Waiting}, [BacktestTaskPrepared], SignalJobCompleted, None)
    case WaitingForTaskExecuteApproval =>
      StageSpec(ExecuteBacktestTaskApprovalWait, {Waiting}, [SignalSnapshotValidated],
                BacktestExecuteApprovalRequested, Some(Requirement(ApproveExecute, BacktestTask)))
    case ReadyToExecuteBacktestTask =>
      StageSpec(ExecuteBacktestTask, {Active}, [BacktestTaskExecuteApproved], BacktestJobQueued,
                Some(Requirement(ApproveExecute, BacktestTask)))
    case WaitingForBacktestJob => StageSpec(WaitForBacktestJob, {Waiting}, [BacktestJobTerminal], ResultAvailable, None)
    case BacktestAnalysis =>
      StageSpec(AnalyseBacktestResult, {Active}, [BacktestResultAvailable], BacktestResultAnalysed, None)
    case IterationComparison =>
      StageSpec(CompareIterations, {Active}, [IterationAnalysisComplete], IterationCompared, None)
    case FinalSelection =>
      StageSpec(SelectBestIteration, {Active}, [PreviousIterationSettled], BestIterationSelected, None)
    case WaitingForPaperAccountApproval =>
      StageSpec(RequestPaperAccountApproval, {Waiting}, [PreviousIterationSettled], PaperAccountApprovalRequested,
                Some(Requirement(ApprovePaperAccount, ResearchTask)))
    case ReadyToCreatePaperAccount =>
      StageSpec(CreatePaperAccount, {Active}, [PaperAccountCreateApproved], PaperAccountCreated,
                Some(Requirement(ApprovePaperAccount, ResearchTask)))
    case NeedsAttention => StageSpec(ResolveBlockers, {Blocked}, [], BlocksResolvedOrConfirmed, None)
    case Completed => StageSpec(NotifyUser, {Finished, Cancelled}, [], UserNotified, None)
  }

  function Transitions(s: Stage): set<Stage> {
    match s
    case StrategyDraft => {WaitingForStrategyApproval, NeedsAttention, Completed}
    case WaitingForStrategyApproval =>
      {ReadyToCreateBacktestTask, WaitingForTaskCreateApproval, NeedsAttention, Completed}
    case ReadyToCreateBacktestTask => {WaitingForData, NeedsAttention, Completed}
    case WaitingForTaskCreateApproval => {ReadyToCreateBacktestTask, WaitingForData, NeedsAttention, Completed}
    case WaitingForData =>
      {WaitingForTaskExecuteApproval, ReadyToExecuteBacktestTask, NeedsAttention, Completed}
    case WaitingForTaskExecuteApproval => {ReadyToExecuteBacktestTask, NeedsAttention, Completed}
    case ReadyToExecuteBacktestTask => {WaitingForBacktestJob, NeedsAttention, Completed}
    case WaitingForBacktestJob => {BacktestAnalysis, NeedsAttention, Completed}
    case BacktestAnalysis => {IterationComparison, NeedsAttention, Completed}
    case IterationComparison => {WaitingForTaskCreateApproval, FinalSelection, NeedsAttention, Completed}
    case FinalSelection => {WaitingForPaperAccountApproval, NeedsAttention}
    case WaitingForPaperAccountApproval => {ReadyToCreatePaperAccount, NeedsAttention, Completed}
    case ReadyToCreatePaperAccount => {Completed, NeedsAttention}
    case NeedsAttention =>
      {StrategyDraft, WaitingForStrategyApproval, ReadyToCreateBacktestTask, WaitingForTaskCreateApproval,
       WaitingForData, WaitingForTaskExecuteApproval, ReadyToExecuteBacktestTask, WaitingForBacktestJob,
       BacktestAnalysis, IterationComparison, WaitingForPaperAccountApproval, ReadyToCreatePaperAccount}
    case Completed => {}
  }

  predicate CanTransition(current: Stage, next: Stage) { next in Transitions(current) }

  function ActionCapabilities(a: Action): set<Capability> {
    match a
    case DraftStrategy => {ResearchGet, StrategyVersionCreate}
    case CreateBacktestTask => {ResearchGet, BacktestTaskCreate}
    case WaitForData | WaitForBacktestJob | CompareIterations => {ResearchGet, BacktestTaskGet}
    case ExecuteBacktestTask => {ResearchGet, BacktestTaskExecute}
    case AnalyseBacktestResult => {ResearchGet, BacktestAnalysisGet}
    case CreatePaperAccount => {ResearchGet, PaperAccountCreate}
    case NotifyUser => {}
    case RequestStrategyApproval | ExecuteBacktestTaskApprovalWait | SelectBestIteration
       | RequestPaperAccountApproval | ResolveBlockers | CancelResearch => {ResearchGet}
  }

  /** The `sorted` capability list of an action: its capabilities in a fixed order. */
  function CapabilityList(a: Action): (r: seq<Capability>)
    ensures (set c | c in r) == ActionCapabilities(a)
  {
    match a
    case DraftStrategy => [ResearchGet, StrategyVersionCreate]
    case CreateBacktestTask => [BacktestTaskCreate, ResearchGet]
    case WaitForData | WaitForBacktestJob | CompareIterations => [BacktestTaskGet, ResearchGet]
    case ExecuteBacktestTask => [BacktestTaskExecute, ResearchGet]
    case AnalyseBacktestResult => [BacktestAnalysisGet, ResearchGet]
    case CreatePaperAccount => [PaperAccountCreate, ResearchGet]
    case NotifyUser => []
    case RequestStrategyApproval | ExecuteBacktestTaskApprovalWait | SelectBestIteration
       | RequestPaperAccountApproval | ResolveBlockers | CancelResearch => [ResearchGet]
  }

  predicate IsWrite(c: Capability) {
    c in {StrategyVersionCreate, BacktestTaskCreate, BacktestTaskExecute, PaperAccountCreate}
  }

  const APPROVAL_WAIT_STAGES := {
    WaitingForStrategyApproval, WaitingForTaskCreateApproval, WaitingForTaskExecuteApproval,
    WaitingForPaperAccountApproval}

  /** The requirement the source looks up by action when the stage itself names none. */
  function ActionApproval(a: Action): Option<Requirement> {
    match a
    case CreateBacktestTask => Some(Requirement(ApproveTaskCreate, StrategyVersion))
    case ExecuteBacktestTask => Some(Requirement(ApproveExecute, BacktestTask))
    case CreatePaperAccount => Some(Requirement(ApprovePaperAccount, ResearchTask))
    case _ => None
  }

  // ----- validation -----

  predicate IdentityChar(c: char) {
    'a' <= c <= 'z' || 'A' <= c <= 'Z' || '0' <= c <= '9' || c in "_.:-"
  }

  predicate IsIdentity(s: string) { 1 <= |s| <= 128 && forall c <- s :: IdentityChar(c) }

  predicate IsDigest(s: string) {
    |s| == 71 && s[..7] == "sha256:" && IsHex(s[7..], 64)
  }

  /** A computed digest has the closed form by construction; any other text must have it. */
  predicate WellFormedDigest(d: CommandDigest) { d.Foreign? ==> IsDigest(d.text) }

  predicate ValidReferences(refs: References) { forall k <- refs :: IsIdentity(refs[k]) }

  predicate ValidApproval(a: Option<Approval>, p: Plan, required: Option<Requirement>) {
    if required.None? then a.None?
    else
      && a.Some?
      && a.value.action == required.value.action && a.value.kind == required.value.kind
      && (a.value.digest.Some? ==> WellFormedDigest(a.value.digest.value)) && IsIdentity(a.value.resourceId)
      && a.value.planVersion >= 1 && a.value.taskVersion >= 1
      && a.value.planVersion == p.planVersion && a.value.taskVersion == p.taskVersion
      && a.value.kind in p.references && p.references[a.value.kind] == a.value.resourceId
  }

  predicate ValidTerminal(p: Plan) {
    if p.status == Cancelled then p.action == CancelResearch && p.postcondition == ResearchCancelled
    else p.status == Finished && p.action == NotifyUser && p.postcondition == UserNotified
  }

  predicate ValidStage(p: Plan) {
    if p.stage == Completed then ValidTerminal(p) && p.prerequisites == []
    else
      var spec := Spec(p.stage);
      && p.status in spec.statuses && p.action == spec.action && p.postcondition == spec.postcondition
      && multiset(p.prerequisites) == multiset(spec.prerequisites)
  }

  predicate ValidIdentity(p: Plan) {
    && IsIdentity(p.taskId) && IsIdentity(p.owner) && IsIdentity(p.workspace) && IsIdentity(p.conversation)
    && p.planVersion >= 1 && p.taskVersion >= 1
  }

  predicate ValidRound(p: Plan) {
    1 <= p.iteration <= MAX_ROUNDS && (p.stage == FinalSelection ==> p.iteration == MAX_ROUNDS)
  }

  /** The stage's own requirement, or else the one of the action. */
  function RequirementOf(p: Plan): Option<Requirement> {
    if p.stage != Completed && Spec(p.stage).approval.Some? then Spec(p.stage).approval else ActionApproval(p.action)
  }

  predicate ValidCapabilities(p: Plan) {
    && (set c | c in p.capabilities) == ActionCapabilities(p.action)
    && (p.stage in APPROVAL_WAIT_STAGES ==> forall c <- p.capabilities :: !IsWrite(c))
  }

  predicate ValidPlan(p: Plan) {
    && ValidIdentity(p) && ValidStage(p) && ValidRound(p) && ValidReferences(p.references)
    && ValidApproval(p.approval, p, RequirementOf(p))
    && p.idempotencyKey != "" && ValidCapabilities(p)
    && (p.progress.Some? ==> IsDigest(p.progress.value))
  }

  function Validated(p: Plan): Result<Plan> {
    if ValidPlan(p) then Ok(p) else Err("research execution plan is invalid")
  }

  // ----- construction and advance -----

  function DefaultReferences(taskId: string, conversation: string): References {
    map[ResearchTask := taskId, Conversation := conversation]
  }

  function NewPlan(taskId: string, owner: string, workspace: string, conversation: string, taskVersion: int,
                   idempotencyKey: string, references: Option<References>, iteration: int, progress: Option<string>)
    : Result<Plan>
  {
    PlanAtStage(taskId, owner, workspace, conversation, taskVersion, StrategyDraft, idempotencyKey, references,
                iteration, None, progress)
  }

  /** The single non-cancelled status of a stage. */
  function StageStatus(s: Stage): Status {
    if s == Completed then Finished
    else if Active in Spec(s).statuses then Active
    else if Blocked in Spec(s).statuses then Blocked
    else Waiting
  }

  function PlanAtStage(taskId: string, owner: string, workspace: string, conversation: string, taskVersion: int,
                       stage: Stage, idempotencyKey: string, references: Option<References>, iteration: int,
                       approval: Option<Approval>, progress: Option<string>): Result<Plan>
  {
    var spec := Spec(stage);
    if spec.approval.Some? && approval.None? then Err("research execution plan stage requires its bound approval")
    else Validated(
      Plan(taskId, 1, taskVersion, owner, workspace, conversation, stage, iteration, StageStatus(stage), spec.action,
           if references.Some? then references.value else DefaultReferences(taskId, conversation),
           spec.prerequisites, spec.postcondition, approval, idempotencyKey, CapabilityList(spec.action), progress))
  }

  /** A new plan exists exactly for well-formed identities, versions and references and a round within bounds; it then
      stands at the first stage, with version one and no approval. */
  lemma NewPlanExactly(taskId: string, owner: string, workspace: string, conversation: string, taskVersion: int,
                       key: string, references: Option<References>, iteration: int, progress: Option<string>)
    ensures var refs := if references.Some? then references.value else DefaultReferences(taskId, conversation);
      NewPlan(taskId, owner, workspace, conversation, taskVersion, key, references, iteration, progress).Ok?
      <==> IsIdentity(taskId) && IsIdentity(owner) && IsIdentity(workspace) && IsIdentity(conversation)
           && taskVersion >= 1 && key != "" && ValidReferences(refs) && 1 <= iteration <= MAX_ROUNDS
           && (progress.Some? ==> IsDigest(progress.value))
    ensures var r := NewPlan(taskId, owner, workspace, conversation, taskVersion, key, references, iteration, progress);
      r.Ok? ==>
        r.value.stage == StrategyDraft && r.value.planVersion == 1 && r.value.approval.None?
        && r.value.iteration == iteration && (references.Some? ==> r.value.references == references.value)
  {
  }

  /** The arguments of one advance. */
  datatype Request = Request(
    expectedPlanVersion: int, expectedTaskVersion: int, nextStage: Stage, iteration: int, status: Status,
    postcondition: Postcondition, idempotencyKey: string, references: Option<References>,
    prerequisites: Option<seq<Prerequisite>>, approval: Option<Approval>, progress: Option<string>)

  function NewReferences(p: Plan, r: Request): References {
    if r.references.Some? then r.references.value else p.references
  }

  /** The terminal plan an advance builds. */
  function TerminalPlan(p: Plan, r: Request): Plan {
    var cancelled := r.status == Cancelled;
    var action := if cancelled then CancelResearch else NotifyUser;
    p.(planVersion := p.planVersion + 1, stage := Completed, iteration := r.iteration,
       status := if cancelled then Cancelled else Finished, action := action, references := NewReferences(p, r),
       prerequisites := [], postcondition := if cancelled then ResearchCancelled else UserNotified,
       approval := None, idempotencyKey := r.idempotencyKey, capabilities := CapabilityList(action),
       progress := r.progress)
  }

  /** The plan an advance builds at any other stage. */
  function StagePlan(p: Plan, r: Request): Plan {
    var spec := Spec(r.nextStage);
    p.(planVersion := p.planVersion + 1, stage := r.nextStage, iteration := r.iteration, status := r.status,
       action := spec.action, references := NewReferences(p, r), prerequisites := spec.prerequisites,
       postcondition := r.postcondition, approval := r.approval, idempotencyKey := r.idempotencyKey,
       capabilities := CapabilityList(spec.action), progress := r.progress)
  }

  function Advance(p: Plan, r: Request): Result<Plan> {
    var spec := Spec(r.nextStage);
    if !ValidPlan(p) then Err("research execution plan is invalid")
    else if p.planVersion != r.expectedPlanVersion then Err("research execution plan version is stale")
    else if p.taskVersion != r.expectedTaskVersion then Err("research execution task version is stale")
    else if !CanTransition(p.stage, r.nextStage) then Err("illegal research execution plan transition")
    else if r.nextStage == IterationComparison && r.iteration != p.iteration then
      Err("iteration comparison must keep the current iteration")
    else if p.stage == IterationComparison && r.nextStage == WaitingForTaskCreateApproval
            && (r.iteration != p.iteration + 1 || r.iteration > MAX_ROUNDS) then
      Err("the next round must advance the iteration by exactly one")
    else if r.nextStage == FinalSelection && r.iteration != MAX_ROUNDS then
      Err("final selection requires the final iteration")
    else if r.status !in spec.statuses then Err("status is invalid for its stage")
    else if r.nextStage == Completed then Validated(TerminalPlan(p, r))
    else if r.prerequisites.Some? && multiset(r.prerequisites.value) != multiset(spec.prerequisites) then
      Err("prerequisites do not match the stage")
    else if r.postcondition != spec.postcondition then Err("expected_postcondition does not match the stage")
    else Validated(StagePlan(p, r))
  }

  // ----- exactly which advances are accepted -----

  /** The iteration rules of the advance: three kinds of edge, and the bound on every plan. */
  predicate IterationAllowed(p: Plan, next: Stage, iteration: int) {
    && 1 <= iteration <= MAX_ROUNDS
    && (next == IterationComparison ==> iteration == p.iteration)
    && (p.stage == IterationComparison && next == WaitingForTaskCreateApproval ==> iteration == p.iteration + 1)
    && (next == FinalSelection ==> iteration == MAX_ROUNDS)
  }

  /** The approval a non-terminal stage needs: none, or one bound to the version and to the referenced resource. */
  predicate ApprovalBound(a: Option<Approval>, required: Option<Requirement>, planVersion: int, taskVersion: int,
                          refs: References)
  {
    if required.None? then a.None?
    else
      && a.Some? && a.value.action == required.value.action && a.value.kind == required.value.kind
      && (a.value.digest.Some? ==> WellFormedDigest(a.value.digest.value))
      && a.value.planVersion == planVersion && a.value.taskVersion == taskVersion
      && a.value.kind in refs && refs[a.value.kind] == a.value.resourceId
  }

  predicate WellFormedRequest(p: Plan, r: Request) {
    && r.expectedPlanVersion == p.planVersion && r.expectedTaskVersion == p.taskVersion
    && r.idempotencyKey != "" && ValidReferences(NewReferences(p, r))
    && (r.progress.Some? ==> IsDigest(r.progress.value))
  }

  /** What a caller can check before an advance. */
  predicate Acceptable(p: Plan, r: Request) {
    && ValidPlan(p) && WellFormedRequest(p, r)
    && CanTransition(p.stage, r.nextStage) && IterationAllowed(p, r.nextStage, r.iteration)
    && r.status in Spec(r.nextStage).statuses
    && (r.nextStage != Completed ==>
          && (r.prerequisites.Some? ==> multiset(r.prerequisites.value) == multiset(Spec(r.nextStage).prerequisites))
          && r.postcondition == Spec(r.nextStage).postcondition
          && ApprovalBound(r.approval, Spec(r.nextStage).approval, p.planVersion + 1, p.taskVersion,
                           NewReferences(p, r)))
  }

  lemma CapabilitiesOfStage(s: Stage, p: Plan)
    requires p.stage == s
    requires if s == Completed then p.action in {NotifyUser, CancelResearch} else p.action == Spec(s).action
    requires p.capabilities == CapabilityList(p.action)
    ensures ValidCapabilities(p)
    ensures RequirementOf(p) == Spec(s).approval
  {
  }

  /** The built plan is valid exactly under the conditions on what the caller supplied. */
  lemma StagePlanValid(p: Plan, r: Request)
    requires ValidPlan(p) && r.nextStage != Completed && r.status in Spec(r.nextStage).statuses
    requires r.postcondition == Spec(r.nextStage).postcondition
    ensures var q := StagePlan(p, r);
            ValidPlan(q) <==>
              && ValidRound(q) && ValidReferences(NewReferences(p, r)) && r.idempotencyKey != ""
              && (r.progress.Some? ==> IsDigest(r.progress.value))
              && ValidApproval(q.approval, q, Spec(r.nextStage).approval)
  {
    CapabilitiesOfStage(r.nextStage, StagePlan(p, r));
  }

  lemma TerminalPlanValid(p: Plan, r: Request)
    requires ValidPlan(p) && r.nextStage == Completed && r.status in {Finished, Cancelled}
    ensures var q := TerminalPlan(p, r);
            ValidPlan(q) <==>
              && ValidRound(q) && ValidReferences(NewReferences(p, r)) && r.idempotencyKey != ""
              && (r.progress.Some? ==> IsDigest(r.progress.value))
  {
    CapabilitiesOfStage(Completed, TerminalPlan(p, r));
  }

  lemma ApprovalBoundExactly(a: Option<Approval>, q: Plan, required: Option<Requirement>)
    requires q.planVersion >= 1 && q.taskVersion >= 1 && ValidReferences(q.references)
    ensures ValidApproval(a, q, required) <==>
            ApprovalBound(a, required, q.planVersion, q.taskVersion, q.references)
  {
  }

  /** An advance is accepted exactly when the request is acceptable. */
  lemma AdvanceExactly(p: Plan, r: Request)
    ensures Advance(p, r).Ok? <==> Acceptable(p, r)
    ensures Acceptable(p, r) ==>
              Advance(p, r).value == if r.nextStage == Completed then TerminalPlan(p, r) else StagePlan(p, r)
  {
    if r.nextStage == Completed {
      AdvanceToEnd(p, r);
    } else {
      AdvanceToStage(p, r);
    }
  }

  lemma AdvanceToEnd(p: Plan, r: Request)
    requires r.nextStage == Completed
    ensures Advance(p, r).Ok? <==> Acceptable(p, r)
    ensures Acceptable(p, r) ==> Advance(p, r).value == TerminalPlan(p, r)
  {
    if ValidPlan(p) && r.status in Spec(r.nextStage).statuses {
      TerminalPlanValid(p, r);
    }
  }

  lemma AdvanceToStage(p: Plan, r: Request)
    requires r.nextStage != Completed
    ensures Advance(p, r).Ok? <==> Acceptable(p, r)
    ensures Acceptable(p, r) ==> Advance(p, r).value == StagePlan(p, r)
  {
    StageChecksDecide(p, r);
    if StageChecks(p, r) {
      var q := StagePlan(p, r);
      StagePlanValid(p, r);
      if ValidReferences(q.references) {
        ApprovalBoundExactly(q.approval, q, Spec(r.nextStage).approval);
      }
    }
  }

  /** What an advance to another stage than the last checks before it builds the plan. */
  predicate StageChecks(p: Plan, r: Request) {
    && ValidPlan(p) && r.expectedPlanVersion == p.planVersion && r.expectedTaskVersion == p.taskVersion
    && CanTransition(p.stage, r.nextStage) && r.status in Spec(r.nextStage).statuses
    && (r.nextStage == IterationComparison ==> r.iteration == p.iteration)
    && (p.stage == IterationComparison && r.nextStage == WaitingForTaskCreateApproval ==>
          r.iteration == p.iteration + 1 <= MAX_ROUNDS)
    && (r.nextStage == FinalSelection ==> r.iteration == MAX_ROUNDS)
    && (r.prerequisites.Some? ==> multiset(r.prerequisites.value) == multiset(Spec(r.nextStage).prerequisites))
    && r.postcondition == Spec(r.nextStage).postcondition
  }

  lemma StageChecksDecide(p: Plan, r: Request)
    requires r.nextStage != Completed
    ensures Advance(p, r) == Ok(StagePlan(p, r)) || Advance(p, r).Err?
    ensures Advance(p, r).Ok? <==> StageChecks(p, r) && ValidPlan(StagePlan(p, r))
  {
    if StageChecks(p, r) {
      CheckedAdvance(p, r);
    } else {
      UncheckedAdvance(p, r);
    }
  }

  lemma CheckedAdvance(p: Plan, r: Request)
    requires r.nextStage != Completed && StageChecks(p, r)
    ensures Advance(p, r) == Validated(StagePlan(p, r))
  {
  }

  lemma UncheckedAdvance(p: Plan, r: Request)
    requires r.nextStage != Completed && !StageChecks(p, r)
    ensures Advance(p, r).Err?
  {
  }

  // ----- what the advance keeps -----

  /** What one accepted advance does, whatever was asked: the CAS versions, the identity of the plan, the
      legal edge, and the only three iteration rules it enforces. */
  lemma AdvanceEffects(p: Plan, r: Request)
    requires Advance(p, r).Ok?
    ensures var q := Advance(p, r).value;
            && ValidPlan(p) && ValidPlan(q)
            && q.planVersion == p.planVersion + 1 && q.taskVersion == p.taskVersion
            && q.taskId == p.taskId && q.owner == p.owner && q.workspace == p.workspace
            && q.conversation == p.conversation
            && q.stage == r.nextStage && q.iteration == r.iteration && CanTransition(p.stage, q.stage)
            && (q.approval.Some? ==> q.approval.value.planVersion == p.planVersion + 1)
            && (q.stage == IterationComparison ==> q.iteration == p.iteration)
            && (p.stage == IterationComparison && q.stage == WaitingForTaskCreateApproval ==>
                  q.iteration == p.iteration + 1)
            && (q.stage == FinalSelection ==> q.iteration == MAX_ROUNDS)
  {
    AdvanceValid(p, r);
    AdvanceExactly(p, r);
    AcceptableApproval(p, r);
  }

  lemma AdvanceValid(p: Plan, r: Request)
    requires Advance(p, r).Ok?
    ensures ValidPlan(p) && ValidPlan(Advance(p, r).value)
  {
  }

  lemma AcceptableApproval(p: Plan, r: Request)
    requires Acceptable(p, r)
    ensures r.nextStage != Completed && r.approval.Some? ==> r.approval.value.planVersion == p.planVersion + 1
  {
  }

  /** A second advance against the same version is refused: the swap happens once. */
  lemma AdvanceOnce(p: Plan, r: Request, again: Request)
    requires Advance(p, r).Ok? && again.expectedPlanVersion == p.planVersion
    ensures Advance(Advance(p, r).value, again).Err?
  {
    AdvanceEffects(p, r);
    StaleVersionRefused(Advance(p, r).value, again);
  }

  lemma StaleVersionRefused(p: Plan, r: Request)
    requires r.expectedPlanVersion != p.planVersion
    ensures Advance(p, r).Err?
  {
  }

  /** The stage table alone keeps a human gate read-only: the capabilities of a gate's action include no write, so
      the validator's own guard against one never decides. */
  lemma HumanGateIsReadOnly(p: Plan)
    requires ValidStage(p) && (set c | c in p.capabilities) == ActionCapabilities(p.action)
    requires p.stage in APPROVAL_WAIT_STAGES
    ensures forall c <- p.capabilities :: !IsWrite(c)
    ensures ValidCapabilities(p)
  {
    forall c | c in p.capabilities ensures !IsWrite(c) {
      assert c in (set x | x in p.capabilities);
      assert c in ActionCapabilities(p.action);
    }
  }

  /** The stage table names the approval required at every human gate, so the lookup by action never decides there. */
  lemma HumanGateNeedsApproval(p: Plan)
    requires p.stage in APPROVAL_WAIT_STAGES
    ensures RequirementOf(p).Some? && RequirementOf(p) == Spec(p.stage).approval
  {
  }

  /** Cancellation is not available from every non-terminal stage: two have no edge to it. */
  lemma CancellableStages(s: Stage)
    ensures CanTransition(s, Completed) <==> s !in {FinalSelection, NeedsAttention, Completed}
  {
  }
}
