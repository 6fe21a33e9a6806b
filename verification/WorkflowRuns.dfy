/** Whole runs of the research workflow: they terminate, their model calls are bounded, and an approval
    digest never outlives its plan. */
module WorkflowRuns {
  import opened Outcomes
  import opened ResearchPlan
  import PlanApproval
  import opened ResearchJudgment

  /** One accepted advance. */
  ghost predicate Advances(p: Plan, q: Plan) {
    exists r :: Advance(p, r) == Ok(q)
  }

  /** A run changes its round only where a decision names one: at the revision edge. */
  predicate KeepsRound(p: Plan, q: Plan) {
    q.iteration != p.iteration ==> p.stage == IterationComparison && q.stage == WaitingForTaskCreateApproval
  }

  /** Plans joined by accepted advances. */
  ghost predicate Linked(run: seq<Plan>)
    decreases |run|
  {
    run != [] && (|run| > 1 ==> Advances(run[0], run[1]) && Linked(run[1..]))
  }

  ghost predicate Run(run: seq<Plan>) {
    Linked(run) && ValidPlan(run[0])
  }

  /** A run that never needs attention. */
  predicate AttentionFree(run: seq<Plan>)
    decreases |run|
  {
    run != [] ==> run[0].stage != NeedsAttention && AttentionFree(run[1..])
  }

  /** A run that keeps its round but for revisions. */
  predicate RoundKeeping(run: seq<Plan>)
    decreases |run|
  {
    |run| > 1 ==> KeepsRound(run[0], run[1]) && RoundKeeping(run[1..])
  }

  predicate Disciplined(run: seq<Plan>) { AttentionFree(run) && RoundKeeping(run) }

  /** What an accepted advance shows of the two plans. */
  predicate Edge(p: Plan, q: Plan) {
    && CanTransition(p.stage, q.stage)
    && q.planVersion == p.planVersion + 1 && q.taskVersion == p.taskVersion && q.taskId == p.taskId
    && 1 <= p.iteration <= MAX_ROUNDS && 1 <= q.iteration <= MAX_ROUNDS
    && (p.stage == IterationComparison && q.stage == WaitingForTaskCreateApproval ==> q.iteration == p.iteration + 1)
    && (p.stage == FinalSelection ==> p.iteration == MAX_ROUNDS)
    && (q.stage == FinalSelection ==> q.iteration == MAX_ROUNDS)
  }

  lemma AdvancesEdge(p: Plan, q: Plan)
    requires Advances(p, q)
    ensures Edge(p, q)
  {
    var r :| Advance(p, r) == Ok(q);
    AdvanceEffects(p, r);
  }

  lemma AdvancesValid(p: Plan, q: Plan)
    requires Advances(p, q)
    ensures ValidPlan(q)
    ensures q.planVersion == p.planVersion + 1 && q.taskVersion == p.taskVersion && q.taskId == p.taskId
  {
    var r :| Advance(p, r) == Ok(q);
    AdvanceEffects(p, r);
  }

  lemma {:induction false} RunValid(run: seq<Plan>, i: nat)
    requires Run(run) && i < |run|
    ensures ValidPlan(run[i])
    decreases i
  {
    if i > 0 {
      LinkedTail(run);
      RunValid(run[1..], i - 1);
    }
  }

  lemma LinkedTail(run: seq<Plan>)
    requires Linked(run) && |run| > 1
    ensures Run(run[1..])
  {
    AdvancesValid(run[0], run[1]);
    assert run[1..][0] == run[1];
  }

  // ----- termination -----

  /** How many advances are left at most: eight for every further round, and the rest of this one. */
  function Remaining(s: Stage, iteration: int): int {
    var rounds := 8 * (MAX_ROUNDS - iteration);
    match s
    case StrategyDraft => rounds + 13
    case WaitingForStrategyApproval => rounds + 12
    case WaitingForTaskCreateApproval => rounds + 11
    case ReadyToCreateBacktestTask => rounds + 10
    case WaitingForData => rounds + 9
    case WaitingForTaskExecuteApproval => rounds + 8
    case ReadyToExecuteBacktestTask => rounds + 7
    case WaitingForBacktestJob => rounds + 6
    case BacktestAnalysis => rounds + 5
    case IterationComparison => rounds + 4
    case FinalSelection => 3
    case WaitingForPaperAccountApproval => 2
    case ReadyToCreatePaperAccount => 1
    case NeedsAttention => 0
    case Completed => 0
  }

  lemma StageRemaining(s: Stage, i: int, t: Stage, j: int)
    requires CanTransition(s, t) && s != NeedsAttention && t != NeedsAttention
    requires 1 <= i <= MAX_ROUNDS && 1 <= j <= MAX_ROUNDS
    requires if s == IterationComparison && t == WaitingForTaskCreateApproval then j == i + 1 else j == i
    requires t == FinalSelection ==> j == MAX_ROUNDS
    ensures 0 <= Remaining(t, j) < Remaining(s, i)
  {
  }

  lemma RemainingDecreases(p: Plan, q: Plan)
    requires Edge(p, q) && p.stage != NeedsAttention && q.stage != NeedsAttention && KeepsRound(p, q)
    ensures 0 <= Remaining(q.stage, q.iteration) < Remaining(p.stage, p.iteration)
  {
    StageRemaining(p.stage, p.iteration, q.stage, q.iteration);
  }

  lemma RemainingNonNegative(p: Plan)
    requires ValidPlan(p)
    ensures Remaining(p.stage, p.iteration) >= 0 && JudgmentsLeft(p.stage, p.iteration) >= 0
    ensures p.stage in JUDGMENT_STAGES ==> JudgmentsLeft(p.stage, p.iteration) >= 1
  {
    assert ValidRound(p);
  }

  lemma RunTail(run: seq<Plan>)
    requires Run(run) && Disciplined(run) && |run| > 1
    ensures Run(run[1..]) && Disciplined(run[1..]) && run[1..][0] == run[1]
    ensures Edge(run[0], run[1]) && KeepsRound(run[0], run[1])
    ensures run[0].stage != NeedsAttention && run[1].stage != NeedsAttention
  {
    AdvancesEdge(run[0], run[1]);
    AdvancesValid(run[0], run[1]);
    assert run[1..][0] == run[1] && Disciplined(run[1..]);
  }

  lemma {:induction false} RunBounded(run: seq<Plan>)
    requires Run(run) && Disciplined(run)
    ensures |run| - 1 <= Remaining(run[0].stage, run[0].iteration)
    decreases |run|
  {
    if |run| > 1 {
      RunTail(run);
      RemainingDecreases(run[0], run[1]);
      RunBounded(run[1..]);
    } else {
      RemainingNonNegative(run[0]);
    }
  }

  /** From a fresh plan at round one, at most 29 advances. */
  lemma FreshRunTerminates(run: seq<Plan>, taskId: string, owner: string, workspace: string, conversation: string,
                           taskVersion: int, key: string, references: Option<References>, progress: Option<string>)
    requires Run(run) && Disciplined(run)
    requires NewPlan(taskId, owner, workspace, conversation, taskVersion, key, references, 1, progress) == Ok(run[0])
    ensures |run| - 1 <= 29
  {
    RunBounded(run);
  }

  // ----- the bound is attained -----

  /** The longest way on from a stage: the full chain, a revision while rounds are left. */
  function LongestNext(s: Stage, iteration: int): Stage
    requires s !in {NeedsAttention, Completed}
  {
    match s
    case StrategyDraft => WaitingForStrategyApproval
    case WaitingForStrategyApproval => WaitingForTaskCreateApproval
    case WaitingForTaskCreateApproval => ReadyToCreateBacktestTask
    case ReadyToCreateBacktestTask => WaitingForData
    case WaitingForData => WaitingForTaskExecuteApproval
    case WaitingForTaskExecuteApproval => ReadyToExecuteBacktestTask
    case ReadyToExecuteBacktestTask => WaitingForBacktestJob
    case WaitingForBacktestJob => BacktestAnalysis
    case BacktestAnalysis => IterationComparison
    case IterationComparison => if iteration < MAX_ROUNDS then WaitingForTaskCreateApproval else FinalSelection
    case FinalSelection => WaitingForPaperAccountApproval
    case WaitingForPaperAccountApproval => ReadyToCreatePaperAccount
    case ReadyToCreatePaperAccount => Completed
  }

  /** The resources whose approvals the full chain binds. */
  predicate FullyReferenced(p: Plan) {
    StrategyVersion in p.references && BacktestTask in p.references && ResearchTask in p.references
  }

  /** The advance to a stage: its own status, postcondition and bound approval, and nothing else changed. */
  function PlainRequest(p: Plan, next: Stage, iteration: int): Request
    requires FullyReferenced(p)
  {
    Request(p.planVersion, p.taskVersion, next, iteration, StageStatus(next), Spec(next).postcondition,
            p.idempotencyKey, None, None, RequiredApproval(p, next), p.progress)
  }

  lemma PlainRequestWellFormed(p: Plan, next: Stage, iteration: int)
    requires ValidPlan(p) && FullyReferenced(p)
    ensures WellFormedRequest(p, PlainRequest(p, next, iteration))
  {
  }

  lemma PlainApprovalBound(p: Plan, next: Stage)
    requires FullyReferenced(p)
    ensures ApprovalBound(RequiredApproval(p, next), Spec(next).approval, p.planVersion + 1, p.taskVersion,
                          p.references)
  {
    StageStatusLegal(next);
  }

  lemma PlainRequestAcceptable(p: Plan, next: Stage, iteration: int)
    requires ValidPlan(p) && FullyReferenced(p)
    requires CanTransition(p.stage, next) && IterationAllowed(p, next, iteration)
    ensures Acceptable(p, PlainRequest(p, next, iteration))
  {
    StageStatusLegal(next);
    PlainRequestWellFormed(p, next, iteration);
    PlainApprovalBound(p, next);
  }

  /** The accepted advance to a stage, and what it leaves. */
  lemma PlainAdvance(p: Plan, next: Stage, iteration: int) returns (q: Plan)
    requires ValidPlan(p) && FullyReferenced(p)
    requires CanTransition(p.stage, next) && IterationAllowed(p, next, iteration)
    ensures Advances(p, q) && ValidPlan(q) && FullyReferenced(q) && q.stage == next && q.iteration == iteration
    ensures q.references == p.references && (next != Completed ==> q.approval == RequiredApproval(p, next))
  {
    var r := PlainRequest(p, next, iteration);
    PlainRequestAcceptable(p, next, iteration);
    AdvanceExactly(p, r);
    q := Advance(p, r).value;
    AdvanceEffects(p, r);
  }

  lemma StageStatusLegal(s: Stage)
    ensures StageStatus(s) in Spec(s).statuses
    ensures Spec(s).approval.Some? ==> Spec(s).approval.value.kind in {StrategyVersion, BacktestTask, ResearchTask}
  {
  }

  /** The round the longest way goes on in. */
  function LongestRound(s: Stage, iteration: int): int {
    if s == IterationComparison && iteration < MAX_ROUNDS then iteration + 1 else iteration
  }

  lemma LongestStep(s: Stage, i: int)
    requires s !in {NeedsAttention, Completed} && 1 <= i <= MAX_ROUNDS && (s == FinalSelection ==> i == MAX_ROUNDS)
    ensures CanTransition(s, LongestNext(s, i)) && LongestNext(s, i) != NeedsAttention
    ensures Remaining(LongestNext(s, i), LongestRound(s, i)) == Remaining(s, i) - 1
    ensures forall p: Plan :: p.stage == s && p.iteration == i ==>
              IterationAllowed(p, LongestNext(s, i), LongestRound(s, i))
  {
  }

  lemma LongestJudgments(s: Stage, i: int)
    requires s !in {NeedsAttention, Completed} && 1 <= i <= MAX_ROUNDS
    ensures 2 * JudgmentsLeft(LongestNext(s, i), LongestRound(s, i)) == 2 * JudgmentsLeft(s, i) - |MostCalls(s)|
  {
  }

  /** A disciplined advance that lowers the measure by exactly one, and uses up one judgment stage if it leaves one. */
  lemma LongestAdvance(p: Plan) returns (q: Plan)
    requires ValidPlan(p) && FullyReferenced(p) && p.stage !in {NeedsAttention, Completed}
    ensures Advances(p, q) && KeepsRound(p, q) && ValidPlan(q) && FullyReferenced(q) && q.stage != NeedsAttention
    ensures Remaining(q.stage, q.iteration) == Remaining(p.stage, p.iteration) - 1
    ensures 2 * JudgmentsLeft(q.stage, q.iteration) == 2 * JudgmentsLeft(p.stage, p.iteration) - |MostCalls(p.stage)|
  {
    var next, round := LongestNext(p.stage, p.iteration), LongestRound(p.stage, p.iteration);
    assert ValidRound(p);
    LongestStep(p.stage, p.iteration);
    LongestJudgments(p.stage, p.iteration);
    q := PlainAdvance(p, next, round);
  }

  /** From every valid plan with the needed references there is a disciplined run of exactly that many
      advances, with two fenced calls at every judgment stage left: neither measure is only a bound. */
  lemma {:induction false} LongestRun(p: Plan) returns (run: seq<Plan>)
    requires ValidPlan(p) && FullyReferenced(p) && p.stage != NeedsAttention
    ensures Run(run) && Disciplined(run) && run[0] == p
    ensures |run| - 1 == Remaining(p.stage, p.iteration) && run[|run| - 1].stage == Completed
    ensures TotalCalls(MostCallsOf(run)) == 2 * JudgmentsLeft(p.stage, p.iteration)
    decreases Remaining(p.stage, p.iteration)
  {
    if p.stage == Completed {
      run := [p];
      FirstCalls(p, []);
    } else {
      RemainingNonNegative(p);
      var q := LongestAdvance(p);
      var rest := LongestRun(q);
      run := [p] + rest;
      LongerByOne(p, rest);
    }
  }

  lemma LongerByOne(p: Plan, rest: seq<Plan>)
    requires Run(rest) && Disciplined(rest) && Advances(p, rest[0]) && KeepsRound(p, rest[0])
    requires ValidPlan(p) && p.stage != NeedsAttention
    ensures Run([p] + rest) && Disciplined([p] + rest) && ([p] + rest)[|rest|] == rest[|rest| - 1]
    ensures TotalCalls(MostCallsOf([p] + rest)) == |MostCalls(p.stage)| + TotalCalls(MostCallsOf(rest))
  {
    Prepend(p, rest);
    FirstCalls(p, rest);
  }

  lemma Prepend(p: Plan, rest: seq<Plan>)
    requires Run(rest) && Disciplined(rest) && Advances(p, rest[0]) && KeepsRound(p, rest[0])
    requires ValidPlan(p) && p.stage != NeedsAttention
    ensures Run([p] + rest) && Disciplined([p] + rest)
  {
    assert ([p] + rest)[1..] == rest;
  }

  /** Without the first half of the discipline there is no bound: through `needs_attention` runs of every length
      exist, even keeping their round. */
  lemma {:induction false} AttentionRunsUnbounded(p: Plan, n: nat) returns (run: seq<Plan>)
    requires ValidPlan(p) && FullyReferenced(p) && p.stage in {StrategyDraft, NeedsAttention}
    ensures Run(run) && RoundKeeping(run) && run[0] == p && |run| == n + 1
    decreases n
  {
    if n == 0 {
      run := [p];
    } else {
      var next := if p.stage == StrategyDraft then NeedsAttention else StrategyDraft;
      assert ValidRound(p);
      var q := PlainAdvance(p, next, p.iteration);
      var rest := AttentionRunsUnbounded(q, n - 1);
      run := [p] + rest;
      assert run[1..] == rest;
    }
  }

  /** One round of backtests, from its approval to its comparison and back. */
  predicate InCycle(s: Stage) {
    s in {WaitingForTaskCreateApproval, ReadyToCreateBacktestTask, WaitingForData, WaitingForTaskExecuteApproval,
          ReadyToExecuteBacktestTask, WaitingForBacktestJob, BacktestAnalysis, IterationComparison}
  }

  /** The cycle falls back to round one after every approval, which `advance` allows. */
  function CycleRound(s: Stage): int { if s == IterationComparison then 2 else 1 }

  lemma CycleStep(s: Stage, i: int)
    requires InCycle(s) && (s == WaitingForTaskCreateApproval || i == 1)
    ensures var t := LongestNext(s, 1);
      InCycle(t) && CanTransition(s, t) && (t == WaitingForTaskCreateApproval || CycleRound(s) == 1)
    ensures forall p: Plan :: p.stage == s && p.iteration == i ==> IterationAllowed(p, LongestNext(s, 1), CycleRound(s))
  {
  }

  /** Without the second half there is none either: when the round may fall back, runs of every length never need
      attention. */
  lemma {:induction false} RoundRunsUnbounded(p: Plan, n: nat) returns (run: seq<Plan>)
    requires ValidPlan(p) && FullyReferenced(p) && InCycle(p.stage)
    requires p.stage == WaitingForTaskCreateApproval || p.iteration == 1
    ensures Run(run) && AttentionFree(run) && run[0] == p && |run| == n + 1
    decreases n
  {
    if n == 0 {
      run := [p];
    } else {
      CycleStep(p.stage, p.iteration);
      var q := PlainAdvance(p, LongestNext(p.stage, 1), CycleRound(p.stage));
      var rest := RoundRunsUnbounded(q, n - 1);
      run := [p] + rest;
      assert run[1..] == rest;
    }
  }

  // ----- model calls -----

  /** How many judgment stages, this one included, a disciplined run may still stay at. */
  function JudgmentsLeft(s: Stage, iteration: int): int {
    var rounds := 2 * (MAX_ROUNDS - iteration);
    match s
    case StrategyDraft => rounds + 4
    case FinalSelection => 1
    case IterationComparison => rounds + 2
    case WaitingForPaperAccountApproval | ReadyToCreatePaperAccount | NeedsAttention | Completed => 0
    case _ => rounds + 3
  }

  /** The model calls of a run: one record of fenced calls for every plan of it. */
  ghost predicate FencedRun(run: seq<Plan>, calls: seq<seq<bool>>) {
    |calls| == |run| && forall i :: 0 <= i < |run| ==> FencedCalls(run[i].stage, calls[i])
  }

  function TotalCalls(calls: seq<seq<bool>>): nat {
    if calls == [] then 0 else |calls[0]| + TotalCalls(calls[1..])
  }

  lemma StageJudgments(s: Stage, i: int, t: Stage, j: int)
    requires CanTransition(s, t) && s != NeedsAttention && t != NeedsAttention
    requires 1 <= i <= MAX_ROUNDS && 1 <= j <= MAX_ROUNDS
    requires if s == IterationComparison && t == WaitingForTaskCreateApproval then j == i + 1 else j == i
    requires t == FinalSelection ==> j == MAX_ROUNDS
    ensures 0 <= JudgmentsLeft(t, j) <= JudgmentsLeft(s, i) - (if s in JUDGMENT_STAGES then 1 else 0)
  {
  }

  lemma FencedTail(run: seq<Plan>, calls: seq<seq<bool>>)
    requires FencedRun(run, calls) && |run| > 1
    ensures FencedRun(run[1..], calls[1..])
  {
    assert forall i :: 0 <= i < |run| - 1 ==> run[1..][i] == run[i + 1] && calls[1..][i] == calls[i + 1];
  }

  lemma {:induction false} CallsBounded(run: seq<Plan>, calls: seq<seq<bool>>)
    requires Run(run) && Disciplined(run) && FencedRun(run, calls)
    ensures TotalCalls(calls) <= 2 * JudgmentsLeft(run[0].stage, run[0].iteration)
    decreases |run|
  {
    FenceBound(run[0].stage, calls[0]);
    RemainingNonNegative(run[0]);
    if |run| > 1 {
      RunTail(run);
      StageJudgments(run[0].stage, run[0].iteration, run[1].stage, run[1].iteration);
      FencedTail(run, calls);
      CallsBounded(run[1..], calls[1..]);
    } else {
      assert TotalCalls(calls[1..]) == 0;
    }
  }

  /** From a fresh plan at round one, at most 16 model calls. */
  lemma FreshRunModelCalls(run: seq<Plan>, calls: seq<seq<bool>>, taskId: string, owner: string, workspace: string,
                           conversation: string, taskVersion: int, key: string, references: Option<References>,
                           progress: Option<string>)
    requires Run(run) && Disciplined(run) && FencedRun(run, calls)
    requires NewPlan(taskId, owner, workspace, conversation, taskVersion, key, references, 1, progress) == Ok(run[0])
    ensures TotalCalls(calls) <= 16
  {
    CallsBounded(run, calls);
  }

  /** The model calls the fence allows at a stage: two at a judgment stage, the first of them with progress. */
  function MostCalls(s: Stage): seq<bool> { if s in JUDGMENT_STAGES then [true, false] else [] }

  lemma MostCallsFenced(s: Stage)
    ensures FencedCalls(s, MostCalls(s)) && |MostCalls(s)| == (if s in JUDGMENT_STAGES then 2 else 0)
  {
    FenceBound(s, MostCalls(s));
  }

  /** Those calls at every plan of a run. */
  function MostCallsOf(run: seq<Plan>): seq<seq<bool>> {
    if run == [] then [] else [MostCalls(run[0].stage)] + MostCallsOf(run[1..])
  }

  lemma {:induction false} MostCallsOfFenced(run: seq<Plan>)
    ensures FencedRun(run, MostCallsOf(run))
  {
    if run != [] {
      MostCallsFenced(run[0].stage);
      MostCallsOfFenced(run[1..]);
    }
  }

  lemma FirstCalls(p: Plan, rest: seq<Plan>)
    ensures TotalCalls(MostCallsOf([p] + rest)) == |MostCalls(p.stage)| + TotalCalls(MostCallsOf(rest))
  {
    assert ([p] + rest)[1..] == rest;
    assert ([MostCalls(p.stage)] + MostCallsOf(rest))[1..] == MostCallsOf(rest);
  }

  /** From a fresh plan that names its resources there is a run of exactly 29 advances and 16 model calls. */
  lemma FreshRunAttainsBounds(taskId: string, owner: string, workspace: string, conversation: string, taskVersion: int,
                              key: string, references: References, progress: Option<string>)
    returns (run: seq<Plan>, calls: seq<seq<bool>>)
    requires NewPlan(taskId, owner, workspace, conversation, taskVersion, key, Some(references), 1, progress).Ok?
    requires StrategyVersion in references && BacktestTask in references && ResearchTask in references
    ensures Run(run) && Disciplined(run) && FencedRun(run, calls)
    ensures Ok(run[0])
            == NewPlan(taskId, owner, workspace, conversation, taskVersion, key, Some(references), 1, progress)
    ensures |run| - 1 == 29 && TotalCalls(calls) == 16
  {
    var p := NewPlan(taskId, owner, workspace, conversation, taskVersion, key, Some(references), 1, progress).value;
    NewPlanExactly(taskId, owner, workspace, conversation, taskVersion, key, Some(references), 1, progress);
    run := LongestRun(p);
    calls := MostCallsOf(run);
    MostCallsOfFenced(run);
  }

  /** Such a plan exists. */
  lemma FreshPlanExists()
    ensures NewPlan("task", "owner", "space", "talk", 1, "key",
                    Some(map[StrategyVersion := "v", BacktestTask := "b", ResearchTask := "t"]), 1, None).Ok?
  {
    NewPlanExactly("task", "owner", "space", "talk", 1, "key",
                   Some(map[StrategyVersion := "v", BacktestTask := "b", ResearchTask := "t"]), 1, None);
  }

  // ----- approvals over runs -----

  predicate NextVersion(p: Plan, q: Plan) {
    q.planVersion == p.planVersion + 1 && q.taskVersion == p.taskVersion && q.taskId == p.taskId
  }

  predicate Versioned(run: seq<Plan>)
    decreases |run|
  {
    |run| > 1 ==> NextVersion(run[0], run[1]) && Versioned(run[1..])
  }

  lemma {:induction false} LinkedVersioned(run: seq<Plan>)
    requires Linked(run)
    ensures Versioned(run)
    decreases |run|
  {
    if |run| > 1 {
      AdvancesValid(run[0], run[1]);
      LinkedVersioned(run[1..]);
    }
  }

  lemma {:induction false} VersionsCount(run: seq<Plan>, i: nat, j: nat)
    requires Versioned(run) && i <= j < |run|
    ensures run[j].planVersion == run[i].planVersion + (j - i)
    ensures run[j].taskId == run[i].taskId && run[j].taskVersion == run[i].taskVersion
    decreases j
  {
    if i > 0 {
      VersionsCount(run[1..], i - 1, j - 1);
    } else if j > 0 {
      VersionsCount(run[1..], 0, j - 1);
    }
  }

  /** Versions count the advances of a run; the task and its version never change. */
  lemma RunVersions(run: seq<Plan>, i: nat, j: nat)
    requires Linked(run) && i <= j < |run|
    ensures run[j].planVersion == run[i].planVersion + (j - i)
    ensures run[j].taskId == run[i].taskId && run[j].taskVersion == run[i].taskVersion
  {
    LinkedVersioned(run);
    VersionsCount(run, i, j);
  }

  /** A digest a human approved at one plan of a run proceeds at no other plan of that run, unless it is
      the paper-account action. */
  lemma ApprovalNeverCarriesOver(run: seq<Plan>, i: nat, j: nat, action: ApprovalAction, kind: Kind, resourceId: string,
                                 human: PlanApproval.Human, action': ApprovalAction, kind': Kind, resourceId': string)
    requires Run(run) && i < |run| && j < |run| && i != j && action != ApprovePaperAccount
    requires PlanApproval.PlanCommandDigest(run[i], action, kind, resourceId).Ok?
    ensures var digest := PlanApproval.PlanCommandDigest(run[i], action, kind, resourceId).value;
            var d := PlanApproval.ApplyApprovalDecision(run[j], human, action', kind', resourceId', digest);
            d.Ok? && !d.value.Proceed?
  {
    RunVersions(run, if i < j then i else j, if i < j then j else i);
    RunValid(run, i);
    RunValid(run, j);
    PlanApproval.DigestRefusedElsewhere(run[i], run[j], action, kind, resourceId, human, action', kind', resourceId');
  }

  /**
   * Exactly where a digest computed at one plan of a run proceeds at another: for the paper account alone, back at
   * its gate, on a human approval of the same command, with the same references and no other digest bound.
   */
  lemma ApprovalCarriesOverExactly(run: seq<Plan>, i: nat, j: nat, action: ApprovalAction, kind: Kind,
                                   resourceId: string, human: PlanApproval.Human, action': ApprovalAction, kind': Kind,
                                   resourceId': string)
    requires Run(run) && i < |run| && j < |run| && i != j
    requires PlanApproval.PlanCommandDigest(run[i], action, kind, resourceId).Ok?
    ensures var digest := PlanApproval.PlanCommandDigest(run[i], action, kind, resourceId).value;
            var d := PlanApproval.ApplyApprovalDecision(run[j], human, action', kind', resourceId', digest);
            d.Ok? && (d.value.Proceed? <==>
              && action == ApprovePaperAccount && run[i].references == run[j].references
              && PlanApproval.AtPaperGate(run[j], human, action', kind', resourceId', digest)
              && kind' == kind && resourceId' == resourceId)
  {
    RunVersions(run, if i < j then i else j, if i < j then j else i);
    RunValid(run, i);
    RunValid(run, j);
    if action == ApprovePaperAccount {
      PlanApproval.PaperDigestProceeds(run[i], run[j], kind, resourceId, human, action', kind', resourceId');
    } else {
      ApprovalNeverCarriesOver(run, i, j, action, kind, resourceId, human, action', kind', resourceId');
    }
  }

  /** And it does carry over: from every fully referenced plan at the paper-account gate a run that keeps its round
      leads through `needs_attention` back to the gate, two versions on, where the old digest proceeds. */
  lemma PaperApprovalCarriesOver(p: Plan) returns (run: seq<Plan>)
    requires ValidPlan(p) && FullyReferenced(p) && p.stage == WaitingForPaperAccountApproval
    ensures Run(run) && RoundKeeping(run) && |run| == 3 && run[0] == p && run[2].planVersion == p.planVersion + 2
    ensures p.approval.Some? && PlanApproval.PlanCommandDigest(p, ApprovePaperAccount, ResearchTask,
                                                               p.approval.value.resourceId).Ok?
    ensures var id := p.approval.value.resourceId;
            var digest := PlanApproval.PlanCommandDigest(p, ApprovePaperAccount, ResearchTask, id).value;
            var d := PlanApproval.ApplyApprovalDecision(run[2], PlanApproval.Approved, ApprovePaperAccount,
                                                        ResearchTask, id, digest);
            d.Ok? && d.value.Proceed?
  {
    PlanApproval.GateApproval(p);
    assert ValidRound(p);
    PaperDetour(p.stage, p.iteration);
    var n := PlainAdvance(p, NeedsAttention, p.iteration);
    var q := PlainAdvance(n, WaitingForPaperAccountApproval, n.iteration);
    run := [p, n, q];
    DetourIsRun(p, n, q);
    AdvancesValid(p, n);
    AdvancesValid(n, q);
    PaperBinding(p);
    PlanApproval.PaperDigestProceeds(p, q, ResearchTask, p.approval.value.resourceId, PlanApproval.Approved,
                                     ApprovePaperAccount, ResearchTask, p.approval.value.resourceId);
  }

  lemma PaperDetour(s: Stage, iteration: int)
    requires s == WaitingForPaperAccountApproval && 1 <= iteration <= MAX_ROUNDS
    ensures CanTransition(s, NeedsAttention) && CanTransition(NeedsAttention, s)
    ensures forall p: Plan :: p.stage == s ==> IterationAllowed(p, NeedsAttention, iteration)
    ensures forall p: Plan :: p.stage == NeedsAttention ==> IterationAllowed(p, s, iteration)
  {
  }

  lemma DetourIsRun(p: Plan, n: Plan, q: Plan)
    requires ValidPlan(p) && Advances(p, n) && Advances(n, q) && KeepsRound(p, n) && KeepsRound(n, q)
    ensures Run([p, n, q]) && RoundKeeping([p, n, q])
  {
    PrependLink(n, [q]);
    PrependLink(p, [n] + [q]);
    assert [p] + ([n] + [q]) == [p, n, q];
  }

  lemma PrependLink(p: Plan, rest: seq<Plan>)
    requires Linked(rest) && RoundKeeping(rest) && Advances(p, rest[0]) && KeepsRound(p, rest[0])
    ensures Linked([p] + rest) && RoundKeeping([p] + rest)
  {
    assert ([p] + rest)[1..] == rest;
  }

  /** The approval at the gate names the plan's own research task. */
  lemma PaperBinding(p: Plan)
    requires ValidPlan(p) && p.stage == WaitingForPaperAccountApproval
    ensures ResearchTask in p.references && p.approval.Some?
    ensures p.approval.value.resourceId == p.references[ResearchTask]
  {
  }

  function PlanAtGate(refs: References, approval: Approval): Plan {
    var s := WaitingForPaperAccountApproval;
    Plan("task", 1, 1, "owner", "space", "talk", s, 3, StageStatus(s), Spec(s).action, refs, Spec(s).prerequisites,
         Spec(s).postcondition, Some(approval), "key", CapabilityList(Spec(s).action), None)
  }

  lemma PaperGateShape(p: Plan)
    requires p.stage == WaitingForPaperAccountApproval && p.status == StageStatus(p.stage)
    requires p.action == Spec(p.stage).action && p.postcondition == Spec(p.stage).postcondition
    requires p.prerequisites == Spec(p.stage).prerequisites && p.capabilities == CapabilityList(p.action)
    ensures ValidStage(p) && ValidCapabilities(p)
    ensures RequirementOf(p) == Some(Requirement(ApprovePaperAccount, ResearchTask))
  {
    StageStatusLegal(p.stage);
    CapabilitiesOfStage(p.stage, p);
  }

  /** There is a fully referenced plan at that gate. */
  lemma PaperGatePlanExists() returns (p: Plan)
    ensures ValidPlan(p) && FullyReferenced(p) && p.stage == WaitingForPaperAccountApproval
  {
    var refs := map[StrategyVersion := "v", BacktestTask := "b", ResearchTask := "t"];
    var approval := Approval(ApprovePaperAccount, ResearchTask, "t", 1, 1, None);
    p := PlanAtGate(refs, approval);
    PaperGateShape(PlanAtGate(refs, approval));
  }
}
