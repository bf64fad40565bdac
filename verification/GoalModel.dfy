/** A goal, its task rows and every single row write the planner makes.

    A task's id is its position in creation order within its goal: rows are only ever
    appended and never deleted, so positions are as unique and as stable as the stored ids.
    `Enabled` says what the rows a write touches look like whenever the code issues it. It
    asks nothing about who issues it, so a sequence of enabled writes covers one runner, user
    input arriving between its writes, and a crash after any of them; and it allows more than
    the code does, so such sequences serve to show what always holds. What can be brought
    about is stated over whole operations, in `GoalFate`. */
module GoalModel {
  import opened Prelude
  import Text

  type TaskId = nat

  datatype TaskKind =
    | LlmReason | ReadFile | WriteCode | SandboxExec | SendMessage
    | WaitInput | WebLookup | MemoryQuery | CredentialRequest | SubagentSpawn

  datatype TaskStatus = Pending | Ready | Running | Blocked | Done | Failed | Skipped

  datatype GoalStatus =
    | GoalDraft | GoalPlanning | GoalApproved | GoalExecuting
    | GoalBlocked | GoalDone | GoalFailed

  datatype Task = Task(
    kind: TaskKind,
    description: string,
    instruction: string,
    status: TaskStatus,
    deps: seq<TaskId>,
    result: Option<string>,
    error: Option<string>,
    blocker: Option<string>,
    attempts: nat,
    maxAttempts: nat)

  datatype Goal = Goal(source: string, channel: string, status: GoalStatus, tasks: seq<Task>)

  /** One task as the planning model describes it; the indices may be any integers. */
  datatype Spec = Spec(kind: TaskKind, description: string, instruction: string, indices: seq<int>)

  const MAX_ATTEMPTS: nat := 3

  function NewTask(spec: Spec, deps: seq<TaskId>): Task {
    Task(spec.kind, spec.description, spec.instruction, Pending, deps, None, None, None, 0, MAX_ATTEMPTS)
  }

  /** A row as a spec describes it, never tried. */
  predicate FromSpec(t: Task, spec: Spec, deps: seq<TaskId>) {
    && t.kind == spec.kind && t.description == spec.description && t.instruction == spec.instruction
    && t.status == Pending && t.deps == deps && t.result == None && t.error == None && t.blocker == None
    && t.attempts == 0 && t.maxAttempts == 3
  }

  lemma NewTaskMeans(spec: Spec, deps: seq<TaskId>)
    ensures FromSpec(NewTask(spec, deps), spec, deps)
  {
  }

  function NewGoal(source: string, channel: string): Goal {
    Goal(source, channel, GoalPlanning, [])
  }

  predicate Settled(t: Task) {
    t.status in {Done, Skipped, Failed}
  }

  predicate AllDone(g: Goal, deps: seq<TaskId>) {
    forall d | d in deps :: d < |g.tasks| && g.tasks[d].status == Done
  }

  predicate IsReady(g: Goal, i: TaskId) {
    i < |g.tasks| && g.tasks[i].status == Pending && AllDone(g, g.tasks[i].deps)
  }

  predicate TakesText(t: Task) {
    t.kind == WaitInput || t.kind == CredentialRequest
  }

  predicate IsApprovalBlocker(t: Task) {
    var reason := Text.Lower(if t.blocker.Some? then t.blocker.value else "");
    Text.Contains(reason, "approval required") || Text.Contains(reason, "confirmation")
  }

  /** The blocked rows user input can resolve. */
  predicate Answerable(t: Task) {
    t.status == Blocked && (TakesText(t) || IsApprovalBlocker(t))
  }

  // --- what the end of a step stores ---

  predicate AllSettled(g: Goal) {
    forall i | 0 <= i < |g.tasks| :: Settled(g.tasks[i])
  }

  predicate AllSettledOrBlocked(g: Goal) {
    forall i | 0 <= i < |g.tasks| :: Settled(g.tasks[i]) || g.tasks[i].status == Blocked
  }

  predicate AnyFailed(g: Goal) {
    exists i | 0 <= i < |g.tasks| :: g.tasks[i].status == Failed
  }

  /** The status the completion check stores; None when it leaves the row alone. */
  function Verdict(g: Goal): Option<GoalStatus> {
    if AllSettled(g) then Some(if AnyFailed(g) then GoalFailed else GoalDone)
    else if AllSettledOrBlocked(g) then Some(GoalBlocked)
    else None
  }

  // --- row writes ---

  datatype Write =
    | Plan(spec: Spec, deps: seq<TaskId>)         // a planned task is inserted
    | Drafted                                     // the plan is ready for review
    | Approve                                     // the plan is approved
    | Execute                                     // execution starts
    | Deny(id: TaskId, reason: string)            // the gate denies a ready task
    | Gate(id: TaskId, reason: string)            // the gate blocks a ready task
    | Start(id: TaskId)
    | Finish(id: TaskId, text: string)
    | Park(id: TaskId, reason: string)            // the executor blocks the task it runs
    | Retry(id: TaskId, error: string)
    | GiveUp(id: TaskId, error: string)
    | Skip(id: TaskId)
    | Insert(id: TaskId, spec: Spec)              // a replacement for a failed task
    | Abort
    | Conclude                                    // the completion check
    | Answer(id: TaskId, text: string)            // user text completes a blocked task
    | Refuse(id: TaskId)
    | Resume(id: TaskId)
    | Reopen                                      // a blocked goal executes again
    | Recover                                     // rows left running by a crash

  predicate HasStatus(g: Goal, i: TaskId, s: TaskStatus) {
    i < |g.tasks| && g.tasks[i].status == s
  }

  /** The executor has the task: its row is running, or blocked by the executor itself. */
  predicate Held(g: Goal, i: TaskId) {
    HasStatus(g, i, Running) || (HasStatus(g, i, Blocked) && TakesText(g.tasks[i]) && g.tasks[i].attempts > 0)
  }

  predicate Enabled(g: Goal, w: Write) {
    match w
    case Plan(_, deps) => g.status == GoalPlanning && forall d | d in deps :: d < |g.tasks|
    case Drafted => g.status == GoalPlanning
    case Approve => g.status in {GoalDraft, GoalApproved, GoalPlanning}
    case Execute => g.status == GoalApproved
    case Deny(i, _) => IsReady(g, i)
    case Gate(i, reason) => IsReady(g, i) && IsApprovalBlocker(g.tasks[i].(blocker := Some(reason)))
    case Start(i) => IsReady(g, i)
    case Finish(i, _) => HasStatus(g, i, Running)
    case Park(i, _) => HasStatus(g, i, Running) && TakesText(g.tasks[i])
    case Retry(i, _) => Held(g, i) && g.tasks[i].attempts < g.tasks[i].maxAttempts
    case GiveUp(i, _) => Held(g, i) && g.tasks[i].attempts >= g.tasks[i].maxAttempts
    case Skip(i) => HasStatus(g, i, Failed)
    case Insert(i, _) => HasStatus(g, i, Failed)
    case Abort => AnyFailed(g)
    case Conclude => Verdict(g).Some?
    case Answer(i, _) => HasStatus(g, i, Blocked) && TakesText(g.tasks[i])
    case Refuse(i) => HasStatus(g, i, Blocked) && !TakesText(g.tasks[i])
    case Resume(i) => HasStatus(g, i, Blocked) && !TakesText(g.tasks[i])
    case Reopen => g.status == GoalBlocked
    case Recover => true
  }

  function PutTask(g: Goal, i: TaskId, t: Task): Goal
    requires i < |g.tasks|
  {
    g.(tasks := g.tasks[i := t])
  }

  /** The rows once a planned task is inserted, whatever the status of the goal. */
  function WithPlanned(g: Goal, spec: Spec, deps: seq<TaskId>): Goal {
    g.(tasks := g.tasks + [NewTask(spec, deps)])
  }

  function WithDraft(g: Goal): Goal {
    g.(status := GoalDraft)
  }

  function Recovered(t: Task): Task {
    if t.status == Running then t.(status := Pending) else t
  }

  function Apply(g: Goal, w: Write): Goal
    requires Enabled(g, w)
  {
    match w
    case Plan(spec, deps) => WithPlanned(g, spec, deps)
    case Drafted => WithDraft(g)
    case Approve => g.(status := GoalApproved)
    case Execute => g.(status := GoalExecuting)
    case Deny(i, reason) => PutTask(g, i, g.tasks[i].(status := Failed, error := Some(reason), blocker := None))
    case Gate(i, reason) => PutTask(g, i, g.tasks[i].(status := Blocked, blocker := Some(reason)))
    case Start(i) => PutTask(g, i, g.tasks[i].(status := Running, attempts := g.tasks[i].attempts + 1))
    case Finish(i, text) => PutTask(g, i, g.tasks[i].(status := Done, result := Some(text)))
    case Park(i, reason) => PutTask(g, i, g.tasks[i].(status := Blocked, blocker := Some(reason)))
    case Retry(i, error) => PutTask(g, i, g.tasks[i].(status := Pending, error := Some(error)))
    case GiveUp(i, error) => PutTask(g, i, g.tasks[i].(status := Failed, error := Some(error)))
    case Skip(i) => PutTask(g, i, g.tasks[i].(status := Skipped))
    case Insert(i, spec) => g.(tasks := g.tasks + [NewTask(spec, g.tasks[i].deps)])
    case Abort => g.(status := GoalFailed)
    case Conclude => g.(status := Verdict(g).value)
    case Answer(i, text) => PutTask(g, i, g.tasks[i].(status := Done, result := Some(text), blocker := None))
    case Refuse(i) => PutTask(g, i, g.tasks[i].(status := Failed, error := Some("User denied approval"), blocker := None))
    case Resume(i) => PutTask(g, i, g.tasks[i].(status := Pending, blocker := None))
    case Reopen => g.(status := GoalExecuting)
    case Recover => g.(tasks := seq(|g.tasks|, i requires 0 <= i < |g.tasks| => Recovered(g.tasks[i])))
  }

  predicate AllEnabled(g: Goal, ws: seq<Write>)
    decreases |ws|
  {
    ws == [] || (Enabled(g, ws[0]) && AllEnabled(Apply(g, ws[0]), ws[1..]))
  }

  function ApplyAll(g: Goal, ws: seq<Write>): Goal
    requires AllEnabled(g, ws)
    decreases |ws|
  {
    if ws == [] then g else ApplyAll(Apply(g, ws[0]), ws[1..])
  }

  lemma OneWrite(g: Goal, w: Write)
    requires Enabled(g, w)
    ensures AllEnabled(g, [w]) && ApplyAll(g, [w]) == Apply(g, w)
  {
    var h := Apply(g, w);
    assert AllEnabled(h, []) && ApplyAll(h, []) == h;
    assert [w][1..] == [];
  }

  lemma {:induction false} ApplyAllAppend(g: Goal, us: seq<Write>, vs: seq<Write>)
    requires AllEnabled(g, us) && AllEnabled(ApplyAll(g, us), vs)
    ensures AllEnabled(g, us + vs) && ApplyAll(g, us + vs) == ApplyAll(ApplyAll(g, us), vs)
    decreases |us|
  {
    if us == [] {
      assert us + vs == vs;
    } else {
      ApplyAllAppend(Apply(g, us[0]), us[1..], vs);
      assert (us + vs)[1..] == us[1..] + vs;
    }
  }

  lemma {:induction false} RunSplits(g: Goal, ws: seq<Write>, k: nat)
    requires k <= |ws| && AllEnabled(g, ws)
    ensures AllEnabled(g, ws[..k]) && AllEnabled(ApplyAll(g, ws[..k]), ws[k..])
    ensures ApplyAll(ApplyAll(g, ws[..k]), ws[k..]) == ApplyAll(g, ws)
    decreases |ws|
  {
    if k == 0 {
      assert ws[..0] == [] && ws[0..] == ws;
    } else {
      RunSplits(Apply(g, ws[0]), ws[1..], k - 1);
      assert ws[..k][1..] == ws[1..][..k - 1] && ws[k..] == ws[1..][k - 1..];
    }
  }
}
