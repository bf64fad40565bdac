/** The stored goals and the engine that advances them. Every method writes rows one at a
    time and is proved to do what its operation in GoalRuns says. */
module GoalEngine {
  import opened Prelude
  import Text
  import opened GoalModel
  import opened GoalSafety
  import opened Approval
  import opened GoalOps
  import opened GoalRuns
  import ArtifactFormat

  type GoalId = nat

  predicate IsBlockedGoal(goals: map<GoalId, Goal>, id: GoalId, source: string, channel: string) {
    id in goals && goals[id].status == GoalBlocked && goals[id].source == source && goals[id].channel == channel
  }

  lemma BlockedAre(goals: map<GoalId, Goal>, source: string, channel: string)
    ensures forall id | id in goals && goals[id].status == GoalBlocked && goals[id].source == source && goals[id].channel == channel ::
              IsBlockedGoal(goals, id, source, channel)
  {
  }

  function RunningCount(tasks: seq<Task>): nat {
    if tasks == [] then 0
    else RunningCount(tasks[..|tasks| - 1]) + (if tasks[|tasks| - 1].status == Running then 1 else 0)
  }

  /** The running rows of all goals with ids below n. */
  function TotalRunning(goals: map<GoalId, Goal>, n: nat): nat {
    if n == 0 then 0 else TotalRunning(goals, n - 1) + (if n - 1 in goals then RunningCount(goals[n - 1].tasks) else 0)
  }

  /** The running rows, as pairs of goal and task, of goals with ids below n. */
  function RunningRows(goals: map<GoalId, Goal>, n: nat): set<(GoalId, TaskId)> {
    set id, i | id in goals && id < n && 0 <= i < |goals[id].tasks| && goals[id].tasks[i].status == Running :: (id, i)
  }

  function OwnRows(id: GoalId, tasks: seq<Task>, n: nat): set<(GoalId, TaskId)>
    requires n <= |tasks|
  {
    set i: TaskId | i < n && tasks[i].status == Running :: (id, i)
  }

  lemma {:induction false} RowsCounted(id: GoalId, tasks: seq<Task>, n: nat)
    requires n <= |tasks|
    ensures |OwnRows(id, tasks, n)| == RunningCount(tasks[..n])
  {
    var rows := OwnRows(id, tasks, n);
    if n == 0 {
      assert rows == {};
    } else {
      RowsCounted(id, tasks, n - 1);
      assert tasks[..n][..n - 1] == tasks[..n - 1];
      var before := OwnRows(id, tasks, n - 1);
      assert rows == before + (if tasks[n - 1].status == Running then {(id, n - 1)} else {});
    }
  }

  /** What recovery counts: the running rows, each once. */
  lemma {:induction false} RunningCounted(goals: map<GoalId, Goal>, n: nat)
    ensures |RunningRows(goals, n)| == TotalRunning(goals, n)
  {
    if n == 0 {
      assert RunningRows(goals, 0) == {};
    } else {
      RunningCounted(goals, n - 1);
      RowsSplit(goals, n);
      hide RunningRows, OwnRows, RunningCount;
      if n - 1 in goals {
        var tasks := goals[n - 1].tasks;
        RowsCounted(n - 1, tasks, |tasks|);
        assert tasks[..|tasks|] == tasks;
      }
    }
  }

  lemma RowsSplit(goals: map<GoalId, Goal>, n: nat)
    requires n > 0
    ensures |RunningRows(goals, n)| ==
            |RunningRows(goals, n - 1)| + (if n - 1 in goals then |OwnRows(n - 1, goals[n - 1].tasks, |goals[n - 1].tasks|)| else 0)
  {
    var before := RunningRows(goals, n - 1);
    if n - 1 in goals {
      var own := OwnRows(n - 1, goals[n - 1].tasks, |goals[n - 1].tasks|);
      assert RunningRows(goals, n) == before + own;
      assert before !! own;
    } else {
      assert RunningRows(goals, n) == before;
    }
  }

  class GoalStore {
    var goals: map<GoalId, Goal>
    var nextGoal: GoalId

    ghost predicate Valid()
      reads this
    {
      forall id | id in goals :: id < nextGoal
    }

    constructor ()
      ensures Valid() && goals == map[] && nextGoal == 0
    {
      goals, nextGoal := map[], 0;
    }

    method SaveGoal(g: Goal) returns (id: GoalId)
      requires Valid()
      modifies this
      ensures Valid() && id == old(nextGoal) && id !in old(goals)
      ensures goals == old(goals)[id := g] && nextGoal == id + 1
    {
      id := nextGoal;
      goals, nextGoal := goals[id := g], nextGoal + 1;
    }

    method UpdateGoalStatus(id: GoalId, status: GoalStatus)
      requires Valid() && id in goals
      modifies this`goals
      ensures Valid() && goals == old(goals)[id := old(goals)[id].(status := status)]
    {
      goals := goals[id := goals[id].(status := status)];
    }

    method SaveTask(id: GoalId, t: Task)
      requires Valid() && id in goals
      modifies this`goals
      ensures Valid() && goals == old(goals)[id := old(goals)[id].(tasks := old(goals)[id].tasks + [t])]
    {
      goals := goals[id := goals[id].(tasks := goals[id].tasks + [t])];
    }

    method UpdateTask(id: GoalId, i: TaskId, row: Task)
      requires Valid() && id in goals && i < |goals[id].tasks|
      modifies this`goals
      ensures Valid() && goals == old(goals)[id := PutTask(old(goals)[id], i, row)]
    {
      goals := goals[id := PutTask(goals[id], i, row)];
    }

    /** The pending tasks whose dependencies are all DONE, in creation order. */
    method GetReadyTasks(id: GoalId) returns (ready: seq<TaskId>)
      requires Valid() && id in goals
      ensures ready == ReadyList(goals[id])
    {
      var all := goals[id].tasks;
      var doneIds := set i | 0 <= i < |all| && all[i].status == Done;
      ready := [];
      var i := 0;
      while i < |all|
        invariant 0 <= i <= |all|
        invariant ready == ReadyUpTo(goals[id], i)
      {
        if all[i].status == Pending && forall d | d in all[i].deps :: d in doneIds {
          ready := ready + [i];
        }
        i := i + 1;
      }
    }

    /** The most recently created blocked goal of a conversation. */
    method FindBlockedGoal(source: string, channel: string) returns (found: Option<GoalId>)
      requires Valid()
      ensures found.Some? ==>
                && found.value in goals && goals[found.value].status == GoalBlocked
                && goals[found.value].source == source && goals[found.value].channel == channel
      ensures forall id | id in goals && goals[id].status == GoalBlocked && goals[id].source == source && goals[id].channel == channel ::
                found.Some? && id <= found.value
    {
      found := None;
      var id := nextGoal;
      while id > 0
        invariant 0 <= id <= nextGoal
        invariant forall k: GoalId | k >= id :: !IsBlockedGoal(goals, k, source, channel)
      {
        id := id - 1;
        if IsBlockedGoal(goals, id, source, channel) {
          assert forall k: GoalId | k > id :: !IsBlockedGoal(goals, k, source, channel);
          BlockedAre(goals, source, channel);
          return Some(id);
        }
      }
      BlockedAre(goals, source, channel);
    }

    /** Crash recovery resets every running row of every goal, and counts them. */
    method RecoverRunning() returns (count: nat)
      requires Valid()
      modifies this`goals
      ensures Valid() && goals.Keys == old(goals).Keys
      ensures forall id | id in goals :: goals[id] == Apply(old(goals)[id], Recover)
      ensures count == |RunningRows(old(goals), nextGoal)|
    {
      RunningCounted(goals, nextGoal);
      count := 0;
      var k := 0;
      while k < nextGoal
        invariant 0 <= k <= nextGoal && count == TotalRunning(goals, k)
      {
        if k in goals {
          count := count + RunningCount(goals[k].tasks);
        }
        k := k + 1;
      }
      goals := map id | id in goals :: Apply(goals[id], Recover);
    }
  }

  datatype StepResult = StepResult(
    executed: seq<TaskId>, blocked: seq<TaskId>, failed: seq<TaskId>,
    goalDone: bool, goalFailed: bool, goalBlocked: bool)

  const NOTHING := StepResult([], [], [], false, false, false)

  /** The listed tasks whose row now has one of the given statuses. */
  function Picked(ready: seq<TaskId>, g: Goal, statuses: set<TaskStatus>): seq<TaskId> {
    if ready == [] then []
    else
      var i := ready[|ready| - 1];
      Picked(ready[..|ready| - 1], g, statuses) +
      (if i < |g.tasks| && g.tasks[i].status in statuses then [i] else [])
  }

  lemma {:induction false} PickedSame(ready: seq<TaskId>, g: Goal, h: Goal, statuses: set<TaskStatus>)
    requires forall k | k in ready :: k < |g.tasks| && k < |h.tasks| && g.tasks[k] == h.tasks[k]
    ensures Picked(ready, g, statuses) == Picked(ready, h, statuses)
  {
    if ready != [] {
      PickedSame(ready[..|ready| - 1], g, h, statuses);
    }
  }

  lemma {:induction false} PickedMeaning(ready: seq<TaskId>, g: Goal, statuses: set<TaskStatus>)
    ensures forall i :: i in Picked(ready, g, statuses) <==> i in ready && i < |g.tasks| && g.tasks[i].status in statuses
  {
    if ready != [] {
      PickedMeaning(ready[..|ready| - 1], g, statuses);
      assert forall i :: i in ready <==> i in ready[..|ready| - 1] || i == ready[|ready| - 1];
    }
  }

  /** What a step reports, from the goal before and after it. */
  function Report(g: Goal, h: Goal): StepResult {
    if g.status == GoalDraft then NOTHING.(goalBlocked := true)
    else if g.status in {GoalDone, GoalFailed} then
      NOTHING.(goalDone := g.status == GoalDone, goalFailed := g.status == GoalFailed)
    else
      var v := Verdict(h);
      StepResult(Picked(ReadyList(g), h, {Done}), Picked(ReadyList(g), h, {Blocked}), Picked(ReadyList(g), h, {Failed, Skipped}),
                 v == Some(GoalDone), v == Some(GoalFailed), v == Some(GoalBlocked))
  }

  /** What a report says: a draft is blocked, a finished goal is what it is and nothing was done;
      otherwise the ready tasks are listed by how they ended, and the goal is done if every task is
      DONE or SKIPPED, failed if every task is settled and one FAILED, blocked if every other task
      is settled or blocked. */
  lemma ReportMeaning(g: Goal, h: Goal)
    ensures var r, open := Report(g, h), g.status != GoalDraft && g.status != GoalDone && g.status != GoalFailed;
            var settled := forall t | t in h.tasks :: t.status == Done || t.status == Skipped || t.status == Failed;
            var failed := exists t | t in h.tasks :: t.status == Failed;
            && (r.goalDone <==> g.status == GoalDone || (open && settled && !failed))
            && (r.goalFailed <==> g.status == GoalFailed || (open && settled && failed))
            && (r.goalBlocked <==>
                  (g.status == GoalDraft ||
                   (open && !settled && forall t | t in h.tasks :: t.status == Done || t.status == Skipped || t.status == Failed || t.status == Blocked)))
            && (forall i :: i in r.executed <==> open && IsReady(g, i) && HasStatus(h, i, Done))
            && (forall i :: i in r.blocked <==> open && IsReady(g, i) && HasStatus(h, i, Blocked))
            && (forall i :: i in r.failed <==> open && IsReady(g, i) && (HasStatus(h, i, Failed) || HasStatus(h, i, Skipped)))
  {
    ReadyUpToMeaning(g, |g.tasks|);
    PickedMeaning(ReadyList(g), h, {Done});
    PickedMeaning(ReadyList(g), h, {Blocked});
    PickedMeaning(ReadyList(g), h, {Failed, Skipped});
    VerdictMeaning(h);
    assert ReadyList(g) == ReadyUpTo(g, |g.tasks|);
    hide ReadyUpTo, ReadyList, Picked, Verdict, IsReady;
  }

  /** What the completion check finds, row by row. */
  lemma VerdictMeaning(h: Goal)
    ensures var settled := forall t | t in h.tasks :: t.status == Done || t.status == Skipped || t.status == Failed;
            var failed := exists t | t in h.tasks :: t.status == Failed;
            Verdict(h) ==
              if settled then Some(if failed then GoalFailed else GoalDone)
              else if forall t | t in h.tasks :: t.status == Done || t.status == Skipped || t.status == Failed || t.status == Blocked then Some(GoalBlocked)
              else None
  {
    assert AnyFailed(h) <==> exists t | t in h.tasks :: t.status == Failed by {
      if t :| t in h.tasks && t.status == Failed {
        var i :| 0 <= i < |h.tasks| && h.tasks[i] == t;
      }
    }
    assert AllSettled(h) <==> forall t | t in h.tasks :: t.status == Done || t.status == Skipped || t.status == Failed;
  }

  /** One more enabled write on top of a run. */
  lemma Extend(g: Goal, ws: seq<Write>, w: Write)
    requires AllEnabled(g, ws) && Enabled(ApplyAll(g, ws), w)
    ensures AllEnabled(g, ws + [w]) && ApplyAll(g, ws + [w]) == Apply(ApplyAll(g, ws), w)
  {
    OneWrite(ApplyAll(g, ws), w);
    ApplyAllAppend(g, ws, [w]);
  }

  lemma GateEnabled(cfg: Config, rules: seq<Rule>, g: Goal, i: TaskId)
    requires IsReady(g, i) && Judge(cfg, rules, g, g.tasks[i]).Asked?
    ensures Enabled(g, Gate(i, Judge(cfg, rules, g, g.tasks[i]).reason))
  {
    var t := g.tasks[i];
    GateReasonsAreAnswerable(t, DecisionFor(rules, RequestFor(cfg, g, t), cfg.normalize, cfg.risk));
  }

  lemma ProcessIgnoresLog(cfg: Config, rules: seq<Rule>, w: World, m: Machine, i: TaskId)
    requires IsReady(m.goal, i)
    ensures ProcessTask(cfg, rules, w, m, i).(log := []) == ProcessTask(cfg, rules, w, m.(log := []), i).(log := [])
  {
  }

  /** The k-th ready task is still ready, unchanged, when its turn comes. */
  lemma TurnComes(cfg: Config, rules: seq<Rule>, w: World, m: Machine, k: nat)
    requires k < |ReadyList(m.goal)|
    ensures var ready := ReadyList(m.goal);
            var p := RunBatch(cfg, rules, w, m, ready[..k]);
            && IsReady(p.goal, ready[k])
            && RunBatch(cfg, rules, w, m, ready[..k + 1]) == ProcessTask(cfg, rules, w, p, ready[k])
  {
    var ready := ReadyList(m.goal);
    var before := ready[..k];
    ReadyUpToMeaning(m.goal, |m.goal.tasks|);
    RunBatchLast(cfg, rules, w, m, ready[..k + 1]);
    assert ready[..k + 1][..k] == before && ready[..k + 1][k] == ready[k];
    hide *;
    PrefixDistinct(ready, k);
    BatchSound(cfg, rules, w, m, before);
    ReadyStaysReady(cfg, rules, m.goal, RunBatch(cfg, rules, w, m, before).goal, before, ready[k]);
  }

  /** Earlier turns' rows are not touched by later ones, so the lists only grow. */
  lemma PickedGrows(cfg: Config, rules: seq<Rule>, w: World, m: Machine, k: nat, statuses: set<TaskStatus>)
    requires k < |ReadyList(m.goal)|
    ensures var ready := ReadyList(m.goal);
            var p, q := RunBatch(cfg, rules, w, m, ready[..k]).goal, RunBatch(cfg, rules, w, m, ready[..k + 1]).goal;
            && ready[k] < |q.tasks|
            && Picked(ready[..k + 1], q, statuses) ==
               Picked(ready[..k], p, statuses) + (if q.tasks[ready[k]].status in statuses then [ready[k]] else [])
  {
    var ready := ReadyList(m.goal);
    ReadyUpToMeaning(m.goal, |m.goal.tasks|);
    TurnComes(cfg, rules, w, m, k);
    var p := RunBatch(cfg, rules, w, m, ready[..k]);
    TaskTurn(cfg, rules, w, p, ready[k]);
    var q := RunBatch(cfg, rules, w, m, ready[..k + 1]);
    forall i | i in ready[..k] ensures i < |p.goal.tasks| && p.goal.tasks[i] == q.goal.tasks[i] {
      assert i in ready && IsReady(m.goal, i) && i != ready[k];
      BatchKeepsRows(cfg, rules, w, m, ready[..k]);
    }
    PickedSame(ready[..k], p.goal, q.goal, statuses);
    assert ready[..k + 1][..k] == ready[..k];
  }

  lemma {:induction false} BatchKeepsRows(cfg: Config, rules: seq<Rule>, w: World, m: Machine, ready: seq<TaskId>)
    ensures |m.goal.tasks| <= |RunBatch(cfg, rules, w, m, ready).goal.tasks|
  {
    if ready != [] {
      hide Judge, TurnRow, AllDone, ProcessTask, Total;
      BatchKeepsRows(cfg, rules, w, m, ready[..|ready| - 1]);
      var p := RunBatch(cfg, rules, w, m, ready[..|ready| - 1]);
      if IsReady(p.goal, ready[|ready| - 1]) {
        TaskTurn(cfg, rules, w, p, ready[|ready| - 1]);
      }
    }
  }

  function Reopened(g: Goal): GoalStatus {
    if g.status == GoalBlocked then GoalExecuting else g.status
  }

  lemma FirstIs(g: Goal, i: TaskId, start: nat)
    requires start <= i < |g.tasks| && Answerable(g.tasks[i])
    requires forall k | start <= k < i :: !Answerable(g.tasks[k])
    ensures FirstAnswerable(g, start) == Some(i)
  {
  }

  function StoredText(t: Task, text: string): string {
    if t.kind == CredentialRequest then "Credential '" + t.instruction + "' provided" else text
  }

  function TextReply(t: Task): string {
    if t.kind == CredentialRequest then "Credential received. Resuming goal." else "Input received. Resuming goal."
  }

  /** What user text does to a task that waits for it. */
  lemma AnswerEffect(cfg: Config, g: Goal, i: TaskId, text: string)
    requires i < |g.tasks| && g.tasks[i].status == Blocked && TakesText(g.tasks[i])
    requires forall k | 0 <= k < i :: !Answerable(g.tasks[k])
    ensures var t := g.tasks[i];
            var e := OnInput(cfg, g, text);
            && AllEnabled(g, e.writes) && e.rule.None? && e.reply == TextReply(t)
            && ApplyAll(g, e.writes) ==
               PutTask(g, i, t.(status := Done, result := Some(StoredText(t, text)), blocker := None)).(status := Reopened(g))
  {
    hide IsApprovalBlocker, ChoiceOf, AllEnabled, ApplyAll;
    FirstIs(g, i, 0);
    InputEnabled(cfg, g, text);
  }

  /** What an approval does to the task it answers. */
  lemma {:induction false} ApprovalEffect(cfg: Config, g: Goal, i: TaskId, text: string)
    requires FirstAnswerable(g, 0) == Some(i) && !TakesText(g.tasks[i])
    ensures var t := g.tasks[i];
            var e := OnInput(cfg, g, text);
            && e == ApprovalInput(cfg, g, i, ChoiceOf(text)) && AllEnabled(g, e.writes)
            && ApplyAll(g, e.writes) ==
               if ChoiceOf(text).Denied? then PutTask(g, i, t.(status := Failed, error := Some("User denied approval"), blocker := None))
               else PutTask(g, i, t.(status := Pending, blocker := None)).(status := Reopened(g))
  {
    hide AllEnabled, ApplyAll, ChoiceOf, Answerable, FirstAnswerable, Shaped;
    InputEnabled(cfg, g, text);
    ApprovalShape(cfg, g, i, ChoiceOf(text));
  }

  lemma NoAnswerEffect(cfg: Config, g: Goal, text: string)
    requires forall k | 0 <= k < |g.tasks| :: !Answerable(g.tasks[k])
    ensures OnInput(cfg, g, text) == InputEffect([], None, "No blocked task found matching this input.")
  {
  }

  lemma PlanTail(specs: seq<Spec>, n: nat)
    ensures specs == [] || Resolve(specs[0].indices, n).None? ==> PlanWrites(specs, n) == []
    ensures specs != [] && Resolve(specs[0].indices, n).Some? ==>
              PlanWrites(specs, n) == [Plan(specs[0], Resolve(specs[0].indices, n).value)] + PlanWrites(specs[1..], n + 1)
  {
  }

  lemma PlanStep(g: Goal, spec: Spec, deps: seq<TaskId>)
    requires g.status == GoalPlanning && Resolve(spec.indices, |g.tasks|) == Some(deps)
    ensures Enabled(g, Plan(spec, deps))
    ensures Apply(g, Plan(spec, deps)) == g.(tasks := g.tasks + [NewTask(spec, deps)])
  {
    ResolveMeaning(spec.indices, |g.tasks|);
  }

  lemma StartedRow(g: Goal, i: TaskId)
    requires IsReady(g, i)
    ensures Enabled(g, Start(i)) && i < |Apply(g, Start(i)).tasks| && HasStatus(Apply(g, Start(i)), i, Running)
    ensures Apply(g, Start(i)).tasks[i] == g.tasks[i].(status := Running, attempts := g.tasks[i].attempts + 1)
  {
  }

  lemma FinishStep(g: Goal, i: TaskId, text: string)
    requires HasStatus(g, i, Running)
    ensures Enabled(g, Finish(i, text))
    ensures Apply(g, Finish(i, text)) == PutTask(g, i, g.tasks[i].(status := Done, result := Some(text)))
  {
  }

  lemma ParkStep(g: Goal, i: TaskId, reason: string)
    requires HasStatus(g, i, Running) && TakesText(g.tasks[i])
    ensures Enabled(g, Park(i, reason))
    ensures Apply(g, Park(i, reason)) == PutTask(g, i, g.tasks[i].(status := Blocked, blocker := Some(reason)))
  {
  }

  lemma DraftStep(g: Goal)
    requires g.status == GoalPlanning
    ensures Enabled(g, Drafted) && Apply(g, Drafted) == g.(status := GoalDraft)
  {
  }

  class GoalEngine {
    const store: GoalStore
    const pipeline: ApprovalPipeline
    const autonomous: bool
    const resolve: Option<string -> string>
    const world: World
    var calls: nat
    var asked: nat

    ghost predicate Valid()
      reads this, store, pipeline
    {
      store.Valid() && pipeline.Valid()
    }

    function Cfg(): Config {
      Config(autonomous, pipeline.connected, pipeline.risk, pipeline.normalize, resolve)
    }

    /** The machine the operations of GoalRuns start from. */
    function Now(g: Goal): Machine
      reads this
    {
      Machine(g, calls, asked, [])
    }

    constructor (store: GoalStore, pipeline: ApprovalPipeline, autonomous: bool, resolve: Option<string -> string>, world: World)
      requires store.Valid() && pipeline.Valid()
      ensures Valid() && this.store == store && this.pipeline == pipeline && this.autonomous == autonomous
      ensures this.resolve == resolve && this.world == world && calls == 0 && asked == 0
    {
      this.store, this.pipeline, this.autonomous := store, pipeline, autonomous;
      this.resolve, this.world := resolve, world;
      calls, asked := 0, 0;
    }

    /** Stores the planned tasks one by one, stopping at the first that cannot be resolved. */
    method SavePlan(id: GoalId, specs: seq<Spec>) returns (ok: bool)
      requires Valid() && id in store.goals && store.goals[id].status == GoalPlanning && store.goals[id].tasks == []
      modifies store`goals
      ensures Valid() && ok == PlanOk(specs, 0)
      ensures var g := old(store.goals)[id];
              && AllEnabled(g, PlanWrites(specs, 0))
              && store.goals == old(store.goals)[id := ApplyAll(g, PlanWrites(specs, 0))]
              && store.goals[id].status == GoalPlanning
    {
      hide Apply, Enabled, PlanWrites, Resolve, AllEnabled, ApplyAll;
      ghost var g0 := store.goals[id];
      assert store.goals == store.goals[id := g0];
      NoWrites(g0);
      PlanEnabled(g0, specs);
      PlanWritesBound(specs, 0);
      ghost var trail: seq<Write> := [];
      var i := 0;
      assert specs[0..] == specs;
      while i < |specs|
        invariant 0 <= i <= |specs| && Valid() && id in store.goals
        invariant AllEnabled(g0, trail) && store.goals == old(store.goals)[id := ApplyAll(g0, trail)]
        invariant store.goals[id].status == GoalPlanning && |store.goals[id].tasks| == i == |trail|
        invariant PlanWrites(specs, 0) == trail + PlanWrites(specs[i..], i)
      {
        var spec := specs[i];
        var deps := Resolve(spec.indices, i);
        assert specs[i..][0] == spec && specs[i..][1..] == specs[i + 1..];
        PlanTail(specs[i..], i);
        assert trail + [] == trail;
        if deps.None? {
          return false;
        }
        PlanStep(ApplyAll(g0, trail), spec, deps.value);
        Extend(g0, trail, Plan(spec, deps.value));
        trail := trail + [Plan(spec, deps.value)];
        store.SaveTask(id, NewTask(spec, deps.value));
        i := i + 1;
      }
      PlanTail(specs[i..], i);
      assert trail + [] == trail;
      return true;
    }

    /** Plans a goal from the model's decomposition; None stands for a failed answer. */
    method CreatePlan(source: string, channel: string, plan: Option<seq<Spec>>) returns (r: Result<GoalId, string>)
      requires Valid()
      modifies store
      ensures Valid()
      ensures var id := old(store.nextGoal);
              && id !in old(store.goals)
              && store.goals == old(store.goals)[id :=
                   if plan.Some? then PlannedGoal(source, channel, plan.value) else NewGoal(source, channel)]
              && r == (if plan.Some? && PlanOk(plan.value, 0) then Ok(id) else Err("planning failed"))
    {
      hide Apply, Enabled, PlanWrites, Resolve, AllEnabled, ApplyAll, PlanOk;
      var id := store.SaveGoal(NewGoal(source, channel));
      if plan.None? {
        return Err("planning failed");
      }
      PlanEnabled(NewGoal(source, channel), plan.value);
      var ok := SavePlan(id, plan.value);
      if !ok {
        return Err("planning failed");
      }
      DraftStep(store.goals[id]);
      store.UpdateGoalStatus(id, GoalDraft);
      return Ok(id);
    }

    /** Starts a goal that has not been started; any other existing goal is left alone. */
    method ApproveGoal(id: GoalId) returns (r: Result<Goal, string>)
      requires Valid()
      modifies store`goals
      ensures Valid()
      ensures id !in old(store.goals) ==> r.Err? && store.goals == old(store.goals)
      ensures id in old(store.goals) ==>
                && AllEnabled(old(store.goals)[id], ApproveWrites(old(store.goals)[id]))
                && store.goals == old(store.goals)[id := ApplyAll(old(store.goals)[id], ApproveWrites(old(store.goals)[id]))]
                && r == Ok(store.goals[id])
    {
      if id !in store.goals {
        return Err("Goal not found");
      }
      var goal := store.goals[id];
      assert store.goals == store.goals[id := goal];
      ApproveEnabled(goal);
      if goal.status !in {GoalDraft, GoalApproved, GoalPlanning} {
        return Ok(goal);
      }
      store.UpdateGoalStatus(id, GoalApproved);
      store.UpdateGoalStatus(id, GoalExecuting);
      return Ok(store.goals[id]);
    }

    /** Puts an approved task back and reopens its goal if it was blocked. */
    method ResumeAfterApproval(id: GoalId, i: TaskId, goal: Goal)
      requires Valid() && id in store.goals && store.goals[id] == goal && i < |goal.tasks|
      modifies store`goals
      ensures Valid()
      ensures store.goals == old(store.goals)[id :=
                PutTask(goal, i, goal.tasks[i].(status := Pending, blocker := None)).(status := Reopened(goal))]
    {
      store.UpdateTask(id, i, goal.tasks[i].(status := Pending, blocker := None));
      if goal.status == GoalBlocked {
        store.UpdateGoalStatus(id, GoalExecuting);
      }
    }

    /** Completes a task that waits for text and reopens its goal if it was blocked. */
    method CompleteWithText(id: GoalId, i: TaskId, goal: Goal, text: string) returns (reply: string)
      requires Valid() && id in store.goals && store.goals[id] == goal && i < |goal.tasks| && TakesText(goal.tasks[i])
      modifies store`goals
      ensures Valid()
      ensures var t := goal.tasks[i];
              && store.goals == old(store.goals)[id :=
                   PutTask(goal, i, t.(status := Done, result := Some(StoredText(t, text)), blocker := None)).(status := Reopened(goal))]
              && reply == TextReply(t)
    {
      var t := goal.tasks[i];
      if t.kind == CredentialRequest {
        store.UpdateTask(id, i, t.(status := Done, result := Some("Credential '" + t.instruction + "' provided"), blocker := None));
        reply := "Credential received. Resuming goal.";
      } else {
        store.UpdateTask(id, i, t.(status := Done, result := Some(text), blocker := None));
        reply := "Input received. Resuming goal.";
      }
      if goal.status == GoalBlocked {
        store.UpdateGoalStatus(id, GoalExecuting);
      }
    }

    /** Stores the rule an approval asks for, if any, and answers the user. */
    method ApplyApproval(id: GoalId, i: TaskId, goal: Goal, text: string) returns (reply: string)
      requires Valid() && id in store.goals && store.goals[id] == goal
      requires FirstAnswerable(goal, 0) == Some(i) && !TakesText(goal.tasks[i])
      modifies store`goals, pipeline`rules
      ensures Valid()
      ensures var e := OnInput(Cfg(), goal, text);
              && AllEnabled(goal, e.writes) && store.goals == old(store.goals)[id := ApplyAll(goal, e.writes)]
              && pipeline.rules == WithRule(Cfg(), old(pipeline.rules), e.rule) && reply == e.reply
    {
      hide AllEnabled, ApplyAll, ChoiceOf, FirstAnswerable, PlannedPath, SessionId, OnInput, PutTask, Reopened;
      var t := goal.tasks[i];
      var action := Some(ActionFor(t.kind));
      ApprovalEffect(Cfg(), goal, i, text);
      match ChoiceOf(text)
      case Denied =>
        store.UpdateTask(id, i, t.(status := Failed, error := Some("User denied approval"), blocker := None));
        return "Denied. Goal task marked as failed.";
      case ByCommand =>
        if !autonomous || t.kind != SandboxExec {
          ResumeAfterApproval(id, i, goal);
          return "Confirmed. Resuming goal.";
        }
        pipeline.AddRule(Rule(CommandPrefix, Text.Strip(t.instruction), action, AllowByRule));
        ResumeAfterApproval(id, i, goal);
        return "Approved for matching commands. Resuming goal.";
      case ByPath =>
        var path := PlannedPath(t, resolve);
        if !autonomous || path.None? {
          ResumeAfterApproval(id, i, goal);
          return "Confirmed. Resuming goal.";
        }
        pipeline.AddRule(Rule(PathPrefix, pipeline.normalize(path.value), action, AllowByRule));
        ResumeAfterApproval(id, i, goal);
        return "Approved for matching file paths. Resuming goal.";
      case BySession =>
        if autonomous {
          pipeline.AddRule(Rule(Session, SessionId(goal), action, AllowForSession));
        }
        ResumeAfterApproval(id, i, goal);
        return "Approved for this session. Resuming goal.";
      case Plain =>
        ResumeAfterApproval(id, i, goal);
        return "Confirmed. Resuming goal.";
    }

    /** Routes user text to the first blocked task it can resolve. */
    method HandleUserInput(id: GoalId, text: string) returns (reply: string)
      requires Valid()
      modifies store`goals, pipeline`rules
      ensures Valid()
      ensures id !in old(store.goals) ==>
                reply == "Goal not found." && store.goals == old(store.goals) && pipeline.rules == old(pipeline.rules)
      ensures id in old(store.goals) ==>
                var g := old(store.goals)[id];
                var e := OnInput(Cfg(), g, text);
                && AllEnabled(g, e.writes) && store.goals == old(store.goals)[id := ApplyAll(g, e.writes)]
                && pipeline.rules == WithRule(Cfg(), old(pipeline.rules), e.rule) && reply == e.reply
    {
      if id !in store.goals {
        return "Goal not found.";
      }
      hide AllEnabled, ApplyAll, OnInput, IsApprovalBlocker, StoredText, TextReply;
      var goal := store.goals[id];
      assert store.goals == store.goals[id := goal];
      var i := 0;
      while i < |goal.tasks|
        invariant 0 <= i <= |goal.tasks|
        invariant forall k | 0 <= k < i :: !Answerable(goal.tasks[k])
      {
        if Answerable(goal.tasks[i]) {
          break;
        }
        i := i + 1;
      }
      if i == |goal.tasks| {
        NoWrites(goal);
        NoAnswerEffect(Cfg(), goal, text);
        return "No blocked task found matching this input.";
      }
      if TakesText(goal.tasks[i]) {
        AnswerEffect(Cfg(), goal, i, text);
        reply := CompleteWithText(id, i, goal, text);
      } else {
        FirstIs(goal, i, 0);
        reply := ApplyApproval(id, i, goal, text);
      }
    }

    /** The approval gate for one task; only the decision log changes. */
    method EvaluateTask(g: Goal, t: Task) returns (gate: GateAnswer)
      requires Valid()
      modifies pipeline`log
      ensures Valid() && gate == Judge(Cfg(), pipeline.rules, g, t)
    {
      if !autonomous {
        return Pass;
      }
      var d := pipeline.Evaluate(RequestFor(Cfg(), g, t));
      if d.outcome == Outcome.Deny {
        return Refused(BlockerReason(t, d));
      }
      if d.outcome == Ask {
        return Asked(BlockerReason(t, d));
      }
      return Pass;
    }

    /** Asks how to go on after a task's last attempt failed, and does it. */
    method Replan(id: GoalId, i: TaskId, ghost g0: Goal, ghost sofar: seq<Write>)
      requires Valid() && id in store.goals
      requires AllEnabled(g0, sofar) && ApplyAll(g0, sofar) == store.goals[id] && HasStatus(store.goals[id], i, Failed)
      modifies store`goals, this`asked
      ensures Valid() && asked == old(asked) + 1
      ensures var ws := sofar + ReplanWrites(i, world.replies(old(asked)));
              AllEnabled(g0, ws) && store.goals == old(store.goals)[id := ApplyAll(g0, ws)]
    {
      hide AllEnabled, ApplyAll, IsApprovalBlocker;
      ghost var trail := sofar;
      var reply := world.replies(asked);
      asked := asked + 1;
      match reply
      case AbortIt =>
        Extend(g0, trail, Abort);
        store.UpdateGoalStatus(id, GoalFailed);
      case SkipIt =>
        Extend(g0, trail, Skip(i));
        store.UpdateTask(id, i, store.goals[id].tasks[i].(status := Skipped));
      case ReplaceWith(specs) =>
        if specs != [] {
          var k := 0;
          assert specs[0..] == specs;
          while k < |specs|
            invariant 0 <= k <= |specs|
            invariant Valid() && id in store.goals && HasStatus(store.goals[id], i, Failed) && asked == old(asked) + 1
            invariant AllEnabled(g0, trail) && store.goals == old(store.goals)[id := ApplyAll(g0, trail)]
            invariant trail + InsertWrites(i, specs[k..]) == sofar + InsertWrites(i, specs)
          {
            var spec := specs[k];
            assert specs[k..][0] == spec && specs[k..][1..] == specs[k + 1..];
            Extend(g0, trail, Insert(i, spec));
            trail := trail + [Insert(i, spec)];
            store.SaveTask(id, NewTask(spec, store.goals[id].tasks[i].deps));
            k := k + 1;
          }
          assert specs[k..] == [] && trail == sofar + InsertWrites(i, specs);
          Extend(g0, trail, Skip(i));
          assert trail + [Skip(i)] == sofar + ReplanWrites(i, reply);
          store.UpdateTask(id, i, store.goals[id].tasks[i].(status := Skipped));
        } else {
          assert sofar + [] == sofar;
        }
      case RetryIt => assert sofar + [] == sofar;
      case NoDecision => assert sofar + [] == sofar;
    }

    /** Puts a failed task back, or gives it up and asks the replanning model. */
    method StoreFailure(id: GoalId, i: TaskId, t: Task, error: string, ghost g0: Goal, ghost sofar: seq<Write>)
      requires Valid() && id in store.goals
      requires AllEnabled(g0, sofar) && ApplyAll(g0, sofar) == store.goals[id]
      requires Held(store.goals[id], i) && store.goals[id].tasks[i].attempts == t.attempts + 1
      requires store.goals[id].tasks[i].maxAttempts == t.maxAttempts
      modifies store`goals, this`asked
      ensures Valid() && asked == old(asked) + (if t.attempts + 1 >= t.maxAttempts then 1 else 0)
      ensures var ws := sofar + FailWrites(t, i, error, world.replies(old(asked)));
              AllEnabled(g0, ws) && store.goals == old(store.goals)[id := ApplyAll(g0, ws)]
    {
      hide AllEnabled, ApplyAll, IsApprovalBlocker, ReplanWrites;
      ghost var reply := world.replies(asked);
      if t.attempts + 1 >= t.maxAttempts {
        Extend(g0, sofar, GiveUp(i, error));
        store.UpdateTask(id, i, store.goals[id].tasks[i].(status := Failed, error := Some(error)));
        Replan(id, i, g0, sofar + [GiveUp(i, error)]);
        assert sofar + [GiveUp(i, error)] + ReplanWrites(i, reply) == sofar + FailWrites(t, i, error, reply);
      } else {
        Extend(g0, sofar, Retry(i, error));
        store.UpdateTask(id, i, store.goals[id].tasks[i].(status := Pending, error := Some(error)));
      }
    }

    /** Executes a task just marked running and stores how that ended. */
    method Execute(id: GoalId, i: TaskId, t: Task, ghost g0: Goal)
      requires Valid() && id in store.goals && IsReady(g0, i) && t == g0.tasks[i]
      requires store.goals[id] == Apply(g0, Start(i))
      modifies store`goals, this`calls, this`asked
      ensures Valid() && calls == old(calls) + 1
      ensures asked == old(asked) + (if AsksReplan(t, Pass, world.outcomes(old(calls))) then 1 else 0)
      ensures var ws := [Start(i)] + ExecWrites(t, i, world.outcomes(old(calls)), world.replies(old(asked)));
              AllEnabled(g0, ws) && store.goals == old(store.goals)[id := ApplyAll(g0, ws)]
    {
      hide AllEnabled, ApplyAll, IsApprovalBlocker, ErrorOf, ParkReason, ResultOf, FailWrites, Apply, Enabled, AllDone, Verdict;
      StartedRow(g0, i);
      OneWrite(g0, Start(i));
      var outcome := world.outcomes(calls);
      ghost var reply := world.replies(asked);
      calls := calls + 1;
      if !Fails(t, outcome) {
        FinishStep(store.goals[id], i, ResultOf(t, outcome));
        Extend(g0, [Start(i)], Finish(i, ResultOf(t, outcome)));
        store.UpdateTask(id, i, store.goals[id].tasks[i].(status := Done, result := Some(ResultOf(t, outcome))));
      } else if TakesText(t) {
        // the executor blocks the row itself and raises
        var park := Park(i, ParkReason(t));
        ParkStep(store.goals[id], i, ParkReason(t));
        Extend(g0, [Start(i)], park);
        store.UpdateTask(id, i, store.goals[id].tasks[i].(status := Blocked, blocker := Some(ParkReason(t))));
        StoreFailure(id, i, t, ErrorOf(t, outcome), g0, [Start(i)] + [park]);
        assert [Start(i)] + [park] + FailWrites(t, i, ErrorOf(t, outcome), reply) == [Start(i)] + ExecWrites(t, i, outcome, reply);
      } else {
        StoreFailure(id, i, t, ErrorOf(t, outcome), g0, [Start(i)]);
        assert [Start(i)] + FailWrites(t, i, ErrorOf(t, outcome), reply) == [Start(i)] + ExecWrites(t, i, outcome, reply);
      }
    }

    /** One ready task of a step: the gate, then execution. */
    method RunTask(id: GoalId, i: TaskId)
      requires Valid() && id in store.goals && IsReady(store.goals[id], i)
      modifies store`goals, pipeline`log, this`calls, this`asked
      ensures Valid()
      ensures var p := ProcessTask(Cfg(), pipeline.rules, world, old(Now(store.goals[id])), i);
              store.goals == old(store.goals)[id := p.goal] && calls == p.calls && asked == p.asked
    {
      hide AllEnabled, ApplyAll, BlockerReason, Judge, ExecWrites;
      var goal := store.goals[id];
      var t := goal.tasks[i];
      TaskEnabled(Cfg(), pipeline.rules, goal, i, world.outcomes(calls), world.replies(asked));
      var gate := EvaluateTask(goal, t);
      match gate
      case Refused(reason) =>
        OneWrite(goal, Write.Deny(i, reason));
        store.UpdateTask(id, i, t.(status := Failed, error := Some(reason), blocker := None));
      case Asked(reason) =>
        GateEnabled(Cfg(), pipeline.rules, goal, i);
        OneWrite(goal, Gate(i, reason));
        store.UpdateTask(id, i, t.(status := Blocked, blocker := Some(reason)));
      case Pass =>
        store.UpdateTask(id, i, t.(status := Running, attempts := t.attempts + 1));
        Execute(id, i, t, goal);
    }

    /** The completion check: one pass over the rows, then at most one status write. */
    method CheckGoalCompletion(id: GoalId) returns (goalDone: bool, goalFailed: bool, goalBlocked: bool)
      requires Valid() && id in store.goals
      modifies store`goals
      ensures Valid()
      ensures var g := old(store.goals)[id];
              var v := Verdict(g);
              && store.goals == old(store.goals)[id := g.(status := if v.Some? then v.value else g.status)]
              && goalDone == (v == Some(GoalDone)) && goalFailed == (v == Some(GoalFailed)) && goalBlocked == (v == Some(GoalBlocked))
    {
      var g := store.goals[id];
      goalDone, goalFailed, goalBlocked := false, false, false;
      var allTerminal, allBlockedOrTerminal, anyFailed := true, true, false;
      var i := 0;
      while i < |g.tasks|
        invariant 0 <= i <= |g.tasks|
        invariant allTerminal <==> forall k | 0 <= k < i :: Settled(g.tasks[k])
        invariant allBlockedOrTerminal <==> forall k | 0 <= k < i :: Settled(g.tasks[k]) || g.tasks[k].status == Blocked
        invariant anyFailed <==> exists k | 0 <= k < i :: g.tasks[k].status == Failed
      {
        var t := g.tasks[i];
        i := i + 1;
        if t.status in {Done, Skipped, Failed} {
          if t.status == Failed {
            anyFailed := true;
          }
          continue;
        }
        allTerminal := false;
        if t.status != Blocked {
          allBlockedOrTerminal := false;
        }
      }
      if allTerminal {
        var status := if anyFailed then GoalFailed else GoalDone;
        store.UpdateGoalStatus(id, status);
        goalDone, goalFailed := !anyFailed, anyFailed;
      } else if allBlockedOrTerminal {
        store.UpdateGoalStatus(id, GoalBlocked);
        goalBlocked := true;
      } else {
        assert store.goals == old(store.goals)[id := g];
      }
    }

    /** The loop of a step over its ready tasks. */
    method RunReady(id: GoalId) returns (executed: seq<TaskId>, blocked: seq<TaskId>, failed: seq<TaskId>)
      requires Valid() && id in store.goals
      modifies store`goals, pipeline`log, this`calls, this`asked
      ensures Valid()
      ensures var m := old(Now(store.goals[id]));
              var ready := ReadyList(m.goal);
              var p := RunBatch(Cfg(), pipeline.rules, world, m, ready);
              && store.goals == old(store.goals)[id := p.goal] && calls == p.calls && asked == p.asked
              && executed == Picked(ready, p.goal, {Done}) && blocked == Picked(ready, p.goal, {Blocked})
              && failed == Picked(ready, p.goal, {Failed, Skipped})
    {
      hide Judge, IsApprovalBlocker, ProcessTask, Picked, RunBatch;
      ghost var cfg, rules, m0 := Cfg(), pipeline.rules, Now(store.goals[id]);
      ghost var m := m0;
      var ready := store.GetReadyTasks(id);
      executed, blocked, failed := [], [], [];
      var k := 0;
      BatchStart(cfg, rules, world, m0);
      assert ready[..0] == [];
      assert store.goals == store.goals[id := m0.goal];
      while k < |ready|
        invariant 0 <= k <= |ready| && Valid() && id in store.goals
        invariant m == RunBatch(cfg, rules, world, m0, ready[..k])
        invariant store.goals == old(store.goals)[id := m.goal] && calls == m.calls && asked == m.asked
        invariant executed == Picked(ready[..k], m.goal, {Done})
        invariant blocked == Picked(ready[..k], m.goal, {Blocked})
        invariant failed == Picked(ready[..k], m.goal, {Failed, Skipped})
      {
        var i := ready[k];
        TurnComes(cfg, rules, world, m0, k);
        ProcessIgnoresLog(cfg, rules, world, m, i);
        PickedGrows(cfg, rules, world, m0, k, {Done});
        PickedGrows(cfg, rules, world, m0, k, {Blocked});
        PickedGrows(cfg, rules, world, m0, k, {Failed, Skipped});
        m := ProcessTask(cfg, rules, world, m, i);
        RunTask(id, i);
        k := k + 1;
        var status := store.goals[id].tasks[i].status;
        if status == Done {
          executed := executed + [i];
        } else if status == Blocked {
          blocked := blocked + [i];
        } else if status == Failed || status == Skipped {
          failed := failed + [i];
        }
      }
      assert ready[..k] == ready;
    }

    /** The next batch of ready tasks. A goal that does not exist counts as failed. */
    method Step(id: GoalId) returns (result: StepResult)
      requires Valid()
      modifies store`goals, pipeline`log, this`calls, this`asked
      ensures Valid()
      ensures id !in old(store.goals) ==>
                store.goals == old(store.goals) && calls == old(calls) && asked == old(asked) && result == NOTHING.(goalFailed := true)
      ensures id in old(store.goals) ==>
                var g := old(store.goals)[id];
                var p := StepGoal(Cfg(), pipeline.rules, world, old(Now(store.goals[id])));
                && store.goals == old(store.goals)[id := p.goal] && calls == p.calls && asked == p.asked
                && result == Report(g, p.goal)
    {
      hide Verdict, Judge, IsApprovalBlocker, ProcessTask, Picked, RunBatch;
      if id !in store.goals {
        return NOTHING.(goalFailed := true);
      }
      var goal := store.goals[id];
      assert store.goals == store.goals[id := goal];
      if goal.status == GoalDraft {
        return NOTHING.(goalBlocked := true);
      }
      if goal.status == GoalDone || goal.status == GoalFailed {
        return NOTHING.(goalDone := goal.status == GoalDone, goalFailed := goal.status == GoalFailed);
      }
      ghost var ready := ReadyList(goal);
      ghost var p := RunBatch(Cfg(), pipeline.rules, world, Now(goal), ready);
      InRange(Cfg(), pipeline.rules, world, Now(goal));
      StepIsBatch(Cfg(), pipeline.rules, world, Now(goal));
      var executed, blocked, failed := RunReady(id);
      var goalDone, goalFailed, goalBlocked := CheckGoalCompletion(id);
      PickedSame(ready, p.goal, store.goals[id], {Done});
      PickedSame(ready, p.goal, store.goals[id], {Blocked});
      PickedSame(ready, p.goal, store.goals[id], {Failed, Skipped});
      result := StepResult(executed, blocked, failed, goalDone, goalFailed, goalBlocked);
    }

    /** Steps until the goal is done, failed or blocked, or a step executes nothing. The
        number of steps is bounded by the tasks not yet DONE plus the replacements the
        planner may still add. */
    method RunGoal(id: GoalId, ghost budget: nat) returns (goal: Option<Goal>, ghost steps: nat)
      requires Valid() && AddsAtMost(world, budget)
      modifies store`goals, pipeline`log, this`calls, this`asked
      ensures Valid()
      ensures id !in old(store.goals) ==> goal.None? && store.goals == old(store.goals) && steps == 1
      ensures id in old(store.goals) ==>
                var m := old(Now(store.goals[id]));
                && 1 <= steps <= Left(world, budget, m) + 1
                && store.goals == old(store.goals)[id := RunSteps(Cfg(), pipeline.rules, world, m, steps).goal]
                && goal == Some(store.goals[id])
                && Stops(Cfg(), pipeline.rules, world, RunSteps(Cfg(), pipeline.rules, world, m, steps - 1))
                && forall k | 0 <= k < steps - 1 :: !Stops(Cfg(), pipeline.rules, world, RunSteps(Cfg(), pipeline.rules, world, m, k))
    {
      hide StepGoal, Verdict, Executes, Report;
      steps := 0;
      if id !in store.goals {
        var nothing := Step(id);
        return None, 1;
      }
      ghost var cfg, rules, m0 := Cfg(), pipeline.rules, Now(store.goals[id]);
      ghost var left: nat := LeftOf(world, budget, m0);
      assert store.goals == store.goals[id := m0.goal];
      while true
        invariant Valid() && id in store.goals
        invariant var m := RunSteps(cfg, rules, world, m0, steps);
                  && store.goals == old(store.goals)[id := m.goal] && Now(store.goals[id]) == m
                  && left == LeftOf(world, budget, m)
        invariant steps + left <= Left(world, budget, m0)
        invariant forall k | 0 <= k < steps :: !Stops(cfg, rules, world, RunSteps(cfg, rules, world, m0, k))
        decreases left
      {
        ghost var m := Now(store.goals[id]);
        var result := Step(id);
        steps := steps + 1;
        StopsMeaning(cfg, rules, world, m);
        if result.goalDone || result.goalFailed || result.goalBlocked {
          break;
        }
        if result.executed == [] {
          break;
        }
        StepProgress(cfg, rules, world, m, budget);
        left := LeftOf(world, budget, Now(store.goals[id]));
      }
      goal := Some(store.goals[id]);
    }
  }

  /** n steps in a row. */
  function RunSteps(cfg: Config, rules: seq<Rule>, w: World, m: Machine, n: nat): Machine {
    if n == 0 then m else StepGoal(cfg, rules, w, RunSteps(cfg, rules, w, m, n - 1)).(log := [])
  }

  /** The run loop does not go on after a step from m. */
  predicate Stops(cfg: Config, rules: seq<Rule>, w: World, m: Machine) {
    var r := Report(m.goal, StepGoal(cfg, rules, w, m).goal);
    r.goalDone || r.goalFailed || r.goalBlocked || r.executed == []
  }

  lemma StopsMeaning(cfg: Config, rules: seq<Rule>, w: World, m: Machine)
    ensures !Stops(cfg, rules, w, m) ==>
              m.goal.status !in {GoalDraft, GoalDone, GoalFailed} && Executes(cfg, rules, w, m)
  {
    var h := StepGoal(cfg, rules, w, m).goal;
    if !Stops(cfg, rules, w, m) {
      var done := Picked(ReadyList(m.goal), h, {Done});
      PickedMeaning(ReadyList(m.goal), h, {Done});
      assert done[0] in done;
    }
  }

  ghost function LeftOf(w: World, budget: nat, m: Machine): nat
    requires AddsAtMost(w, budget)
  {
    LeftIsNat(w, budget, m);
    Left(w, budget, m)
  }

  lemma BatchStart(cfg: Config, rules: seq<Rule>, w: World, m: Machine)
    ensures RunBatch(cfg, rules, w, m, []) == m
    ensures forall statuses :: Picked([], m.goal, statuses) == []
  {
  }

  lemma InRange(cfg: Config, rules: seq<Rule>, w: World, m: Machine)
    ensures forall i | i in ReadyList(m.goal) :: i < |RunBatch(cfg, rules, w, m, ReadyList(m.goal)).goal.tasks|
  {
    ReadyUpToMeaning(m.goal, |m.goal.tasks|);
    BatchKeepsRows(cfg, rules, w, m, ReadyList(m.goal));
  }
}
