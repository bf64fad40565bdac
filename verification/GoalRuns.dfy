/** Whole operations on a goal, and sequences of them: a step, user input, approval,
    recovery and new rules, under every world of answers. */
module GoalRuns {
  import opened Prelude
  import Text
  import opened GoalModel
  import opened GoalSafety
  import opened Approval
  import opened GoalOps

  // --- one step ---

  /** The ready tasks among the first n, in creation order. */
  function ReadyUpTo(g: Goal, n: nat): seq<TaskId> {
    if n == 0 then [] else ReadyUpTo(g, n - 1) + (if IsReady(g, n - 1) then [n - 1] else [])
  }

  function ReadyList(g: Goal): seq<TaskId> {
    ReadyUpTo(g, |g.tasks|)
  }

  predicate Distinct(ids: seq<TaskId>) {
    forall a, b | 0 <= a < b < |ids| :: ids[a] != ids[b]
  }

  lemma {:induction false} ReadyUpToMeaning(g: Goal, n: nat)
    requires n <= |g.tasks|
    ensures forall i: TaskId :: i in ReadyUpTo(g, n) <==> i < n && IsReady(g, i)
    ensures Distinct(ReadyUpTo(g, n))
  {
    if n > 0 {
      ReadyUpToMeaning(g, n - 1);
    }
  }

  function RunBatch(cfg: Config, rules: seq<Rule>, w: World, m: Machine, ready: seq<TaskId>): Machine {
    if ready == [] then m
    else
      var p := RunBatch(cfg, rules, w, m, ready[..|ready| - 1]);
      var i := ready[|ready| - 1];
      if IsReady(p.goal, i) then ProcessTask(cfg, rules, w, p, i) else p
  }

  function StepGoal(cfg: Config, rules: seq<Rule>, w: World, m: Machine): Machine {
    if m.goal.status in {GoalDraft, GoalDone, GoalFailed} then m
    else
      var p := RunBatch(cfg, rules, w, m, ReadyList(m.goal));
      if Verdict(p.goal).Some? then Issue(p, [Conclude]) else p
  }

  /** The total number of replacements in the first n replies. */
  function Total(replies: nat -> ReplanReply, n: nat): nat {
    if n == 0 then 0 else Total(replies, n - 1) + Added(replies(n - 1))
  }

  ghost predicate BatchEffect(cfg: Config, rules: seq<Rule>, g: Goal, h: Goal, ready: seq<TaskId>) {
    && |g.tasks| <= |h.tasks|
    && (forall k | 0 <= k < |g.tasks| && k !in ready :: h.tasks[k] == g.tasks[k])
    && (forall k | k in ready :: k < |g.tasks| && exists outcome, reply ::
          h.tasks[k] == TurnRow(g.tasks[k], Judge(cfg, rules, g, g.tasks[k]), outcome, reply))
    && (forall k | |g.tasks| <= k < |h.tasks| :: h.tasks[k].status == Pending && AllDone(g, h.tasks[k].deps))
    && h.source == g.source && h.channel == g.channel
    && (h.status == g.status || (h.status == GoalFailed && AnyFailed(h)))
  }

  /** p is what the writes logged since m, all of them enabled, made of m's goal. */
  predicate Continues(m: Machine, p: Machine) {
    && m.log <= p.log
    && AllEnabled(m.goal, p.log[|m.log|..])
    && ApplyAll(m.goal, p.log[|m.log|..]) == p.goal
  }

  lemma IssueContinues(m: Machine, p: Machine, ws: seq<Write>)
    requires Continues(m, p) && AllEnabled(p.goal, ws)
    ensures Continues(m, Issue(p, ws))
  {
    ApplyAllAppend(m.goal, p.log[|m.log|..], ws);
    assert (p.log + ws)[|m.log|..] == p.log[|m.log|..] + ws;
  }

  lemma {:induction false} ReadyStaysReady(cfg: Config, rules: seq<Rule>, g: Goal, h: Goal, ready: seq<TaskId>, i: TaskId)
    requires BatchEffect(cfg, rules, g, h, ready) && i !in ready && IsReady(g, i)
    requires forall k | k in ready :: IsReady(g, k)
    ensures IsReady(h, i) && h.tasks[i] == g.tasks[i]
    ensures Judge(cfg, rules, h, h.tasks[i]) == Judge(cfg, rules, g, g.tasks[i])
  {
    forall d | d in g.tasks[i].deps ensures d < |h.tasks| && h.tasks[d].status == Done {
      assert g.tasks[d].status == Done;
      assert d !in ready;
    }
  }

  /** q is p after the turn of its ready task i. */
  ghost predicate TookTurn(cfg: Config, rules: seq<Rule>, w: World, p: Machine, q: Machine, i: TaskId)
    requires IsReady(p.goal, i)
  {
    && p.asked <= q.asked && Total(w.replies, p.asked) <= Total(w.replies, q.asked)
    && Effect(p.goal, q.goal, i, Total(w.replies, q.asked) - Total(w.replies, p.asked))
    && q.goal.tasks[i] == TurnRow(p.goal.tasks[i], Judge(cfg, rules, p.goal, p.goal.tasks[i]), w.outcomes(p.calls), w.replies(p.asked))
  }

  lemma TaskTurn(cfg: Config, rules: seq<Rule>, w: World, p: Machine, i: TaskId)
    requires IsReady(p.goal, i)
    ensures TookTurn(cfg, rules, w, p, ProcessTask(cfg, rules, w, p, i), i)
  {
    hide Judge, TurnRow, AllEnabled, ApplyAll, TaskWrites, IsReady;
    TaskEnabled(cfg, rules, p.goal, i, w.outcomes(p.calls), w.replies(p.asked));
  }

  lemma {:induction false} BatchSound(cfg: Config, rules: seq<Rule>, w: World, m: Machine, ready: seq<TaskId>)
    requires Distinct(ready) && forall k | k in ready :: IsReady(m.goal, k)
    ensures BatchEffect(cfg, rules, m.goal, RunBatch(cfg, rules, w, m, ready).goal, ready)
    ensures var p := RunBatch(cfg, rules, w, m, ready);
            && m.asked <= p.asked
            && |p.goal.tasks| == |m.goal.tasks| + Total(w.replies, p.asked) - Total(w.replies, m.asked)
  {
    hide *;
    if ready == [] {
      EmptyBatch(cfg, rules, w, m);
    } else {
      var last := |ready| - 1;
      var before, i := ready[..last], ready[last];
      assert ready == before + [i];
      PrefixDistinct(ready, last);
      BatchSound(cfg, rules, w, m, before);
      var p := RunBatch(cfg, rules, w, m, before);
      ReadyStaysReady(cfg, rules, m.goal, p.goal, before, i);
      RunBatchLast(cfg, rules, w, m, ready);
      TaskTurn(cfg, rules, w, p, i);
      TurnExtends(cfg, rules, w, m.goal, p, ProcessTask(cfg, rules, w, p, i), before, i);
    }
  }

  lemma EmptyBatch(cfg: Config, rules: seq<Rule>, w: World, m: Machine)
    ensures RunBatch(cfg, rules, w, m, []) == m && BatchEffect(cfg, rules, m.goal, m.goal, [])
  {
    hide Judge, TurnRow;
  }

  lemma PrefixDistinct(ready: seq<TaskId>, k: nat)
    requires Distinct(ready) && k < |ready|
    ensures Distinct(ready[..k]) && ready[k] !in ready[..k]
    ensures forall i | i in ready[..k] :: i in ready
  {
  }

  lemma RunBatchLast(cfg: Config, rules: seq<Rule>, w: World, m: Machine, ready: seq<TaskId>)
    requires ready != []
    ensures var p, i := RunBatch(cfg, rules, w, m, ready[..|ready| - 1]), ready[|ready| - 1];
            RunBatch(cfg, rules, w, m, ready) == if IsReady(p.goal, i) then ProcessTask(cfg, rules, w, p, i) else p
  {
  }

  /** One more turn on top of a batch. */
  lemma TurnExtends(cfg: Config, rules: seq<Rule>, w: World, g: Goal, p: Machine, q: Machine, before: seq<TaskId>, i: TaskId)
    requires BatchEffect(cfg, rules, g, p.goal, before) && i !in before && IsReady(g, i) && IsReady(p.goal, i)
    requires p.goal.tasks[i] == g.tasks[i] && Judge(cfg, rules, p.goal, g.tasks[i]) == Judge(cfg, rules, g, g.tasks[i])
    requires TookTurn(cfg, rules, w, p, q, i)
    ensures BatchEffect(cfg, rules, g, q.goal, before + [i]) && p.asked <= q.asked
    ensures |q.goal.tasks| == |p.goal.tasks| + Total(w.replies, q.asked) - Total(w.replies, p.asked)
  {
    hide Judge, TurnRow, AllDone, Total;
    if p.goal.status == GoalFailed && AnyFailed(p.goal) {
      var j :| 0 <= j < |p.goal.tasks| && p.goal.tasks[j].status == Failed;
      assert q.goal.tasks[j] == p.goal.tasks[j];
    }
  }

  lemma {:induction false} BatchContinues(cfg: Config, rules: seq<Rule>, w: World, m: Machine, ready: seq<TaskId>)
    ensures Continues(m, RunBatch(cfg, rules, w, m, ready))
  {
    if ready != [] {
      var last := |ready| - 1;
      var i := ready[last];
      BatchContinues(cfg, rules, w, m, ready[..last]);
      var p := RunBatch(cfg, rules, w, m, ready[..last]);
      if IsReady(p.goal, i) {
        var gate := Judge(cfg, rules, p.goal, p.goal.tasks[i]);
        TaskEnabled(cfg, rules, p.goal, i, w.outcomes(p.calls), w.replies(p.asked));
        IssueContinues(m, p, TaskWrites(p.goal.tasks[i], i, gate, w.outcomes(p.calls), w.replies(p.asked)));
      }
    }
  }

  /** A step is a run of enabled writes. */
  lemma StepContinues(cfg: Config, rules: seq<Rule>, w: World, m: Machine)
    ensures Continues(m, StepGoal(cfg, rules, w, m))
  {
    var p := RunBatch(cfg, rules, w, m, ReadyList(m.goal));
    BatchContinues(cfg, rules, w, m, ReadyList(m.goal));
    if Verdict(p.goal).Some? {
      OneWrite(p.goal, Conclude);
      IssueContinues(m, p, [Conclude]);
    }
  }

  lemma StepIsBatch(cfg: Config, rules: seq<Rule>, w: World, m: Machine)
    requires m.goal.status !in {GoalDraft, GoalDone, GoalFailed}
    ensures var p, q := RunBatch(cfg, rules, w, m, ReadyList(m.goal)), StepGoal(cfg, rules, w, m);
            && q.goal == p.goal.(status := if Verdict(p.goal).Some? then Verdict(p.goal).value else p.goal.status)
            && q.asked == p.asked && Verdict(q.goal) == Verdict(p.goal)
  {
    var p := RunBatch(cfg, rules, w, m, ReadyList(m.goal));
    if Verdict(p.goal).Some? {
      OneWrite(p.goal, Conclude);
    }
  }

  /** What a step does to a goal it may work on: every ready task takes its turn, no other
      row changes, and the status ends as the completion check says; where that says
      nothing it is kept, unless a replanning answer aborted the goal. */
  lemma StepEffect(cfg: Config, rules: seq<Rule>, w: World, m: Machine)
    requires m.goal.status !in {GoalDraft, GoalDone, GoalFailed}
    ensures var g, h := m.goal, StepGoal(cfg, rules, w, m).goal;
            && BatchEffect(cfg, rules, g, h.(status := if Verdict(h).Some? then g.status else h.status), ReadyList(g))
            && (Verdict(h).Some? ==> h.status == Verdict(h).value)
            && (forall i: TaskId :: i in ReadyList(g) <==> IsReady(g, i))
  {
    hide Judge, TurnRow, AllDone, Total, ProcessTask, RunBatch, StepGoal;
    ReadyUpToMeaning(m.goal, |m.goal.tasks|);
    BatchSound(cfg, rules, w, m, ReadyList(m.goal));
    StepIsBatch(cfg, rules, w, m);
  }

  /** The gate over runs: a step starts a task only if the rules and the risk table allow it. */
  lemma StartedOnlyIfPermitted(cfg: Config, rules: seq<Rule>, w: World, m: Machine, i: TaskId)
    requires cfg.autonomous && i < |m.goal.tasks|
    ensures var g, h := m.goal, StepGoal(cfg, rules, w, m).goal;
            var req := RequestFor(cfg, g, g.tasks[i]);
            i < |h.tasks| && (h.tasks[i].attempts != g.tasks[i].attempts ==>
              && h.tasks[i].attempts == g.tasks[i].attempts + 1
              && IsReady(g, i)
              && !AnySelects(rules, req, cfg.normalize, false)
              && (AnySelects(rules, req, cfg.normalize, true) || cfg.risk(req.action) == Low))
  {
    if m.goal.status !in {GoalDraft, GoalDone, GoalFailed} {
      StepEffect(cfg, rules, w, m);
      hide StepGoal, ReadyList, RequestFor, BlockerReason, AnySelects, DecisionFor, AllDone, Verdict;
      DecisionMeaning(rules, RequestFor(cfg, m.goal, m.goal.tasks[i]), cfg.normalize, cfg.risk);
    }
  }

  /** The turns of a step while other conversations store rules: the k-th ready task is
      judged by the rules stored when its turn comes. */
  function RunTurns(cfg: Config, tables: nat -> seq<Rule>, w: World, m: Machine, ready: seq<TaskId>): Machine {
    if ready == [] then m
    else
      var k := |ready| - 1;
      var p := RunTurns(cfg, tables, w, m, ready[..k]);
      if IsReady(p.goal, ready[k]) then ProcessTask(cfg, tables(k), w, p, ready[k]) else p
  }

  /** With one rule table throughout, these are the turns of a step. */
  lemma {:induction false} OneTable(cfg: Config, rules: seq<Rule>, w: World, m: Machine, ready: seq<TaskId>)
    ensures RunTurns(cfg, k => rules, w, m, ready) == RunBatch(cfg, rules, w, m, ready)
  {
    if ready != [] {
      OneTable(cfg, rules, w, m, ready[..|ready| - 1]);
      hide ProcessTask;
    }
  }

  /** What turns leave of the rows. */
  ghost predicate Turned(g: Goal, h: Goal, ready: seq<TaskId>) {
    && |g.tasks| <= |h.tasks| && h.source == g.source && h.channel == g.channel
    && (forall k | 0 <= k < |g.tasks| && k !in ready :: h.tasks[k] == g.tasks[k])
  }

  predicate Permitted(cfg: Config, rules: seq<Rule>, req: Request) {
    !AnySelects(rules, req, cfg.normalize, false) &&
    (AnySelects(rules, req, cfg.normalize, true) || cfg.risk(req.action) == Low)
  }

  /** The k-th task took its turn, and was started only if the table at its turn permits. */
  predicate TurnGated(cfg: Config, rules: seq<Rule>, g: Goal, h: Goal, i: TaskId) {
    i < |g.tasks| && i < |h.tasks| &&
    (h.tasks[i].attempts == g.tasks[i].attempts ||
     (h.tasks[i].attempts == g.tasks[i].attempts + 1 && Permitted(cfg, rules, RequestFor(cfg, g, g.tasks[i]))))
  }

  lemma OneGated(cfg: Config, rules: seq<Rule>, w: World, g: Goal, p: Machine, i: TaskId)
    requires cfg.autonomous && IsReady(g, i) && IsReady(p.goal, i) && p.goal.tasks[i] == g.tasks[i]
    requires p.goal.source == g.source && p.goal.channel == g.channel
    ensures TurnGated(cfg, rules, g, ProcessTask(cfg, rules, w, p, i).goal, i)
  {
    TaskTurn(cfg, rules, w, p, i);
    DecisionMeaning(rules, RequestFor(cfg, g, g.tasks[i]), cfg.normalize, cfg.risk);
    assert RequestFor(cfg, g, g.tasks[i]) == RequestFor(cfg, p.goal, g.tasks[i]);
    hide ProcessTask, RequestFor, BlockerReason, AnySelects, DecisionFor, AllDone;
  }

  lemma StillReady(g: Goal, h: Goal, ready: seq<TaskId>, i: TaskId)
    requires Turned(g, h, ready) && i !in ready && IsReady(g, i) && forall k | k in ready :: IsReady(g, k)
    ensures IsReady(h, i) && h.tasks[i] == g.tasks[i]
  {
    forall d | d in g.tasks[i].deps ensures d < |h.tasks| && h.tasks[d].status == Done {
      assert g.tasks[d].status == Done && d !in ready;
    }
  }

  lemma OthersTurned(cfg: Config, rules: seq<Rule>, w: World, g: Goal, p: Machine, before: seq<TaskId>, i: TaskId)
    requires Turned(g, p.goal, before) && IsReady(p.goal, i) && i < |g.tasks|
    ensures var h := ProcessTask(cfg, rules, w, p, i).goal;
            Turned(g, h, before + [i]) && forall j | 0 <= j < |p.goal.tasks| && j != i :: j < |h.tasks| && h.tasks[j] == p.goal.tasks[j]
  {
    TaskTurn(cfg, rules, w, p, i);
    hide ProcessTask, Judge, TurnRow, Total;
  }

  /** The gate at every turn: whatever rules are stored while a step is under way, each ready
      task is started at most once, and only if the rules stored at its turn and the risk
      table permit it; no other task is started. */
  lemma {:induction false} GatedAtEveryTurn(cfg: Config, tables: nat -> seq<Rule>, w: World, m: Machine, ready: seq<TaskId>)
    requires cfg.autonomous && Distinct(ready) && forall k | k in ready :: IsReady(m.goal, k)
    ensures var h := RunTurns(cfg, tables, w, m, ready).goal;
            && Turned(m.goal, h, ready)
            && forall k | 0 <= k < |ready| :: TurnGated(cfg, tables(k), m.goal, h, ready[k])
  {
    if ready != [] {
      hide *;
      var last := |ready| - 1;
      var before, i := ready[..last], ready[last];
      var p, q := RunTurns(cfg, tables, w, m, before), RunTurns(cfg, tables, w, m, ready);
      PrefixDistinct(ready, last);
      GatedAtEveryTurn(cfg, tables, w, m, before);
      StillReady(m.goal, p.goal, before, i);
      OneGated(cfg, tables(last), w, m.goal, p, i);
      OthersTurned(cfg, tables(last), w, m.goal, p, before, i);
      RunTurnsLast(cfg, tables, w, m, ready);
      GatedKept(cfg, tables, m.goal, p.goal, q.goal, before, i);
      assert before + [i] == ready;
    }
  }

  lemma GatedKept(cfg: Config, tables: nat -> seq<Rule>, g: Goal, p: Goal, q: Goal, before: seq<TaskId>, i: TaskId)
    requires forall k | 0 <= k < |before| :: TurnGated(cfg, tables(k), g, p, before[k])
    requires i !in before && TurnGated(cfg, tables(|before|), g, q, i)
    requires forall k | 0 <= k < |p.tasks| && k != i :: k < |q.tasks| && q.tasks[k] == p.tasks[k]
    ensures forall k | 0 <= k < |before| + 1 :: TurnGated(cfg, tables(k), g, q, (before + [i])[k])
  {
    hide Permitted, RequestFor;
    forall k | 0 <= k < |before| ensures TurnGated(cfg, tables(k), g, q, before[k]) {
      assert before[k] in before;
    }
  }

  lemma RunTurnsLast(cfg: Config, tables: nat -> seq<Rule>, w: World, m: Machine, ready: seq<TaskId>)
    requires ready != []
    ensures var k := |ready| - 1;
            var p := RunTurns(cfg, tables, w, m, ready[..k]);
            RunTurns(cfg, tables, w, m, ready) == if IsReady(p.goal, ready[k]) then ProcessTask(cfg, tables(k), w, p, ready[k]) else p
  {
  }

  // --- progress ---

  function DoneCount(tasks: seq<Task>): nat {
    if tasks == [] then 0
    else DoneCount(tasks[..|tasks| - 1]) + (if tasks[|tasks| - 1].status == Done then 1 else 0)
  }

  lemma {:induction false} DoneCountBound(tasks: seq<Task>)
    ensures DoneCount(tasks) <= |tasks|
  {
    if tasks != [] {
      DoneCountBound(tasks[..|tasks| - 1]);
    }
  }

  lemma {:induction false} DoneCountGrows(before: seq<Task>, after: seq<Task>, n: nat, i: TaskId)
    requires n <= |before| && n <= |after|
    requires forall k | 0 <= k < n :: before[k].status == Done ==> after[k].status == Done
    requires i < |after| && after[i].status == Done && (i < |before| ==> before[i].status != Done)
    ensures DoneCount(after[..n]) >= DoneCount(before[..n]) + (if i < n then 1 else 0)
  {
    if n > 0 {
      DoneCountGrows(before, after, n - 1, i);
      assert before[..n][..n - 1] == before[..n - 1] && after[..n][..n - 1] == after[..n - 1];
    }
  }

  lemma {:induction false} DoneCountPrefix(tasks: seq<Task>, n: nat)
    requires n <= |tasks|
    ensures DoneCount(tasks[..n]) <= DoneCount(tasks)
    decreases |tasks| - n
  {
    if n == |tasks| {
      assert tasks[..n] == tasks;
    } else {
      DoneCountPrefix(tasks, n + 1);
      assert tasks[..n + 1][..n] == tasks[..n];
    }
  }

  /** Work left: tasks not DONE, plus replacements the planner may still add. */
  function Left(w: World, budget: nat, m: Machine): int {
    |m.goal.tasks| - DoneCount(m.goal.tasks) + budget - Total(w.replies, m.asked)
  }

  /** A planner that adds at most budget replacements, however often it is asked. */
  ghost predicate AddsAtMost(w: World, budget: nat) {
    forall n: nat :: Total(w.replies, n) <= budget
  }

  lemma LeftIsNat(w: World, budget: nat, m: Machine)
    requires AddsAtMost(w, budget)
    ensures Left(w, budget, m) >= 0
  {
    DoneCountBound(m.goal.tasks);
  }

  predicate Executes(cfg: Config, rules: seq<Rule>, w: World, m: Machine) {
    exists i | i in ReadyList(m.goal) :: HasStatus(StepGoal(cfg, rules, w, m).goal, i, Done)
  }

  /** A step never adds work beyond what the planner spends, and one that executes a task
      leaves strictly less. */
  lemma StepProgress(cfg: Config, rules: seq<Rule>, w: World, m: Machine, budget: nat)
    requires m.goal.status !in {GoalDraft, GoalDone, GoalFailed}
    requires Executes(cfg, rules, w, m)
    ensures Left(w, budget, StepGoal(cfg, rules, w, m)) < Left(w, budget, m)
  {
    var g, ready := m.goal, ReadyList(m.goal);
    var h := StepGoal(cfg, rules, w, m).goal;
    StepIsBatch(cfg, rules, w, m);
    ReadyUpToMeaning(g, |g.tasks|);
    BatchSound(cfg, rules, w, m, ready);
    var i :| i in ready && HasStatus(h, i, Done);
    assert IsReady(g, i);
    forall k | 0 <= k < |g.tasks| && g.tasks[k].status == Done ensures h.tasks[k].status == Done {
      assert k !in ready;
    }
    DoneCountGrows(g.tasks, h.tasks, |g.tasks|, i);
    DoneCountPrefix(h.tasks, |g.tasks|);
    assert g.tasks[..|g.tasks|] == g.tasks;
  }

  // --- user input, approval, recovery, rules ---

  const DENY_WORDS := {"no", "n", "deny", "reject"}
  const COMMAND_WORDS := {"allow command", "allow command prefix", "always for this command"}
  const PATH_WORDS := {"allow path", "allow file", "allow file path", "always for this path"}
  const SESSION_WORDS := {"allow session", "session", "always for session"}

  /** The first task, looking from the given one on, that user input can resolve. */
  function FirstAnswerable(g: Goal, start: nat): (r: Option<TaskId>)
    ensures r.None? ==> forall k | start <= k < |g.tasks| :: !Answerable(g.tasks[k])
    ensures r.Some? ==> start <= r.value < |g.tasks| && Answerable(g.tasks[r.value])
    ensures r.Some? ==> forall k | start <= k < r.value :: !Answerable(g.tasks[k])
    decreases |g.tasks| - start
  {
    if start >= |g.tasks| then None
    else if Answerable(g.tasks[start]) then Some(start)
    else FirstAnswerable(g, start + 1)
  }

  datatype InputEffect = InputEffect(writes: seq<Write>, rule: Option<Rule>, reply: string)

  function Reopening(g: Goal): seq<Write> {
    if g.status == GoalBlocked then [Reopen] else []
  }

  datatype Choice = Denied | ByCommand | ByPath | BySession | Plain

  /** How an approval is worded. */
  function ChoiceOf(text: string): Choice {
    var normalized := Text.Lower(Text.Strip(text));
    if normalized in DENY_WORDS then Denied
    else if normalized in COMMAND_WORDS then ByCommand
    else if normalized in PATH_WORDS then ByPath
    else if normalized in SESSION_WORDS then BySession
    else Plain
  }

  function ApprovalInput(cfg: Config, g: Goal, i: TaskId, choice: Choice): InputEffect
    requires i < |g.tasks|
  {
    var t := g.tasks[i];
    var action := Some(ActionFor(t.kind));
    var resume := [Resume(i)] + Reopening(g);
    var confirmed := InputEffect(resume, None, "Confirmed. Resuming goal.");
    match choice
    case Denied => InputEffect([Refuse(i)], None, "Denied. Goal task marked as failed.")
    case ByCommand =>
      if !cfg.autonomous || t.kind != SandboxExec then confirmed
      else InputEffect(resume, Some(Rule(CommandPrefix, Text.Strip(t.instruction), action, AllowByRule)),
                       "Approved for matching commands. Resuming goal.")
    case ByPath =>
      var path := PlannedPath(t, cfg.resolve);
      if !cfg.autonomous || path.None? then confirmed
      else InputEffect(resume, Some(Rule(PathPrefix, cfg.normalize(path.value), action, AllowByRule)),
                       "Approved for matching file paths. Resuming goal.")
    case BySession =>
      InputEffect(resume, if cfg.autonomous then Some(Rule(Session, SessionId(g), action, AllowForSession)) else None,
                  "Approved for this session. Resuming goal.")
    case Plain => confirmed
  }

  /** User text goes to the first task that is waiting for it. */
  function OnInput(cfg: Config, g: Goal, text: string): InputEffect {
    match FirstAnswerable(g, 0)
    case None => InputEffect([], None, "No blocked task found matching this input.")
    case Some(i) =>
      var t := g.tasks[i];
      if t.kind == CredentialRequest then
        InputEffect([Answer(i, "Credential '" + t.instruction + "' provided")] + Reopening(g), None,
                    "Credential received. Resuming goal.")
      else if t.kind == WaitInput then
        InputEffect([Answer(i, text)] + Reopening(g), None, "Input received. Resuming goal.")
      else ApprovalInput(cfg, g, i, ChoiceOf(text))
  }

  /** User input writes nothing, or one row of the first answerable task and then, unless
      it was a refusal, reopens a blocked goal. */
  ghost predicate Shaped(g: Goal, ws: seq<Write>) {
    match FirstAnswerable(g, 0)
    case None => ws == []
    case Some(i) =>
      && ws != [] && (ws[0].Answer? || ws[0].Resume? || ws[0].Refuse?) && ws[0].id == i
      && (ws[0].Answer? <==> TakesText(g.tasks[i]))
      && ws[1..] == (if ws[0].Refuse? then [] else Reopening(g))
  }

  lemma ApprovalShape(cfg: Config, g: Goal, i: TaskId, choice: Choice)
    requires FirstAnswerable(g, 0) == Some(i) && !TakesText(g.tasks[i])
    ensures Shaped(g, ApprovalInput(cfg, g, i, choice).writes)
    ensures ApprovalInput(cfg, g, i, choice).writes[0] == (if choice.Denied? then Refuse(i) else Resume(i))
  {
    hide FirstAnswerable, PlannedPath, Answerable, Text.Strip;
  }

  lemma {:induction false} InputShape(cfg: Config, g: Goal, text: string)
    ensures Shaped(g, OnInput(cfg, g, text).writes)
  {
    hide ChoiceOf, Answerable;
    match FirstAnswerable(g, 0)
    case None =>
    case Some(i) =>
      if !TakesText(g.tasks[i]) {
        ApprovalShape(cfg, g, i, ChoiceOf(text));
      }
  }

  lemma NoWrites(g: Goal)
    ensures AllEnabled(g, []) && ApplyAll(g, []) == g
  {
  }

  lemma {:induction false} InputEnabled(cfg: Config, g: Goal, text: string)
    ensures var ws := OnInput(cfg, g, text).writes;
            && AllEnabled(g, ws)
            && (ws != [] ==>
                && Enabled(g, ws[0])
                && ApplyAll(g, ws) == Apply(g, ws[0]).(status := if g.status == GoalBlocked && !ws[0].Refuse? then GoalExecuting else g.status))
  {
    InputShape(cfg, g, text);
    var ws := OnInput(cfg, g, text).writes;
    if ws != [] {
      var first := ws[0];
      assert Enabled(g, first) && Apply(g, first).status == g.status;
      OneWrite(g, first);
      if g.status == GoalBlocked && !first.Refuse? {
        OneWrite(Apply(g, first), Reopen);
        ApplyAllAppend(g, [first], [Reopen]);
        assert ws == [first] + [Reopen];
      } else {
        assert ws == [first];
      }
    }
  }

  function ApproveWrites(g: Goal): seq<Write> {
    if g.status in {GoalDraft, GoalApproved, GoalPlanning} then [Approve, Execute] else []
  }

  lemma ApproveEnabled(g: Goal)
    ensures AllEnabled(g, ApproveWrites(g))
    ensures ApplyAll(g, ApproveWrites(g)) ==
            if g.status in {GoalDraft, GoalApproved, GoalPlanning} then g.(status := GoalExecuting) else g
  {
    if g.status in {GoalDraft, GoalApproved, GoalPlanning} {
      OneWrite(g, Approve);
      OneWrite(Apply(g, Approve), Execute);
      ApplyAllAppend(g, [Approve], [Execute]);
      assert [Approve] + [Execute] == [Approve, Execute];
    }
  }

  // --- sequences of operations ---

  /** A goal with the rule table its approvals are checked against. */
  datatype System = System(m: Machine, rules: seq<Rule>)

  datatype Operation = StepOp | InputOp(text: string) | ApproveOp | RecoverOp | StoreRule(rule: Rule)

  function WithRule(cfg: Config, rules: seq<Rule>, r: Option<Rule>): seq<Rule> {
    if r.Some? && cfg.connected then rules + [r.value] else rules
  }

  function Do(cfg: Config, w: World, s: System, op: Operation): System {
    match op
    case StepOp => s.(m := StepGoal(cfg, s.rules, w, s.m))
    case InputOp(text) =>
      InputEnabled(cfg, s.m.goal, text);
      var e := OnInput(cfg, s.m.goal, text);
      System(Issue(s.m, e.writes), WithRule(cfg, s.rules, e.rule))
    case ApproveOp =>
      ApproveEnabled(s.m.goal);
      s.(m := Issue(s.m, ApproveWrites(s.m.goal)))
    case RecoverOp =>
      OneWrite(s.m.goal, Recover);
      s.(m := Issue(s.m, [Recover]))
    case StoreRule(r) => s.(rules := WithRule(cfg, s.rules, Some(r)))
  }

  function DoAll(cfg: Config, w: World, s: System, ops: seq<Operation>): System
    decreases |ops|
  {
    if ops == [] then s else DoAll(cfg, w, Do(cfg, w, s, ops[0]), ops[1..])
  }

  predicate NoneRunning(g: Goal) {
    forall i | 0 <= i < |g.tasks| :: g.tasks[i].status != Running
  }

  predicate BlockedIsTrue(g: Goal) {
    g.status == GoalBlocked ==> AllSettledOrBlocked(g)
  }

  predicate FailedIsTrue(g: Goal) {
    g.status == GoalFailed ==> AnyFailed(g)
  }

  /** What holds of a goal whenever no operation on it is under way. */
  predicate Boundary(g: Goal) {
    Inv(g) && NoneRunning(g) && BlockedIsTrue(g) && FailedIsTrue(g)
  }

  lemma TurnEnds(t: Task, gate: GateAnswer, outcome: ExecOutcome, reply: ReplanReply)
    ensures TurnRow(t, gate, outcome, reply).status !in {Running, Ready}
  {
  }

  lemma StepLeavesNoneRunning(cfg: Config, rules: seq<Rule>, w: World, m: Machine)
    requires NoneRunning(m.goal)
    ensures NoneRunning(StepGoal(cfg, rules, w, m).goal)
  {
    var g, h := m.goal, StepGoal(cfg, rules, w, m).goal;
    if g.status !in {GoalDraft, GoalDone, GoalFailed} {
      StepEffect(cfg, rules, w, m);
      forall i | 0 <= i < |h.tasks| ensures h.tasks[i].status != Running {
        if i < |g.tasks| && i in ReadyList(g) {
          var outcome, reply :| h.tasks[i] == TurnRow(g.tasks[i], Judge(cfg, rules, g, g.tasks[i]), outcome, reply);
          TurnEnds(g.tasks[i], Judge(cfg, rules, g, g.tasks[i]), outcome, reply);
        } else if i < |g.tasks| {
          assert h.tasks[i] == g.tasks[i];
        }
      }
    }
  }

  lemma {:induction false} NothingReady(g: Goal, n: nat)
    requires AllSettledOrBlocked(g) && n <= |g.tasks|
    ensures ReadyUpTo(g, n) == []
  {
    if n > 0 {
      NothingReady(g, n - 1);
      assert Settled(g.tasks[n - 1]) || g.tasks[n - 1].status == Blocked;
    }
  }

  lemma StepStatus(cfg: Config, rules: seq<Rule>, w: World, m: Machine)
    requires BlockedIsTrue(m.goal) && FailedIsTrue(m.goal)
    ensures var h := StepGoal(cfg, rules, w, m).goal; BlockedIsTrue(h) && FailedIsTrue(h)
  {
    var g, h := m.goal, StepGoal(cfg, rules, w, m).goal;
    if g.status !in {GoalDraft, GoalDone, GoalFailed} {
      StepEffect(cfg, rules, w, m);
      if Verdict(h).None? && g.status == GoalBlocked {
        NothingReady(g, |g.tasks|);
        StepIsBatch(cfg, rules, w, m);
        assert h.tasks == g.tasks;
        assert AllSettledOrBlocked(h);
      }
    }
  }

  lemma StepKeepsBoundary(cfg: Config, rules: seq<Rule>, w: World, m: Machine)
    requires Boundary(m.goal)
    ensures Boundary(StepGoal(cfg, rules, w, m).goal)
  {
    StepKeepsInv(cfg, rules, w, m);
    StepLeavesNoneRunning(cfg, rules, w, m);
    StepStatus(cfg, rules, w, m);
  }

  lemma StepKeepsInv(cfg: Config, rules: seq<Rule>, w: World, m: Machine)
    requires Inv(m.goal)
    ensures Inv(StepGoal(cfg, rules, w, m).goal) && Later(m.goal, StepGoal(cfg, rules, w, m).goal)
  {
    var p := StepGoal(cfg, rules, w, m);
    StepContinues(cfg, rules, w, m);
    RunKeepsInv(m.goal, p.log[|m.log|..]);
  }

  lemma {:induction false} InputKeepsBoundary(cfg: Config, g: Goal, text: string)
    requires Boundary(g)
    ensures AllEnabled(g, OnInput(cfg, g, text).writes)
    ensures Boundary(ApplyAll(g, OnInput(cfg, g, text).writes))
  {
    hide OnInput, FirstAnswerable, Answerable, Inv, AllEnabled, ApplyAll;
    var ws := OnInput(cfg, g, text).writes;
    InputEnabled(cfg, g, text);
    RunKeepsInv(g, ws);
    if ws == [] {
      assert ApplyAll(g, ws) == g by { NoWrites(g); }
    } else {
      InputShape(cfg, g, text);
      var h := Apply(g, ws[0]);
      var i := ws[0].id;
      assert h.tasks == g.tasks[i := h.tasks[i]] && h.tasks[i].status in {Done, Failed, Pending};
      if g.status == GoalFailed {
        var k :| 0 <= k < |g.tasks| && g.tasks[k].status == Failed;
        assert h.tasks[k].status == Failed;
      }
    }
  }

  /** Every operation keeps what holds between operations, is a run of enabled writes, and
      leaves a goal that is DONE or FAILED with the status it has. */
  lemma {:induction false} DoKeeps(cfg: Config, w: World, s: System, op: Operation)
    requires Boundary(s.m.goal)
    ensures var t := Do(cfg, w, s, op);
            && Boundary(t.m.goal) && Continues(s.m, t.m)
            && (s.m.goal.status in {GoalDone, GoalFailed} ==> t.m.goal.status == s.m.goal.status)
  {
    var g := s.m.goal;
    assert Continues(s.m, s.m);
    match op
    case StepOp =>
      StepKeepsBoundary(cfg, s.rules, w, s.m);
      StepContinues(cfg, s.rules, w, s.m);
    case InputOp(text) =>
      InputKeepsBoundary(cfg, g, text);
      InputEnabled(cfg, g, text);
      IssueContinues(s.m, s.m, OnInput(cfg, g, text).writes);
    case ApproveOp =>
      ApproveEnabled(g);
      RunKeepsInv(g, ApproveWrites(g));
      IssueContinues(s.m, s.m, ApproveWrites(g));
    case RecoverOp =>
      OneWrite(g, Recover);
      WriteKeepsInv(g, Recover);
      assert Apply(g, Recover).tasks == g.tasks;
      IssueContinues(s.m, s.m, [Recover]);
    case StoreRule(_) =>
  }

  /** Goal status over whole runs: after any sequence of operations, BLOCKED means every
      task is settled or blocked, DONE that every task is DONE or SKIPPED, FAILED that some
      task FAILED; and a DONE or FAILED goal keeps that status through all of them. */
  lemma {:induction false} StatusTruthfulAndFinal(cfg: Config, w: World, s: System, ops: seq<Operation>)
    requires Boundary(s.m.goal)
    ensures var h := DoAll(cfg, w, s, ops).m.goal;
            && Boundary(h)
            && (h.status == GoalBlocked ==> AllSettledOrBlocked(h))
            && (h.status == GoalDone ==> AllSettled(h) && !AnyFailed(h))
            && (h.status == GoalFailed ==> AnyFailed(h))
            && (s.m.goal.status in {GoalDone, GoalFailed} ==> h.status == s.m.goal.status)
            && (s.m.goal.status == GoalDone ==> h == s.m.goal)
    decreases |ops|
  {
    if ops != [] {
      var t := Do(cfg, w, s, ops[0]);
      DoKeeps(cfg, w, s, ops[0]);
      RunKeepsInv(s.m.goal, t.m.log[|s.m.log|..]);
      StatusTruthfulAndFinal(cfg, w, t, ops[1..]);
    }
  }

  /** A crash between the two writes of a resume is the one way user input can leave a
      BLOCKED goal with a task that is neither settled nor blocked. */
  lemma {:induction false} CrashDuringInput(cfg: Config, g: Goal, text: string, k: nat)
    requires Boundary(g) && k <= |OnInput(cfg, g, text).writes|
    ensures var ws := OnInput(cfg, g, text).writes;
            && AllEnabled(g, ws[..k])
            && (BlockedIsTrue(ApplyAll(g, ws[..k])) <==> !(g.status == GoalBlocked && k == 1 && ws[0].Resume?))
  {
    hide ChoiceOf, Answerable;
    var ws := OnInput(cfg, g, text).writes;
    InputEnabled(cfg, g, text);
    InputShape(cfg, g, text);
    RunSplits(g, ws, k);
    if k == 0 {
      assert ws[..k] == [];
    } else if k == |ws| {
      assert ws[..k] == ws;
      InputKeepsBoundary(cfg, g, text);
    } else {
      assert ws[..k] == [ws[0]] && g.status == GoalBlocked;
      OneWrite(g, ws[0]);
      InterruptedInput(g, ws[0]);
    }
  }

  lemma InterruptedInput(g: Goal, w: Write)
    requires Enabled(g, w) && BlockedIsTrue(g) && g.status == GoalBlocked && (w.Answer? || w.Resume?)
    ensures BlockedIsTrue(Apply(g, w)) <==> w.Answer?
  {
    var h := Apply(g, w);
    assert h.tasks == g.tasks[w.id := h.tasks[w.id]];
    if w.Resume? {
      assert h.tasks[w.id].status == Pending;
    }
  }

  const SENDING_GOAL := Goal("cli", "cli", GoalExecuting, [SENDING])
  const WAITING_GOAL := Goal("cli", "cli", GoalBlocked, [TurnRow(SENDING, Judge(ASKING, [], SENDING_GOAL, SENDING), Returned(""), NoDecision)])

  /** A concrete crash of that kind: a goal whose only task the gate asked about, and that a
      step stored as BLOCKED, is left BLOCKED with that task pending. */
  lemma CrashLeavesPending(w: World, calls: nat, asked: nat)
    ensures var ws := OnInput(ASKING, WAITING_GOAL, "allow").writes;
            && StepGoal(ASKING, [], w, Machine(SENDING_GOAL, calls, asked, [])).goal == WAITING_GOAL
            && Boundary(WAITING_GOAL) && |ws| > 1 && AllEnabled(WAITING_GOAL, ws[..1])
            && !BlockedIsTrue(ApplyAll(WAITING_GOAL, ws[..1]))
  {
    hide ChoiceOf, OnInput, ApplyAll, AllEnabled, Boundary, Shaped, StepGoal;
    AsksAndBlocks(w, calls, asked);
    WaitingBoundary();
    AllowIsPlain();
    InputShape(ASKING, WAITING_GOAL, "allow");
    ResumeFirst(ASKING, WAITING_GOAL, 0, "allow");
    ShapedResume(WAITING_GOAL, OnInput(ASKING, WAITING_GOAL, "allow").writes);
    CrashDuringInput(ASKING, WAITING_GOAL, "allow", 1);
  }

  lemma WaitingBoundary()
    ensures Boundary(WAITING_GOAL) && FirstAnswerable(WAITING_GOAL, 0) == Some(0)
    ensures !TakesText(WAITING_GOAL.tasks[0]) && WAITING_GOAL.status == GoalBlocked
  {
    TwoJudged(SENDING_GOAL);
    GateReasonsAreAnswerable(SENDING, DecisionFor([], RequestFor(ASKING, SENDING_GOAL, SENDING), ASKING.normalize, ASKING.risk));
    hide BlockerReason, DecisionFor, RequestFor, Text.Contains, Text.Lower;
    assert Answerable(WAITING_GOAL.tasks[0]);
  }

  lemma AsksAndBlocks(w: World, calls: nat, asked: nat)
    ensures StepGoal(ASKING, [], w, Machine(SENDING_GOAL, calls, asked, [])).goal == WAITING_GOAL
  {
    var m := Machine(SENDING_GOAL, calls, asked, []);
    assert ReadyUpTo(SENDING_GOAL, 1) == [0] by {
      assert ReadyUpTo(SENDING_GOAL, 0) == [];
    }
    assert [0][..0] == [] && RunBatch(ASKING, [], w, m, []) == m;
    TwoJudged(SENDING_GOAL);
    hide Judge, ProcessTask;
    TaskTurn(ASKING, [], w, m, 0);
    OneBlocked(ASKING, w, m);
  }

  /** A lone task the gate asks about. */
  lemma OneBlocked(cfg: Config, w: World, m: Machine)
    requires |m.goal.tasks| == 1 && IsReady(m.goal, 0) && Judge(cfg, [], m.goal, m.goal.tasks[0]).Asked?
    requires m.goal.status == GoalExecuting && ReadyList(m.goal) == [0]
    ensures StepGoal(cfg, [], w, m).goal ==
            m.goal.(status := GoalBlocked, tasks := [TurnRow(m.goal.tasks[0], Judge(cfg, [], m.goal, m.goal.tasks[0]), Returned(""), NoDecision)])
  {
    var t := m.goal.tasks[0];
    var reason := Judge(cfg, [], m.goal, t).reason;
    TaskEnabled(cfg, [], m.goal, 0, w.outcomes(m.calls), w.replies(m.asked));
    hide Judge;
    OneWrite(m.goal, Gate(0, reason));
    var h := Apply(m.goal, Gate(0, reason));
    assert [0][..0] == [] && RunBatch(cfg, [], w, m, []) == m;
    assert RunBatch(cfg, [], w, m, [0]).goal == h;
    StepIsBatch(cfg, [], w, m);
    assert h.tasks[0].status == Blocked && !Settled(h.tasks[0]);
    assert h.tasks == [h.tasks[0]];
  }

  lemma AllowIsPlain()
    ensures ChoiceOf("allow") == Plain
  {
    Text.StripFixes("allow");
    assert Text.Lower("allow") == "allow";
    hide Text.Strip;
  }

  lemma ResumeFirst(cfg: Config, g: Goal, i: TaskId, text: string)
    requires FirstAnswerable(g, 0) == Some(i) && !TakesText(g.tasks[i]) && !ChoiceOf(text).Denied?
    ensures OnInput(cfg, g, text).writes != [] && OnInput(cfg, g, text).writes[0] == Resume(i)
  {
    hide ChoiceOf, FirstAnswerable, Shaped;
    ApprovalShape(cfg, g, i, ChoiceOf(text));
  }

  lemma ShapedResume(g: Goal, ws: seq<Write>)
    requires Shaped(g, ws) && ws != [] && ws[0].Resume? && g.status == GoalBlocked
    ensures |ws| == 2
  {
    hide FirstAnswerable;
  }

  lemma RecoverStops(g: Goal)
    ensures NoneRunning(Apply(g, Recover))
  {
  }

  /** A crash anywhere inside a step, followed by recovery, leaves the invariant intact and
      nothing running; no completed task is lost. */
  lemma CrashDuringStep(cfg: Config, rules: seq<Rule>, w: World, m: Machine, k: nat)
    requires Inv(m.goal)
    requires |m.log| <= k <= |StepGoal(cfg, rules, w, m).log|
    ensures var ws := StepGoal(cfg, rules, w, m).log[|m.log|..k];
            && AllEnabled(m.goal, ws)
            && var h := Apply(ApplyAll(m.goal, ws), Recover);
            Inv(h) && NoneRunning(h) && Later(m.goal, h)
  {
    var all := StepGoal(cfg, rules, w, m).log[|m.log|..];
    var ws := StepGoal(cfg, rules, w, m).log[|m.log|..k];
    StepContinues(cfg, rules, w, m);
    RunSplits(m.goal, all, k - |m.log|);
    assert all[..k - |m.log|] == ws;
    RecoverStops(ApplyAll(m.goal, ws));
    hide *;
    RunKeepsInv(m.goal, ws);
    WriteKeepsInv(ApplyAll(m.goal, ws), Recover);
    LaterTransitive(m.goal, ApplyAll(m.goal, ws), Apply(ApplyAll(m.goal, ws), Recover));
  }

  // --- approvals that last, and approvals that do not ---

  /** The answer stores a rule that covers the blocked task. Plain consent stores none; a
      command rule needs a command to match, a path rule a path. */
  predicate StoresUsableRule(cfg: Config, t: Task, choice: Choice) {
    var path := PlannedPath(t, cfg.resolve);
    && cfg.autonomous && cfg.connected
    && match choice
       case ByCommand => t.kind == SandboxExec && t.instruction != ""
       case ByPath => path.Some? && path.value != ""
       case BySession => true
       case _ => false
  }

  /** A stored reusable approval passes its task under any rules stored besides it until a
      covering deny rule is. */
  lemma StoredApprovalPasses(cfg: Config, g: Goal, text: string, rules: seq<Rule>, later: seq<Rule>, h: Goal)
    requires FirstAnswerable(g, 0).Some?
    requires var t := g.tasks[FirstAnswerable(g, 0).value];
             !TakesText(t) && StoresUsableRule(cfg, t, ChoiceOf(text))
    requires forall r | r in WithRule(cfg, rules, OnInput(cfg, g, text).rule) :: r in later
    requires h.source == g.source && h.channel == g.channel
    ensures var t := g.tasks[FirstAnswerable(g, 0).value];
            Judge(cfg, later, h, t).Pass? <==> !AnySelects(later, RequestFor(cfg, h, t), cfg.normalize, false)
  {
    hide ChoiceOf, Answerable, FirstAnswerable, BlockerReason;
    var t := g.tasks[FirstAnswerable(g, 0).value];
    var rule := OnInput(cfg, g, text).rule;
    var req := RequestFor(cfg, h, t);
    assert rule.Some? && rule.value in WithRule(cfg, rules, rule);
    if rule.value.scope == CommandPrefix {
      Text.StripIsStripped(t.instruction);
      Text.StripFixes(Text.Strip(t.instruction));
    }
    assert Covers(rule.value, req, cfg.normalize);
    AllowRuleLasts(later, rule.value, req, cfg.normalize, cfg.risk);
  }

  lemma {:induction false} RulesOnlyGrow(cfg: Config, w: World, s: System, ops: seq<Operation>)
    ensures forall r | r in s.rules :: r in DoAll(cfg, w, s, ops).rules
    decreases |ops|
  {
    if ops != [] {
      RulesOnlyGrow(cfg, w, Do(cfg, w, s, ops[0]), ops[1..]);
      hide OnInput, StepGoal, Issue, ApproveWrites;
    }
  }

  lemma {:induction false} OperationsMoveOn(cfg: Config, w: World, s: System, ops: seq<Operation>)
    requires Boundary(s.m.goal)
    ensures Later(s.m.goal, DoAll(cfg, w, s, ops).m.goal)
    decreases |ops|
  {
    if ops != [] {
      var t := Do(cfg, w, s, ops[0]);
      DoKeeps(cfg, w, s, ops[0]);
      RunKeepsInv(s.m.goal, t.m.log[|s.m.log|..]);
      OperationsMoveOn(cfg, w, t, ops[1..]);
      LaterTransitive(s.m.goal, t.m.goal, DoAll(cfg, w, s, ops).m.goal);
    }
  }

  lemma JudgedAlike(cfg: Config, rules: seq<Rule>, g: Goal, t: Task, u: Task)
    requires t.kind == u.kind && t.instruction == u.instruction
    ensures RequestFor(cfg, g, t) == RequestFor(cfg, g, u) && Judge(cfg, rules, g, t).Pass? == Judge(cfg, rules, g, u).Pass?
  {
    hide BlockerReason, DecisionFor;
  }

  /** Reusable approvals make progress: once the user has answered a blocked task with one,
      its row passes the gate after every later sequence of operations, whatever rules they
      store, exactly until a deny rule selects it. */
  lemma ReusableApprovalLasts(cfg: Config, w: World, s: System, text: string, ops: seq<Operation>)
    requires Boundary(s.m.goal) && FirstAnswerable(s.m.goal, 0).Some?
    requires var t := s.m.goal.tasks[FirstAnswerable(s.m.goal, 0).value];
             !TakesText(t) && StoresUsableRule(cfg, t, ChoiceOf(text))
    ensures var i := FirstAnswerable(s.m.goal, 0).value;
            var later := DoAll(cfg, w, Do(cfg, w, s, InputOp(text)), ops);
            i < |later.m.goal.tasks| &&
            var row := later.m.goal.tasks[i];
            Judge(cfg, later.rules, later.m.goal, row).Pass? <==>
              !AnySelects(later.rules, RequestFor(cfg, later.m.goal, row), cfg.normalize, false)
  {
    hide ChoiceOf, Answerable, FirstAnswerable, StoresUsableRule, Judge, DoAll, AnySelects, RequestFor, Boundary, StepGoal;
    var g := s.m.goal;
    var i := FirstAnswerable(g, 0).value;
    var answered := Do(cfg, w, s, InputOp(text));
    var later := DoAll(cfg, w, answered, ops);
    assert answered.rules == WithRule(cfg, s.rules, OnInput(cfg, g, text).rule);
    DoKeeps(cfg, w, s, InputOp(text));
    BoundaryInv(g);
    RunKeepsInv(g, answered.m.log[|s.m.log|..]);
    OperationsMoveOn(cfg, w, answered, ops);
    RulesOnlyGrow(cfg, w, answered, ops);
    LaterTransitive(g, answered.m.goal, later.m.goal);
    hide Do, OnInput, WithRule, Continues;
    assert RowLater(g.tasks[i], later.m.goal.tasks[i]);
    StoredApprovalPasses(cfg, g, text, s.rules, later.rules, later.m.goal);
    JudgedAlike(cfg, later.rules, later.m.goal, g.tasks[i], later.m.goal.tasks[i]);
  }

  lemma BoundaryInv(g: Goal)
    requires Boundary(g)
    ensures Inv(g)
  {
  }

  /** Exactly which consents last: with no other rule added, a task that was asked about
      passes its next evaluation if and only if the answer stored a rule that covers it. */
  lemma {:induction false} ConsentLastsIff(cfg: Config, g: Goal, text: string, rules: seq<Rule>, h: Goal)
    requires FirstAnswerable(g, 0).Some?
    requires var t := g.tasks[FirstAnswerable(g, 0).value];
             !TakesText(t) && Judge(cfg, rules, g, t).Asked?
    requires h.source == g.source && h.channel == g.channel
    ensures var t := g.tasks[FirstAnswerable(g, 0).value];
            var after := Judge(cfg, WithRule(cfg, rules, OnInput(cfg, g, text).rule), h, t);
            after.Pass? == StoresUsableRule(cfg, t, ChoiceOf(text)) && !after.Refused?
  {
    hide ChoiceOf, Answerable, FirstAnswerable, BlockerReason;
    var t := g.tasks[FirstAnswerable(g, 0).value];
    var rule := OnInput(cfg, g, text).rule;
    var req := RequestFor(cfg, h, t);
    assert req == RequestFor(cfg, g, t);
    if StoresUsableRule(cfg, t, ChoiceOf(text)) {
      assert AnySelects(rules, req, cfg.normalize, false) == false by {
        DecisionMeaning(rules, req, cfg.normalize, cfg.risk);
      }
      assert IsAllowRule(rule.value);
      assert WithRule(cfg, rules, rule) == rules + [rule.value];
      StoredApprovalPasses(cfg, g, text, rules, rules + [rule.value], h);
    } else if rule.Some? && cfg.connected {
      assert !Covers(rule.value, req, cfg.normalize);
      AddingARule(rules, rule.value, req, cfg.normalize, cfg.risk);
    }
  }

  /** Consent that stores no usable rule makes no progress: the task becomes ready again and
      the next step blocks it again, without ever starting it. */
  lemma ConsentAsksAgain(cfg: Config, rules: seq<Rule>, w: World, m: Machine, text: string)
    requires Inv(m.goal) && m.goal.status == GoalBlocked && FirstAnswerable(m.goal, 0).Some?
    requires var i := FirstAnswerable(m.goal, 0).value;
             !TakesText(m.goal.tasks[i]) && Judge(cfg, rules, m.goal, m.goal.tasks[i]).Asked? &&
             !StoresUsableRule(cfg, m.goal.tasks[i], ChoiceOf(text))
    requires !ChoiceOf(text).Denied?
    ensures var i := FirstAnswerable(m.goal, 0).value;
            var t := Do(cfg, w, System(m, rules), InputOp(text));
            var u := Do(cfg, w, t, StepOp);
            && IsReady(t.m.goal, i)
            && HasStatus(u.m.goal, i, Blocked) && u.m.goal.tasks[i].attempts == m.goal.tasks[i].attempts
  {
    hide ChoiceOf, Answerable, FirstAnswerable, ApplyAll, AllEnabled, StepGoal, Judge, StoresUsableRule, RequestFor;
    var g := m.goal;
    var i := FirstAnswerable(g, 0).value;
    InputEnabled(cfg, g, text);
    ApprovalShape(cfg, g, i, ChoiceOf(text));
    var h := Apply(g, Resume(i)).(status := GoalExecuting);
    var t := Do(cfg, w, System(m, rules), InputOp(text));
    assert t.m.goal == h;
    assert AllDone(h, g.tasks[i].deps) by {
      assert AllDone(g, g.tasks[i].deps);
    }
    ConsentLastsIff(cfg, g, text, rules, h);
    AskedAlike(cfg, t.rules, h, g.tasks[i], h.tasks[i]);
    StepAsks(cfg, t.rules, w, t.m, i);
  }

  /** The gate looks at what a task is to do, not at its state. */
  lemma AskedAlike(cfg: Config, rules: seq<Rule>, g: Goal, t: Task, u: Task)
    requires t.kind == u.kind && t.instruction == u.instruction
    ensures Judge(cfg, rules, g, t).Asked? == Judge(cfg, rules, g, u).Asked?
  {
    assert RequestFor(cfg, g, t) == RequestFor(cfg, g, u);
    hide RequestFor, BlockerReason, DecisionFor;
  }

  lemma StepAsks(cfg: Config, rules: seq<Rule>, w: World, m: Machine, i: TaskId)
    requires m.goal.status == GoalExecuting && IsReady(m.goal, i) && Judge(cfg, rules, m.goal, m.goal.tasks[i]).Asked?
    ensures var h := StepGoal(cfg, rules, w, m).goal;
            HasStatus(h, i, Blocked) && h.tasks[i].attempts == m.goal.tasks[i].attempts
  {
    StepEffect(cfg, rules, w, m);
  }

  // --- how a run can stop short ---

  /** A lone task whose attempt fails is put back, but the step executed nothing, so the
      run loop stops although the task is ready and has attempts left. */
  lemma LoneFailureStalls(cfg: Config, rules: seq<Rule>, w: World, m: Machine)
    requires |m.goal.tasks| == 1 && IsReady(m.goal, 0) && m.goal.status == GoalExecuting
    requires Judge(cfg, rules, m.goal, m.goal.tasks[0]).Pass? && Fails(m.goal.tasks[0], w.outcomes(m.calls))
    requires m.goal.tasks[0].attempts + 1 < m.goal.tasks[0].maxAttempts
    ensures var p := StepGoal(cfg, rules, w, m);
            && p.goal.status == GoalExecuting && IsReady(p.goal, 0)
            && p.goal.tasks[0].attempts == m.goal.tasks[0].attempts + 1
            && Verdict(p.goal).None? && !Executes(cfg, rules, w, m)
  {
    assert ReadyUpTo(m.goal, 1) == [0] by {
      assert ReadyUpTo(m.goal, 0) == [];
    }
    assert [0][..0] == [] && RunBatch(cfg, rules, w, m, []) == m;
    TaskTurn(cfg, rules, w, m, 0);
    var h := ProcessTask(cfg, rules, w, m, 0).goal;
    assert |h.tasks| == 1 by {
      TaskEnabled(cfg, rules, m.goal, 0, w.outcomes(m.calls), w.replies(m.asked));
    }
    assert !Settled(h.tasks[0]) && h.tasks[0].status != Blocked;
  }

  /** Once every task is settled or doomed, and one is doomed, a step does nothing at all:
      the goal keeps its status for ever. */
  lemma WedgedGoalStays(cfg: Config, rules: seq<Rule>, w: World, m: Machine, i: TaskId)
    requires Inv(m.goal) && Idle(m.goal) && i < |m.goal.tasks| && Doomed(m.goal, i)
    ensures StepGoal(cfg, rules, w, m) == m
  {
    if m.goal.status !in {GoalDraft, GoalDone, GoalFailed} {
      IdleHasNoReady(m.goal, |m.goal.tasks|);
      assert ReadyList(m.goal) == [];
      assert !Settled(m.goal.tasks[i]);
    }
  }

  lemma {:induction false} IdleHasNoReady(g: Goal, n: nat)
    requires Idle(g) && n <= |g.tasks|
    ensures ReadyUpTo(g, n) == []
  {
    if n > 0 {
      IdleHasNoReady(g, n - 1);
      assert !Active(g, n - 1);
    }
  }

  /** An abort during a step survives its completion check exactly when the turns of the step
      leave every task settled, or some task neither settled nor blocked. */
  lemma AbortSurvivesIff(cfg: Config, rules: seq<Rule>, w: World, m: Machine)
    requires m.goal.status !in {GoalDraft, GoalDone, GoalFailed}
    requires RunBatch(cfg, rules, w, m, ReadyList(m.goal)).goal.status == GoalFailed
    ensures var turned := RunBatch(cfg, rules, w, m, ReadyList(m.goal)).goal;
            var h := StepGoal(cfg, rules, w, m).goal;
            && (h.status == GoalFailed <==> AllSettled(turned) || !AllSettledOrBlocked(turned))
            && (h.status != GoalFailed ==> h.status == GoalBlocked)
  {
    ReadyUpToMeaning(m.goal, |m.goal.tasks|);
    BatchSound(cfg, rules, w, m, ReadyList(m.goal));
    StepIsBatch(cfg, rules, w, m);
  }

  const FAILING := Task(LlmReason, "", "", Pending, [], None, None, None, 2, 3)
  const SENDING := Task(SendMessage, "", "", Pending, [], None, None, None, 0, 3)

  const ASKING := Config(true, true, a => if a == ActSendMessage then High else Low, s => s, None)
  const ABORTING := World(n => Raised("error"), n => AbortIt)
  const TWO_TASKS := Goal("cli", "cli", GoalExecuting, [FAILING, SENDING])

  lemma TwoReady()
    ensures ReadyList(TWO_TASKS) == [0, 1]
  {
    assert ReadyUpTo(TWO_TASKS, 0) == [];
    assert ReadyUpTo(TWO_TASKS, 1) == [0];
  }

  lemma TwoJudged(g: Goal)
    ensures Judge(ASKING, [], g, FAILING).Pass? && Judge(ASKING, [], g, SENDING).Asked?
  {
    hide PlannedPath, BlockerReason, DecisionFor;
    DecisionMeaning([], RequestFor(ASKING, g, FAILING), ASKING.normalize, ASKING.risk);
    DecisionMeaning([], RequestFor(ASKING, g, SENDING), ASKING.normalize, ASKING.risk);
  }

  /** A concrete goal whose abort is overwritten: one task fails its last attempt and the
      planner aborts, the other waits for approval, and the step stores BLOCKED. */
  lemma {:induction false} AbortOverwritten()
    ensures var m := Machine(TWO_TASKS, 0, 0, []);
            && RunBatch(ASKING, [], ABORTING, m, ReadyList(m.goal)).goal.status == GoalFailed
            && StepGoal(ASKING, [], ABORTING, m).goal.status == GoalBlocked
  {
    hide Judge, StepGoal, Verdict, IsApprovalBlocker, ProcessTask, RunBatch, ReadyList;
    var m := Machine(TWO_TASKS, 0, 0, []);
    TwoReady();
    TwoJudged(TWO_TASKS);
    AbortingTask(ASKING, ABORTING, m);
    TwoTaskAbort(ASKING, ABORTING, m);
  }

  /** An aborted first task followed by one the gate asks about. */
  lemma TwoTaskAbort(cfg: Config, w: World, m: Machine)
    requires |m.goal.tasks| == 2 && ReadyList(m.goal) == [0, 1] && IsReady(m.goal, 0) && IsReady(m.goal, 1)
    requires m.goal.status == GoalExecuting && ProcessTask(cfg, [], w, m, 0).goal.status == GoalFailed
    requires forall n: nat :: Added(w.replies(n)) == 0
    requires Judge(cfg, [], m.goal, m.goal.tasks[1]).Asked?
    ensures RunBatch(cfg, [], w, m, ReadyList(m.goal)).goal.status == GoalFailed
    ensures StepGoal(cfg, [], w, m).goal.status == GoalBlocked
  {
    hide Judge, StepGoal, IsApprovalBlocker, ProcessTask, RunBatch, ReadyList;
    TaskTurn(cfg, [], w, m, 0);
    var p := ProcessTask(cfg, [], w, m, 0);
    NothingAdded(w, m.asked);
    NothingAdded(w, p.asked);
    assert p.goal.tasks[0].status == Failed && p.goal.tasks[1] == m.goal.tasks[1] && IsReady(p.goal, 1);
    assert Judge(cfg, [], p.goal, p.goal.tasks[1]).Asked? by { SameJudge(cfg, [], m.goal, p.goal, p.goal.tasks[1]); }
    TaskTurn(cfg, [], w, p, 1);
    var q := ProcessTask(cfg, [], w, p, 1);
    NothingAdded(w, q.asked);
    RunTwo(cfg, [], w, m);
    assert q.goal.tasks[1].status == Blocked && q.goal.tasks[0].status == Failed && |q.goal.tasks| == 2;
    assert q.goal.status == GoalFailed;
    StepIsBatch(cfg, [], w, m);
    AbortSurvivesIff(cfg, [], w, m);
  }

  lemma SameJudge(cfg: Config, rules: seq<Rule>, g: Goal, h: Goal, t: Task)
    requires g.source == h.source && g.channel == h.channel
    ensures Judge(cfg, rules, g, t) == Judge(cfg, rules, h, t)
  {
    assert RequestFor(cfg, g, t) == RequestFor(cfg, h, t);
  }

  lemma RunTwo(cfg: Config, rules: seq<Rule>, w: World, m: Machine)
    requires IsReady(m.goal, 0) && IsReady(ProcessTask(cfg, rules, w, m, 0).goal, 1)
    ensures RunBatch(cfg, rules, w, m, [0, 1]) == ProcessTask(cfg, rules, w, ProcessTask(cfg, rules, w, m, 0), 1)
  {
    hide ProcessTask;
    assert [0][..0] == [] && [0, 1][..1] == [0];
    assert RunBatch(cfg, rules, w, m, []) == m;
    assert RunBatch(cfg, rules, w, m, [0]) == ProcessTask(cfg, rules, w, m, 0);
  }

  lemma {:induction false} NothingAdded(w: World, n: nat)
    requires forall k: nat :: Added(w.replies(k)) == 0
    ensures Total(w.replies, n) == 0
  {
    if n > 0 {
      NothingAdded(w, n - 1);
    }
  }

  /** A task that fails its last attempt while the planner answers with an abort. */
  lemma AbortingTask(cfg: Config, w: World, m: Machine)
    requires IsReady(m.goal, 0) && Judge(cfg, [], m.goal, m.goal.tasks[0]).Pass?
    requires m.goal.tasks[0].kind == LlmReason && m.goal.tasks[0].attempts + 1 >= m.goal.tasks[0].maxAttempts
    requires w.outcomes(m.calls).Raised? && w.replies(m.asked) == AbortIt
    ensures ProcessTask(cfg, [], w, m, 0).goal.status == GoalFailed
  {
    var t, error := m.goal.tasks[0], w.outcomes(m.calls).error;
    var g1 := Apply(m.goal, Start(0));
    var g2 := Apply(g1, GiveUp(0, error));
    assert HasStatus(g2, 0, Failed);
    OneWrite(g2, Abort);
    OneWrite(g1, GiveUp(0, error));
    ApplyAllAppend(g1, [GiveUp(0, error)], [Abort]);
    OneWrite(m.goal, Start(0));
    ApplyAllAppend(m.goal, [Start(0)], [GiveUp(0, error)] + [Abort]);
    assert ExecWrites(t, 0, w.outcomes(m.calls), w.replies(m.asked)) == [GiveUp(0, error)] + [Abort];
    TaskEnabled(cfg, [], m.goal, 0, w.outcomes(m.calls), w.replies(m.asked));
  }

  // --- a fresh plan ---

  /** The stored goal once planning ends: every resolvable task up to the first bad one,
      and ready for review only if all of them were resolved. */
  function PlannedGoal(source: string, channel: string, specs: seq<Spec>): Goal {
    PlanEnabled(NewGoal(source, channel), specs);
    var g := ApplyAll(NewGoal(source, channel), PlanWrites(specs, 0));
    if PlanOk(specs, 0) then Apply(g, Drafted) else g
  }

  lemma {:induction false} PlanRows(g: Goal, specs: seq<Spec>, i: nat)
    requires g.status == GoalPlanning && i < |PlanWrites(specs, |g.tasks|)| <= |specs|
    ensures AllEnabled(g, PlanWrites(specs, |g.tasks|))
    ensures var n := |g.tasks|;
            var h := ApplyAll(g, PlanWrites(specs, n));
            && n + i < |h.tasks| && Resolve(specs[i].indices, n + i).Some?
            && h.tasks[n + i] == NewTask(specs[i], Resolve(specs[i].indices, n + i).value)
    decreases |specs|
  {
    var n := |g.tasks|;
    var ws := PlanWrites(specs, n);
    PlanEnabled(g, specs);
    var h := Apply(g, ws[0]);
    assert ws[1..] == PlanWrites(specs[1..], n + 1) && h.tasks[n] == NewTask(specs[0], Resolve(specs[0].indices, n).value);
    PlanEnabled(h, specs[1..]);
    if i > 0 {
      PlanWritesBound(specs[1..], n + 1);
      PlanRows(h, specs[1..], i - 1);
    }
  }

  lemma {:induction false} PlanWritesBound(specs: seq<Spec>, n: nat)
    ensures |PlanWrites(specs, n)| <= |specs|
    ensures var k := |PlanWrites(specs, n)|; k < |specs| ==> Resolve(specs[k].indices, n + k).None?
    decreases |specs|
  {
    if PlanWrites(specs, n) != [] {
      PlanWritesBound(specs[1..], n + 1);
    }
  }

  /** Row t is spec's task at position i. */
  ghost predicate PlannedAs(t: Task, spec: Spec, i: TaskId) {
    && FromSpec(t, spec, t.deps)
    && (forall idx | idx in spec.indices :: idx + i >= 0)
    && (forall d: TaskId :: d in t.deps <==> Names(spec.indices, i, d))
  }

  /** What planning stores, for every list of specs: task i depends exactly on the earlier
      tasks its indices name, counted from the start, or from the end when negative; later
      indices are dropped. Planning fails exactly when some index reaches below the first
      task, and then only the tasks before that spec are stored. */
  lemma PlanMeaning(source: string, channel: string, specs: seq<Spec>)
    ensures var g := PlannedGoal(source, channel, specs);
            && |g.tasks| <= |specs|
            && (g.status == GoalDraft <==> |g.tasks| == |specs|)
            && (g.status != GoalDraft ==> g.status == GoalPlanning && exists idx :: idx in specs[|g.tasks|].indices && idx + |g.tasks| < 0)
            && forall i | 0 <= i < |g.tasks| :: PlannedAs(g.tasks[i], specs[i], i)
  {
    var g0 := NewGoal(source, channel);
    var g := PlannedGoal(source, channel, specs);
    PlanEnabled(g0, specs);
    PlanWritesBound(specs, 0);
    if |g.tasks| < |specs| {
      ResolveMeaning(specs[|g.tasks|].indices, |g.tasks|);
    }
    forall i | 0 <= i < |g.tasks| ensures PlannedAs(g.tasks[i], specs[i], i) {
      PlanRows(g0, specs, i);
      ResolveMeaning(specs[i].indices, i);
      var deps := Resolve(specs[i].indices, i).value;
      assert g.tasks[i].deps == deps;
    }
  }

  /** What planning makes of the stored goal: it looks at no status. */
  function Planning(g: Goal, specs: seq<Spec>): Goal
    decreases |specs|
  {
    if specs == [] then WithDraft(g)
    else
      match Resolve(specs[0].indices, |g.tasks|)
      case None => g
      case Some(deps) => Planning(WithPlanned(g, specs[0], deps), specs[1..])
  }

  lemma {:induction false} PlanningIs(g: Goal, status: GoalStatus, specs: seq<Spec>)
    requires g.status == GoalPlanning
    ensures AllEnabled(g, PlanWrites(specs, |g.tasks|))
    ensures Planning(g.(status := status), specs) ==
            ApplyAll(g, PlanWrites(specs, |g.tasks|)).(status := if PlanOk(specs, |g.tasks|) then GoalDraft else status)
    decreases |specs|
  {
    PlanEnabled(g, specs);
    var ws := PlanWrites(specs, |g.tasks|);
    if ws != [] {
      var deps := Resolve(specs[0].indices, |g.tasks|).value;
      assert ws[1..] == PlanWrites(specs[1..], |g.tasks| + 1);
      PlanningIs(WithPlanned(g, specs[0], deps), status, specs[1..]);
      assert WithPlanned(g.(status := status), specs[0], deps) == WithPlanned(g, specs[0], deps).(status := status);
    }
  }

  /** An approval that arrives while the planning model is still answering: a step then finds
      no task and stores DONE. The planning writes that follow add the planned tasks all the
      same and store DRAFT over DONE; or, if planning raises half-way, they leave the goal DONE
      with pending tasks. */
  lemma ApprovedWhilePlanning(source: string, channel: string, specs: seq<Spec>)
    ensures var ws := [Approve, Execute, Conclude];
            && AllEnabled(NewGoal(source, channel), ws)
            && var g := ApplyAll(NewGoal(source, channel), ws);
            && g.status == GoalDone
            && var h := Planning(g, specs);
            && h.tasks == PlannedGoal(source, channel, specs).tasks
            && h.status == (if PlanOk(specs, 0) then GoalDraft else GoalDone)
            && (!PlanOk(specs, 0) && h.tasks != [] ==> !DoneIsTrue(h))
  {
    var g := NewGoal(source, channel);
    var h := Apply(Apply(g, Approve), Execute);
    OneWrite(h, Conclude);
    OneWrite(Apply(g, Approve), Execute);
    ApplyAllAppend(Apply(g, Approve), [Execute], [Conclude]);
    OneWrite(g, Approve);
    ApplyAllAppend(g, [Approve], [Execute] + [Conclude]);
    assert [Approve] + ([Execute] + [Conclude]) == [Approve, Execute, Conclude];
    assert Apply(h, Conclude) == g.(status := GoalDone);
    PlanningIs(g, GoalDone, specs);
    PlanEnabled(g, specs);
    hide Verdict, Settled, AnyFailed;
    PlanMeaning(source, channel, specs);
    var planned := PlannedGoal(source, channel, specs);
    assert Planning(g.(status := GoalDone), specs).tasks == planned.tasks;
    if planned.tasks != [] {
      NotSettled(planned.tasks[0]);
    }
  }

  lemma NotSettled(t: Task)
    requires t.status == Pending
    ensures !Settled(t)
  {
  }

  /** A fresh plan is reachable, acyclic and satisfies everything operations keep. */
  lemma PlanIsBoundary(source: string, channel: string, specs: seq<Spec>)
    ensures Reachable(PlannedGoal(source, channel, specs)) && Boundary(PlannedGoal(source, channel, specs))
  {
    var g0 := NewGoal(source, channel);
    var g := PlannedGoal(source, channel, specs);
    var ws := PlanWrites(specs, 0);
    PlanEnabled(g0, specs);
    assert Reachable(ApplyAll(g0, ws));
    if PlanOk(specs, 0) {
      ReachableStep(ApplyAll(g0, ws), Drafted);
    }
    ReachableInv(g);
    PlanMeaning(source, channel, specs);
  }

  /** Reachability carries over every sequence of operations, so all that is proved about
      reachable goals holds throughout. */
  lemma {:induction false} OperationsReachable(cfg: Config, w: World, s: System, ops: seq<Operation>)
    requires Boundary(s.m.goal) && Reachable(s.m.goal)
    ensures Reachable(DoAll(cfg, w, s, ops).m.goal)
    decreases |ops|
  {
    if ops != [] {
      var t := Do(cfg, w, s, ops[0]);
      DoKeeps(cfg, w, s, ops[0]);
      ReachableRun(s.m.goal, t.m.log[|s.m.log|..]);
      OperationsReachable(cfg, w, t, ops[1..]);
    }
  }
}
