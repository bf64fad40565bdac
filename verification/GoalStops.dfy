/** What a stopped run leaves behind: ready tasks it never returns to, and blocked tasks that
    no message can reach. */
module GoalStops {
  import opened Prelude
  import opened GoalModel
  import opened GoalSafety
  import opened Approval
  import opened GoalOps
  import opened GoalRuns
  import opened GoalEngine

  /** A goal a step works on. */
  predicate Works(g: Goal) {
    g.status !in {GoalDraft, GoalDone, GoalFailed}
  }

  /** The state in which the k-th ready task of a step takes its turn. */
  function TurnStart(cfg: Config, rules: seq<Rule>, w: World, m: Machine, k: nat): Machine
    requires k < |ReadyList(m.goal)|
  {
    RunBatch(cfg, rules, w, m, ReadyList(m.goal)[..k])
  }

  /** The k-th ready task runs and fails. */
  predicate TurnFails(cfg: Config, rules: seq<Rule>, w: World, m: Machine, k: nat)
    requires k < |ReadyList(m.goal)| && ReadyList(m.goal)[k] < |m.goal.tasks|
  {
    var t := m.goal.tasks[ReadyList(m.goal)[k]];
    Judge(cfg, rules, m.goal, t).Pass? && Fails(t, w.outcomes(TurnStart(cfg, rules, w, m, k).calls))
  }

  /** It is put back with attempts left. */
  predicate PutBack(cfg: Config, rules: seq<Rule>, w: World, m: Machine, k: nat)
    requires k < |ReadyList(m.goal)| && ReadyList(m.goal)[k] < |m.goal.tasks|
  {
    var t := m.goal.tasks[ReadyList(m.goal)[k]];
    TurnFails(cfg, rules, w, m, k) && t.attempts + 1 < t.maxAttempts
  }

  /** Its last attempt fails and the planner names replacements. */
  predicate Replaced(cfg: Config, rules: seq<Rule>, w: World, m: Machine, k: nat)
    requires k < |ReadyList(m.goal)| && ReadyList(m.goal)[k] < |m.goal.tasks|
  {
    var t := m.goal.tasks[ReadyList(m.goal)[k]];
    TurnFails(cfg, rules, w, m, k) && t.attempts + 1 >= t.maxAttempts &&
    Added(w.replies(TurnStart(cfg, rules, w, m, k).asked)) > 0
  }

  lemma ReadyAt(g: Goal, k: nat)
    requires k < |ReadyList(g)|
    ensures IsReady(g, ReadyList(g)[k])
  {
    ReadyUpToMeaning(g, |g.tasks|);
    assert ReadyList(g)[k] in ReadyList(g);
  }

  lemma PrefixReady(g: Goal, k: nat)
    requires k <= |ReadyList(g)|
    ensures Distinct(ReadyList(g)[..k]) && forall i | i in ReadyList(g)[..k] :: IsReady(g, i)
  {
    ReadyUpToMeaning(g, |g.tasks|);
    assert forall i | i in ReadyList(g)[..k] :: i in ReadyList(g);
  }

  /** The k-th turn, as seen from the start of the step. */
  lemma TurnSeen(cfg: Config, rules: seq<Rule>, w: World, m: Machine, k: nat)
    requires k < |ReadyList(m.goal)|
    ensures var i := ReadyList(m.goal)[k];
            var p, q := TurnStart(cfg, rules, w, m, k), RunBatch(cfg, rules, w, m, ReadyList(m.goal)[..k + 1]);
            && IsReady(m.goal, i) && IsReady(p.goal, i) && p.goal.tasks[i] == m.goal.tasks[i]
            && TookTurn(cfg, rules, w, p, q, i)
            && Judge(cfg, rules, p.goal, m.goal.tasks[i]) == Judge(cfg, rules, m.goal, m.goal.tasks[i])
  {
    hide *;
    var ready := ReadyList(m.goal);
    ReadyAt(m.goal, k);
    PrefixReady(m.goal, k);
    PrefixReady(m.goal, |ready|);
    assert ready[..|ready|] == ready;
    PrefixDistinct(ready, k);
    BatchSound(cfg, rules, w, m, ready[..k]);
    TurnIs(cfg, rules, w, m, k);
    ReadyStaysReady(cfg, rules, m.goal, TurnStart(cfg, rules, w, m, k).goal, ready[..k], ready[k]);
    TurnComes(cfg, rules, w, m, k);
    TaskTurn(cfg, rules, w, TurnStart(cfg, rules, w, m, k), ready[k]);
  }

  lemma TurnIs(cfg: Config, rules: seq<Rule>, w: World, m: Machine, k: nat)
    requires k < |ReadyList(m.goal)|
    ensures TurnStart(cfg, rules, w, m, k) == RunBatch(cfg, rules, w, m, ReadyList(m.goal)[..k])
  {
  }

  /** After the first n turns the k-th ready task's row is what its own turn made of it. */
  lemma {:induction false} RowAfter(cfg: Config, rules: seq<Rule>, w: World, m: Machine, k: nat, n: nat)
    requires k < n <= |ReadyList(m.goal)|
    ensures var i := ReadyList(m.goal)[k];
            var p, q := TurnStart(cfg, rules, w, m, k), RunBatch(cfg, rules, w, m, ReadyList(m.goal)[..n]);
            && i < |m.goal.tasks| && i < |q.goal.tasks|
            && q.goal.tasks[i] == TurnRow(m.goal.tasks[i], Judge(cfg, rules, m.goal, m.goal.tasks[i]),
                                          w.outcomes(p.calls), w.replies(p.asked))
  {
    hide *;
    var ready := ReadyList(m.goal);
    var p, q := RunBatch(cfg, rules, w, m, ready[..n - 1]), RunBatch(cfg, rules, w, m, ready[..n]);
    TurnSeen(cfg, rules, w, m, n - 1);
    TurnIs(cfg, rules, w, m, n - 1);
    ReadyAt(m.goal, k);
    if k < n - 1 {
      RowAfter(cfg, rules, w, m, k, n - 1);
      ReadyApart(m.goal, k, n - 1);
      OthersKept(cfg, rules, w, p, q, ready[n - 1], ready[k]);
    } else {
      OwnRow(cfg, rules, w, m, p, q, ready[k]);
    }
    ReadyInRange(m.goal, ready[k]);
  }

  lemma ReadyInRange(g: Goal, i: TaskId)
    requires IsReady(g, i)
    ensures i < |g.tasks|
  {
  }

  lemma ReadyApart(g: Goal, k: nat, j: nat)
    requires k < j < |ReadyList(g)|
    ensures ReadyList(g)[k] != ReadyList(g)[j]
  {
    ReadyUpToMeaning(g, |g.tasks|);
  }

  lemma OthersKept(cfg: Config, rules: seq<Rule>, w: World, p: Machine, q: Machine, i: TaskId, j: TaskId)
    requires IsReady(p.goal, i) && TookTurn(cfg, rules, w, p, q, i) && j != i && j < |p.goal.tasks|
    ensures j < |q.goal.tasks| && q.goal.tasks[j] == p.goal.tasks[j]
  {
    hide Judge, TurnRow;
  }

  lemma OwnRow(cfg: Config, rules: seq<Rule>, w: World, m: Machine, p: Machine, q: Machine, i: TaskId)
    requires IsReady(m.goal, i) && IsReady(p.goal, i) && p.goal.tasks[i] == m.goal.tasks[i]
    requires TookTurn(cfg, rules, w, p, q, i)
    requires Judge(cfg, rules, p.goal, m.goal.tasks[i]) == Judge(cfg, rules, m.goal, m.goal.tasks[i])
    ensures i < |q.goal.tasks|
    ensures q.goal.tasks[i] == TurnRow(m.goal.tasks[i], Judge(cfg, rules, m.goal, m.goal.tasks[i]),
                                       w.outcomes(p.calls), w.replies(p.asked))
  {
    hide Judge, TurnRow;
  }

  /** Rows are appended exactly by the turns that end in a replacement. */
  lemma {:induction false} RowsAppended(cfg: Config, rules: seq<Rule>, w: World, m: Machine, n: nat)
    requires n <= |ReadyList(m.goal)|
    ensures forall k | 0 <= k < |ReadyList(m.goal)| :: ReadyList(m.goal)[k] < |m.goal.tasks|
    ensures |RunBatch(cfg, rules, w, m, ReadyList(m.goal)[..n]).goal.tasks| > |m.goal.tasks| <==>
            exists k | 0 <= k < n :: Replaced(cfg, rules, w, m, k)
    ensures |RunBatch(cfg, rules, w, m, ReadyList(m.goal)[..n]).goal.tasks| >= |m.goal.tasks|
  {
    InRange(cfg, rules, w, m);
    forall k | 0 <= k < |ReadyList(m.goal)| ensures ReadyList(m.goal)[k] < |m.goal.tasks| {
      ReadyAt(m.goal, k);
    }
    if n == 0 {
      BatchStart(cfg, rules, w, m);
      assert ReadyList(m.goal)[..0] == [];
    } else {
      RowsAppended(cfg, rules, w, m, n - 1);
      TurnSeen(cfg, rules, w, m, n - 1);
      TurnAppends(cfg, rules, w, m, n - 1);
      hide TookTurn, RunBatch, ReadyList, Replaced, TurnStart, IsReady, Judge;
      assert (exists k | 0 <= k < n :: Replaced(cfg, rules, w, m, k)) <==>
             (exists k | 0 <= k < n - 1 :: Replaced(cfg, rules, w, m, k)) || Replaced(cfg, rules, w, m, n - 1);
    }
  }

  lemma TurnAppends(cfg: Config, rules: seq<Rule>, w: World, m: Machine, k: nat)
    requires k < |ReadyList(m.goal)| && ReadyList(m.goal)[k] < |m.goal.tasks|
    ensures var p, q := RunBatch(cfg, rules, w, m, ReadyList(m.goal)[..k]), RunBatch(cfg, rules, w, m, ReadyList(m.goal)[..k + 1]);
            && |q.goal.tasks| >= |p.goal.tasks|
            && (|q.goal.tasks| > |p.goal.tasks| <==> Replaced(cfg, rules, w, m, k))
  {
    TurnSeen(cfg, rules, w, m, k);
    TurnComes(cfg, rules, w, m, k);
    var i := ReadyList(m.goal)[k];
    var p := TurnStart(cfg, rules, w, m, k);
    hide RunBatch, ReadyList, Judge, TurnRow, AllEnabled, ApplyAll, TaskWrites, IsReady;
    TaskEnabled(cfg, rules, p.goal, i, w.outcomes(p.calls), w.replies(p.asked));
  }

  // --- ready tasks ---

  lemma WorkingStep(cfg: Config, rules: seq<Rule>, w: World, m: Machine)
    requires Works(m.goal)
    ensures var p, h := RunBatch(cfg, rules, w, m, ReadyList(m.goal)).goal, StepGoal(cfg, rules, w, m).goal;
            h.tasks == p.tasks && Verdict(h) == Verdict(p) && h.status == (if Verdict(p).Some? then Verdict(p).value else p.status)
  {
    StepIsBatch(cfg, rules, w, m);
  }

  /** A task a stopped run leaves ready was put back, or replaces one. */
  lemma LeftReadyMeans(cfg: Config, rules: seq<Rule>, w: World, m: Machine, i: TaskId)
    requires Works(m.goal) && !Executes(cfg, rules, w, m) && IsReady(StepGoal(cfg, rules, w, m).goal, i)
    ensures i >= |m.goal.tasks| || i in ReadyList(m.goal)
  {
    var g, h := m.goal, StepGoal(cfg, rules, w, m).goal;
    StepEffect(cfg, rules, w, m);
    if i < |g.tasks| && i !in ReadyList(g) {
      assert h.tasks[i] == g.tasks[i];
      forall d | d in g.tasks[i].deps ensures d < |g.tasks| && g.tasks[d].status == Done {
        assert HasStatus(h, d, Done);
        assert d !in ReadyList(g);
      }
    }
  }

  lemma StoppedIdle(cfg: Config, rules: seq<Rule>, w: World, m: Machine)
    requires Works(m.goal)
    ensures Stops(cfg, rules, w, m) <==> Verdict(StepGoal(cfg, rules, w, m).goal).Some? || !Executes(cfg, rules, w, m)
  {
    var h := StepGoal(cfg, rules, w, m).goal;
    PickedMeaning(ReadyList(m.goal), h, {Done});
    var done := Picked(ReadyList(m.goal), h, {Done});
    hide Picked, StepGoal, ReadyList;
    if done != [] {
      assert done[0] in done && HasStatus(h, done[0], Done);
    }
    if Executes(cfg, rules, w, m) {
      var i :| i in ReadyList(m.goal) && HasStatus(h, i, Done);
      assert i in done;
    }
  }

  lemma PendingNoVerdict(g: Goal, i: TaskId)
    requires HasStatus(g, i, Pending)
    ensures Verdict(g).None?
  {
    assert !Settled(g.tasks[i]);
  }

  /** Exactly when a stopped run leaves a ready task behind: in its last step some ready task
      failed and was put back with attempts left, or failed its last attempt and was
      replaced. Nothing takes the run up again. */
  lemma LeavesReadyIff(cfg: Config, rules: seq<Rule>, w: World, m: Machine)
    requires Works(m.goal) && Stops(cfg, rules, w, m)
    ensures forall k | 0 <= k < |ReadyList(m.goal)| :: ReadyList(m.goal)[k] < |m.goal.tasks|
    ensures (exists i: TaskId :: IsReady(StepGoal(cfg, rules, w, m).goal, i)) <==>
            exists k | 0 <= k < |ReadyList(m.goal)| :: PutBack(cfg, rules, w, m, k) || Replaced(cfg, rules, w, m, k)
  {
    var ready, h := ReadyList(m.goal), StepGoal(cfg, rules, w, m).goal;
    assert ready[..|ready|] == ready;
    RowsAppended(cfg, rules, w, m, |ready|);
    WorkingStep(cfg, rules, w, m);
    hide StepGoal, RunBatch, ReadyList, Stops, Judge, TurnRow, PutBack, Replaced, Verdict;
    if exists i: TaskId :: IsReady(h, i) {
      var i: TaskId :| IsReady(h, i);
      StoppedIdle(cfg, rules, w, m);
      PendingNoVerdict(h, i);
      LeftReadyMeans(cfg, rules, w, m, i);
      if i < |m.goal.tasks| {
        var k :| 0 <= k < |ready| && ready[k] == i;
        PendingPutBack(cfg, rules, w, m, k);
      }
    }
    if k :| 0 <= k < |ready| && (PutBack(cfg, rules, w, m, k) || Replaced(cfg, rules, w, m, k)) {
      LeavesOne(cfg, rules, w, m, k);
    }
  }

  lemma PendingPutBack(cfg: Config, rules: seq<Rule>, w: World, m: Machine, k: nat)
    requires Works(m.goal) && k < |ReadyList(m.goal)| && ReadyList(m.goal)[k] < |m.goal.tasks|
    ensures HasStatus(StepGoal(cfg, rules, w, m).goal, ReadyList(m.goal)[k], Pending) <==> PutBack(cfg, rules, w, m, k)
  {
    var ready := ReadyList(m.goal);
    assert ready[..|ready|] == ready;
    RowAfter(cfg, rules, w, m, k, |ready|);
    WorkingStep(cfg, rules, w, m);
    hide StepGoal, RunBatch, ReadyList, Judge, ResultOf, ErrorOf, ParkReason;
  }

  lemma LeavesOne(cfg: Config, rules: seq<Rule>, w: World, m: Machine, k: nat)
    requires Works(m.goal) && k < |ReadyList(m.goal)| && ReadyList(m.goal)[k] < |m.goal.tasks|
    requires PutBack(cfg, rules, w, m, k) || Replaced(cfg, rules, w, m, k)
    ensures exists i: TaskId :: IsReady(StepGoal(cfg, rules, w, m).goal, i)
  {
    var g, ready, h := m.goal, ReadyList(m.goal), StepGoal(cfg, rules, w, m).goal;
    assert ready[..|ready|] == ready;
    StepEffect(cfg, rules, w, m);
    WorkingStep(cfg, rules, w, m);
    RowsAppended(cfg, rules, w, m, |ready|);
    PendingPutBack(cfg, rules, w, m, k);
    ReadyAt(g, k);
    var i := if PutBack(cfg, rules, w, m, k) then ready[k] else |g.tasks|;
    hide StepGoal, RunBatch, Judge, PutBack, Replaced, Verdict, ReadyList;
    DepsStayDone(cfg, rules, g, h.(status := if Verdict(h).Some? then g.status else h.status), ready, h.tasks[i].deps);
    assert IsReady(h, i);
  }

  lemma DepsStayDone(cfg: Config, rules: seq<Rule>, g: Goal, h: Goal, ready: seq<TaskId>, deps: seq<TaskId>)
    requires BatchEffect(cfg, rules, g, h, ready) && AllDone(g, deps)
    requires forall i: TaskId :: i in ready ==> IsReady(g, i)
    ensures AllDone(h, deps)
  {
    forall d | d in deps ensures d < |h.tasks| && h.tasks[d].status == Done {
      assert g.tasks[d].status == Done && d !in ready;
    }
  }

  // --- blocked tasks ---

  /** Exactly which tasks a step leaves blocked: those that were, and the ready ones the gate
      asks about. */
  lemma LeavesBlockedIff(cfg: Config, rules: seq<Rule>, w: World, m: Machine, i: TaskId)
    requires Works(m.goal) && i < |m.goal.tasks|
    ensures HasStatus(StepGoal(cfg, rules, w, m).goal, i, Blocked) <==>
            HasStatus(m.goal, i, Blocked) || (IsReady(m.goal, i) && Judge(cfg, rules, m.goal, m.goal.tasks[i]).Asked?)
  {
    StepEffect(cfg, rules, w, m);
    hide StepGoal, ReadyList, Judge, BlockerReason, AllDone, ResultOf, ErrorOf, ParkReason, Verdict;
  }

  /** A message can reach the blocked tasks of a goal: the goal itself is stored as blocked. */
  predicate FoundByMessages(g: Goal) {
    g.status == GoalBlocked
  }

  predicate HasBlocked(g: Goal) {
    exists i | 0 <= i < |g.tasks| :: g.tasks[i].status == Blocked
  }

  /** After a step, the blocked tasks can be reached by a message exactly when every other
      task is settled or blocked too. */
  lemma BlockedReachableIff(cfg: Config, rules: seq<Rule>, w: World, m: Machine)
    requires Works(m.goal) && Boundary(m.goal)
    ensures var h := StepGoal(cfg, rules, w, m).goal;
            HasBlocked(h) ==> (FoundByMessages(h) <==> AllSettledOrBlocked(h))
  {
    var h := StepGoal(cfg, rules, w, m).goal;
    StepKeepsBoundary(cfg, rules, w, m);
    StepEffect(cfg, rules, w, m);
    hide StepGoal, ReadyList, BatchEffect, Inv;
    if HasBlocked(h) && AllSettledOrBlocked(h) {
      var i :| 0 <= i < |h.tasks| && h.tasks[i].status == Blocked;
      assert !Settled(h.tasks[i]);
    }
  }

  lemma {:induction false} RunKeepsBoundary(cfg: Config, rules: seq<Rule>, w: World, m: Machine, n: nat)
    requires Boundary(m.goal)
    ensures Boundary(RunSteps(cfg, rules, w, m, n).goal)
  {
    if n > 0 {
      RunKeepsBoundary(cfg, rules, w, m, n - 1);
      StepKeepsBoundary(cfg, rules, w, RunSteps(cfg, rules, w, m, n - 1));
    }
  }

  lemma RestingStep(cfg: Config, rules: seq<Rule>, w: World, m: Machine)
    requires !Works(m.goal)
    ensures StepGoal(cfg, rules, w, m) == m
  {
  }

  lemma LastStep(cfg: Config, rules: seq<Rule>, w: World, m: Machine, n: nat)
    requires n > 0
    ensures RunSteps(cfg, rules, w, m, n).goal == StepGoal(cfg, rules, w, RunSteps(cfg, rules, w, m, n - 1)).goal
    ensures n == 1 ==> RunSteps(cfg, rules, w, m, n - 1).goal == m.goal
  {
  }

  /** Over a whole run: whatever it leaves blocked can be reached by a message exactly when
      every task is settled or blocked. */
  lemma {:induction false} RunBlockedReachableIff(cfg: Config, rules: seq<Rule>, w: World, m: Machine, n: nat)
    requires Works(m.goal) && Boundary(m.goal) && n > 0
    ensures var h := RunSteps(cfg, rules, w, m, n).goal;
            HasBlocked(h) ==> (FoundByMessages(h) <==> AllSettledOrBlocked(h))
  {
    hide *;
    var last := RunSteps(cfg, rules, w, m, n - 1);
    LastStep(cfg, rules, w, m, n);
    RunKeepsBoundary(cfg, rules, w, m, n - 1);
    if Works(last.goal) {
      BlockedReachableIff(cfg, rules, w, last);
    } else {
      RestingStep(cfg, rules, w, last);
      RunBlockedReachableIff(cfg, rules, w, m, n - 1);
    }
  }

  /** What a stopped run leaves, all of it: the last step decides. */
  lemma StoppedRun(cfg: Config, rules: seq<Rule>, w: World, m: Machine, n: nat)
    requires Works(m.goal) && Boundary(m.goal) && n > 0 && Stops(cfg, rules, w, RunSteps(cfg, rules, w, m, n - 1))
    ensures var last, h := RunSteps(cfg, rules, w, m, n - 1), RunSteps(cfg, rules, w, m, n).goal;
            && (HasBlocked(h) ==> (FoundByMessages(h) <==> AllSettledOrBlocked(h)))
            && (forall k | 0 <= k < |ReadyList(last.goal)| :: ReadyList(last.goal)[k] < |last.goal.tasks|)
            && (Works(last.goal) ==>
                  ((exists i: TaskId :: IsReady(h, i)) <==>
                   exists k | 0 <= k < |ReadyList(last.goal)| :: PutBack(cfg, rules, w, last, k) || Replaced(cfg, rules, w, last, k)))
            && (!Works(last.goal) ==> h == last.goal)
  {
    var last := RunSteps(cfg, rules, w, m, n - 1);
    RunBlockedReachableIff(cfg, rules, w, m, n);
    forall k | 0 <= k < |ReadyList(last.goal)| ensures ReadyList(last.goal)[k] < |last.goal.tasks| {
      ReadyAt(last.goal, k);
    }
    hide StepGoal, ReadyList, Stops, PutBack, Replaced, AllSettledOrBlocked, HasBlocked, IsReady, Boundary;
    if Works(last.goal) {
      LeavesReadyIff(cfg, rules, w, last);
    } else {
      RestingStep(cfg, rules, w, last);
    }
  }

  // --- a concrete goal ---

  const DEPENDENT := SENDING.(deps := [0])
  const ASKED_FIRST := Goal("cli", "cli", GoalExecuting, [SENDING, DEPENDENT])

  /** The gate asks about the first task and the second waits for it: the run stops, the goal
      stays EXECUTING, and no message can answer the blocked task. */
  lemma BlockedBehind(w: World)
    ensures var m := Machine(ASKED_FIRST, 0, 0, []);
            var h := StepGoal(ASKING, [], w, m).goal;
            && Boundary(m.goal) && Stops(ASKING, [], w, m)
            && HasStatus(h, 0, Blocked) && HasStatus(h, 1, Pending) && h.status == GoalExecuting && !FoundByMessages(h)
  {
    hide StepGoal, Judge, ReadyList, Stops, Boundary, IsReady, HasStatus;
    var m := Machine(ASKED_FIRST, 0, 0, []);
    AskedFirstGoal();
    TwoJudged(ASKED_FIRST);
    AskedAlone(ASKING, [], w, m);
  }

  lemma AskedFirstGoal()
    ensures Boundary(ASKED_FIRST) && Works(ASKED_FIRST) && ReadyList(ASKED_FIRST) == [0] && IsReady(ASKED_FIRST, 0)
    ensures ASKED_FIRST.status == GoalExecuting && |ASKED_FIRST.tasks| == 2
    ensures ASKED_FIRST.tasks[0] == SENDING && ASKED_FIRST.tasks[1].status == Pending
  {
    assert ReadyUpTo(ASKED_FIRST, 0) == [];
    assert ReadyUpTo(ASKED_FIRST, 1) == [0];
    assert 0 in DEPENDENT.deps;
  }

  /** The only ready task is asked about, and another one is pending. */
  lemma AskedAlone(cfg: Config, rules: seq<Rule>, w: World, m: Machine)
    requires m.goal.status == GoalExecuting && ReadyList(m.goal) == [0] && IsReady(m.goal, 0)
    requires |m.goal.tasks| == 2 && m.goal.tasks[1].status == Pending
    requires Judge(cfg, rules, m.goal, m.goal.tasks[0]).Asked?
    ensures var h := StepGoal(cfg, rules, w, m).goal;
            Stops(cfg, rules, w, m) && HasStatus(h, 0, Blocked) && HasStatus(h, 1, Pending) && h.status == GoalExecuting
  {
    StepAsks(cfg, rules, w, m, 0);
    StepEffect(cfg, rules, w, m);
    StoppedIdle(cfg, rules, w, m);
    AskedAppendsNothing(cfg, rules, w, m);
    hide StepGoal, Judge, ReadyList, Stops, Verdict, TurnRow;
    PendingNoVerdict(StepGoal(cfg, rules, w, m).goal, 1);
  }

  lemma AskedAppendsNothing(cfg: Config, rules: seq<Rule>, w: World, m: Machine)
    requires Works(m.goal) && ReadyList(m.goal) == [0] && IsReady(m.goal, 0)
    requires Judge(cfg, rules, m.goal, m.goal.tasks[0]).Asked?
    ensures StepGoal(cfg, rules, w, m).goal.status == m.goal.status || Verdict(StepGoal(cfg, rules, w, m).goal).Some?
  {
    WorkingStep(cfg, rules, w, m);
    assert [0][..0] == [];
    RunBatchLast(cfg, rules, w, m, [0]);
    BatchStart(cfg, rules, w, m);
    var gate := Judge(cfg, rules, m.goal, m.goal.tasks[0]);
    TaskEnabled(cfg, rules, m.goal, 0, w.outcomes(m.calls), w.replies(m.asked));
    OneWriteKeepsStatus(cfg, rules, w, m);
    hide StepGoal, Judge, ReadyList, RunBatch, ProcessTask;
  }

  lemma OneWriteKeepsStatus(cfg: Config, rules: seq<Rule>, w: World, m: Machine)
    requires IsReady(m.goal, 0) && Judge(cfg, rules, m.goal, m.goal.tasks[0]).Asked?
    ensures ProcessTask(cfg, rules, w, m, 0).goal.status == m.goal.status
  {
    TaskTurn(cfg, rules, w, m, 0);
    hide Judge, ProcessTask;
  }
}
