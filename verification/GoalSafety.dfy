/** What every row write keeps, and so what holds in every state of every run:
    any interleaving of one runner, user input, approvals and crashes. */
module GoalSafety {
  import opened Prelude
  import opened GoalModel

  // --- the invariant ---

  /** Dependencies point strictly backwards, so the graph is acyclic. */
  predicate Acyclic(g: Goal) {
    forall i, d | 0 <= i < |g.tasks| && d in g.tasks[i].deps :: d < i
  }

  /** A task that has left PENDING, or was ever started, has only DONE dependencies. */
  predicate Closed(g: Goal) {
    forall i | 0 <= i < |g.tasks| :: g.tasks[i].status != Pending || g.tasks[i].attempts > 0 ==>
      AllDone(g, g.tasks[i].deps)
  }

  /** READY is never stored; a running task has been counted; a blocked task can be answered. */
  predicate RowOk(t: Task) {
    && t.status != Ready
    && (t.status == Running ==> t.attempts > 0)
    && (t.status == Blocked ==> Answerable(t))
  }

  predicate RowsOk(g: Goal) {
    forall i | 0 <= i < |g.tasks| :: RowOk(g.tasks[i])
  }

  /** DONE is stored only while every task is DONE or SKIPPED. */
  predicate DoneIsTrue(g: Goal) {
    g.status == GoalDone ==> AllSettled(g) && !AnyFailed(g)
  }

  predicate Inv(g: Goal) {
    Acyclic(g) && Closed(g) && RowsOk(g) && DoneIsTrue(g)
  }

  /** How a later state relates to an earlier one: rows stay, keep what they were planned
      as, never lose attempts, and a DONE task or goal stays DONE. */
  predicate RowLater(t: Task, u: Task) {
    && u.kind == t.kind && u.instruction == t.instruction && u.description == t.description
    && u.deps == t.deps && u.maxAttempts == t.maxAttempts && t.attempts <= u.attempts
    && (t.status == Done ==> u.status == Done && u.result == t.result)
    && (t.status == Skipped ==> u.status == Skipped)
    && (t.status == Failed ==> u.status in {Failed, Skipped})
  }

  predicate Later(g: Goal, h: Goal) {
    && |g.tasks| <= |h.tasks|
    && (forall i | 0 <= i < |g.tasks| :: RowLater(g.tasks[i], h.tasks[i]))
    && (g.status == GoalDone ==> h == g)
    && h.source == g.source && h.channel == g.channel
  }

  lemma DoneDepsStay(g: Goal, h: Goal, deps: seq<TaskId>)
    requires Later(g, h) && AllDone(g, deps)
    ensures AllDone(h, deps)
  {
    forall d | d in deps ensures d < |h.tasks| && h.tasks[d].status == Done {
      assert RowLater(g.tasks[d], h.tasks[d]);
    }
  }

  lemma LaterTransitive(g: Goal, h: Goal, k: Goal)
    requires Later(g, h) && Later(h, k)
    ensures Later(g, k)
  {
    forall i | 0 <= i < |g.tasks| ensures RowLater(g.tasks[i], k.tasks[i]) {
      assert RowLater(g.tasks[i], h.tasks[i]) && RowLater(h.tasks[i], k.tasks[i]);
    }
  }

  /** With the goal DONE no row can be written any more. */
  lemma DoneGoalIsQuiet(g: Goal, w: Write)
    requires Inv(g) && g.status == GoalDone && Enabled(g, w)
    ensures Apply(g, w) == g
  {
    assert forall i | 0 <= i < |g.tasks| :: g.tasks[i].status in {Done, Skipped};
    if w == Recover {
      assert Apply(g, w).tasks == g.tasks;
    }
  }

  lemma WriteMovesOn(g: Goal, w: Write)
    requires Inv(g) && Enabled(g, w)
    ensures Later(g, Apply(g, w))
  {
    hide IsApprovalBlocker, Acyclic, Closed, RowsOk, DoneIsTrue, AllDone;
    if g.status == GoalDone {
      DoneGoalIsQuiet(g, w);
    }
  }

  lemma {:induction false} WriteKeepsAcyclic(g: Goal, w: Write)
    requires Acyclic(g) && Enabled(g, w)
    ensures Acyclic(Apply(g, w))
  {
    var h := Apply(g, w);
    forall i, d | 0 <= i < |h.tasks| && d in h.tasks[i].deps ensures d < i {
      if i < |g.tasks| {
        assert h.tasks[i].deps == g.tasks[i].deps;
      } else if w.Insert? {
        assert d in g.tasks[w.id].deps;
      }
    }
  }

  lemma {:induction false} WriteKeepsClosed(g: Goal, w: Write)
    requires Inv(g) && Enabled(g, w)
    ensures Closed(Apply(g, w))
  {
    var h := Apply(g, w);
    WriteMovesOn(g, w);
    forall i | 0 <= i < |h.tasks| && (h.tasks[i].status != Pending || h.tasks[i].attempts > 0)
      ensures AllDone(h, h.tasks[i].deps)
    {
      assert i < |g.tasks|;
      assert RowLater(g.tasks[i], h.tasks[i]);
      if g.tasks[i].status == Pending && g.tasks[i].attempts == 0 {
        assert IsReady(g, i);
      }
      DoneDepsStay(g, h, g.tasks[i].deps);
    }
  }

  lemma WriteKeepsRows(g: Goal, w: Write)
    requires Inv(g) && Enabled(g, w)
    ensures RowsOk(Apply(g, w)) && DoneIsTrue(Apply(g, w))
  {
    if g.status == GoalDone {
      DoneGoalIsQuiet(g, w);
    }
  }

  lemma {:induction false} WriteKeepsInv(g: Goal, w: Write)
    requires Inv(g) && Enabled(g, w)
    ensures Inv(Apply(g, w)) && Later(g, Apply(g, w))
  {
    WriteKeepsAcyclic(g, w);
    WriteKeepsClosed(g, w);
    WriteKeepsRows(g, w);
    WriteMovesOn(g, w);
  }

  // --- runs ---

  lemma {:induction false} RunKeepsInv(g: Goal, ws: seq<Write>)
    requires Inv(g) && AllEnabled(g, ws)
    ensures Inv(ApplyAll(g, ws)) && Later(g, ApplyAll(g, ws))
    decreases |ws|
  {
    if ws != [] {
      WriteKeepsInv(g, ws[0]);
      RunKeepsInv(Apply(g, ws[0]), ws[1..]);
      LaterTransitive(g, Apply(g, ws[0]), ApplyAll(g, ws));
    }
  }

  /** The states a goal can be in: what some run of enabled writes leads to from its creation. */
  ghost predicate Reachable(g: Goal) {
    exists source, channel, ws | AllEnabled(NewGoal(source, channel), ws) ::
      ApplyAll(NewGoal(source, channel), ws) == g
  }

  lemma ReachableInv(g: Goal)
    requires Reachable(g)
    ensures Inv(g)
  {
    var source, channel, ws :| AllEnabled(NewGoal(source, channel), ws) && ApplyAll(NewGoal(source, channel), ws) == g;
    RunKeepsInv(NewGoal(source, channel), ws);
  }

  lemma ReachableStep(g: Goal, w: Write)
    requires Reachable(g) && Enabled(g, w)
    ensures Reachable(Apply(g, w))
  {
    var source, channel, ws :| AllEnabled(NewGoal(source, channel), ws) && ApplyAll(NewGoal(source, channel), ws) == g;
    OneWrite(g, w);
    ApplyAllAppend(NewGoal(source, channel), ws, [w]);
  }

  lemma {:induction false} ReachableRun(g: Goal, ws: seq<Write>)
    requires Reachable(g) && AllEnabled(g, ws)
    ensures Reachable(ApplyAll(g, ws))
    decreases |ws|
  {
    if ws != [] {
      ReachableStep(g, ws[0]);
      ReachableRun(Apply(g, ws[0]), ws[1..]);
    }
  }

  /** j is reached from i by following dependencies. */
  ghost predicate Ancestor(g: Goal, j: TaskId, i: TaskId)
    requires i < |g.tasks|
    decreases i
  {
    exists d | d in g.tasks[i].deps && d < i :: d == j || Ancestor(g, j, d)
  }

  /** Dependency closure: everything a started task depends on, however indirectly, is DONE. */
  lemma {:induction false} AncestorsDone(g: Goal, j: TaskId, i: TaskId)
    requires Inv(g) && i < |g.tasks| && Ancestor(g, j, i)
    requires g.tasks[i].status != Pending || g.tasks[i].attempts > 0
    ensures j < i && g.tasks[j].status == Done
    decreases i
  {
    var d :| d in g.tasks[i].deps && d < i && (d == j || Ancestor(g, j, d));
    assert AllDone(g, g.tasks[i].deps);
    if d != j {
      AncestorsDone(g, j, d);
    }
  }

  /** Tasks start and complete in topological order, whatever happens in between: the write
      that starts or completes task i only comes when every ancestor of i is DONE. */
  lemma TopologicalOrder(g: Goal, w: Write, j: TaskId)
    requires Reachable(g) && Enabled(g, w)
    requires w.Start? || w.Finish? || w.Answer?
    requires Ancestor(g, j, w.id)
    ensures j < w.id && g.tasks[j].status == Done
  {
    ReachableInv(g);
    if w.Start? {
      var d :| d in g.tasks[w.id].deps && d < w.id && (d == j || Ancestor(g, j, d));
      if d != j {
        AncestorsDone(g, j, d);
      }
    } else {
      AncestorsDone(g, j, w.id);
    }
  }

  // --- deadlock ---

  predicate Active(g: Goal, i: TaskId) {
    i < |g.tasks| && (IsReady(g, i) || g.tasks[i].status in {Running, Blocked})
  }

  /** Nothing is ready, running or waiting for an answer. */
  predicate Idle(g: Goal) {
    forall i | 0 <= i < |g.tasks| :: !Active(g, i)
  }

  /** A PENDING task with an ancestor that ended FAILED or SKIPPED. */
  ghost predicate Doomed(g: Goal, i: TaskId)
    requires i < |g.tasks|
    decreases i
  {
    g.tasks[i].status == Pending &&
    exists d | d in g.tasks[i].deps && d < i :: g.tasks[d].status in {Failed, Skipped} || Doomed(g, d)
  }

  lemma {:induction false} IdlePendingIsDoomed(g: Goal, i: TaskId)
    requires Inv(g) && Idle(g) && i < |g.tasks| && g.tasks[i].status == Pending
    ensures Doomed(g, i)
    decreases i
  {
    assert !Active(g, i);
    var d :| d in g.tasks[i].deps && !(d < |g.tasks| && g.tasks[d].status == Done);
    assert d < i && !Active(g, d) && RowOk(g.tasks[d]);
    if g.tasks[d].status == Pending {
      IdlePendingIsDoomed(g, d);
    }
  }

  /** Deadlock, exactly: a goal is idle if and only if each task is settled or doomed. */
  lemma IdleIffSettledOrDoomed(g: Goal)
    requires Inv(g)
    ensures Idle(g) <==> forall i | 0 <= i < |g.tasks| :: Settled(g.tasks[i]) || Doomed(g, i)
  {
    if Idle(g) {
      forall i | 0 <= i < |g.tasks| ensures Settled(g.tasks[i]) || Doomed(g, i) {
        assert !Active(g, i) && RowOk(g.tasks[i]);
        if g.tasks[i].status == Pending {
          IdlePendingIsDoomed(g, i);
        }
      }
    }
    if forall i | 0 <= i < |g.tasks| :: Settled(g.tasks[i]) || Doomed(g, i) {
      forall i | 0 <= i < |g.tasks| ensures !Active(g, i) {
        if !Settled(g.tasks[i]) {
          assert Doomed(g, i);
        }
      }
    }
  }

  lemma {:induction false} DoomedHasDeadAncestor(g: Goal, i: TaskId) returns (j: TaskId)
    requires i < |g.tasks| && Doomed(g, i)
    ensures j < i && Ancestor(g, j, i) && g.tasks[j].status in {Failed, Skipped}
    decreases i
  {
    var d :| d in g.tasks[i].deps && d < i && (g.tasks[d].status in {Failed, Skipped} || Doomed(g, d));
    if g.tasks[d].status in {Failed, Skipped} {
      j := d;
    } else {
      j := DoomedHasDeadAncestor(g, d);
    }
  }

  /** Deadlock freedom: while no task is FAILED or SKIPPED and some task is not DONE,
      some task is ready, running or waiting for an answer. */
  lemma NoDeadlock(g: Goal)
    requires Reachable(g)
    requires forall i | 0 <= i < |g.tasks| :: g.tasks[i].status !in {Failed, Skipped}
    requires exists i | 0 <= i < |g.tasks| :: g.tasks[i].status != Done
    ensures exists i | 0 <= i < |g.tasks| :: Active(g, i)
  {
    ReachableInv(g);
    if Idle(g) {
      var i :| 0 <= i < |g.tasks| && g.tasks[i].status != Done;
      assert !Active(g, i) && RowOk(g.tasks[i]);
      IdlePendingIsDoomed(g, i);
      var j := DoomedHasDeadAncestor(g, i);
    }
  }

  lemma WaitingStays(g: Goal, w: Write, i: TaskId)
    requires Enabled(g, w) && HasStatus(g, i, Pending) && !IsReady(g, i)
    ensures HasStatus(Apply(g, w), i, Pending)
  {
    hide IsApprovalBlocker, AllDone;
  }

  lemma {:induction false} DoomStays(g: Goal, w: Write, i: TaskId)
    requires Inv(g) && Enabled(g, w) && i < |g.tasks| && Doomed(g, i)
    ensures i < |Apply(g, w).tasks| && Doomed(Apply(g, w), i)
    decreases i
  {
    var h := Apply(g, w);
    WriteMovesOn(g, w);
    WaitingStays(g, w, i);
    hide Apply, Enabled, Inv;
    var d :| d in g.tasks[i].deps && d < i && (g.tasks[d].status in {Failed, Skipped} || Doomed(g, d));
    assert RowLater(g.tasks[d], h.tasks[d]) && RowLater(g.tasks[i], h.tasks[i]);
    if g.tasks[d].status !in {Failed, Skipped} {
      DoomStays(g, w, d);
    }
  }

  /** Only DONE satisfies a dependency, so a doomed task never starts again, and the
      completion check of its goal never stores anything again: the goal cannot finish. */
  lemma {:induction false} DoomedForever(g: Goal, ws: seq<Write>, i: TaskId)
    requires Inv(g) && AllEnabled(g, ws) && i < |g.tasks| && Doomed(g, i)
    ensures HasStatus(ApplyAll(g, ws), i, Pending)
    ensures Verdict(ApplyAll(g, ws)).None?
    ensures ApplyAll(g, ws).status != GoalDone
    decreases |ws|
  {
    if ws == [] {
      assert !Settled(g.tasks[i]);
    } else {
      WriteKeepsInv(g, ws[0]);
      DoomStays(g, ws[0], i);
      DoomedForever(Apply(g, ws[0]), ws[1..], i);
    }
  }

  // --- truthful DONE ---

  /** A goal stored as DONE has only DONE and SKIPPED tasks, nothing depends on a SKIPPED
      one, and no later write of any run changes it. */
  lemma DoneIsTruthfulAndFinal(g: Goal, ws: seq<Write>)
    requires Inv(g) && g.status == GoalDone && AllEnabled(g, ws)
    ensures forall i | 0 <= i < |g.tasks| :: g.tasks[i].status in {Done, Skipped}
    ensures forall i | 0 <= i < |g.tasks| :: AllDone(g, g.tasks[i].deps)
    ensures ApplyAll(g, ws) == g
  {
    RunKeepsInv(g, ws);
  }

  // --- attempts ---

  /** How often recovery reset task i while it was running. */
  function Recoveries(g: Goal, ws: seq<Write>, i: TaskId): nat
    requires AllEnabled(g, ws)
    decreases |ws|
  {
    if ws == [] then 0
    else (if ws[0] == Recover && HasStatus(g, i, Running) then 1 else 0) + Recoveries(Apply(g, ws[0]), ws[1..], i)
  }

  /** Task i has used at most its budget plus r, and less while it may still be started. */
  predicate Budgeted(g: Goal, i: TaskId, r: nat) {
    i < |g.tasks| ==>
      var t := g.tasks[i];
      t.attempts <= t.maxAttempts + r && t.maxAttempts > 0 &&
      (t.status == Pending || (t.status == Blocked && !TakesText(t)) ==> t.attempts < t.maxAttempts + r)
  }

  lemma BudgetStep(g: Goal, w: Write, i: TaskId, r: nat)
    requires Enabled(g, w) && Budgeted(g, i, r)
    ensures Budgeted(Apply(g, w), i, r + if w == Recover && HasStatus(g, i, Running) then 1 else 0)
  {
    hide IsApprovalBlocker, Verdict, AllDone;
  }

  lemma RunFront(g: Goal, ws: seq<Write>, i: TaskId)
    requires ws != [] && AllEnabled(g, ws)
    ensures Enabled(g, ws[0]) && AllEnabled(Apply(g, ws[0]), ws[1..])
    ensures ApplyAll(g, ws) == ApplyAll(Apply(g, ws[0]), ws[1..])
    ensures Recoveries(g, ws, i) ==
            (if ws[0] == Recover && HasStatus(g, i, Running) then 1 else 0) + Recoveries(Apply(g, ws[0]), ws[1..], i)
  {
  }

  lemma EmptyRun(g: Goal, i: TaskId)
    ensures ApplyAll(g, []) == g && Recoveries(g, [], i) == 0
  {
  }

  lemma {:induction false} BudgetKept(g: Goal, ws: seq<Write>, i: TaskId, r: nat)
    requires AllEnabled(g, ws) && Budgeted(g, i, r)
    ensures Budgeted(ApplyAll(g, ws), i, r + Recoveries(g, ws, i))
    decreases |ws|
  {
    hide *;
    if ws == [] {
      EmptyRun(g, i);
    } else {
      RunFront(g, ws, i);
      BudgetStep(g, ws[0], i, r);
      BudgetKept(Apply(g, ws[0]), ws[1..], i, r + if ws[0] == Recover && HasStatus(g, i, Running) then 1 else 0);
    }
  }

  /** A task is started at most maxAttempts times plus once per crash that caught it running. */
  lemma AttemptsBounded(source: string, channel: string, ws: seq<Write>, i: TaskId)
    requires AllEnabled(NewGoal(source, channel), ws)
    requires i < |ApplyAll(NewGoal(source, channel), ws).tasks|
    ensures var t := ApplyAll(NewGoal(source, channel), ws).tasks[i];
            t.attempts <= t.maxAttempts + Recoveries(NewGoal(source, channel), ws, i)
  {
    BudgetKept(NewGoal(source, channel), ws, i, 0);
  }
}
