/** Routing messages to goals, and the table that keeps one runner per goal. */
module CoreLoop {
  import opened Prelude
  import Text
  import opened GoalModel
  import opened GoalOps
  import opened GoalRuns
  import opened GoalEngine
  import Queues = EventQueue

  const GOAL_PREFIX := "/goal "
  const STATUS_COMMAND := "/status"

  /** How an event is answered: by a report of the running goals, pending events and dead
      letters, by a goal, by a scheduled job, or by the conversation. */
  datatype Answer =
    | Status(activeGoals: nat, pending: nat, deadLetters: nat)
    | FromGoal(text: string)
    | FromJob(replayed: nat)
    | FromConversation

  /** What the loop meets: messages, scheduled jobs, and runners that come to a stop. */
  datatype Happening =
    | Arrives(source: string, channel: string, content: string, plan: Option<seq<Spec>>)
    | Scheduled(job: string, wantsGoal: bool, task: string, plan: Option<seq<Spec>>)
    | RunnerStops(id: GoalId)

  const SCHEDULER := "scheduler"
  const RETRY_JOB := "retry_dead_letters"

  /** A goal that has no runner and that no message finds. */
  predicate Stranded(goals: map<GoalId, Goal>, runners: set<GoalId>, id: GoalId) {
    id in goals && goals[id].status != GoalBlocked && id !in runners
  }

  predicate IsGoalInstruction(text: string) {
    GOAL_PREFIX <= Text.Lower(Text.Strip(text))
  }

  class CoreLoop {
    const engine: GoalEngine
    const store: GoalStore
    const queue: Queues.EventQueue
    var goalTasks: set<GoalId>
    ghost var runners: multiset<GoalId>

    /** Exactly one background runner for every goal in the table, none for any other. */
    ghost predicate Valid()
      reads this, engine, store, engine.pipeline, queue
    {
      && engine.store == store && engine.Valid() && queue.Valid()
      && goalTasks <= store.goals.Keys
      && runners == multiset(goalTasks)
    }

    constructor (engine: GoalEngine, queue: Queues.EventQueue)
      requires engine.Valid() && queue.Valid()
      ensures Valid() && this.engine == engine && this.queue == queue && goalTasks == {}
    {
      this.engine, this.store, this.queue := engine, engine.store, queue;
      goalTasks, runners := {}, multiset{};
    }

    function Report(): Answer
      reads this, queue
    {
      Status(|goalTasks|, |Queues.PendingIds(queue.View())|, |queue.dead|)
    }

    /** Starts a background runner. */
    method Spawn(id: GoalId)
      requires Valid() && id in store.goals && id !in goalTasks
      modifies this
      ensures Valid() && goalTasks == old(goalTasks) + {id} && runners == old(runners) + multiset{id}
    {
      goalTasks, runners := goalTasks + {id}, runners + multiset{id};
    }

    /** Plans a new goal and, if planning succeeds, approves it and starts its runner. A goal
        whose planning failed stays behind as planning left it, without a runner. */
    method StartGoal(source: string, channel: string, plan: Option<seq<Spec>>) returns (answer: Answer)
      requires Valid()
      modifies this, store
      ensures Valid()
      ensures var id := old(store.nextGoal);
              id !in old(store.goals) &&
              if plan.Some? && PlanOk(plan.value, 0) then
                && store.goals == old(store.goals)[id := PlannedGoal(source, channel, plan.value).(status := GoalExecuting)]
                && goalTasks == old(goalTasks) + {id} && answer == FromGoal("Goal accepted")
              else
                && store.goals == old(store.goals)[id :=
                     if plan.Some? then PlannedGoal(source, channel, plan.value) else NewGoal(source, channel)]
                && goalTasks == old(goalTasks) && answer == FromGoal("Failed to plan goal")
    {
      hide PlanOk, PlanWrites, ApplyAll, AllEnabled;
      var r := engine.CreatePlan(source, channel, plan);
      if r.Err? {
        return FromGoal("Failed to plan goal");
      }
      ghost var goal := store.goals[r.value];
      PlannedIsDraft(source, channel, plan.value);
      ApproveEnabled(goal);
      var _ := engine.ApproveGoal(r.value);
      Spawn(r.value);
      return FromGoal("Goal accepted");
    }

    /** Hands user text to a blocked goal and runs it again unless it still does. */
    method AnswerGoal(id: GoalId, content: string) returns (answer: Answer)
      requires Valid() && id in store.goals
      modifies this, store, engine.pipeline`rules
      ensures Valid() && goalTasks == old(goalTasks) + {id}
      ensures var g := old(store.goals)[id];
              var e := OnInput(engine.Cfg(), g, content);
              && AllEnabled(g, e.writes) && store.goals == old(store.goals)[id := ApplyAll(g, e.writes)]
              && engine.pipeline.rules == WithRule(engine.Cfg(), old(engine.pipeline.rules), e.rule)
              && answer == FromGoal(e.reply)
    {
      hide OnInput, ApplyAll, AllEnabled;
      var reply := engine.HandleUserInput(id, content);
      if id !in goalTasks {
        Spawn(id);
      }
      assert goalTasks == old(goalTasks) + {id};
      return FromGoal(reply);
    }

    /** A message: a status command is answered at once; else it goes to the newest blocked
        goal of its conversation, if there is one; else it may ask for a new goal. Other
        messages go to the conversation. plan is what the planning model would answer. */
    method HandleMessage(source: string, channel: string, content: string, plan: Option<seq<Spec>>)
      returns (answer: Answer, ghost routed: Option<GoalId>)
      requires Valid()
      modifies this, store, engine.pipeline`rules
      ensures Valid()
      ensures forall id | id in runners :: runners[id] == 1
      ensures routed.Some? ==> IsBlockedGoal(old(store.goals), routed.value, source, channel)
      ensures Text.Strip(content) == STATUS_COMMAND ==> routed.None? && answer == Report()
      ensures Text.Strip(content) != STATUS_COMMAND ==>
                forall id: GoalId :: IsBlockedGoal(old(store.goals), id, source, channel) ==> routed.Some? && id <= routed.value
      ensures routed.Some? ==>
                var g := old(store.goals)[routed.value];
                var e := OnInput(engine.Cfg(), g, content);
                && AllEnabled(g, e.writes) && store.goals == old(store.goals)[routed.value := ApplyAll(g, e.writes)]
                && goalTasks == old(goalTasks) + {routed.value} && answer == FromGoal(e.reply)
      ensures var starts := Text.Strip(content) != STATUS_COMMAND && routed.None? && IsGoalInstruction(content);
              var id := old(store.nextGoal);
              && (starts ==> goalTasks == if plan.Some? && PlanOk(plan.value, 0) then old(goalTasks) + {id} else old(goalTasks))
              && (starts ==> id !in old(store.goals))
              && (starts ==> id in store.goals && store.goals == old(store.goals)[id := store.goals[id]])
              && (routed.None? && !starts ==> store.goals == old(store.goals) && goalTasks == old(goalTasks))
              && (answer.FromConversation? <==> Text.Strip(content) != STATUS_COMMAND && routed.None? && !starts)
    {
      hide OnInput, ApplyAll, AllEnabled, Text.Strip, IsGoalInstruction, PlanOk, PlannedGoal;
      routed := None;
      if Text.Strip(content) == STATUS_COMMAND {
        return Report(), None;
      }
      var found := store.FindBlockedGoal(source, channel);
      if found.Some? {
        routed := found;
        answer := AnswerGoal(found.value, content);
        return;
      }
      if IsGoalInstruction(content) {
        answer := StartGoal(source, channel, plan);
        return;
      }
      answer := FromConversation;
    }

    /** A scheduled job that asks for a goal gets one of its own conversation, and raises when
        planning fails; the retry job replays the dead letters; the others only report. */
    method HandleSchedule(job: string, wantsGoal: bool, task: string, plan: Option<seq<Spec>>)
      returns (answer: Result<Answer, string>)
      requires Valid()
      modifies this, store, queue
      ensures Valid()
      ensures wantsGoal ==>
                var id := old(store.nextGoal);
                && queue.View() == old(queue.View()) && id !in old(store.goals)
                && store.goals == old(store.goals)[id :=
                     if plan.None? then NewGoal(SCHEDULER, job)
                     else if PlanOk(plan.value, 0) then PlannedGoal(SCHEDULER, job, plan.value).(status := GoalExecuting)
                     else PlannedGoal(SCHEDULER, job, plan.value)]
                && answer.Ok? == (plan.Some? && PlanOk(plan.value, 0))
                && goalTasks == (if answer.Ok? then old(goalTasks) + {id} else old(goalTasks))
      ensures !wantsGoal ==> store.goals == old(store.goals) && goalTasks == old(goalTasks)
      ensures !wantsGoal && task == RETRY_JOB ==>
                exists n: nat :: Queues.CanReplay(old(queue.history), n) &&
                  queue.history == Queues.ReplayedFirst(old(queue.history), n) &&
                  (if answer.Ok? then answer.value == FromJob(n) && n == Queues.Min(1000, |old(queue.dead)|)
                   else n < |old(queue.dead)| && old(queue.dead)[n].event.id in old(queue.rows))
      ensures !wantsGoal && task != RETRY_JOB ==> queue.View() == old(queue.View()) && answer == Ok(Report())
    {
      hide PlanOk, PlannedGoal, Queues.CanReplay, Queues.ReplayedFirst;
      if wantsGoal {
        var started := StartGoal(SCHEDULER, job, plan);
        if started == FromGoal("Goal accepted") {
          return Ok(started);
        }
        return Err("planning failed");
      }
      if task == RETRY_JOB {
        var replayed, n := queue.ReplayAll(None);
        return match replayed case Ok(count) => Ok(FromJob(count)) case Err(error) => Err(error);
      }
      return Ok(Report());
    }

    /** The loop over what happens, one at a time, and what it never does: come back to a goal
        that has no runner and is not stored as blocked. However many messages and jobs
        arrive and whichever runners stop, such a goal stays as it is. */
    method ProcessEvents(events: seq<Happening>, ghost budget: nat)
      requires Valid() && AddsAtMost(engine.world, budget)
      modifies this, store, queue, engine.pipeline, engine`calls, engine`asked
      ensures Valid()
      ensures forall id | Stranded(old(store.goals), old(goalTasks), id) ::
                Stranded(store.goals, goalTasks, id) && store.goals[id] == old(store.goals)[id]
    {
      hide PlanOk, PlannedGoal, OnInput, ApplyAll, AllEnabled, IsGoalInstruction, RunSteps, Left, Text.Strip;
      var k := 0;
      while k < |events|
        invariant 0 <= k <= |events| && Valid()
        invariant forall id | Stranded(old(store.goals), old(goalTasks), id) ::
                    Stranded(store.goals, goalTasks, id) && store.goals[id] == old(store.goals)[id]
      {
        match events[k] {
          case Arrives(source, channel, content, plan) =>
            var _, _ := HandleMessage(source, channel, content, plan);
          case Scheduled(job, wantsGoal, task, plan) =>
            var _ := HandleSchedule(job, wantsGoal, task, plan);
          case RunnerStops(id) =>
            if id in goalTasks {
              var _ := RunnerRuns(id, budget);
            }
        }
        k := k + 1;
      }
    }

    /** A background runner steps its goal until it stops, then leaves the table. */
    method RunnerRuns(id: GoalId, ghost budget: nat) returns (ghost steps: nat)
      requires Valid() && id in goalTasks && AddsAtMost(engine.world, budget)
      modifies this, store`goals, engine.pipeline`log, engine`calls, engine`asked
      ensures Valid() && goalTasks == old(goalTasks) - {id} && runners == old(runners) - multiset{id}
      ensures var m := old(engine.Now(store.goals[id]));
              && 1 <= steps <= Left(engine.world, budget, m) + 1
              && store.goals == old(store.goals)[id :=
                   RunSteps(engine.Cfg(), engine.pipeline.rules, engine.world, m, steps).goal]
      ensures store.goals[id].status != GoalBlocked ==> Stranded(store.goals, goalTasks, id)
    {
      hide RunSteps, Left;
      var _, n := engine.RunGoal(id, budget);
      steps := n;
      goalTasks, runners := goalTasks - {id}, runners - multiset{id};
    }
  }

  lemma PlannedIsDraft(source: string, channel: string, specs: seq<Spec>)
    requires PlanOk(specs, 0)
    ensures PlannedGoal(source, channel, specs).status == GoalDraft
  {
  }
}
