/** What can still become of a task: exactly when some operations and answers complete it, or
    start it, and exactly how a task that waits for input is completed. */
module GoalFate {
  import opened Prelude
  import Text
  import opened GoalModel
  import opened GoalSafety
  import opened Approval
  import opened GoalOps
  import opened GoalRuns
  import opened GoalStops
  import opened GoalOutcomes

  // --- the condition ---

  /** The row waits for a text that completes it. */
  predicate Parked(t: Task) {
    t.status == Blocked && TakesText(t)
  }

  /** A rule that lets t pass, and of all such rules one that lets the fewest tasks pass that
      wait for input. */
  function Narrowest(cfg: Config, g: Goal, t: Task): Rule {
    var action, path := ActionFor(t.kind), PlannedPath(t, cfg.resolve);
    if action == ActMemoryQuery && path.Some? && path.value != "" then
      Rule(PathPrefix, cfg.normalize(path.value), Some(action), AllowByRule)
    else Rule(Session, SessionId(g), Some(action), AllowForSession)
  }

  /** With its dependencies DONE, t can be the next task to be completed: user text completes
      it, or the gate lets it be executed, now or once a rule is stored. A task that waits for
      input is never completed by executing it, so the gate must ask about it. */
  predicate Completable(cfg: Config, rules: seq<Rule>, g: Goal, t: Task) {
    Parked(t) ||
    (g.status != GoalFailed && t.status !in {Failed, Skipped} &&
     match Judge(cfg, rules, g, t)
     case Pass => t.kind != WaitInput
     case Asked(_) => TakesText(t) || cfg.connected
     case Refused(_) => false)
  }

  /** The rule stored for t when its turn comes, if it needs one. */
  function Granted(cfg: Config, rules: seq<Rule>, g: Goal, t: Task): seq<Rule> {
    if !TakesText(t) && Judge(cfg, rules, g, t).Asked? then [Narrowest(cfg, g, t)] else []
  }

  function DoneIds(g: Goal): set<TaskId> {
    set i | 0 <= i < |g.tasks| && g.tasks[i].status == Done
  }

  /** The tasks can be completed in this order, each after its dependencies, storing only the
      narrowest rules. */
  predicate Finishes(cfg: Config, rules: seq<Rule>, g: Goal, order: seq<TaskId>, done: set<TaskId>)
    decreases |order|
  {
    order == [] ||
    var x := order[0];
    if x in done then Finishes(cfg, rules, g, order[1..], done)
    else
      && x < |g.tasks| && (forall d | d in g.tasks[x].deps :: d in done) && Completable(cfg, rules, g, g.tasks[x])
      && Finishes(cfg, rules + Granted(cfg, rules, g, g.tasks[x]), g, order[1..], done + {x})
  }

  /** Some order of tasks up to i completes task i. */
  ghost predicate CanBeDone(cfg: Config, rules: seq<Rule>, g: Goal, i: TaskId) {
    exists order :: i in order && Below(order, i + 1) && Finishes(cfg, rules, g, order, DoneIds(g))
  }

  /** The goal has not FAILED, and some order of earlier tasks completes all that task i
      depends on. */
  ghost predicate CanStart(cfg: Config, rules: seq<Rule>, g: Goal, i: TaskId)
    requires i < |g.tasks|
  {
    g.status != GoalFailed &&
    exists order :: Below(order, i) && Finishes(cfg, rules, g, order, DoneIds(g)) &&
      forall d | d in g.tasks[i].deps :: d in order || d in DoneIds(g)
  }

  predicate Below(order: seq<TaskId>, n: nat) {
    forall x | x in order :: x < n
  }

  // --- what rules change ---

  /** The gate looks at what a task is to do and at the goal's session only. */
  lemma JudgeAlike(cfg: Config, rules: seq<Rule>, g: Goal, h: Goal, t: Task, u: Task)
    requires t.kind == u.kind && t.instruction == u.instruction && g.source == h.source && g.channel == h.channel
    ensures Judge(cfg, rules, g, t) == Judge(cfg, rules, h, u)
    ensures Narrowest(cfg, g, t) == Narrowest(cfg, h, u)
  {
    assert RequestFor(cfg, g, t) == RequestFor(cfg, h, u);
    hide RequestFor, DecisionFor;
  }

  lemma JudgeAdd(cfg: Config, rules: seq<Rule>, g: Goal, t: Task, r: Rule)
    ensures var before, after := Judge(cfg, rules, g, t), Judge(cfg, rules + [r], g, t);
            var covers := Covers(r, RequestFor(cfg, g, t), cfg.normalize);
            if !cfg.autonomous then before == Pass && after == Pass
            else if before.Refused? || (r.mode == DenyMode && covers) then after.Refused?
            else if IsAllowRule(r) && covers then after.Pass?
            else after.Pass? == before.Pass? && after.Asked? == before.Asked?
  {
    AddingARule(rules, r, RequestFor(cfg, g, t), cfg.normalize, cfg.risk);
    hide RequestFor, DecisionFor, Covers, BlockerReason;
  }

  /** Where the gate refuses under some rules it refuses under more, and where it asks a task
      that waits for input under more it asks it under them; without a database nothing ever
      changes. */
  ghost predicate Fewer(cfg: Config, g: Goal, rules: seq<Rule>, more: seq<Rule>) {
    forall t: Task ::
      var a, b := Judge(cfg, rules, g, t), Judge(cfg, more, g, t);
      && (a.Refused? ==> b.Refused?)
      && (t.kind == WaitInput && b.Asked? ==> a.Asked?)
      && (!cfg.connected ==> a.Pass? == b.Pass? && a.Asked? == b.Asked?)
  }

  lemma FewerThanMore(cfg: Config, g: Goal, rules: seq<Rule>, more: seq<Rule>, r: Rule)
    requires cfg.connected && Fewer(cfg, g, rules, more)
    ensures Fewer(cfg, g, rules, more + [r])
  {
    hide Judge;
    forall t: Task
      ensures Judge(cfg, rules, g, t).Refused? ==> Judge(cfg, more + [r], g, t).Refused?
      ensures t.kind == WaitInput && Judge(cfg, more + [r], g, t).Asked? ==> Judge(cfg, rules, g, t).Asked?
    {
      JudgeAdd(cfg, more, g, t, r);
    }
  }

  lemma BothMore(cfg: Config, g: Goal, rules: seq<Rule>, more: seq<Rule>, r: Rule)
    requires cfg.connected && Fewer(cfg, g, rules, more) && IsAllowRule(r)
    ensures Fewer(cfg, g, rules + [r], more + [r])
  {
    hide Judge, Covers, RequestFor;
    forall t: Task
      ensures Judge(cfg, rules + [r], g, t).Refused? ==> Judge(cfg, more + [r], g, t).Refused?
      ensures t.kind == WaitInput && Judge(cfg, more + [r], g, t).Asked? ==> Judge(cfg, rules + [r], g, t).Asked?
    {
      JudgeAdd(cfg, rules, g, t, r);
      JudgeAdd(cfg, more, g, t, r);
    }
  }

  /** A stored narrowest rule lets its task pass. */
  lemma NarrowestPasses(cfg: Config, rules: seq<Rule>, g: Goal, t: Task)
    requires Judge(cfg, rules, g, t).Asked?
    ensures Judge(cfg, rules + [Narrowest(cfg, g, t)], g, t).Pass? && IsAllowRule(Narrowest(cfg, g, t))
  {
    JudgeAdd(cfg, rules, g, t, Narrowest(cfg, g, t));
    hide BlockerReason, DecisionFor, PlannedPath;
  }

  /** Any rule that covers t covers every task waiting for input that its narrowest rule does. */
  lemma NarrowestIsNarrow(cfg: Config, g: Goal, t: Task, u: Task, r: Rule)
    requires !TakesText(t) && u.kind == WaitInput && Covers(r, RequestFor(cfg, g, t), cfg.normalize)
    requires Covers(Narrowest(cfg, g, t), RequestFor(cfg, g, u), cfg.normalize)
    ensures Covers(r, RequestFor(cfg, g, u), cfg.normalize)
  {
    hide PlannedPath;
    if r.scope == PathPrefix {
      var path, other := cfg.normalize(PlannedPath(t, cfg.resolve).value), cfg.normalize(PlannedPath(u, cfg.resolve).value);
      assert r.value <= path <= other;
    }
  }

  /** Storing the narrowest rule for a task that passes under more rules anyway. */
  lemma NarrowMore(cfg: Config, g: Goal, rules: seq<Rule>, more: seq<Rule>, t: Task)
    requires cfg.connected && Fewer(cfg, g, rules, more) && !TakesText(t)
    requires Judge(cfg, rules, g, t).Asked? && Judge(cfg, more, g, t).Pass?
    ensures Fewer(cfg, g, rules + [Narrowest(cfg, g, t)], more)
  {
    var n, req := Narrowest(cfg, g, t), RequestFor(cfg, g, t);
    DecisionMeaning(rules, req, cfg.normalize, cfg.risk);
    DecisionMeaning(more, req, cfg.normalize, cfg.risk);
    assert AnySelects(more, req, cfg.normalize, true);
    var r :| r in more && Selects(r, req, cfg.normalize, true);
    NarrowestPasses(cfg, rules, g, t);
    hide Judge, Covers, RequestFor, Narrowest;
    forall u: Task
      ensures Judge(cfg, rules + [n], g, u).Refused? ==> Judge(cfg, more, g, u).Refused?
      ensures u.kind == WaitInput && Judge(cfg, more, g, u).Asked? ==> Judge(cfg, rules + [n], g, u).Asked?
    {
      JudgeAdd(cfg, rules, g, u, n);
      if u.kind == WaitInput && Covers(n, RequestFor(cfg, g, u), cfg.normalize) {
        NarrowestIsNarrow(cfg, g, t, u, r);
        CoveredIsNotAsked(cfg, more, g, u, r);
      }
    }
  }

  lemma CoveredIsNotAsked(cfg: Config, rules: seq<Rule>, g: Goal, t: Task, r: Rule)
    requires r in rules && IsAllowRule(r) && Covers(r, RequestFor(cfg, g, t), cfg.normalize)
    ensures !Judge(cfg, rules, g, t).Asked?
  {
    hide RequestFor, Covers, BlockerReason;
    AllowRuleLasts(rules, r, RequestFor(cfg, g, t), cfg.normalize, cfg.risk);
  }

  // --- comparing situations ---

  /** Row u is no harder to complete than row t, of the same task. */
  predicate Easier(u: Task, t: Task) {
    && u.kind == t.kind && u.instruction == t.instruction && u.deps == t.deps
    && (u.status in {Failed, Skipped} ==> t.status in {Failed, Skipped})
    && (Parked(t) ==> Parked(u))
  }

  /** In g, under the rules, every task of the order is done or no harder to complete than in
      h under more rules. */
  ghost predicate Eased(cfg: Config, rules: seq<Rule>, g: Goal, done: set<TaskId>,
                        more: seq<Rule>, h: Goal, before: set<TaskId>, order: seq<TaskId>, n: nat)
  {
    && Fewer(cfg, g, rules, more) && g.source == h.source && g.channel == h.channel
    && (h.status != GoalFailed ==> g.status != GoalFailed)
    && Acyclic(h) && Below(order, n)
    && (forall x: TaskId | x < n && x in before :: x in done)
    && (forall x | x in order && x !in done && x < |h.tasks| :: x < |g.tasks| && Easier(g.tasks[x], h.tasks[x]))
  }

  /** What finishes in the harder situation finishes in the easier one. */
  lemma {:induction false} FinishesEased(cfg: Config, rules: seq<Rule>, g: Goal, done: set<TaskId>,
                                         more: seq<Rule>, h: Goal, before: set<TaskId>, order: seq<TaskId>, n: nat)
    requires Eased(cfg, rules, g, done, more, h, before, order, n)
    requires Finishes(cfg, more, h, order, before)
    ensures Finishes(cfg, rules, g, order, done)
    decreases |order|
  {
    if order == [] {
      return;
    }
    var x, rest := order[0], order[1..];
    assert x in order && forall y | y in rest :: y in order;
    hide Judge, Narrowest, Fewer, Easier, Acyclic;
    if x in before {
      FinishesEased(cfg, rules, g, done, more, h, before, rest, n);
      return;
    }
    var u := h.tasks[x];
    var granted := Granted(cfg, more, h, u);
    if x in done {
      GrantMore(cfg, rules, g, more, h, u);
      FinishesEased(cfg, rules, g, done, more + granted, h, before + {x}, rest, n);
    } else {
      var t := g.tasks[x];
      TurnEased(cfg, rules, g, t, more, h, u);
      DepsBelow(h, x, n);
      EasierDeps(t, u);
      FinishesEased(cfg, rules + Granted(cfg, rules, g, t), g, done + {x}, more + granted, h, before + {x}, rest, n);
    }
  }

  lemma EasierDeps(t: Task, u: Task)
    requires Easier(t, u)
    ensures t.deps == u.deps
  {
  }

  lemma DepsBelow(h: Goal, x: TaskId, n: nat)
    requires Acyclic(h) && x < n && x < |h.tasks|
    ensures forall d | d in h.tasks[x].deps :: d < n
  {
    forall d | d in h.tasks[x].deps ensures d < n {
      assert d < x;
    }
  }

  /** A task done already needs no rule. */
  lemma GrantMore(cfg: Config, rules: seq<Rule>, g: Goal, more: seq<Rule>, h: Goal, u: Task)
    requires Fewer(cfg, g, rules, more) && g.source == h.source && g.channel == h.channel
    requires Completable(cfg, more, h, u)
    ensures Fewer(cfg, g, rules, more + Granted(cfg, more, h, u))
  {
    hide Judge, Narrowest, Fewer;
    if !TakesText(u) && Judge(cfg, more, h, u).Asked? {
      FewerThanMore(cfg, g, rules, more, Narrowest(cfg, h, u));
    } else {
      assert more + [] == more;
    }
  }

  /** One turn in both situations. */
  lemma TurnEased(cfg: Config, rules: seq<Rule>, g: Goal, t: Task, more: seq<Rule>, h: Goal, u: Task)
    requires Fewer(cfg, g, rules, more) && g.source == h.source && g.channel == h.channel && Easier(t, u)
    requires (h.status != GoalFailed ==> g.status != GoalFailed) && Completable(cfg, more, h, u)
    ensures Completable(cfg, rules, g, t)
    ensures Fewer(cfg, g, rules + Granted(cfg, rules, g, t), more + Granted(cfg, more, h, u))
  {
    JudgeAlike(cfg, more, g, h, t, u);
    FewerFor(cfg, g, rules, more, t);
    hide Judge, Narrowest, Fewer;
    assert rules + [] == rules && more + [] == more;
    if TakesText(t) {
      return;
    }
    var n, before, after := Narrowest(cfg, g, t), Judge(cfg, rules, g, t), Judge(cfg, more, g, t);
    if before.Asked? {
      NarrowestPasses(cfg, rules, g, t);
      if after.Asked? {
        BothMore(cfg, g, rules, more, n);
      } else {
        NarrowMore(cfg, g, rules, more, t);
      }
    } else if after.Asked? {
      FewerThanMore(cfg, g, rules, more, n);
    }
  }

  lemma FewerFor(cfg: Config, g: Goal, rules: seq<Rule>, more: seq<Rule>, t: Task)
    requires Fewer(cfg, g, rules, more)
    ensures var a, b := Judge(cfg, rules, g, t), Judge(cfg, more, g, t);
            && (a.Refused? ==> b.Refused?) && (t.kind == WaitInput && b.Asked? ==> a.Asked?)
            && (!cfg.connected ==> a.Pass? == b.Pass? && a.Asked? == b.Asked?)
  {
  }

  // --- what one operation does to one row ---

  /** The row can be completed now, without any rule. */
  predicate Due(cfg: Config, rules: seq<Rule>, g: Goal, i: TaskId)
    requires i < |g.tasks|
  {
    var t := g.tasks[i];
    AllDone(g, t.deps) && Completable(cfg, rules, g, t) && (TakesText(t) || !Judge(cfg, rules, g, t).Asked?)
  }

  /** An operation completes or parks only rows that are done, parked or due. */
  lemma OpRow(cfg: Config, w: World, s: System, op: Operation, i: TaskId)
    requires Boundary(s.m.goal) && i < |s.m.goal.tasks|
    ensures var h := Do(cfg, w, s, op).m.goal;
            && i < |h.tasks| && RowLater(s.m.goal.tasks[i], h.tasks[i])
            && (h.tasks[i].status == Done || Parked(h.tasks[i]) ==>
                  s.m.goal.tasks[i].status == Done || Parked(s.m.goal.tasks[i]) || Due(cfg, s.rules, s.m.goal, i))
  {
    hide *;
    DoMovesOn(cfg, w, s, op);
    match op {
      case StepOp =>
        StepIs(cfg, w, s);
        StepRow(cfg, s.rules, w, s.m, i);
      case InputOp(text) => InputRow(cfg, w, s, text, i);
      case _ => OtherRows(cfg, w, s, op);
    }
    LaterRow(s.m.goal, Do(cfg, w, s, op).m.goal, i);
    ParkedIs(s.m.goal.tasks[i]);
    ParkedIs(Do(cfg, w, s, op).m.goal.tasks[i]);
  }

  lemma ParkedIs(t: Task)
    ensures Parked(t) <==> t.status == Blocked && TakesText(t)
  {
  }

  lemma LaterRow(g: Goal, h: Goal, i: TaskId)
    requires Later(g, h) && i < |g.tasks|
    ensures i < |h.tasks| && RowLater(g.tasks[i], h.tasks[i])
    ensures h.tasks[i].kind == g.tasks[i].kind && h.tasks[i].instruction == g.tasks[i].instruction
    ensures h.tasks[i].deps == g.tasks[i].deps && (g.tasks[i].status == Done ==> h.tasks[i].status == Done)
  {
  }

  lemma DoMovesOn(cfg: Config, w: World, s: System, op: Operation)
    requires Boundary(s.m.goal)
    ensures var h := Do(cfg, w, s, op).m.goal;
            Boundary(h) && Later(s.m.goal, h) && (s.m.goal.status == GoalFailed ==> h.status == GoalFailed)
  {
    hide *;
    DoKeeps(cfg, w, s, op);
    BoundaryInv(s.m.goal);
    ContinuesLater(s.m, Do(cfg, w, s, op).m);
  }

  lemma ContinuesLater(m: Machine, p: Machine)
    requires Inv(m.goal) && Continues(m, p)
    ensures Later(m.goal, p.goal)
  {
    RunKeepsInv(m.goal, p.log[|m.log|..]);
  }

  lemma StepIs(cfg: Config, w: World, s: System)
    ensures Do(cfg, w, s, StepOp).m == StepGoal(cfg, s.rules, w, s.m) && Do(cfg, w, s, StepOp).rules == s.rules
  {
    hide StepGoal;
  }

  /** Approval, recovery and rules leave the rows of a goal nothing is running in. */
  lemma OtherRows(cfg: Config, w: World, s: System, op: Operation)
    requires Boundary(s.m.goal) && !op.StepOp? && !op.InputOp?
    ensures Do(cfg, w, s, op).m.goal.tasks == s.m.goal.tasks
  {
    hide Inv, AllEnabled, ApplyAll;
    match op
    case ApproveOp => ApproveEnabled(s.m.goal);
    case RecoverOp =>
      OneWrite(s.m.goal, Recover);
      assert Apply(s.m.goal, Recover).tasks == s.m.goal.tasks;
    case _ =>
  }

  lemma StepRow(cfg: Config, rules: seq<Rule>, w: World, m: Machine, i: TaskId)
    requires Boundary(m.goal) && i < |m.goal.tasks|
    ensures var h := StepGoal(cfg, rules, w, m).goal;
            && i < |h.tasks|
            && (h.tasks[i] == m.goal.tasks[i] || (Works(m.goal) && IsReady(m.goal, i)))
            && (h.tasks[i].status == Done || Parked(h.tasks[i]) ==>
                  m.goal.tasks[i].status == Done || Parked(m.goal.tasks[i]) || Due(cfg, rules, m.goal, i))
  {
    var g, h := m.goal, StepGoal(cfg, rules, w, m).goal;
    hide Judge, StepGoal, ReadyList;
    if Works(g) {
      StepEffect(cfg, rules, w, m);
      if IsReady(g, i) {
        var t := g.tasks[i];
        var outcome, reply :| h.tasks[i] == TurnRow(t, Judge(cfg, rules, g, t), outcome, reply);
        assert t.kind == h.tasks[i].kind;
      }
    } else {
      StepsNot(cfg, rules, w, m);
    }
  }

  lemma StepsNot(cfg: Config, rules: seq<Rule>, w: World, m: Machine)
    requires !Works(m.goal)
    ensures StepGoal(cfg, rules, w, m) == m
  {
  }

  lemma InputRow(cfg: Config, w: World, s: System, text: string, i: TaskId)
    requires Boundary(s.m.goal) && i < |s.m.goal.tasks|
    ensures var h := Do(cfg, w, s, InputOp(text)).m.goal;
            && i < |h.tasks|
            && (FirstAnswerable(s.m.goal, 0) != Some(i) ==> h.tasks[i] == s.m.goal.tasks[i])
            && (FirstAnswerable(s.m.goal, 0) == Some(i) ==>
                  && s.m.goal.tasks[i].status == Blocked
                  && (if TakesText(s.m.goal.tasks[i]) then h.tasks[i].status == Done
                      else h.tasks[i].status == Pending || h.tasks[i].status == Failed))
  {
    var g := s.m.goal;
    hide OnInput, FirstAnswerable, IsApprovalBlocker, AllEnabled, ApplyAll;
    InputEnabled(cfg, g, text);
    InputShape(cfg, g, text);
    NoWrites(g);
  }

  // --- necessity ---

  /** The rules an operation leaves. */
  lemma RulesAfter(cfg: Config, w: World, s: System, op: Operation)
    ensures Fewer(cfg, s.m.goal, s.rules, Do(cfg, w, s, op).rules)
  {
    hide Judge, OnInput, StepGoal, Issue;
    var more := Do(cfg, w, s, op).rules;
    FewerThanSame(cfg, s.m.goal, s.rules);
    if more != s.rules {
      assert cfg.connected && exists r :: more == s.rules + [r];
      var r :| more == s.rules + [r];
      FewerThanMore(cfg, s.m.goal, s.rules, s.rules, r);
    }
  }

  lemma FewerThanSame(cfg: Config, g: Goal, rules: seq<Rule>)
    ensures Fewer(cfg, g, rules, rules)
  {
    hide Judge;
  }

  /** The tasks below n that are done or parked in h and not yet in g. */
  function Front(g: Goal, h: Goal, n: nat): (front: seq<TaskId>)
    requires n <= |g.tasks| <= |h.tasks|
    ensures forall x: TaskId :: x in front <==> x < n && IsNew(g, h, x)
  {
    if n == 0 then [] else Front(g, h, n - 1) + (if IsNew(g, h, n - 1) then [n - 1] else [])
  }

  predicate IsNew(g: Goal, h: Goal, x: TaskId) {
    x < |g.tasks| && x < |h.tasks| && g.tasks[x].status != Done &&
    (h.tasks[x].status == Done || (Parked(h.tasks[x]) && !Parked(g.tasks[x])))
  }

  /** Tasks that are due come first, in any order. */
  lemma {:induction false} DueFirst(cfg: Config, rules: seq<Rule>, g: Goal, front: seq<TaskId>, rest: seq<TaskId>, done: set<TaskId>)
    requires forall x | x in front :: x < |g.tasks| && Due(cfg, rules, g, x)
    requires DoneIds(g) <= done && Finishes(cfg, rules, g, rest, done + set x | x in front)
    ensures Finishes(cfg, rules, g, front + rest, done)
    decreases |front|
  {
    hide Judge, Narrowest;
    var all := set x | x in front;
    if front == [] {
      assert done + all == done && front + rest == rest;
    } else {
      var x := front[0];
      assert (front + rest)[1..] == front[1..] + rest && x in front;
      assert forall y | y in front[1..] :: y in front;
      assert done + all == done + {x} + set y | y in front[1..] by {
        assert forall y :: y in front <==> y == x || y in front[1..];
      }
      if x in done {
        assert done + {x} == done;
        DueFirst(cfg, rules, g, front[1..], rest, done);
      } else {
        DueFirst(cfg, rules, g, front[1..], rest, done + {x});
        DueNow(cfg, rules, g, x, done);
      }
    }
  }

  lemma DueNow(cfg: Config, rules: seq<Rule>, g: Goal, x: TaskId, done: set<TaskId>)
    requires x < |g.tasks| && Due(cfg, rules, g, x) && DoneIds(g) <= done
    ensures Completable(cfg, rules, g, g.tasks[x]) && forall d | d in g.tasks[x].deps :: d in done
    ensures rules + Granted(cfg, rules, g, g.tasks[x]) == rules
  {
    hide Judge, Narrowest;
    assert rules + [] == rules;
    forall d | d in g.tasks[x].deps ensures d in done {
      assert d in DoneIds(g);
    }
  }

  /** What finishes after an operation finishes before it, with what it did put first. */
  lemma OpBack(cfg: Config, w: World, s: System, op: Operation, order: seq<TaskId>, n: nat)
    requires Boundary(s.m.goal) && n <= |s.m.goal.tasks| && Below(order, n)
    requires var t := Do(cfg, w, s, op); Finishes(cfg, t.rules, t.m.goal, order, DoneIds(t.m.goal))
    ensures var h := Do(cfg, w, s, op).m.goal;
            |s.m.goal.tasks| <= |h.tasks| &&
            var front := Front(s.m.goal, h, n);
            Below(front + order, n) && Finishes(cfg, s.rules, s.m.goal, front + order, DoneIds(s.m.goal))
  {
    var g, t := s.m.goal, Do(cfg, w, s, op);
    var h := t.m.goal;
    hide Do, Judge, Narrowest, Finishes, Fewer;
    DoMovesOn(cfg, w, s, op);
    RulesAfter(cfg, w, s, op);
    var front := Front(g, h, n);
    var done := DoneIds(g) + set x | x in front;
    forall x: TaskId | x < n
      ensures IsNew(g, h, x) ==> Due(cfg, s.rules, g, x)
      ensures x in DoneIds(h) ==> x in done
      ensures x !in done ==> Easier(g.tasks[x], h.tasks[x])
    {
      OpRow(cfg, w, s, op, x);
      ParkedIsDue(cfg, s.rules, g, x);
    }
    assert Eased(cfg, s.rules, g, done, t.rules, h, DoneIds(h), order, n);
    FinishesEased(cfg, s.rules, g, done, t.rules, h, DoneIds(h), order, n);
    DueFirst(cfg, s.rules, g, front, order, DoneIds(g));
  }

  lemma ParkedIsDue(cfg: Config, rules: seq<Rule>, g: Goal, x: TaskId)
    requires Inv(g) && x < |g.tasks|
    ensures Parked(g.tasks[x]) ==> Due(cfg, rules, g, x)
  {
    hide Judge;
  }

  /** Whatever a sequence of operations completes could be completed in some order. */
  lemma {:induction false} RunBack(cfg: Config, w: World, s: System, ops: seq<Operation>, n: nat) returns (order: seq<TaskId>)
    requires Boundary(s.m.goal) && n <= |s.m.goal.tasks|
    ensures Below(order, n) && Finishes(cfg, s.rules, s.m.goal, order, DoneIds(s.m.goal))
    ensures forall x: TaskId | x < n && HasStatus(DoAll(cfg, w, s, ops).m.goal, x, Done) :: x in order || x in DoneIds(s.m.goal)
    decreases |ops|
  {
    if ops == [] {
      order := [];
    } else {
      var g, t := s.m.goal, Do(cfg, w, s, ops[0]);
      DoMovesOn(cfg, w, s, ops[0]);
      hide Do, Judge, Finishes, Boundary;
      var rest := RunBack(cfg, w, t, ops[1..], n);
      OpBack(cfg, w, s, ops[0], rest, n);
      order := Front(g, t.m.goal, n) + rest;
    }
  }

  /** Only a step takes a task out of PENDING, when it is ready and the goal is open. */
  lemma LeavesByStep(cfg: Config, w: World, s: System, op: Operation, i: TaskId)
    requires Boundary(s.m.goal) && HasStatus(s.m.goal, i, Pending)
    requires !HasStatus(Do(cfg, w, s, op).m.goal, i, Pending)
    ensures IsReady(s.m.goal, i) && Works(s.m.goal)
  {
    hide *;
    DoMovesOn(cfg, w, s, op);
    LaterSize(s.m.goal, Do(cfg, w, s, op).m.goal, i);
    match op {
      case StepOp =>
        StepIs(cfg, w, s);
        StepRow(cfg, s.rules, w, s.m, i);
      case InputOp(text) => InputRow(cfg, w, s, text, i);
      case _ => OtherRows(cfg, w, s, op);
    }
    assert HasStatus(s.m.goal, i, Pending) && !HasStatus(Do(cfg, w, s, op).m.goal, i, Pending);
  }

  lemma LaterSize(g: Goal, h: Goal, i: TaskId)
    requires Later(g, h) && HasStatus(g, i, Pending)
    ensures i < |g.tasks| <= |h.tasks| && g.tasks[i].status == Pending
    ensures HasStatus(h, i, Pending) <==> h.tasks[i].status == Pending
  {
  }

  /** Whatever sequence of operations starts task i, all it depends on could be completed. */
  lemma {:induction false} StartBack(cfg: Config, w: World, s: System, ops: seq<Operation>, i: TaskId) returns (order: seq<TaskId>)
    requires Boundary(s.m.goal) && HasStatus(s.m.goal, i, Pending)
    requires !HasStatus(DoAll(cfg, w, s, ops).m.goal, i, Pending)
    ensures s.m.goal.status != GoalFailed && Below(order, i)
    ensures Finishes(cfg, s.rules, s.m.goal, order, DoneIds(s.m.goal))
    ensures forall d | d in s.m.goal.tasks[i].deps :: d in order || d in DoneIds(s.m.goal)
    decreases |ops|
  {
    var g, t := s.m.goal, Do(cfg, w, s, ops[0]);
    DoMovesOn(cfg, w, s, ops[0]);
    if !HasStatus(t.m.goal, i, Pending) {
      LeavesByStep(cfg, w, s, ops[0], i);
      order := [];
    } else {
      hide Do, Judge, Finishes, Boundary;
      var rest := StartBack(cfg, w, t, ops[1..], i);
      OpBack(cfg, w, s, ops[0], rest, i);
      order := Front(g, t.m.goal, i) + rest;
      LaterRow(g, t.m.goal, i);
      StartDeps(g, i);
    }
  }

  lemma StartDeps(g: Goal, i: TaskId)
    requires Boundary(g) && i < |g.tasks|
    ensures forall d | d in g.tasks[i].deps :: d < i
  {
  }

  // --- sufficiency ---

  /** Every execution returns, the planner never decides, the user allows. */
  const OBLIGING := World(n => Returned(""), n => NoDecision)

  function After(cfg: Config, s: System, ops: seq<Operation>): System {
    DoAll(cfg, OBLIGING, s, ops)
  }

  lemma {:induction false} AfterConcat(cfg: Config, s: System, us: seq<Operation>, vs: seq<Operation>)
    ensures After(cfg, s, us + vs) == After(cfg, After(cfg, s, us), vs)
    decreases |us|
  {
    if us == [] {
      assert us + vs == vs;
    } else {
      assert (us + vs)[1..] == us[1..] + vs;
      AfterConcat(cfg, Do(cfg, OBLIGING, s, us[0]), us[1..], vs);
      hide Do;
    }
  }

  lemma AfterOne(cfg: Config, s: System, op: Operation)
    ensures After(cfg, s, [op]) == Do(cfg, OBLIGING, s, op)
  {
    var t := Do(cfg, OBLIGING, s, op);
    hide Do;
    assert [op][1..] == [] && DoAll(cfg, OBLIGING, t, []) == t;
  }

  /** A row once the user has answered all that is blocked with "allow". */
  predicate Flushed(u: Task, t: Task) {
    if t.status != Blocked then u == t
    else if TakesText(t) then u.status == Done && RowLater(t, u)
    else u.status == Pending && RowLater(t, u)
  }

  /** One "allow": the first blocked row is completed or put back, and no rule is stored. */
  lemma OneAllow(cfg: Config, s: System, i: TaskId)
    requires Boundary(s.m.goal) && FirstAnswerable(s.m.goal, 0) == Some(i)
    ensures var g, t := s.m.goal, Do(cfg, OBLIGING, s, InputOp("allow"));
            && t.rules == s.rules && |t.m.goal.tasks| == |g.tasks|
            && t.m.goal.tasks == g.tasks[i := t.m.goal.tasks[i]]
            && Flushed(t.m.goal.tasks[i], g.tasks[i]) && g.tasks[i].status == Blocked
            && t.m.goal.status == (if g.status == GoalBlocked then GoalExecuting else g.status)
  {
    var g := s.m.goal;
    AllowIsPlain();
    hide FirstAnswerable, IsApprovalBlocker, AllEnabled, ApplyAll, ChoiceOf;
    InputEnabled(cfg, g, "allow");
    InputShape(cfg, g, "allow");
    if !TakesText(g.tasks[i]) {
      ApprovalShape(cfg, g, i, Plain);
    }
  }

  /** The goal after "allow" was said until nothing is blocked. */
  ghost predicate AllFlushed(s: System, t: System) {
    && Boundary(t.m.goal) && Later(s.m.goal, t.m.goal) && t.rules == s.rules
    && |t.m.goal.tasks| == |s.m.goal.tasks|
    && (forall i | 0 <= i < |s.m.goal.tasks| :: Flushed(t.m.goal.tasks[i], s.m.goal.tasks[i]))
    && (Works(s.m.goal) ==> Works(t.m.goal))
  }

  lemma {:induction false} Flush(cfg: Config, s: System, k: nat) returns (ops: seq<Operation>)
    requires Boundary(s.m.goal) && k <= |s.m.goal.tasks| && forall i | 0 <= i < k :: s.m.goal.tasks[i].status != Blocked
    ensures AllFlushed(s, After(cfg, s, ops))
    decreases |s.m.goal.tasks| - k
  {
    var g := s.m.goal;
    NoneBlocked(g);
    if FirstAnswerable(g, 0).None? {
      ops := [];
      FlushedAlready(s);
    } else {
      var i := FirstAnswerable(g, 0).value;
      var t := Do(cfg, OBLIGING, s, InputOp("allow"));
      FirstBlocked(g, k);
      OneAllow(cfg, s, i);
      DoMovesOn(cfg, OBLIGING, s, InputOp("allow"));
      hide *;
      var rest := Flush(cfg, t, i + 1);
      ops := [InputOp("allow")] + rest;
      AfterOne(cfg, s, InputOp("allow"));
      AfterConcat(cfg, s, [InputOp("allow")], rest);
      FlushOn(s, t, After(cfg, t, rest), i);
    }
  }

  lemma NoneBlocked(g: Goal)
    requires Inv(g)
    ensures FirstAnswerable(g, 0).None? ==> forall i | 0 <= i < |g.tasks| :: g.tasks[i].status != Blocked
  {
    hide FirstAnswerable, IsApprovalBlocker, Acyclic, Closed;
    forall i | 0 <= i < |g.tasks| && FirstAnswerable(g, 0).None? ensures g.tasks[i].status != Blocked {
      assert RowOk(g.tasks[i]) && !Answerable(g.tasks[i]);
    }
  }

  lemma FirstBlocked(g: Goal, k: nat)
    requires Inv(g) && FirstAnswerable(g, 0).Some? && k <= |g.tasks| && forall i | 0 <= i < k :: g.tasks[i].status != Blocked
    ensures var i := FirstAnswerable(g, 0).value;
            k <= i < |g.tasks| && forall j | 0 <= j < i :: g.tasks[j].status != Blocked
  {
    hide FirstAnswerable, IsApprovalBlocker, Acyclic, Closed;
    var i := FirstAnswerable(g, 0).value;
    forall j | 0 <= j < i ensures g.tasks[j].status != Blocked {
      assert RowOk(g.tasks[j]) && !Answerable(g.tasks[j]);
    }
  }

  lemma FlushedAlready(s: System)
    requires Boundary(s.m.goal) && forall i | 0 <= i < |s.m.goal.tasks| :: s.m.goal.tasks[i].status != Blocked
    ensures AllFlushed(s, s)
  {
  }

  lemma FlushOn(s: System, t: System, u: System, i: TaskId)
    requires i < |s.m.goal.tasks| && AllFlushed(t, u) && Later(s.m.goal, t.m.goal)
    requires t.rules == s.rules && |t.m.goal.tasks| == |s.m.goal.tasks| && t.m.goal.tasks == s.m.goal.tasks[i := t.m.goal.tasks[i]]
    requires Flushed(t.m.goal.tasks[i], s.m.goal.tasks[i]) && s.m.goal.tasks[i].status == Blocked
    requires Works(s.m.goal) ==> Works(t.m.goal)
    ensures AllFlushed(s, u)
  {
    LaterTransitive(s.m.goal, t.m.goal, u.m.goal);
    hide Boundary;
  }

  // --- a step in that world ---

  lemma {:induction false} RowWritesKeepStatus(g: Goal, ws: seq<Write>)
    requires AllEnabled(g, ws) && forall w | w in ws :: RowWrite(w)
    ensures ApplyAll(g, ws).status == g.status
    decreases |ws|
  {
    if ws != [] {
      assert RowWrite(ws[0]);
      RowWritesKeepStatus(Apply(g, ws[0]), ws[1..]);
    }
  }

  lemma CalmTurn(cfg: Config, rules: seq<Rule>, m: Machine, i: TaskId)
    requires IsReady(m.goal, i)
    ensures ProcessTask(cfg, rules, OBLIGING, m, i).goal.status == m.goal.status
  {
    var t := m.goal.tasks[i];
    var ws := TaskWrites(t, i, Judge(cfg, rules, m.goal, t), Returned(""), NoDecision);
    TaskEnabled(cfg, rules, m.goal, i, Returned(""), NoDecision);
    CalmWrites(t, i, Judge(cfg, rules, m.goal, t));
    hide Judge, TaskWrites, AllEnabled, ApplyAll, RowWrite;
    RowWritesKeepStatus(m.goal, ws);
  }

  lemma CalmWrites(t: Task, i: TaskId, gate: GateAnswer)
    ensures forall w | w in TaskWrites(t, i, gate, Returned(""), NoDecision) :: RowWrite(w)
  {
    if gate.Pass? {
      hide FailWrites, ErrorOf, ResultOf, ParkReason;
      CalmFailure(t, i, "Waiting for input: " + t.description);
      var ws := ExecWrites(t, i, Returned(""), NoDecision);
      assert forall w | w in ws :: RowWrite(w) by {
        if Fails(t, Returned("")) {
          assert ErrorOf(t, Returned("")) == "Waiting for input: " + t.description by { WaitingError(t); }
        }
      }
    }
  }

  lemma WaitingError(t: Task)
    requires Fails(t, Returned(""))
    ensures ErrorOf(t, Returned("")) == "Waiting for input: " + t.description
  {
  }

  lemma CalmFailure(t: Task, i: TaskId, error: string)
    ensures forall w | w in FailWrites(t, i, error, NoDecision) :: RowWrite(w)
  {
    assert ReplanWrites(i, NoDecision) == [];
  }

  lemma {:induction false} CalmBatch(cfg: Config, rules: seq<Rule>, m: Machine, ready: seq<TaskId>)
    ensures RunBatch(cfg, rules, OBLIGING, m, ready).goal.status == m.goal.status
  {
    if ready != [] {
      var p := RunBatch(cfg, rules, OBLIGING, m, ready[..|ready| - 1]);
      CalmBatch(cfg, rules, m, ready[..|ready| - 1]);
      hide ProcessTask;
      if IsReady(p.goal, ready[|ready| - 1]) {
        CalmTurn(cfg, rules, p, ready[|ready| - 1]);
      }
    }
  }

  /** A step of an open goal: every ready row takes its turn, no row is added, and as long as
      some task is unsettled the goal stays open. */
  lemma CalmStep(cfg: Config, s: System, i: TaskId)
    requires Boundary(s.m.goal) && Works(s.m.goal) && i < |s.m.goal.tasks|
    ensures var g, t := s.m.goal, Do(cfg, OBLIGING, s, StepOp);
            && t.rules == s.rules && |t.m.goal.tasks| == |g.tasks|
            && (Works(t.m.goal) || Settled(t.m.goal.tasks[i]))
            && forall k | 0 <= k < |g.tasks| :: t.m.goal.tasks[k] ==
                 if IsReady(g, k) then TurnRow(g.tasks[k], Judge(cfg, s.rules, g, g.tasks[k]), Returned(""), NoDecision)
                 else g.tasks[k]
  {
    hide *;
    var g, h := s.m.goal, StepGoal(cfg, s.rules, OBLIGING, s.m).goal;
    var p := RunBatch(cfg, s.rules, OBLIGING, s.m, ReadyList(g));
    StepIs(cfg, OBLIGING, s);
    WorksIs(g);
    StepIsBatch(cfg, s.rules, OBLIGING, s.m);
    CalmBatch(cfg, s.rules, s.m, ReadyList(g));
    ReadyUpToMeaning(g, |g.tasks|);
    ListIs(g);
    BatchSound(cfg, s.rules, OBLIGING, s.m, ReadyList(g));
    ObligingIs();
    ObligingAddsNone(p.asked);
    ObligingAddsNone(s.m.asked);
    StaysOpen(g, h, p.goal, i);
    forall k | 0 <= k < |g.tasks| ensures h.tasks[k] ==
      if IsReady(g, k) then TurnRow(g.tasks[k], Judge(cfg, s.rules, g, g.tasks[k]), Returned(""), NoDecision) else g.tasks[k]
    {
      if IsReady(g, k) {
        var j :| 0 <= j < |ReadyList(g)| && ReadyList(g)[j] == k;
        RowAfter(cfg, s.rules, OBLIGING, s.m, j, |ReadyList(g)|);
        assert ReadyList(g)[..|ReadyList(g)|] == ReadyList(g);
      } else {
        UntouchedRow(cfg, s.rules, g, p.goal, ReadyList(g), k);
      }
    }
  }

  lemma ObligingIs()
    ensures forall n: nat :: OBLIGING.outcomes(n) == Returned("") && OBLIGING.replies(n) == NoDecision
  {
  }

  lemma ObligingAddsNone(n: nat)
    ensures Total(OBLIGING.replies, n) == 0
  {
    NothingAdded(OBLIGING, n);
  }

  lemma WorksIs(g: Goal)
    ensures Works(g) <==> g.status !in {GoalDraft, GoalDone, GoalFailed}
  {
  }

  lemma UntouchedRow(cfg: Config, rules: seq<Rule>, g: Goal, h: Goal, ready: seq<TaskId>, k: TaskId)
    requires BatchEffect(cfg, rules, g, h, ready) && k !in ready && k < |g.tasks|
    ensures k < |h.tasks| && h.tasks[k] == g.tasks[k]
  {
    hide Judge, TurnRow;
  }

  lemma StaysOpen(g: Goal, h: Goal, p: Goal, i: TaskId)
    requires Works(g) && p.status == g.status && i < |p.tasks|
    requires h == p.(status := if Verdict(p).Some? then Verdict(p).value else p.status)
    ensures Works(h) || Settled(h.tasks[i])
  {
  }

  // --- completing one task ---

  /** The row is done, or neither dead nor about to fail under the rules. */
  predicate Sound(cfg: Config, rules: seq<Rule>, g: Goal, t: Task) {
    t.status == Done || Parked(t) ||
    (t.status !in {Failed, Skipped} &&
     match Judge(cfg, rules, g, t)
     case Pass => t.kind != WaitInput
     case Asked(_) => true
     case Refused(_) => false)
  }

  predicate Sane(u: Task, t: Task) {
    u.status == Done || Easier(u, t)
  }

  /** The listed rows of g are sound in h and done or no harder to complete. */
  ghost predicate Carried(cfg: Config, rules: seq<Rule>, g: Goal, h: Goal, ids: seq<TaskId>) {
    h.source == g.source && h.channel == g.channel &&
    forall y | y in ids :: y < |g.tasks| && y < |h.tasks| && Sane(h.tasks[y], g.tasks[y]) && Sound(cfg, rules, h, h.tasks[y])
  }

  lemma CarriedOn(cfg: Config, rules: seq<Rule>, g: Goal, h: Goal, k: Goal, ids: seq<TaskId>)
    requires Carried(cfg, rules, g, h, ids) && Carried(cfg, rules, h, k, ids) && Later(h, k)
    ensures Carried(cfg, rules, g, k, ids)
  {
    hide Sound;
    forall y | y in ids ensures Sane(k.tasks[y], g.tasks[y]) {
      LaterRow(h, k, y);
    }
  }

  lemma CarriedByFlush(cfg: Config, rules: seq<Rule>, s: System, t: System, ids: seq<TaskId>)
    requires Carried(cfg, rules, s.m.goal, s.m.goal, ids) && AllFlushed(s, t)
    ensures Carried(cfg, rules, s.m.goal, t.m.goal, ids)
  {
    hide Boundary, Judge;
    forall y | y in ids ensures Sane(t.m.goal.tasks[y], s.m.goal.tasks[y]) && Sound(cfg, rules, t.m.goal, t.m.goal.tasks[y]) {
      LaterRow(s.m.goal, t.m.goal, y);
      JudgeAlike(cfg, rules, s.m.goal, t.m.goal, s.m.goal.tasks[y], t.m.goal.tasks[y]);
    }
  }

  /** The turn of a sound row completes it, or blocks it. */
  lemma SoundTurn(cfg: Config, rules: seq<Rule>, g: Goal, h: Goal, t: Task, u: Task)
    requires Sound(cfg, rules, g, t) && t.status == Pending && g.source == h.source && g.channel == h.channel
    requires u == TurnRow(t, Judge(cfg, rules, g, t), Returned(""), NoDecision)
    ensures Sane(u, t) && Sound(cfg, rules, h, u)
    ensures u.status == (if Judge(cfg, rules, g, t).Pass? then Done else Blocked)
  {
    JudgeAlike(cfg, rules, g, h, t, u);
    hide Judge;
  }

  lemma CarriedByStep(cfg: Config, s: System, i: TaskId, ids: seq<TaskId>)
    requires Boundary(s.m.goal) && Works(s.m.goal) && i < |s.m.goal.tasks|
    requires Carried(cfg, s.rules, s.m.goal, s.m.goal, ids)
    ensures Carried(cfg, s.rules, s.m.goal, Do(cfg, OBLIGING, s, StepOp).m.goal, ids)
  {
    hide Boundary, Judge, TurnRow, Do, Sound;
    var g, h := s.m.goal, Do(cfg, OBLIGING, s, StepOp).m.goal;
    CalmStep(cfg, s, i);
    DoMovesOn(cfg, OBLIGING, s, StepOp);
    forall y | y in ids ensures Sane(h.tasks[y], g.tasks[y]) && Sound(cfg, s.rules, h, h.tasks[y]) {
      if IsReady(g, y) {
        SoundTurn(cfg, s.rules, g, h, g.tasks[y], h.tasks[y]);
      } else {
        SoundAlike(cfg, s.rules, g, h, g.tasks[y]);
      }
    }
  }

  lemma SoundAlike(cfg: Config, rules: seq<Rule>, g: Goal, h: Goal, t: Task)
    requires Sound(cfg, rules, g, t) && g.source == h.source && g.channel == h.channel
    ensures Sound(cfg, rules, h, t)
  {
    JudgeAlike(cfg, rules, g, h, t, t);
    hide Judge;
  }

  /** What becomes of the listed rows while x is being completed. */
  ghost predicate Progress(cfg: Config, rules: seq<Rule>, s: System, t: System, ids: seq<TaskId>) {
    && Boundary(t.m.goal) && Later(s.m.goal, t.m.goal) && |t.m.goal.tasks| == |s.m.goal.tasks|
    && Carried(cfg, rules, s.m.goal, t.m.goal, ids)
  }

  lemma FlushProgress(cfg: Config, rules: seq<Rule>, s: System, ids: seq<TaskId>) returns (ops: seq<Operation>)
    requires Boundary(s.m.goal) && Carried(cfg, rules, s.m.goal, s.m.goal, ids)
    ensures var t := After(cfg, s, ops); Progress(cfg, rules, s, t, ids) && AllFlushed(s, t)
  {
    hide *;
    ops := Flush(cfg, s, 0);
    CarriedByFlush(cfg, rules, s, After(cfg, s, ops), ids);
    FlushedGoal(s, After(cfg, s, ops));
    ProgressIs(cfg, rules, s, After(cfg, s, ops), ids);
  }

  lemma FlushedGoal(s: System, t: System)
    requires AllFlushed(s, t)
    ensures Boundary(t.m.goal) && Later(s.m.goal, t.m.goal) && t.rules == s.rules && |t.m.goal.tasks| == |s.m.goal.tasks|
    ensures Works(s.m.goal) ==> Works(t.m.goal)
    ensures forall i | 0 <= i < |s.m.goal.tasks| :: Flushed(t.m.goal.tasks[i], s.m.goal.tasks[i])
  {
  }

  lemma ProgressIs(cfg: Config, rules: seq<Rule>, s: System, t: System, ids: seq<TaskId>)
    ensures Progress(cfg, rules, s, t, ids) <==>
            && Boundary(t.m.goal) && Later(s.m.goal, t.m.goal) && |t.m.goal.tasks| == |s.m.goal.tasks|
            && Carried(cfg, rules, s.m.goal, t.m.goal, ids)
  {
  }

  lemma ProgressOn(cfg: Config, rules: seq<Rule>, s: System, t: System, u: System, ids: seq<TaskId>)
    requires Progress(cfg, rules, s, t, ids) && Progress(cfg, rules, t, u, ids)
    ensures Progress(cfg, rules, s, u, ids)
  {
    hide Boundary, Later, Carried;
    LaterTransitive(s.m.goal, t.m.goal, u.m.goal);
    CarriedOn(cfg, rules, s.m.goal, t.m.goal, u.m.goal, ids);
  }

  lemma CarriedSelf(cfg: Config, rules: seq<Rule>, g: Goal, h: Goal, ids: seq<TaskId>)
    requires Carried(cfg, rules, g, h, ids)
    ensures Carried(cfg, rules, h, h, ids)
  {
    hide Sound;
  }

  /** The next task of an order, its dependencies DONE, is completed by answering what is
      blocked, storing its rule, stepping, and answering again, unless task i settles first. */
  lemma FinishOne(cfg: Config, s: System, x: TaskId, i: TaskId, ids: seq<TaskId>) returns (ops: seq<Operation>)
    requires Boundary(s.m.goal) && Works(s.m.goal) && i < |s.m.goal.tasks| && x < |s.m.goal.tasks| && x in ids
    requires s.m.goal.tasks[x].status != Done && AllDone(s.m.goal, s.m.goal.tasks[x].deps)
    requires Completable(cfg, s.rules, s.m.goal, s.m.goal.tasks[x])
    requires var more := s.rules + Granted(cfg, s.rules, s.m.goal, s.m.goal.tasks[x]);
             Carried(cfg, more, s.m.goal, s.m.goal, ids)
    ensures var t := After(cfg, s, ops);
            var more := s.rules + Granted(cfg, s.rules, s.m.goal, s.m.goal.tasks[x]);
            && Progress(cfg, more, s, t, ids) && (t.rules == more || t.rules == s.rules)
            && (Settled(t.m.goal.tasks[i]) || (Works(t.m.goal) && t.m.goal.tasks[x].status == Done))
  {
    hide *;
    var g := s.m.goal;
    var granted := Granted(cfg, s.rules, g, g.tasks[x]);
    var more := s.rules + granted;
    var us := FlushProgress(cfg, more, s, ids);
    var s1 := After(cfg, s, us);
    FlushedGoal(s, s1);
    ProgressIs(cfg, more, s, s1, ids);
    if Settled(s1.m.goal.tasks[i]) || s1.m.goal.tasks[x].status == Done {
      ops := us;
      return;
    }
    FlushedIsReady(cfg, s, s1, x);
    CarriedSelf(cfg, more, g, s1.m.goal, ids);
    var store := Storing(granted);
    StoreGranted(cfg, s1, s.rules, g, g.tasks[x]);
    var s2 := After(cfg, s1, store);
    CalmStep(cfg, s2, i);
    CalmStep(cfg, s2, x);
    CarriedByStep(cfg, s2, i, ids);
    DoMovesOn(cfg, OBLIGING, s2, StepOp);
    var s3 := Do(cfg, OBLIGING, s2, StepOp);
    AfterOne(cfg, s2, StepOp);
    AfterConcat(cfg, s1, store, [StepOp]);
    AfterConcat(cfg, s, us, store + [StepOp]);
    ProgressIs(cfg, more, s1, s3, ids);
    ProgressOn(cfg, more, s, s1, s3, ids);
    ops := us + (store + [StepOp]);
    if Settled(s3.m.goal.tasks[i]) {
      return;
    }
    CarriedSelf(cfg, more, s1.m.goal, s3.m.goal, ids);
    var vs := FlushProgress(cfg, more, s3, ids);
    var s4 := After(cfg, s3, vs);
    FlushedGoal(s3, s4);
    ProgressOn(cfg, more, s, s3, s4, ids);
    AfterConcat(cfg, s, ops, vs);
    ops := ops + vs;
    TurnThenAnswer(cfg, s.rules, g, s2.m.goal, g.tasks[x], s1.m.goal.tasks[x], s3.m.goal.tasks[x], s4.m.goal.tasks[x]);
  }

  function Storing(granted: seq<Rule>): seq<Operation> {
    if granted == [] then [] else [StoreRule(granted[0])]
  }

  lemma StoreGranted(cfg: Config, s: System, rules: seq<Rule>, g: Goal, t: Task)
    requires s.rules == rules && Completable(cfg, rules, g, t)
    ensures var granted := Granted(cfg, rules, g, t);
            After(cfg, s, Storing(granted)) == System(s.m, rules + granted)
  {
    hide Judge, Narrowest;
    var granted := Granted(cfg, rules, g, t);
    assert rules + [] == rules;
    if granted != [] {
      AfterOne(cfg, s, StoreRule(granted[0]));
    }
  }

  /** Once nothing is blocked, an unfinished task whose dependencies are DONE is ready. */
  lemma FlushedIsReady(cfg: Config, s: System, t: System, x: TaskId)
    requires Boundary(s.m.goal) && AllFlushed(s, t) && x < |s.m.goal.tasks| && AllDone(s.m.goal, s.m.goal.tasks[x].deps)
    requires Completable(cfg, s.rules, s.m.goal, s.m.goal.tasks[x]) && t.m.goal.tasks[x].status != Done
    ensures IsReady(t.m.goal, x) && !Parked(s.m.goal.tasks[x])
    ensures t.m.goal.tasks[x].kind == s.m.goal.tasks[x].kind && t.m.goal.tasks[x].instruction == s.m.goal.tasks[x].instruction
  {
    hide Judge, Closed, Acyclic;
    DoneDepsStay(s.m.goal, t.m.goal, s.m.goal.tasks[x].deps);
    LaterRow(s.m.goal, t.m.goal, x);
    assert RowOk(s.m.goal.tasks[x]);
  }

  /** Its turn completes it, or blocks it where user text completes it. */
  lemma TurnThenAnswer(cfg: Config, rules: seq<Rule>, g: Goal, h: Goal, t: Task, u: Task, v: Task, done: Task)
    requires Completable(cfg, rules, g, t) && !Parked(t) && u.kind == t.kind && u.instruction == t.instruction
    requires g.source == h.source && g.channel == h.channel
    requires v == TurnRow(u, Judge(cfg, rules + Granted(cfg, rules, g, t), h, u), Returned(""), NoDecision) && Flushed(done, v)
    ensures done.status == Done
  {
    JudgeAlike(cfg, rules + Granted(cfg, rules, g, t), g, h, t, u);
    if Judge(cfg, rules, g, t).Asked? {
      NarrowestPasses(cfg, rules, g, t);
    }
    assert rules + [] == rules;
    hide Judge, Narrowest;
  }

  // --- completing an order ---

  /** Every task of an order that finishes is completable, and so sound, from the beginning. */
  lemma {:induction false} OrderSound(cfg: Config, g: Goal, rules: seq<Rule>, more: seq<Rule>, order: seq<TaskId>, done: set<TaskId>)
    requires Fewer(cfg, g, rules, more) && Finishes(cfg, more, g, order, done)
    ensures forall y | y in order && y !in done ::
              y < |g.tasks| && Completable(cfg, rules, g, g.tasks[y]) && Sound(cfg, rules, g, g.tasks[y])
    decreases |order|
  {
    if order != [] {
      var x, rest := order[0], order[1..];
      hide Judge, Narrowest, Fewer, Sound, Completable;
      if x in done {
        OrderSound(cfg, g, rules, more, rest, done);
      } else {
        CompletableIsSound(cfg, g, rules, more, g.tasks[x]);
        GrantMore(cfg, rules, g, more, g, g.tasks[x]);
        OrderSound(cfg, g, rules, more + Granted(cfg, more, g, g.tasks[x]), rest, done + {x});
      }
      assert forall y :: y in order <==> y == x || y in rest;
    }
  }

  lemma CompletableIsSound(cfg: Config, g: Goal, rules: seq<Rule>, more: seq<Rule>, t: Task)
    requires Fewer(cfg, g, rules, more) && Completable(cfg, more, g, t)
    ensures Completable(cfg, rules, g, t) && Sound(cfg, rules, g, t)
  {
    TurnEased(cfg, rules, g, t, more, g, t);
    hide Judge, Fewer;
  }

  /** An order that finishes can be completed, at least until task i settles. */
  lemma {:induction false} Carry(cfg: Config, s: System, order: seq<TaskId>, i: TaskId) returns (ops: seq<Operation>)
    requires Boundary(s.m.goal) && Works(s.m.goal) && i < |s.m.goal.tasks| && !Settled(s.m.goal.tasks[i])
    requires Finishes(cfg, s.rules, s.m.goal, order, DoneIds(s.m.goal))
    ensures var t := After(cfg, s, ops);
            && Boundary(t.m.goal) && Later(s.m.goal, t.m.goal) && |t.m.goal.tasks| == |s.m.goal.tasks|
            && (Settled(t.m.goal.tasks[i]) || (Works(t.m.goal) && AllDone(t.m.goal, order)))
            && (forall y | y in order :: y < |t.m.goal.tasks| && t.m.goal.tasks[y].status !in {Failed, Skipped})
    decreases |order|
  {
    var g := s.m.goal;
    if order == [] {
      ops := [];
      LaterSame(g);
      return;
    }
    var x, rest := order[0], order[1..];
    var done := DoneIds(g);
    var vs: seq<Operation>;
    if x in done {
      hide *;
      FrontDone(cfg, s.rules, g, order, done);
      ops := Carry(cfg, s, rest, i);
      DoneFront(g, After(cfg, s, ops).m.goal, order);
      return;
    }
    hide *;
    FrontNext(cfg, s.rules, g, order);
    var more := s.rules + Granted(cfg, s.rules, g, g.tasks[x]);
    OrderCarried(cfg, s.rules, g, order);
    var us := FinishOne(cfg, s, x, i, order);
    var t := After(cfg, s, us);
    ProgressIs(cfg, more, s, t, order);
    CarriedAlive(cfg, more, g, t.m.goal, order);
    if Settled(t.m.goal.tasks[i]) {
      ops := us;
      return;
    }
    GoesOn(cfg, s, t, order);
    vs := Carry(cfg, t, rest, i);
    ops := us + vs;
    AfterConcat(cfg, s, us, vs);
    var h := After(cfg, t, vs).m.goal;
    LaterTransitive(g, t.m.goal, h);
    DoneFront(t.m.goal, h, order);
  }

  lemma LaterSame(g: Goal)
    requires Inv(g)
    ensures Later(g, g)
  {
  }

  lemma FrontDone(cfg: Config, rules: seq<Rule>, g: Goal, order: seq<TaskId>, done: set<TaskId>)
    requires order != [] && order[0] in done && Finishes(cfg, rules, g, order, done)
    ensures Finishes(cfg, rules, g, order[1..], done) && (done == DoneIds(g) ==> HasStatus(g, order[0], Done))
  {
    hide Completable, Granted;
  }

  /** The first task stays DONE, the others are as said. */
  lemma DoneFront(g: Goal, h: Goal, order: seq<TaskId>)
    requires order != [] && HasStatus(g, order[0], Done) && Later(g, h)
    requires forall y | y in order[1..] :: y < |h.tasks| && h.tasks[y].status !in {Failed, Skipped}
    ensures forall y | y in order :: y < |h.tasks| && h.tasks[y].status !in {Failed, Skipped}
    ensures AllDone(h, order[1..]) ==> AllDone(h, order)
  {
    LaterRow(g, h, order[0]);
    assert forall y | y in order :: y == order[0] || y in order[1..];
  }

  lemma FrontNext(cfg: Config, rules: seq<Rule>, g: Goal, order: seq<TaskId>)
    requires order != [] && order[0] !in DoneIds(g) && Finishes(cfg, rules, g, order, DoneIds(g))
    ensures var x := order[0];
            && x < |g.tasks| && g.tasks[x].status != Done && AllDone(g, g.tasks[x].deps)
            && Completable(cfg, rules, g, g.tasks[x])
            && Finishes(cfg, rules + Granted(cfg, rules, g, g.tasks[x]), g, order[1..], DoneIds(g) + {x})
  {
    hide Completable, Granted;
  }

  lemma OrderCarried(cfg: Config, rules: seq<Rule>, g: Goal, order: seq<TaskId>)
    requires order != [] && order[0] !in DoneIds(g) && Finishes(cfg, rules, g, order, DoneIds(g))
    ensures order[0] < |g.tasks| && order[0] in order
    ensures Carried(cfg, rules + Granted(cfg, rules, g, g.tasks[order[0]]), g, g, order)
  {
    hide Judge, Narrowest, Finishes;
    FrontNext(cfg, rules, g, order);
    var x := order[0];
    var more := rules + Granted(cfg, rules, g, g.tasks[x]);
    FewerThanSame(cfg, g, more);
    OrderSound(cfg, g, more, more, order[1..], DoneIds(g) + {x});
    GrantedSound(cfg, rules, g, g.tasks[x]);
    assert forall y | y in order :: y == x || y in order[1..];
  }

  /** A completable task is sound under the rule stored for it. */
  lemma GrantedSound(cfg: Config, rules: seq<Rule>, g: Goal, t: Task)
    requires Completable(cfg, rules, g, t)
    ensures Sound(cfg, rules + Granted(cfg, rules, g, t), g, t)
  {
    if Judge(cfg, rules, g, t).Asked? {
      NarrowestPasses(cfg, rules, g, t);
    }
    assert rules + [] == rules;
    hide Judge, Narrowest;
  }

  lemma CarriedAlive(cfg: Config, rules: seq<Rule>, g: Goal, h: Goal, ids: seq<TaskId>)
    requires Carried(cfg, rules, g, h, ids)
    ensures forall y | y in ids :: y < |h.tasks| && h.tasks[y].status !in {Failed, Skipped}
  {
    hide Judge;
  }

  /** After its first task the rest of the order still finishes. */
  lemma GoesOn(cfg: Config, s: System, t: System, order: seq<TaskId>)
    requires order != [] && order[0] !in DoneIds(s.m.goal) && Finishes(cfg, s.rules, s.m.goal, order, DoneIds(s.m.goal))
    requires order[0] < |s.m.goal.tasks| && HasStatus(t.m.goal, order[0], Done) && Boundary(s.m.goal) && Works(t.m.goal)
    requires var more := s.rules + Granted(cfg, s.rules, s.m.goal, s.m.goal.tasks[order[0]]);
             Progress(cfg, more, s, t, order) && (t.rules == more || t.rules == s.rules)
    ensures Finishes(cfg, t.rules, t.m.goal, order[1..], DoneIds(t.m.goal))
  {
    hide Judge, Narrowest, Finishes, Fewer, Sound, Easier;
    var g, h, x, rest := s.m.goal, t.m.goal, order[0], order[1..];
    var more := s.rules + Granted(cfg, s.rules, g, g.tasks[x]);
    FrontNext(cfg, s.rules, g, order);
    if t.rules == more {
      FewerThanSame(cfg, h, more);
    } else {
      FewerThanSame(cfg, h, s.rules);
      GrantMore(cfg, s.rules, h, s.rules, g, g.tasks[x]);
    }
    assert forall y | y in rest :: y in order;
    forall y | y in DoneIds(g) + {x} ensures y in DoneIds(h) {
      if y != x {
        LaterRow(g, h, y);
      }
    }
    assert Below(rest, |g.tasks|);
    assert Eased(cfg, t.rules, h, DoneIds(h), more, g, DoneIds(g) + {x}, rest, |g.tasks|);
    FinishesEased(cfg, t.rules, h, DoneIds(h), more, g, DoneIds(g) + {x}, rest, |g.tasks|);
  }

  // --- the theorems ---

  /** Approval opens a goal that waits for it, and changes nothing else. */
  lemma Opened(cfg: Config, s: System, order: seq<TaskId>, i: TaskId) returns (ops: seq<Operation>)
    requires Boundary(s.m.goal) && s.m.goal.status != GoalFailed && i < |s.m.goal.tasks| && !Settled(s.m.goal.tasks[i])
    requires Finishes(cfg, s.rules, s.m.goal, order, DoneIds(s.m.goal))
    ensures var t := After(cfg, s, ops);
            && Boundary(t.m.goal) && Works(t.m.goal) && t.m.goal.tasks == s.m.goal.tasks && t.rules == s.rules
            && Finishes(cfg, t.rules, t.m.goal, order, DoneIds(t.m.goal))
  {
    var g := s.m.goal;
    if g.status == GoalDraft {
      ops := [ApproveOp];
      AfterOne(cfg, s, ApproveOp);
      DoMovesOn(cfg, OBLIGING, s, ApproveOp);
      OtherRows(cfg, OBLIGING, s, ApproveOp);
      ApproveEnabled(g);
      var t := After(cfg, s, ops);
      FewerThanSame(cfg, t.m.goal, s.rules);
      hide Judge, Finishes, Fewer;
      OrderBelow(cfg, s.rules, g, order, DoneIds(g));
      assert forall y | 0 <= y < |g.tasks| :: Easier(g.tasks[y], g.tasks[y]);
      assert Eased(cfg, s.rules, t.m.goal, DoneIds(g), s.rules, g, DoneIds(g), order, |g.tasks|);
      FinishesEased(cfg, s.rules, t.m.goal, DoneIds(g), s.rules, g, DoneIds(g), order, |g.tasks|);
    } else {
      ops := [];
    }
  }

  lemma {:induction false} OrderBelow(cfg: Config, rules: seq<Rule>, g: Goal, order: seq<TaskId>, done: set<TaskId>)
    requires Finishes(cfg, rules, g, order, done) && forall x | x in done :: x < |g.tasks|
    ensures Below(order, |g.tasks|)
    decreases |order|
  {
    if order != [] {
      var x := order[0];
      hide Completable, Granted;
      if x in done {
        OrderBelow(cfg, rules, g, order[1..], done);
      } else {
        OrderBelow(cfg, rules + Granted(cfg, rules, g, g.tasks[x]), g, order[1..], done + {x});
      }
      assert forall y :: y in order <==> y == x || y in order[1..];
    }
  }

  /** In a FAILED goal only answers complete tasks. */
  lemma {:induction false} FrozenParked(cfg: Config, rules: seq<Rule>, g: Goal, order: seq<TaskId>, done: set<TaskId>)
    requires g.status == GoalFailed && Finishes(cfg, rules, g, order, done)
    ensures forall y | y in order && y !in done :: y < |g.tasks| && Parked(g.tasks[y])
    decreases |order|
  {
    if order != [] {
      var x := order[0];
      hide Judge, Granted;
      if x in done {
        FrozenParked(cfg, rules, g, order[1..], done);
      } else {
        FrozenParked(cfg, rules + Granted(cfg, rules, g, g.tasks[x]), g, order[1..], done + {x});
      }
      assert forall y :: y in order <==> y == x || y in order[1..];
    }
  }

  /** What can be brought about, exactly: some operations and answers complete task i if and
      only if some order of tasks up to i does, with the rows and rules as they are now. */
  lemma CompletedIff(cfg: Config, s: System, i: TaskId)
    requires Boundary(s.m.goal) && i < |s.m.goal.tasks|
    ensures (exists w, ops :: HasStatus(DoAll(cfg, w, s, ops).m.goal, i, Done)) <==> CanBeDone(cfg, s.rules, s.m.goal, i)
  {
    hide *;
    if w, ops :| HasStatus(DoAll(cfg, w, s, ops).m.goal, i, Done) {
      var order := RunBack(cfg, w, s, ops, i + 1);
      DoneInOrder(cfg, s.rules, s.m.goal, order, i);
    }
    if CanBeDone(cfg, s.rules, s.m.goal, i) {
      var ops := Complete(cfg, s, i);
      AfterIs(cfg, s, ops);
      assert HasStatus(DoAll(cfg, OBLIGING, s, ops).m.goal, i, Done);
    }
  }

  lemma AfterIs(cfg: Config, s: System, ops: seq<Operation>)
    ensures After(cfg, s, ops) == DoAll(cfg, OBLIGING, s, ops)
  {
  }

  lemma DoneInOrder(cfg: Config, rules: seq<Rule>, g: Goal, order: seq<TaskId>, i: TaskId)
    requires Below(order, i + 1) && Finishes(cfg, rules, g, order, DoneIds(g)) && (i in order || i in DoneIds(g))
    ensures CanBeDone(cfg, rules, g, i)
  {
    if i !in order {
      hide Completable, Granted;
      assert [i][1..] == [] && Finishes(cfg, rules, g, [], DoneIds(g));
      assert Below([i], i + 1) && Finishes(cfg, rules, g, [i], DoneIds(g));
    }
  }

  lemma Complete(cfg: Config, s: System, i: TaskId) returns (ops: seq<Operation>)
    requires Boundary(s.m.goal) && i < |s.m.goal.tasks| && CanBeDone(cfg, s.rules, s.m.goal, i)
    ensures HasStatus(After(cfg, s, ops).m.goal, i, Done)
  {
    var g := s.m.goal;
    var order :| i in order && Below(order, i + 1) && Finishes(cfg, s.rules, g, order, DoneIds(g));
    if g.tasks[i].status == Done {
      ops := [];
      return;
    }
    FewerThanSame(cfg, g, s.rules);
    OrderSound(cfg, g, s.rules, s.rules, order, DoneIds(g));
    hide Finishes, Judge;
    assert g.tasks[i].status !in {Done, Failed, Skipped};
    if g.status == GoalFailed {
      FrozenParked(cfg, s.rules, g, order, DoneIds(g));
      ops := Flush(cfg, s, 0);
    } else {
      var us := Opened(cfg, s, order, i);
      var t := After(cfg, s, us);
      var vs := Carry(cfg, t, order, i);
      ops := us + vs;
      AfterConcat(cfg, s, us, vs);
    }
  }

  /** Exactly when a pending task can still be started, refused or asked about: the goal has
      not FAILED, and some order of earlier tasks completes all it depends on. Otherwise no
      sequence of operations whatsoever takes it out of PENDING. */
  lemma StartedIff(cfg: Config, s: System, i: TaskId)
    requires Boundary(s.m.goal) && HasStatus(s.m.goal, i, Pending)
    ensures (exists w, ops :: !HasStatus(DoAll(cfg, w, s, ops).m.goal, i, Pending)) <==> CanStart(cfg, s.rules, s.m.goal, i)
  {
    hide *;
    PendingExists(s.m.goal, i);
    if w, ops :| !HasStatus(DoAll(cfg, w, s, ops).m.goal, i, Pending) {
      var order := StartBack(cfg, w, s, ops, i);
      StartOrder(cfg, s.rules, s.m.goal, order, i);
    }
    if CanStart(cfg, s.rules, s.m.goal, i) {
      var ops := Begin(cfg, s, i);
      AfterIs(cfg, s, ops);
      assert !HasStatus(DoAll(cfg, OBLIGING, s, ops).m.goal, i, Pending);
    }
  }

  lemma PendingExists(g: Goal, i: TaskId)
    requires HasStatus(g, i, Pending)
    ensures i < |g.tasks|
  {
  }

  lemma StartOrder(cfg: Config, rules: seq<Rule>, g: Goal, order: seq<TaskId>, i: TaskId)
    requires i < |g.tasks| && g.status != GoalFailed && Below(order, i) && Finishes(cfg, rules, g, order, DoneIds(g))
    requires forall d | d in g.tasks[i].deps :: d in order || d in DoneIds(g)
    ensures CanStart(cfg, rules, g, i)
  {
  }

  lemma Begin(cfg: Config, s: System, i: TaskId) returns (ops: seq<Operation>)
    requires Boundary(s.m.goal) && HasStatus(s.m.goal, i, Pending) && CanStart(cfg, s.rules, s.m.goal, i)
    ensures !HasStatus(After(cfg, s, ops).m.goal, i, Pending)
  {
    var g := s.m.goal;
    var order :| Below(order, i) && Finishes(cfg, s.rules, g, order, DoneIds(g)) &&
      forall d | d in g.tasks[i].deps :: d in order || d in DoneIds(g);
    hide Finishes, Judge, Inv;
    var us := Opened(cfg, s, order, i);
    var t := After(cfg, s, us);
    var vs := Carry(cfg, t, order, i);
    AfterConcat(cfg, s, us, vs);
    ops := us + vs;
    var u := After(cfg, t, vs);
    if HasStatus(u.m.goal, i, Pending) {
      assert IsReady(u.m.goal, i) by {
        LaterRow(t.m.goal, u.m.goal, i);
        forall d | d in g.tasks[i].deps ensures d < |u.m.goal.tasks| && u.m.goal.tasks[d].status == Done {
          if d !in order {
            LaterRow(t.m.goal, u.m.goal, d);
          }
        }
      }
      var xs := StepOut(cfg, u, i);
      AfterConcat(cfg, s, us + vs, xs);
      ops := ops + xs;
    }
  }

  /** A ready task of an open goal leaves PENDING after as many steps as it has attempts. */
  lemma {:induction false} StepOut(cfg: Config, s: System, i: TaskId) returns (ops: seq<Operation>)
    requires Boundary(s.m.goal) && Works(s.m.goal) && IsReady(s.m.goal, i)
    ensures !HasStatus(After(cfg, s, ops).m.goal, i, Pending)
    decreases s.m.goal.tasks[i].maxAttempts - s.m.goal.tasks[i].attempts
  {
    hide Do, Judge, Inv, DoAll;
    var t := Do(cfg, OBLIGING, s, StepOp);
    CalmStep(cfg, s, i);
    DoMovesOn(cfg, OBLIGING, s, StepOp);
    AfterOne(cfg, s, StepOp);
    ops := [StepOp];
    if HasStatus(t.m.goal, i, Pending) {
      DoneDepsStay(s.m.goal, t.m.goal, s.m.goal.tasks[i].deps);
      LaterRow(s.m.goal, t.m.goal, i);
      var rest := StepOut(cfg, t, i);
      AfterConcat(cfg, s, [StepOp], rest);
      ops := [StepOp] + rest;
    }
  }

  // --- tasks that wait for input ---

  /** A task that waits for input is completed by an answer that reaches it, and by nothing
      else; it is blocked, and so can be answered, by the gate asking about it in a step, and
      by nothing else. */
  lemma WaitMoves(cfg: Config, w: World, s: System, op: Operation, i: TaskId)
    requires Boundary(s.m.goal) && i < |s.m.goal.tasks| && s.m.goal.tasks[i].kind == WaitInput
    ensures var g, h := s.m.goal, Do(cfg, w, s, op).m.goal;
            && i < |h.tasks|
            && (g.tasks[i].status != Done ==>
                  (h.tasks[i].status == Done <==> op.InputOp? && FirstAnswerable(g, 0) == Some(i)))
            && (g.tasks[i].status != Blocked ==>
                  (h.tasks[i].status == Blocked <==>
                     op.StepOp? && Works(g) && IsReady(g, i) && Judge(cfg, s.rules, g, g.tasks[i]).Asked?))
  {
    hide *;
    match op {
      case StepOp =>
        StepIs(cfg, w, s);
        WaitTurn(cfg, s.rules, w, s.m, i);
      case InputOp(text) =>
        InputRow(cfg, w, s, text, i);
        WaitTakesText(s.m.goal.tasks[i]);
      case _ => OtherRows(cfg, w, s, op);
    }
  }

  lemma WaitTakesText(t: Task)
    requires t.kind == WaitInput
    ensures TakesText(t)
  {
  }

  lemma WaitTurn(cfg: Config, rules: seq<Rule>, w: World, m: Machine, i: TaskId)
    requires Boundary(m.goal) && i < |m.goal.tasks| && m.goal.tasks[i].kind == WaitInput
    ensures var g, h := m.goal, StepGoal(cfg, rules, w, m).goal;
            && i < |h.tasks|
            && (h.tasks[i].status == Done <==> g.tasks[i].status == Done)
            && (h.tasks[i].status == Blocked <==>
                  g.tasks[i].status == Blocked || (Works(g) && IsReady(g, i) && Judge(cfg, rules, g, g.tasks[i]).Asked?))
  {
    var g, h := m.goal, StepGoal(cfg, rules, w, m).goal;
    hide Judge, StepGoal, ReadyList, Inv;
    if Works(g) {
      StepEffect(cfg, rules, w, m);
      if IsReady(g, i) {
        var outcome, reply :| h.tasks[i] == TurnRow(g.tasks[i], Judge(cfg, rules, g, g.tasks[i]), outcome, reply);
      }
    } else {
      StepsNot(cfg, rules, w, m);
    }
  }

  /** The state before the k-th operation. */
  function Before(cfg: Config, w: World, s: System, ops: seq<Operation>, k: nat): System
    requires k <= |ops|
  {
    DoAll(cfg, w, s, ops[..k])
  }

  /** The k-th operation is an answer that reaches task i. */
  predicate AnsweredAt(cfg: Config, w: World, s: System, ops: seq<Operation>, k: nat, i: TaskId) {
    k < |ops| && ops[k].InputOp? && FirstAnswerable(Before(cfg, w, s, ops, k).m.goal, 0) == Some(i)
  }

  /** The k-th operation is a step in which the gate asks about task i. */
  predicate AskedAt(cfg: Config, w: World, s: System, ops: seq<Operation>, k: nat, i: TaskId) {
    k < |ops| && ops[k].StepOp? &&
    var t := Before(cfg, w, s, ops, k);
    Works(t.m.goal) && IsReady(t.m.goal, i) && Judge(cfg, t.rules, t.m.goal, t.m.goal.tasks[i]).Asked?
  }

  lemma {:induction false} BeforeLast(cfg: Config, w: World, s: System, ops: seq<Operation>)
    requires ops != []
    ensures DoAll(cfg, w, s, ops) == Do(cfg, w, DoAll(cfg, w, s, ops[..|ops| - 1]), ops[|ops| - 1])
    decreases |ops|
  {
    hide Do;
    var t := Do(cfg, w, s, ops[0]);
    if |ops| == 1 {
      assert DoAll(cfg, w, t, ops[1..]) == t && DoAll(cfg, w, s, ops[..0]) == s;
    } else {
      BeforeLast(cfg, w, t, ops[1..]);
      assert ops[1..][..|ops| - 2] == ops[..|ops| - 1][1..];
    }
  }

  /** Moments among all the operations but the last, and the last. */
  lemma LastMoment(cfg: Config, w: World, s: System, ops: seq<Operation>, i: TaskId)
    requires ops != []
    ensures var n := |ops| - 1;
            && ((exists k: nat :: AnsweredAt(cfg, w, s, ops, k, i)) <==>
                  (exists k: nat :: AnsweredAt(cfg, w, s, ops[..n], k, i)) || AnsweredAt(cfg, w, s, ops, n, i))
            && ((exists k: nat :: AskedAt(cfg, w, s, ops, k, i)) <==>
                  (exists k: nat :: AskedAt(cfg, w, s, ops[..n], k, i)) || AskedAt(cfg, w, s, ops, n, i))
  {
    hide Judge, DoAll, FirstAnswerable;
    var n := |ops| - 1;
    forall k: nat
      ensures AnsweredAt(cfg, w, s, ops[..n], k, i) <==> k < n && AnsweredAt(cfg, w, s, ops, k, i)
      ensures AskedAt(cfg, w, s, ops[..n], k, i) <==> k < n && AskedAt(cfg, w, s, ops, k, i)
    {
      if k < n {
        assert ops[..n][..k] == ops[..k];
      }
    }
  }

  lemma MomentIs(cfg: Config, w: World, s: System, ops: seq<Operation>, k: nat, i: TaskId)
    requires k < |ops| && i < |DoAll(cfg, w, s, ops[..k]).m.goal.tasks|
    ensures var t := DoAll(cfg, w, s, ops[..k]);
            && (AnsweredAt(cfg, w, s, ops, k, i) <==> ops[k].InputOp? && FirstAnswerable(t.m.goal, 0) == Some(i))
            && (AskedAt(cfg, w, s, ops, k, i) <==>
                  ops[k].StepOp? && Works(t.m.goal) && IsReady(t.m.goal, i) && Judge(cfg, t.rules, t.m.goal, t.m.goal.tasks[i]).Asked?)
  {
    hide Judge, DoAll, FirstAnswerable;
  }

  lemma NoMoment(cfg: Config, w: World, s: System, i: TaskId)
    ensures DoAll(cfg, w, s, []) == s
    ensures !exists k: nat :: AnsweredAt(cfg, w, s, [], k, i) || AskedAt(cfg, w, s, [], k, i)
  {
  }

  lemma {:induction false} RunRow(cfg: Config, w: World, s: System, ops: seq<Operation>, i: TaskId)
    requires Boundary(s.m.goal) && i < |s.m.goal.tasks|
    ensures var h := DoAll(cfg, w, s, ops).m.goal;
            Boundary(h) && i < |h.tasks| && h.tasks[i].kind == s.m.goal.tasks[i].kind
    decreases |ops|
  {
    if ops != [] {
      var t := Do(cfg, w, s, ops[0]);
      DoMovesOn(cfg, w, s, ops[0]);
      LaterRow(s.m.goal, t.m.goal, i);
      hide Do, Boundary;
      RunRow(cfg, w, t, ops[1..], i);
    }
  }

  lemma StatusIs(g: Goal, i: TaskId)
    requires i < |g.tasks|
    ensures forall status :: HasStatus(g, i, status) <==> g.tasks[i].status == status
  {
  }

  /** Over every sequence of operations: an unfinished task that waits for input is DONE at
      the end exactly when some answer reached it, and one that was PENDING can be reached
      only after a step in which the gate asked about it. */
  lemma {:induction false} WaitDoneIff(cfg: Config, w: World, s: System, ops: seq<Operation>, i: TaskId)
    requires Boundary(s.m.goal) && i < |s.m.goal.tasks|
    requires s.m.goal.tasks[i].kind == WaitInput && s.m.goal.tasks[i].status != Done
    ensures HasStatus(DoAll(cfg, w, s, ops).m.goal, i, Done) <==> exists k: nat :: AnsweredAt(cfg, w, s, ops, k, i)
    ensures HasStatus(DoAll(cfg, w, s, ops).m.goal, i, Blocked) && s.m.goal.tasks[i].status != Blocked ==>
              exists k: nat :: AskedAt(cfg, w, s, ops, k, i)
    decreases |ops|
  {
    hide *;
    if ops == [] {
      NoMoment(cfg, w, s, i);
      StatusIs(s.m.goal, i);
    } else {
      var n := |ops| - 1;
      var t := DoAll(cfg, w, s, ops[..n]);
      WaitDoneIff(cfg, w, s, ops[..n], i);
      RunRow(cfg, w, s, ops[..n], i);
      BeforeLast(cfg, w, s, ops);
      LastMoment(cfg, w, s, ops, i);
      MomentIs(cfg, w, s, ops, n, i);
      WaitMoves(cfg, w, t, ops[n], i);
      DoMovesOn(cfg, w, t, ops[n]);
      LaterRow(t.m.goal, Do(cfg, w, t, ops[n]).m.goal, i);
      StatusIs(t.m.goal, i);
      StatusIs(Do(cfg, w, t, ops[n]).m.goal, i);
      DoneIsNotAnswerable(t.m.goal, i);
    }
  }

  lemma DoneIsNotAnswerable(g: Goal, i: TaskId)
    ensures HasStatus(g, i, Done) ==> FirstAnswerable(g, 0) != Some(i)
  {
  }

  /** A task that was PENDING is reached by an answer only after the gate asked about it. */
  lemma AskedBeforeAnswered(cfg: Config, w: World, s: System, ops: seq<Operation>, k: nat, i: TaskId)
    requires Boundary(s.m.goal) && HasStatus(s.m.goal, i, Pending) && s.m.goal.tasks[i].kind == WaitInput
    requires AnsweredAt(cfg, w, s, ops, k, i)
    ensures exists j: nat | j < k :: AskedAt(cfg, w, s, ops[..k], j, i)
  {
    hide Judge, Boundary, FirstAnswerable, DoAll;
    WaitDoneIff(cfg, w, s, ops[..k], i);
  }

  // --- in terms of ancestors ---

  /** Each task of an order that finishes comes after all it depends on. */
  lemma {:induction false} OrderClosed(cfg: Config, rules: seq<Rule>, g: Goal, order: seq<TaskId>, done: set<TaskId>)
    requires Finishes(cfg, rules, g, order, done)
    ensures forall x | x in order && x !in done ::
              x < |g.tasks| && forall d | d in g.tasks[x].deps :: d in done || d in order
    decreases |order|
  {
    if order != [] {
      var x := order[0];
      hide Completable, Granted;
      if x in done {
        OrderClosed(cfg, rules, g, order[1..], done);
      } else {
        OrderClosed(cfg, rules + Granted(cfg, rules, g, g.tasks[x]), g, order[1..], done + {x});
      }
      assert forall y :: y in order <==> y == x || y in order[1..];
    }
  }

  /** So an order that completes what task i depends on completes all its ancestors. */
  lemma {:induction false} AncestorOrdered(g: Goal, order: seq<TaskId>, j: TaskId, i: TaskId)
    requires Inv(g) && i < |g.tasks| && Ancestor(g, j, i)
    requires forall d | d in g.tasks[i].deps :: d in order || d in DoneIds(g)
    requires forall x | x in order && x !in DoneIds(g) ::
               x < |g.tasks| && forall d | d in g.tasks[x].deps :: d in DoneIds(g) || d in order
    ensures j < i && (j in order || j in DoneIds(g))
    decreases i
  {
    hide Inv;
    var d :| d in g.tasks[i].deps && d < i && (d == j || Ancestor(g, j, d));
    if d != j {
      if d in DoneIds(g) {
        AncestorsDone(g, j, d);
      } else {
        AncestorOrdered(g, order, j, d);
      }
    }
  }

  /** Every ancestor is DONE or completable as rows and rules are now. */
  ghost predicate AncestorsCompletable(cfg: Config, rules: seq<Rule>, g: Goal, i: TaskId)
    requires Acyclic(g) && i < |g.tasks|
  {
    forall j: TaskId | j < i && Ancestor(g, j, i) :: g.tasks[j].status == Done || Completable(cfg, rules, g, g.tasks[j])
  }

  /** The gate asks about an ancestor that waits for input. */
  ghost predicate AsksAWait(cfg: Config, rules: seq<Rule>, g: Goal, i: TaskId)
    requires Acyclic(g) && i < |g.tasks|
  {
    exists j: TaskId | j < i && Ancestor(g, j, i) :: g.tasks[j].kind == WaitInput && Judge(cfg, rules, g, g.tasks[j]).Asked?
  }

  /** The same in terms of single ancestors. A pending task can be started only if the goal has
      not FAILED and no unfinished ancestor is dead, refused, asked about with no database to
      store an approval, or waiting for input without the gate asking about it; and this is
      enough unless the gate asks about some ancestor that waits for input, which it never
      does where memory queries need no approval. */
  lemma StartedIffAncestors(cfg: Config, s: System, i: TaskId)
    requires Boundary(s.m.goal) && HasStatus(s.m.goal, i, Pending)
    ensures var g := s.m.goal;
            var able := g.status != GoalFailed && AncestorsCompletable(cfg, s.rules, g, i);
            && (CanStart(cfg, s.rules, g, i) ==> able)
            && (!AsksAWait(cfg, s.rules, g, i) ==> (CanStart(cfg, s.rules, g, i) <==> able))
            && (!cfg.autonomous || cfg.risk(ActMemoryQuery) == Low ==> !AsksAWait(cfg, s.rules, g, i))
  {
    var g := s.m.goal;
    if CanStart(cfg, s.rules, g, i) {
      var order :| Below(order, i) && Finishes(cfg, s.rules, g, order, DoneIds(g)) &&
        forall d | d in g.tasks[i].deps :: d in order || d in DoneIds(g);
      FewerThanSame(cfg, g, s.rules);
      OrderSound(cfg, g, s.rules, s.rules, order, DoneIds(g));
      OrderClosed(cfg, s.rules, g, order, DoneIds(g));
      hide Judge, Completable, Finishes, Boundary;
      forall j: TaskId | j < i && Ancestor(g, j, i)
        ensures g.tasks[j].status == Done || Completable(cfg, s.rules, g, g.tasks[j])
      {
        AncestorOrdered(g, order, j, i);
      }
    }
    if !AsksAWait(cfg, s.rules, g, i) && g.status != GoalFailed && AncestorsCompletable(cfg, s.rules, g, i) {
      AncestorsFinish(cfg, s.rules, g, i, 0, DoneIds(g));
      hide Judge, Finishes, Boundary, Completable;
      assert Below(AncestorsFrom(g, i, 0), i);
      forall d | d in g.tasks[i].deps ensures d in AncestorsFrom(g, i, 0) {
        StartDeps(g, i);
        assert Ancestor(g, d, i);
      }
      assert CanStart(cfg, s.rules, g, i);
    }
    if !cfg.autonomous || cfg.risk(ActMemoryQuery) == Low {
      forall j: TaskId | j < i && g.tasks[j].kind == WaitInput ensures !Judge(cfg, s.rules, g, g.tasks[j]).Asked? {
        LowIsNotAsked(cfg, s.rules, g, g.tasks[j]);
      }
    }
  }

  lemma LowIsNotAsked(cfg: Config, rules: seq<Rule>, g: Goal, t: Task)
    requires t.kind == WaitInput && (!cfg.autonomous || cfg.risk(ActMemoryQuery) == Low)
    ensures !Judge(cfg, rules, g, t).Asked?
  {
    DecisionMeaning(rules, RequestFor(cfg, g, t), cfg.normalize, cfg.risk);
    hide PlannedPath, BlockerReason, DecisionFor, AnySelects;
  }

  /** The ancestors of task i from k on, in creation order. */
  ghost function AncestorsFrom(g: Goal, i: TaskId, k: nat): (ids: seq<TaskId>)
    requires i < |g.tasks|
    ensures forall x :: x in ids <==> k <= x < i && Ancestor(g, x, i)
    decreases i - k
  {
    if k >= i then [] else (if Ancestor(g, k, i) then [k] else []) + AncestorsFrom(g, i, k + 1)
  }

  lemma {:induction false} AncestorOfAncestor(g: Goal, d: TaskId, k: TaskId, i: TaskId)
    requires i < |g.tasks| && Ancestor(g, k, i) && k < i && d in g.tasks[k].deps && d < k
    requires Acyclic(g)
    ensures Ancestor(g, d, i)
    decreases i
  {
    var e :| e in g.tasks[i].deps && e < i && (e == k || Ancestor(g, k, e));
    if e != k {
      AncestorBelow(g, k, e);
      AncestorOfAncestor(g, d, k, e);
    }
  }

  lemma {:induction false} AncestorBelow(g: Goal, j: TaskId, i: TaskId)
    requires i < |g.tasks| && Ancestor(g, j, i)
    ensures j < i
    decreases i
  {
    var d :| d in g.tasks[i].deps && d < i && (d == j || Ancestor(g, j, d));
    if d != j {
      AncestorBelow(g, j, d);
    }
  }

  /** Completable also under one rule more that allows, unless it waits for input. */
  lemma StaysCompletable(cfg: Config, rules: seq<Rule>, g: Goal, t: Task, u: Task)
    requires Completable(cfg, rules, g, t) && (t.kind == WaitInput ==> Parked(t)) && Completable(cfg, rules, g, u)
    ensures Completable(cfg, rules + Granted(cfg, rules, g, u), g, t)
  {
    assert rules + [] == rules;
    JudgeAdd(cfg, rules, g, t, Narrowest(cfg, g, u));
    NarrowestAllows(cfg, g, u);
    hide Judge, Narrowest, Covers, RequestFor;
  }

  lemma NarrowestAllows(cfg: Config, g: Goal, t: Task)
    ensures IsAllowRule(Narrowest(cfg, g, t)) && Narrowest(cfg, g, t).mode != DenyMode
  {
  }

  /** Ancestors that are completable, and parked where they wait for input, can be completed in
      creation order. */
  lemma {:induction false} AncestorsFinish(cfg: Config, rules: seq<Rule>, g: Goal, i: TaskId, k: nat, done: set<TaskId>)
    requires Acyclic(g) && i < |g.tasks| && DoneIds(g) <= done
    requires forall j: TaskId | j < k && j < i && Ancestor(g, j, i) :: j in done
    requires forall j: TaskId | k <= j < i && Ancestor(g, j, i) && j !in done ::
               Completable(cfg, rules, g, g.tasks[j]) && (g.tasks[j].kind == WaitInput ==> Parked(g.tasks[j]))
    ensures Finishes(cfg, rules, g, AncestorsFrom(g, i, k), done)
    decreases i - k
  {
    hide *;
    AncestorsList(g, i, k);
    if k >= i {
      NothingLeft(cfg, rules, g, done);
      return;
    }
    if !Ancestor(g, k, i) {
      AncestorsFinish(cfg, rules, g, i, k + 1, done);
      return;
    }
    var order, t := AncestorsFrom(g, i, k), g.tasks[k];
    if k in done {
      AncestorsFinish(cfg, rules, g, i, k + 1, done);
      DoneNext(cfg, rules, g, order, done);
      return;
    }
    forall d | d in t.deps ensures d in done {
      DepsEarlier(g, k);
      AncestorOfAncestor(g, d, k, i);
    }
    forall j: TaskId | k + 1 <= j < i && Ancestor(g, j, i) && j !in done
      ensures Completable(cfg, rules + Granted(cfg, rules, g, t), g, g.tasks[j])
    {
      StaysCompletable(cfg, rules, g, g.tasks[j], t);
    }
    AncestorsFinish(cfg, rules + Granted(cfg, rules, g, t), g, i, k + 1, done + {k});
    DoneNext(cfg, rules, g, order, done);
  }

  lemma AncestorsList(g: Goal, i: TaskId, k: nat)
    requires i < |g.tasks|
    ensures k >= i ==> AncestorsFrom(g, i, k) == []
    ensures k < i && !Ancestor(g, k, i) ==> AncestorsFrom(g, i, k) == AncestorsFrom(g, i, k + 1)
    ensures var order := AncestorsFrom(g, i, k);
            k < i && Ancestor(g, k, i) ==> order != [] && order[0] == k && order[1..] == AncestorsFrom(g, i, k + 1)
  {
    hide Ancestor;
  }

  lemma DepsEarlier(g: Goal, k: TaskId)
    requires Acyclic(g) && k < |g.tasks|
    ensures forall d | d in g.tasks[k].deps :: d < k
  {
  }

  lemma NothingLeft(cfg: Config, rules: seq<Rule>, g: Goal, done: set<TaskId>)
    ensures Finishes(cfg, rules, g, [], done)
  {
  }

  lemma DoneNext(cfg: Config, rules: seq<Rule>, g: Goal, order: seq<TaskId>, done: set<TaskId>)
    requires order != [] && order[0] < |g.tasks|
    requires var x := order[0];
             if x in done then Finishes(cfg, rules, g, order[1..], done)
             else
               && (forall d | d in g.tasks[x].deps :: d in done) && Completable(cfg, rules, g, g.tasks[x])
               && Finishes(cfg, rules + Granted(cfg, rules, g, g.tasks[x]), g, order[1..], done + {x})
    ensures Finishes(cfg, rules, g, order, done)
  {
    hide Completable, Granted;
  }

  /** A pending task that waits for input and that the gate does not ask about is never
      completed, and no task that depends on it, however indirectly, ever leaves PENDING,
      whatever runs, is answered and is stored. */
  lemma UnaskedHoldsUp(cfg: Config, w: World, s: System, ops: seq<Operation>, j: TaskId, i: TaskId)
    requires Boundary(s.m.goal) && HasStatus(s.m.goal, j, Pending) && s.m.goal.tasks[j].kind == WaitInput
    requires !Judge(cfg, s.rules, s.m.goal, s.m.goal.tasks[j]).Asked?
    ensures !HasStatus(DoAll(cfg, w, s, ops).m.goal, j, Done)
    ensures HasStatus(s.m.goal, i, Pending) && j < i && Ancestor(s.m.goal, j, i) ==> HasStatus(DoAll(cfg, w, s, ops).m.goal, i, Pending)
  {
    var g := s.m.goal;
    hide *;
    PendingExists(g, j);
    CompletedIff(cfg, s, j);
    StatusIs(g, j);
    NotCompletable(cfg, s.rules, g, j);
    if HasStatus(g, i, Pending) {
      PendingExists(g, i);
      BoundaryAcyclic(g);
      StartedIff(cfg, s, i);
      StartedIffAncestors(cfg, s, i);
      if j < i && Ancestor(g, j, i) {
        HeldUp(cfg, s.rules, g, j, i);
      }
    }
  }

  lemma BoundaryAcyclic(g: Goal)
    requires Boundary(g)
    ensures Acyclic(g)
  {
  }

  lemma NotCompletable(cfg: Config, rules: seq<Rule>, g: Goal, j: TaskId)
    requires j < |g.tasks| && g.tasks[j].status == Pending && g.tasks[j].kind == WaitInput
    requires !Judge(cfg, rules, g, g.tasks[j]).Asked?
    ensures !Completable(cfg, rules, g, g.tasks[j]) && !CanBeDone(cfg, rules, g, j)
  {
    hide Judge;
    if CanBeDone(cfg, rules, g, j) {
      var order :| j in order && Below(order, j + 1) && Finishes(cfg, rules, g, order, DoneIds(g));
      FewerThanSame(cfg, g, rules);
      OrderSound(cfg, g, rules, rules, order, DoneIds(g));
    }
  }

  lemma HeldUp(cfg: Config, rules: seq<Rule>, g: Goal, j: TaskId, i: TaskId)
    requires Acyclic(g) && j < i < |g.tasks| && Ancestor(g, j, i) && g.tasks[j].status == Pending
    requires !Completable(cfg, rules, g, g.tasks[j])
    ensures !AncestorsCompletable(cfg, rules, g, i)
  {
    hide Completable;
  }

  /** Doom in these terms: a task with a FAILED or SKIPPED ancestor cannot be started. */
  lemma DoomedCannotStart(cfg: Config, s: System, i: TaskId)
    requires Boundary(s.m.goal) && i < |s.m.goal.tasks| && Doomed(s.m.goal, i)
    ensures !AncestorsCompletable(cfg, s.rules, s.m.goal, i) && !CanStart(cfg, s.rules, s.m.goal, i)
  {
    var j := DoomedHasDeadAncestor(s.m.goal, i);
    StartedIffAncestors(cfg, s, i);
    hide Judge, CanStart, Inv;
    assert !Completable(cfg, s.rules, s.m.goal, s.m.goal.tasks[j]);
  }

  // --- concrete goals ---

  const WAITS := Task(WaitInput, "", "", Pending, [], None, None, None, 0, 3)
  const FOLLOWS := Task(LlmReason, "", "", Pending, [0], None, None, None, 0, 3)
  const WAITING_PLAN := Goal("cli", "cli", GoalExecuting, [WAITS, FOLLOWS])

  /** A task that waits for input and that the gate does not ask about is never completed, so
      the task that depends on it never leaves PENDING, though nothing failed: whatever runs
      and is answered, where memory queries need no approval or nothing does. */
  lemma InputNeverComes(cfg: Config, w: World, calls: nat, asked: nat, ops: seq<Operation>)
    requires !cfg.autonomous || cfg.risk(ActMemoryQuery) == Low
    ensures var s := System(Machine(WAITING_PLAN, calls, asked, []), []);
            && Boundary(WAITING_PLAN) && !Doomed(WAITING_PLAN, 1)
            && HasStatus(DoAll(cfg, w, s, ops).m.goal, 1, Pending)
            && !HasStatus(DoAll(cfg, w, s, ops).m.goal, 0, Done)
  {
    var s := System(Machine(WAITING_PLAN, calls, asked, []), []);
    hide DoAll, Judge, Verdict;
    LowIsNotAsked(cfg, [], WAITING_PLAN, WAITS);
    assert 0 in WAITING_PLAN.tasks[1].deps && Ancestor(WAITING_PLAN, 0, 1);
    UnaskedHoldsUp(cfg, w, s, ops, 0, 1);
  }

  const CAREFUL := Config(true, true, a => High, s => s, None)
  const THINKS := Task(LlmReason, "", "", Pending, [], None, None, None, 0, 3)
  const THREE_TASKS := Goal("cli", "cli", GoalExecuting, [THINKS, WAITS.(deps := [0]), THINKS.(deps := [1])])

  lemma AllAsked(g: Goal, i: TaskId)
    requires g == THREE_TASKS && i < 3
    ensures Judge(CAREFUL, [], g, g.tasks[i]).Asked?
    ensures Covers(Narrowest(CAREFUL, g, g.tasks[0]), RequestFor(CAREFUL, g, g.tasks[1]), CAREFUL.normalize)
  {
    DecisionMeaning([], RequestFor(CAREFUL, g, g.tasks[i]), CAREFUL.normalize, CAREFUL.risk);
    NoPath();
    hide BlockerReason, DecisionFor, PlannedPath;
  }

  lemma NoPath()
    ensures PlannedPath(THINKS, None).None?
  {
    Text.StripFixes("");
  }

  lemma {:induction false} NoOrder(order: seq<TaskId>, done: set<TaskId>)
    requires 0 !in done && 1 !in done && Finishes(CAREFUL, [], THREE_TASKS, order, done)
    ensures 1 !in order
    decreases |order|
  {
    var g := THREE_TASKS;
    if order != [] {
      var x, rest := order[0], order[1..];
      hide Judge, Narrowest, Completable;
      assert forall y :: y in order <==> y == x || y in rest;
      if x in done {
        NoOrder(rest, done);
      } else {
        assert x < 3 && 0 in g.tasks[1].deps && 1 in g.tasks[2].deps;
        assert x == 0;
        SilencedAfterFirst(rest, done);
      }
    }
  }

  lemma SilencedAfterFirst(rest: seq<TaskId>, done: set<TaskId>)
    requires 1 !in done
    requires Finishes(CAREFUL, [] + Granted(CAREFUL, [], THREE_TASKS, THREE_TASKS.tasks[0]), THREE_TASKS, rest, done + {0})
    ensures 1 !in rest
  {
    var g := THREE_TASKS;
    var more := [] + Granted(CAREFUL, [], g, g.tasks[0]);
    hide Judge, Narrowest, Completable, Finishes, Covers, RequestFor;
    AllAsked(g, 0);
    AllAsked(g, 1);
    NarrowestAllows(CAREFUL, g, g.tasks[0]);
    JudgeAdd(CAREFUL, [], g, g.tasks[1], Narrowest(CAREFUL, g, g.tasks[0]));
    FewerThanSame(CAREFUL, g, more);
    OrderSound(CAREFUL, g, more, more, rest, done + {0});
    SilencedIsLost(CAREFUL, more, g, g.tasks[1]);
  }

  lemma SilencedIsLost(cfg: Config, rules: seq<Rule>, g: Goal, t: Task)
    requires Judge(cfg, rules, g, t).Pass? && t.kind == WaitInput && t.status == Pending
    ensures !Completable(cfg, rules, g, t)
  {
    hide Judge;
  }

  /** Single ancestors do not decide where the gate asks about memory queries: allowing the
      first task for the session silences the gate about the second, which waits for input, and
      not allowing it keeps the first from running. Each could be completed but for the other,
      so the third is never started. */
  lemma ApprovalSilencesTheGate(w: World, ops: seq<Operation>)
    ensures var g := THREE_TASKS;
            && Boundary(g) && AncestorsCompletable(CAREFUL, [], g, 2) && !CanStart(CAREFUL, [], g, 2)
            && HasStatus(DoAll(CAREFUL, w, System(Machine(g, 0, 0, []), []), ops).m.goal, 2, Pending)
  {
    var g, s := THREE_TASKS, System(Machine(THREE_TASKS, 0, 0, []), []);
    hide DoAll, Judge, Verdict, Finishes, Ancestor, Covers, RequestFor, Narrowest;
    AllAsked(g, 0);
    AllAsked(g, 1);
    assert Boundary(g);
    forall j: TaskId | j < 2 ensures Completable(CAREFUL, [], g, g.tasks[j]) {
    }
    StartedIff(CAREFUL, s, 2);
    if CanStart(CAREFUL, [], g, 2) {
      var order :| Below(order, 2) && Finishes(CAREFUL, [], g, order, DoneIds(g)) &&
        forall d | d in g.tasks[2].deps :: d in order || d in DoneIds(g);
      assert 1 in g.tasks[2].deps && 1 !in DoneIds(g);
      NoOrder(order, DoneIds(g));
    }
  }
}
