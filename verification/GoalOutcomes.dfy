/** What a step stores, said of the rows before and after it and of the answers it was given:
    which answer went to which task, and what became of it. */
module GoalOutcomes {
  import opened Prelude
  import opened GoalModel
  import opened GoalSafety
  import opened Approval
  import opened GoalOps
  import opened GoalRuns
  import opened GoalStops
  import opened GoalEngine

  // --- one row ---

  /** Row t was executed once, with this outcome, and is now row u. A task that waits for input
      never completes, a credential task names its credential, and any other stores exactly the
      text it returned or the error it raised. */
  predicate Executed(t: Task, u: Task, outcome: ExecOutcome) {
    && u.attempts == t.attempts + 1
    && match t.kind
       case WaitInput =>
         u.status != Done && u.error == Some("Waiting for input: " + t.description) &&
         u.blocker == Some("Waiting for user input: " + t.description)
       case CredentialRequest =>
         (match outcome
          case Returned(_) => u.status == Done && u.result == Some("Credential '" + t.instruction + "' available")
          case Raised(_) =>
            u.status != Done && u.error == Some("Need credential: " + t.description) &&
            u.blocker == Some("Need credential: " + t.description))
       case _ =>
         (match outcome
          case Returned(text) => u.status == Done && u.result == Some(text) && u.error == t.error
          case Raised(error) => u.status != Done && u.error == Some(error) && u.result == t.result)
  }

  /** Row u of a task that failed: put back while attempts are left, otherwise given up, and set
      aside if the planner skips or replaces it. */
  predicate Failing(u: Task, reply: ReplanReply) {
    if u.attempts < u.maxAttempts then u.status == Pending
    else
      u.status == match reply
                  case SkipIt => Skipped
                  case ReplaceWith(specs) => if specs == [] then Failed else Skipped
                  case _ => Failed
  }

  /** Row u was not executed: the gate refused the task, or asked about it. */
  predicate HeldBack(t: Task, u: Task, gate: GateAnswer) {
    match gate
    case Pass => false
    case Refused(reason) => u == t.(status := Failed, error := Some(reason), blocker := None)
    case Asked(reason) => u == t.(status := Blocked, blocker := Some(reason))
  }

  lemma TurnMeans(t: Task, gate: GateAnswer, outcome: ExecOutcome, reply: ReplanReply)
    ensures var u := TurnRow(t, gate, outcome, reply);
            if gate.Pass? then Executed(t, u, outcome) && (u.status != Done ==> Failing(u, reply))
            else HeldBack(t, u, gate)
  {
  }

  /** The planner is asked exactly about tasks whose last attempt fails. */
  predicate LastFails(t: Task, u: Task) {
    u.attempts > t.attempts && u.status != Done && u.attempts >= u.maxAttempts
  }

  lemma AsksMeans(t: Task, gate: GateAnswer, outcome: ExecOutcome, reply: ReplanReply)
    ensures AsksReplan(t, gate, outcome) <==> LastFails(t, TurnRow(t, gate, outcome, reply))
  {
  }

  // --- the rows a turn appends ---

  /** Every write is one to row i, or an abort. */
  predicate AboutOnly(ws: seq<Write>, i: TaskId) {
    forall w | w in ws :: (RowWrite(w) && IdOf(w) == i) || w == Abort
  }

  predicate RowWrite(w: Write) {
    w.Deny? || w.Gate? || w.Start? || w.Finish? || w.Park? || w.Retry? || w.GiveUp? || w.Skip? || w.Insert?
  }

  function IdOf(w: Write): TaskId
    requires RowWrite(w)
  {
    w.id
  }

  function NewRows(specs: seq<Spec>, deps: seq<TaskId>): seq<Task> {
    if specs == [] then [] else [NewTask(specs[0], deps)] + NewRows(specs[1..], deps)
  }

  /** The specs inserted by some writes. */
  function Inserted(ws: seq<Write>): seq<Spec> {
    if ws == [] then [] else (if ws[0].Insert? then [ws[0].spec] else []) + Inserted(ws[1..])
  }

  lemma {:induction false} InsertedConcat(us: seq<Write>, vs: seq<Write>)
    ensures Inserted(us + vs) == Inserted(us) + Inserted(vs)
  {
    hide *;
    if us == [] {
      assert us + vs == vs;
      NothingInserted([]);
    } else {
      assert (us + vs)[1..] == us[1..] + vs;
      InsertedFront(us, []);
      InsertedFront(us + vs, []);
      InsertedConcat(us[1..], vs);
    }
  }

  /** Writes about one task append one row per insert, with its dependencies, and leave the
      goal's status unless one is an abort. */
  lemma {:induction false} InsertRows(g: Goal, ws: seq<Write>, i: TaskId)
    requires i < |g.tasks| && AllEnabled(g, ws) && AboutOnly(ws, i)
    ensures var h := ApplyAll(g, ws);
            && i < |h.tasks| && h.tasks[i].deps == g.tasks[i].deps
            && h.tasks == g.tasks[i := h.tasks[i]] + NewRows(Inserted(ws), g.tasks[i].deps)
            && h.status == (if Abort in ws then GoalFailed else g.status)
    decreases |ws|
  {
    hide *;
    if ws == [] {
      EmptyRun(g, i);
      NothingInserted(g.tasks[i].deps);
    } else {
      AboutFront(ws, i);
      RunFront(g, ws, i);
      OneRow(g, ws[0], i);
      var f, w := Apply(g, ws[0]), ws[0];
      InsertRows(f, ws[1..], i);
      InsertedFront(ws, g.tasks[i].deps);
      var row, rest := ApplyAll(f, ws[1..]).tasks[i], NewRows(Inserted(ws[1..]), g.tasks[i].deps);
      if w.Insert? {
        var added := [NewTask(w.spec, g.tasks[i].deps)];
        assert (g.tasks + added)[i := row] + rest == g.tasks[i := row] + (added + rest);
      } else {
        assert g.tasks[i := f.tasks[i]][i := row] + rest == g.tasks[i := row] + rest;
      }
    }
  }

  lemma NothingInserted(deps: seq<TaskId>)
    ensures Inserted([]) == [] && NewRows([], deps) == []
  {
  }

  lemma InsertedFront(ws: seq<Write>, deps: seq<TaskId>)
    requires ws != []
    ensures Inserted(ws) == (if ws[0].Insert? then [ws[0].spec] else []) + Inserted(ws[1..])
    ensures NewRows(Inserted(ws), deps) == (if ws[0].Insert? then [NewTask(ws[0].spec, deps)] else []) + NewRows(Inserted(ws[1..]), deps)
  {
    if ws[0].Insert? {
      assert Inserted(ws)[1..] == Inserted(ws[1..]);
    } else {
      assert Inserted(ws) == Inserted(ws[1..]);
    }
  }

  lemma {:induction false} NewRowsAre(specs: seq<Spec>, deps: seq<TaskId>)
    ensures |NewRows(specs, deps)| == |specs|
    ensures forall k | 0 <= k < |specs| :: FromSpec(NewRows(specs, deps)[k], specs[k], deps)
  {
    hide FromSpec, NewTask;
    if specs != [] {
      NewTaskMeans(specs[0], deps);
      NewRowsAre(specs[1..], deps);
    }
  }

  lemma AboutFront(ws: seq<Write>, i: TaskId)
    requires ws != [] && AboutOnly(ws, i)
    ensures AboutOnly([ws[0]], i) && AboutOnly(ws[1..], i)
  {
  }

  lemma OneRow(g: Goal, w: Write, i: TaskId)
    requires i < |g.tasks| && Enabled(g, w) && AboutOnly([w], i)
    ensures var f := Apply(g, w);
            && f.tasks == (if w.Insert? then g.tasks + [NewTask(w.spec, g.tasks[i].deps)] else g.tasks[i := f.tasks[i]])
            && f.tasks[i].deps == g.tasks[i].deps && f.status == (if w == Abort then GoalFailed else g.status)
  {
    assert w in [w];
    hide IsApprovalBlocker, AllDone, Verdict;
  }

  lemma {:induction false} InsertWritesAre(i: TaskId, specs: seq<Spec>)
    ensures Inserted(InsertWrites(i, specs)) == specs && AboutOnly(InsertWrites(i, specs), i)
    ensures Abort !in InsertWrites(i, specs)
  {
    if specs != [] {
      InsertWritesAre(i, specs[1..]);
    }
  }

  /** The specs a reply adds when it is asked for. */
  function SpecsOf(reply: ReplanReply): seq<Spec> {
    match reply
    case ReplaceWith(specs) => specs
    case _ => []
  }

  /** The specs of the rows a turn adds. */
  function NewSpecs(t: Task, gate: GateAnswer, outcome: ExecOutcome, reply: ReplanReply): seq<Spec> {
    if AsksReplan(t, gate, outcome) then SpecsOf(reply) else []
  }

  lemma TurnInserts(t: Task, i: TaskId, gate: GateAnswer, outcome: ExecOutcome, reply: ReplanReply)
    ensures var ws := TaskWrites(t, i, gate, outcome, reply);
            && AboutOnly(ws, i)
            && Inserted(ws) == (if AsksReplan(t, gate, outcome) then SpecsOf(reply) else [])
            && (Abort in ws <==> AsksReplan(t, gate, outcome) && reply == AbortIt)
  {
    hide ExecWrites, Inserted;
    if gate.Pass? {
      ExecInserts(t, i, outcome, reply);
      OneInserted(Start(i));
      InsertedConcat([Start(i)], ExecWrites(t, i, outcome, reply));
    } else {
      OneInserted(TaskWrites(t, i, gate, outcome, reply)[0]);
    }
  }

  lemma OneInserted(w: Write)
    ensures Inserted([w]) == (if w.Insert? then [w.spec] else [])
  {
    assert [w][1..] == [] && Inserted([]) == [];
  }

  lemma AboutConcat(us: seq<Write>, vs: seq<Write>, i: TaskId)
    requires AboutOnly(us, i) && AboutOnly(vs, i)
    ensures AboutOnly(us + vs, i)
  {
  }

  lemma ExecInserts(t: Task, i: TaskId, outcome: ExecOutcome, reply: ReplanReply)
    ensures var ws := ExecWrites(t, i, outcome, reply);
            && AboutOnly(ws, i)
            && Inserted(ws) == (if AsksReplan(t, Pass, outcome) then SpecsOf(reply) else [])
            && (Abort in ws <==> AsksReplan(t, Pass, outcome) && reply == AbortIt)
  {
    hide Inserted, FailWrites, ParkReason, ErrorOf, ResultOf;
    if !Fails(t, outcome) {
      OneInserted(Finish(i, ResultOf(t, outcome)));
    } else {
      var fail := FailWrites(t, i, ErrorOf(t, outcome), reply);
      FailInserts(t, i, ErrorOf(t, outcome), reply);
      if TakesText(t) {
        var park := [Park(i, ParkReason(t))];
        OneInserted(park[0]);
        InsertedConcat(park, fail);
        hide AboutOnly;
        AboutPark(i, ParkReason(t));
        AboutConcat(park, fail, i);
      } else {
        assert [] + fail == fail;
      }
    }
  }

  lemma AboutPark(i: TaskId, reason: string)
    ensures AboutOnly([Park(i, reason)], i)
  {
  }

  lemma FailInserts(t: Task, i: TaskId, error: string, reply: ReplanReply)
    ensures var ws := FailWrites(t, i, error, reply);
            && AboutOnly(ws, i)
            && Inserted(ws) == (if t.attempts + 1 >= t.maxAttempts then SpecsOf(reply) else [])
            && (Abort in ws <==> t.attempts + 1 >= t.maxAttempts && reply == AbortIt)
  {
    if t.attempts + 1 >= t.maxAttempts {
      ReplanInserts(i, reply);
      hide ReplanWrites;
      InsertedConcat([GiveUp(i, error)], ReplanWrites(i, reply));
      assert [GiveUp(i, error)][1..] == [];
    } else {
      assert [Retry(i, error)][1..] == [];
    }
  }

  lemma ReplanInserts(i: TaskId, reply: ReplanReply)
    ensures AboutOnly(ReplanWrites(i, reply), i) && Inserted(ReplanWrites(i, reply)) == SpecsOf(reply)
    ensures Abort in ReplanWrites(i, reply) <==> reply == AbortIt
  {
    if reply.ReplaceWith? && reply.specs != [] {
      InsertWritesAre(i, reply.specs);
      InsertedConcat(InsertWrites(i, reply.specs), [Skip(i)]);
      assert [Skip(i)][1..] == [];
    } else {
      var ws := ReplanWrites(i, reply);
      if ws != [] {
        assert ws[1..] == [];
      }
    }
  }

  // --- a turn ---

  /** What the turn of ready task i makes of a machine. */
  ghost predicate TurnDone(cfg: Config, rules: seq<Rule>, w: World, p: Machine, q: Machine, i: TaskId)
    requires IsReady(p.goal, i)
  {
    var t, gate := p.goal.tasks[i], Judge(cfg, rules, p.goal, p.goal.tasks[i]);
    var outcome, reply := w.outcomes(p.calls), w.replies(p.asked);
    var specs := NewSpecs(t, gate, outcome, reply);
    && q.calls == p.calls + (if gate.Pass? then 1 else 0)
    && q.asked == p.asked + (if AsksReplan(t, gate, outcome) then 1 else 0)
    && |q.goal.tasks| == |p.goal.tasks| + |specs|
    && q.goal.tasks[i] == TurnRow(t, gate, outcome, reply)
    && q.goal.status == (if AsksReplan(t, gate, outcome) && reply == AbortIt then GoalFailed else p.goal.status)
    && (forall k | 0 <= k < |p.goal.tasks| && k != i :: q.goal.tasks[k] == p.goal.tasks[k])
    && (forall k | 0 <= k < |specs| :: FromSpec(q.goal.tasks[|p.goal.tasks| + k], specs[k], t.deps))
  }

  lemma TurnIsDone(cfg: Config, rules: seq<Rule>, w: World, p: Machine, i: TaskId)
    requires IsReady(p.goal, i)
    ensures TurnDone(cfg, rules, w, p, ProcessTask(cfg, rules, w, p, i), i)
  {
    hide *;
    ReadyInRange(p.goal, i);
    var t := p.goal.tasks[i];
    var gate, outcome, reply := Judge(cfg, rules, p.goal, t), w.outcomes(p.calls), w.replies(p.asked);
    ProcessIs(cfg, rules, w, p, i);
    TurnInserts(t, i, gate, outcome, reply);
    SpecsAre(t, gate, outcome, reply);
    RowsInserted(p.goal, TaskWrites(t, i, gate, outcome, reply), i, NewSpecs(t, gate, outcome, reply));
    TurnDoneIs(cfg, rules, w, p, ProcessTask(cfg, rules, w, p, i), i);
  }

  lemma SpecsAre(t: Task, gate: GateAnswer, outcome: ExecOutcome, reply: ReplanReply)
    ensures NewSpecs(t, gate, outcome, reply) == if AsksReplan(t, gate, outcome) then SpecsOf(reply) else []
  {
    hide AsksReplan;
  }

  lemma TurnDoneIs(cfg: Config, rules: seq<Rule>, w: World, p: Machine, q: Machine, i: TaskId)
    requires IsReady(p.goal, i) && i < |p.goal.tasks| <= |q.goal.tasks|
    requires var t, gate := p.goal.tasks[i], Judge(cfg, rules, p.goal, p.goal.tasks[i]);
             var outcome, reply := w.outcomes(p.calls), w.replies(p.asked);
             var specs := NewSpecs(t, gate, outcome, reply);
             && q.calls == p.calls + (if gate.Pass? then 1 else 0)
             && q.asked == p.asked + (if AsksReplan(t, gate, outcome) then 1 else 0)
             && |q.goal.tasks| == |p.goal.tasks| + |specs|
             && q.goal.tasks[i] == TurnRow(t, gate, outcome, reply)
             && q.goal.status == (if AsksReplan(t, gate, outcome) && reply == AbortIt then GoalFailed else p.goal.status)
             && (forall k | 0 <= k < |p.goal.tasks| && k != i :: q.goal.tasks[k] == p.goal.tasks[k])
             && (forall k | 0 <= k < |specs| :: FromSpec(q.goal.tasks[|p.goal.tasks| + k], specs[k], t.deps))
    ensures TurnDone(cfg, rules, w, p, q, i)
  {
    hide Judge, TurnRow, NewSpecs, AsksReplan, FromSpec, IsReady;
  }

  lemma RowsInserted(g: Goal, ws: seq<Write>, i: TaskId, specs: seq<Spec>)
    requires i < |g.tasks| && AllEnabled(g, ws) && AboutOnly(ws, i) && Inserted(ws) == specs
    ensures var h := ApplyAll(g, ws);
            && |h.tasks| == |g.tasks| + |specs|
            && (forall k | 0 <= k < |g.tasks| && k != i :: h.tasks[k] == g.tasks[k])
            && (forall k | 0 <= k < |specs| :: FromSpec(h.tasks[|g.tasks| + k], specs[k], g.tasks[i].deps))
            && h.status == (if Abort in ws then GoalFailed else g.status)
  {
    hide *;
    InsertRows(g, ws, i);
    NewRowsAre(specs, g.tasks[i].deps);
  }

  lemma ProcessIs(cfg: Config, rules: seq<Rule>, w: World, p: Machine, i: TaskId)
    requires IsReady(p.goal, i)
    ensures i < |p.goal.tasks|
    ensures var t, gate := p.goal.tasks[i], Judge(cfg, rules, p.goal, p.goal.tasks[i]);
            var outcome, reply := w.outcomes(p.calls), w.replies(p.asked);
            var ws, q := TaskWrites(t, i, gate, outcome, reply), ProcessTask(cfg, rules, w, p, i);
            && AllEnabled(p.goal, ws) && q.goal == ApplyAll(p.goal, ws)
            && q.calls == p.calls + (if gate.Pass? then 1 else 0)
            && q.asked == p.asked + (if AsksReplan(t, gate, outcome) then 1 else 0)
            && i < |q.goal.tasks| && q.goal.tasks[i] == TurnRow(t, gate, outcome, reply)
  {
    hide TaskWrites, Judge, TurnRow, Apply, ApplyAll, AllEnabled, AsksReplan;
    TaskEnabled(cfg, rules, p.goal, i, w.outcomes(p.calls), w.replies(p.asked));
  }

  // --- a step ---

  lemma {:induction false} ReadyAscends(g: Goal, n: nat)
    requires n <= |g.tasks|
    ensures forall k | 0 <= k < |ReadyUpTo(g, n)| :: ReadyUpTo(g, n)[k] < n
    ensures forall a, b | 0 <= a < b < |ReadyUpTo(g, n)| :: ReadyUpTo(g, n)[a] < ReadyUpTo(g, n)[b]
  {
    if n > 0 {
      ReadyAscends(g, n - 1);
    }
  }

  /** Which answer each task was given: the answers are used up one by one, in the order of the
      tasks. */
  ghost predicate Given(given: map<TaskId, nat>, first: nat, next: nat) {
    && next == first + |given|
    && (forall i | i in given :: first <= given[i] < next)
    && (forall i, j | i in given && j in given && i < j :: given[i] < given[j])
  }

  lemma GivenMore(given: map<TaskId, nat>, first: nat, next: nat, i: TaskId)
    requires Given(given, first, next) && forall j | j in given :: j < i
    ensures Given(given[i := next], first, next + 1)
  {
    assert given[i := next].Keys == given.Keys + {i} && i !in given;
    assert |given[i := next].Keys| == |given.Keys| + 1;
  }

  /** What the first turns of a step have done: at says which outcome each executed task got,
      replied which planning reply each task that failed its last attempt got. */
  ghost predicate TurnsDone(cfg: Config, rules: seq<Rule>, w: World, m: Machine, q: Machine, ready: seq<TaskId>,
                            at: map<TaskId, nat>, replied: map<TaskId, nat>)
  {
    && |m.goal.tasks| <= |q.goal.tasks| && (forall i | i in ready :: i < |m.goal.tasks|)
    && Given(at, m.calls, q.calls) && Given(replied, m.asked, q.asked)
    && (forall i | i in at :: i in ready) && (forall i | i in replied :: i in at)
    && (forall i: TaskId | i < |m.goal.tasks| :: TurnOf(cfg, rules, w, m, q, ready, at, replied, i))
    && |q.goal.tasks| == |m.goal.tasks| + Total(w.replies, q.asked) - Total(w.replies, m.asked)
    && (forall i | i in replied :: Total(w.replies, m.asked) <= Total(w.replies, replied[i]) && AddedFor(w, m, q, i, replied[i]))
  }

  /** Row i after those turns. */
  predicate TurnOf(cfg: Config, rules: seq<Rule>, w: World, m: Machine, q: Machine, ready: seq<TaskId>,
                   at: map<TaskId, nat>, replied: map<TaskId, nat>, i: TaskId)
    requires i < |m.goal.tasks| <= |q.goal.tasks|
  {
    var t, u := m.goal.tasks[i], q.goal.tasks[i];
    if i !in ready then u == t
    else if i in at then
      && Executed(t, u, w.outcomes(at[i]))
      && (i in replied <==> LastFails(t, u))
      && (u.status != Done ==> Failing(u, if i in replied then w.replies(replied[i]) else NoDecision))
    else HeldBack(t, u, Judge(cfg, rules, m.goal, t))
  }

  /** The rows appended for task i, whose replacement was the n-th planning reply. */
  predicate AddedFor(w: World, m: Machine, q: Machine, i: TaskId, n: nat)
    requires |m.goal.tasks| <= |q.goal.tasks| && Total(w.replies, m.asked) <= Total(w.replies, n)
  {
    var specs, start := SpecsOf(w.replies(n)), |m.goal.tasks| + (Total(w.replies, n) - Total(w.replies, m.asked));
    && i < |m.goal.tasks| && start + |specs| <= |q.goal.tasks|
    && forall k | 0 <= k < |specs| :: FromSpec(q.goal.tasks[start + k], specs[k], m.goal.tasks[i].deps)
  }

  lemma {:induction false} TotalGrows(replies: nat -> ReplanReply, a: nat, b: nat)
    requires a <= b
    ensures Total(replies, a) <= Total(replies, b)
  {
    if a < b {
      TotalGrows(replies, a, b - 1);
    }
  }

  lemma AddedIs(reply: ReplanReply)
    ensures Added(reply) == |SpecsOf(reply)|
  {
  }

  /** One more turn. */
  lemma TurnsNext(cfg: Config, rules: seq<Rule>, w: World, m: Machine, p: Machine, q: Machine, before: seq<TaskId>, i: TaskId,
                  at: map<TaskId, nat>, replied: map<TaskId, nat>)
    returns (at': map<TaskId, nat>, replied': map<TaskId, nat>)
    requires TurnsDone(cfg, rules, w, m, p, before, at, replied) && i < |m.goal.tasks| && forall j | j in before :: j < i
    requires IsReady(p.goal, i) && p.goal.tasks[i] == m.goal.tasks[i] && TurnDone(cfg, rules, w, p, q, i)
    requires Judge(cfg, rules, p.goal, m.goal.tasks[i]) == Judge(cfg, rules, m.goal, m.goal.tasks[i])
    requires p.goal.status == if Aborted(w, replied) then GoalFailed else m.goal.status
    ensures TurnsDone(cfg, rules, w, m, q, before + [i], at', replied')
    ensures q.goal.status == if Aborted(w, replied') then GoalFailed else m.goal.status
  {
    var t, gate := p.goal.tasks[i], Judge(cfg, rules, m.goal, p.goal.tasks[i]);
    var outcome, reply := w.outcomes(p.calls), w.replies(p.asked);
    var asks := AsksReplan(t, gate, outcome);
    at' := if gate.Pass? then at[i := p.calls] else at;
    replied' := if asks then replied[i := p.asked] else replied;
    hide *;
    CountsNext(cfg, rules, w, m, p, q, before, i, at, replied);
    TurnMeans(t, gate, outcome, reply);
    AsksMeans(t, gate, outcome, reply);
    AsksPass(t, gate, outcome);
    NoReplyMatters(TurnRow(t, gate, outcome, reply), reply);
    RowsNext(cfg, rules, w, m, p, q, before, i, at, replied, at', replied');
    forall j | j in replied'
      ensures Total(w.replies, m.asked) <= Total(w.replies, replied'[j]) && AddedFor(w, m, q, j, replied'[j])
    {
      if j == i {
        NewlyAdded(cfg, rules, w, m, p, q, i);
      } else {
        AddedBefore(cfg, rules, w, m, p, before, at, replied, j);
        StillAdded(w, m, p, q, i, j, replied[j]);
      }
    }
    DoneIs(cfg, rules, w, m, q, before + [i], at', replied');
    TurnParts(cfg, rules, w, p, q, i);
    AbortedNext(w, replied, i, p.asked, asks);
  }

  /** Some planning reply was an abort. */
  predicate Aborted(w: World, replied: map<TaskId, nat>) {
    exists i | i in replied :: w.replies(replied[i]) == AbortIt
  }

  lemma AbortedNext(w: World, replied: map<TaskId, nat>, i: TaskId, n: nat, asks: bool)
    requires i !in replied
    ensures Aborted(w, if asks then replied[i := n] else replied) <==> Aborted(w, replied) || (asks && w.replies(n) == AbortIt)
  {
    if asks {
      var more := replied[i := n];
      assert forall j | j in replied :: j in more && more[j] == replied[j];
      assert i in more;
    }
  }

  /** The parts of TurnsDone. */
  lemma DoneIs(cfg: Config, rules: seq<Rule>, w: World, m: Machine, q: Machine, ready: seq<TaskId>,
               at: map<TaskId, nat>, replied: map<TaskId, nat>)
    requires |m.goal.tasks| <= |q.goal.tasks| && forall i | i in ready :: i < |m.goal.tasks|
    requires Given(at, m.calls, q.calls) && Given(replied, m.asked, q.asked)
    requires (forall i | i in at :: i in ready) && (forall i | i in replied :: i in at)
    requires forall i: TaskId | i < |m.goal.tasks| :: TurnOf(cfg, rules, w, m, q, ready, at, replied, i)
    requires |q.goal.tasks| == |m.goal.tasks| + Total(w.replies, q.asked) - Total(w.replies, m.asked)
    requires forall i | i in replied :: Total(w.replies, m.asked) <= Total(w.replies, replied[i]) && AddedFor(w, m, q, i, replied[i])
    ensures TurnsDone(cfg, rules, w, m, q, ready, at, replied)
  {
    hide Given, TurnOf, AddedFor, Total;
  }

  lemma AddedBefore(cfg: Config, rules: seq<Rule>, w: World, m: Machine, p: Machine, ready: seq<TaskId>,
                    at: map<TaskId, nat>, replied: map<TaskId, nat>, j: TaskId)
    requires TurnsDone(cfg, rules, w, m, p, ready, at, replied) && j in replied
    ensures |m.goal.tasks| <= |p.goal.tasks|
    ensures Total(w.replies, m.asked) <= Total(w.replies, replied[j]) && AddedFor(w, m, p, j, replied[j])
  {
    hide Given, TurnOf, AddedFor, Total;
  }

  /** The answers used and the rows counted after one more turn. */
  lemma CountsNext(cfg: Config, rules: seq<Rule>, w: World, m: Machine, p: Machine, q: Machine, before: seq<TaskId>, i: TaskId,
                   at: map<TaskId, nat>, replied: map<TaskId, nat>)
    requires TurnsDone(cfg, rules, w, m, p, before, at, replied) && i < |m.goal.tasks| && forall j | j in before :: j < i
    requires IsReady(p.goal, i) && p.goal.tasks[i] == m.goal.tasks[i] && TurnDone(cfg, rules, w, p, q, i)
    requires Judge(cfg, rules, p.goal, m.goal.tasks[i]) == Judge(cfg, rules, m.goal, m.goal.tasks[i])
    ensures var t, gate := p.goal.tasks[i], Judge(cfg, rules, m.goal, p.goal.tasks[i]);
            var asks := AsksReplan(t, gate, w.outcomes(p.calls));
            && Given(if gate.Pass? then at[i := p.calls] else at, m.calls, q.calls)
            && Given(if asks then replied[i := p.asked] else replied, m.asked, q.asked)
            && Total(w.replies, m.asked) <= Total(w.replies, p.asked)
            && |q.goal.tasks| == |m.goal.tasks| + Total(w.replies, q.asked) - Total(w.replies, m.asked)
    ensures |m.goal.tasks| <= |p.goal.tasks| <= |q.goal.tasks| && (forall j | j in before + [i] :: j < |m.goal.tasks|)
    ensures |p.goal.tasks| == |m.goal.tasks| + Total(w.replies, p.asked) - Total(w.replies, m.asked)
    ensures forall k | 0 <= k < |p.goal.tasks| && k != i :: q.goal.tasks[k] == p.goal.tasks[k]
    ensures q.goal.tasks[i] == TurnRow(p.goal.tasks[i], Judge(cfg, rules, m.goal, p.goal.tasks[i]), w.outcomes(p.calls), w.replies(p.asked))
    ensures (forall j | j in at :: j in before) && (forall j | j in replied :: j in at)
    ensures p.asked >= m.asked && i !in before
  {
    hide *;
    TurnParts(cfg, rules, w, p, q, i);
    var gate := Judge(cfg, rules, p.goal, p.goal.tasks[i]);
    SpecsAre(p.goal.tasks[i], gate, w.outcomes(p.calls), w.replies(p.asked));
    BeforeParts(cfg, rules, w, m, p, before, at, replied, i);
    GivenMore(at, m.calls, p.calls, i);
    GivenMore(replied, m.asked, p.asked, i);
    AddedIs(w.replies(p.asked));
    TotalNext(w, p.asked);
    TotalGrows(w.replies, m.asked, p.asked);
  }

  lemma TurnParts(cfg: Config, rules: seq<Rule>, w: World, p: Machine, q: Machine, i: TaskId)
    requires IsReady(p.goal, i) && TurnDone(cfg, rules, w, p, q, i)
    ensures i < |p.goal.tasks| <= |q.goal.tasks|
    ensures var t, gate := p.goal.tasks[i], Judge(cfg, rules, p.goal, p.goal.tasks[i]);
            var outcome, reply := w.outcomes(p.calls), w.replies(p.asked);
            && q.calls == p.calls + (if gate.Pass? then 1 else 0)
            && q.asked == p.asked + (if AsksReplan(t, gate, outcome) then 1 else 0)
            && |q.goal.tasks| == |p.goal.tasks| + |NewSpecs(t, gate, outcome, reply)|
            && q.goal.tasks[i] == TurnRow(t, gate, outcome, reply)
            && q.goal.status == (if AsksReplan(t, gate, outcome) && reply == AbortIt then GoalFailed else p.goal.status)
            && forall k | 0 <= k < |p.goal.tasks| && k != i :: q.goal.tasks[k] == p.goal.tasks[k]
  {
    hide Judge, TurnRow, NewSpecs, AsksReplan, FromSpec;
  }

  lemma BeforeParts(cfg: Config, rules: seq<Rule>, w: World, m: Machine, p: Machine, before: seq<TaskId>,
                    at: map<TaskId, nat>, replied: map<TaskId, nat>, i: TaskId)
    requires TurnsDone(cfg, rules, w, m, p, before, at, replied) && i < |m.goal.tasks| && forall j | j in before :: j < i
    ensures |m.goal.tasks| <= |p.goal.tasks| && Given(at, m.calls, p.calls) && Given(replied, m.asked, p.asked)
    ensures (forall j | j in at :: j in before && j < i) && (forall j | j in replied :: j in at && j < i)
    ensures |p.goal.tasks| == |m.goal.tasks| + Total(w.replies, p.asked) - Total(w.replies, m.asked)
    ensures p.asked >= m.asked && i !in before && forall j | j in before + [i] :: j < |m.goal.tasks|
  {
    hide TurnOf, AddedFor, Total;
  }

  lemma RowsNext(cfg: Config, rules: seq<Rule>, w: World, m: Machine, p: Machine, q: Machine, before: seq<TaskId>, i: TaskId,
                 at: map<TaskId, nat>, replied: map<TaskId, nat>, at': map<TaskId, nat>, replied': map<TaskId, nat>)
    requires TurnsDone(cfg, rules, w, m, p, before, at, replied) && i < |m.goal.tasks| <= |p.goal.tasks| <= |q.goal.tasks| && i !in before
    requires p.goal.tasks[i] == m.goal.tasks[i]
    requires forall k | 0 <= k < |p.goal.tasks| && k != i :: q.goal.tasks[k] == p.goal.tasks[k]
    requires var t, u, gate := m.goal.tasks[i], q.goal.tasks[i], Judge(cfg, rules, m.goal, m.goal.tasks[i]);
             && at' == (if gate.Pass? then at[i := p.calls] else at)
             && replied' == (if gate.Pass? && LastFails(t, u) then replied[i := p.asked] else replied)
             && (if gate.Pass? then
                   Executed(t, u, w.outcomes(p.calls)) &&
                   (u.status != Done ==> Failing(u, if LastFails(t, u) then w.replies(p.asked) else NoDecision))
                 else HeldBack(t, u, gate))
    ensures forall j: TaskId | j < |m.goal.tasks| :: TurnOf(cfg, rules, w, m, q, before + [i], at', replied', j)
  {
    hide Judge, Executed, Failing, HeldBack, LastFails, AddedFor, Given, Total;
    forall j: TaskId | j < |m.goal.tasks| ensures TurnOf(cfg, rules, w, m, q, before + [i], at', replied', j) {
      assert TurnOf(cfg, rules, w, m, p, before, at, replied, j);
      assert j in before + [i] <==> j in before || j == i;
      if j != i {
        assert q.goal.tasks[j] == p.goal.tasks[j];
      }
    }
  }

  lemma AsksPass(t: Task, gate: GateAnswer, outcome: ExecOutcome)
    ensures AsksReplan(t, gate, outcome) ==> gate.Pass?
  {
  }

  lemma TotalNext(w: World, n: nat)
    ensures Total(w.replies, n + 1) == Total(w.replies, n) + Added(w.replies(n))
  {
  }

  /** The reply only matters to a task whose attempts are used up. */
  lemma NoReplyMatters(u: Task, reply: ReplanReply)
    ensures Failing(u, reply) && u.attempts < u.maxAttempts ==> Failing(u, NoDecision)
  {
  }

  lemma NewlyAdded(cfg: Config, rules: seq<Rule>, w: World, m: Machine, p: Machine, q: Machine, i: TaskId)
    requires IsReady(p.goal, i) && TurnDone(cfg, rules, w, p, q, i) && i < |m.goal.tasks| <= |p.goal.tasks| && p.goal.tasks[i] == m.goal.tasks[i]
    requires AsksReplan(p.goal.tasks[i], Judge(cfg, rules, p.goal, p.goal.tasks[i]), w.outcomes(p.calls))
    requires Total(w.replies, m.asked) <= Total(w.replies, p.asked)
    requires |p.goal.tasks| == |m.goal.tasks| + Total(w.replies, p.asked) - Total(w.replies, m.asked)
    ensures AddedFor(w, m, q, i, p.asked)
  {
    hide Judge, TurnRow, AsksReplan, FromSpec, Total;
    var specs := SpecsOf(w.replies(p.asked));
    assert specs == NewSpecs(p.goal.tasks[i], Judge(cfg, rules, p.goal, p.goal.tasks[i]), w.outcomes(p.calls), w.replies(p.asked));
    assert |m.goal.tasks| + (Total(w.replies, p.asked) - Total(w.replies, m.asked)) == |p.goal.tasks|;
  }

  lemma StillAdded(w: World, m: Machine, p: Machine, q: Machine, i: TaskId, j: TaskId, n: nat)
    requires |m.goal.tasks| <= |p.goal.tasks| <= |q.goal.tasks| && Total(w.replies, m.asked) <= Total(w.replies, n)
    requires AddedFor(w, m, p, j, n) && i < |m.goal.tasks|
    requires forall k | 0 <= k < |p.goal.tasks| && k != i :: q.goal.tasks[k] == p.goal.tasks[k]
    ensures AddedFor(w, m, q, j, n)
  {
    hide FromSpec, Total;
  }

  lemma NoTurns(cfg: Config, rules: seq<Rule>, w: World, m: Machine)
    ensures TurnsDone(cfg, rules, w, m, m, [], map[], map[])
  {
    hide Judge;
  }

  /** The first n turns of a step. */
  lemma {:induction false} TurnsOf(cfg: Config, rules: seq<Rule>, w: World, m: Machine, n: nat)
    returns (at: map<TaskId, nat>, replied: map<TaskId, nat>)
    requires n <= |ReadyList(m.goal)|
    ensures var q := RunBatch(cfg, rules, w, m, ReadyList(m.goal)[..n]);
            && TurnsDone(cfg, rules, w, m, q, ReadyList(m.goal)[..n], at, replied)
            && q.goal.status == if Aborted(w, replied) then GoalFailed else m.goal.status
  {
    hide *;
    var ready := ReadyList(m.goal);
    if n == 0 {
      at, replied := map[], map[];
      NoTurns(cfg, rules, w, m);
      NoneAborted(w);
      BatchNone(cfg, rules, w, m);
      assert ready[..0] == [];
    } else {
      var before, i := ready[..n - 1], ready[n - 1];
      var p := RunBatch(cfg, rules, w, m, before);
      var at0, replied0 := TurnsOf(cfg, rules, w, m, n - 1);
      TurnSeen(cfg, rules, w, m, n - 1);
      TurnIs(cfg, rules, w, m, n - 1);
      TurnComes(cfg, rules, w, m, n - 1);
      TurnIsDone(cfg, rules, w, p, i);
      ListIs(m.goal);
      ReadyAscends(m.goal, |m.goal.tasks|);
      assert before + [i] == ready[..n];
      at, replied := TurnsNext(cfg, rules, w, m, p, ProcessTask(cfg, rules, w, p, i), before, i, at0, replied0);
    }
  }

  lemma NoneAborted(w: World)
    ensures !Aborted(w, map[])
  {
  }

  lemma BatchNone(cfg: Config, rules: seq<Rule>, w: World, m: Machine)
    ensures RunBatch(cfg, rules, w, m, []) == m
  {
  }

  lemma ListIs(g: Goal)
    ensures ReadyList(g) == ReadyUpTo(g, |g.tasks|)
  {
  }

  /** What a step of an open goal stores, for all answers: every ready task the gate lets pass
      is executed once, with an answer of its own, in the order of the tasks, and no answer is
      asked for that is not used; it stores what it returned or raised, is put back, given up or
      set aside as its attempts and the planner's reply say; a replacement adds rows as its
      specs describe them, in order, with the dependencies of the task replaced; every other row
      is held back by the gate or left alone; and the goal becomes what the completion check
      says, or FAILED by an abort, or stays what it was. */
  lemma StepStores(cfg: Config, rules: seq<Rule>, w: World, m: Machine) returns (at: map<TaskId, nat>, replied: map<TaskId, nat>)
    requires Works(m.goal)
    ensures TurnsDone(cfg, rules, w, m, StepGoal(cfg, rules, w, m), ReadyList(m.goal), at, replied)
    ensures forall i: TaskId :: i in at <==> IsReady(m.goal, i) && Judge(cfg, rules, m.goal, m.goal.tasks[i]).Pass?
    ensures forall i: TaskId :: i in ReadyList(m.goal) <==> IsReady(m.goal, i)
    ensures var h := StepGoal(cfg, rules, w, m).goal;
            h.status == if Verdict(h).Some? then Verdict(h).value else if Aborted(w, replied) then GoalFailed else m.goal.status
  {
    var ready := ReadyList(m.goal);
    assert ready[..|ready|] == ready;
    at, replied := TurnsOf(cfg, rules, w, m, |ready|);
    var p, q := RunBatch(cfg, rules, w, m, ready), StepGoal(cfg, rules, w, m);
    SameCounts(cfg, rules, w, m);
    WorkingStep(cfg, rules, w, m);
    ReadyUpToMeaning(m.goal, |m.goal.tasks|);
    ListIs(m.goal);
    hide RunBatch, StepGoal, ReadyList, Judge;
    SameTurns(cfg, rules, w, m, p, q, ready, at, replied);
    forall i: TaskId ensures i in at <==> IsReady(m.goal, i) && Judge(cfg, rules, m.goal, m.goal.tasks[i]).Pass? {
      if i in ready {
        assert TurnOf(cfg, rules, w, m, q, ready, at, replied, i);
        AtIsPass(cfg, rules, w, m, q, ready, at, replied, i);
      }
    }
  }

  lemma SameCounts(cfg: Config, rules: seq<Rule>, w: World, m: Machine)
    requires Works(m.goal)
    ensures var p, q := RunBatch(cfg, rules, w, m, ReadyList(m.goal)), StepGoal(cfg, rules, w, m);
            q.calls == p.calls && q.asked == p.asked && q.goal.tasks == p.goal.tasks
  {
    WorkingStep(cfg, rules, w, m);
  }

  lemma SameTurns(cfg: Config, rules: seq<Rule>, w: World, m: Machine, p: Machine, q: Machine, ready: seq<TaskId>,
                  at: map<TaskId, nat>, replied: map<TaskId, nat>)
    requires TurnsDone(cfg, rules, w, m, p, ready, at, replied)
    requires q.calls == p.calls && q.asked == p.asked && q.goal.tasks == p.goal.tasks
    ensures TurnsDone(cfg, rules, w, m, q, ready, at, replied)
  {
    hide Judge, Executed, Failing, HeldBack, LastFails, FromSpec, Total;
    forall i: TaskId | i < |m.goal.tasks| ensures TurnOf(cfg, rules, w, m, q, ready, at, replied, i) {
      assert TurnOf(cfg, rules, w, m, p, ready, at, replied, i);
    }
    forall i | i in replied ensures AddedFor(w, m, q, i, replied[i]) {
      assert AddedFor(w, m, p, i, replied[i]);
    }
  }

  /** A row that was executed counts one attempt more; one that was held back does not. */
  lemma AtIsPass(cfg: Config, rules: seq<Rule>, w: World, m: Machine, q: Machine, ready: seq<TaskId>,
                 at: map<TaskId, nat>, replied: map<TaskId, nat>, i: TaskId)
    requires Works(m.goal) && i < |m.goal.tasks| && IsReady(m.goal, i) && q == StepGoal(cfg, rules, w, m)
    requires i in ready && i < |q.goal.tasks| && |m.goal.tasks| <= |q.goal.tasks| && TurnOf(cfg, rules, w, m, q, ready, at, replied, i)
    ensures i in at <==> Judge(cfg, rules, m.goal, m.goal.tasks[i]).Pass?
  {
    StepEffect(cfg, rules, w, m);
    hide Judge, StepGoal, ReadyList;
    var t, u, gate := m.goal.tasks[i], q.goal.tasks[i], Judge(cfg, rules, m.goal, m.goal.tasks[i]);
    var outcome, reply :| u == TurnRow(t, gate, outcome, reply);
    TurnMeans(t, gate, outcome, reply);
  }
}
