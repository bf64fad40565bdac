/** The planner's operations as functions: which writes each one issues, in order, for
    every answer the executor, the replanning model and the user may give. */
module GoalOps {
  import opened Prelude
  import Text
  import opened GoalModel
  import opened GoalSafety
  import opened Approval
  import ArtifactFormat

  // --- the environment ---

  datatype ExecOutcome = Returned(text: string) | Raised(error: string)

  /** NoDecision stands for an exception or an answer without an action. */
  datatype ReplanReply = RetryIt | SkipIt | ReplaceWith(specs: seq<Spec>) | AbortIt | NoDecision

  /** Every answer a run will ever get: the n-th task execution and the n-th replanning question. */
  datatype World = World(outcomes: nat -> ExecOutcome, replies: nat -> ReplanReply)

  /** What is fixed when the engine is built. */
  datatype Config = Config(
    autonomous: bool,                // an autonomy manager is configured
    connected: bool,                 // and it has a database
    risk: ActionType -> Risk,
    normalize: string -> string,
    resolve: Option<string -> string>) // joins a path to the project directory, if there is one

  /** A goal in progress, how many answers were used, and the writes issued so far. */
  datatype Machine = Machine(goal: Goal, calls: nat, asked: nat, log: seq<Write>)

  function Issue(m: Machine, ws: seq<Write>): Machine
    requires AllEnabled(m.goal, ws)
  {
    m.(goal := ApplyAll(m.goal, ws), log := m.log + ws)
  }

  // --- planning ---

  /** The ids of the listed tasks when n tasks exist. Indices at or past n are dropped,
      negative ones count from the end, and one below -n is an error. */
  function Resolve(indices: seq<int>, n: nat): Option<seq<TaskId>> {
    if indices == [] then Some([])
    else
      var idx, rest := indices[0], Resolve(indices[1..], n);
      if idx + n < 0 || rest.None? then None
      else if idx >= n then rest
      else Some([if idx < 0 then n + idx else idx] + rest.value)
  }

  /** Among n tasks, some index names task d, from the start or from the end. */
  predicate Names(indices: seq<int>, n: nat, d: TaskId) {
    d < n && (d in indices || d - n in indices)
  }

  lemma {:induction false} ResolveMeaning(indices: seq<int>, n: nat)
    ensures Resolve(indices, n).None? <==> exists idx | idx in indices :: idx + n < 0
    ensures Resolve(indices, n).Some? ==> forall d | d in Resolve(indices, n).value :: d < n
    ensures Resolve(indices, n).Some? ==>
              forall d: TaskId :: d in Resolve(indices, n).value <==> Names(indices, n, d)
  {
    if indices != [] {
      var idx := indices[0];
      ResolveMeaning(indices[1..], n);
      assert idx in indices;
      assert forall x :: x in indices <==> x == idx || x in indices[1..];
      if exists x :: x in indices[1..] && x + n < 0 {
        var x :| x in indices[1..] && x + n < 0;
        assert x in indices;
      }
    }
  }

  /** The planned tasks, up to the first that cannot be resolved. */
  function PlanWrites(specs: seq<Spec>, n: nat): seq<Write> {
    if specs == [] || Resolve(specs[0].indices, n).None? then []
    else [Plan(specs[0], Resolve(specs[0].indices, n).value)] + PlanWrites(specs[1..], n + 1)
  }

  predicate PlanOk(specs: seq<Spec>, n: nat) {
    |PlanWrites(specs, n)| == |specs|
  }

  lemma {:induction false} PlanEnabled(g: Goal, specs: seq<Spec>)
    requires g.status == GoalPlanning
    ensures AllEnabled(g, PlanWrites(specs, |g.tasks|))
    ensures var h := ApplyAll(g, PlanWrites(specs, |g.tasks|));
            h.status == GoalPlanning && |h.tasks| == |g.tasks| + |PlanWrites(specs, |g.tasks|)| && g.tasks <= h.tasks
    decreases |specs|
  {
    var n := |g.tasks|;
    var ws := PlanWrites(specs, n);
    if ws != [] {
      ResolveMeaning(specs[0].indices, n);
      assert ws[0] == Plan(specs[0], Resolve(specs[0].indices, n).value);
      assert Enabled(g, ws[0]);
      assert ws[1..] == PlanWrites(specs[1..], n + 1);
      PlanEnabled(Apply(g, ws[0]), specs[1..]);
    }
  }

  // --- the approval gate ---

  function ActionFor(k: TaskKind): ActionType {
    match k
    case LlmReason => ActMemoryQuery
    case ReadFile => ActReadFile
    case WriteCode => ActWriteFile
    case SandboxExec => ActRunCommand
    case SendMessage => ActSendMessage
    case WaitInput => ActMemoryQuery
    case WebLookup => ActWebSearch
    case MemoryQuery => ActMemoryQuery
    case CredentialRequest => ActMemoryQuery
    case SubagentSpawn => ActSpawnAgent
  }

  function SessionId(g: Goal): string {
    g.source + ":" + g.channel
  }

  function PlannedPath(t: Task, resolve: Option<string -> string>): Option<string> {
    match ArtifactFormat.Parsed(t.instruction).0
    case None => None
    case Some(path) => Some(if resolve.Some? then resolve.value(path) else path)
  }

  function RequestFor(cfg: Config, g: Goal, t: Task): Request {
    Request(ActionFor(t.kind), Some(SessionId(g)),
            if t.kind == SandboxExec then Some(t.instruction) else None,
            PlannedPath(t, cfg.resolve))
  }

  function BlockerReason(t: Task, d: Decision): string {
    var path := PlannedPath(t, None);
    "Approval required [" + ActionName(d.action) + "] via " + d.provenance + ": " + d.reason +
    ". Options: allow, deny, allow session" +
    (if t.kind == SandboxExec then ", allow command" else "") +
    (if t.kind == WriteCode && path.Some? && path.value != "" then ", allow path" else "") + "."
  }

  datatype GateAnswer = Pass | Refused(reason: string) | Asked(reason: string)

  function Judge(cfg: Config, rules: seq<Rule>, g: Goal, t: Task): GateAnswer {
    if !cfg.autonomous then Pass
    else
      var d := DecisionFor(rules, RequestFor(cfg, g, t), cfg.normalize, cfg.risk);
      match d.outcome
      case Deny => Refused(BlockerReason(t, d))
      case Ask => Asked(BlockerReason(t, d))
      case Allow => Pass
  }

  lemma LoweredHead()
    ensures Text.Lower("Approval required") == "approval required"
  {
  }

  /** Whatever the gate writes into a blocked row, user input will recognise it. */
  lemma GateReasonsAreAnswerable(t: Task, d: Decision)
    ensures IsApprovalBlocker(t.(blocker := Some(BlockerReason(t, d))))
  {
    var reason := BlockerReason(t, d);
    assert "Approval required" <= reason;
    hide BlockerReason, PlannedPath;
    LoweredHead();
    assert Text.Lower(reason)[0..17] == Text.Lower("Approval required");
    assert Text.OccursAt(Text.Lower(reason), "approval required", 0);
  }

  // --- one ready task ---

  function InsertWrites(i: TaskId, specs: seq<Spec>): seq<Write> {
    if specs == [] then [] else [Insert(i, specs[0])] + InsertWrites(i, specs[1..])
  }

  function ReplanWrites(i: TaskId, reply: ReplanReply): seq<Write> {
    match reply
    case AbortIt => [Abort]
    case SkipIt => [Skip(i)]
    case ReplaceWith(specs) => if specs == [] then [] else InsertWrites(i, specs) + [Skip(i)]
    case _ => []
  }

  function FailWrites(t: Task, i: TaskId, error: string, reply: ReplanReply): seq<Write> {
    if t.attempts + 1 >= t.maxAttempts then [GiveUp(i, error)] + ReplanWrites(i, reply)
    else [Retry(i, error)]
  }

  /** Whether executing t ends in an exception, which is what parking a task does too. */
  predicate Fails(t: Task, outcome: ExecOutcome) {
    t.kind == WaitInput || outcome.Raised?
  }

  function ResultOf(t: Task, outcome: ExecOutcome): string
    requires !Fails(t, outcome)
  {
    if t.kind == CredentialRequest then "Credential '" + t.instruction + "' available" else outcome.text
  }

  function ErrorOf(t: Task, outcome: ExecOutcome): string
    requires Fails(t, outcome)
  {
    if t.kind == WaitInput then "Waiting for input: " + t.description
    else if t.kind == CredentialRequest then "Need credential: " + t.description
    else outcome.error
  }

  function ParkReason(t: Task): string {
    if t.kind == WaitInput then "Waiting for user input: " + t.description else "Need credential: " + t.description
  }

  /** Executing a started task. The executor blocks a task that needs the user and then
      raises, so the engine treats it like any other failure. */
  function ExecWrites(t: Task, i: TaskId, outcome: ExecOutcome, reply: ReplanReply): seq<Write> {
    if !Fails(t, outcome) then [Finish(i, ResultOf(t, outcome))]
    else
      (if TakesText(t) then [Park(i, ParkReason(t))] else []) +
      FailWrites(t, i, ErrorOf(t, outcome), reply)
  }

  function TaskWrites(t: Task, i: TaskId, gate: GateAnswer, outcome: ExecOutcome, reply: ReplanReply): seq<Write> {
    match gate
    case Refused(reason) => [Write.Deny(i, reason)]
    case Asked(reason) => [Gate(i, reason)]
    case Pass => [Start(i)] + ExecWrites(t, i, outcome, reply)
  }

  /** The last attempt failed, so the replanning model is asked. */
  predicate AsksReplan(t: Task, gate: GateAnswer, outcome: ExecOutcome) {
    gate.Pass? && Fails(t, outcome) && t.attempts + 1 >= t.maxAttempts
  }

  /** The replacements a reply adds when it is asked for. */
  function Added(reply: ReplanReply): nat {
    if reply.ReplaceWith? then |reply.specs| else 0
  }

  /** The replies that take a failed task out of the plan. */
  predicate SetsAside(reply: ReplanReply) {
    reply.SkipIt? || (reply.ReplaceWith? && reply.specs != [])
  }

  /** The row of a started task once its failure has been dealt with. */
  function FailedRow(t: Task, error: string, reply: ReplanReply): Task {
    t.(error := Some(error),
       status := if t.attempts < t.maxAttempts then Pending else if SetsAside(reply) then Skipped else Failed)
  }

  /** The row of a ready task after its turn in a step. */
  function TurnRow(t: Task, gate: GateAnswer, outcome: ExecOutcome, reply: ReplanReply): Task {
    match gate
    case Refused(reason) => t.(status := Failed, error := Some(reason), blocker := None)
    case Asked(reason) => t.(status := Blocked, blocker := Some(reason))
    case Pass =>
      var started := t.(attempts := t.attempts + 1);
      if !Fails(t, outcome) then started.(status := Done, result := Some(ResultOf(t, outcome)))
      else FailedRow(if TakesText(t) then started.(blocker := Some(ParkReason(t))) else started, ErrorOf(t, outcome), reply)
  }

  /** What a batch of writes about task i may do: change its row, append so many pending rows
      with the dependencies of task i, and change the goal's status only by an abort, which
      leaves the task FAILED. */
  ghost predicate Effect(g: Goal, h: Goal, i: TaskId, added: nat) {
    && i < |g.tasks| && |h.tasks| == |g.tasks| + added
    && (forall k | 0 <= k < |g.tasks| && k != i :: h.tasks[k] == g.tasks[k])
    && (forall k | |g.tasks| <= k < |h.tasks| :: h.tasks[k].status == Pending && h.tasks[k].deps == g.tasks[i].deps)
    && h.source == g.source && h.channel == g.channel
    && (h.status == g.status || (h.status == GoalFailed && h.tasks[i].status == Failed))
  }

  lemma {:induction false} InsertsEnabled(g: Goal, i: TaskId, specs: seq<Spec>)
    requires HasStatus(g, i, Failed)
    ensures AllEnabled(g, InsertWrites(i, specs))
    ensures var h := ApplyAll(g, InsertWrites(i, specs));
            && g.tasks <= h.tasks && h == g.(tasks := h.tasks) && |h.tasks| == |g.tasks| + |specs|
            && forall k | |g.tasks| <= k < |h.tasks| :: h.tasks[k] == NewTask(specs[k - |g.tasks|], g.tasks[i].deps)
    decreases |specs|
  {
    var ws := InsertWrites(i, specs);
    if specs != [] {
      assert ws[1..] == InsertWrites(i, specs[1..]);
      InsertsEnabled(Apply(g, ws[0]), i, specs[1..]);
    }
  }

  lemma ReplanEnabled(g: Goal, i: TaskId, reply: ReplanReply)
    requires HasStatus(g, i, Failed)
    ensures AllEnabled(g, ReplanWrites(i, reply))
    ensures var h := ApplyAll(g, ReplanWrites(i, reply));
            && Effect(g, h, i, Added(reply))
            && h.tasks[i] == g.tasks[i].(status := if SetsAside(reply) then Skipped else Failed)
  {
    if reply.ReplaceWith? && reply.specs != [] {
      InsertsEnabled(g, i, reply.specs);
      var h := ApplyAll(g, InsertWrites(i, reply.specs));
      OneWrite(h, Skip(i));
      ApplyAllAppend(g, InsertWrites(i, reply.specs), [Skip(i)]);
    } else if reply.AbortIt? {
      OneWrite(g, Abort);
    } else if reply.SkipIt? {
      OneWrite(g, Skip(i));
    }
  }

  lemma FailEnabled(g: Goal, t: Task, i: TaskId, error: string, reply: ReplanReply)
    requires Held(g, i) && g.tasks[i].attempts == t.attempts + 1 && g.tasks[i].maxAttempts == t.maxAttempts
    ensures AllEnabled(g, FailWrites(t, i, error, reply))
    ensures var h := ApplyAll(g, FailWrites(t, i, error, reply));
            && Effect(g, h, i, if t.attempts + 1 >= t.maxAttempts then Added(reply) else 0)
            && h.tasks[i] == FailedRow(g.tasks[i], error, reply)
  {
    if t.attempts + 1 >= t.maxAttempts {
      OneWrite(g, GiveUp(i, error));
      var h := Apply(g, GiveUp(i, error));
      ReplanEnabled(h, i, reply);
      ApplyAllAppend(g, [GiveUp(i, error)], ReplanWrites(i, reply));
    } else {
      OneWrite(g, Retry(i, error));
    }
  }

  lemma ExecEnabled(g: Goal, t: Task, i: TaskId, outcome: ExecOutcome, reply: ReplanReply)
    requires HasStatus(g, i, Running) && g.tasks[i] == t.(status := Running, attempts := t.attempts + 1)
    ensures AllEnabled(g, ExecWrites(t, i, outcome, reply))
    ensures var h := ApplyAll(g, ExecWrites(t, i, outcome, reply));
            && Effect(g, h, i, if AsksReplan(t, Pass, outcome) then Added(reply) else 0)
            && h.tasks[i] == TurnRow(t, Pass, outcome, reply)
  {
    hide IsApprovalBlocker, ErrorOf, ParkReason, ResultOf, ReplanWrites, Verdict, AllDone;
    if !Fails(t, outcome) {
      OneWrite(g, Finish(i, ResultOf(t, outcome)));
    } else if TakesText(t) {
      var park := Park(i, ParkReason(t));
      OneWrite(g, park);
      var h := Apply(g, park);
      FailEnabled(h, t, i, ErrorOf(t, outcome), reply);
      ApplyAllAppend(g, [park], FailWrites(t, i, ErrorOf(t, outcome), reply));
    } else {
      FailEnabled(g, t, i, ErrorOf(t, outcome), reply);
      assert [] + FailWrites(t, i, ErrorOf(t, outcome), reply) == FailWrites(t, i, ErrorOf(t, outcome), reply);
    }
  }

  /** Processing one ready task issues only enabled writes, and its effect is local. */
  lemma TaskEnabled(cfg: Config, rules: seq<Rule>, g: Goal, i: TaskId, outcome: ExecOutcome, reply: ReplanReply)
    requires IsReady(g, i)
    ensures var gate := Judge(cfg, rules, g, g.tasks[i]);
            var ws := TaskWrites(g.tasks[i], i, gate, outcome, reply);
            && AllEnabled(g, ws)
            && var h := ApplyAll(g, ws);
            && Effect(g, h, i, if AsksReplan(g.tasks[i], gate, outcome) then Added(reply) else 0)
            && h.tasks[i] == TurnRow(g.tasks[i], gate, outcome, reply)
  {
    var t := g.tasks[i];
    var gate := Judge(cfg, rules, g, t);
    var ws := TaskWrites(t, i, gate, outcome, reply);
    if gate.Pass? {
      OneWrite(g, Start(i));
      ExecEnabled(Apply(g, Start(i)), t, i, outcome, reply);
      ApplyAllAppend(g, [Start(i)], ExecWrites(t, i, outcome, reply));
    } else {
      var d := DecisionFor(rules, RequestFor(cfg, g, t), cfg.normalize, cfg.risk);
      GateReasonsAreAnswerable(t, d);
      OneWrite(g, ws[0]);
    }
  }

  /** One ready task: its writes, and how many answers they used. */
  function ProcessTask(cfg: Config, rules: seq<Rule>, w: World, m: Machine, i: TaskId): Machine
    requires IsReady(m.goal, i)
  {
    var t := m.goal.tasks[i];
    var gate := Judge(cfg, rules, m.goal, t);
    var ws := TaskWrites(t, i, gate, w.outcomes(m.calls), w.replies(m.asked));
    TaskEnabled(cfg, rules, m.goal, i, w.outcomes(m.calls), w.replies(m.asked));
    Issue(m, ws).(calls := m.calls + (if gate.Pass? then 1 else 0),
                  asked := m.asked + (if AsksReplan(t, gate, w.outcomes(m.calls)) then 1 else 0))
  }
}
