/** What the user's answer to a blocked task does, said of the words themselves: which texts
    refuse, which store a rule and which, and that every option a question offers has the
    effect it names. */
module GoalAnswers {
  import opened Prelude
  import Text
  import opened GoalModel
  import opened GoalSafety
  import opened Approval
  import opened GoalOps
  import opened GoalRuns
  import ArtifactFormat

  /** The answer without outer white space, in lower case. */
  function Word(text: string): string {
    Text.Lower(Text.Strip(text))
  }

  /** The goal after the answer. */
  function Answered(cfg: Config, g: Goal, text: string): Goal {
    InputEnabled(cfg, g, text);
    ApplyAll(g, OnInput(cfg, g, text).writes)
  }

  /** An answer to a question of the gate: "no", "n", "deny" and "reject" fail the task and leave
      the goal as it is; any other answer puts the task back and reopens a blocked goal. */
  lemma RefusesExactly(cfg: Config, g: Goal, text: string)
    requires FirstAnswerable(g, 0).Some? && !TakesText(g.tasks[FirstAnswerable(g, 0).value])
    ensures var i, h, word := FirstAnswerable(g, 0).value, Answered(cfg, g, text), Word(text);
            var t := g.tasks[i];
            if word == "no" || word == "n" || word == "deny" || word == "reject" then
              && h == g.(tasks := g.tasks[i := t.(status := Failed, error := Some("User denied approval"), blocker := None)])
              && OnInput(cfg, g, text).rule == None
              && OnInput(cfg, g, text).reply == "Denied. Goal task marked as failed."
            else
              && h == g.(tasks := g.tasks[i := t.(status := Pending, blocker := None)],
                         status := if g.status == GoalBlocked then GoalExecuting else g.status)
              && OnInput(cfg, g, text).reply != "Denied. Goal task marked as failed."
  {
    WordChoice(text);
    ChoiceAnswered(cfg, g, text);
    hide *;
  }

  lemma ChoiceAnswered(cfg: Config, g: Goal, text: string)
    requires FirstAnswerable(g, 0).Some? && !TakesText(g.tasks[FirstAnswerable(g, 0).value])
    ensures var i, h, e := FirstAnswerable(g, 0).value, Answered(cfg, g, text), OnInput(cfg, g, text);
            var t := g.tasks[i];
            && (e.reply == "Denied. Goal task marked as failed." <==> ChoiceOf(text).Denied?)
            && if ChoiceOf(text).Denied? then
                 && h == g.(tasks := g.tasks[i := t.(status := Failed, error := Some("User denied approval"), blocker := None)])
                 && e.rule == None
               else
                 h == g.(tasks := g.tasks[i := t.(status := Pending, blocker := None)],
                         status := if g.status == GoalBlocked then GoalExecuting else g.status)
  {
    var i := FirstAnswerable(g, 0).value;
    InputEnabled(cfg, g, text);
    ApprovalShape(cfg, g, i, ChoiceOf(text));
    ReplyOf(cfg, g, i, ChoiceOf(text));
    hide FirstAnswerable, IsApprovalBlocker, AllEnabled, ApplyAll, ApprovalInput, ChoiceOf;
  }

  lemma ReplyOf(cfg: Config, g: Goal, i: TaskId, choice: Choice)
    requires i < |g.tasks|
    ensures ApprovalInput(cfg, g, i, choice).reply == "Denied. Goal task marked as failed." <==> choice.Denied?
    ensures choice.Denied? ==> ApprovalInput(cfg, g, i, choice).rule == None
  {
    hide PlannedPath;
    assert |"Denied. Goal task marked as failed."| == 35 && |"Confirmed. Resuming goal."| == 25;
    assert |"Approved for matching commands. Resuming goal."| == 46;
    assert |"Approved for matching file paths. Resuming goal."| == 48;
    assert |"Approved for this session. Resuming goal."| == 41;
  }

  /** What the path of a task's instruction is once joined to the project directory. */
  function JoinedPath(cfg: Config, t: Task): Option<string> {
    var path := ArtifactFormat.Parsed(t.instruction).0;
    if path.None? then None else if cfg.resolve.None? then path else Some(cfg.resolve.value(path.value))
  }

  /** The rule an answer stores, by its words: a session rule, a rule for the command of a
      sandbox task, a rule for the path an instruction names, and otherwise none. */
  lemma StoresExactly(cfg: Config, g: Goal, text: string)
    requires FirstAnswerable(g, 0).Some? && !TakesText(g.tasks[FirstAnswerable(g, 0).value])
    ensures var t, word, rule := g.tasks[FirstAnswerable(g, 0).value], Word(text), OnInput(cfg, g, text).rule;
            if !cfg.autonomous || word == "no" || word == "n" || word == "deny" || word == "reject" then rule == None
            else if word == "allow command" || word == "allow command prefix" || word == "always for this command" then
              rule == if t.kind == SandboxExec then Some(Rule(CommandPrefix, Text.Strip(t.instruction), Some(ActRunCommand), AllowByRule)) else None
            else if word == "allow path" || word == "allow file" || word == "allow file path" || word == "always for this path" then
              rule == if JoinedPath(cfg, t).Some? then Some(Rule(PathPrefix, cfg.normalize(JoinedPath(cfg, t).value), Some(ActionFor(t.kind)), AllowByRule)) else None
            else if word == "allow session" || word == "session" || word == "always for session" then
              rule == Some(Rule(Session, g.source + ":" + g.channel, Some(ActionFor(t.kind)), AllowForSession))
            else rule == None
  {
    var i := FirstAnswerable(g, 0).value;
    WordChoice(text);
    ChoiceRule(cfg, g, i, ChoiceOf(text));
    InputRule(cfg, g, text);
    hide *;
  }

  lemma InputRule(cfg: Config, g: Goal, text: string)
    requires FirstAnswerable(g, 0).Some? && !TakesText(g.tasks[FirstAnswerable(g, 0).value])
    ensures OnInput(cfg, g, text).rule == ApprovalInput(cfg, g, FirstAnswerable(g, 0).value, ChoiceOf(text)).rule
  {
    hide FirstAnswerable, ApprovalInput, ChoiceOf;
  }

  lemma WordChoice(text: string)
    ensures var word := Word(text);
            ChoiceOf(text) ==
              if word == "no" || word == "n" || word == "deny" || word == "reject" then Denied
              else if word == "allow command" || word == "allow command prefix" || word == "always for this command" then ByCommand
              else if word == "allow path" || word == "allow file" || word == "allow file path" || word == "always for this path" then ByPath
              else if word == "allow session" || word == "session" || word == "always for session" then BySession
              else Plain
  {
    hide Text.Strip, Text.Lower;
  }

  lemma ChoiceRule(cfg: Config, g: Goal, i: TaskId, choice: Choice)
    requires i < |g.tasks|
    ensures var t, rule := g.tasks[i], ApprovalInput(cfg, g, i, choice).rule;
            rule == if !cfg.autonomous then None
                    else
                      match choice
                      case ByCommand => if t.kind == SandboxExec then Some(Rule(CommandPrefix, Text.Strip(t.instruction), Some(ActRunCommand), AllowByRule)) else None
                      case ByPath => if JoinedPath(cfg, t).Some? then Some(Rule(PathPrefix, cfg.normalize(JoinedPath(cfg, t).value), Some(ActionFor(t.kind)), AllowByRule)) else None
                      case BySession => Some(Rule(Session, g.source + ":" + g.channel, Some(ActionFor(t.kind)), AllowForSession))
                      case _ => None
  {
    hide Text.Strip;
  }

  /** Text for a task that takes it completes the task. */
  lemma TextCompletes(cfg: Config, g: Goal, text: string)
    requires FirstAnswerable(g, 0).Some? && TakesText(g.tasks[FirstAnswerable(g, 0).value])
    ensures var i, h := FirstAnswerable(g, 0).value, Answered(cfg, g, text);
            var t := g.tasks[i];
            var result := if t.kind == WaitInput then text else "Credential '" + t.instruction + "' provided";
            && h == g.(tasks := g.tasks[i := t.(status := Done, result := Some(result), blocker := None)],
                       status := if g.status == GoalBlocked then GoalExecuting else g.status)
            && OnInput(cfg, g, text).rule == None
            && OnInput(cfg, g, text).reply == if t.kind == WaitInput then "Input received. Resuming goal." else "Credential received. Resuming goal."
  {
    InputEnabled(cfg, g, text);
    hide FirstAnswerable, IsApprovalBlocker, AllEnabled, ApplyAll;
  }

  /** When nothing waits for an answer, nothing is written. */
  lemma NothingWaits(cfg: Config, g: Goal, text: string)
    requires forall i | 0 <= i < |g.tasks| :: !Answerable(g.tasks[i])
    ensures OnInput(cfg, g, text) == InputEffect([], None, "No blocked task found matching this input.")
  {
    hide Answerable;
  }

  /** What the user is told about an approval: that it was refused, for what it counts from now
      on, or just that the goal goes on. */
  lemma RepliesExactly(cfg: Config, g: Goal, text: string)
    requires FirstAnswerable(g, 0).Some? && !TakesText(g.tasks[FirstAnswerable(g, 0).value])
    ensures var e := OnInput(cfg, g, text);
            e.reply ==
              if Denies(text) then "Denied. Goal task marked as failed."
              else if ChoiceOf(text) == BySession then "Approved for this session. Resuming goal."
              else if e.rule.Some? && e.rule.value.scope == CommandPrefix then "Approved for matching commands. Resuming goal."
              else if e.rule.Some? && e.rule.value.scope == PathPrefix then "Approved for matching file paths. Resuming goal."
              else "Confirmed. Resuming goal."
  {
    var i := FirstAnswerable(g, 0).value;
    WordChoice(text);
    InputReply(cfg, g, text);
    ChoiceReply(cfg, g, i, ChoiceOf(text));
    InputRule(cfg, g, text);
    hide *;
  }

  predicate Denies(text: string) {
    var word := Word(text);
    word == "no" || word == "n" || word == "deny" || word == "reject"
  }

  lemma InputReply(cfg: Config, g: Goal, text: string)
    requires FirstAnswerable(g, 0).Some? && !TakesText(g.tasks[FirstAnswerable(g, 0).value])
    ensures OnInput(cfg, g, text).reply == ApprovalInput(cfg, g, FirstAnswerable(g, 0).value, ChoiceOf(text)).reply
    ensures Denies(text) <==> ChoiceOf(text).Denied?
  {
    WordChoice(text);
    hide FirstAnswerable, ApprovalInput, ChoiceOf, Word;
  }

  lemma ChoiceReply(cfg: Config, g: Goal, i: TaskId, choice: Choice)
    requires i < |g.tasks|
    ensures var e := ApprovalInput(cfg, g, i, choice);
            e.reply ==
              if choice.Denied? then "Denied. Goal task marked as failed."
              else if choice == BySession then "Approved for this session. Resuming goal."
              else if e.rule.Some? && e.rule.value.scope == CommandPrefix then "Approved for matching commands. Resuming goal."
              else if e.rule.Some? && e.rule.value.scope == PathPrefix then "Approved for matching file paths. Resuming goal."
              else "Confirmed. Resuming goal."
  {
    hide PlannedPath, Text.Strip, SessionId;
  }

  /** Which blocked rows an answer can reach: those that take text, and those whose reason, in
      lower case, asks for an approval or a confirmation. */
  lemma AnswerableExactly(t: Task)
    ensures var reason := if t.blocker.Some? then Text.Lower(t.blocker.value) else "";
            Answerable(t) <==>
              t.status == Blocked &&
              (t.kind == WaitInput || t.kind == CredentialRequest ||
               Within(reason, "approval required") || Within(reason, "confirmation"))
  {
    var reason := Text.Lower(if t.blocker.Some? then t.blocker.value else "");
    WithinMeans(reason, "approval required");
    WithinMeans(reason, "confirmation");
    assert t.blocker.None? ==> reason == "";
    hide Text.Contains, Text.Lower, Within;
  }

  ghost predicate Within(s: string, part: string) {
    exists head, tail :: s == head + part + tail
  }

  lemma WithinMeans(s: string, part: string)
    ensures Text.Contains(s, part) <==> Within(s, part)
  {
    if Text.Contains(s, part) {
      var i :| 0 <= i <= |s| - |part| && Text.OccursAt(s, part, i);
      assert s == s[..i] + part + s[i + |part|..];
    }
    if Within(s, part) {
      var head, tail :| s == head + part + tail;
      assert Text.OccursAt(s, part, |head|);
    }
  }

  // --- the options a question offers ---

  /** The options named in the question about a task. */
  function Options(t: Task): seq<string> {
    ["allow", "deny", "allow session"] +
    (if t.kind == SandboxExec then ["allow command"] else []) +
    (if t.kind == WriteCode && ArtifactFormat.Parsed(t.instruction).0.Some? && ArtifactFormat.Parsed(t.instruction).0.value != ""
     then ["allow path"] else [])
  }

  function Listed(options: seq<string>): string {
    if options == [] then "" else if |options| == 1 then options[0] else Listed(options[..|options| - 1]) + ", " + options[|options| - 1]
  }

  lemma ListedMore(options: seq<string>, last: string)
    requires options != []
    ensures Listed(options + [last]) == Listed(options) + ", " + last
  {
    assert (options + [last])[..|options|] == options;
  }

  /** The question ends with the list of its options. */
  lemma QuestionOffers(t: Task, d: Decision) returns (head: string)
    ensures BlockerReason(t, d) == head + ". Options: " + Listed(Options(t)) + "."
  {
    hide *;
    OptionsAre(t);
    var more;
    head, more := ReasonIs(t, d);
    OfferLiteral(more);
    assert head + (". Options: " + Listed(Options(t))) + "." == head + ". Options: " + Listed(Options(t)) + ".";
  }

  lemma OfferLiteral(more: string)
    ensures ". Options: " + ("allow, deny, allow session" + more) == ". Options: allow, deny, allow session" + more
  {
    assert ". Options: " + "allow, deny, allow session" == ". Options: allow, deny, allow session";
  }

  /** The options beyond those every question offers. */
  function MoreOptions(t: Task): string {
    if t.kind == SandboxExec then ", allow command"
    else if t.kind == WriteCode && ArtifactFormat.Parsed(t.instruction).0.Some? && ArtifactFormat.Parsed(t.instruction).0.value != "" then ", allow path"
    else ""
  }

  lemma ReasonIs(t: Task, d: Decision) returns (head: string, more: string)
    ensures more == MoreOptions(t) && BlockerReason(t, d) == head + (". Options: allow, deny, allow session" + more) + "."
  {
    head := "Approval required [" + ActionName(d.action) + "] via " + d.provenance + ": " + d.reason;
    more := MoreOptions(t);
    hide ActionName;
    var rest := ". Options: allow, deny, allow session";
    assert head + rest + more == head + (rest + more);
    assert head + rest + "" == head + rest;
  }

  const BASIC := ["allow", "deny", "allow session"]

  lemma OptionsAre(t: Task)
    ensures Listed(Options(t)) == "allow, deny, allow session" + MoreOptions(t)
  {
    hide *;
    BasicListed();
    OptionCases(t);
    ListedMore(BASIC, "allow command");
    ListedMore(BASIC, "allow path");
    var all := "allow, deny, allow session";
    assert all + ", " + "allow command" == all + ", allow command" by {
      assert ", " + "allow command" == ", allow command";
    }
    assert all + ", " + "allow path" == all + ", allow path" by {
      assert ", " + "allow path" == ", allow path";
    }
    assert all + "" == all;
  }

  lemma OptionCases(t: Task)
    ensures BASIC != []
    ensures (Options(t) == BASIC && MoreOptions(t) == "") ||
            (Options(t) == BASIC + ["allow command"] && MoreOptions(t) == ", allow command") ||
            (Options(t) == BASIC + ["allow path"] && MoreOptions(t) == ", allow path")
  {
    hide ArtifactFormat.Parsed;
  }

  lemma BasicListed()
    ensures Listed(BASIC) == "allow, deny, allow session"
  {
    ListedMore(["allow"], "deny");
    ListedMore(["allow", "deny"], "allow session");
    assert Listed(["allow"]) == "allow";
    hide Listed;
    assert ["allow"] + ["deny"] == ["allow", "deny"] && ["allow", "deny"] + ["allow session"] == BASIC;
    assert "allow" + ", " + "deny" == "allow, deny";
    assert "allow, deny" + ", " + "allow session" == "allow, deny, allow session";
  }

  /** Each option, given back as it was offered: "allow" puts the task back and stores nothing,
      "deny" fails it, the others put it back and store the rule they name. */
  lemma OptionsWork(cfg: Config, g: Goal)
    requires cfg.autonomous && FirstAnswerable(g, 0).Some? && !TakesText(g.tasks[FirstAnswerable(g, 0).value])
    ensures var t := g.tasks[FirstAnswerable(g, 0).value];
            && Leaves(cfg, g, "allow", Pending, None)
            && Leaves(cfg, g, "deny", Failed, None)
            && Leaves(cfg, g, "allow session", Pending, Some(Rule(Session, g.source + ":" + g.channel, Some(ActionFor(t.kind)), AllowForSession)))
            && ("allow command" in Options(t) ==>
                  Leaves(cfg, g, "allow command", Pending, Some(Rule(CommandPrefix, Text.Strip(t.instruction), Some(ActRunCommand), AllowByRule))))
            && ("allow path" in Options(t) ==>
                  JoinedPath(cfg, t).Some? &&
                  Leaves(cfg, g, "allow path", Pending,
                         Some(Rule(PathPrefix, cfg.normalize(JoinedPath(cfg, t).value), Some(ActWriteFile), AllowByRule))))
  {
    var t := g.tasks[FirstAnswerable(g, 0).value];
    hide *;
    OneOption("allow");
    OneOption("deny");
    OneOption("allow session");
    OneOption("allow command");
    OneOption("allow path");
    OfferedFor(cfg, t);
    ChoiceLeaves(cfg, g, "allow");
    ChoiceLeaves(cfg, g, "deny");
    ChoiceLeaves(cfg, g, "allow session");
    ChoiceLeaves(cfg, g, "allow command");
    ChoiceLeaves(cfg, g, "allow path");
  }

  /** The answer leaves the task it reaches with this status, and stores this rule. */
  predicate Leaves(cfg: Config, g: Goal, text: string, status: TaskStatus, rule: Option<Rule>)
    requires FirstAnswerable(g, 0).Some?
  {
    var i := FirstAnswerable(g, 0).value;
    HasStatus(Answered(cfg, g, text), i, status) && OnInput(cfg, g, text).rule == rule
  }

  lemma ChoiceLeaves(cfg: Config, g: Goal, text: string)
    requires cfg.autonomous && FirstAnswerable(g, 0).Some? && !TakesText(g.tasks[FirstAnswerable(g, 0).value])
    ensures var t := g.tasks[FirstAnswerable(g, 0).value];
            match ChoiceOf(text)
            case Denied => Leaves(cfg, g, text, Failed, None)
            case ByCommand =>
              Leaves(cfg, g, text, Pending, if t.kind == SandboxExec then Some(Rule(CommandPrefix, Text.Strip(t.instruction), Some(ActRunCommand), AllowByRule)) else None)
            case ByPath =>
              Leaves(cfg, g, text, Pending, if JoinedPath(cfg, t).Some? then Some(Rule(PathPrefix, cfg.normalize(JoinedPath(cfg, t).value), Some(ActionFor(t.kind)), AllowByRule)) else None)
            case BySession => Leaves(cfg, g, text, Pending, Some(Rule(Session, g.source + ":" + g.channel, Some(ActionFor(t.kind)), AllowForSession)))
            case Plain => Leaves(cfg, g, text, Pending, None)
  {
    var i := FirstAnswerable(g, 0).value;
    ChoiceRow(cfg, g, text);
    InputRule(cfg, g, text);
    ChoiceRule(cfg, g, i, ChoiceOf(text));
    RefusalStoresNone(cfg, g, i);
    hide FirstAnswerable, Answered, OnInput, ApprovalInput, ChoiceOf, Text.Strip;
  }

  lemma RefusalStoresNone(cfg: Config, g: Goal, i: TaskId)
    requires i < |g.tasks|
    ensures ApprovalInput(cfg, g, i, Denied).rule == None
  {
  }

  lemma ChoiceRow(cfg: Config, g: Goal, text: string)
    requires FirstAnswerable(g, 0).Some? && !TakesText(g.tasks[FirstAnswerable(g, 0).value])
    ensures HasStatus(Answered(cfg, g, text), FirstAnswerable(g, 0).value, if ChoiceOf(text).Denied? then Failed else Pending)
  {
    ChoiceAnswered(cfg, g, text);
    hide FirstAnswerable, Answered, ChoiceOf, OnInput, IsApprovalBlocker;
  }

  /** A command is offered for sandbox tasks only, a path to write to where one is named. */
  lemma OfferedFor(cfg: Config, t: Task)
    ensures "allow command" in Options(t) ==> t.kind == SandboxExec
    ensures "allow path" in Options(t) ==> JoinedPath(cfg, t).Some? && ActionFor(t.kind) == ActWriteFile
  {
    hide ArtifactFormat.Parsed;
    assert "allow command" != "allow path" && "allow command" != "allow session" && "allow path" != "allow session";
  }

  lemma OneOption(option: string)
    requires option in {"allow", "deny", "allow session", "allow command", "allow path"}
    ensures ChoiceOf(option) ==
            if option == "deny" then Denied else if option == "allow session" then BySession
            else if option == "allow command" then ByCommand else if option == "allow path" then ByPath else Plain
  {
    OptionIsWord(option);
    WordChoice(option);
    hide ChoiceOf, Word;
  }

  lemma OptionIsWord(option: string)
    requires option in {"allow", "deny", "allow session", "allow command", "allow path"}
    ensures Word(option) == option
  {
    Text.StripFixes(option);
  }

  /** What the gate takes a task for, and calls it in the question: tasks that think, remember or
      wait count as memory queries, every other kind as an action of its own. */
  lemma JudgedAs(t: Task)
    ensures ActionName(ActionFor(t.kind)) ==
            match t.kind
            case ReadFile => "read_file"
            case WriteCode => "write_file"
            case SandboxExec => "run_command"
            case SendMessage => "send_message"
            case WebLookup => "web_search"
            case SubagentSpawn => "spawn_agent"
            case _ => "memory_query"
  {
  }
}
