/** The approval pipeline: stored rules, a risk table, and the decision they give. */
module Approval {
  import opened Prelude
  import Text

  datatype ActionType =
    | ActReadFile | ActWriteFile | ActDeleteFile | ActRunCommand | ActWebSearch | ActSendMessage
    | ActApiCall | ActGitPush | ActFinancial | ActModifyConfig | ActMemoryQuery | ActSpawnAgent

  datatype Risk = Low | High

  datatype Outcome = Allow | Ask | Deny

  datatype Mode = AutoAllow | AskOnce | AllowForSession | AllowByRule | DenyMode

  datatype Scope = Session | CommandPrefix | PathPrefix

  datatype Rule = Rule(scope: Scope, value: string, action: Option<ActionType>, mode: Mode)

  datatype Request = Request(action: ActionType, session: Option<string>, command: Option<string>, path: Option<string>)

  datatype Decision = Decision(action: ActionType, outcome: Outcome, mode: Mode, reason: string, provenance: string, risk: Risk)

  function ActionName(a: ActionType): string {
    match a
    case ActReadFile => "read_file"
    case ActWriteFile => "write_file"
    case ActDeleteFile => "delete_file"
    case ActRunCommand => "run_command"
    case ActWebSearch => "web_search"
    case ActSendMessage => "send_message"
    case ActApiCall => "api_call"
    case ActGitPush => "git_push"
    case ActFinancial => "financial"
    case ActModifyConfig => "modify_config"
    case ActMemoryQuery => "memory_query"
    case ActSpawnAgent => "spawn_agent"
  }

  function ScopeName(s: Scope): string {
    match s
    case Session => "session"
    case CommandPrefix => "command_prefix"
    case PathPrefix => "path_prefix"
  }

  predicate IsAllowRule(r: Rule) {
    r.mode == AllowForSession || r.mode == AllowByRule
  }

  /** Whether a rule's scope covers a request; normalize resolves a path and lowers its case. */
  predicate Covers(r: Rule, req: Request, normalize: string -> string) {
    && (r.action.None? || r.action.value == req.action)
    && match r.scope
       case Session => req.session == Some(r.value)
       case CommandPrefix =>
         req.command.Some? && req.command.value != "" &&
         Text.Lower(Text.Strip(r.value)) <= Text.Lower(Text.Strip(req.command.value))
       case PathPrefix =>
         req.path.Some? && req.path.value != "" && r.value <= normalize(req.path.value)
  }

  predicate Selects(r: Rule, req: Request, normalize: string -> string, allowed: bool) {
    (if allowed then IsAllowRule(r) else r.mode == DenyMode) && Covers(r, req, normalize)
  }

  predicate AnySelects(rules: seq<Rule>, req: Request, normalize: string -> string, allowed: bool) {
    exists r | r in rules :: Selects(r, req, normalize, allowed)
  }

  /** The meaning of a rule set: any covering deny rule denies, else any covering allow
      rule allows, else the risk decides. */
  function Meaning(rules: seq<Rule>, req: Request, normalize: string -> string, risk: ActionType -> Risk): Outcome {
    if AnySelects(rules, req, normalize, false) then Deny
    else if AnySelects(rules, req, normalize, true) then Allow
    else if risk(req.action) == High then Ask
    else Allow
  }

  /** The most recently stored rule that applies. */
  function Newest(rules: seq<Rule>, req: Request, normalize: string -> string, allowed: bool): Option<Rule> {
    if rules == [] then None
    else if Selects(rules[|rules| - 1], req, normalize, allowed) then Some(rules[|rules| - 1])
    else Newest(rules[..|rules| - 1], req, normalize, allowed)
  }

  function RuleProvenance(r: Rule): string {
    "rule:" + ScopeName(r.scope) + ":" + r.value
  }

  function DecisionFor(rules: seq<Rule>, req: Request, normalize: string -> string, risk: ActionType -> Risk): Decision {
    var level := risk(req.action);
    var reason := "Default for action type '" + ActionName(req.action) + "'";
    var matched := "action:" + ActionName(req.action);
    match Newest(rules, req, normalize, false)
    case Some(r) => Decision(req.action, Deny, DenyMode, "Denied by stored rule (" + ScopeName(r.scope) + ")", RuleProvenance(r), level)
    case None =>
      match Newest(rules, req, normalize, true)
      case Some(r) =>
        Decision(req.action, Allow, if r.scope == Session then AllowForSession else AllowByRule,
                 "Allowed by stored rule (" + ScopeName(r.scope) + ")", RuleProvenance(r), level)
      case None =>
        if level == High then Decision(req.action, Ask, AskOnce, reason, matched, level)
        else Decision(req.action, Allow, AutoAllow, reason, matched, level)
  }

  lemma {:induction false} NewestSelects(rules: seq<Rule>, req: Request, normalize: string -> string, allowed: bool)
    ensures Newest(rules, req, normalize, allowed).Some? <==> AnySelects(rules, req, normalize, allowed)
    ensures var r := Newest(rules, req, normalize, allowed);
            r.Some? ==> r.value in rules && Selects(r.value, req, normalize, allowed)
  {
    if rules != [] {
      var last := |rules| - 1;
      NewestSelects(rules[..last], req, normalize, allowed);
      assert rules == rules[..last] + [rules[last]];
    }
  }

  /** The scan gives what the rule set means. */
  lemma DecisionMeaning(rules: seq<Rule>, req: Request, normalize: string -> string, risk: ActionType -> Risk)
    ensures DecisionFor(rules, req, normalize, risk).outcome == Meaning(rules, req, normalize, risk)
  {
    NewestSelects(rules, req, normalize, false);
    NewestSelects(rules, req, normalize, true);
  }

  /** Rule by rule: a session rule covers the requests of its session; a command rule those whose
      command begins with the rule's, both without outer white space and in lower case; a path
      rule those whose path begins with the rule's; an action rule those of its action only. */
  lemma CoversExactly(r: Rule, req: Request, normalize: string -> string)
    ensures Covers(r, req, normalize) <==>
              (r.action.Some? ==> r.action.value == req.action) &&
              match r.scope
              case Session => req.session.Some? && req.session.value == r.value
              case CommandPrefix =>
                req.command.Some? && |req.command.value| > 0 &&
                exists rest :: Text.Lower(Text.Strip(req.command.value)) == Text.Lower(Text.Strip(r.value)) + rest
              case PathPrefix =>
                req.path.Some? && |req.path.value| > 0 && exists rest :: normalize(req.path.value) == r.value + rest
  {
    if r.scope == CommandPrefix && req.command.Some? {
      Begins(Text.Lower(Text.Strip(r.value)), Text.Lower(Text.Strip(req.command.value)));
    }
    if r.scope == PathPrefix && req.path.Some? {
      Begins(r.value, normalize(req.path.value));
    }
    hide Text.Lower, Text.Strip;
  }

  lemma Begins(a: string, b: string)
    ensures a <= b <==> exists rest :: b == a + rest
  {
    if a <= b {
      assert b == a + b[|a|..];
    }
  }

  /** The outcome, by the rules themselves: refused if some deny rule covers the request, else
      allowed if some allow rule does, else asked about exactly if its risk is high. */
  lemma OutcomeExactly(rules: seq<Rule>, req: Request, normalize: string -> string, risk: ActionType -> Risk)
    ensures var outcome := DecisionFor(rules, req, normalize, risk).outcome;
            var denied := exists r | r in rules :: r.mode == DenyMode && Covers(r, req, normalize);
            var allowed := exists r | r in rules :: (r.mode == AllowForSession || r.mode == AllowByRule) && Covers(r, req, normalize);
            && (outcome == Deny <==> denied)
            && (outcome == Ask <==> !denied && !allowed && risk(req.action) == High)
            && (outcome == Allow <==> !denied && (allowed || risk(req.action) == Low))
  {
    DecisionMeaning(rules, req, normalize, risk);
    hide Covers, DecisionFor;
    assert AnySelects(rules, req, normalize, false) <==> exists r | r in rules :: r.mode == DenyMode && Covers(r, req, normalize) by {
      if r :| r in rules && r.mode == DenyMode && Covers(r, req, normalize) {
        assert Selects(r, req, normalize, false);
      }
    }
    assert AnySelects(rules, req, normalize, true) <==>
           exists r | r in rules :: (r.mode == AllowForSession || r.mode == AllowByRule) && Covers(r, req, normalize) by {
      if r :| r in rules && (r.mode == AllowForSession || r.mode == AllowByRule) && Covers(r, req, normalize) {
        assert Selects(r, req, normalize, true);
      }
    }
  }

  /** Rule k of the list decides: it denies, or allows, the request, and none stored later does. */
  predicate Decides(rules: seq<Rule>, k: nat, req: Request, normalize: string -> string, allowed: bool) {
    && k < |rules| && Covers(rules[k], req, normalize)
    && (if allowed then rules[k].mode == AllowForSession || rules[k].mode == AllowByRule else rules[k].mode == DenyMode)
    && forall j | k < j < |rules| ::
         !((if allowed then rules[j].mode == AllowForSession || rules[j].mode == AllowByRule else rules[j].mode == DenyMode) &&
           Covers(rules[j], req, normalize))
  }

  lemma {:induction false} NewestDecides(rules: seq<Rule>, req: Request, normalize: string -> string, allowed: bool) returns (k: nat)
    ensures Newest(rules, req, normalize, allowed).Some? ==>
              Decides(rules, k, req, normalize, allowed) && Newest(rules, req, normalize, allowed).value == rules[k]
  {
    hide Covers;
    if rules == [] {
      k := 0;
    } else if Selects(rules[|rules| - 1], req, normalize, allowed) {
      k := |rules| - 1;
    } else {
      k := NewestDecides(rules[..|rules| - 1], req, normalize, allowed);
    }
  }

  /** What a decision says of itself: it names the newest rule that decides, with its scope and
      value, and is of the mode that goes with it; without a rule it names the action and its
      risk, and is a question exactly if that is high. */
  lemma DecisionNames(rules: seq<Rule>, req: Request, normalize: string -> string, risk: ActionType -> Risk) returns (k: nat)
    ensures var d := DecisionFor(rules, req, normalize, risk);
            && d.action == req.action && d.risk == risk(req.action)
            && (d.outcome == Deny ==>
                  Decides(rules, k, req, normalize, false) && d.mode == DenyMode && NamesRule(d, rules[k], "Denied"))
            && (d.mode == AllowForSession || d.mode == AllowByRule ==>
                  && d.outcome == Allow && Decides(rules, k, req, normalize, true) && NamesRule(d, rules[k], "Allowed")
                  && (d.mode == AllowForSession <==> rules[k].scope == Session))
            && (d.mode == AskOnce || d.mode == AutoAllow ==>
                  && (d.mode == AskOnce <==> d.outcome == Ask) && (d.mode == AutoAllow <==> d.outcome == Allow)
                  && d.reason == "Default for action type '" + ActionName(req.action) + "'"
                  && d.provenance == "action:" + ActionName(req.action))
  {
    var deny, allow := Newest(rules, req, normalize, false), Newest(rules, req, normalize, true);
    k := NewestDecides(rules, req, normalize, deny.None?);
    DecisionParts(rules, req, normalize, risk);
    hide *;
    if deny.Some? {
      RuleNamed(DecisionFor(rules, req, normalize, risk), deny.value, "Denied");
    } else if allow.Some? {
      RuleNamed(DecisionFor(rules, req, normalize, risk), allow.value, "Allowed");
    }
  }

  lemma DecisionParts(rules: seq<Rule>, req: Request, normalize: string -> string, risk: ActionType -> Risk)
    ensures var d := DecisionFor(rules, req, normalize, risk);
            var deny, allow := Newest(rules, req, normalize, false), Newest(rules, req, normalize, true);
            && d.action == req.action && d.risk == risk(req.action)
            && (if deny.Some? then
                  && d.outcome == Deny && d.mode == DenyMode && d.provenance == RuleProvenance(deny.value)
                  && d.reason == "Denied" + (" by stored rule (" + ScopeName(deny.value.scope) + ")")
                else if allow.Some? then
                  && d.outcome == Allow && d.mode == (if allow.value.scope == Session then AllowForSession else AllowByRule)
                  && d.provenance == RuleProvenance(allow.value)
                  && d.reason == "Allowed" + (" by stored rule (" + ScopeName(allow.value.scope) + ")")
                else
                  && d.outcome == (if risk(req.action) == High then Ask else Allow)
                  && d.mode == (if risk(req.action) == High then AskOnce else AutoAllow)
                  && d.reason == "Default for action type '" + ActionName(req.action) + "'"
                  && d.provenance == "action:" + ActionName(req.action))
  {
    hide Newest, ScopeName, ActionName, RuleProvenance;
    assert forall scope: string :: "Denied by stored rule (" + scope + ")" == "Denied" + (" by stored rule (" + scope + ")") by {
      assert "Denied by stored rule (" == "Denied" + " by stored rule (";
    }
    assert forall scope: string :: "Allowed by stored rule (" + scope + ")" == "Allowed" + (" by stored rule (" + scope + ")") by {
      assert "Allowed by stored rule (" == "Allowed" + " by stored rule (";
    }
  }

  lemma RuleNamed(d: Decision, r: Rule, verb: string)
    requires d.provenance == RuleProvenance(r) && d.reason == verb + (" by stored rule (" + ScopeName(r.scope) + ")")
    ensures NamesRule(d, r, verb)
  {
    assert verb + " by stored rule (" + ScopeName(r.scope) + ")" == verb + (" by stored rule (" + ScopeName(r.scope) + ")");
  }

  predicate NamesRule(d: Decision, r: Rule, verb: string) {
    var scope := match r.scope case Session => "session" case CommandPrefix => "command_prefix" case PathPrefix => "path_prefix";
    d.reason == verb + " by stored rule (" + scope + ")" && d.provenance == "rule:" + scope + ":" + r.value
  }

  /** Only the set of stored rules matters to the outcome, not their order or repetition. */
  lemma OutcomeIgnoresOrder(rules: seq<Rule>, others: seq<Rule>, req: Request, normalize: string -> string, risk: ActionType -> Risk)
    requires forall r :: r in rules <==> r in others
    ensures DecisionFor(rules, req, normalize, risk).outcome == DecisionFor(others, req, normalize, risk).outcome
  {
    DecisionMeaning(rules, req, normalize, risk);
    DecisionMeaning(others, req, normalize, risk);
  }

  /** An allow rule that covers a request makes every later evaluation of it ALLOW until a
      covering deny rule is stored, whatever other rules are added before or after. */
  lemma AllowRuleLasts(rules: seq<Rule>, r: Rule, req: Request, normalize: string -> string, risk: ActionType -> Risk)
    requires r in rules && IsAllowRule(r) && Covers(r, req, normalize)
    ensures DecisionFor(rules, req, normalize, risk).outcome ==
            if AnySelects(rules, req, normalize, false) then Deny else Allow
  {
    DecisionMeaning(rules, req, normalize, risk);
    assert Selects(r, req, normalize, true);
  }

  /** A stored rule never makes the user be asked about something that was not asked before,
      and a stored deny rule never opens anything. */
  lemma {:induction false} AddingARule(rules: seq<Rule>, r: Rule, req: Request, normalize: string -> string, risk: ActionType -> Risk)
    ensures var before := DecisionFor(rules, req, normalize, risk).outcome;
            var after := DecisionFor(rules + [r], req, normalize, risk).outcome;
            if before == Deny || (r.mode == DenyMode && Covers(r, req, normalize)) then after == Deny
            else if IsAllowRule(r) && Covers(r, req, normalize) then after == Allow
            else after == before
  {
    DecisionMeaning(rules, req, normalize, risk);
    DecisionMeaning(rules + [r], req, normalize, risk);
    assert forall x :: x in rules + [r] <==> x in rules || x == r;
    assert r in rules + [r];
  }

  datatype LogRow = LogRow(req: Request, decision: Decision)

  /** Stored rules and logged decisions. Without a database nothing is ever stored. */
  class ApprovalPipeline {
    const connected: bool
    const risk: ActionType -> Risk
    const normalize: string -> string
    var rules: seq<Rule>
    var log: seq<LogRow>

    ghost predicate Valid()
      reads this
    {
      !connected ==> rules == [] && log == []
    }

    constructor (connected: bool, risk: ActionType -> Risk, normalize: string -> string)
      ensures Valid() && rules == [] && log == []
      ensures this.connected == connected && this.risk == risk && this.normalize == normalize
    {
      this.connected := connected;
      this.risk := risk;
      this.normalize := normalize;
      rules, log := [], [];
    }

    /** Scans the stored rules, newest first. */
    method MatchRule(req: Request, allowed: bool) returns (r: Option<Rule>)
      requires Valid()
      ensures r == Newest(rules, req, normalize, allowed)
    {
      var k := |rules|;
      assert rules[..k] == rules;
      while k > 0
        invariant 0 <= k <= |rules|
        invariant Newest(rules, req, normalize, allowed) == Newest(rules[..k], req, normalize, allowed)
      {
        k := k - 1;
        var rule := rules[k];
        assert rules[..k + 1][..k] == rules[..k] && rules[..k + 1][k] == rule;
        if allowed && rule.mode != AllowForSession && rule.mode != AllowByRule {
          continue;
        }
        if !allowed && rule.mode != DenyMode {
          continue;
        }
        if Covers(rule, req, normalize) {
          return Some(rule);
        }
      }
      return None;
    }

    /** One decision, logged; the rules are only read. */
    method Evaluate(req: Request) returns (d: Decision)
      requires Valid()
      modifies this`log
      ensures Valid()
      ensures d == DecisionFor(rules, req, normalize, risk)
      ensures log == if connected then old(log) + [LogRow(req, d)] else []
    {
      var level := risk(req.action);
      var deny := MatchRule(req, false);
      if deny.Some? {
        d := Decision(req.action, Deny, DenyMode, "Denied by stored rule (" + ScopeName(deny.value.scope) + ")", RuleProvenance(deny.value), level);
      } else {
        var allow := MatchRule(req, true);
        if allow.Some? {
          d := Decision(req.action, Allow, if allow.value.scope == Session then AllowForSession else AllowByRule,
                        "Allowed by stored rule (" + ScopeName(allow.value.scope) + ")", RuleProvenance(allow.value), level);
        } else {
          var reason := "Default for action type '" + ActionName(req.action) + "'";
          var matched := "action:" + ActionName(req.action);
          if level == High {
            d := Decision(req.action, Ask, AskOnce, reason, matched, level);
          } else {
            d := Decision(req.action, Allow, AutoAllow, reason, matched, level);
          }
        }
      }
      if connected {
        log := log + [LogRow(req, d)];
      }
    }

    method AddRule(r: Rule)
      requires Valid()
      modifies this`rules
      ensures Valid()
      ensures rules == if connected then old(rules) + [r] else []
    {
      if connected {
        rules := rules + [r];
      }
    }
  }
}
