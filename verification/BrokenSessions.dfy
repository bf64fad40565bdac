/** Concrete conversations in which a call loses its results, for every agent setup. */
module BrokenSessions {
  import opened Prelude
  import Str = Text
  import opened Messages
  import opened Compaction
  import opened Display
  import opened History
  import opened Sessions

  const FREE := Usage(0, 0, 0, 0)
  const EMPTY := JObject(map[])
  const CALL := Reply(true, [Use("call", "read", EMPTY, "{}")], FREE)
  const ANSWER := Reply(false, [Words("done")], FREE)
  const STOPPED_CALL := Reply(false, [Use("call", "read", EMPTY, "{}")], FREE)

  /** A call to the shell without a command. */
  const BARE_CALL := Reply(true, [Use("call", "bash", EMPTY, "{}")], FREE)

  /** A turn of so many tool rounds and an answer. */
  function Working(rounds: nat): Turn {
    Turn(n => if n < rounds then CALL else ANSWER, n => p => "text")
  }

  /** The smallest context of any model, and a system prompt that fills seven tenths of it. */
  const CONTEXT := 8192

  function LongPrompt(): (text: string)
    ensures |text| == 22940
  {
    seq(22940, i => 'x')
  }

  /** A message whose turn makes so many tool rounds. */
  function Saying(content: string, rounds: nat): UserTurn {
    UserTurn(content, LongPrompt(), CONTEXT, Some("summary"), Some("feedback"), Working(rounds), n => false, n => p => Unasked)
  }

  lemma {:induction false} OneWord(s: string)
    requires forall c | c in s :: !Str.IsSpace(c)
    ensures FirstWord(s) == s
  {
    if s != "" {
      assert forall c | c in s[1..] :: c in s;
      OneWord(s[1..]);
    }
  }

  lemma CompactWord()
    ensures CommandOf("/compact").Compact?
  {
    OneWord("/compact");
    LowerCase();
    NamedCommands(Str.Strip("/compact"[8..]));
    hide FirstWord, Str.Strip, Str.Lower, CommandNamed;
  }

  lemma ReviewWord()
    ensures CommandOf("/review").Review?
  {
    OneWord("/review");
    LowerCase();
    NamedCommands(Str.Strip("/review"[7..]));
    hide FirstWord, Str.Strip, Str.Lower, CommandNamed;
  }

  lemma LowerCase()
    ensures Str.Lower("/compact") == "/compact" && Str.Lower("/review") == "/review"
  {
  }

  lemma NamedCommands(rest: string)
    ensures CommandNamed("/compact", rest).Compact? && CommandNamed("/review", rest).Review?
  {
    assert "/compact"[4] == 'p' && "/commit"[4] == 'm';
    assert "/review"[1] == 'r';
  }

  lemma OrdinaryWord(text: string)
    requires text != "" && text[0] != '/'
    ensures CommandOf(text).Ordinary?
  {
    hide FirstWord, Str.Strip, Str.Lower;
  }

  lemma {:induction false} RoundsOf(s: Setup, content: string, rounds: nat, n: nat)
    requires n <= rounds < s.maxIterations
    ensures Rounds(s, Saying(content, rounds), n) == rounds
    decreases rounds - n
  {
    assert HasUse(CALL.pieces) by {
      assert CALL.pieces[0] in CALL.pieces;
    }
    if n < rounds {
      RoundsOf(s, content, rounds, n + 1);
    }
  }

  lemma AnswerKept()
    ensures !HasUse(ANSWER.pieces) && FinalMessages(ANSWER) == [Message(Assistant, Blocks([Text("done")]))]
    ensures HasUse(STOPPED_CALL.pieces) && HasUse(CALL.pieces)
  {
    assert STOPPED_CALL.pieces[0] in STOPPED_CALL.pieces && CALL.pieces[0] in CALL.pieces;
    assert ANSWER.pieces == [Words("done")];
    OneText();
  }

  lemma OneText()
    ensures FinalMessages(ANSWER) == [Message(Assistant, Blocks([Text("done")]))]
  {
    assert ANSWER.pieces[1..] == [];
    var blank: seq<Piece> := [];
    assert KeptBlocks(blank, NonBlank()) == [];
    Str.StripFixes("done");
    assert NonBlank()("done");
    assert KeptBlocks(ANSWER.pieces, NonBlank()) == [Text("done")] + KeptBlocks(blank, NonBlank());
    assert KeptBlocks(ANSWER.pieces, NonBlank()) == [Text("done")];
  }

  lemma SayingCompletes(s: Setup, content: string, rounds: nat)
    requires rounds < s.maxIterations
    ensures Completes(s, Saying(content, rounds))
  {
    RoundsOf(s, content, rounds, 0);
    AnswerKept();
    hide FinalMessages, KeptBlocks;
    assert Saying(content, rounds).turn.replies(rounds) == ANSWER;
  }

  lemma CallKept(m: Message)
    requires m == Message(Assistant, Blocks(KeptBlocks(CALL.pieces, NonBlank())))
    ensures HasCalls(m)
  {
    AnswerKept();
    KeptIds(CALL.pieces, NonBlank());
  }

  /** The history a first turn of tool rounds leaves, answered or cancelled. */
  lemma WorkIs(s: Setup, u: UserTurn, rounds: nat)
    requires u.content == "work" && u.turn == Working(rounds) && Rounds(s, u, 0) == rounds && 0 < s.keepRecent
    ensures var plain := [UserText("work")] + Exchanges(Working(rounds), NonBlank(), s.safe, rounds);
            AfterSend(s, [], u) == if Ended(s, u) then Compressed(plain + FinalMessages(ANSWER), s.summarize) else plain
  {
    hide *;
    OrdinaryWord(u.content);
    OrdinaryIs(s, [], u);
    CompactionIs(s, [UserText("work")], u);
    CutsAt(s, [UserText("work")], u);
    assert [] + [UserText("work")] == [UserText("work")];
    LoopIs(s, [UserText("work")], u, rounds);
  }

  lemma LoopIs(s: Setup, h: seq<Message>, u: UserTurn, rounds: nat)
    requires u.turn == Working(rounds) && Rounds(s, u, 0) == rounds
    ensures var plain := h + Exchanges(Working(rounds), NonBlank(), s.safe, rounds);
            AfterLoop(s, h, u) == if Ended(s, u) then Compressed(plain + FinalMessages(ANSWER), s.summarize) else plain
  {
    hide Exchanges, FinalMessages, Compressed, Rounds;
    assert u.turn.replies(rounds) == ANSWER;
  }

  lemma WorkCalls(s: Setup, rounds: nat, j: nat)
    requires j < rounds
    ensures var made := Exchanges(Working(rounds), NonBlank(), s.safe, rounds);
            |made| == 2 * rounds && made[2 * j].role == Assistant && HasCalls(made[2 * j])
  {
    var made := Exchanges(Working(rounds), NonBlank(), s.safe, rounds);
    ExchangesAlternate(Working(rounds), NonBlank(), s.safe, rounds, j);
    hide Exchanges, KeptBlocks, HasCalls;
    assert Working(rounds).replies(j) == CALL;
    CallKept(made[2 * j]);
  }

  lemma AnsweredWork(s: Setup, rounds: nat, j: nat)
    requires j < rounds < s.maxIterations && 0 < s.keepRecent
    ensures var h := AfterSend(s, [], Saying("work", rounds));
            |h| == 2 * rounds + 2 && HasCalls(h[2 * j + 1]) && Answered(h)
  {
    var u := Saying("work", rounds);
    hide *;
    SayingIs("work", rounds);
    RoundsOf(s, "work", rounds, 0);
    SayingCompletes(s, "work", rounds);
    NothingYet();
    OrdinaryWord("work");
    OrdinaryIs(s, [], u);
    TurnKeeps(s, [], u);
    AnswerKept();
    WorkIs(s, u, rounds);
    WorkCalls(s, rounds, j);
    var made := Exchanges(Working(rounds), NonBlank(), s.safe, rounds);
    var plain := [UserText("work")] + made + FinalMessages(ANSWER);
    assert plain[2 * j + 1] == made[2 * j];
    AssistantsKept(plain, 2 * j + 1, s.summarize);
    CompletesEnds(s, u);
  }

  lemma AssistantsKept(h: seq<Message>, i: nat, summarize: (string, string) -> string)
    requires i < |h| && h[i].role == Assistant
    ensures |Compressed(h, summarize)| == |h| && Compressed(h, summarize)[i] == h[i]
  {
  }

  lemma CompletesEnds(s: Setup, u: UserTurn)
    requires Completes(s, u)
    ensures Ended(s, u)
  {
    hide Rounds, HasUse, FinalMessages;
  }

  lemma SayingIs(content: string, rounds: nat)
    ensures var u := Saying(content, rounds);
            && u.content == content && u.turn == Working(rounds) && u.contextTokens == CONTEXT && u.system == LongPrompt()
            && u.summary == Some("summary") && u.review == Some("feedback")
  {
  }

  lemma LongCompacts(s: Setup, h: seq<Message>, u: UserTurn)
    requires u.contextTokens == CONTEXT && u.system == LongPrompt() && u.summary == Some("summary")
    ensures Compacts(s, h, u) <==> |h| > 2 * s.keepRecent
  {
    SystemTokens();
    hide SumTokens, EstimateTokens;
  }

  lemma SystemTokens()
    ensures EstimateTokens(Up, LongPrompt()) == 5735
  {
  }

  /** One completed turn from an empty conversation, then "/compact": the history was paired
      and answered, and is not paired any more. */
  lemma CompactSeparates(s: Setup)
    requires 0 < s.keepRecent && s.keepRecent + 1 < s.maxIterations
    ensures var h := AfterSend(s, [], Saying("work", s.keepRecent + 1));
            Answered(h) && Paired(h) && !Paired(AfterSend(s, h, Saying("/compact", 0)))
  {
    hide *;
    var h, u := AfterSend(s, [], Saying("work", s.keepRecent + 1)), Saying("/compact", 0);
    AnsweredWork(s, s.keepRecent + 1, 1);
    AnsweredIsPaired(h);
    CompactWord();
    SayingIs("/compact", 0);
    LongCompacts(s, h, u);
    CompactCommand(s, h, u);
  }

  /** The same turn, then a review, then a turn that compacts. */
  lemma ReviewSeparates(s: Setup)
    requires 1 < s.keepRecent && s.keepRecent + 1 < s.maxIterations
    ensures var h := AfterSend(s, [], Saying("work", s.keepRecent + 1));
            var reviewed := AfterSend(s, h, Saying("/review", 0));
            Answered(h) && Paired(reviewed) && !Paired(AfterSend(s, reviewed, Saying("go on", 0)))
  {
    hide *;
    var h, v, u := AfterSend(s, [], Saying("work", s.keepRecent + 1)), Saying("/review", 0), Saying("go on", 0);
    AnsweredWork(s, s.keepRecent + 1, 2);
    AnsweredIsPaired(h);
    ReviewWord();
    SayingIs("/review", 0);
    ReviewIs(s, h, v);
    UserTextPairs(h, s.prompts.feedback("feedback"));
    NextTurn(s, AfterSend(s, h, v));
    TurnAfterReview(s, h, v, u);
  }

  /** A next turn that completes at once and compacts if the history is long enough. */
  lemma NextTurn(s: Setup, h: seq<Message>)
    requires 0 < s.maxIterations
    ensures var u := Saying("go on", 0);
            && PromptOf(s, u).Some? && Completes(s, u) && |Asked(s, h, u)| == |h| + 1
            && (Compacts(s, Asked(s, h, u), u) <==> |h| + 1 > 2 * s.keepRecent)
  {
    hide *;
    var u := Saying("go on", 0);
    OrdinaryWord("go on");
    SayingIs("go on", 0);
    OrdinaryIs(s, h, u);
    SayingCompletes(s, "go on", 0);
    LongCompacts(s, Asked(s, h, u), u);
  }

  function Cancelled(rounds: nat): UserTurn {
    Saying("work", rounds).(interrupted := n => n == rounds)
  }

  /** A first turn cancelled after its tool rounds, then a turn that compacts. */
  lemma InterruptionSeparates(s: Setup)
    requires 0 < s.keepRecent && s.keepRecent + 1 < s.maxIterations
    ensures var h := AfterSend(s, [], Cancelled(s.keepRecent + 1));
            Asking(h) && !Paired(AfterSend(s, h, Saying("go on", 0)))
  {
    hide *;
    var rounds := s.keepRecent + 1;
    var h, u := AfterSend(s, [], Cancelled(rounds)), Saying("go on", 0);
    CancelledWork(s, rounds);
    NextTurn(s, h);
    AfterInterruption(s, h, u);
  }

  lemma CancelledWork(s: Setup, rounds: nat)
    requires 1 < rounds < s.maxIterations && 0 < s.keepRecent
    ensures var h := AfterSend(s, [], Cancelled(rounds)); |h| == 2 * rounds + 1 && HasCalls(h[3]) && Asking(h)
  {
    var u := Cancelled(rounds);
    CancelledRounds(s, rounds, 0);
    assert u.turn == Working(rounds) && u.content == "work" && u.interrupted(rounds);
    assert !Ended(s, u);
    hide *;
    WorkIs(s, u, rounds);
    WorkCalls(s, rounds, 1);
    NothingYet();
    PushKeeps([], "work");
    assert [] + [UserText("work")] == [UserText("work")];
    CallsContinue(rounds);
    ExchangesKeep([UserText("work")], Working(rounds), NonBlank(), s.safe, rounds);
  }

  lemma CallsContinue(rounds: nat)
    ensures forall k: nat | k < rounds :: Continues(Working(rounds).replies(k))
  {
    AnswerKept();
  }

  lemma {:induction false} CancelledRounds(s: Setup, rounds: nat, n: nat)
    requires n <= rounds < s.maxIterations
    ensures Rounds(s, Cancelled(rounds), n) == rounds
    decreases rounds - n
  {
    AnswerKept();
    if n < rounds {
      CancelledRounds(s, rounds, n + 1);
    }
  }

  /** A response that carries a call but did not stop for tools is stored without results. */
  lemma OpenCallStored(s: Setup)
    requires 0 < s.maxIterations
    ensures !Paired(AfterSend(s, [], Saying("work", 0).(turn := Turn(n => STOPPED_CALL, n => p => "text"))))
  {
    var u := Saying("work", 0).(turn := Turn(n => STOPPED_CALL, n => p => "text"));
    AnswerKept();
    assert u.content == "work" && LeavesCallOpen(s, u);
    hide *;
    NothingIsPaired();
    OrdinaryWord("work");
    OrdinaryIs(s, [], u);
    HarmlessTurn(s, [], u);
    SendPairing(s, [], u);
  }

  /** The bare call passes every check of its types that the loop makes, and cannot be shown. */
  lemma BareCallRaises(s: Setup, consent: Piece -> Consent)
    requires consent(BARE_CALL.pieces[0]) != Denied
    ensures Continues(BARE_CALL) && BreaksOff(s, consent, BARE_CALL)
  {
    var p := BARE_CALL.pieces[0];
    assert p in BARE_CALL.pieces && Missing(Field(p.input, "command"));
    WellTypedShows(p.name, p.input, s.numberOf);
    hide Shows, Spins, Confirms;
    assert CallRaises(s, consent, p);
  }

  const BARE := n => if n == 0 then BARE_CALL else ANSWER

  /** The model calls the shell without a command: the turn breaks off before the result is
      stored, and the call stays open, whatever answer was to come. */
  lemma BareCallStaysOpen(s: Setup)
    requires 0 < s.maxIterations
    ensures var u := Saying("work", 0).(turn := Turn(BARE, n => p => "text"));
            && !Paired(AfterSend(s, [], u)) && !Harmless(s, [], u)
            && (0 < s.keepRecent ==>
                  AfterSend(s, [], u) == [UserText("work"), Message(Assistant, Blocks([ToolUse("call", "bash", "{}")]))])
  {
    var u := Saying("work", 0).(turn := Turn(BARE, n => p => "text"));
    assert u.turn.replies(0) == BARE_CALL && u.consent(0)(BARE_CALL.pieces[0]) == Unasked && !u.interrupted(0);
    assert u.content == "work";
    BareCallRaises(s, u.consent(0));
    BareKept();
    hide *;
    BareRounds(s, u);
    NothingIsPaired();
    OrdinaryWord("work");
    OrdinaryIs(s, [], u);
    HarmlessTurn(s, [], u);
    SendPairing(s, [], u);
    CompactionIs(s, [UserText("work")], u);
    CutsAt(s, [UserText("work")], u);
    assert [] + [UserText("work")] == [UserText("work")];
    RoundsFrom(s, [UserText("work")], u, 0);
    ExchangesNext([UserText("work")], u.turn, s.safe, 0);
  }

  lemma BareRounds(s: Setup, u: UserTurn)
    requires 0 < s.maxIterations && u.turn.replies(0) == BARE_CALL && !u.interrupted(0)
    requires Continues(BARE_CALL) && BreaksOff(s, u.consent(0), BARE_CALL)
    ensures Rounds(s, u, 0) == 0 && LeavesCallOpen(s, u)
  {
    hide BreaksOff;
  }

  lemma BareKept()
    ensures KeptBlocks(BARE_CALL.pieces, NonBlank()) == [ToolUse("call", "bash", "{}")]
  {
    assert BARE_CALL.pieces[1..] == [];
  }
}
