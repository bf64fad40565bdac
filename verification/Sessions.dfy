/** Conversations of many messages: when tool calls and results stay together while turns,
    commands, compactions and summaries of tool results follow each other, and what the
    provider is sent. */
module Sessions {
  import opened Prelude
  import opened Messages
  import opened Compaction
  import opened History
  import OpenAi = OpenAiMessages

  // --- exactly when a message keeps the pairing ---

  /** A compaction takes place. */
  predicate Compacts(s: Setup, h: seq<Message>, u: UserTurn) {
    Full(h, u) && u.summary.Some? && u.summary.value != "" && |h| > 2 * s.keepRecent
  }

  /** A compaction takes place and cuts right after a message with calls. */
  predicate Cuts(s: Setup, h: seq<Message>, u: UserTurn) {
    Compacts(s, h, u) && HasCalls(h[|h| - 2 * s.keepRecent - 1])
  }

  /** The message starts a turn, or compacts. */
  predicate MayCompact(s: Setup, u: UserTurn) {
    PromptOf(s, u).Some? || CommandOf(u.content).Compact?
  }

  /** What a message must not do to a paired history. */
  predicate Harmless(s: Setup, h: seq<Message>, u: UserTurn) {
    && (MayCompact(s, u) ==> !Cuts(s, Asked(s, h, u), u))
    && (PromptOf(s, u).Some? ==> !LeavesCallOpen(s, u))
  }

  lemma PlainUserMessage(text: string)
    ensures var m := UserText(text); !HasCalls(m) && !HasResults(m) && Paired([m])
  {
    var m := UserText(text);
    assert [m][1..] == [];
  }

  lemma UserTextPairs(h: seq<Message>, text: string)
    requires Paired(h)
    ensures Paired(h + [UserText(text)])
  {
    PlainUserMessage(text);
    PairedAppend(h, [UserText(text)]);
  }

  lemma SummarisedIs(words: Wording, h: seq<Message>, keepRecent: nat, summary: string)
    requires summary != "" && |h| > 2 * keepRecent
    ensures Summarised(words, h, keepRecent, Some(summary)) ==
            [SummaryMessage(words, summary), Acknowledgement(words)] + h[|h| - 2 * keepRecent..]
  {
  }

  lemma CompactionIs(s: Setup, h: seq<Message>, u: UserTurn)
    ensures AfterCompaction(s, h, u) ==
            if Compacts(s, h, u) then
              [SummaryMessage(s.words, u.summary.value), Acknowledgement(s.words)] + h[|h| - 2 * s.keepRecent..]
            else h
  {
  }

  /** Compacting a paired history keeps it paired exactly when it does not cut after calls. */
  lemma CompactionPairs(s: Setup, h: seq<Message>, u: UserTurn)
    requires Paired(h)
    ensures Paired(AfterCompaction(s, h, u)) <==> !Cuts(s, h, u)
  {
    hide Paired, HasCalls, Summarised, Full;
    CompactionIs(s, h, u);
    if Compacts(s, h, u) {
      SummarisedIs(s.words, h, s.keepRecent, u.summary.value);
      CompactionPairing(s.words, h, s.keepRecent, u.summary.value);
    }
  }

  /** A history whose last message makes no call is paired if any continuation of it is. */
  lemma BrokenStays(h: seq<Message>, more: seq<Message>)
    requires h != [] && !HasCalls(h[|h| - 1]) && Paired(h + more)
    ensures Paired(h)
  {
    PairedCut(h, more);
  }

  lemma LastIsClosed(s: Setup, h: seq<Message>, u: UserTurn)
    requires h != [] && !HasCalls(h[|h| - 1])
    ensures var start := AfterCompaction(s, h, u); start != [] && !HasCalls(start[|start| - 1])
  {
    hide HasCalls, SummaryMessage, Acknowledgement, Full;
    CompactionIs(s, h, u);
    if Compacts(s, h, u) {
      HeadPaired(s.words, u.summary.value);
    }
  }

  lemma LoopPairsIff(s: Setup, start: seq<Message>, u: UserTurn)
    requires start != [] && !HasCalls(start[|start| - 1])
    ensures Paired(AfterLoop(s, start, u)) <==> Paired(start) && !LeavesCallOpen(s, u)
  {
    hide *;
    if Paired(start) {
      LoopPairing(s, start, u);
    } else if Paired(AfterLoop(s, start, u)) {
      var more := LoopExtends(s, start, u);
      BrokenStays(start, more);
    }
  }

  /** Roles and ids after a loop are those of the history continued. */
  lemma LoopExtends(s: Setup, start: seq<Message>, u: UserTurn) returns (more: seq<Message>)
    ensures Paired(AfterLoop(s, start, u)) ==> Paired(start + more)
  {
    hide Paired, Exchanges, FinalMessages, Compressed, Rounds, Continues;
    var n := Rounds(s, u, 0);
    var made, final := Exchanges(u.turn, NonBlank(), s.safe, n), FinalMessages(u.turn.replies(n));
    if Stored(s, u) {
      more := made + final;
      CompressionKeepsShape(start + made + final, s.summarize);
      assert start + made + final == start + more;
    } else {
      more := made;
    }
  }

  /** Exactly when a message of the user leaves a paired history paired. */
  lemma SendPairing(s: Setup, h: seq<Message>, u: UserTurn)
    requires Paired(h)
    ensures Paired(AfterSend(s, h, u)) <==> Harmless(s, h, u)
  {
    hide Paired, HasCalls, AfterLoop, AfterCompaction, Cuts, LeavesCallOpen, CommandOf;
    var prompt := PromptOf(s, u);
    if prompt.Some? {
      UserTextPairs(h, prompt.value);
      PlainUserMessage(prompt.value);
      CompactionPairs(s, Asked(s, h, u), u);
      LastIsClosed(s, Asked(s, h, u), u);
      LoopPairsIff(s, AfterCompaction(s, Asked(s, h, u), u), u);
    } else if CommandOf(u.content).Compact? {
      CompactionPairs(s, h, u);
    } else if CommandOf(u.content).Clear? {
      NothingIsPaired();
    } else if CommandOf(u.content).Review? && u.review.Some? {
      UserTextPairs(h, s.prompts.feedback(u.review.value));
    }
  }

  lemma OrdinaryIs(s: Setup, h: seq<Message>, u: UserTurn)
    requires CommandOf(u.content).Ordinary?
    ensures PromptOf(s, u) == Some(u.content) && Asked(s, h, u) == h + [UserText(u.content)]
    ensures AfterSend(s, h, u) == AfterLoop(s, AfterCompaction(s, Asked(s, h, u), u), u)
  {
    hide CommandOf, AfterCompaction, AfterLoop;
  }

  lemma HarmlessTurn(s: Setup, h: seq<Message>, u: UserTurn)
    requires PromptOf(s, u).Some?
    ensures Harmless(s, h, u) <==> !Cuts(s, Asked(s, h, u), u) && !LeavesCallOpen(s, u)
  {
    hide PromptOf, Cuts, LeavesCallOpen, Asked;
  }

  lemma NothingIsPaired()
    ensures Paired([])
  {
  }

  function AfterAll(s: Setup, h: seq<Message>, us: seq<UserTurn>): seq<Message>
    decreases |us|
  {
    if us == [] then h else AfterAll(s, AfterSend(s, h, us[0]), us[1..])
  }

  /** The history is paired now and after every message. */
  predicate AlwaysPaired(s: Setup, h: seq<Message>, us: seq<UserTurn>)
    decreases |us|
  {
    Paired(h) && (us == [] || AlwaysPaired(s, AfterSend(s, h, us[0]), us[1..]))
  }

  predicate AllHarmless(s: Setup, h: seq<Message>, us: seq<UserTurn>)
    decreases |us|
  {
    us == [] || (Harmless(s, h, us[0]) && AllHarmless(s, AfterSend(s, h, us[0]), us[1..]))
  }

  /** Over every conversation, commands included, from any paired history, a restored one
      included: tool calls always stay directly followed by their results exactly when no
      compaction cuts right after calls and no turn ends with open calls. */
  lemma {:induction false} ConversationPairedIff(s: Setup, h: seq<Message>, us: seq<UserTurn>)
    requires Paired(h)
    ensures AlwaysPaired(s, h, us) <==> AllHarmless(s, h, us)
    decreases |us|
  {
    hide AfterSend, Harmless, Paired;
    if us != [] {
      SendPairing(s, h, us[0]);
      if Harmless(s, h, us[0]) {
        ConversationPairedIff(s, AfterSend(s, h, us[0]), us[1..]);
      } else {
        NotPairedNow(s, AfterSend(s, h, us[0]), us[1..]);
      }
    }
  }

  lemma NotPairedNow(s: Setup, h: seq<Message>, us: seq<UserTurn>)
    requires !Paired(h)
    ensures !AlwaysPaired(s, h, us)
  {
  }

  // --- conversations of completed turns ---

  /** From position n on the roles alternate, beginning with the assistant. */
  predicate AlternatesFrom(h: seq<Message>, n: nat) {
    forall i | n <= i < |h| :: h[i].role == (if (i - n) % 2 == 0 then Assistant else User)
  }

  /** A paired history of n messages without calls, then alternating roles: what a first user
      message, or a summary and its acknowledgement, start off. */
  predicate Shape(h: seq<Message>, n: nat) {
    && Paired(h) && 1 <= n <= |h| && h[0].role == User
    && (forall i | 0 <= i < n :: !HasCalls(h[i]))
    && AlternatesFrom(h, n)
  }

  /** A user message came last: the model is asked next. */
  ghost predicate Asking(h: seq<Message>) {
    exists n: nat :: Shape(h, n) && (|h| - n) % 2 == 0
  }

  /** The conversation has not begun, or its last turn was answered. */
  ghost predicate Answered(h: seq<Message>) {
    h == [] || exists n: nat :: Shape(h, n) && (|h| - n) % 2 == 1
  }

  /** A turn that runs to a stored answer without calls. */
  predicate Completes(s: Setup, u: UserTurn) {
    var r := u.turn.replies(Rounds(s, u, 0));
    Ended(s, u) && !HasUse(r.pieces) && FinalMessages(r) != []
  }

  // --- the steps of a turn ---

  lemma PushKeeps(h: seq<Message>, text: string)
    requires Answered(h)
    ensures Asking(h + [UserText(text)])
  {
    var m := UserText(text);
    PlainUserMessage(text);
    hide Paired, HasCalls, HasResults;
    if h == [] {
      assert h + [m] == [m];
      assert Shape([m], 1);
    } else {
      var n: nat :| Shape(h, n) && (|h| - n) % 2 == 1;
      PairedAppend(h, [m]);
      assert Shape(h + [m], n);
    }
  }

  /** The cut of a compaction falls between whole exchanges, so it separates no call from
      its results, and what is left is again a history in this shape. */
  lemma CompactionKeeps(s: Setup, h: seq<Message>, u: UserTurn)
    requires Asking(h)
    ensures Asking(AfterCompaction(s, h, u))
  {
    hide *;
    CutsAt(s, h, u);
    CompactionIs(s, h, u);
    if Compacts(s, h, u) {
      var n := AskingShape(h);
      var split := |h| - 2 * s.keepRecent;
      assert |h| - split == 2 * s.keepRecent;
      AskingIsPaired(h);
      BeforeCut(h, n, split - 1);
      CompactionPairs(s, h, u);
      NewShape(s.words, u.summary.value, h, n, split);
      NewHeadParity(n, split, |h|);
      ShapeAsks(AfterCompaction(s, h, u), NewHead(n, split));
    }
  }

  lemma AskingShape(h: seq<Message>) returns (n: nat)
    requires Asking(h)
    ensures Shape(h, n) && n <= |h| && (|h| - n) % 2 == 0
  {
    n :| Shape(h, n) && (|h| - n) % 2 == 0;
  }

  lemma AnsweredShape(h: seq<Message>) returns (n: nat)
    requires Answered(h) && h != []
    ensures Shape(h, n) && n <= |h| && (|h| - n) % 2 == 1
  {
    n :| Shape(h, n) && (|h| - n) % 2 == 1;
  }

  lemma CutsAt(s: Setup, h: seq<Message>, u: UserTurn)
    ensures Compacts(s, h, u) ==> |h| > 2 * s.keepRecent && u.summary.Some?
    ensures Cuts(s, h, u) <==> Compacts(s, h, u) && HasCalls(h[|h| - 2 * s.keepRecent - 1])
  {
  }

  lemma ShapeAsks(h: seq<Message>, n: nat)
    requires Shape(h, n) && (|h| - n) % 2 == 0
    ensures Asking(h)
  {
  }

  /** Where roles begin to alternate once a history was cut. */
  function NewHead(n: nat, split: nat): nat {
    if split <= n then 2 + n - split else if (split - n) % 2 == 0 then 2 else 1
  }

  lemma NewHeadParity(n: nat, split: nat, size: nat)
    requires n <= size && split <= size && (size - split) % 2 == 0
    ensures NewHead(n, split) <= 2 + size - split && (2 + size - split - NewHead(n, split)) % 2 == (size - n) % 2
  {
  }

  /** A summary and its acknowledgement before the kept part of a history in shape. */
  lemma NewShape(words: Wording, summary: string, h: seq<Message>, n: nat, split: nat)
    requires Shape(h, n) && 1 <= split <= |h|
    requires Paired([SummaryMessage(words, summary), Acknowledgement(words)] + h[split..])
    ensures Shape([SummaryMessage(words, summary), Acknowledgement(words)] + h[split..], NewHead(n, split))
  {
    HeadPaired(words, summary);
    HeadRoles(words, summary);
    hide Paired, HasCalls, SummaryMessage, Acknowledgement;
    var after, m := [SummaryMessage(words, summary), Acknowledgement(words)] + h[split..], NewHead(n, split);
    assert forall i | 2 <= i < |after| :: after[i] == h[i - 2 + split];
    forall i | m <= i < |after| ensures after[i].role == (if (i - m) % 2 == 0 then Assistant else User) {
      if i >= 2 {
        assert (i - 2 + split - n) % 2 == (i - m) % 2;
      }
    }
  }

  lemma HeadRoles(words: Wording, summary: string)
    ensures SummaryMessage(words, summary).role == User && Acknowledgement(words).role == Assistant
  {
  }

  /** A message before an even distance from the end makes no call. */
  lemma BeforeCut(h: seq<Message>, n: nat, i: nat)
    requires Shape(h, n) && i < |h| && (|h| - n) % 2 == 0 && (|h| - (i + 1)) % 2 == 0
    ensures !HasCalls(h[i])
  {
    hide Paired, HasCalls;
    if i >= n {
      assert (i - n) % 2 == 1 && h[i].role == User;
      CallersAreAssistants(h, i);
    }
  }

  lemma ExchangesKeep(h: seq<Message>, t: Turn, keep: string -> bool, safe: string -> bool, n: nat)
    requires Asking(h) && forall k: nat | k < n :: Continues(t.replies(k))
    ensures Asking(h + Exchanges(t, keep, safe, n))
  {
    hide Paired, HasCalls, HasResults, Exchanges;
    var more := Exchanges(t, keep, safe, n);
    var after := h + more;
    var k: nat :| Shape(h, k) && (|h| - k) % 2 == 0;
    ExchangesPaired(t, keep, safe, n);
    PairedAppend(h, more);
    RolesOfExchanges(t, keep, safe, n);
    forall i | k <= i < |after| ensures after[i].role == (if (i - k) % 2 == 0 then Assistant else User) {
      if i >= |h| {
        assert after[i] == more[i - |h|];
        assert (i - |h|) % 2 == (i - k) % 2;
      }
    }
    assert Shape(after, k);
  }

  lemma RolesOfExchanges(t: Turn, keep: string -> bool, safe: string -> bool, n: nat)
    ensures var more := Exchanges(t, keep, safe, n); |more| % 2 == 0 && AlternatesFrom(more, 0)
  {
    hide Exchanges;
    var more := Exchanges(t, keep, safe, n);
    if n == 0 {
      NoExchanges(t, keep, safe);
    } else {
      ExchangesAlternate(t, keep, safe, n, 0);
      forall i | 0 <= i < |more| ensures more[i].role == (if i % 2 == 0 then Assistant else User) {
        ExchangesAlternate(t, keep, safe, n, i / 2);
      }
    }
  }

  lemma NoExchanges(t: Turn, keep: string -> bool, safe: string -> bool)
    ensures Exchanges(t, keep, safe, 0) == []
  {
  }

  lemma FinalKeeps(h: seq<Message>, r: Reply)
    requires Asking(h) && !HasUse(r.pieces) && FinalMessages(r) != []
    ensures Answered(h + FinalMessages(r))
  {
    FinalIsAssistant(r);
    FinalPaired(h, r);
    hide Paired, HasCalls, FinalMessages, HasUse;
    var n: nat :| Shape(h, n) && (|h| - n) % 2 == 0;
    assert Shape(h + FinalMessages(r), n);
  }

  lemma FinalIsAssistant(r: Reply)
    ensures FinalMessages(r) != [] ==> |FinalMessages(r)| == 1 && FinalMessages(r)[0].role == Assistant
  {
  }

  /** Answered depends on roles and ids only. */
  lemma ShapeKept(g: seq<Message>, h: seq<Message>)
    requires SameShape(g, h) && Answered(g)
    ensures Answered(h)
  {
    if g != [] {
      var n := AnsweredShape(g);
      ShapeDecidesPairing(g, h);
      forall i | 0 <= i < |g| ensures HasCalls(g[i]) == HasCalls(h[i]) && g[i].role == h[i].role {
        assert SameIds(g[i], h[i]);
        IdsDecide(g[i], h[i]);
      }
      hide Paired, HasCalls, SameShape;
      assert Shape(h, n);
    }
  }

  // --- whole conversations ---

  /** A message that starts a turn which completes leaves an answered conversation answered,
      and so paired, whether or not its history is compacted first and whatever the model and
      the tools answer. */
  lemma TurnKeeps(s: Setup, h: seq<Message>, u: UserTurn)
    requires Answered(h) && PromptOf(s, u).Some? && Completes(s, u)
    ensures Answered(AfterSend(s, h, u)) && Harmless(s, h, u)
  {
    TurnFromAsked(s, h, u);
    AnsweredIsPaired(h);
    AnsweredIsPaired(AfterSend(s, h, u));
    hide *;
    SendPairing(s, h, u);
  }

  lemma TurnFromAsked(s: Setup, h: seq<Message>, u: UserTurn)
    requires Answered(h) && PromptOf(s, u).Some? && Completes(s, u)
    ensures Answered(AfterSend(s, h, u)) && Asking(AfterCompaction(s, Asked(s, h, u), u))
  {
    hide Asking, Answered, Exchanges, FinalMessages, Compressed, Summarised, HasUse, CommandOf, Full;
    var asked := Asked(s, h, u);
    PushKeeps(h, PromptOf(s, u).value);
    CompactionKeeps(s, asked, u);
    var start := AfterCompaction(s, asked, u);
    var n := Rounds(s, u, 0);
    ExchangesKeep(start, u.turn, NonBlank(), s.safe, n);
    var plain := start + Exchanges(u.turn, NonBlank(), s.safe, n);
    FinalKeeps(plain, u.turn.replies(n));
    CompressionKeepsShape(plain + FinalMessages(u.turn.replies(n)), s.summarize);
    ShapeKept(plain + FinalMessages(u.turn.replies(n)), AfterLoop(s, start, u));
  }

  /** "/compact" between turns: on an answered conversation it keeps the pairing, and leaves
      it answered, exactly when no compaction takes place or the message before the cut makes
      no call. */
  lemma CompactCommand(s: Setup, h: seq<Message>, u: UserTurn)
    requires Answered(h) && CommandOf(u.content).Compact?
    ensures Paired(AfterSend(s, h, u)) <==> !Compacts(s, h, u) || !HasCalls(h[|h| - 2 * s.keepRecent - 1])
    ensures Paired(AfterSend(s, h, u)) ==> Answered(AfterSend(s, h, u))
  {
    hide *;
    CompactIs(s, h, u);
    AnsweredIsPaired(h);
    CutsAt(s, h, u);
    CompactionIs(s, h, u);
    CompactionPairs(s, h, u);
    if Compacts(s, h, u) && Paired(AfterSend(s, h, u)) {
      var n := AnsweredShape(h);
      var split := |h| - 2 * s.keepRecent;
      assert |h| - split == 2 * s.keepRecent;
      NewShape(s.words, u.summary.value, h, n, split);
      NewHeadParity(n, split, |h|);
      ShapeAnswers(AfterSend(s, h, u), NewHead(n, split));
    }
  }

  lemma CompactIs(s: Setup, h: seq<Message>, u: UserTurn)
    requires CommandOf(u.content).Compact?
    ensures AfterSend(s, h, u) == AfterCompaction(s, h, u)
  {
    hide CommandOf, AfterCompaction, AfterLoop;
  }

  lemma ReviewIs(s: Setup, h: seq<Message>, u: UserTurn)
    requires CommandOf(u.content).Review? && u.review.Some?
    ensures AfterSend(s, h, u) == h + [UserText(s.prompts.feedback(u.review.value))]
  {
    hide CommandOf, AfterCompaction, AfterLoop;
  }

  lemma ShapeAnswers(h: seq<Message>, n: nat)
    requires Shape(h, n) && (|h| - n) % 2 == 1
    ensures Answered(h)
  {
  }

  /** Every turn of the conversation completes, and no review is added to it. */
  predicate Tame(s: Setup, u: UserTurn) {
    (PromptOf(s, u).Some? ==> Completes(s, u)) && (CommandOf(u.content).Review? ==> u.review.None?)
  }

  /** No "/compact" cuts right after calls. */
  predicate CompactsFit(s: Setup, h: seq<Message>, us: seq<UserTurn>)
    decreases |us|
  {
    us == [] ||
    ((CommandOf(us[0].content).Compact? ==> !Cuts(s, h, us[0])) && CompactsFit(s, AfterSend(s, h, us[0]), us[1..]))
  }

  lemma TameStep(s: Setup, h: seq<Message>, u: UserTurn)
    requires Answered(h) && Tame(s, u)
    ensures Harmless(s, h, u) <==> (CommandOf(u.content).Compact? ==> !Cuts(s, h, u))
    ensures Harmless(s, h, u) ==> Answered(AfterSend(s, h, u))
  {
    AnsweredIsPaired(h);
    SendPairing(s, h, u);
    if PromptOf(s, u).Some? {
      TurnKeeps(s, h, u);
    } else if CommandOf(u.content).Compact? {
      CompactCommand(s, h, u);
    }
    hide Answered, AfterLoop, AfterCompaction, Cuts, Completes, LeavesCallOpen, Paired;
    NothingYet();
  }

  /** Over a conversation of completed turns, with compactions wherever the estimate calls
      for them and for every number of messages they keep, every tool call stays directly
      followed by its results exactly when no "/compact" cuts right after calls: the
      compactions inside turns never do. */
  lemma {:induction false} ConversationStaysPaired(s: Setup, h: seq<Message>, us: seq<UserTurn>)
    requires Answered(h) && forall u | u in us :: Tame(s, u)
    ensures AlwaysPaired(s, h, us) <==> CompactsFit(s, h, us)
    ensures CompactsFit(s, h, us) ==> Answered(AfterAll(s, h, us))
    decreases |us|
  {
    AnsweredIsPaired(h);
    hide AfterSend, Tame, Answered, Harmless, Cuts, Paired, CommandOf;
    if us != [] {
      SendPairing(s, h, us[0]);
      TameStep(s, h, us[0]);
      if Harmless(s, h, us[0]) {
        ConversationStaysPaired(s, AfterSend(s, h, us[0]), us[1..]);
      } else {
        NotPairedNow(s, AfterSend(s, h, us[0]), us[1..]);
      }
    }
  }

  lemma AnsweredIsPaired(h: seq<Message>)
    requires Answered(h)
    ensures Paired(h)
  {
  }

  lemma AskingIsPaired(h: seq<Message>)
    requires Asking(h)
    ensures Paired(h)
  {
  }

  lemma NothingYet()
    ensures Answered([]) && CallsNamed([])
  {
  }

  /** The turn after a review, which leaves two user messages in a row: it keeps the pairing
      exactly when it does not compact or the message its cut follows makes no call. */
  lemma TurnAfterReview(s: Setup, h: seq<Message>, review: UserTurn, u: UserTurn)
    requires Answered(h) && CommandOf(review.content).Review? && review.review.Some?
    requires PromptOf(s, u).Some? && Completes(s, u) && 0 < s.keepRecent
    ensures var reviewed := AfterSend(s, h, review);
            Paired(AfterSend(s, reviewed, u)) <==>
              !Compacts(s, Asked(s, reviewed, u), u) || !HasCalls(h[|h| + 1 - 2 * s.keepRecent])
  {
    var reviewed := AfterSend(s, h, review);
    hide *;
    Reviewed(s, h, review);
    CompletedPairing(s, reviewed, u);
    var cut := |h| + 1 - 2 * s.keepRecent;
    if Compacts(s, Asked(s, reviewed, u), u) {
      assert 0 <= cut < |h| && reviewed[cut] == h[cut];
    }
  }

  lemma Reviewed(s: Setup, h: seq<Message>, review: UserTurn)
    requires Answered(h) && CommandOf(review.content).Review? && review.review.Some?
    ensures var reviewed := AfterSend(s, h, review);
            Paired(reviewed) && |reviewed| == |h| + 1 && forall i | 0 <= i < |h| :: reviewed[i] == h[i]
  {
    hide *;
    ReviewIs(s, h, review);
    AnsweredIsPaired(h);
    UserTextPairs(h, s.prompts.feedback(review.review.value));
  }

  /** A completed turn on any paired history. */
  lemma CompletedPairing(s: Setup, h: seq<Message>, u: UserTurn)
    requires Paired(h) && PromptOf(s, u).Some? && Completes(s, u)
    ensures var asked := Asked(s, h, u);
            && |asked| == |h| + 1 && (forall i | 0 <= i < |h| :: asked[i] == h[i]) && (Compacts(s, asked, u) ==> |asked| > 2 * s.keepRecent)
            && (Paired(AfterSend(s, h, u)) <==> !Compacts(s, asked, u) || !HasCalls(asked[|asked| - 2 * s.keepRecent - 1]))
  {
    hide *;
    AskedIs(s, h, u);
    CompletesClosed(s, u);
    CutsAt(s, Asked(s, h, u), u);
    HarmlessTurn(s, h, u);
    SendPairing(s, h, u);
  }

  lemma AskedIs(s: Setup, h: seq<Message>, u: UserTurn)
    requires PromptOf(s, u).Some?
    ensures var asked := Asked(s, h, u); |asked| == |h| + 1 && forall i | 0 <= i < |h| :: asked[i] == h[i]
  {
    hide PromptOf;
  }

  lemma CompletesClosed(s: Setup, u: UserTurn)
    requires Completes(s, u)
    ensures !LeavesCallOpen(s, u)
  {
  }

  /** The turn after one that was interrupted after its tool results, which leaves two user
      messages in a row as well. */
  lemma AfterInterruption(s: Setup, h: seq<Message>, u: UserTurn)
    requires Asking(h) && PromptOf(s, u).Some? && Completes(s, u) && 0 < s.keepRecent
    ensures Paired(AfterSend(s, h, u)) <==>
            !Compacts(s, Asked(s, h, u), u) || !HasCalls(h[|h| - 2 * s.keepRecent])
  {
    hide *;
    AskingIsPaired(h);
    CompletedPairing(s, h, u);
  }

  // --- what the provider is sent ---

  /** Every call the model makes in the turn carries an id. */
  ghost predicate Named(u: UserTurn) {
    forall k: nat :: "" !in IdsOf(u.turn.replies(k).pieces)
  }

  /** The history the model is given for the n-th time in a turn. */
  function Request(s: Setup, h: seq<Message>, u: UserTurn, n: nat): seq<Message> {
    AfterCompaction(s, Asked(s, h, u), u) + Exchanges(u.turn, NonBlank(), s.safe, n)
  }

  lemma NamedConcat(a: seq<Message>, b: seq<Message>)
    ensures CallsNamed(a + b) <==> CallsNamed(a) && CallsNamed(b)
  {
    assert forall m :: m in a + b <==> m in a || m in b;
  }

  lemma ExchangeNamed(r: Reply, keep: string -> bool, safe: string -> bool, run: Piece -> string)
    requires "" !in IdsOf(r.pieces)
    ensures CallsNamed(Exchange(r, keep, safe, run))
  {
    KeptIds(r.pieces, keep);
    ResultsForIds(r.pieces, safe, true, run);
    ResultsForIds(r.pieces, safe, false, run);
    UseIdsConcat(ResultsFor(r.pieces, safe, true, run), ResultsFor(r.pieces, safe, false, run));
    hide UseIds, IdsOf, KeptBlocks, ResultsFor;
  }

  lemma {:induction false} ExchangesNamed(u: UserTurn, keep: string -> bool, safe: string -> bool, n: nat)
    requires Named(u)
    ensures CallsNamed(Exchanges(u.turn, keep, safe, n))
  {
    if n == 0 {
      NothingYet();
    } else {
      ExchangesBack(u.turn, keep, safe, n);
      hide Exchanges, Exchange, CallsNamed;
      ExchangesNamed(u, keep, safe, n - 1);
      var r := u.turn.replies(n - 1);
      assert "" !in IdsOf(r.pieces);
      ExchangeNamed(r, keep, safe, u.turn.run(n - 1));
      NamedConcat(Exchanges(u.turn, keep, safe, n - 1), Exchange(r, keep, safe, u.turn.run(n - 1)));
    }
  }

  lemma UserTextNamed(h: seq<Message>, text: string)
    ensures CallsNamed(h + [UserText(text)]) <==> CallsNamed(h)
  {
    NamedConcat(h, [UserText(text)]);
  }

  lemma CompactionNamed(s: Setup, h: seq<Message>, u: UserTurn)
    requires CallsNamed(h)
    ensures CallsNamed(AfterCompaction(s, h, u))
  {
    CompactionIs(s, h, u);
    if Compacts(s, h, u) {
      var split := |h| - 2 * s.keepRecent;
      HeadNamed(s.words, u.summary.value);
      hide CallsNamed, SummaryMessage, Acknowledgement, AfterCompaction;
      assert h == h[..split] + h[split..];
      NamedConcat(h[..split], h[split..]);
      NamedConcat([SummaryMessage(s.words, u.summary.value), Acknowledgement(s.words)], h[split..]);
    }
  }

  lemma HeadNamed(words: Wording, summary: string)
    ensures CallsNamed([SummaryMessage(words, summary), Acknowledgement(words)])
  {
    OneBlock(Text(words.reply));
  }

  lemma RequestNamed(s: Setup, h: seq<Message>, u: UserTurn, n: nat)
    requires CallsNamed(h) && Named(u) && PromptOf(s, u).Some?
    ensures CallsNamed(Request(s, h, u, n))
  {
    hide Exchanges, Named, CallsNamed, AfterCompaction, CommandOf, PromptOf;
    UserTextNamed(h, PromptOf(s, u).value);
    CompactionNamed(s, Asked(s, h, u), u);
    ExchangesNamed(u, NonBlank(), s.safe, n);
    NamedConcat(AfterCompaction(s, Asked(s, h, u), u), Exchanges(u.turn, NonBlank(), s.safe, n));
  }

  lemma LoopNamed(s: Setup, h: seq<Message>, u: UserTurn)
    requires CallsNamed(h) && Named(u) && PromptOf(s, u).Some?
    ensures CallsNamed(AfterLoop(s, AfterCompaction(s, Asked(s, h, u), u), u))
  {
    var n := Rounds(s, u, 0);
    var r := u.turn.replies(n);
    assert "" !in IdsOf(r.pieces);
    hide Exchanges, Named, AfterCompaction, CommandOf;
    RequestNamed(s, h, u, n);
    var plain := Request(s, h, u, n);
    if Stored(s, u) {
      KeptIds(r.pieces, NonBlank());
      hide UseIds, IdsOf, KeptBlocks, Compressed;
      NamedConcat(plain, FinalMessages(r));
      CompressionKeepsShape(plain + FinalMessages(r), s.summarize);
      NamedAlike(plain + FinalMessages(r), Compressed(plain + FinalMessages(r), s.summarize));
    }
  }

  lemma NamedAlike(g: seq<Message>, h: seq<Message>)
    requires SameShape(g, h) && CallsNamed(g)
    ensures CallsNamed(h)
  {
    forall m | m in h ensures "" !in UseIds(BlocksOf(m)) {
      var i :| 0 <= i < |h| && h[i] == m;
      assert SameIds(g[i], h[i]) && g[i] in g;
    }
  }

  lemma SendNamed(s: Setup, h: seq<Message>, u: UserTurn)
    requires CallsNamed(h) && Named(u)
    ensures CallsNamed(AfterSend(s, h, u))
  {
    hide CallsNamed, Named, CommandOf, AfterLoop, AfterCompaction;
    match CommandOf(u.content)
    case Clear => NothingYet();
    case Compact => CompactionNamed(s, h, u);
    case Review =>
      if u.review.Some? {
        UserTextNamed(h, s.prompts.feedback(u.review.value));
      }
    case _ =>
      if PromptOf(s, u).Some? {
        LoopNamed(s, h, u);
      }
  }

  lemma {:induction false} ConversationNamed(s: Setup, h: seq<Message>, us: seq<UserTurn>)
    requires CallsNamed(h) && forall u | u in us :: Named(u)
    ensures CallsNamed(AfterAll(s, h, us))
    decreases |us|
  {
    hide AfterSend, Named, CallsNamed;
    if us != [] {
      SendNamed(s, h, us[0]);
      ConversationNamed(s, AfterSend(s, h, us[0]), us[1..]);
    }
  }

  lemma {:induction false} HarmlessPaired(s: Setup, h: seq<Message>, us: seq<UserTurn>)
    requires Paired(h) && AllHarmless(s, h, us)
    ensures Paired(AfterAll(s, h, us))
    decreases |us|
  {
    hide AfterSend, Harmless, Paired;
    if us != [] {
      SendPairing(s, h, us[0]);
      HarmlessPaired(s, AfterSend(s, h, us[0]), us[1..]);
    }
  }

  lemma AskedPairs(s: Setup, h: seq<Message>, u: UserTurn)
    requires Paired(h) && PromptOf(s, u).Some?
    ensures var asked := Asked(s, h, u); Paired(asked) && asked != [] && !HasCalls(asked[|asked| - 1])
  {
    hide Paired, HasCalls, PromptOf;
    UserTextPairs(h, PromptOf(s, u).value);
    PlainUserMessage(PromptOf(s, u).value);
  }

  lemma RequestPairs(s: Setup, h: seq<Message>, u: UserTurn, n: nat)
    requires Paired(h) && PromptOf(s, u).Some? && n <= Rounds(s, u, 0) && !Cuts(s, Asked(s, h, u), u)
    ensures Paired(Request(s, h, u, n))
  {
    hide Paired, Exchanges, Cuts, AfterCompaction, PromptOf, Asked;
    AskedPairs(s, h, u);
    CompactionPairs(s, Asked(s, h, u), u);
    ExchangesPaired(u.turn, NonBlank(), s.safe, n);
    PairedAppend(AfterCompaction(s, Asked(s, h, u), u), Exchanges(u.turn, NonBlank(), s.safe, n));
  }

  /** A compaction that cuts right after calls makes all that follows break the protocol: it
      begins with results whose calls are gone. */
  lemma CutBreaks(s: Setup, asked: seq<Message>, u: UserTurn, more: seq<Message>, mint: Message -> nat -> string)
    requires Paired(asked) && CallsNamed(asked) && Cuts(s, asked, u) && !HasCalls(asked[|asked| - 1])
    ensures !OpenAi.Accepts(OpenAi.Converted(AfterCompaction(s, asked, u) + more, mint), multiset{})
  {
    hide *;
    var split := |asked| - 2 * s.keepRecent;
    CutsAt(s, asked, u);
    CompactionIs(s, asked, u);
    var head := [SummaryMessage(s.words, u.summary.value), Acknowledgement(s.words)];
    HeadPaired(s.words, u.summary.value);
    HeadNamed(s.words, u.summary.value);
    AnswerFollows(asked, split - 1);
    NamedAt(asked, split - 1);
    var rest := asked[split..] + more;
    assert head + asked[split..] + more == head + rest && rest[0] == asked[split];
    OpenAi.LooseResultsBreak(head, asked[split - 1], rest, mint);
  }

  lemma NamedAt(h: seq<Message>, i: nat)
    requires CallsNamed(h) && i < |h|
    ensures "" !in UseIds(BlocksOf(h[i]))
  {
  }

  lemma CutRequestBreaks(s: Setup, h: seq<Message>, u: UserTurn, n: nat, mint: Message -> nat -> string)
    ensures Paired(h) && CallsNamed(h) && PromptOf(s, u).Some? && Cuts(s, Asked(s, h, u), u) ==>
              !OpenAi.Accepts(OpenAi.Converted(Request(s, h, u, n), mint), multiset{})
  {
    hide *;
    if Paired(h) && CallsNamed(h) && PromptOf(s, u).Some? && Cuts(s, Asked(s, h, u), u) {
      AskedPairs(s, h, u);
      AskedNamed(s, h, u);
      CutBreaks(s, Asked(s, h, u), u, Exchanges(u.turn, NonBlank(), s.safe, n), mint);
      RequestIs(s, h, u, n);
    }
  }

  lemma RequestIs(s: Setup, h: seq<Message>, u: UserTurn, n: nat)
    ensures Request(s, h, u, n) == AfterCompaction(s, Asked(s, h, u), u) + Exchanges(u.turn, NonBlank(), s.safe, n)
  {
  }

  lemma AskedNamed(s: Setup, h: seq<Message>, u: UserTurn)
    requires CallsNamed(h) && PromptOf(s, u).Some?
    ensures CallsNamed(Asked(s, h, u))
  {
    hide PromptOf;
    UserTextNamed(h, PromptOf(s, u).value);
  }

  lemma {:induction false} AnswerFollows(h: seq<Message>, i: nat)
    requires Paired(h) && i < |h| && HasCalls(h[i])
    ensures i + 1 < |h| && Answers(h[i], h[i + 1])
    decreases |h|
  {
    if HasCalls(h[0]) {
      AnswerHasResults(h[0], h[1]);
      CallsExcludeResults(h[1]);
      hide HasResults, HasCalls, Answers;
      if i > 1 {
        AnswerFollows(h[2..], i - 2);
      }
    } else if i > 0 {
      AnswerFollows(h[1..], i - 1);
    }
  }

  /** Every request, after any conversation from any paired history, a restored one included,
      in which no message did harm: it is converted to
      messages that follow the tool protocol exactly when each of its calls carries an id,
      provided its compaction does not cut right after calls; and if all calls carry ids,
      exactly when it does not. */
  lemma EveryRequestFollowsProtocol(s: Setup, start: seq<Message>, us: seq<UserTurn>, u: UserTurn, n: nat, mint: Message -> nat -> string)
    requires Paired(start) && AllHarmless(s, start, us) && PromptOf(s, u).Some? && n <= Rounds(s, u, 0)
    ensures var h := AfterAll(s, start, us);
            var sent := OpenAi.Alternated(OpenAi.Converted(Request(s, h, u, n), mint));
            var cut := Cuts(s, Asked(s, h, u), u);
            && (!cut ==> (OpenAi.Protocol(sent, multiset{}) <==> CallsNamed(Request(s, h, u, n))))
            && (CallsNamed(h) && Named(u) ==> (OpenAi.Protocol(sent, multiset{}) <==> !cut))
  {
    var h := AfterAll(s, start, us);
    hide Named, Cuts, Request, Paired, CallsNamed, PromptOf, Asked, Harmless;
    HarmlessPaired(s, start, us);
    var request := Request(s, h, u, n);
    if !Cuts(s, Asked(s, h, u), u) {
      RequestPairs(s, h, u, n);
      OpenAi.ConversionKeepsProtocol(request, mint);
      if CallsNamed(h) && Named(u) {
        RequestNamed(s, h, u, n);
      }
    } else if CallsNamed(h) {
      CutRequestBreaks(s, h, u, n, mint);
      OpenAi.AlternationKeepsProtocol(OpenAi.Converted(request, mint));
    }
  }

  /** Over a conversation of completed turns whose calls carry ids, from the beginning or from
      any answered history, and in which no "/compact" cuts right after calls, every request
      of the next turn follows the protocol. */
  lemma EveryRequestOfCompletedTurns(s: Setup, start: seq<Message>, us: seq<UserTurn>, u: UserTurn, n: nat, mint: Message -> nat -> string)
    requires forall t | t in us :: Tame(s, t) && Named(t)
    requires Answered(start) && CallsNamed(start) && CompactsFit(s, start, us) && Named(u) && PromptOf(s, u).Some? && n <= Rounds(s, u, 0)
    ensures OpenAi.Protocol(OpenAi.Alternated(OpenAi.Converted(Request(s, AfterAll(s, start, us), u, n), mint)), multiset{})
  {
    var h := AfterAll(s, start, us);
    hide Answered, Asking, Named, Tame, Cuts, Request, CallsNamed, PromptOf, Asked, Harmless, Paired;
    AnsweredIsPaired(start);
    ConversationStaysPaired(s, start, us);
    ConversationPairedIff(s, start, us);
    ConversationNamed(s, start, us);
    FirstCompactionFits(s, h, u);
    EveryRequestFollowsProtocol(s, start, us, u, n, mint);
  }

  lemma FirstCompactionFits(s: Setup, h: seq<Message>, u: UserTurn)
    requires Answered(h) && PromptOf(s, u).Some?
    ensures !Cuts(s, Asked(s, h, u), u)
  {
    var asked := Asked(s, h, u);
    hide PromptOf, CommandOf, Paired, Full;
    PushKeeps(h, PromptOf(s, u).value);
    var n: nat :| Shape(asked, n) && (|asked| - n) % 2 == 0;
    if Compacts(s, asked, u) {
      assert |asked| - (|asked| - 2 * s.keepRecent - 1 + 1) == 2 * s.keepRecent;
      BeforeCut(asked, n, |asked| - 2 * s.keepRecent - 1);
    }
  }
}
