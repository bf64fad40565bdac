/** Replacing the older part of a history by a summary. */
module Compaction {
  import opened Prelude
  import opened Messages

  /** Four characters a token; one of the two compactors rounds up, the other down. */
  datatype Rounding = Down | Up

  function EstimateTokens(mode: Rounding, text: string): nat {
    if mode == Up then (|text| + 3) / 4 else |text| / 4
  }

  function BlockTokens(mode: Rounding, b: Block): nat {
    match b
    case Text(text) => EstimateTokens(mode, text)
    case ToolUse(_, name, input) => EstimateTokens(mode, name) + EstimateTokens(mode, input)
    case ToolResult(_, content) => EstimateTokens(mode, content)
  }

  function BlocksTokens(mode: Rounding, blocks: seq<Block>): nat {
    if blocks == [] then 0 else BlocksTokens(mode, blocks[..|blocks| - 1]) + BlockTokens(mode, blocks[|blocks| - 1])
  }

  function MessageTokens(mode: Rounding, m: Message): nat {
    match m.content
    case Plain(text) => EstimateTokens(mode, text) + 4
    case Blocks(blocks) => 4 + BlocksTokens(mode, blocks)
  }

  function SumTokens(mode: Rounding, ms: seq<Message>): nat {
    if ms == [] then 0 else SumTokens(mode, ms[..|ms| - 1]) + MessageTokens(mode, ms[|ms| - 1])
  }

  /** Four characters make a token: rounding down, as many as fit; rounding up, as few as hold. */
  lemma TokensMeaning(text: string)
    ensures var k := EstimateTokens(Down, text); 4 * k <= |text| < 4 * k + 4
    ensures var k := EstimateTokens(Up, text); |text| <= 4 * k < |text| + 4
  {
  }

  /** A message counts four tokens and those of its text, or of each of its blocks: of texts and
      results the content, of calls the name and the input. */
  lemma {:induction false} MessageCounts(mode: Rounding, m: Message, blocks: seq<Block>, b: Block)
    ensures m.content.Plain? ==> MessageTokens(mode, m) == 4 + EstimateTokens(mode, m.content.text)
    ensures m.content == Blocks([]) ==> MessageTokens(mode, m) == 4
    ensures m.content == Blocks(blocks + [b]) ==>
              MessageTokens(mode, m) == MessageTokens(mode, m.(content := Blocks(blocks))) +
                (if b.ToolUse? then EstimateTokens(mode, b.name) + EstimateTokens(mode, b.input)
                 else if b.Text? then EstimateTokens(mode, b.text) else EstimateTokens(mode, b.content))
  {
    assert (blocks + [b])[..|blocks|] == blocks;
  }

  method CountMessage(mode: Rounding, m: Message) returns (total: nat)
    ensures total == MessageTokens(mode, m)
  {
    if m.content.Plain? {
      return EstimateTokens(mode, m.content.text) + 4;
    }
    var blocks := m.content.blocks;
    total := 4;
    var i := 0;
    while i < |blocks|
      invariant 0 <= i <= |blocks| && total == 4 + BlocksTokens(mode, blocks[..i])
    {
      assert blocks[..i + 1][..i] == blocks[..i];
      total := total + BlockTokens(mode, blocks[i]);
      i := i + 1;
    }
    assert blocks[..i] == blocks;
  }

  method EstimateTotal(mode: Rounding, system: string, ms: seq<Message>) returns (total: nat)
    ensures total == EstimateTokens(mode, system) + SumTokens(mode, ms)
  {
    total := EstimateTokens(mode, system);
    var i := 0;
    while i < |ms|
      invariant 0 <= i <= |ms| && total == EstimateTokens(mode, system) + SumTokens(mode, ms[..i])
    {
      assert ms[..i + 1][..i] == ms[..i];
      var one := CountMessage(mode, ms[i]);
      total := total + one;
      i := i + 1;
    }
    assert ms[..i] == ms;
  }

  lemma {:induction false} SumConcat(mode: Rounding, a: seq<Message>, b: seq<Message>)
    ensures SumTokens(mode, a + b) == SumTokens(mode, a) + SumTokens(mode, b)
  {
    if b == [] {
      assert a + b == a;
    } else {
      SumConcat(mode, a, b[..|b| - 1]);
      assert (a + b)[..|a + b| - 1] == a + b[..|b| - 1];
    }
  }

  lemma OneSum(mode: Rounding, m: Message)
    ensures SumTokens(mode, [m]) == MessageTokens(mode, m)
  {
    assert [m][..0] == [];
  }

  datatype Compacted = Compacted(messages: seq<Message>, count: nat, tokensSaved: int)

  /** The text around a summary and the assistant's reply to it; the two compactors word
      these differently. */
  datatype Wording = Wording(opening: string, closing: string, reply: string)

  function SummaryMessage(words: Wording, summary: string): Message {
    Message(User, Plain(words.opening + summary + words.closing))
  }

  function Acknowledgement(words: Wording): Message {
    Message(Assistant, Blocks([Text(words.reply)]))
  }

  /** A history whose older part is replaced by a summary, if a summary was made and enough
      messages are left over beyond the pairs to keep. */
  function Summarised(words: Wording, ms: seq<Message>, keepRecent: nat, summary: Option<string>): seq<Message> {
    if summary.Some? && summary.value != "" && |ms| > 2 * keepRecent then
      [SummaryMessage(words, summary.value), Acknowledgement(words)] + ms[|ms| - 2 * keepRecent..]
    else ms
  }

  /** What a compacted history begins with and what it keeps. */
  lemma SummarisedMeaning(words: Wording, ms: seq<Message>, keepRecent: nat, summary: string)
    requires |ms| > 2 * keepRecent && |summary| > 0
    ensures var short := Summarised(words, ms, keepRecent, Some(summary));
            && |short| == 2 + 2 * keepRecent
            && short[0] == Message(User, Plain(words.opening + summary + words.closing))
            && short[1] == Message(Assistant, Blocks([Text(words.reply)]))
            && short[2..] == ms[|ms| - 2 * keepRecent..]
  {
  }

  /** Summarises all but the most recent messages; summary is the model's answer, None when
      it raised. The kept suffix is verbatim, and the estimate of the whole drops by exactly
      the tokens reported as saved. */
  method CompactContext(mode: Rounding, words: Wording, system: string, ms: seq<Message>, limit: int, keepRecent: nat, summary: Option<string>)
    returns (r: Option<Compacted>)
    ensures r.Some? <==>
              EstimateTokens(mode, system) + SumTokens(mode, ms) >= limit && |ms| > 2 * keepRecent && summary.Some? && summary.value != ""
    ensures r.Some? ==>
              && r.value.messages == Summarised(words, ms, keepRecent, summary)
              && r.value.count == |ms| - 2 * keepRecent
              && SumTokens(mode, r.value.messages) == SumTokens(mode, ms) - r.value.tokensSaved
  {
    var total := EstimateTotal(mode, system, ms);
    if total < limit || |ms| <= keepRecent * 2 || summary.None? || summary.value == "" {
      return None;
    }
    var split := |ms| - keepRecent * 2;
    var older, recent := ms[..split], ms[split..];
    var head := [SummaryMessage(words, summary.value), Acknowledgement(words)];
    var oldTokens := EstimateTotal(mode, "", older);
    var summaryTokens := CountMessage(mode, head[0]);
    var ackTokens := CountMessage(mode, head[1]);
    SumConcat(mode, [head[0]], [head[1]]);
    OneSum(mode, head[0]);
    OneSum(mode, head[1]);
    assert ms == older + recent;
    SumConcat(mode, older, recent);
    SumConcat(mode, head, recent);
    assert head == [head[0]] + [head[1]];
    r := Some(Compacted(head + recent, split, oldTokens as int - (summaryTokens + ackTokens)));
  }

  lemma HeadPaired(words: Wording, summary: string)
    ensures Paired([SummaryMessage(words, summary), Acknowledgement(words)])
    ensures !HasCalls(SummaryMessage(words, summary)) && !HasCalls(Acknowledgement(words))
  {
    var head := [SummaryMessage(words, summary), Acknowledgement(words)];
    assert Acknowledgement(words).content.blocks[1..] == [];
    assert head[1..] == [Acknowledgement(words)] && head[1..][1..] == [];
  }

  /** Compacting a paired history leaves it paired exactly when the cut does not separate a
      message with calls from its results. */
  lemma {:induction false} CompactionPairing(words: Wording, ms: seq<Message>, keepRecent: nat, summary: string)
    requires Paired(ms) && |ms| > 2 * keepRecent && summary != ""
    ensures Paired(Summarised(words, ms, keepRecent, Some(summary))) <==> !HasCalls(ms[|ms| - 2 * keepRecent - 1])
  {
    var split := |ms| - 2 * keepRecent;
    var head := [SummaryMessage(words, summary), Acknowledgement(words)];
    assert ms == ms[..split] + ms[split..];
    HeadPaired(words, summary);
    hide Paired, HasCalls, HasResults;
    PairedCut(ms[..split], ms[split..]);
    if !HasCalls(ms[split - 1]) {
      PairedAppend(head, ms[split..]);
    } else if Paired(head + ms[split..]) {
      PairedCut(head, ms[split..]);
    }
  }

  predicate Alternating(ms: seq<Message>) {
    forall i | 0 <= i < |ms| - 1 :: ms[i].role != ms[i + 1].role
  }

  lemma {:induction false} RoleByParity(ms: seq<Message>, i: nat)
    requires Alternating(ms) && i < |ms| && ms[0].role == User
    ensures ms[i].role == (if i % 2 == 0 then User else Assistant)
  {
    if i > 0 {
      RoleByParity(ms, i - 1);
      assert ms[i - 1].role != ms[i - 1 + 1].role;
    }
  }

  lemma {:induction false} CallersAreAssistants(ms: seq<Message>, i: nat)
    requires Paired(ms) && i < |ms|
    ensures HasCalls(ms[i]) ==> ms[i].role == Assistant
    decreases |ms|
  {
    if HasCalls(ms[0]) {
      AnswerHasResults(ms[0], ms[1]);
      CallsExcludeResults(ms[1]);
      hide HasResults, HasCalls;
      if i > 1 {
        CallersAreAssistants(ms[2..], i - 2);
      }
    } else if i > 0 {
      CallersAreAssistants(ms[1..], i - 1);
    }
  }

  /** On an alternating history that begins and ends with a user message the cut falls
      between whole exchanges, for every number of messages kept. */
  lemma {:induction false} ParityKeepsPairs(words: Wording, ms: seq<Message>, keepRecent: nat, summary: Option<string>)
    requires Paired(ms) && Alternating(ms) && ms != []
    requires ms[0].role == User && ms[|ms| - 1].role == User
    ensures Paired(Summarised(words, ms, keepRecent, summary))
  {
    hide Paired, HasCalls, Alternating, SummaryMessage, Acknowledgement;
    if summary.None? || summary.value == "" || |ms| <= 2 * keepRecent {
      return;
    }
    var split := |ms| - 2 * keepRecent;
    RoleByParity(ms, |ms| - 1);
    RoleByParity(ms, split - 1);
    assert split - 1 == |ms| - 1 - 2 * keepRecent && (|ms| - 1) % 2 == 0;
    CallersAreAssistants(ms, split - 1);
    CompactionPairing(words, ms, keepRecent, summary.value);
  }
}
