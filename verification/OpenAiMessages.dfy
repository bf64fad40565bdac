/** Converting a history to the OpenAI message format, and merging neighbours of one role. */
module OpenAiMessages {
  import Str = Text
  import opened Messages

  datatype Call = Call(id: string, name: string, arguments: string)

  datatype Out =
    | OutUser(content: string)
    | OutAssistant(content: string, calls: seq<Call>)
    | OutTool(callId: string, content: string)

  // --- one message ---

  function TextOf(blocks: seq<Block>): string {
    if blocks == [] then ""
    else (if blocks[0].Text? then blocks[0].text else "") + TextOf(blocks[1..])
  }

  function Or(s: string, fallback: string): string {
    if s == "" then fallback else s
  }

  /** Calls without an id are given a minted one; n counts the calls before. */
  function CallsOf(blocks: seq<Block>, mint: nat -> string, n: nat): seq<Call> {
    if blocks == [] then []
    else if blocks[0].ToolUse? then
      [Call(Or(blocks[0].id, mint(n)), Or(blocks[0].name, "unknown"), blocks[0].input)] + CallsOf(blocks[1..], mint, n + 1)
    else CallsOf(blocks[1..], mint, n)
  }

  /** One tool message per result that names its call. */
  function ToolsOf(blocks: seq<Block>): seq<Out> {
    if blocks == [] then []
    else (if blocks[0].ToolResult? && blocks[0].useId != "" then [OutTool(blocks[0].useId, Or(blocks[0].content, "(no output)"))] else []) +
         ToolsOf(blocks[1..])
  }

  function Speech(role: Role, text: string): Out {
    if role == User then OutUser(text) else OutAssistant(text, [])
  }

  function ConvertOne(m: Message, mint: nat -> string): seq<Out> {
    match m.content
    case Plain(text) => if text == "" then [] else [Speech(m.role, text)]
    case Blocks(blocks) =>
      if HasResults(m) then ToolsOf(blocks)
      else if HasCalls(m) then [OutAssistant(TextOf(blocks), CallsOf(blocks, mint, 0))]
      else if TextOf(blocks) == "" then []
      else [Speech(m.role, TextOf(blocks))]
  }

  function Converted(h: seq<Message>, mint: Message -> nat -> string): seq<Out> {
    if h == [] then [] else Converted(h[..|h| - 1], mint) + ConvertOne(h[|h| - 1], mint(h[|h| - 1]))
  }

  // --- merging neighbours ---

  /** Neighbours the alternation pass merges. */
  predicate Mergeable(a: Out, b: Out) {
    (a.OutUser? && b.OutUser?) || (a.OutAssistant? && b.OutAssistant? && a.calls == [] && b.calls == [])
  }

  function Merged(a: Out, b: Out): Out
    requires Mergeable(a, b)
  {
    var content := Str.Strip(a.content + "\n\n" + b.content);
    if a.OutUser? then OutUser(content) else OutAssistant(content, [])
  }

  function AddOne(acc: seq<Out>, m: Out): seq<Out> {
    if acc != [] && Mergeable(acc[|acc| - 1], m) then acc[..|acc| - 1] + [Merged(acc[|acc| - 1], m)]
    else acc + [m]
  }

  function Alternated(ms: seq<Out>): seq<Out> {
    if ms == [] then [] else AddOne(Alternated(ms[..|ms| - 1]), ms[|ms| - 1])
  }

  /** The pass itself overwrites the last message kept so far, or appends. */
  method EnforceAlternation(ms: seq<Out>) returns (merged: seq<Out>)
    ensures merged == Alternated(ms)
  {
    merged := [];
    var i := 0;
    while i < |ms|
      invariant 0 <= i <= |ms| && merged == Alternated(ms[..i])
    {
      var m := ms[i];
      assert ms[..i + 1][..i] == ms[..i];
      i := i + 1;
      if m.OutTool? || merged == [] {
        merged := merged + [m];
        continue;
      }
      var last := |merged| - 1;
      var prev := merged[last];
      if prev.OutUser? && m.OutUser? {
        merged := merged[..last] + [OutUser(Str.Strip(prev.content + "\n\n" + m.content))];
        continue;
      }
      if prev.OutAssistant? && m.OutAssistant? && prev.calls == [] && m.calls == [] {
        merged := merged[..last] + [OutAssistant(Str.Strip(prev.content + "\n\n" + m.content), [])];
        continue;
      }
      merged := merged + [m];
    }
    assert ms[..i] == ms;
  }

  method ConvertMessages(h: seq<Message>, mint: Message -> nat -> string) returns (out: seq<Out>)
    ensures out == Alternated(Converted(h, mint)) && Flat(out) == HistorySays(h, mint)
  {
    var result: seq<Out> := [];
    var i := 0;
    while i < |h|
      invariant 0 <= i <= |h| && result == Converted(h[..i], mint)
    {
      assert h[..i + 1][..i] == h[..i];
      result := result + ConvertOne(h[i], mint(h[i]));
      i := i + 1;
    }
    assert h[..i] == h;
    out := EnforceAlternation(result);
    ConversionSays(h, mint);
  }

  // --- normal form ---

  predicate NormalForm(ms: seq<Out>) {
    forall k | 0 <= k < |ms| - 1 :: !Mergeable(ms[k], ms[k + 1])
  }

  /** The output never has two neighbours that could still be merged. */
  lemma {:induction false} AlternatedIsNormal(ms: seq<Out>)
    ensures NormalForm(Alternated(ms))
  {
    if ms != [] {
      AlternatedIsNormal(ms[..|ms| - 1]);
    }
  }

  lemma {:induction false} NormalIsFixed(ms: seq<Out>)
    requires NormalForm(ms)
    ensures Alternated(ms) == ms
  {
    if ms != [] {
      var n := |ms| - 1;
      NormalIsFixed(ms[..n]);
      assert ms == ms[..n] + [ms[n]];
      if n > 0 {
        assert !Mergeable(ms[n - 1], ms[n - 1 + 1]);
      }
    }
  }

  /** Applying the pass again changes nothing, and it leaves exactly the normal forms alone. */
  lemma {:induction false} AlternationIdempotent(ms: seq<Out>)
    ensures Alternated(Alternated(ms)) == Alternated(ms)
    ensures Alternated(ms) == ms <==> NormalForm(ms)
  {
    AlternatedIsNormal(ms);
    NormalIsFixed(Alternated(ms));
    if NormalForm(ms) {
      NormalIsFixed(ms);
    }
  }

  // --- nothing is lost ---

  datatype Token = Said(role: Role, c: char) | Called(content: string, calls: seq<Call>) | Tooled(callId: string, content: string)

  /** The visible characters of a text, each with its speaker. */
  function Visible(role: Role, s: string): seq<Token> {
    if s == "" then []
    else Visible(role, s[..|s| - 1]) + (if Str.IsSpace(s[|s| - 1]) then [] else [Said(role, s[|s| - 1])])
  }

  function Tokens(m: Out): seq<Token> {
    match m
    case OutUser(content) => Visible(User, content)
    case OutAssistant(content, calls) => if calls == [] then Visible(Assistant, content) else [Called(content, calls)]
    case OutTool(id, content) => [Tooled(id, content)]
  }

  function Flat(ms: seq<Out>): seq<Token> {
    if ms == [] then [] else Flat(ms[..|ms| - 1]) + Tokens(ms[|ms| - 1])
  }

  lemma {:induction false} VisibleConcat(role: Role, s: string, t: string)
    ensures Visible(role, s + t) == Visible(role, s) + Visible(role, t)
  {
    if t == "" {
      assert s + t == s;
    } else {
      var n := |t| - 1;
      VisibleConcat(role, s, t[..n]);
      assert (s + t)[..|s + t| - 1] == s + t[..n];
    }
  }

  lemma {:induction false} VisibleStripRight(role: Role, s: string)
    ensures Visible(role, Str.StripRight(s)) == Visible(role, s)
  {
    if s != "" && Str.IsSpace(s[|s| - 1]) {
      VisibleStripRight(role, s[..|s| - 1]);
    }
  }

  lemma {:induction false} VisibleStripLeft(role: Role, s: string)
    ensures Visible(role, Str.StripLeft(s)) == Visible(role, s)
  {
    if s != "" && Str.IsSpace(s[0]) {
      VisibleStripLeft(role, s[1..]);
      VisibleConcat(role, [s[0]], s[1..]);
      assert [s[0]] + s[1..] == s && Visible(role, [s[0]]) == [] by {
        assert [s[0]][..0] == "";
      }
    }
  }

  lemma BlankVisible(role: Role)
    ensures Visible(role, "\n\n") == []
  {
    assert "\n\n"[..1] == "\n" && "\n"[..0] == "";
    assert Visible(role, "\n") == [];
  }

  lemma JoinedVisible(role: Role, p: string, q: string)
    ensures Visible(role, Str.Strip(p + "\n\n" + q)) == Visible(role, p) + Visible(role, q)
  {
    hide Visible, Str.StripLeft, Str.StripRight;
    VisibleStripLeft(role, p + "\n\n" + q);
    VisibleStripRight(role, Str.StripLeft(p + "\n\n" + q));
    VisibleConcat(role, p + "\n\n", q);
    VisibleConcat(role, p, "\n\n");
    BlankVisible(role);
  }

  lemma MergeLosesNothing(a: Out, b: Out)
    requires Mergeable(a, b)
    ensures Tokens(Merged(a, b)) == Tokens(a) + Tokens(b)
  {
    hide Visible;
    JoinedVisible(if a.OutUser? then User else Assistant, a.content, b.content);
  }

  lemma FlatAppend(acc: seq<Out>, m: Out)
    ensures Flat(acc + [m]) == Flat(acc) + Tokens(m)
  {
    assert (acc + [m])[..|acc|] == acc;
  }

  lemma AlternatedBack(ms: seq<Out>)
    requires ms != []
    ensures Flat(ms) == Flat(ms[..|ms| - 1]) + Tokens(ms[|ms| - 1])
    ensures Alternated(ms) == AddOne(Alternated(ms[..|ms| - 1]), ms[|ms| - 1])
  {
  }

  /** Alternation loses nothing: tool messages and tool-call messages keep their place and
      their content, and what each speaker says, white space aside, is unchanged. */
  lemma {:induction false} AlternationLosesNothing(ms: seq<Out>)
    ensures Flat(Alternated(ms)) == Flat(ms)
  {
    if ms != [] {
      AlternatedBack(ms);
      hide *;
      var n := |ms| - 1;
      AlternationLosesNothing(ms[..n]);
      AddOneLosesNothing(Alternated(ms[..n]), ms[n]);
    }
  }

  lemma AddOneLosesNothing(acc: seq<Out>, m: Out)
    ensures Flat(AddOne(acc, m)) == Flat(acc) + Tokens(m)
  {
    hide Flat, Tokens, Merged, Mergeable;
    if acc != [] && Mergeable(acc[|acc| - 1], m) {
      var l := |acc| - 1;
      var front, last := acc[..l], acc[l];
      MergeLosesNothing(last, m);
      FlatAppend(front, Merged(last, m));
      FlatAppend(front, last);
      assert acc == front + [last];
      assert Flat(front) + (Tokens(last) + Tokens(m)) == Flat(front) + Tokens(last) + Tokens(m);
    } else {
      FlatAppend(acc, m);
    }
  }

  // --- what a history says ---

  /** What the texts among some blocks say together, under one role. */
  function TextsSay(role: Role, blocks: seq<Block>): seq<Token> {
    if blocks == [] then []
    else
      TextsSay(role, blocks[..|blocks| - 1]) +
      match blocks[|blocks| - 1]
      case Text(text) => Visible(role, text)
      case _ => []
  }

  function AllText(blocks: seq<Block>): string {
    if blocks == [] then ""
    else
      AllText(blocks[..|blocks| - 1]) +
      match blocks[|blocks| - 1]
      case Text(text) => text
      case _ => ""
  }

  /** The calls among some blocks; one without an id is given the one minted for its position
      among the calls, one without a name is unknown. */
  function CallList(blocks: seq<Block>, mint: nat -> string): seq<Call> {
    if blocks == [] then []
    else
      var before := CallList(blocks[..|blocks| - 1], mint);
      match blocks[|blocks| - 1]
      case ToolUse(id, name, input) =>
        before + [Call(if id == "" then mint(|before|) else id, if name == "" then "unknown" else name, input)]
      case _ => before
  }

  /** The results among some blocks that name their call. */
  function ResultsSay(blocks: seq<Block>): seq<Token> {
    if blocks == [] then []
    else
      ResultsSay(blocks[..|blocks| - 1]) +
      match blocks[|blocks| - 1]
      case ToolResult(id, content) => if id == "" then [] else [Tooled(id, if content == "" then "(no output)" else content)]
      case _ => []
  }

  /** What a message says: its results if it has any, otherwise its calls with all its text, and
      otherwise the visible characters of its text under its own role. */
  function Says(m: Message, mint: nat -> string): seq<Token> {
    match m.content
    case Plain(text) => Visible(m.role, text)
    case Blocks(blocks) =>
      if exists b | b in blocks :: b.ToolResult? then ResultsSay(blocks)
      else if exists b | b in blocks :: b.ToolUse? then [Called(AllText(blocks), CallList(blocks, mint))]
      else TextsSay(m.role, blocks)
  }

  function HistorySays(h: seq<Message>, mint: Message -> nat -> string): seq<Token> {
    if h == [] then [] else HistorySays(h[..|h| - 1], mint) + Says(h[|h| - 1], mint(h[|h| - 1]))
  }

  lemma {:induction false} FlatConcat(a: seq<Out>, b: seq<Out>)
    ensures Flat(a + b) == Flat(a) + Flat(b)
  {
    hide *;
    if b == [] {
      FlatNone();
      assert a + b == a;
    } else {
      var front, last := b[..|b| - 1], b[|b| - 1];
      FlatConcat(a, front);
      FlatAppend(a + front, last);
      FlatAppend(front, last);
      assert a + b == a + front + [last] && b == front + [last];
    }
  }

  lemma FlatNone()
    ensures Flat([]) == []
  {
  }

  lemma TextFront(blocks: seq<Block>)
    requires blocks != []
    ensures TextOf(blocks) == (if blocks[0].Text? then blocks[0].text else "") + TextOf(blocks[1..])
    ensures ToolsOf(blocks) == ToolsOf([blocks[0]]) + ToolsOf(blocks[1..])
  {
    assert [blocks[0]][1..] == [] && ToolsOf([]) == [];
  }

  lemma NoText(b: Block)
    ensures TextOf([]) == "" && ToolsOf([]) == [] && TextOf([b]) == (if b.Text? then b.text else "")
  {
    assert [b][1..] == [];
  }

  lemma {:induction false} TextOfBack(blocks: seq<Block>, b: Block)
    ensures TextOf(blocks + [b]) == TextOf(blocks) + (if b.Text? then b.text else "")
    ensures ToolsOf(blocks + [b]) == ToolsOf(blocks) + ToolsOf([b])
  {
    hide *;
    NoText(b);
    if blocks == [] {
      assert blocks + [b] == [b];
    } else {
      TextFront(blocks);
      TextFront(blocks + [b]);
      assert (blocks + [b])[1..] == blocks[1..] + [b];
      TextOfBack(blocks[1..], b);
    }
  }

  lemma {:induction false} CallsOfBack(blocks: seq<Block>, b: Block, mint: nat -> string, n: nat)
    ensures CallsOf(blocks + [b], mint, n) == CallsOf(blocks, mint, n) + CallsOf([b], mint, n + |CallsOf(blocks, mint, n)|)
  {
    if blocks == [] {
      assert blocks + [b] == [b];
    } else {
      assert (blocks + [b])[1..] == blocks[1..] + [b];
      CallsOfBack(blocks[1..], b, mint, if blocks[0].ToolUse? then n + 1 else n);
    }
  }

  lemma {:induction false} TextsAre(role: Role, blocks: seq<Block>)
    ensures AllText(blocks) == TextOf(blocks) && TextsSay(role, blocks) == Visible(role, TextOf(blocks))
  {
    if blocks == [] {
      assert Visible(role, "") == [];
    } else {
      var n := |blocks| - 1;
      TextsAre(role, blocks[..n]);
      TextOfBack(blocks[..n], blocks[n]);
      assert blocks == blocks[..n] + [blocks[n]];
      VisibleConcat(role, TextOf(blocks[..n]), if blocks[n].Text? then blocks[n].text else "");
      hide TextOf, Visible;
    }
  }

  lemma {:induction false} CallsAre(blocks: seq<Block>, mint: nat -> string)
    ensures CallList(blocks, mint) == CallsOf(blocks, mint, 0)
  {
    if blocks != [] {
      var n := |blocks| - 1;
      CallsAre(blocks[..n], mint);
      CallsOfBack(blocks[..n], blocks[n], mint, 0);
      assert blocks == blocks[..n] + [blocks[n]] && [blocks[n]][1..] == [];
      var k := |CallsOf(blocks[..n], mint, 0)|;
      assert CallsOf([blocks[n]], mint, k) ==
             (if blocks[n].ToolUse? then [Call(Or(blocks[n].id, mint(k)), Or(blocks[n].name, "unknown"), blocks[n].input)] else []);
    }
  }

  lemma {:induction false} ResultsAre(blocks: seq<Block>)
    ensures ResultsSay(blocks) == Flat(ToolsOf(blocks))
  {
    if blocks != [] {
      var n := |blocks| - 1;
      ResultsAre(blocks[..n]);
      TextOfBack(blocks[..n], blocks[n]);
      assert blocks == blocks[..n] + [blocks[n]] && [blocks[n]][1..] == [];
      FlatConcat(ToolsOf(blocks[..n]), ToolsOf([blocks[n]]));
      var one := ToolsOf([blocks[n]]);
      assert one != [] ==> one[..0] == [] && Flat(one) == Tokens(one[0]);
    }
  }

  lemma {:induction false} KindsOf(blocks: seq<Block>)
    ensures ResultIds(blocks) != [] <==> exists b | b in blocks :: b.ToolResult?
    ensures UseIds(blocks) != [] <==> exists b | b in blocks :: b.ToolUse?
  {
    if blocks != [] {
      KindsOf(blocks[1..]);
      assert forall b :: b in blocks <==> b == blocks[0] || b in blocks[1..];
    }
  }

  lemma OneSays(m: Out)
    ensures Flat([m]) == Tokens(m)
  {
    assert [m][..0] == [];
  }

  lemma MessageSays(m: Message, mint: nat -> string)
    ensures Flat(ConvertOne(m, mint)) == Says(m, mint)
  {
    match m.content
    case Plain(text) =>
      OneSays(Speech(m.role, text));
      NothingSaid(m.role);
    case Blocks(blocks) => BlocksSay(m, blocks, mint);
  }

  lemma BlocksSay(m: Message, blocks: seq<Block>, mint: nat -> string)
    requires m.content == Blocks(blocks)
    ensures Flat(ConvertOne(m, mint)) == Says(m, mint)
  {
    ConvertCases(m, blocks, mint);
    SaysCases(m, blocks, mint);
    hide *;
    TextsAre(m.role, blocks);
    CallsAre(blocks, mint);
    ResultsAre(blocks);
    NothingSaid(m.role);
  }

  /** What conversion makes of blocks, as tokens. */
  lemma ConvertCases(m: Message, blocks: seq<Block>, mint: nat -> string)
    requires m.content == Blocks(blocks)
    ensures Flat(ConvertOne(m, mint)) ==
            if ResultIds(blocks) != [] then Flat(ToolsOf(blocks))
            else if UseIds(blocks) != [] then [Called(TextOf(blocks), CallsOf(blocks, mint, 0))]
            else Visible(m.role, TextOf(blocks))
  {
    OneSays(Speech(m.role, TextOf(blocks)));
    OneSays(OutAssistant(TextOf(blocks), CallsOf(blocks, mint, 0)));
    CallsSome(blocks, mint);
    NothingSaid(m.role);
    hide TextOf, CallsOf, ToolsOf, ResultIds, UseIds, Flat, Visible;
  }

  lemma SaysCases(m: Message, blocks: seq<Block>, mint: nat -> string)
    requires m.content == Blocks(blocks)
    ensures Says(m, mint) ==
            if ResultIds(blocks) != [] then ResultsSay(blocks)
            else if UseIds(blocks) != [] then [Called(AllText(blocks), CallList(blocks, mint))]
            else TextsSay(m.role, blocks)
  {
    KindsOf(blocks);
    hide AllText, TextsSay, CallList, ResultsSay, ResultIds, UseIds;
  }

  lemma CallsSome(blocks: seq<Block>, mint: nat -> string)
    ensures UseIds(blocks) != [] ==> CallsOf(blocks, mint, 0) != []
  {
    SomeCalls(blocks, mint, 0);
  }

  lemma {:induction false} SomeCalls(blocks: seq<Block>, mint: nat -> string, n: nat)
    ensures |CallsOf(blocks, mint, n)| == |UseIds(blocks)|
  {
    if blocks != [] {
      SomeCalls(blocks[1..], mint, if blocks[0].ToolUse? then n + 1 else n);
    }
  }

  lemma NothingSaid(role: Role)
    ensures Flat([]) == [] && Visible(role, "") == []
  {
  }

  /** What is sent says what the history says, speaker by speaker: every visible character under
      the role of its message, every call message with its text, ids, names and inputs, and every
      result that names its call with its content. */
  lemma {:induction false} ConversionSays(h: seq<Message>, mint: Message -> nat -> string)
    ensures Flat(Converted(h, mint)) == HistorySays(h, mint) && Flat(Alternated(Converted(h, mint))) == HistorySays(h, mint)
  {
    AlternationLosesNothing(Converted(h, mint));
    if h != [] {
      var n := |h| - 1;
      ConversionSays(h[..n], mint);
      MessageSays(h[n], mint(h[n]));
      FlatConcat(Converted(h[..n], mint), ConvertOne(h[n], mint(h[n])));
      hide ConvertOne, Says, Flat;
    }
  }

  /** Merged texts are kept apart by a blank line. */
  lemma MergedApart(a: string, b: string)
    requires a != "" && b != "" && Str.Stripped(a) && Str.Stripped(b)
    ensures Alternated([OutUser(a), OutUser(b)]) == [OutUser(a + "\n\n" + b)]
    ensures Alternated([OutAssistant(a, []), OutAssistant(b, [])]) == [OutAssistant(a + "\n\n" + b, [])]
  {
    var c := a + "\n\n" + b;
    assert c[0] == a[0] && c[|c| - 1] == b[|b| - 1];
    Str.StripFixes(c);
    hide Str.Strip;
    assert [OutUser(a), OutUser(b)][..1] == [OutUser(a)] && [OutUser(a)][..0] == [];
    assert [OutAssistant(a, []), OutAssistant(b, [])][..1] == [OutAssistant(a, [])] && [OutAssistant(a, [])][..0] == [];
    assert Alternated([]) == [];
    assert Alternated([OutUser(a)]) == [OutUser(a)] && Alternated([OutAssistant(a, [])]) == [OutAssistant(a, [])];
  }

  // --- the tool protocol ---

  function CallIds(calls: seq<Call>): seq<string> {
    seq(|calls|, k requires 0 <= k < |calls| => calls[k].id)
  }

  /** Reading left to right with the calls still owed an answer: calls may only be made when
      none are owed, a tool message answers one that is owed, nothing else may come between,
      and in the end none are owed. */
  predicate Accepts(ms: seq<Out>, owed: multiset<string>) {
    if ms == [] then owed == multiset{}
    else
      match ms[0]
      case OutTool(id, _) => id in owed && Accepts(ms[1..], owed - multiset{id})
      case OutUser(_) => owed == multiset{} && Accepts(ms[1..], owed)
      case OutAssistant(_, calls) => owed == multiset{} && Accepts(ms[1..], multiset(CallIds(calls)))
  }

  /** The ids of the tool messages at the front, up to the first other message. */
  function LeadingIds(ms: seq<Out>): seq<string> {
    if ms == [] || !ms[0].OutTool? then [] else [ms[0].callId] + LeadingIds(ms[1..])
  }

  function Owing(m: Out): multiset<string> {
    if m.OutAssistant? then multiset(CallIds(m.calls)) else multiset{}
  }

  /** At every message that is not a tool message, the tool messages directly after it
      answer exactly its calls, each once. */
  predicate Sound(ms: seq<Out>) {
    forall k | 0 <= k < |ms| && !ms[k].OutTool? :: multiset(LeadingIds(ms[k + 1..])) == Owing(ms[k])
  }

  /** The protocol, position by position; tool messages at the front answer what is owed. */
  predicate Protocol(ms: seq<Out>, owed: multiset<string>) {
    multiset(LeadingIds(ms)) == owed && Sound(ms)
  }

  lemma SoundHead(ms: seq<Out>)
    requires ms != []
    ensures Sound(ms) <==> Sound(ms[1..]) && (!ms[0].OutTool? ==> multiset(LeadingIds(ms[1..])) == Owing(ms[0]))
  {
    var tail := ms[1..];
    assert forall k | 0 <= k < |tail| :: tail[k] == ms[k + 1] && tail[k + 1..] == ms[k + 1 + 1..];
    if Sound(ms) {
      forall k | 0 <= k < |tail| && !tail[k].OutTool? ensures multiset(LeadingIds(tail[k + 1..])) == Owing(tail[k]) {
        assert !ms[k + 1].OutTool?;
      }
      assert ms[0 + 1..] == tail;
    }
  }

  lemma AnswerOwed(id: string, ids: seq<string>, owed: multiset<string>)
    ensures multiset([id] + ids) == owed <==> id in owed && multiset(ids) == owed - multiset{id}
  {
    assert multiset([id] + ids) == multiset{id} + multiset(ids);
    assert id in owed ==> owed == multiset{id} + (owed - multiset{id});
  }

  lemma AcceptsFront(ms: seq<Out>, owed: multiset<string>)
    requires ms != []
    ensures Accepts(ms, owed) <==>
            if ms[0].OutTool? then ms[0].callId in owed && Accepts(ms[1..], owed - multiset{ms[0].callId})
            else owed == multiset{} && Accepts(ms[1..], Owing(ms[0]))
    ensures LeadingIds(ms) == if ms[0].OutTool? then [ms[0].callId] + LeadingIds(ms[1..]) else []
  {
  }

  /** Reading left to right accepts exactly the sequences that follow the protocol. */
  lemma {:induction false} AcceptsIffProtocol(ms: seq<Out>, owed: multiset<string>)
    ensures Accepts(ms, owed) <==> Protocol(ms, owed)
    decreases |ms|
  {
    hide Sound, CallIds;
    if ms == [] {
      EmptyIsSound();
    } else {
      hide Accepts, LeadingIds, Owing;
      AcceptsFront(ms, owed);
      SoundHead(ms);
      AcceptsIffProtocol(ms[1..], if ms[0].OutTool? then owed - multiset{ms[0].callId} else Owing(ms[0]));
      if ms[0].OutTool? {
        AnswerOwed(ms[0].callId, LeadingIds(ms[1..]), owed);
      }
    }
  }

  lemma EmptyIsSound()
    ensures Sound([])
  {
  }

  // --- conversion keeps the protocol ---

  lemma {:induction false} ToolsAccepted(blocks: seq<Block>, rest: seq<Out>)
    requires forall id | id in ResultIds(blocks) :: id != ""
    ensures Accepts(ToolsOf(blocks) + rest, multiset(ResultIds(blocks))) == Accepts(rest, multiset{})
  {
    if blocks == [] {
      assert ToolsOf(blocks) + rest == rest;
    } else {
      hide *;
      ResultsFront(blocks);
      ToolsAccepted(blocks[1..], rest);
      if blocks[0].ToolResult? {
        ToolAccepted(ToolsOf(blocks)[0], ToolsOf(blocks[1..]), rest, multiset(ResultIds(blocks[1..])));
      }
    }
  }

  lemma ResultsFront(blocks: seq<Block>)
    requires blocks != [] && forall id | id in ResultIds(blocks) :: id != ""
    ensures forall id | id in ResultIds(blocks[1..]) :: id != ""
    ensures if blocks[0].ToolResult? then
              && multiset(ResultIds(blocks)) == multiset{blocks[0].useId} + multiset(ResultIds(blocks[1..]))
              && ToolsOf(blocks) != [] && ToolsOf(blocks)[0].OutTool? && ToolsOf(blocks)[0].callId == blocks[0].useId
              && ToolsOf(blocks) == [ToolsOf(blocks)[0]] + ToolsOf(blocks[1..])
            else ResultIds(blocks) == ResultIds(blocks[1..]) && ToolsOf(blocks) == ToolsOf(blocks[1..])
  {
    var ids := ResultIds(blocks[1..]);
    forall id | id in ids ensures id != "" {
      assert id in ResultIds(blocks);
    }
    if blocks[0].ToolResult? {
      assert ResultIds(blocks) == [blocks[0].useId] + ids && blocks[0].useId in ResultIds(blocks);
    }
  }

  lemma ToolAccepted(tool: Out, tools: seq<Out>, rest: seq<Out>, owed: multiset<string>)
    requires tool.OutTool?
    ensures Accepts([tool] + tools + rest, multiset{tool.callId} + owed) == Accepts(tools + rest, owed)
  {
    assert ([tool] + tools + rest)[1..] == tools + rest;
    assert multiset{tool.callId} + owed - multiset{tool.callId} == owed;
  }

  lemma CallIdsFront(call: Call, calls: seq<Call>)
    ensures CallIds([call] + calls) == [call.id] + CallIds(calls)
  {
  }

  lemma {:induction false} CallsKeepIds(blocks: seq<Block>, mint: nat -> string, n: nat)
    requires forall id | id in UseIds(blocks) :: id != ""
    ensures CallIds(CallsOf(blocks, mint, n)) == UseIds(blocks)
  {
    if blocks != [] {
      hide CallIds;
      assert forall id | id in UseIds(blocks[1..]) :: id in UseIds(blocks);
      if blocks[0].ToolUse? {
        assert blocks[0].id in UseIds(blocks);
        CallsKeepIds(blocks[1..], mint, n + 1);
        CallIdsFront(CallsOf(blocks, mint, n)[0], CallsOf(blocks[1..], mint, n + 1));
      } else {
        CallsKeepIds(blocks[1..], mint, n);
      }
    }
  }

  /** How accepting a plain message at the front works. */
  lemma PlainAccepted(m: Out, tail: seq<Out>)
    requires !m.OutTool?
    ensures Accepts([m] + tail, multiset{}) == Accepts(tail, Owing(m))
  {
    assert ([m] + tail)[1..] == tail;
  }

  /** The conversion read front to back. */
  lemma {:induction false} ConvertedFront(h: seq<Message>, mint: Message -> nat -> string)
    requires h != []
    ensures Converted(h, mint) == ConvertOne(h[0], mint(h[0])) + Converted(h[1..], mint)
    decreases |h|
  {
    hide ConvertOne;
    var n := |h| - 1;
    if n > 0 {
      ConvertedFront(h[..n], mint);
      assert h[..n][1..] == h[1..][..n - 1] && h[1..][n - 1] == h[n];
    }
  }

  lemma PairAccepted(m: Message, r: Message, mint: nat -> string, none: nat -> string, rest: seq<Out>)
    requires HasCalls(m) && Answers(m, r) && "" !in UseIds(BlocksOf(m))
    ensures Accepts(ConvertOne(m, mint) + ConvertOne(r, none) + rest, multiset{}) == Accepts(rest, multiset{})
  {
    hide *;
    ConvertPair(m, r, mint, none);
    var call, tools := ConvertOne(m, mint)[0], ToolsOf(BlocksOf(r));
    assert ConvertOne(m, mint) == [call];
    assert [call] + tools + rest == [call] + (tools + rest);
    PlainAccepted(call, tools + rest);
    ToolsAccepted(BlocksOf(r), rest);
  }

  lemma ConvertPair(m: Message, r: Message, mint: nat -> string, none: nat -> string)
    requires HasCalls(m) && Answers(m, r) && "" !in UseIds(BlocksOf(m))
    ensures |ConvertOne(m, mint)| == 1 && !ConvertOne(m, mint)[0].OutTool?
    ensures ConvertOne(r, none) == ToolsOf(BlocksOf(r))
    ensures Owing(ConvertOne(m, mint)[0]) == multiset(ResultIds(BlocksOf(r)))
    ensures forall id | id in ResultIds(BlocksOf(r)) :: id != ""
  {
    HasBlocks(m);
    HasBlocks(r);
    hide UseIds, ResultIds, CallsOf, CallIds, TextOf, ToolsOf;
    AnswerHasResults(m, r);
    CallsKeepIds(BlocksOf(m), mint, 0);
    forall id | id in ResultIds(BlocksOf(r)) ensures id != "" {
      assert id in multiset(ResultIds(BlocksOf(r)));
      assert id in multiset(UseIds(BlocksOf(m)));
      assert id in UseIds(BlocksOf(m));
    }
  }

  lemma HasBlocks(m: Message)
    ensures HasResults(m) || HasCalls(m) ==> m.content.Blocks?
  {
  }

  lemma NoCallsOwesNothing(m: Message, mint: nat -> string, rest: seq<Out>)
    requires !HasCalls(m) && !HasResults(m)
    ensures Accepts(ConvertOne(m, mint) + rest, multiset{}) == Accepts(rest, multiset{})
  {
    var out := ConvertOne(m, mint);
    if out == [] {
      assert out + rest == rest;
    } else {
      PlainAccepted(out[0], rest);
      assert Owing(out[0]) == multiset{};
    }
  }

  lemma PairStep(h: seq<Message>, mint: Message -> nat -> string, rest: seq<Out>)
    requires |h| > 1 && HasCalls(h[0]) && Answers(h[0], h[1]) && "" !in UseIds(BlocksOf(h[0]))
    ensures Accepts(Converted(h, mint) + rest, multiset{}) == Accepts(Converted(h[2..], mint) + rest, multiset{})
  {
    hide *;
    ConvertedFront(h, mint);
    ConvertedFront(h[1..], mint);
    assert h[1..][1..] == h[2..];
    var a, b, c := ConvertOne(h[0], mint(h[0])), ConvertOne(h[1], mint(h[1])), Converted(h[2..], mint);
    PairAccepted(h[0], h[1], mint(h[0]), mint(h[1]), c + rest);
    assert a + (b + c) + rest == a + b + (c + rest);
  }

  lemma PlainStep(h: seq<Message>, mint: Message -> nat -> string, rest: seq<Out>)
    requires h != [] && !HasCalls(h[0]) && !HasResults(h[0])
    ensures Accepts(Converted(h, mint) + rest, multiset{}) == Accepts(Converted(h[1..], mint) + rest, multiset{})
  {
    hide *;
    ConvertedFront(h, mint);
    var a, c := ConvertOne(h[0], mint(h[0])), Converted(h[1..], mint);
    NoCallsOwesNothing(h[0], mint(h[0]), c + rest);
    assert a + c + rest == a + (c + rest);
  }

  /** What is converted from a paired history with named calls can be read off the front. */
  lemma {:induction false} ConvertedAccepted(h: seq<Message>, mint: Message -> nat -> string, rest: seq<Out>)
    requires Paired(h) && CallsNamed(h)
    ensures Accepts(Converted(h, mint) + rest, multiset{}) == Accepts(rest, multiset{})
    decreases |h|
  {
    hide Accepts, ConvertOne, Answers, UseIds, HasCalls, HasResults;
    if h == [] {
      assert Converted(h, mint) + rest == rest;
    } else {
      hide Converted;
      if HasCalls(h[0]) {
        PairStep(h, mint, rest);
        ConvertedAccepted(h[2..], mint, rest);
      } else {
        PlainStep(h, mint, rest);
        ConvertedAccepted(h[1..], mint, rest);
      }
    }
  }

  lemma {:induction false} ConvertedConcat(a: seq<Message>, b: seq<Message>, mint: Message -> nat -> string)
    ensures Converted(a + b, mint) == Converted(a, mint) + Converted(b, mint)
  {
    hide ConvertOne;
    if b == [] {
      assert a + b == a;
    } else {
      ConvertedConcat(a, b[..|b| - 1], mint);
      assert (a + b)[..|a + b| - 1] == a + b[..|b| - 1];
    }
  }

  /** Results whose calls are not in the history are converted to messages nothing owes. */
  lemma LooseResultsBreak(head: seq<Message>, call: Message, rest: seq<Message>, mint: Message -> nat -> string)
    requires Paired(head) && CallsNamed(head)
    requires HasCalls(call) && "" !in UseIds(BlocksOf(call)) && rest != [] && Answers(call, rest[0])
    ensures !Accepts(Converted(head + rest, mint), multiset{})
  {
    FirstToolOf(call, rest[0], mint(rest[0]));
    hide Answers, HasCalls, CallsNamed, Paired, UseIds, ConvertOne;
    ConvertedConcat(head, rest, mint);
    ConvertedAccepted(head, mint, Converted(rest, mint));
    ConvertedFront(rest, mint);
    assert Converted(rest, mint)[0].OutTool?;
  }

  lemma FirstToolOf(call: Message, r: Message, mint: nat -> string)
    requires HasCalls(call) && "" !in UseIds(BlocksOf(call)) && Answers(call, r)
    ensures ConvertOne(r, mint) != [] && ConvertOne(r, mint)[0].OutTool?
  {
    ConvertPair(call, r, mint, mint);
    AnswerHasResults(call, r);
    FirstTool(BlocksOf(r));
  }

  lemma {:induction false} FirstTool(blocks: seq<Block>)
    requires ResultIds(blocks) != [] && forall id | id in ResultIds(blocks) :: id != ""
    ensures ToolsOf(blocks) != [] && ToolsOf(blocks)[0].OutTool?
  {
    ResultsFront(blocks);
    if !blocks[0].ToolResult? {
      FirstTool(blocks[1..]);
    }
  }

  lemma NothingAccepted()
    ensures Accepts([], multiset{})
  {
  }

  lemma {:induction false} MergeAccepted(acc: seq<Out>, a: Out, b: Out, rest: seq<Out>, owed: multiset<string>)
    requires Mergeable(a, b)
    ensures Accepts(acc + [Merged(a, b)] + rest, owed) == Accepts(acc + [a, b] + rest, owed)
    decreases |acc|
  {
    var x, y := acc + [Merged(a, b)] + rest, acc + [a, b] + rest;
    if acc == [] {
      assert x[1..] == rest && y[1..] == [b] + rest && y[1..][1..] == rest;
      assert CallIds([]) == [];
    } else {
      var tail := acc[1..];
      assert x[1..] == tail + [Merged(a, b)] + rest && y[1..] == tail + [a, b] + rest;
      assert x[0] == acc[0] && y[0] == acc[0];
      match acc[0]
      case OutTool(id, _) => MergeAccepted(tail, a, b, rest, owed - multiset{id});
      case OutUser(_) => MergeAccepted(tail, a, b, rest, owed);
      case OutAssistant(_, calls) => MergeAccepted(tail, a, b, rest, multiset(CallIds(calls)));
    }
  }

  lemma {:induction false} AlternatedAccepted(ms: seq<Out>, rest: seq<Out>, owed: multiset<string>)
    ensures Accepts(Alternated(ms) + rest, owed) == Accepts(ms + rest, owed)
    decreases |ms|
  {
    hide Accepts;
    if ms != [] {
      var n := |ms| - 1;
      var acc, m := Alternated(ms[..n]), ms[n];
      AlternatedAccepted(ms[..n], [m] + rest, owed);
      assert ms[..n] + ([m] + rest) == ms + rest;
      if acc != [] && Mergeable(acc[|acc| - 1], m) {
        var l := |acc| - 1;
        MergeAccepted(acc[..l], acc[l], m, rest, owed);
        assert acc[..l] + [acc[l], m] + rest == acc + ([m] + rest);
      } else {
        assert acc + [m] + rest == acc + ([m] + rest);
      }
    }
  }

  // --- calls without an id ---

  /** Calls made minus tool messages. */
  function Balance(ms: seq<Out>): int {
    if ms == [] then 0
    else (match ms[0]
          case OutTool(_, _) => -1
          case OutUser(_) => 0
          case OutAssistant(_, calls) => |calls|) + Balance(ms[1..])
  }

  lemma {:induction false} AcceptedIsBalanced(ms: seq<Out>, owed: multiset<string>)
    requires Accepts(ms, owed)
    ensures Balance(ms) == -|owed|
    decreases |ms|
  {
    if ms != [] {
      AcceptedIsBalanced(ms[1..], if ms[0].OutTool? then owed - multiset{ms[0].callId} else Owing(ms[0]));
    }
  }

  lemma {:induction false} BalanceConcat(a: seq<Out>, b: seq<Out>)
    ensures Balance(a + b) == Balance(a) + Balance(b)
  {
    if a == [] {
      assert a + b == b;
    } else {
      BalanceConcat(a[1..], b);
      assert (a + b)[1..] == a[1..] + b;
    }
  }

  lemma OneMoreTool(tool: Out, ms: seq<Out>)
    requires tool.OutTool?
    ensures Balance([tool] + ms) == Balance(ms) - 1
  {
    assert ([tool] + ms)[1..] == ms;
  }

  function Blanks(ids: seq<string>): nat {
    multiset(ids)[""]
  }

  lemma BlanksFront(id: string, ids: seq<string>)
    ensures Blanks([id] + ids) == (if id == "" then 1 else 0) + Blanks(ids)
  {
    assert multiset([id] + ids) == multiset{id} + multiset(ids);
  }

  lemma {:induction false} CallsCounted(blocks: seq<Block>, mint: nat -> string, n: nat)
    ensures |CallsOf(blocks, mint, n)| == |UseIds(blocks)|
  {
    if blocks != [] {
      CallsCounted(blocks[1..], mint, if blocks[0].ToolUse? then n + 1 else n);
    }
  }

  /** A result that names no call gives no tool message. */
  lemma {:induction false} ToolsCounted(blocks: seq<Block>)
    ensures Balance(ToolsOf(blocks)) == Blanks(ResultIds(blocks)) - |ResultIds(blocks)|
  {
    if blocks != [] {
      ToolsCounted(blocks[1..]);
      ToolsFront(blocks);
      hide *;
      if blocks[0].ToolResult? {
        BlanksFront(blocks[0].useId, ResultIds(blocks[1..]));
        if blocks[0].useId != "" {
          OneMoreTool(ToolsOf(blocks)[0], ToolsOf(blocks[1..]));
        }
      }
    }
  }

  lemma ToolsFront(blocks: seq<Block>)
    requires blocks != []
    ensures ResultIds(blocks) == (if blocks[0].ToolResult? then [blocks[0].useId] else []) + ResultIds(blocks[1..])
    ensures if blocks[0].ToolResult? && blocks[0].useId != "" then
              && ToolsOf(blocks) != [] && ToolsOf(blocks)[0].OutTool?
              && ToolsOf(blocks) == [ToolsOf(blocks)[0]] + ToolsOf(blocks[1..])
            else ToolsOf(blocks) == ToolsOf(blocks[1..])
  {
  }

  /** How many calls of a history carry no id. */
  function Unnamed(h: seq<Message>): nat {
    if h == [] then 0 else Blanks(UseIds(BlocksOf(h[0]))) + Unnamed(h[1..])
  }

  lemma {:induction false} NoneUnnamed(h: seq<Message>)
    ensures Unnamed(h) == 0 <==> CallsNamed(h)
  {
    if h != [] {
      NoneUnnamed(h[1..]);
      assert forall m :: m in h <==> m == h[0] || m in h[1..];
      assert Blanks(UseIds(BlocksOf(h[0]))) == 0 <==> "" !in UseIds(BlocksOf(h[0]));
    }
  }

  lemma PairBalance(m: Message, r: Message, mint: nat -> string, none: nat -> string)
    requires HasCalls(m) && Answers(m, r)
    ensures Balance(ConvertOne(m, mint)) + Balance(ConvertOne(r, none)) == Blanks(UseIds(BlocksOf(m)))
    ensures Blanks(UseIds(BlocksOf(r))) == 0
  {
    HasBlocks(m);
    HasBlocks(r);
    AnswerHasResults(m, r);
    CallsCounted(BlocksOf(m), mint, 0);
    ToolsCounted(BlocksOf(r));
    hide CallsOf, ToolsOf, UseIds, ResultIds, TextOf;
    var call := ConvertOne(m, mint);
    assert call[1..] == [];
    assert |multiset(ResultIds(BlocksOf(r)))| == |multiset(UseIds(BlocksOf(m)))|;
  }

  lemma PlainBalance(m: Message, mint: nat -> string)
    requires !HasCalls(m) && !HasResults(m)
    ensures Balance(ConvertOne(m, mint)) == 0 && Blanks(UseIds(BlocksOf(m))) == 0
  {
    var out := ConvertOne(m, mint);
    if out != [] {
      assert out[1..] == [];
    }
  }

  lemma {:induction false} ConvertedBalance(h: seq<Message>, mint: Message -> nat -> string)
    requires Paired(h)
    ensures Balance(Converted(h, mint)) == Unnamed(h)
    decreases |h|
  {
    hide ConvertOne, Answers, UseIds, HasCalls, HasResults, Blanks;
    if h == [] {
    } else if HasCalls(h[0]) {
      ConvertedBalance(h[2..], mint);
      ConvertedFront(h, mint);
      ConvertedFront(h[1..], mint);
      assert h[1..][1..] == h[2..];
      PairBalance(h[0], h[1], mint(h[0]), mint(h[1]));
      BalanceConcat(ConvertOne(h[0], mint(h[0])), Converted(h[1..], mint));
      BalanceConcat(ConvertOne(h[1], mint(h[1])), Converted(h[2..], mint));
    } else {
      ConvertedBalance(h[1..], mint);
      ConvertedFront(h, mint);
      PlainBalance(h[0], mint(h[0]));
      BalanceConcat(ConvertOne(h[0], mint(h[0])), Converted(h[1..], mint));
    }
  }

  lemma AlternationKeepsProtocol(ms: seq<Out>)
    ensures Protocol(Alternated(ms), multiset{}) <==> Accepts(ms, multiset{})
  {
    hide Protocol;
    AlternatedAccepted(ms, [], multiset{});
    assert ms + [] == ms && Alternated(ms) + [] == Alternated(ms);
    AcceptsIffProtocol(Alternated(ms), multiset{});
  }

  /** The converted messages of a paired history follow the protocol, with every assistant
      message with calls directly followed by exactly one tool message per call and tool
      messages nowhere else, exactly when every call of the history carries an id: a call
      without one is given a minted id, but its result is dropped. */
  lemma {:induction false} ConversionKeepsProtocol(h: seq<Message>, mint: Message -> nat -> string)
    requires Paired(h)
    ensures Protocol(Alternated(Converted(h, mint)), multiset{}) <==> CallsNamed(h)
  {
    hide Protocol, Accepts, Alternated, Converted, CallsNamed, Paired;
    var ms := Converted(h, mint);
    AlternationKeepsProtocol(ms);
    if CallsNamed(h) {
      ConvertedAccepted(h, mint, []);
      assert ms + [] == ms;
      NothingAccepted();
    }
    if Accepts(ms, multiset{}) {
      AcceptedIsBalanced(ms, multiset{});
      ConvertedBalance(h, mint);
      NoneUnnamed(h);
    }
  }

  const UNNAMED_CALL := [Message(Assistant, Blocks([ToolUse("", "read", "{}")])), Message(User, Blocks([ToolResult("", "text")]))]

  /** A paired history whose conversion leaves a call unanswered, whatever id is minted. */
  lemma UnnamedCallBreaks(mint: Message -> nat -> string)
    ensures Paired(UNNAMED_CALL) && !Protocol(Alternated(Converted(UNNAMED_CALL, mint)), multiset{})
  {
    var use, result := BlocksOf(UNNAMED_CALL[0]), BlocksOf(UNNAMED_CALL[1]);
    assert use[1..] == [] && result[1..] == [] && UNNAMED_CALL[2..] == [];
    assert UseIds(use) == [""] && ResultIds(use) == [] && ResultIds(result) == [""] && UseIds(result) == [];
    assert Answers(UNNAMED_CALL[0], UNNAMED_CALL[1]);
    assert UNNAMED_CALL[0] in UNNAMED_CALL;
    hide Converted, Alternated, Protocol;
    ConversionKeepsProtocol(UNNAMED_CALL, mint);
  }
}
