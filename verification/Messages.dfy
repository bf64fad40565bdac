/** Conversation history, and the rule that every tool call is followed by its results. */
module Messages {

  datatype Role = User | Assistant

  /** A block; a missing string field is the empty string, as the code treats both alike. */
  datatype Block =
    | Text(text: string)
    | ToolUse(id: string, name: string, input: string)
    | ToolResult(useId: string, content: string)

  datatype Content = Plain(text: string) | Blocks(blocks: seq<Block>)

  datatype Message = Message(role: Role, content: Content)

  function BlocksOf(m: Message): seq<Block> {
    if m.content.Blocks? then m.content.blocks else []
  }

  /** The ids of the calls among some blocks, in order. */
  function UseIds(blocks: seq<Block>): seq<string> {
    if blocks == [] then []
    else (if blocks[0].ToolUse? then [blocks[0].id] else []) + UseIds(blocks[1..])
  }

  /** The call ids the results among some blocks answer, in order. */
  function ResultIds(blocks: seq<Block>): seq<string> {
    if blocks == [] then []
    else (if blocks[0].ToolResult? then [blocks[0].useId] else []) + ResultIds(blocks[1..])
  }

  predicate HasResults(m: Message) {
    ResultIds(BlocksOf(m)) != []
  }

  predicate HasCalls(m: Message) {
    !HasResults(m) && UseIds(BlocksOf(m)) != []
  }

  /** r carries exactly one result for each call of m, in any order, and no calls itself. */
  predicate Answers(m: Message, r: Message) {
    && m.role == Assistant && r.role == User
    && multiset(ResultIds(BlocksOf(r))) == multiset(UseIds(BlocksOf(m)))
    && UseIds(BlocksOf(r)) == []
  }

  /** Every call of the history carries an id. */
  predicate CallsNamed(h: seq<Message>) {
    forall m | m in h :: "" !in UseIds(BlocksOf(m))
  }

  /** Every message with calls is directly followed by the results of exactly those calls,
      and results appear nowhere else. */
  predicate Paired(h: seq<Message>) {
    if h == [] then true
    else if HasCalls(h[0]) then |h| > 1 && Answers(h[0], h[1]) && Paired(h[2..])
    else !HasResults(h[0]) && Paired(h[1..])
  }

  lemma {:induction false} PairedAppend(a: seq<Message>, b: seq<Message>)
    requires Paired(a) && Paired(b)
    ensures Paired(a + b)
    decreases |a|
  {
    hide HasCalls, HasResults, Answers;
    var h := a + b;
    if a == [] {
      assert h == b;
    } else if HasCalls(a[0]) {
      assert h[0] == a[0] && h[1] == a[1] && h[2..] == a[2..] + b;
      PairedAppend(a[2..], b);
    } else {
      assert h[0] == a[0] && h[1..] == a[1..] + b;
      PairedAppend(a[1..], b);
    }
  }

  lemma AnswerHasResults(m: Message, r: Message)
    requires HasCalls(m) && Answers(m, r)
    ensures HasResults(r)
  {
    assert |multiset(ResultIds(BlocksOf(r)))| == |multiset(UseIds(BlocksOf(m)))|;
  }

  /** Cutting a paired history leaves two paired halves exactly when the cut does not fall
      between a message with calls and its results. */
  lemma {:induction false} PairedCut(a: seq<Message>, b: seq<Message>)
    requires Paired(a + b)
    ensures a == [] || !HasCalls(a[|a| - 1]) ==> Paired(a) && Paired(b)
    ensures a != [] && HasCalls(a[|a| - 1]) ==> !Paired(b) && !Paired(a)
    decreases |a|
  {
    hide HasCalls, HasResults, Answers;
    var h := a + b;
    if a == [] {
      assert h == b;
    } else if HasCalls(h[0]) {
      assert h[0] == a[0];
      AnswerHasResults(h[0], h[1]);
      CallsExcludeResults(h[1]);
      if |a| == 1 {
        assert b[0] == h[1];
      } else {
        assert a[1] == h[1] && h[2..] == a[2..] + b;
        PairedCut(a[2..], b);
        assert |a| > 2 ==> a[2..][|a| - 3] == a[|a| - 1];
      }
    } else {
      assert h[0] == a[0] && h[1..] == a[1..] + b;
      PairedCut(a[1..], b);
      assert |a| > 1 ==> a[1..][|a| - 2] == a[|a| - 1];
    }
  }

  lemma CallsExcludeResults(m: Message)
    ensures HasResults(m) ==> !HasCalls(m)
  {
  }
}
