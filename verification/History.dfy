/** The tool loops and the other operations on a conversation history. */
module History {
  import opened Prelude
  import Str = Text
  import opened Messages
  import opened Compaction
  import opened Display

  // --- one exchange ---

  /** What a model response may contain; json is the text of a call's input. */
  datatype Piece = Words(text: string) | Thinking | Use(id: string, name: string, input: Json, json: string)

  datatype Usage = Usage(input: nat, output: nat, cacheRead: nat, cacheCreated: nat)

  datatype Reply = Reply(toolStop: bool, pieces: seq<Piece>, usage: Usage)

  predicate HasUse(pieces: seq<Piece>) {
    exists p | p in pieces :: p.Use?
  }

  /** The loop goes on: the response stopped for tools and does carry a call. */
  predicate Continues(r: Reply) {
    r.toolStop && HasUse(r.pieces)
  }

  /** The blocks stored for a response: calls, and the texts worth keeping. */
  function KeptBlocks(pieces: seq<Piece>, keep: string -> bool): seq<Block> {
    if pieces == [] then []
    else
      (match pieces[0]
       case Words(text) => if keep(text) then [Text(text)] else []
       case Thinking => []
       case Use(id, name, _, json) => [ToolUse(id, name, json)]) + KeptBlocks(pieces[1..], keep)
  }

  /** The results of the calls to safe tools, or to the others, in order. */
  function ResultsFor(pieces: seq<Piece>, safe: string -> bool, wanted: bool, run: Piece -> string): seq<Block> {
    if pieces == [] then []
    else (if pieces[0].Use? && safe(pieces[0].name) == wanted then [ToolResult(pieces[0].id, run(pieces[0]))] else []) +
         ResultsFor(pieces[1..], safe, wanted, run)
  }

  /** Safe tools first, then the others one by one; run gives the stored text of a call,
      whether its handler answered, raised or does not exist. */
  function Results(pieces: seq<Piece>, safe: string -> bool, run: Piece -> string): seq<Block> {
    ResultsFor(pieces, safe, true, run) + ResultsFor(pieces, safe, false, run)
  }

  function Exchange(r: Reply, keep: string -> bool, safe: string -> bool, run: Piece -> string): seq<Message> {
    [Message(Assistant, Blocks(KeptBlocks(r.pieces, keep))), Message(User, Blocks(Results(r.pieces, safe, run)))]
  }

  /** Everything the environment answers in one turn. */
  datatype Turn = Turn(replies: nat -> Reply, run: nat -> Piece -> string)

  function Exchanges(t: Turn, keep: string -> bool, safe: string -> bool, n: nat): seq<Message> {
    if n == 0 then [] else Exchanges(t, keep, safe, n - 1) + Exchange(t.replies(n - 1), keep, safe, t.run(n - 1))
  }

  lemma IdsFront(blocks: seq<Block>)
    requires blocks != []
    ensures UseIds(blocks) == (if blocks[0].ToolUse? then [blocks[0].id] else []) + UseIds(blocks[1..])
    ensures ResultIds(blocks) == (if blocks[0].ToolResult? then [blocks[0].useId] else []) + ResultIds(blocks[1..])
  {
  }

  lemma NoIds()
    ensures UseIds([]) == [] && ResultIds([]) == []
  {
  }

  lemma {:induction false} UseIdsConcat(a: seq<Block>, b: seq<Block>)
    ensures UseIds(a + b) == UseIds(a) + UseIds(b) && ResultIds(a + b) == ResultIds(a) + ResultIds(b)
  {
    hide *;
    if a == [] {
      NoIds();
      assert a + b == b;
    } else {
      IdsFront(a);
      IdsFront(a + b);
      UseIdsConcat(a[1..], b);
      assert (a + b)[1..] == a[1..] + b;
    }
  }

  /** The ids of the calls to safe tools, or to the others. */
  function IdsFor(pieces: seq<Piece>, safe: string -> bool, wanted: bool): seq<string> {
    if pieces == [] then []
    else (if pieces[0].Use? && safe(pieces[0].name) == wanted then [pieces[0].id] else []) + IdsFor(pieces[1..], safe, wanted)
  }

  function IdsOf(pieces: seq<Piece>): seq<string> {
    if pieces == [] then [] else (if pieces[0].Use? then [pieces[0].id] else []) + IdsOf(pieces[1..])
  }

  lemma OneBlock(b: Block)
    ensures UseIds([b]) == (if b.ToolUse? then [b.id] else []) && ResultIds([b]) == (if b.ToolResult? then [b.useId] else [])
  {
    assert [b][1..] == [];
  }

  lemma {:induction false} KeptIds(pieces: seq<Piece>, keep: string -> bool)
    ensures UseIds(KeptBlocks(pieces, keep)) == IdsOf(pieces) && ResultIds(KeptBlocks(pieces, keep)) == []
    ensures IdsOf(pieces) != [] <==> HasUse(pieces)
  {
    if pieces != [] {
      var rest := KeptBlocks(pieces[1..], keep);
      KeptIds(pieces[1..], keep);
      assert pieces == [pieces[0]] + pieces[1..];
      assert HasUse(pieces) <==> pieces[0].Use? || HasUse(pieces[1..]);
      if KeptBlocks(pieces, keep) != rest {
        var b := KeptBlocks(pieces, keep)[0];
        assert KeptBlocks(pieces, keep) == [b] + rest;
        OneBlock(b);
        UseIdsConcat([b], rest);
      }
    }
  }

  lemma {:induction false} ResultsForIds(pieces: seq<Piece>, safe: string -> bool, wanted: bool, run: Piece -> string)
    ensures ResultIds(ResultsFor(pieces, safe, wanted, run)) == IdsFor(pieces, safe, wanted)
    ensures UseIds(ResultsFor(pieces, safe, wanted, run)) == []
  {
    if pieces != [] {
      var rest := ResultsFor(pieces[1..], safe, wanted, run);
      ResultsForIds(pieces[1..], safe, wanted, run);
      if pieces[0].Use? && safe(pieces[0].name) == wanted {
        OneBlock(ToolResult(pieces[0].id, run(pieces[0])));
        UseIdsConcat([ToolResult(pieces[0].id, run(pieces[0]))], rest);
      } else {
        assert ResultsFor(pieces, safe, wanted, run) == rest;
      }
    }
  }

  lemma {:induction false} IdsSplit(pieces: seq<Piece>, safe: string -> bool)
    ensures multiset(IdsFor(pieces, safe, true)) + multiset(IdsFor(pieces, safe, false)) == multiset(IdsOf(pieces))
  {
    if pieces != [] {
      IdsSplit(pieces[1..], safe);
    }
  }

  lemma {:induction false} ExchangePaired(r: Reply, keep: string -> bool, safe: string -> bool, run: Piece -> string)
    requires HasUse(r.pieces)
    ensures Paired(Exchange(r, keep, safe, run))
  {
    KeptIds(r.pieces, keep);
    ResultsForIds(r.pieces, safe, true, run);
    ResultsForIds(r.pieces, safe, false, run);
    UseIdsConcat(ResultsFor(r.pieces, safe, true, run), ResultsFor(r.pieces, safe, false, run));
    IdsSplit(r.pieces, safe);
    hide KeptBlocks, ResultsFor, IdsOf, IdsFor, UseIds, ResultIds;
    var e := Exchange(r, keep, safe, run);
    assert multiset(ResultIds(BlocksOf(e[1]))) == multiset(UseIds(BlocksOf(e[0])));
    assert HasCalls(e[0]) && Answers(e[0], e[1]);
    assert e[2..] == [];
  }

  /** The block is a piece as it is stored. */
  predicate StoredAs(p: Piece, b: Block) {
    (p.Words? && b == Text(p.text)) || (p.Use? && b == ToolUse(p.id, p.name, p.json))
  }

  /** The piece is stored: a call, or a text worth keeping. */
  predicate IsKept(p: Piece, keep: string -> bool) {
    p.Use? || (p.Words? && keep(p.text))
  }

  /** What a response leaves in the history: its calls and the texts worth keeping, in order. */
  lemma {:induction false} KeptMeaning(pieces: seq<Piece>, keep: string -> bool) returns (at: seq<nat>)
    ensures |at| == |KeptBlocks(pieces, keep)| && forall a, b | 0 <= a < b < |at| :: at[a] < at[b]
    ensures forall k: nat :: k in at <==> k < |pieces| && IsKept(pieces[k], keep)
    ensures forall k | 0 <= k < |at| :: at[k] < |pieces| && StoredAs(pieces[at[k]], KeptBlocks(pieces, keep)[k])
  {
    if pieces == [] {
      at := [];
    } else {
      var rest := KeptMeaning(pieces[1..], keep);
      var kept := IsKept(pieces[0], keep);
      at := Shifted(rest, kept);
      PositionsFront(pieces, rest, (p: Piece) => IsKept(p, keep));
      StoredFront(pieces, keep, rest);
    }
  }

  lemma StoredFront(pieces: seq<Piece>, keep: string -> bool, rest: seq<nat>)
    requires pieces != [] && |rest| == |KeptBlocks(pieces[1..], keep)|
    requires forall k | 0 <= k < |rest| :: rest[k] < |pieces| - 1 && StoredAs(pieces[1..][rest[k]], KeptBlocks(pieces[1..], keep)[k])
    ensures var at := Shifted(rest, IsKept(pieces[0], keep));
            && |at| == |KeptBlocks(pieces, keep)|
            && forall k | 0 <= k < |at| :: at[k] < |pieces| && StoredAs(pieces[at[k]], KeptBlocks(pieces, keep)[k])
  {
    var kept := IsKept(pieces[0], keep);
    var at := Shifted(rest, kept);
    ShiftedAt(rest, kept);
    KeptFront(pieces, keep);
    hide *;
    var all, others := KeptBlocks(pieces, keep), KeptBlocks(pieces[1..], keep);
    if kept {
      forall k | 0 <= k < |at| ensures at[k] < |pieces| && StoredAs(pieces[at[k]], all[k]) {
        if k > 0 {
          assert all[k] == others[k - 1] && pieces[1..][rest[k - 1]] == pieces[rest[k - 1] + 1];
        }
      }
    } else {
      forall k | 0 <= k < |at| ensures at[k] < |pieces| && StoredAs(pieces[at[k]], all[k]) {
        assert all[k] == others[k] && pieces[1..][rest[k]] == pieces[rest[k] + 1];
      }
    }
  }

  /** The positions of the wanted pieces, once one more piece is in front. */
  lemma PositionsFront(pieces: seq<Piece>, rest: seq<nat>, wanted: Piece -> bool)
    requires pieces != [] && forall k: nat :: k in rest <==> k < |pieces[1..]| && wanted(pieces[1..][k])
    requires forall a, b | 0 <= a < b < |rest| :: rest[a] < rest[b]
    ensures var at := Shifted(rest, wanted(pieces[0]));
            && (forall k: nat :: k in at <==> k < |pieces| && wanted(pieces[k]))
            && forall a, b | 0 <= a < b < |at| :: at[a] < at[b]
  {
    var at := Shifted(rest, wanted(pieces[0]));
    ShiftedMeans(rest, wanted(pieces[0]));
    hide *;
    forall k: nat ensures k in at <==> k < |pieces| && wanted(pieces[k]) {
      if k > 0 {
        assert k - 1 in rest <==> k in at;
        assert k < |pieces| ==> pieces[1..][k - 1] == pieces[k];
      }
    }
  }

  lemma KeptFront(pieces: seq<Piece>, keep: string -> bool)
    requires pieces != []
    ensures var kept, all, rest := IsKept(pieces[0], keep), KeptBlocks(pieces, keep), KeptBlocks(pieces[1..], keep);
            if kept then all != [] && StoredAs(pieces[0], all[0]) && all == [all[0]] + rest else all == rest
  {
  }

  /** Positions in a list that has one more element in front, itself listed or not. */
  function Shifted(at: seq<nat>, first: bool): seq<nat> {
    (if first then [0] else []) + seq(|at|, k requires 0 <= k < |at| => at[k] + 1)
  }

  lemma ShiftedAt(at: seq<nat>, first: bool)
    ensures first ==> |Shifted(at, first)| == |at| + 1 && Shifted(at, first)[0] == 0 && forall k | 0 < k <= |at| :: Shifted(at, first)[k] == at[k - 1] + 1
    ensures !first ==> |Shifted(at, first)| == |at| && forall k | 0 <= k < |at| :: Shifted(at, first)[k] == at[k] + 1
  {
  }

  lemma ShiftedMeans(at: seq<nat>, first: bool)
    ensures forall k: nat :: k in Shifted(at, first) <==> if k == 0 then first else k - 1 in at
    ensures (forall a, b | 0 <= a < b < |at| :: at[a] < at[b]) ==>
              forall a, b | 0 <= a < b < |Shifted(at, first)| :: Shifted(at, first)[a] < Shifted(at, first)[b]
  {
    var more := seq(|at|, k requires 0 <= k < |at| => at[k] + 1);
    forall k: nat ensures k in Shifted(at, first) <==> if k == 0 then first else k - 1 in at {
      if k > 0 && k - 1 in at {
        var j :| 0 <= j < |at| && at[j] == k - 1;
        assert more[j] == k;
      }
      if k in more {
        var j :| 0 <= j < |more| && more[j] == k;
        assert at[j] == k - 1;
      }
    }
  }

  /** The results of the calls to safe tools, or to the others: one for each such call, in order,
      with its id and what running it gave. */
  lemma {:induction false} ResultsForMeaning(pieces: seq<Piece>, safe: string -> bool, wanted: bool, run: Piece -> string) returns (at: seq<nat>)
    ensures |at| == |ResultsFor(pieces, safe, wanted, run)| && forall a, b | 0 <= a < b < |at| :: at[a] < at[b]
    ensures forall k: nat :: k in at <==> k < |pieces| && pieces[k].Use? && safe(pieces[k].name) == wanted
    ensures forall k | 0 <= k < |at| :: AnswersAt(pieces, at[k], ResultsFor(pieces, safe, wanted, run)[k], run)
  {
    if pieces == [] {
      at := [];
    } else {
      var rest := ResultsForMeaning(pieces[1..], safe, wanted, run);
      at := Shifted(rest, pieces[0].Use? && safe(pieces[0].name) == wanted);
      PositionsFront(pieces, rest, (p: Piece) => p.Use? && safe(p.name) == wanted);
      ResultsFront(pieces, safe, wanted, run, rest);
    }
  }

  lemma ResultsFront(pieces: seq<Piece>, safe: string -> bool, wanted: bool, run: Piece -> string, rest: seq<nat>)
    requires pieces != [] && |rest| == |ResultsFor(pieces[1..], safe, wanted, run)|
    requires forall k | 0 <= k < |rest| :: rest[k] < |pieces| - 1 && AnswersAt(pieces[1..], rest[k], ResultsFor(pieces[1..], safe, wanted, run)[k], run)
    ensures var at := Shifted(rest, pieces[0].Use? && safe(pieces[0].name) == wanted);
            && |at| == |ResultsFor(pieces, safe, wanted, run)|
            && forall k | 0 <= k < |at| :: at[k] < |pieces| && AnswersAt(pieces, at[k], ResultsFor(pieces, safe, wanted, run)[k], run)
  {
    var own := pieces[0].Use? && safe(pieces[0].name) == wanted;
    var at, all, others := Shifted(rest, own), ResultsFor(pieces, safe, wanted, run), ResultsFor(pieces[1..], safe, wanted, run);
    ShiftedAt(rest, own);
    hide ResultsFor, Shifted;
    if own {
      assert all == [ToolResult(pieces[0].id, run(pieces[0]))] + others by { ResultsAt(pieces, 0, safe, wanted, run); }
      forall k | 0 <= k < |at| ensures at[k] < |pieces| && AnswersAt(pieces, at[k], all[k], run) {
        if k > 0 {
          assert all[k] == others[k - 1] && pieces[1..][rest[k - 1]] == pieces[rest[k - 1] + 1];
        }
      }
    } else {
      assert all == others by { ResultsAt(pieces, 0, safe, wanted, run); }
      forall k | 0 <= k < |at| ensures at[k] < |pieces| && AnswersAt(pieces, at[k], all[k], run) {
        assert pieces[1..][rest[k]] == pieces[rest[k] + 1];
      }
    }
  }

  /** The block answers the call at position k with what running it gave. */
  predicate AnswersAt(pieces: seq<Piece>, k: nat, b: Block, run: Piece -> string) {
    k < |pieces| && pieces[k].Use? && b == ToolResult(pieces[k].id, run(pieces[k]))
  }

  /** The stored results of a response: those of the safe calls in order, then those of the
      others in order, each with its call's id and the text running it gave, and none missing. */
  lemma ResultsMeaning(pieces: seq<Piece>, safe: string -> bool, run: Piece -> string) returns (at: seq<nat>)
    ensures var results := Results(pieces, safe, run);
            && |at| == |results|
            && (forall k: nat :: k in at <==> k < |pieces| && pieces[k].Use?)
            && (forall k | 0 <= k < |at| :: AnswersAt(pieces, at[k], results[k], run))
            && (forall a, b | 0 <= a < b < |at| ::
                  (safe(pieces[at[a]].name) && !safe(pieces[at[b]].name)) || (safe(pieces[at[a]].name) == safe(pieces[at[b]].name) && at[a] < at[b]))
  {
    var first := ResultsForMeaning(pieces, safe, true, run);
    var others := ResultsForMeaning(pieces, safe, false, run);
    at := first + others;
    var results := Results(pieces, safe, run);
    assert results == ResultsFor(pieces, safe, true, run) + ResultsFor(pieces, safe, false, run);
    hide ResultsFor, Results;
    forall k | 0 <= k < |at|
      ensures AnswersAt(pieces, at[k], results[k], run) && at[k] < |pieces| && pieces[at[k]].Use?
      ensures safe(pieces[at[k]].name) == (k < |first|)
    {
      if k < |first| {
        assert at[k] == first[k] && first[k] in first;
      } else {
        assert at[k] == others[k - |first|] && others[k - |first|] in others;
      }
    }
    forall k: nat ensures k in at <==> k < |pieces| && pieces[k].Use? {
      assert k in at <==> k in first || k in others;
    }
    forall a, b | 0 <= a < b < |at|
      ensures (safe(pieces[at[a]].name) && !safe(pieces[at[b]].name)) || (safe(pieces[at[a]].name) == safe(pieces[at[b]].name) && at[a] < at[b])
    {
      if b < |first| {
        assert first[a] < first[b];
      } else if a >= |first| {
        assert others[a - |first|] < others[b - |first|];
      }
    }
  }

  lemma SpentMeaning(replies: nat -> Reply, n: nat)
    ensures Spent(replies, 0) == Usage(0, 0, 0, 0)
    ensures var before, after, last := Spent(replies, n), Spent(replies, n + 1), replies(n).usage;
            && after.input == before.input + last.input && after.output == before.output + last.output
            && after.cacheRead == before.cacheRead + last.cacheRead && after.cacheCreated == before.cacheCreated + last.cacheCreated
  {
  }

  /** Which texts are worth keeping: for one loop those that are not empty, for the other those
      that show anything. */
  lemma KeepsExactly(text: string)
    ensures NonEmpty()(text) <==> |text| > 0
    ensures NonBlank()(text) <==> exists c | c in text :: !Str.IsSpace(c)
  {
    StripsAll(text);
  }

  lemma StripsAll(text: string)
    ensures Str.Strip(text) == "" <==> forall c | c in text :: Str.IsSpace(c)
  {
    Str.StripLeftHead(text);
    LeftStripsAll(text);
    var rest := Str.StripLeft(text);
    if rest != "" {
      Str.StripRightKeeps(rest, rest[..1]);
    }
  }

  lemma {:induction false} LeftStripsAll(text: string)
    ensures Str.StripLeft(text) == "" <==> forall c | c in text :: Str.IsSpace(c)
  {
    if text != "" {
      assert forall c :: c in text <==> c == text[0] || c in text[1..];
      if Str.IsSpace(text[0]) {
        LeftStripsAll(text[1..]);
      }
    }
  }

  lemma {:induction false} ExchangesPaired(t: Turn, keep: string -> bool, safe: string -> bool, n: nat)
    requires forall k: nat | k < n :: Continues(t.replies(k))
    ensures Paired(Exchanges(t, keep, safe, n))
  {
    hide *;
    if n == 0 {
      NoneIsPaired(t, keep, safe);
    } else {
      ExchangesBack(t, keep, safe, n);
      UseOf(t.replies(n - 1));
      ExchangesPaired(t, keep, safe, n - 1);
      ExchangePaired(t.replies(n - 1), keep, safe, t.run(n - 1));
      PairedAppend(Exchanges(t, keep, safe, n - 1), Exchange(t.replies(n - 1), keep, safe, t.run(n - 1)));
    }
  }

  lemma NoneIsPaired(t: Turn, keep: string -> bool, safe: string -> bool)
    ensures Paired(Exchanges(t, keep, safe, 0))
  {
  }

  lemma ExchangesBack(t: Turn, keep: string -> bool, safe: string -> bool, n: nat)
    requires n > 0
    ensures Exchanges(t, keep, safe, n) == Exchanges(t, keep, safe, n - 1) + Exchange(t.replies(n - 1), keep, safe, t.run(n - 1))
  {
  }

  lemma UseOf(r: Reply)
    requires Continues(r)
    ensures HasUse(r.pieces)
  {
  }

  /** The added messages alternate: what each response leaves, then the results of its calls. */
  lemma {:induction false} ExchangesAlternate(t: Turn, keep: string -> bool, safe: string -> bool, n: nat, k: nat)
    requires k < n
    ensures |Exchanges(t, keep, safe, n)| == 2 * n
    ensures Exchanges(t, keep, safe, n)[2 * k] == Message(Assistant, Blocks(KeptBlocks(t.replies(k).pieces, keep)))
    ensures Exchanges(t, keep, safe, n)[2 * k + 1] == Message(User, Blocks(Results(t.replies(k).pieces, safe, t.run(k))))
  {
    hide KeptBlocks, Results;
    if k < n - 1 {
      ExchangesAlternate(t, keep, safe, n - 1, k);
    } else if n > 1 {
      ExchangesAlternate(t, keep, safe, n - 1, 0);
    }
  }

  // --- the loop of the event-driven agent ---

  const SAFE_TOOLS := {"read", "glob", "grep", "search_memory", "check_facts", "memory_status"}

  function NonEmpty(): string -> bool {
    s => s != ""
  }

  function SafeTool(): string -> bool {
    name => name in SAFE_TOOLS
  }

  lemma SafeExactly(name: string)
    ensures SafeTool()(name) <==>
              name == "read" || name == "glob" || name == "grep" ||
              name == "search_memory" || name == "check_facts" || name == "memory_status"
  {
  }

  /** The texts of a response worth returning. */
  function WordsOf(pieces: seq<Piece>): seq<string> {
    if pieces == [] then []
    else (if pieces[0].Words? && pieces[0].text != "" then [pieces[0].text] else []) + WordsOf(pieces[1..])
  }

  /** The texts of a response, in order, without the empty ones. */
  lemma {:induction false} WordsMeaning(pieces: seq<Piece>, p: Piece)
    ensures WordsOf([]) == []
    ensures WordsOf(pieces + [p]) == WordsOf(pieces) + (if p.Words? && |p.text| > 0 then [p.text] else [])
  {
    if pieces == [] {
      assert pieces + [p] == [p] && [p][1..] == [];
    } else {
      assert (pieces + [p])[1..] == pieces[1..] + [p];
      WordsMeaning(pieces[1..], p);
    }
  }

  /** What the first n replies cost together. */
  function Spent(replies: nat -> Reply, n: nat): Usage {
    if n == 0 then Usage(0, 0, 0, 0)
    else
      var before, last := Spent(replies, n - 1), replies(n - 1).usage;
      Usage(before.input + last.input, before.output + last.output,
            before.cacheRead + last.cacheRead, before.cacheCreated + last.cacheCreated)
  }

  /** Extends a history by whole exchanges only; the final response is returned, not stored.
      The text returned is that of the last response asked for, and the usage that of all of
      them; with no iteration allowed there is none, and the call raises. */
  method RunWithTools(messages: seq<Message>, t: Turn, maxIterations: nat)
    returns (msgs: seq<Message>, text: Option<string>, usage: Usage, ghost n: nat)
    ensures n <= maxIterations && (forall k: nat | k < n :: Continues(t.replies(k)))
    ensures n == maxIterations || !Continues(t.replies(n))
    ensures msgs == messages + Exchanges(t, NonEmpty(), SafeTool(), n)
    ensures Paired(messages) ==> Paired(msgs)
    ensures var asked := if n < maxIterations then n + 1 else n;
            && usage == Spent(t.replies, asked)
            && text == if asked == 0 then None else Some(Str.Join(WordsOf(t.replies(asked - 1).pieces), '\n'))
  {
    hide KeptBlocks, ResultsFor, WordsOf, Paired, HasUse;
    msgs, text, usage := messages, None, Usage(0, 0, 0, 0);
    n := 0;
    var iteration := 0;
    while iteration < maxIterations
      invariant 0 <= iteration <= maxIterations && n == iteration
      invariant forall k: nat | k < n :: Continues(t.replies(k))
      invariant msgs == messages + Exchanges(t, NonEmpty(), SafeTool(), n)
      invariant usage == Spent(t.replies, n)
      invariant text == if n == 0 then None else Some(Str.Join(WordsOf(t.replies(n - 1).pieces), '\n'))
    {
      var reply := t.replies(iteration);
      usage := Usage(usage.input + reply.usage.input, usage.output + reply.usage.output,
                     usage.cacheRead + reply.usage.cacheRead, usage.cacheCreated + reply.usage.cacheCreated);
      text := Some(Str.Join(WordsOf(reply.pieces), '\n'));
      var content := KeptBlocks(reply.pieces, NonEmpty());
      if !reply.toolStop || !HasUse(reply.pieces) {
        break;
      }
      ghost var before := msgs;
      msgs := msgs + [Message(Assistant, Blocks(content))];
      var toolResults := ResultsFor(reply.pieces, SafeTool(), true, t.run(iteration));
      toolResults := toolResults + ResultsFor(reply.pieces, SafeTool(), false, t.run(iteration));
      msgs := msgs + [Message(User, Blocks(toolResults))];
      assert msgs == before + Exchange(reply, NonEmpty(), SafeTool(), t.run(iteration));
      iteration := iteration + 1;
      n := n + 1;
    }
    if Paired(messages) {
      ExchangesPaired(t, NonEmpty(), SafeTool(), n);
      PairedAppend(messages, Exchanges(t, NonEmpty(), SafeTool(), n));
    }
  }

  // --- the local agent ---

  /** Two histories that differ in texts only. */
  predicate SameShape(g: seq<Message>, h: seq<Message>) {
    |g| == |h| && forall i | 0 <= i < |g| :: SameIds(g[i], h[i])
  }

  predicate SameIds(m: Message, n: Message) {
    m.role == n.role && UseIds(BlocksOf(m)) == UseIds(BlocksOf(n)) && ResultIds(BlocksOf(m)) == ResultIds(BlocksOf(n))
  }

  lemma {:induction false} ShapeDecidesPairing(g: seq<Message>, h: seq<Message>)
    requires SameShape(g, h)
    ensures Paired(g) == Paired(h)
    decreases |g|
  {
    if g != [] {
      IdsDecide(g[0], h[0]);
      if |g| > 1 {
        AnswersAlike(g[0], g[1], h[0], h[1]);
      }
      hide HasCalls, HasResults, Answers, SameShape;
      var k := if HasCalls(g[0]) then 2 else 1;
      if |g| >= k {
        ShapeTail(g, h, k);
        ShapeDecidesPairing(g[k..], h[k..]);
      }
    }
  }

  lemma ShapeTail(g: seq<Message>, h: seq<Message>, k: nat)
    requires SameShape(g, h) && k <= |g|
    ensures SameShape(g[k..], h[k..])
  {
  }

  lemma IdsDecide(m: Message, n: Message)
    requires SameIds(m, n)
    ensures HasCalls(m) == HasCalls(n) && HasResults(m) == HasResults(n)
  {
  }

  lemma AnswersAlike(m: Message, r: Message, n: Message, s: Message)
    requires SameIds(m, n) && SameIds(r, s)
    ensures Answers(m, r) == Answers(n, s)
  {
  }

  /** The name of the call with the given id among some blocks. */
  function NameOf(blocks: seq<Block>, id: string): string {
    if blocks == [] then "tool"
    else if blocks[0].ToolUse? && blocks[0].id == id then (if blocks[0].name == "" then "tool" else blocks[0].name)
    else NameOf(blocks[1..], id)
  }

  const COMPACT_LENGTH := 200

  /** Long results become a summary by tool; everything else is kept. */
  function Shortened(b: Block, before: seq<Block>, summarize: (string, string) -> string): Block {
    if b.ToolResult? && |b.content| > COMPACT_LENGTH then b.(content := summarize(NameOf(before, b.useId), b.content)) else b
  }

  function ShortenedBlocks(blocks: seq<Block>, before: seq<Block>, summarize: (string, string) -> string): seq<Block> {
    seq(|blocks|, j requires 0 <= j < |blocks| => Shortened(blocks[j], before, summarize))
  }

  /** Message i of a history whose long tool results are summarised. */
  function CompressedAt(h: seq<Message>, i: nat, summarize: (string, string) -> string): Message
    requires i < |h|
  {
    if h[i].role == Assistant || h[i].content.Plain? then h[i]
    else
      var before := if i > 0 && h[i - 1].role == Assistant then BlocksOf(h[i - 1]) else [];
      Message(User, Blocks(ShortenedBlocks(h[i].content.blocks, before, summarize)))
  }

  function Compressed(h: seq<Message>, summarize: (string, string) -> string): seq<Message> {
    seq(|h|, i requires 0 <= i < |h| => CompressedAt(h, i, summarize))
  }

  /** The name of the first call with the id; a call without a name, or none, is a tool. */
  lemma {:induction false} NameMeaning(blocks: seq<Block>, id: string)
    ensures (forall b | b in blocks :: !(b.ToolUse? && b.id == id)) ==> NameOf(blocks, id) == "tool"
    ensures forall k | 0 <= k < |blocks| && blocks[k].ToolUse? && blocks[k].id == id &&
              (forall j | 0 <= j < k :: !(blocks[j].ToolUse? && blocks[j].id == id)) ::
              NameOf(blocks, id) == if |blocks[k].name| == 0 then "tool" else blocks[k].name
  {
    if blocks != [] && !(blocks[0].ToolUse? && blocks[0].id == id) {
      NameMeaning(blocks[1..], id);
      assert forall b | b in blocks[1..] :: b in blocks;
      forall k | 0 <= k < |blocks| && blocks[k].ToolUse? && blocks[k].id == id &&
        (forall j | 0 <= j < k :: !(blocks[j].ToolUse? && blocks[j].id == id))
        ensures NameOf(blocks, id) == if |blocks[k].name| == 0 then "tool" else blocks[k].name
      {
        assert blocks[1..][k - 1] == blocks[k];
        assert forall j | 0 <= j < k - 1 :: blocks[1..][j] == blocks[j + 1];
      }
    }
  }

  /** Which content each block has after compression: a result of a user message longer than two
      hundred characters is summarised under the name of its call in the message before it, if
      that is the assistant's; everything else keeps what it has. */
  lemma CompressedMeaning(h: seq<Message>, summarize: (string, string) -> string, i: nat, j: nat)
    requires i < |h| && h[i].content.Blocks? && j < |h[i].content.blocks|
    ensures var g, b := Compressed(h, summarize), h[i].content.blocks[j];
            && |g| == |h| && g[i].content.Blocks? && |g[i].content.blocks| == |h[i].content.blocks|
            && g[i].content.blocks[j] ==
               if h[i].role == User && b.ToolResult? && |b.content| > 200 then
                 b.(content := summarize(if i > 0 && h[i - 1].role == Assistant then NameOf(BlocksOf(h[i - 1]), b.useId) else "tool", b.content))
               else b
  {
    if h[i].content.blocks[j].ToolResult? {
      assert NameOf([], h[i].content.blocks[j].useId) == "tool";
    }
  }

  lemma {:induction false} ShorteningKeepsIds(blocks: seq<Block>, before: seq<Block>, summarize: (string, string) -> string)
    ensures UseIds(ShortenedBlocks(blocks, before, summarize)) == UseIds(blocks)
    ensures ResultIds(ShortenedBlocks(blocks, before, summarize)) == ResultIds(blocks)
  {
    if blocks != [] {
      var short := ShortenedBlocks(blocks, before, summarize);
      assert short[1..] == ShortenedBlocks(blocks[1..], before, summarize);
      ShorteningKeepsIds(blocks[1..], before, summarize);
    }
  }

  /** Summarising results changes neither roles nor ids, and so not the pairing. */
  lemma CompressionKeepsShape(h: seq<Message>, summarize: (string, string) -> string)
    ensures SameShape(h, Compressed(h, summarize)) && Paired(Compressed(h, summarize)) == Paired(h)
  {
    var g := Compressed(h, summarize);
    CompressionKeepsIds(h, summarize);
    ShapeDecidesPairing(h, g);
  }

  lemma CompressionKeepsIds(h: seq<Message>, summarize: (string, string) -> string)
    ensures SameShape(h, Compressed(h, summarize))
  {
    hide UseIds, ResultIds, ShortenedBlocks;
    var g := Compressed(h, summarize);
    forall k | 0 <= k < |h| ensures SameIds(h[k], g[k]) {
      if h[k].role == User && h[k].content.Blocks? {
        ShorteningKeepsIds(h[k].content.blocks, if k > 0 && h[k - 1].role == Assistant then BlocksOf(h[k - 1]) else [], summarize);
      }
    }
  }

  /** The blocks of one message, each overwritten by its shortened form. */
  method ShortenResults(original: seq<Block>, before: seq<Block>, summarize: (string, string) -> string) returns (blocks: seq<Block>)
    ensures blocks == ShortenedBlocks(original, before, summarize)
  {
    blocks := original;
    var j := 0;
    while j < |blocks|
      invariant 0 <= j <= |blocks| == |original|
      invariant forall k | 0 <= k < j :: blocks[k] == Shortened(original[k], before, summarize)
      invariant forall k | j <= k < |blocks| :: blocks[k] == original[k]
    {
      blocks := blocks[j := Shortened(blocks[j], before, summarize)];
      j := j + 1;
    }
  }

  /** A saved chat entry; id is the one drawn for a restored tool call. */
  datatype Saved =
    | SavedUser(content: string)
    | SavedAgent(content: string)
    | SavedTool(id: string, tool: string, input: string, result: string)
    | SavedOther

  function Restored(m: Saved): seq<Message> {
    match m
    case SavedUser(content) => [Message(User, Plain(content))]
    case SavedAgent(content) => [Message(Assistant, Blocks([Text(content)]))]
    case SavedTool(id, tool, input, result) =>
      [Message(Assistant, Blocks([ToolUse(id, if tool == "" then "unknown" else tool, input)])),
       Message(User, Blocks([ToolResult(id, if |result| > 2000 then result[..2000] else result)]))]
    case SavedOther => []
  }

  function RestoredAll(saved: seq<Saved>): seq<Message> {
    if saved == [] then [] else RestoredAll(saved[..|saved| - 1]) + Restored(saved[|saved| - 1])
  }

  /** What saved entries become: user and agent texts one message each; a tool call two, the call
      with the saved tool and input and a result under the same id with the first two thousand
      characters of what was saved. */
  lemma RestoredMeaning(m: Saved)
    ensures m.SavedUser? ==> Restored(m) == [Message(User, Plain(m.content))]
    ensures m.SavedAgent? ==> Restored(m) == [Message(Assistant, Blocks([Text(m.content)]))]
    ensures m.SavedTool? ==>
              && |Restored(m)| == 2
              && Restored(m)[0].role == Assistant && Restored(m)[1].role == User
              && |BlocksOf(Restored(m)[0])| == 1 && |BlocksOf(Restored(m)[1])| == 1
              && var call, result := BlocksOf(Restored(m)[0])[0], BlocksOf(Restored(m)[1])[0];
              && call.ToolUse? && call.id == m.id && call.input == m.input
              && call.name == (if |m.tool| == 0 then "unknown" else m.tool)
              && result.ToolResult? && result.useId == m.id && result.content <= m.result
              && |result.content| == (if |m.result| <= 2000 then |m.result| else 2000)
    ensures m.SavedOther? ==> Restored(m) == []
  {
  }

  /** A restored history is always paired, whatever was saved. */
  lemma {:induction false} RestoredAllPaired(saved: seq<Saved>)
    ensures Paired(RestoredAll(saved))
  {
    if saved != [] {
      var n := |saved| - 1;
      RestoredAllPaired(saved[..n]);
      RestoredPaired(saved[n]);
      PairedAppend(RestoredAll(saved[..n]), Restored(saved[n]));
    }
  }

  lemma RestoredPaired(m: Saved)
    ensures Paired(Restored(m))
  {
    var r := Restored(m);
    if |r| == 1 {
      if r[0].content.Blocks? {
        OneBlock(r[0].content.blocks[0]);
      }
      assert r[1..] == [];
    } else if |r| == 2 {
      OneBlock(r[0].content.blocks[0]);
      OneBlock(r[1].content.blocks[0]);
      assert r[2..] == [];
    }
  }

  /** A call left without results breaks the pairing. */
  lemma OpenCallBreaks(h: seq<Message>, m: Message)
    requires HasCalls(m)
    ensures !Paired(h + [m])
  {
    if Paired(h + [m]) {
      assert h + [m] + [] == h + [m];
      PairedCut(h + [m], []);
    }
  }

  lemma ClosedMessagePairs(h: seq<Message>, m: Message)
    requires Paired(h) && !HasCalls(m) && !HasResults(m)
    ensures Paired(h + [m])
  {
    assert [m][1..] == [];
    PairedAppend(h, [m]);
  }

  function NonBlank(): string -> bool {
    s => Str.Strip(s) != ""
  }

  /** What the turn stores for a response that ends it. */
  function FinalMessages(r: Reply): seq<Message> {
    var clean := KeptBlocks(r.pieces, NonBlank());
    if clean == [] then [] else [Message(Assistant, Blocks(clean))]
  }

  // --- a whole turn ---

  /** The texts pushed for commands that start a turn, and for a review. */
  datatype Prompts = Prompts(commit: string -> string, plan: string -> string, feedback: string -> string)

  /** What is fixed for an agent. */
  datatype Setup = Setup(
    words: Wording,
    keepRecent: nat,
    safe: string -> bool,
    summarize: (string, string) -> string,
    maxIterations: nat,
    prompts: Prompts,
    numberOf: Json -> Option<real>)   // the number a text or a list is compared as

  /** What becomes of a call to a tool that is not safe: executed without asking, or as the
      user answers. */
  datatype Consent = Unasked | Allowed | Denied

  /** One message of the user, with all that happens because of it: the system prompt and the
      context size of the model in use, what the summariser and the review answer, None when
      they raise, the replies and tool results, before which iterations the turn is
      interrupted, by a cancellation or a failed call, and the user's consents. */
  datatype UserTurn = UserTurn(
    content: string,
    system: string,
    contextTokens: nat,
    summary: Option<string>,
    review: Option<string>,
    turn: Turn,
    interrupted: nat -> bool,
    consent: nat -> Piece -> Consent)

  datatype Command = Commit(note: string) | Clear | Compact | Model | Review | Plan(task: string) | Help | Ordinary

  function FirstWord(s: string): string {
    if s == "" || Str.IsSpace(s[0]) then "" else [s[0]] + FirstWord(s[1..])
  }

  lemma {:induction false} FirstWordLength(s: string)
    ensures |FirstWord(s)| <= |s|
  {
    if s != "" && !Str.IsSpace(s[0]) {
      FirstWordLength(s[1..]);
    }
  }

  function CommandNamed(command: string, rest: string): Command {
    if command == "/commit" then Commit(rest)
    else if command == "/clear" then Clear
    else if command == "/compact" then Compact
    else if command == "/model" then Model
    else if command == "/review" then Review
    else if command == "/plan" then Plan(rest)
    else if command == "/help" then Help
    else Ordinary
  }

  function CommandOf(content: string): Command {
    if content == "" || content[0] != '/' then Ordinary
    else
      FirstWordLength(content);
      var word := FirstWord(content);
      CommandNamed(Str.Lower(word), Str.Strip(content[|word|..]))
  }

  /** The first word is what comes before the first white space. */
  lemma {:induction false} FirstWordMeaning(s: string)
    ensures var word := FirstWord(s);
            && word <= s && (forall c | c in word :: !Str.IsSpace(c))
            && (|word| < |s| ==> Str.IsSpace(s[|word|]))
  {
    if s != "" && !Str.IsSpace(s[0]) {
      FirstWordMeaning(s[1..]);
    }
  }

  /** Which texts are which command: the first word decides, in lower case, and the rest, without
      outer white space, is what it is about. */
  lemma CommandsExactly(content: string)
    ensures var word, c := Str.Lower(FirstWord(content)), CommandOf(content);
            && |FirstWord(content)| <= |content|
            && var rest := Str.Strip(content[|FirstWord(content)|..]);
            && (c.Commit? <==> word == "/commit") && (c.Commit? ==> c.note == rest)
            && (c.Plan? <==> word == "/plan") && (c.Plan? ==> c.task == rest)
            && (c.Clear? <==> word == "/clear") && (c.Compact? <==> word == "/compact")
            && (c.Model? <==> word == "/model") && (c.Review? <==> word == "/review") && (c.Help? <==> word == "/help")
  {
    FirstWordMeaning(content);
    FirstWordLength(content);
    var word := Str.Lower(FirstWord(content));
    CommandWords(word, if |FirstWord(content)| <= |content| then Str.Strip(content[|FirstWord(content)|..]) else "");
    if content == "" || content[0] != '/' {
      NoSlash(word, content);
    }
    hide FirstWord, Str.Lower, Str.Strip, CommandNamed;
  }

  lemma CommandWords(word: string, rest: string)
    ensures var c := CommandNamed(word, rest);
            && (c.Commit? <==> word == "/commit") && (c.Commit? ==> c.note == rest)
            && (c.Plan? <==> word == "/plan") && (c.Plan? ==> c.task == rest)
            && (c.Clear? <==> word == "/clear") && (c.Compact? <==> word == "/compact")
            && (c.Model? <==> word == "/model") && (c.Review? <==> word == "/review") && (c.Help? <==> word == "/help")
  {
    assert "/commit"[3] == 'm' && "/compact"[4] == 'p' && "/commit"[4] == 'm' && "/clear"[1] == 'c' && "/plan"[1] == 'p' && "/help"[1] == 'h';
    assert |"/commit"| == 7 && |"/compact"| == 8 && |"/clear"| == 6 && |"/model"| == 6 && |"/review"| == 7 && |"/plan"| == 5 && |"/help"| == 5;
    assert "/model"[1] == 'm' && "/review"[1] == 'r' && "/commit"[1] == 'c';
  }

  /** A word that does not begin with a slash is no command. */
  lemma NoSlash(word: string, content: string)
    requires word == Str.Lower(FirstWord(content)) && (content == "" || content[0] != '/')
    ensures word == "" || word[0] != '/'
  {
    FirstWordMeaning(content);
  }

  /** The text a message of the user makes a turn about, if it starts one. */
  function PromptOf(s: Setup, u: UserTurn): Option<string> {
    match CommandOf(u.content)
    case Commit(note) => Some(s.prompts.commit(note))
    case Plan(task) => if task == "" then None else Some(s.prompts.plan(task))
    case Ordinary => Some(u.content)
    case _ => None
  }

  function UserText(text: string): Message {
    Message(User, Plain(text))
  }

  /** The history with the prompt of the turn, if there is one, at its end. */
  function Asked(s: Setup, h: seq<Message>, u: UserTurn): seq<Message> {
    var prompt := PromptOf(s, u);
    if prompt.Some? then h + [UserText(prompt.value)] else h
  }

  /** Composing the texts shown about the call raises. */
  predicate CallRaises(s: Setup, consent: Piece -> Consent, p: Piece) {
    p.Use? &&
    var shown := Shows(p.name, p.input, s.numberOf);
    if s.safe(p.name) then !shown
    else
      match consent(p)
      case Unasked => !shown
      case Allowed => !Confirms(p.name, p.input) || !Spins(p.name, p.input, s.numberOf) || !shown
      case Denied => !Confirms(p.name, p.input)
  }

  /** A call among the pieces, in a response of count calls, cannot be carried through: the
      spinner names a call that is the only one. */
  predicate SomeRaises(s: Setup, consent: Piece -> Consent, pieces: seq<Piece>, count: nat) {
    exists p | p in pieces :: (p.Use? && count == 1 && !Spins(p.name, p.input, s.numberOf)) || CallRaises(s, consent, p)
  }

  /** The turn breaks off after the calls of the response are stored, before their results are. */
  predicate BreaksOff(s: Setup, consent: Piece -> Consent, r: Reply) {
    SomeRaises(s, consent, r.pieces, |IdsOf(r.pieces)|)
  }

  /** When a turn breaks off, call by call: the spinner of the only call, the question about a call
      that is asked about, the spinner of one that was allowed, or the display of one that is
      executed cannot be composed. */
  lemma BreaksOffExactly(s: Setup, consent: Piece -> Consent, r: Reply)
    ensures BreaksOff(s, consent, r) <==>
            exists p | p in r.pieces && p.Use? ::
              var asked, executed := !s.safe(p.name) && consent(p) != Unasked, s.safe(p.name) || consent(p) != Denied;
              || (|IdsOf(r.pieces)| == 1 && !Spins(p.name, p.input, s.numberOf))
              || (asked && !Confirms(p.name, p.input))
              || (asked && executed && !Spins(p.name, p.input, s.numberOf))
              || (executed && !Shows(p.name, p.input, s.numberOf))
  {
    hide Spins, Confirms, Shows, IdsOf;
  }

  /** How many exchanges the loop completes once n are made. */
  function Rounds(s: Setup, u: UserTurn, n: nat): (r: nat)
    requires n <= s.maxIterations
    ensures n <= r <= s.maxIterations && (r == s.maxIterations || Stops(s, u, r))
    ensures forall k: nat | n <= k < r :: !Stops(s, u, k) && Continues(u.turn.replies(k))
    decreases s.maxIterations - n
  {
    if n == s.maxIterations || Stops(s, u, n) then n else Rounds(s, u, n + 1)
  }

  /** Iteration n is not a whole exchange. */
  predicate Stops(s: Setup, u: UserTurn, n: nat) {
    u.interrupted(n) || !Continues(u.turn.replies(n)) || BreaksOff(s, u.consent(n), u.turn.replies(n))
  }

  /** The loop asks the model for a response that it does not complete an exchange for. */
  predicate Stored(s: Setup, u: UserTurn) {
    var n := Rounds(s, u, 0);
    n < s.maxIterations && !u.interrupted(n)
  }

  /** The loop ends with a response that does not continue. */
  predicate Ended(s: Setup, u: UserTurn) {
    Stored(s, u) && !Continues(u.turn.replies(Rounds(s, u, 0)))
  }

  function AfterLoop(s: Setup, h: seq<Message>, u: UserTurn): seq<Message> {
    var n := Rounds(s, u, 0);
    var plain := h + Exchanges(u.turn, NonBlank(), s.safe, n);
    var last := u.turn.replies(n);
    if Ended(s, u) then Compressed(plain + FinalMessages(last), s.summarize)
    else if Stored(s, u) then plain + FinalMessages(last)
    else plain
  }

  /** The token estimate has reached seven tenths of the context. */
  predicate Full(h: seq<Message>, u: UserTurn) {
    10 * (EstimateTokens(Up, u.system) + SumTokens(Up, h)) >= 7 * u.contextTokens
  }

  function AfterCompaction(s: Setup, h: seq<Message>, u: UserTurn): seq<Message> {
    if Full(h, u) then Summarised(s.words, h, s.keepRecent, u.summary) else h
  }

  /** The history after a message of the user and everything that follows from it. */
  function AfterSend(s: Setup, h: seq<Message>, u: UserTurn): seq<Message> {
    match CommandOf(u.content)
    case Clear => []
    case Compact => AfterCompaction(s, h, u)
    case Review => if u.review.Some? then h + [UserText(s.prompts.feedback(u.review.value))] else h
    case _ => if PromptOf(s, u).Some? then AfterLoop(s, AfterCompaction(s, Asked(s, h, u), u), u) else h
  }

  /** What each command does to the history, by its word: clearing empties it, compacting compacts
      it, a review that gives an answer adds that, help and the choice of a model leave it, and so
      does a plan of nothing; a commit, a plan and every other text start a turn about the text
      they ask for, compacted first. */
  lemma CommandEffects(s: Setup, h: seq<Message>, u: UserTurn)
    ensures var word, after := Str.Lower(FirstWord(u.content)), AfterSend(s, h, u);
            && |FirstWord(u.content)| <= |u.content|
            && var rest := Str.Strip(u.content[|FirstWord(u.content)|..]);
            if word == "/clear" then after == []
            else if word == "/compact" then after == AfterCompaction(s, h, u)
            else if word == "/model" || word == "/help" then after == h
            else if word == "/review" then
              after == if u.review.None? then h else h + [Message(User, Plain(s.prompts.feedback(u.review.value)))]
            else if word == "/plan" && |rest| == 0 then after == h
            else
              var text := if word == "/commit" then s.prompts.commit(rest) else if word == "/plan" then s.prompts.plan(rest) else u.content;
              after == AfterLoop(s, AfterCompaction(s, h + [Message(User, Plain(text))], u), u)
  {
    CommandsExactly(u.content);
    hide CommandOf, FirstWord, Str.Lower, Str.Strip, AfterLoop, AfterCompaction;
  }

  class LocalAgent {
    const setup: Setup
    var messages: seq<Message>

    constructor (setup: Setup)
      ensures messages == [] && this.setup == setup
    {
      this.setup := setup;
      messages := [];
    }

    method PushUser(text: string)
      modifies this
      ensures messages == old(messages) + [UserText(text)]
    {
      messages := messages + [Message(User, Plain(text))];
    }

    /** Replaces the history by the restored one. */
    method RestoreHistory(saved: seq<Saved>)
      modifies this
      ensures messages == RestoredAll(saved)
    {
      messages := [];
      var i := 0;
      while i < |saved|
        invariant 0 <= i <= |saved| && messages == RestoredAll(saved[..i])
      {
        assert saved[..i + 1][..i] == saved[..i];
        messages := messages + Restored(saved[i]);
        i := i + 1;
      }
      assert saved[..i] == saved;
    }

    /** Summarises long tool results in place. */
    method CompressHistoryToolResults(summarize: (string, string) -> string)
      modifies this
      ensures messages == Compressed(old(messages), summarize)
    {
      hide ShortenedBlocks;
      ghost var h := messages;
      var i := 0;
      while i < |messages|
        invariant 0 <= i <= |messages| == |h|
        invariant forall k | 0 <= k < i :: messages[k] == CompressedAt(h, k, summarize)
        invariant forall k | i <= k < |h| :: messages[k] == h[k]
      {
        var msg := messages[i];
        assert i > 0 ==> messages[i - 1] == CompressedAt(h, i - 1, summarize);
        if msg.role == User && msg.content.Blocks? {
          var before := if i > 0 && messages[i - 1].role == Assistant then BlocksOf(messages[i - 1]) else [];
          var blocks := ShortenResults(msg.content.blocks, before, summarize);
          assert msg == h[i] && Message(User, Blocks(blocks)) == CompressedAt(h, i, summarize);
          messages := messages[i := Message(User, Blocks(blocks))];
        }
        i := i + 1;
      }
    }

    /** Compacts when the estimate has reached seven tenths of the context; the compactor
        estimates again and compares with that share rounded down. */
    method CompactIfNeeded(u: UserTurn)
      modifies this
      ensures messages == AfterCompaction(setup, old(messages), u)
      ensures var tokens := EstimateTokens(Up, u.system) + SumTokens(Up, old(messages));
              messages == if 10 * tokens >= 7 * u.contextTokens then Summarised(setup.words, old(messages), setup.keepRecent, u.summary)
                          else old(messages)
    {
      var tokens := EstimateTotal(Up, u.system, messages);
      if 10 * tokens < 7 * u.contextTokens {
        return;
      }
      var compacted := CompactContext(Up, setup.words, u.system, messages, 7 * u.contextTokens / 10, setup.keepRecent, u.summary);
      if compacted.Some? {
        messages := compacted.value.messages;
      }
    }

    /** The loop of one turn: it stops when interrupted, ends with a response that does not
        continue, or gives up after maxIterations. */
    method RunToolLoop(u: UserTurn)
      modifies this
      ensures messages == AfterLoop(setup, AfterCompaction(setup, old(messages), u), u)
    {
      hide *;
      CompactIfNeeded(u);
      ghost var h := messages;
      ExchangesNext(h, u.turn, setup.safe, 0);
      var iteration := 0;
      while iteration < setup.maxIterations
        invariant 0 <= iteration <= setup.maxIterations
        invariant Rounds(setup, u, 0) == Rounds(setup, u, iteration)
        invariant messages == h + Exchanges(u.turn, NonBlank(), setup.safe, iteration)
      {
        if u.interrupted(iteration) {
          RoundsFrom(setup, h, u, iteration);
          return;
        }
        var reply := u.turn.replies(iteration);
        RoundsFrom(setup, h, u, iteration);
        if !Continues(reply) {
          messages := messages + FinalMessages(reply);
          CompressHistoryToolResults(setup.summarize);
          return;
        }
        ghost var plain := messages;
        messages := messages + [Message(Assistant, Blocks(KeptBlocks(reply.pieces, NonBlank())))];
        var results := ExecuteTools(u.consent(iteration), reply, u.turn.run(iteration));
        if results.None? {
          return;
        }
        messages := messages + [Message(User, Blocks(results.value))];
        ExchangeStored(messages, plain, reply, setup.safe, u.turn.run(iteration));
        ExchangesNext(h, u.turn, setup.safe, iteration);
        iteration := iteration + 1;
      }
      RoundsFrom(setup, h, u, iteration);
    }

    /** The results of the calls of a response, safe tools first, or None if composing what
        is shown about one of them raises. */
    method ExecuteTools(consent: Piece -> Consent, r: Reply, run: Piece -> string) returns (results: Option<seq<Block>>)
      ensures results == if BreaksOff(setup, consent, r) then None else Some(Results(r.pieces, setup.safe, run))
    {
      hide Spins, Shows, Confirms, ResultsFor, IdsOf;
      var single := |IdsOf(r.pieces)| == 1;
      if single && exists p | p in r.pieces :: p.Use? && !Spins(p.name, p.input, setup.numberOf) {
        return None;
      }
      var safeOnes := ExecuteSafe(consent, r.pieces, run);
      if safeOnes.None? {
        return None;
      }
      var others := ExecuteOthers(consent, r.pieces, run);
      if others.None? {
        return None;
      }
      return Some(safeOnes.value + others.value);
    }

    /** The calls to safe tools; the first that cannot be shown ends it. */
    method ExecuteSafe(consent: Piece -> Consent, pieces: seq<Piece>, run: Piece -> string) returns (results: Option<seq<Block>>)
      ensures results.None? <==> exists p | p in pieces :: p.Use? && setup.safe(p.name) && CallRaises(setup, consent, p)
      ensures results.Some? ==> results.value == ResultsFor(pieces, setup.safe, true, run)
    {
      hide *;
      ResultsAt(pieces, 0, setup.safe, true, run);
      var done: seq<Block> := [];
      var i := 0;
      while i < |pieces|
        invariant 0 <= i <= |pieces|
        invariant forall p | p in pieces[..i] && p.Use? && setup.safe(p.name) :: !CallRaises(setup, consent, p)
        invariant done + ResultsFor(pieces[i..], setup.safe, true, run) == ResultsFor(pieces, setup.safe, true, run)
      {
        var p := pieces[i];
        assert pieces[..i + 1] == pieces[..i] + [p];
        ResultsAt(pieces, i, setup.safe, true, run);
        if p.Use? && setup.safe(p.name) {
          SafeRaises(setup, consent, p);
          if !Shows(p.name, p.input, setup.numberOf) {
            return None;
          }
          done := done + [ToolResult(p.id, run(p))];
        }
        i := i + 1;
      }
      assert pieces[..i] == pieces;
      ResultsAt(pieces, i, setup.safe, true, run);
      return Some(done);
    }

    /** The other calls, one by one, each after the user's consent if that is asked for. */
    method ExecuteOthers(consent: Piece -> Consent, pieces: seq<Piece>, run: Piece -> string) returns (results: Option<seq<Block>>)
      ensures results.None? <==> exists p | p in pieces :: p.Use? && !setup.safe(p.name) && CallRaises(setup, consent, p)
      ensures results.Some? ==> results.value == ResultsFor(pieces, setup.safe, false, run)
    {
      hide *;
      ResultsAt(pieces, 0, setup.safe, false, run);
      var done: seq<Block> := [];
      var i := 0;
      while i < |pieces|
        invariant 0 <= i <= |pieces|
        invariant forall p | p in pieces[..i] && p.Use? && !setup.safe(p.name) :: !CallRaises(setup, consent, p)
        invariant done + ResultsFor(pieces[i..], setup.safe, false, run) == ResultsFor(pieces, setup.safe, false, run)
      {
        var p := pieces[i];
        assert pieces[..i + 1] == pieces[..i] + [p];
        ResultsAt(pieces, i, setup.safe, false, run);
        if p.Use? && !setup.safe(p.name) {
          var raised := ExecuteCall(consent, p);
          if raised {
            return None;
          }
          done := done + [ToolResult(p.id, run(p))];
        }
        i := i + 1;
      }
      assert pieces[..i] == pieces;
      ResultsAt(pieces, i, setup.safe, false, run);
      return Some(done);
    }

    /** Whether asking for consent, the spinner or the display of a call raises. */
    method ExecuteCall(consent: Piece -> Consent, p: Piece) returns (raised: bool)
      requires p.Use? && !setup.safe(p.name)
      ensures raised == CallRaises(setup, consent, p)
    {
      hide Spins, Shows, Confirms;
      if consent(p) != Unasked {
        if !Confirms(p.name, p.input) {
          return true;
        }
        if consent(p) == Denied {
          return false;
        }
        if !Spins(p.name, p.input, setup.numberOf) {
          return true;
        }
      }
      return !Shows(p.name, p.input, setup.numberOf);
    }

    /** A message of the user: a command, or a turn about its text. */
    method SendMessage(u: UserTurn)
      modifies this
      ensures messages == AfterSend(setup, old(messages), u)
    {
      hide CommandOf, AfterLoop, AfterCompaction;
      if u.content != "" && u.content[0] == '/' {
        var handled := HandleSlashCommand(u);
        if handled {
          return;
        }
      }
      OtherwiseOrdinary(u.content);
      PushUser(u.content);
      RunToolLoop(u);
    }

    /** Carries out a command; false when the text is none. */
    method HandleSlashCommand(u: UserTurn) returns (handled: bool)
      modifies this
      ensures handled == !CommandOf(u.content).Ordinary?
      ensures messages == if handled then AfterSend(setup, old(messages), u) else old(messages)
    {
      hide CommandOf, AfterLoop, AfterCompaction;
      match CommandOf(u.content)
      case Commit(note) =>
        PushUser(setup.prompts.commit(note));
        RunToolLoop(u);
        return true;
      case Clear =>
        messages := [];
        return true;
      case Compact =>
        CompactIfNeeded(u);
        return true;
      case Model =>
        return true;
      case Review =>
        if u.review.Some? {
          PushUser(setup.prompts.feedback(u.review.value));
        }
        return true;
      case Plan(task) =>
        if task == "" {
          return true;
        }
        PushUser(setup.prompts.plan(task));
        RunToolLoop(u);
        return true;
      case Help =>
        return true;
      case Ordinary =>
        return false;
    }
  }

  lemma OtherwiseOrdinary(content: string)
    ensures content == "" || content[0] != '/' ==> CommandOf(content).Ordinary?
  {
  }

  /** The results of the pieces from i on. */
  lemma ResultsAt(pieces: seq<Piece>, i: nat, safe: string -> bool, wanted: bool, run: Piece -> string)
    requires i <= |pieces|
    ensures pieces[0..] == pieces
    ensures i == |pieces| ==> ResultsFor(pieces[i..], safe, wanted, run) == []
    ensures i < |pieces| ==>
              var p := pieces[i];
              ResultsFor(pieces[i..], safe, wanted, run) ==
              (if p.Use? && safe(p.name) == wanted then [ToolResult(p.id, run(p))] else []) + ResultsFor(pieces[i + 1..], safe, wanted, run)
  {
    if i < |pieces| {
      assert pieces[i..][1..] == pieces[i + 1..];
    }
  }

  lemma SafeRaises(s: Setup, consent: Piece -> Consent, p: Piece)
    requires p.Use? && s.safe(p.name)
    ensures CallRaises(s, consent, p) <==> !Shows(p.name, p.input, s.numberOf)
  {
    hide Shows;
  }

  /** What the loop has made of a history after n exchanges, and how it goes on. */
  lemma RoundsFrom(s: Setup, h: seq<Message>, u: UserTurn, n: nat)
    requires n <= s.maxIterations && Rounds(s, u, 0) == Rounds(s, u, n)
    ensures var plain, r := h + Exchanges(u.turn, NonBlank(), s.safe, n), u.turn.replies(n);
            if n == s.maxIterations || u.interrupted(n) then AfterLoop(s, h, u) == plain
            else if !Continues(r) then AfterLoop(s, h, u) == Compressed(plain + FinalMessages(r), s.summarize)
            else if BreaksOff(s, u.consent(n), r) then
              AfterLoop(s, h, u) == plain + [Message(Assistant, Blocks(KeptBlocks(r.pieces, NonBlank())))]
            else Rounds(s, u, n) == Rounds(s, u, n + 1)
  {
    hide Exchanges, KeptBlocks, Compressed, FinalMessages, BreaksOff, HasUse;
    if Continues(u.turn.replies(n)) {
      ContinuingIsStored(u.turn.replies(n));
    }
  }

  lemma ExchangeStored(after: seq<Message>, before: seq<Message>, r: Reply, safe: string -> bool, run: Piece -> string)
    requires after == before + [Message(Assistant, Blocks(KeptBlocks(r.pieces, NonBlank())))] + [Message(User, Blocks(Results(r.pieces, safe, run)))]
    ensures after == before + Exchange(r, NonBlank(), safe, run)
  {
    hide KeptBlocks, Results;
  }

  lemma ExchangesNext(h: seq<Message>, t: Turn, safe: string -> bool, n: nat)
    ensures h + Exchanges(t, NonBlank(), safe, n) + Exchange(t.replies(n), NonBlank(), safe, t.run(n)) ==
            h + Exchanges(t, NonBlank(), safe, n + 1)
    ensures h + Exchanges(t, NonBlank(), safe, 0) == h
  {
    hide Exchange;
  }

  /** A response that continues is stored as it is. */
  lemma ContinuingIsStored(r: Reply)
    requires Continues(r)
    ensures FinalMessages(r) == [Message(Assistant, Blocks(KeptBlocks(r.pieces, NonBlank())))]
  {
    KeptIds(r.pieces, NonBlank());
  }

  /** A turn leaves a paired history paired exactly when the last response it stores carries
      no call: one that carries calls without stopping for tools is stored without results,
      and so is one whose calls cannot be carried through. */
  lemma LoopPairing(s: Setup, h: seq<Message>, u: UserTurn)
    requires Paired(h)
    ensures Paired(AfterLoop(s, h, u)) <==> !LeavesCallOpen(s, u)
  {
    hide Paired, HasUse, FinalMessages, Compressed, BreaksOff;
    var n := Rounds(s, u, 0);
    var plain := h + Exchanges(u.turn, NonBlank(), s.safe, n);
    LoopPaired(h, u.turn, s.safe, n);
    if Stored(s, u) {
      FinalPaired(plain, u.turn.replies(n));
      CompressionKeepsShape(plain + FinalMessages(u.turn.replies(n)), s.summarize);
    }
  }

  /** The response that the loop does not complete an exchange for carries calls. */
  predicate LeavesCallOpen(s: Setup, u: UserTurn) {
    Stored(s, u) && HasUse(u.turn.replies(Rounds(s, u, 0)).pieces)
  }

  /** Said of the responses: the turn leaves a call open exactly when, before it is
      interrupted, it gets a response with calls that did not stop for tools, or one that did
      and of whose calls one cannot be carried through. */
  lemma LeavesCallOpenIff(s: Setup, u: UserTurn)
    ensures LeavesCallOpen(s, u) <==>
            exists n: nat | n < s.maxIterations ::
              && (forall k: nat | k < n :: !Stops(s, u, k)) && !u.interrupted(n)
              && HasUse(u.turn.replies(n).pieces)
              && (!u.turn.replies(n).toolStop || BreaksOff(s, u.consent(n), u.turn.replies(n)))
  {
    hide HasUse, BreaksOff;
    var r := Rounds(s, u, 0);
    forall n: nat | n < s.maxIterations && (forall k: nat | k < n :: !Stops(s, u, k)) && Stops(s, u, n)
      ensures n == r
    {
    }
  }

  /** A response none of whose calls is ill-typed does not break off. */
  lemma WellTypedCarriesOn(s: Setup, consent: Piece -> Consent, r: Reply)
    requires forall p | p in r.pieces && p.Use? :: WellTyped(p.name, p.input)
    ensures !BreaksOff(s, consent, r)
  {
    hide Spins, Confirms, Shows, WellTyped;
    forall p | p in r.pieces && p.Use?
      ensures Spins(p.name, p.input, s.numberOf) && !CallRaises(s, consent, p)
    {
      WellTypedShows(p.name, p.input, s.numberOf);
    }
  }

  lemma LoopPaired(h: seq<Message>, t: Turn, safe: string -> bool, n: nat)
    requires forall k: nat | k < n :: Continues(t.replies(k))
    ensures Paired(h) ==> Paired(h + Exchanges(t, NonBlank(), safe, n))
  {
    if Paired(h) {
      ExchangesPaired(t, NonBlank(), safe, n);
      PairedAppend(h, Exchanges(t, NonBlank(), safe, n));
    }
  }

  lemma FinalPaired(h: seq<Message>, r: Reply)
    ensures Paired(h) ==> (Paired(h + FinalMessages(r)) <==> !HasUse(r.pieces))
  {
    KeptIds(r.pieces, NonBlank());
    var final := FinalMessages(r);
    if final == [] {
      assert h + final == h;
    } else if Paired(h) {
      if HasUse(r.pieces) {
        OpenCallBreaks(h, final[0]);
      } else {
        ClosedMessagePairs(h, final[0]);
      }
    }
  }
}
