/** The MCP client: newline framing of a byte stream cut into chunks, and requests that
    wait for their response. */
module JsonRpc {
  import opened Prelude
  import Text

  type RequestId = nat

  /** The part of a response line the client looks at; None when the line is not JSON. */
  datatype Response = Response(id: Option<RequestId>, error: bool)

  /** How a request ended, in the order requests ended. */
  datatype Ending = Resolved(id: RequestId) | Rejected(id: RequestId)

  /** The waiting requests and what has been settled. */
  datatype Waiting = Waiting(pending: set<RequestId>, settled: seq<Ending>)

  const NEWLINE := '\n'

  // --- framing ---

  function Pieces(text: string): seq<string> {
    Text.Split(text, NEWLINE)
  }

  /** The complete lines of a stream, and what follows the last newline. */
  function LinesOf(text: string): seq<string> {
    Pieces(text)[..|Pieces(text)| - 1]
  }

  function RestOf(text: string): string {
    Pieces(text)[|Pieces(text)| - 1]
  }

  function Concat(chunks: seq<string>): string {
    if chunks == [] then "" else Concat(chunks[..|chunks| - 1]) + chunks[|chunks| - 1]
  }

  lemma {:induction false} ConcatAppend(a: seq<string>, b: seq<string>)
    ensures Concat(a + b) == Concat(a) + Concat(b) && forall chunk :: Concat([chunk]) == chunk
  {
    forall chunk ensures Concat([chunk]) == chunk {
      assert [chunk][..0] == [];
    }
    if b == [] {
      assert a + b == a;
    } else {
      ConcatAppend(a, b[..|b| - 1]);
      assert (a + b)[..|a + b| - 1] == a + b[..|b| - 1];
    }
  }

  /** Two lists of pieces of texts that follow each other: the last and first piece join. */
  function Glue(p: seq<string>, q: seq<string>): seq<string>
    requires p != [] && q != []
  {
    p[..|p| - 1] + [p[|p| - 1] + q[0]] + q[1..]
  }

  function Prepend(c: char, p: seq<string>): seq<string>
    requires p != []
  {
    [[c] + p[0]] + p[1..]
  }

  lemma GluePrepend(c: char, p: seq<string>, q: seq<string>)
    requires p != [] && q != []
    ensures Glue(Prepend(c, p), q) == Prepend(c, Glue(p, q))
  {
    if |p| == 1 {
      assert [c] + (p[0] + q[0]) == [c] + p[0] + q[0];
    }
  }

  lemma {:induction false} SplitAppend(s: string, t: string)
    ensures Pieces(s + t) == Glue(Pieces(s), Pieces(t))
  {
    if s == "" {
      assert s + t == t && "" + Pieces(t)[0] == Pieces(t)[0];
    } else {
      SplitAppend(s[1..], t);
      assert (s + t)[1..] == s[1..] + t;
      if s[0] == NEWLINE {
        assert Glue([""] + Pieces(s[1..]), Pieces(t)) == [""] + Glue(Pieces(s[1..]), Pieces(t));
      } else {
        GluePrepend(s[0], Pieces(s[1..]), Pieces(t));
      }
    }
  }

  /** Reading on from the unfinished line gives the lines and the rest of the whole. */
  lemma ReadOn(s: string, t: string)
    ensures LinesOf(s + t) == LinesOf(s) + LinesOf(RestOf(s) + t)
    ensures RestOf(s + t) == RestOf(RestOf(s) + t)
  {
    SplitAppend(s, t);
    Text.SplitPiecesFree(s, NEWLINE);
    var rest := RestOf(s);
    assert rest in Pieces(s);
    Text.SplitFree(rest, NEWLINE);
    SplitAppend(rest, t);
    assert LinesOf(rest) == [] && RestOf(rest) == rest;
  }

  // --- dispatching ---

  /** One line: blank and foreign lines are ignored, and so are responses nobody waits for. */
  function Dispatch(w: Waiting, line: string, parse: string -> Option<Response>): Waiting {
    if Text.Strip(line) == "" then w
    else
      match parse(line)
      case None => w
      case Some(r) =>
        if r.id.Some? && r.id.value in w.pending then
          Waiting(w.pending - {r.id.value}, w.settled + [if r.error then Rejected(r.id.value) else Resolved(r.id.value)])
        else w
  }

  function DispatchAll(w: Waiting, lines: seq<string>, parse: string -> Option<Response>): Waiting {
    if lines == [] then w else Dispatch(DispatchAll(w, lines[..|lines| - 1], parse), lines[|lines| - 1], parse)
  }

  lemma DispatchNone(w: Waiting, lines: seq<string>, parse: string -> Option<Response>)
    ensures DispatchAll(w, lines[..0], parse) == w
  {
  }

  lemma NothingRead(w: Waiting, buffer: string, parse: string -> Option<Response>)
    requires Text.Free(buffer, NEWLINE)
    ensures DispatchAll(w, LinesOf(buffer), parse) == w && RestOf(buffer) == buffer
  {
    Text.SplitFree(buffer, NEWLINE);
  }

  lemma DispatchNext(w: Waiting, lines: seq<string>, k: nat, parse: string -> Option<Response>)
    requires k < |lines|
    ensures DispatchAll(w, lines[..k + 1], parse) == Dispatch(DispatchAll(w, lines[..k], parse), lines[k], parse)
  {
    assert lines[..k + 1][..k] == lines[..k];
  }

  lemma {:induction false} DispatchConcat(w: Waiting, a: seq<string>, b: seq<string>, parse: string -> Option<Response>)
    ensures DispatchAll(w, a + b, parse) == DispatchAll(DispatchAll(w, a, parse), b, parse)
  {
    if b == [] {
      assert a + b == a;
    } else {
      DispatchConcat(w, a, b[..|b| - 1], parse);
      assert (a + b)[..|a + b| - 1] == a + b[..|b| - 1];
    }
  }

  /** The line is a response to this request; error says which kind. */
  predicate Responds(line: string, parse: string -> Option<Response>, id: RequestId, error: bool) {
    |Text.Strip(line)| > 0 && parse(line).Some? && parse(line).value.id == Some(id) && parse(line).value.error == error
  }

  /** What becomes of a waiting request is decided by the first response to it: it resolves, or
      rejects if that reports an error; later responses change nothing, and without any it waits
      on. */
  lemma {:induction false} FirstResponseDecides(w: Waiting, lines: seq<string>, parse: string -> Option<Response>, id: RequestId)
    requires id in w.pending
    ensures var after := DispatchAll(w, lines, parse);
            && (id in after.pending <==> forall k, error | 0 <= k < |lines| :: !Responds(lines[k], parse, id, error))
            && w.settled <= after.settled
            && forall k, error | 0 <= k < |lines| && Responds(lines[k], parse, id, error) &&
                 (forall j, other | 0 <= j < k :: !Responds(lines[j], parse, id, other)) ::
                 (if error then Rejected(id) else Resolved(id)) in after.settled[|w.settled|..]
  {
    if lines != [] {
      var n := |lines| - 1;
      var before, after := DispatchAll(w, lines[..n], parse), DispatchAll(w, lines, parse);
      FirstResponseDecides(w, lines[..n], parse, id);
      OneResponse(before, lines[n], parse, id);
      hide DispatchAll, Dispatch, Responds;
      assert forall k | 0 <= k < n :: lines[..n][k] == lines[k];
      assert before.settled[|w.settled|..] <= after.settled[|w.settled|..];
      assert before.settled <= after.settled;
      forall k, error | 0 <= k < |lines| && Responds(lines[k], parse, id, error) &&
        (forall j, other | 0 <= j < k :: !Responds(lines[j], parse, id, other))
        ensures (if error then Rejected(id) else Resolved(id)) in after.settled[|w.settled|..]
      {
        if k == n {
          assert id in before.pending;
          assert after.settled[|w.settled|..] == before.settled[|w.settled|..] + [if error then Rejected(id) else Resolved(id)];
        }
      }
    }
  }

  lemma OneResponse(w: Waiting, line: string, parse: string -> Option<Response>, id: RequestId)
    ensures var after := Dispatch(w, line, parse);
            && w.settled <= after.settled
            && (id in after.pending <==> id in w.pending && forall error :: !Responds(line, parse, id, error))
            && forall error | id in w.pending && Responds(line, parse, id, error) ::
                 after.settled == w.settled + [if error then Rejected(id) else Resolved(id)]
  {
    hide Text.Strip;
    if |Text.Strip(line)| > 0 && parse(line).Some? && parse(line).value.id == Some(id) {
      assert Responds(line, parse, id, parse(line).value.error);
    }
  }

  // --- settling each request once ---

  /** Every issued id is either waiting, or settled exactly once; nothing else is. */
  ghost predicate Accounted(w: Waiting, issued: nat) {
    && (forall id | id in w.pending :: 1 <= id <= issued && !IsSettled(w, id))
    && (forall k | 0 <= k < |w.settled| :: 1 <= w.settled[k].id <= issued)
    && (forall a, b | 0 <= a < b < |w.settled| :: w.settled[a].id != w.settled[b].id)
    && (forall id: RequestId | 1 <= id <= issued :: id in w.pending || IsSettled(w, id))
  }

  predicate IsSettled(w: Waiting, id: RequestId) {
    exists k | 0 <= k < |w.settled| :: w.settled[k].id == id
  }

  lemma SettleOne(w: Waiting, issued: nat, e: Ending)
    requires Accounted(w, issued) && e.id in w.pending
    ensures Accounted(Waiting(w.pending - {e.id}, w.settled + [e]), issued)
  {
    var v := Waiting(w.pending - {e.id}, w.settled + [e]);
    assert v.settled[|w.settled|] == e;
    forall id: RequestId | IsSettled(w, id) ensures IsSettled(v, id) {
      var k :| 0 <= k < |w.settled| && w.settled[k].id == id;
      assert v.settled[k] == w.settled[k];
    }
    forall id | id in v.pending ensures !IsSettled(v, id) {
      assert !IsSettled(w, id);
    }
  }

  lemma IssueOne(w: Waiting, issued: nat)
    requires Accounted(w, issued)
    ensures Accounted(w.(pending := w.pending + {issued + 1}), issued + 1)
  {
    var v := w.(pending := w.pending + {issued + 1});
    forall id: RequestId ensures IsSettled(v, id) == IsSettled(w, id) {
    }
  }

  lemma {:induction false} DispatchAccounted(w: Waiting, issued: nat, lines: seq<string>, parse: string -> Option<Response>)
    requires Accounted(w, issued)
    ensures Accounted(DispatchAll(w, lines, parse), issued)
  {
    if lines != [] {
      DispatchAccounted(w, issued, lines[..|lines| - 1], parse);
      var v := DispatchAll(w, lines[..|lines| - 1], parse);
      var u := Dispatch(v, lines[|lines| - 1], parse);
      if u != v {
        SettleOne(v, issued, u.settled[|u.settled| - 1]);
      }
    }
  }

  // --- the client ---

  class McpClient {
    const parse: string -> Option<Response>
    var buffer: string
    var pending: set<RequestId>
    var requestId: RequestId
    var running: bool
    ghost var settled: seq<Ending>

    ghost function View(): Waiting
      reads this
    {
      Waiting(pending, settled)
    }

    ghost predicate Valid()
      reads this
    {
      Accounted(View(), requestId) && Text.Free(buffer, NEWLINE)
    }

    constructor (parse: string -> Option<Response>)
      ensures Valid() && this.parse == parse && buffer == "" && pending == {} && settled == [] && running && requestId == 0
    {
      this.parse := parse;
      buffer, pending, requestId, running, settled := "", {}, 0, true, [];
    }

    /** A request to a client whose process is gone is refused without an id. */
    method SendRequest() returns (id: Option<RequestId>)
      requires Valid()
      modifies this
      ensures Valid() && buffer == old(buffer) && running == old(running)
      ensures if old(running) then id == Some(old(requestId) + 1) && requestId == old(requestId) + 1 &&
                View() == old(View()).(pending := old(pending) + {requestId})
              else id.None? && requestId == old(requestId) && View() == old(View())
    {
      if !running {
        return None;
      }
      IssueOne(View(), requestId);
      requestId := requestId + 1;
      pending := pending + {requestId};
      id := Some(requestId);
    }

    /** The timer of a request that is still waiting fires. */
    method TimeOut(id: RequestId)
      requires Valid() && id in pending
      modifies this
      ensures Valid() && buffer == old(buffer) && running == old(running) && requestId == old(requestId)
      ensures View() == Waiting(old(pending) - {id}, old(settled) + [Rejected(id)])
    {
      SettleOne(View(), requestId, Rejected(id));
      pending := pending - {id};
      settled := settled + [Rejected(id)];
    }

    /** Disconnecting refuses new requests; waiting ones are settled by the exit or a timer. */
    method Disconnect()
      requires Valid()
      modifies this`running
      ensures Valid() && !running
    {
      running := false;
    }

    /** The process exits: whatever still waits is rejected. */
    method Exit()
      requires Valid()
      modifies this
      ensures Valid() && !running && pending == {} && requestId == old(requestId) && buffer == old(buffer)
      ensures old(settled) <= settled
      ensures forall k | |old(settled)| <= k < |settled| :: settled[k].Rejected? && settled[k].id in old(pending)
      ensures forall id: RequestId | 1 <= id <= requestId :: IsSettled(View(), id)
    {
      running := false;
      while pending != {}
        invariant Valid() && !running && requestId == old(requestId) && buffer == old(buffer)
        invariant old(settled) <= settled && pending <= old(pending)
        invariant forall k | |old(settled)| <= k < |settled| :: settled[k].Rejected? && settled[k].id in old(pending)
        decreases pending
      {
        var id :| id in pending;
        SettleOne(View(), requestId, Rejected(id));
        pending := pending - {id};
        settled := settled + [Rejected(id)];
      }
    }

    /** Data arrives: complete lines are dispatched, the rest stays in the buffer. */
    method OnData(data: string)
      requires Valid()
      modifies this
      ensures Valid() && running == old(running) && requestId == old(requestId)
      ensures View() == DispatchAll(old(View()), LinesOf(old(buffer) + data), parse)
      ensures buffer == RestOf(old(buffer) + data)
    {
      hide Text.Split, Text.Strip, DispatchAll, Accounted;
      buffer := buffer + data;
      var lines := Text.Split(buffer, NEWLINE);
      Text.SplitPiecesFree(buffer, NEWLINE);
      buffer := lines[|lines| - 1];
      lines := lines[..|lines| - 1];
      DispatchAccounted(View(), requestId, lines, parse);
      DispatchNone(View(), lines, parse);
      var k := 0;
      while k < |lines|
        invariant 0 <= k <= |lines| && running == old(running) && requestId == old(requestId)
        invariant buffer == RestOf(old(buffer) + data) && Text.Free(buffer, NEWLINE)
        invariant View() == DispatchAll(old(View()), lines[..k], parse)
      {
        var line := lines[k];
        DispatchNext(old(View()), lines, k, parse);
        k := k + 1;
        if Text.Strip(line) == "" {
          continue;
        }
        var r := parse(line);
        if r.Some? && r.value.id.Some? && r.value.id.value in pending {
          var id := r.value.id.value;
          pending := pending - {id};
          settled := settled + [if r.value.error then Rejected(id) else Resolved(id)];
        }
      }
      assert lines[..k] == lines;
    }

    /** However a stream is cut into chunks, the lines dispatched and what is left in the
        buffer are those of the whole stream. */
    method OnChunks(chunks: seq<string>)
      requires Valid()
      modifies this
      ensures Valid() && running == old(running) && requestId == old(requestId)
      ensures View() == DispatchAll(old(View()), LinesOf(old(buffer) + Concat(chunks)), parse)
      ensures buffer == RestOf(old(buffer) + Concat(chunks))
    {
      hide LinesOf, RestOf, DispatchAll, Text.Free, Accounted;
      var k := 0;
      ghost var start := buffer;
      NothingRead(View(), start, parse);
      assert start + "" == start;
      while k < |chunks|
        invariant 0 <= k <= |chunks| && Valid() && running == old(running) && requestId == old(requestId)
        invariant View() == DispatchAll(old(View()), LinesOf(start + Concat(chunks[..k])), parse)
        invariant buffer == RestOf(start + Concat(chunks[..k]))
      {
        ghost var sofar := start + Concat(chunks[..k]);
        assert chunks[..k + 1][..k] == chunks[..k];
        ReadOn(sofar, chunks[k]);
        assert start + Concat(chunks[..k + 1]) == sofar + chunks[k];
        DispatchConcat(old(View()), LinesOf(sofar), LinesOf(buffer + chunks[k]), parse);
        OnData(chunks[k]);
        k := k + 1;
      }
      assert chunks[..k] == chunks;
    }
  }
}
