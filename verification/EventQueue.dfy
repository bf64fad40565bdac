/** The persistent event queue: a table of events and a dead-letter table. */
module EventQueue {
  import opened Prelude

  type EventId = string

  datatype Event = Event(id: EventId, priority: int, timestamp: int, payload: string)

  datatype Row = Row(event: Event, processing: bool, attempts: nat, lastError: Option<string>)

  datatype Dead = Dead(event: Event, attempts: nat, lastError: Option<string>)

  /** rows is the event table by id; dead the dead-letter table in the order rows moved there. */
  datatype Queue = Queue(rows: map<EventId, Row>, dead: seq<Dead>)

  const MAX_ATTEMPTS: nat := 3

  const EMPTY := Queue(map[], [])

  predicate Before(e: Event, f: Event) {
    e.priority < f.priority || (e.priority == f.priority && e.timestamp <= f.timestamp)
  }

  predicate SameKey(e: Event, f: Event) {
    e.priority == f.priority && e.timestamp == f.timestamp
  }

  predicate IsPending(q: Queue, id: EventId) {
    id in q.rows && !q.rows[id].processing
  }

  function PendingIds(q: Queue): set<EventId> {
    set id | id in q.rows && !q.rows[id].processing
  }

  /** A pending event no other pending event comes before. */
  predicate IsNext(q: Queue, id: EventId) {
    IsPending(q, id) && forall k | k in q.rows && !q.rows[k].processing :: Before(q.rows[id].event, q.rows[k].event)
  }

  predicate InDead(dead: seq<Dead>, id: EventId) {
    exists k | 0 <= k < |dead| :: dead[k].event.id == id
  }

  predicate DistinctDead(dead: seq<Dead>) {
    forall a, b | 0 <= a < b < |dead| :: dead[a].event.id != dead[b].event.id
  }

  // --- the operations on the two tables ---

  function Popped(q: Queue, id: EventId): Queue
    requires id in q.rows
  {
    q.(rows := q.rows[id := q.rows[id].(processing := true, attempts := q.rows[id].attempts + 1)])
  }

  function Completed(q: Queue, id: EventId): Queue {
    q.(rows := q.rows - {id})
  }

  function FailedOnce(q: Queue, id: EventId, error: string): Queue {
    if id !in q.rows then q
    else if q.rows[id].attempts >= MAX_ATTEMPTS then
      Queue(q.rows - {id}, q.dead + [Dead(q.rows[id].event, q.rows[id].attempts, Some(error))])
    else q.(rows := q.rows[id := q.rows[id].(processing := false, lastError := Some(error))])
  }

  function Recovered(q: Queue): Queue {
    q.(rows := map id | id in q.rows :: q.rows[id].(processing := false))
  }

  function Fresh(e: Event): Row {
    Row(e, false, 0, None)
  }

  /** Moves the dead letter at position k back to the event table. */
  function Replayed(q: Queue, k: nat): Queue
    requires k < |q.dead|
  {
    Queue(q.rows[q.dead[k].event.id := Fresh(q.dead[k].event)], q.dead[..k] + q.dead[k + 1..])
  }

  // --- conservation ---

  /** The queue with what has happened to it: every event ever pushed, which were completed,
      and how often each was popped since it was pushed or last replayed. */
  datatype History = History(q: Queue, pushed: map<EventId, Event>, completed: set<EventId>, pops: map<EventId, nat>)

  datatype Action =
    | Push(event: Event) | Pop(id: EventId) | Complete(id: EventId) | Fail(id: EventId, error: string)
    | RecoverStale | Replay(index: nat)

  /** An id is a key of the event table, and a pop takes an event that comes first. */
  predicate Possible(h: History, a: Action) {
    match a
    case Push(e) => e.id !in h.q.rows
    case Pop(id) => IsNext(h.q, id)
    case Replay(k) => k < |h.q.dead| && h.q.dead[k].event.id !in h.q.rows
    case _ => true
  }

  /** Nor is an id pushed again while its event is a dead letter. */
  predicate Proper(h: History, a: Action) {
    Possible(h, a) && (a.Push? ==> !InDead(h.q.dead, a.event.id))
  }

  function Act(h: History, a: Action): History
    requires Possible(h, a)
  {
    match a
    case Push(e) =>
      h.(q := h.q.(rows := h.q.rows[e.id := Fresh(e)]), pushed := h.pushed[e.id := e],
         completed := h.completed - {e.id}, pops := h.pops[e.id := 0])
    case Pop(id) =>
      h.(q := Popped(h.q, id), pops := h.pops[id := (if id in h.pops then h.pops[id] else 0) + 1])
    case Complete(id) =>
      h.(q := Completed(h.q, id), completed := if id in h.q.rows then h.completed + {id} else h.completed)
    case Fail(id, error) => h.(q := FailedOnce(h.q, id, error))
    case RecoverStale => h.(q := Recovered(h.q))
    case Replay(k) => h.(q := Replayed(h.q, k), pops := h.pops[h.q.dead[k].event.id := 0])
  }

  predicate Places(h: History, id: EventId) {
    // exactly one of: in the event table, dead, completed
    var inRows, inDead, done := id in h.q.rows, InDead(h.q.dead, id), id in h.completed;
    (inRows && !inDead && !done) || (!inRows && inDead && !done) || (!inRows && !inDead && done)
  }

  /** Every pushed event is in exactly one place; nothing else is anywhere; payload, priority
      and timestamp are as pushed; attempts count the pops; dead letters used their budget. */
  predicate Conserved(h: History) {
    && (forall id | id in h.pushed :: Places(h, id))
    && h.pops.Keys == h.pushed.Keys
    && (forall id | id in h.q.rows :: id in h.pushed && h.q.rows[id].event == h.pushed[id] && h.q.rows[id].attempts == h.pops[id])
    && (forall k | 0 <= k < |h.q.dead| :: var d := h.q.dead[k];
          d.event.id in h.pushed && d.event == h.pushed[d.event.id] && d.attempts == h.pops[d.event.id] && d.attempts >= MAX_ATTEMPTS)
    && h.completed <= h.pushed.Keys
    && (forall id | id in h.pushed :: h.pushed[id].id == id)
    && DistinctDead(h.q.dead)
  }

  lemma DeadAppend(dead: seq<Dead>, d: Dead)
    ensures forall id :: InDead(dead + [d], id) <==> InDead(dead, id) || id == d.event.id
    ensures DistinctDead(dead) && !InDead(dead, d.event.id) ==> DistinctDead(dead + [d])
  {
    forall id ensures InDead(dead + [d], id) <==> InDead(dead, id) || id == d.event.id {
      if InDead(dead, id) {
        var k :| 0 <= k < |dead| && dead[k].event.id == id;
        assert (dead + [d])[k] == dead[k];
      }
      if id == d.event.id {
        assert (dead + [d])[|dead|] == d;
      }
    }
  }

  lemma DeadRemove(dead: seq<Dead>, k: nat)
    requires k < |dead| && DistinctDead(dead)
    ensures var rest := dead[..k] + dead[k + 1..];
            && DistinctDead(rest)
            && forall id :: InDead(rest, id) <==> InDead(dead, id) && id != dead[k].event.id
  {
    var rest := dead[..k] + dead[k + 1..];
    forall id ensures InDead(rest, id) <==> InDead(dead, id) && id != dead[k].event.id {
      if InDead(dead, id) && id != dead[k].event.id {
        var j :| 0 <= j < |dead| && dead[j].event.id == id;
        assert rest[if j < k then j else j - 1] == dead[j];
      }
      if InDead(rest, id) {
        var j :| 0 <= j < |rest| && rest[j].event.id == id;
        assert dead[if j < k then j else j + 1] == rest[j];
      }
    }
  }

  /** The action pushes an event under this id. */
  predicate Pushes(a: Action, id: EventId) {
    a.Push? && a.event.id == id
  }

  lemma {:induction false} ActConserves(h: History, a: Action)
    requires Conserved(h) && Proper(h, a)
    ensures Conserved(Act(h, a))
    ensures forall id | id in h.pushed && !Pushes(a, id) :: id in Act(h, a).pushed && Act(h, a).pushed[id] == h.pushed[id]
  {
    match a
    case Push(e) => PushConserves(h, e);
    case Pop(id) => PopConserves(h, id);
    case Complete(id) =>
    case Fail(id, error) => FailConserves(h, id, error);
    case RecoverStale =>
    case Replay(k) => ReplayConserves(h, k);
  }

  /** A push conserves exactly unless its id is that of a dead letter. */
  lemma PushConserves(h: History, e: Event)
    requires Conserved(h) && Possible(h, Push(e))
    ensures Conserved(Act(h, Push(e))) <==> !InDead(h.q.dead, e.id)
  {
    var g := Act(h, Push(e));
    if InDead(h.q.dead, e.id) {
      assert !Places(g, e.id);
    } else {
      forall k | 0 <= k < |g.q.dead| ensures g.q.dead[k].event.id != e.id {
        assert InDead(h.q.dead, h.q.dead[k].event.id);
      }
    }
  }

  lemma PopConserves(h: History, id: EventId)
    requires Conserved(h) && IsNext(h.q, id)
    ensures Conserved(Act(h, Pop(id)))
  {
    assert Places(h, id);
    assert !InDead(h.q.dead, id);
  }

  lemma FailConserves(h: History, id: EventId, error: string)
    requires Conserved(h)
    ensures Conserved(Act(h, Fail(id, error)))
  {
    if id in h.q.rows && h.q.rows[id].attempts >= MAX_ATTEMPTS {
      DeadLetterConserves(h, id, error);
    }
  }

  lemma DeadLetterConserves(h: History, id: EventId, error: string)
    requires Conserved(h) && id in h.q.rows && h.q.rows[id].attempts >= MAX_ATTEMPTS
    ensures Conserved(Act(h, Fail(id, error)))
  {
    var d := Dead(h.q.rows[id].event, h.q.rows[id].attempts, Some(error));
    assert d.event.id == id && Places(h, id);
    hide InDead, DistinctDead;
    DeadAppend(h.q.dead, d);
  }

  lemma {:induction false} ReplayConserves(h: History, k: nat)
    requires Conserved(h) && Possible(h, Replay(k))
    ensures Conserved(Act(h, Replay(k)))
  {
    var id := h.q.dead[k].event.id;
    DeadRemove(h.q.dead, k);
    assert InDead(h.q.dead, id) && Places(h, id);
    var g := Act(h, Replay(k));
    forall j | 0 <= j < |g.q.dead|
      ensures var d := g.q.dead[j];
              d.event.id in g.pushed && d.event == g.pushed[d.event.id] && d.attempts == g.pops[d.event.id] && d.attempts >= MAX_ATTEMPTS
    {
      assert g.q.dead[j] == h.q.dead[if j < k then j else j + 1];
    }
  }

  predicate AllProper(h: History, acts: seq<Action>)
    decreases |acts|
  {
    acts == [] || (Proper(h, acts[0]) && AllProper(Act(h, acts[0]), acts[1..]))
  }

  function ActAll(h: History, acts: seq<Action>): History
    requires AllProper(h, acts)
    decreases |acts|
  {
    if acts == [] then h else ActAll(Act(h, acts[0]), acts[1..])
  }

  /** Conservation over every run: pushes, pops, completions, failures, crash recovery and
      replays in any order lose, duplicate and alter nothing. */
  lemma {:induction false} RunConserves(h: History, acts: seq<Action>)
    requires Conserved(h) && AllProper(h, acts)
    ensures Conserved(ActAll(h, acts))
    ensures forall id | id in h.pushed && (forall a | a in acts :: !Pushes(a, id)) ::
              id in ActAll(h, acts).pushed && ActAll(h, acts).pushed[id] == h.pushed[id]
    decreases |acts|
  {
    if acts != [] {
      ActConserves(h, acts[0]);
      RunConserves(Act(h, acts[0]), acts[1..]);
      hide Conserved, Act, Proper;
      assert forall a | a in acts[1..] :: a in acts;
    }
  }

  // --- the consumer's work ---

  /** How many more pops a pending row can take. */
  function Remaining(r: Row): nat {
    if r.attempts < MAX_ATTEMPTS then MAX_ATTEMPTS - r.attempts else 1
  }

  ghost function Sum(rows: map<EventId, Row>, ids: set<EventId>): nat
    requires ids <= rows.Keys
  {
    if ids == {} then 0
    else
      var id :| id in ids;
      Remaining(rows[id]) + Sum(rows, ids - {id})
  }

  lemma {:induction false} SumWithout(rows: map<EventId, Row>, ids: set<EventId>, x: EventId)
    requires ids <= rows.Keys && x in ids
    ensures Sum(rows, ids) == Remaining(rows[x]) + Sum(rows, ids - {x})
    decreases ids
  {
    var id :| id in ids && Sum(rows, ids) == Remaining(rows[id]) + Sum(rows, ids - {id});
    if id != x {
      SumWithout(rows, ids - {id}, x);
      SumWithout(rows, ids - {x}, id);
      assert ids - {id} - {x} == ids - {x} - {id};
    }
  }

  lemma {:induction false} SumSame(rows: map<EventId, Row>, others: map<EventId, Row>, ids: set<EventId>)
    requires ids <= rows.Keys && ids <= others.Keys && forall id | id in ids :: rows[id] == others[id]
    ensures Sum(rows, ids) == Sum(others, ids)
    decreases ids
  {
    if ids != {} {
      var id :| id in ids;
      SumSame(rows, others, ids - {id});
      SumWithout(rows, ids, id);
      SumWithout(others, ids, id);
    }
  }

  /** The attempts all pending events may still use. */
  ghost function Work(q: Queue): nat {
    Sum(q.rows, PendingIds(q))
  }

  predicate DistinctKeys(q: Queue) {
    forall a, b | a in q.rows && b in q.rows && a != b && !q.rows[a].processing && !q.rows[b].processing ::
      !SameKey(q.rows[a].event, q.rows[b].event)
  }

  /** Serving an event once, to completion or failure, uses up some of the work. */
  lemma WorkShrinks(q: Queue, r: Queue, id: EventId)
    requires IsPending(q, id)
    requires r == Completed(Popped(q, id), id) || exists error :: r == FailedOnce(Popped(q, id), id, error)
    ensures Work(r) < Work(q)
  {
    var others := PendingIds(q) - {id};
    SumWithout(q.rows, PendingIds(q), id);
    SumSame(q.rows, r.rows, others);
    if IsPending(r, id) {
      SumWithout(r.rows, PendingIds(r), id);
      assert PendingIds(r) - {id} == others;
    } else {
      assert PendingIds(r) == others;
    }
  }

  lemma SameKeySameEvent(q0: Queue, q: Queue, trace: seq<Event>, id: EventId)
    requires DistinctKeys(q0) && IsNext(q, id) && PendingIds(q) <= PendingIds(q0)
    requires forall k | k in q.rows :: k in q0.rows && q.rows[k].event == q0.rows[k].event
    requires forall a | 0 <= a < |trace| :: trace[a].id in q0.rows && trace[a] == q0.rows[trace[a].id].event
    requires forall a, k | 0 <= a < |trace| && k in PendingIds(q) :: Before(trace[a], q.rows[k].event)
    ensures forall a | 0 <= a < |trace| && trace[a].id in PendingIds(q) :: trace[a] == q.rows[id].event
  {
    forall a | 0 <= a < |trace| && trace[a].id in PendingIds(q) ensures trace[a] == q.rows[id].event {
      var k := trace[a].id;
      assert Before(q.rows[id].event, q.rows[k].event) && Before(trace[a], q.rows[id].event);
      assert id in PendingIds(q) && k in PendingIds(q0) && id in PendingIds(q0);
      assert SameKey(q0.rows[id].event, q0.rows[k].event);
    }
  }

  /** Rows are filed under their event's id, and no row is also a dead letter. */
  predicate ProperIds(q: Queue) {
    forall id | id in q.rows :: q.rows[id].event.id == id && !InDead(q.dead, id)
  }

  /** What serving events leaves of the tables: fewer pending rows, rows in processing
      untouched, every row with the event it had. */
  ghost predicate Served(q0: Queue, q: Queue) {
    && ProperIds(q) && PendingIds(q) <= PendingIds(q0)
    && (forall id | id in q.rows :: id in q0.rows && q.rows[id].event == q0.rows[id].event)
    && (forall id | id in q0.rows && q0.rows[id].processing :: id in q.rows && q.rows[id] == q0.rows[id])
    && (forall id | id in q.rows && q.rows[id].processing :: q0.rows[id].processing)
    && q0.dead <= q.dead
    && (forall k | |q0.dead| <= k < |q.dead| :: NewlyDead(q0, q.dead[k]))
  }

  /** A dead letter made from a row that was pending, with its budget used up. */
  predicate NewlyDead(q0: Queue, d: Dead) {
    IsPending(q0, d.event.id) && d.event == q0.rows[d.event.id].event && d.attempts >= MAX_ATTEMPTS
  }

  /** The events served so far came in order, and before all that is pending. */
  ghost predicate Ordered(q: Queue, trace: seq<Event>) {
    && (forall a, id | 0 <= a < |trace| && id in PendingIds(q) :: Before(trace[a], q.rows[id].event))
    && (forall a, b | 0 <= a < b < |trace| :: Before(trace[a], trace[b]))
  }

  /** The servings of one event follow each other, and one that is pending again was the
      last to be served. */
  ghost predicate InBlocks(q: Queue, trace: seq<Event>) {
    && (forall a, b | 0 <= a < b < |trace| && trace[a].id in PendingIds(q) :: trace[b] == trace[a])
    && (forall a, b, c | 0 <= a < b < c < |trace| && trace[a] == trace[c] :: trace[b] == trace[a])
  }

  ghost predicate FromRows(q0: Queue, trace: seq<Event>) {
    forall a | 0 <= a < |trace| :: trace[a].id in q0.rows && trace[a] == q0.rows[trace[a].id].event
  }

  ghost predicate DrainInv(q0: Queue, q: Queue, trace: seq<Event>) {
    && Served(q0, q) && Ordered(q, trace) && FromRows(q0, trace)
    && |trace| + Work(q) <= Work(q0)
    && (DistinctKeys(q0) ==> InBlocks(q, trace))
  }

  /** r is q after the pending event id was popped and then completed or failed. */
  ghost predicate ServedOne(q: Queue, id: EventId, r: Queue)
    requires id in q.rows
  {
    r == Completed(Popped(q, id), id) || exists error :: r == FailedOnce(Popped(q, id), id, error)
  }

  lemma ServeRows(q: Queue, id: EventId, r: Queue)
    requires ProperIds(q) && IsPending(q, id) && ServedOne(q, id, r)
    ensures Served(q, r)
  {
    if r.dead != q.dead {
      var d := r.dead[|q.dead|];
      assert r.dead == q.dead + [d] && d.event.id == id;
      DeadAppend(q.dead, d);
    }
  }

  lemma ServeOrder(q0: Queue, q: Queue, trace: seq<Event>, id: EventId, r: Queue)
    requires FromRows(q0, trace) && Ordered(q, trace) && IsNext(q, id)
    requires forall k | k in q.rows :: k in q0.rows && q.rows[k].event == q0.rows[k].event
    requires PendingIds(r) <= PendingIds(q) && forall k | k in r.rows :: k in q.rows && r.rows[k].event == q.rows[k].event
    requires q.rows[id].event.id == id
    ensures Ordered(r, trace + [q.rows[id].event]) && FromRows(q0, trace + [q.rows[id].event])
  {
    assert id in PendingIds(q);
    assert forall k | k in PendingIds(r) :: k in PendingIds(q) && Before(q.rows[id].event, r.rows[k].event);
  }

  lemma ServeBlocks(q0: Queue, q: Queue, trace: seq<Event>, id: EventId, r: Queue)
    requires DistinctKeys(q0) && FromRows(q0, trace) && Ordered(q, trace) && InBlocks(q, trace) && IsNext(q, id)
    requires PendingIds(q) <= PendingIds(q0) && forall k | k in q.rows :: k in q0.rows && q.rows[k].event == q0.rows[k].event
    requires PendingIds(r) <= PendingIds(q) && q.rows[id].event.id == id
    ensures InBlocks(r, trace + [q.rows[id].event])
  {
    SameKeySameEvent(q0, q, trace, id);
    assert id in PendingIds(q);
    hide DistinctKeys, IsNext, PendingIds;
    var e, n := q.rows[id].event, |trace|;
    forall a, b, c | 0 <= a < b < c < n + 1 && (trace + [e])[a] == (trace + [e])[c] ensures (trace + [e])[b] == (trace + [e])[a] {
      if c == n {
        assert trace[a] == e && trace[a].id in PendingIds(q);
      }
    }
  }

  lemma {:induction false} ServeKeeps(q0: Queue, q: Queue, trace: seq<Event>, id: EventId, r: Queue)
    requires DrainInv(q0, q, trace) && IsNext(q, id) && ServedOne(q, id, r)
    ensures DrainInv(q0, r, trace + [q.rows[id].event]) && Work(r) < Work(q)
  {
    ServeRows(q, id, r);
    ServeOrder(q0, q, trace, id, r);
    if DistinctKeys(q0) {
      ServeBlocks(q0, q, trace, id, r);
    }
    hide DistinctKeys, Ordered, InBlocks;
    WorkShrinks(q, r, id);
    ServedTransitive(q0, q, r);
  }

  lemma ServedTransitive(q0: Queue, q: Queue, r: Queue)
    requires Served(q0, q) && Served(q, r)
    ensures Served(q0, r)
  {
    assert PendingIds(r) <= PendingIds(q0);
    forall k | |q0.dead| <= k < |r.dead| ensures NewlyDead(q0, r.dead[k]) {
      if k < |q.dead| {
        assert r.dead[k] == q.dead[k];
      } else {
        assert NewlyDead(q, r.dead[k]) && r.dead[k].event.id in PendingIds(q);
        assert r.dead[k].event.id in PendingIds(q0);
      }
    }
  }

  /** How the handler ended: None when it returned, otherwise what it raised. */
  type Handling = Option<string>

  /** One turn of the consumer on the event with the given id. */
  function ServeOnce(q: Queue, id: EventId, raised: Handling): Queue {
    if id !in q.rows then q
    else if raised.None? then Completed(Popped(q, id), id)
    else FailedOnce(Popped(q, id), id, raised.value)
  }

  /** The queue after the events of the trace were served, the n-th as raised(n) says. */
  function After(q0: Queue, trace: seq<Event>, raised: nat -> Handling): Queue {
    if trace == [] then q0
    else
      var n := |trace| - 1;
      ServeOnce(After(q0, trace[..n], raised), trace[n].id, raised(n))
  }

  /** The trace is a run of the consumer: each event served came first when it was popped. */
  predicate Serves(q0: Queue, trace: seq<Event>, raised: nat -> Handling) {
    trace == [] ||
    var n := |trace| - 1;
    var q := After(q0, trace[..n], raised);
    Serves(q0, trace[..n], raised) && IsNext(q, trace[n].id) && trace[n] == q.rows[trace[n].id].event
  }

  lemma ServesMore(q0: Queue, trace: seq<Event>, raised: nat -> Handling, e: Event)
    requires Serves(q0, trace, raised)
    requires var q := After(q0, trace, raised); IsNext(q, e.id) && e == q.rows[e.id].event
    ensures Serves(q0, trace + [e], raised)
    ensures After(q0, trace + [e], raised) == ServeOnce(After(q0, trace, raised), e.id, raised(|trace|))
  {
    assert (trace + [e])[..|trace|] == trace;
  }

  lemma ServedMeans(q: Queue, id: EventId, raised: Handling, r: Queue)
    requires IsPending(q, id) && r == ServeOnce(q, id, raised)
    ensures ServedOne(q, id, r) && Work(r) < Work(q)
  {
    WorkShrinks(q, r, id);
  }

  lemma {:induction false} ServesKeeps(q0: Queue, trace: seq<Event>, raised: nat -> Handling)
    requires Serves(q0, trace, raised) && ProperIds(q0)
    ensures DrainInv(q0, After(q0, trace, raised), trace)
  {
    hide *;
    if trace == [] {
      DrainBegins(q0, raised);
    } else {
      var n := |trace| - 1;
      var q := After(q0, trace[..n], raised);
      var id := trace[n].id;
      ServesLast(q0, trace, raised);
      ServesKeeps(q0, trace[..n], raised);
      ServedMeans(q, id, raised(n), ServeOnce(q, id, raised(n)));
      ServeKeeps(q0, q, trace[..n], id, ServeOnce(q, id, raised(n)));
      assert trace == trace[..n] + [trace[n]];
    }
  }

  lemma DrainBegins(q0: Queue, raised: nat -> Handling)
    requires ProperIds(q0)
    ensures After(q0, [], raised) == q0 && DrainInv(q0, q0, [])
  {
  }

  /** The last serving of a run. */
  lemma ServesLast(q0: Queue, trace: seq<Event>, raised: nat -> Handling)
    requires Serves(q0, trace, raised) && trace != []
    ensures var n := |trace| - 1;
            var q := After(q0, trace[..n], raised);
            && Serves(q0, trace[..n], raised) && IsNext(q, trace[n].id) && IsPending(q, trace[n].id)
            && trace[n] == q.rows[trace[n].id].event
            && After(q0, trace, raised) == ServeOnce(q, trace[n].id, raised(n))
  {
  }

  /** Draining, for every way the handlers may answer: events come in priority order, with
      distinct keys the attempts on one event are consecutive, there are at most as many as
      the pending events had left, rows in processing are not touched, and whatever became a
      dead letter was pending and had used its budget. */
  lemma DrainMeaning(q0: Queue, trace: seq<Event>, raised: nat -> Handling)
    requires Serves(q0, trace, raised) && ProperIds(q0)
    ensures forall a, b | 0 <= a < b < |trace| ::
              trace[a].priority < trace[b].priority || (trace[a].priority == trace[b].priority && trace[a].timestamp <= trace[b].timestamp)
    ensures DistinctKeys(q0) ==> forall a, b, c | 0 <= a < b < c < |trace| && trace[a] == trace[c] :: trace[b] == trace[a]
    ensures |trace| + Work(After(q0, trace, raised)) <= Work(q0)
    ensures var q := After(q0, trace, raised);
            && q0.dead <= q.dead && (forall k | |q0.dead| <= k < |q.dead| :: NewlyDead(q0, q.dead[k]))
            && (PendingIds(q) == {} ==> q.rows == map id | id in q0.rows && q0.rows[id].processing :: q0.rows[id])
  {
    ServesKeeps(q0, trace, raised);
    var q := After(q0, trace, raised);
    if PendingIds(q) == {} {
      forall id | id in q.rows ensures id in q0.rows && q0.rows[id].processing && q.rows[id] == q0.rows[id] {
        assert id !in PendingIds(q);
      }
    }
  }

  // --- what becomes of each event ---

  /** How often an event was served. */
  function Servings(trace: seq<Event>, id: EventId): nat {
    if trace == [] then 0
    else Servings(trace[..|trace| - 1], id) + (if trace[|trace| - 1].id == id then 1 else 0)
  }

  predicate IsServed(trace: seq<Event>, id: EventId) {
    exists n | 0 <= n < |trace| :: trace[n].id == id
  }

  /** The n-th serving was one of this event, and its handler returned. */
  predicate HandledAt(trace: seq<Event>, raised: nat -> Handling, id: EventId, n: nat) {
    n < |trace| && trace[n].id == id && raised(n).None?
  }

  predicate Handled(trace: seq<Event>, raised: nat -> Handling, id: EventId) {
    exists n | 0 <= n < |trace| :: HandledAt(trace, raised, id, n)
  }

  /** The n-th serving is the last one of this event, and its handler raised this error. */
  predicate LastRaised(trace: seq<Event>, raised: nat -> Handling, id: EventId, n: nat, error: Option<string>) {
    n < |trace| && trace[n].id == id && raised(n) == error && error.Some? && forall m | n < m < |trace| :: trace[m].id != id
  }

  /** What became of a pending event: handled, and gone at once; still pending, each attempt
      counted; or, with its attempts used up and never handled, a dead letter with the last error. */
  ghost predicate Fate(q0: Queue, q: Queue, trace: seq<Event>, raised: nat -> Handling, id: EventId)
    requires IsPending(q0, id)
  {
    var used := q0.rows[id].attempts + Servings(trace, id);
    if Handled(trace, raised, id) then id !in q.rows && !NewInDead(q0, q, id)
    else if id in q.rows then
      !q.rows[id].processing && q.rows[id].attempts == used && !NewInDead(q0, q, id) &&
      (Servings(trace, id) > 0 ==> used < MAX_ATTEMPTS)
    else exists k, n :: BecameDead(q0, q, trace, raised, id, k, n)
  }

  predicate NewInDead(q0: Queue, q: Queue, id: EventId) {
    exists k | |q0.dead| <= k < |q.dead| :: q.dead[k].event.id == id
  }

  /** The k-th dead letter is this event; its last serving was the n-th. */
  predicate BecameDead(q0: Queue, q: Queue, trace: seq<Event>, raised: nat -> Handling, id: EventId, k: nat, n: nat) {
    && |q0.dead| <= k < |q.dead| && q.dead[k].event.id == id && id in q0.rows
    && q.dead[k].event == q0.rows[id].event
    && q.dead[k].attempts == q0.rows[id].attempts + Servings(trace, id) && q.dead[k].attempts >= MAX_ATTEMPTS
    && LastRaised(trace, raised, id, n, q.dead[k].lastError)
  }

  ghost predicate DeadAt(q0: Queue, q: Queue, trace: seq<Event>, raised: nat -> Handling, k: nat)
    requires k < |q.dead|
  {
    IsPending(q0, q.dead[k].event.id) && exists n :: BecameDead(q0, q, trace, raised, q.dead[k].event.id, k, n)
  }

  /** The fates of all events, and that only pending ones are served, none after it was handled. */
  ghost predicate Fates(q0: Queue, q: Queue, trace: seq<Event>, raised: nat -> Handling) {
    && (forall id | IsPending(q0, id) :: Fate(q0, q, trace, raised, id))
    && (forall id | IsServed(trace, id) :: IsPending(q0, id))
    && (forall n, m | 0 <= n < m < |trace| && raised(n).None? :: trace[m].id != trace[n].id)
    && (forall k | |q0.dead| <= k < |q.dead| :: DeadAt(q0, q, trace, raised, k))
  }

  lemma ServingsNext(trace: seq<Event>, e: Event, raised: nat -> Handling, id: EventId)
    ensures Servings(trace + [e], id) == Servings(trace, id) + (if e.id == id then 1 else 0)
    ensures Handled(trace + [e], raised, id) <==> Handled(trace, raised, id) || (e.id == id && raised(|trace|).None?)
  {
    assert (trace + [e])[..|trace|] == trace;
    forall n | 0 <= n < |trace| ensures HandledAt(trace + [e], raised, id, n) == HandledAt(trace, raised, id, n) {
    }
    assert HandledAt(trace + [e], raised, id, |trace|) <==> e.id == id && raised(|trace|).None?;
  }

  lemma {:induction false} ServedIsServed(trace: seq<Event>, id: EventId)
    ensures Servings(trace, id) > 0 <==> IsServed(trace, id)
  {
    if trace != [] {
      ServedIsServed(trace[..|trace| - 1], id);
    }
  }

  lemma ServedMore(trace: seq<Event>, e: Event, id: EventId)
    ensures IsServed(trace + [e], id) <==> IsServed(trace, id) || e.id == id
  {
    if n :| 0 <= n < |trace| && trace[n].id == id {
      assert (trace + [e])[n] == trace[n];
    }
    assert (trace + [e])[|trace|] == e;
  }

  /** Serving one event leaves the fates of the others. */
  lemma OtherFate(q0: Queue, q: Queue, r: Queue, trace: seq<Event>, e: Event, raised: nat -> Handling, id: EventId)
    requires IsPending(q0, id) && Fate(q0, q, trace, raised, id) && e.id != id && |q0.dead| <= |q.dead|
    requires id in q.rows <==> id in r.rows
    requires id in q.rows ==> r.rows[id] == q.rows[id]
    requires q.dead <= r.dead && forall k | |q.dead| <= k < |r.dead| :: r.dead[k].event.id == e.id
    ensures Fate(q0, r, trace + [e], raised, id)
  {
    ServingsNext(trace, e, raised, id);
    assert NewInDead(q0, r, id) <==> NewInDead(q0, q, id) by {
      if k :| |q0.dead| <= k < |q.dead| && q.dead[k].event.id == id {
        assert r.dead[k] == q.dead[k];
      }
      if k :| |q0.dead| <= k < |r.dead| && r.dead[k].event.id == id {
        assert r.dead[k] == q.dead[k];
      }
    }
    if !Handled(trace, raised, id) && id !in q.rows {
      var k, n :| BecameDead(q0, q, trace, raised, id, k, n);
      assert BecameDead(q0, r, trace + [e], raised, id, k, n);
    }
  }

  /** The fate of the event that was served. */
  lemma OwnFate(q0: Queue, q: Queue, trace: seq<Event>, raised: nat -> Handling, id: EventId)
    requires IsPending(q0, id) && Fate(q0, q, trace, raised, id) && IsPending(q, id) && |q0.dead| <= |q.dead|
    requires q.rows[id].event == q0.rows[id].event && q.rows[id].event.id == id
    ensures Fate(q0, ServeOnce(q, id, raised(|trace|)), trace + [q.rows[id].event], raised, id)
  {
    var e, n := q.rows[id].event, |trace|;
    var r := ServeOnce(q, id, raised(n));
    ServingsNext(trace, e, raised, id);
    if raised(n).Some? && id !in r.rows {
      assert r.dead[|q.dead|] == Dead(e, q.rows[id].attempts + 1, raised(n));
      assert BecameDead(q0, r, trace + [e], raised, id, |q.dead|, n);
    } else if !NewInDead(q0, q, id) {
      assert r.dead == q.dead;
    }
  }

  lemma FatesNext(q0: Queue, q: Queue, trace: seq<Event>, raised: nat -> Handling, id: EventId)
    requires Fates(q0, q, trace, raised) && IsPending(q, id) && Served(q0, q)
    ensures Fates(q0, ServeOnce(q, id, raised(|trace|)), trace + [q.rows[id].event], raised)
  {
    var e, n := q.rows[id].event, |trace|;
    var r := ServeOnce(q, id, raised(n));
    assert id in PendingIds(q) && id in PendingIds(q0) && e.id == id && e == q0.rows[id].event;
    assert q.dead <= r.dead && forall k | |q.dead| <= k < |r.dead| :: r.dead[k].event.id == id;
    hide Fate, Served;
    forall j | IsPending(q0, j) ensures Fate(q0, r, trace + [e], raised, j) {
      if j == id {
        OwnFate(q0, q, trace, raised, id);
      } else {
        OtherFate(q0, q, r, trace, e, raised, j);
      }
    }
    NotServedAfter(q0, q, trace, raised, id);
    forall j | IsServed(trace + [e], j) ensures IsPending(q0, j) {
      ServedMore(trace, e, j);
    }
    assert !InDead(q.dead, e.id);
    forall k | |q0.dead| <= k < |r.dead| ensures DeadAt(q0, r, trace + [e], raised, k) {
      if k < |q.dead| {
        DeadStays(q0, q, r, trace, e, raised, k);
      } else {
        OwnDead(q0, q, trace, raised, id);
      }
    }
  }

  lemma DeadStays(q0: Queue, q: Queue, r: Queue, trace: seq<Event>, e: Event, raised: nat -> Handling, k: nat)
    requires |q0.dead| <= k < |q.dead| && DeadAt(q0, q, trace, raised, k) && q.dead <= r.dead && !InDead(q.dead, e.id)
    ensures DeadAt(q0, r, trace + [e], raised, k)
  {
    var id := q.dead[k].event.id;
    var n :| BecameDead(q0, q, trace, raised, id, k, n);
    ServingsNext(trace, e, raised, id);
    assert r.dead[k] == q.dead[k] && BecameDead(q0, r, trace + [e], raised, id, k, n);
  }

  lemma OwnDead(q0: Queue, q: Queue, trace: seq<Event>, raised: nat -> Handling, id: EventId)
    requires IsPending(q0, id) && Fate(q0, q, trace, raised, id) && IsPending(q, id) && |q0.dead| <= |q.dead|
    requires q.rows[id].event == q0.rows[id].event && q.rows[id].event.id == id
    ensures var r := ServeOnce(q, id, raised(|trace|));
            |r.dead| > |q.dead| ==> |r.dead| == |q.dead| + 1 && DeadAt(q0, r, trace + [q.rows[id].event], raised, |q.dead|)
  {
    var e, n := q.rows[id].event, |trace|;
    var r := ServeOnce(q, id, raised(n));
    ServingsNext(trace, e, raised, id);
    if |r.dead| > |q.dead| {
      assert r.dead[|q.dead|] == Dead(e, q.rows[id].attempts + 1, raised(n));
      assert BecameDead(q0, r, trace + [e], raised, id, |q.dead|, n);
    }
  }

  /** An event that is pending was not handled. */
  lemma NotServedAfter(q0: Queue, q: Queue, trace: seq<Event>, raised: nat -> Handling, id: EventId)
    requires IsPending(q0, id) && Fate(q0, q, trace, raised, id) && IsPending(q, id)
    ensures forall n | 0 <= n < |trace| && raised(n).None? :: trace[n].id != id
  {
    forall n | 0 <= n < |trace| && raised(n).None? ensures trace[n].id != id {
      assert HandledAt(trace, raised, id, n) <==> trace[n].id == id;
    }
  }

  /** Along every run of the consumer. */
  lemma {:induction false} ServesFates(q0: Queue, trace: seq<Event>, raised: nat -> Handling)
    requires Serves(q0, trace, raised) && ProperIds(q0)
    ensures Fates(q0, After(q0, trace, raised), trace, raised)
  {
    hide *;
    if trace == [] {
      DrainBegins(q0, raised);
      NoFates(q0, raised);
    } else {
      var n := |trace| - 1;
      var q := After(q0, trace[..n], raised);
      ServesLast(q0, trace, raised);
      ServesFates(q0, trace[..n], raised);
      ServesKeeps(q0, trace[..n], raised);
      DrainServed(q0, q, trace[..n]);
      FatesNext(q0, q, trace[..n], raised, trace[n].id);
      assert trace == trace[..n] + [trace[n]];
    }
  }

  lemma DrainProper(q0: Queue, q: Queue, trace: seq<Event>)
    requires DrainInv(q0, q, trace)
    ensures ProperIds(q)
  {
  }

  lemma NextIsPending(q: Queue, id: EventId)
    requires IsNext(q, id)
    ensures IsPending(q, id)
  {
  }

  lemma DrainServed(q0: Queue, q: Queue, trace: seq<Event>)
    requires DrainInv(q0, q, trace)
    ensures Served(q0, q)
  {
  }

  lemma NoFates(q0: Queue, raised: nat -> Handling)
    ensures Fates(q0, q0, [], raised)
  {
  }

  /** What draining makes of every event, said of the two tables, the servings and the handlers:
      exactly the pending ones are served; one whose handler returned is gone, is served no more
      and is no dead letter; every other became a dead letter with its attempts used up, all of
      its servings having raised, the last one the error stored with it. */
  lemma DrainFates(q0: Queue, trace: seq<Event>, raised: nat -> Handling)
    requires Serves(q0, trace, raised) && ProperIds(q0) && PendingIds(After(q0, trace, raised)) == {}
    ensures var q := After(q0, trace, raised);
            && (forall id :: IsPending(q0, id) <==> IsServed(trace, id))
            && (forall n, m | 0 <= n < m < |trace| && raised(n).None? :: trace[m].id != trace[n].id)
            && (forall id | IsPending(q0, id) :: id !in q.rows && (Handled(trace, raised, id) <==> !NewInDead(q0, q, id)))
            && q0.dead <= q.dead
            && (forall k | |q0.dead| <= k < |q.dead| :: DeadAt(q0, q, trace, raised, k))
  {
    var q := After(q0, trace, raised);
    ServesFates(q0, trace, raised);
    ServesKeeps(q0, trace, raised);
    hide *;
    FatesParts(q0, q, trace, raised);
    DeadOnlyGrows(q0, q, trace);
    forall id | IsPending(q0, id)
      ensures id !in q.rows && (Handled(trace, raised, id) <==> !NewInDead(q0, q, id))
      ensures IsServed(trace, id)
    {
      Drained(q0, q, trace, raised, id);
    }
  }

  lemma FatesParts(q0: Queue, q: Queue, trace: seq<Event>, raised: nat -> Handling)
    requires Fates(q0, q, trace, raised)
    ensures forall id | IsPending(q0, id) :: Fate(q0, q, trace, raised, id)
    ensures forall id | IsServed(trace, id) :: IsPending(q0, id)
    ensures forall n, m | 0 <= n < m < |trace| && raised(n).None? :: trace[m].id != trace[n].id
    ensures forall k | |q0.dead| <= k < |q.dead| :: DeadAt(q0, q, trace, raised, k)
  {
    hide Fate, IsPending, DeadAt, IsServed;
  }

  lemma DeadOnlyGrows(q0: Queue, q: Queue, trace: seq<Event>)
    requires DrainInv(q0, q, trace)
    ensures q0.dead <= q.dead
  {
  }

  lemma Drained(q0: Queue, q: Queue, trace: seq<Event>, raised: nat -> Handling, id: EventId)
    requires IsPending(q0, id) && Fate(q0, q, trace, raised, id) && PendingIds(q) == {}
    ensures id !in q.rows && (Handled(trace, raised, id) <==> !NewInDead(q0, q, id))
    ensures IsServed(trace, id)
  {
    assert id !in PendingIds(q);
    if Handled(trace, raised, id) {
      var n :| 0 <= n < |trace| && HandledAt(trace, raised, id, n);
    } else {
      var k: nat, n: nat :| BecameDead(q0, q, trace, raised, id, k, n);
      assert trace[n].id == id;
    }
  }

  /** The events whose handler returned. */
  function HandledIds(trace: seq<Event>, raised: nat -> Handling): set<EventId> {
    set n | 0 <= n < |trace| && raised(n).None? :: trace[n].id
  }

  lemma HandledMore(trace: seq<Event>, raised: nat -> Handling, e: Event)
    ensures HandledIds(trace + [e], raised) == HandledIds(trace, raised) + (if raised(|trace|).None? then {e.id} else {})
  {
    var more := trace + [e];
    assert more[|trace|] == e && forall n | 0 <= n < |trace| :: more[n] == trace[n];
    forall id ensures id in HandledIds(more, raised) <==> id in HandledIds(trace, raised) || (raised(|trace|).None? && id == e.id) {
      if n :| 0 <= n < |more| && raised(n).None? && more[n].id == id {
        assert n < |trace| ==> trace[n].id == id;
      }
      if n :| 0 <= n < |trace| && raised(n).None? && trace[n].id == id {
        assert more[n].id == id;
      }
    }
  }

  lemma NoneHandled(raised: nat -> Handling)
    ensures HandledIds([], raised) == {}
  {
  }

  /** Only completing an event of the table counts as completing it. */
  lemma CompletedBy(h: History, a: Action)
    requires Possible(h, a)
    ensures (a.Pop? || a.Fail?) ==> Act(h, a).completed == h.completed
    ensures a.Complete? ==> Act(h, a).completed == h.completed + (if a.id in h.q.rows then {a.id} else {})
  {
  }

  method FindNext(q: Queue) returns (best: Option<EventId>)
    ensures best.None? ==> PendingIds(q) == {}
    ensures best.Some? ==> IsNext(q, best.value)
    ensures best.Some? ==> forall k | k in q.rows && !q.rows[k].processing ::
              var e, f := q.rows[best.value].event, q.rows[k].event;
              e.priority < f.priority || (e.priority == f.priority && e.timestamp <= f.timestamp)
  {
    var left := PendingIds(q);
    best := None;
    while left != {}
      invariant left <= PendingIds(q)
      invariant best.None? ==> left == PendingIds(q)
      invariant best.Some? ==> IsPending(q, best.value)
      invariant best.Some? ==> forall k | k in PendingIds(q) && k !in left :: Before(q.rows[best.value].event, q.rows[k].event)
      decreases left
    {
      var k :| k in left;
      left := left - {k};
      if best.None? || !Before(q.rows[best.value].event, q.rows[k].event) {
        best := Some(k);
      }
    }
    if best.Some? {
      forall k | k in q.rows && !q.rows[k].processing ensures Before(q.rows[best.value].event, q.rows[k].event) {
        assert k in PendingIds(q);
      }
    }
  }

  // --- the queue object ---

  /** The first n dead letters are replayed one after the other. */
  ghost predicate CanReplay(h: History, n: nat) {
    n <= |h.q.dead| && DistinctDead(h.q.dead) && forall k | 0 <= k < n :: h.q.dead[k].event.id !in h.q.rows
  }

  ghost function ReplayedFirst(h: History, n: nat): (g: History)
    requires CanReplay(h, n)
    ensures g.q.dead == h.q.dead[n..]
    ensures g.q.rows.Keys == h.q.rows.Keys + set k | 0 <= k < n :: h.q.dead[k].event.id
    ensures forall id | id in h.q.rows :: g.q.rows[id] == h.q.rows[id]
    ensures forall k | 0 <= k < n :: g.q.rows[h.q.dead[k].event.id] == Fresh(h.q.dead[k].event)
  {
    if n == 0 then h
    else
      var before := ReplayedFirst(h, n - 1);
      assert before.q.dead[0] == h.q.dead[n - 1];
      Act(before, Replay(0))
  }

  lemma {:induction false} ReplayedConserves(h: History, n: nat)
    requires CanReplay(h, n) && Conserved(h)
    ensures Conserved(ReplayedFirst(h, n))
  {
    if n > 0 {
      hide Conserved, Act;
      ReplayedConserves(h, n - 1);
      assert ReplayedFirst(h, n - 1).q.dead[0] == h.q.dead[n - 1];
      ActConserves(ReplayedFirst(h, n - 1), Replay(0));
    }
  }

  predicate Filed(rows: map<EventId, Row>) {
    forall id | id in rows :: rows[id].event.id == id
  }

  /** The two tables, with the history of what was done to them. */
  class EventQueue {
    var rows: map<EventId, Row>
    var dead: seq<Dead>
    ghost var history: History

    function View(): Queue
      reads this
    {
      Queue(rows, dead)
    }

    /** Both tables are keyed by the ids of their events. */
    ghost predicate Valid()
      reads this
    {
      history.q == View() && DistinctDead(dead) && Filed(rows)
    }

    constructor ()
      ensures Valid() && View() == EMPTY && Conserved(history)
    {
      rows, dead := map[], [];
      history := History(EMPTY, map[], {}, map[]);
    }

    /** Ids are unique in the event table: inserting a second row raises. */
    method PushEvent(e: Event) returns (ok: bool)
      requires Valid()
      modifies this
      ensures Valid() && ok == (e.id !in old(rows))
      ensures View() == if ok then Queue(old(rows)[e.id := Fresh(e)], old(dead)) else old(View())
      ensures history == if ok then Act(old(history), Push(e)) else old(history)
      ensures Conserved(old(history)) && ok ==> (Conserved(history) <==> !InDead(old(dead), e.id))
    {
      hide Conserved, InDead, DistinctDead;
      ok := e.id !in rows;
      if ok {
        if Conserved(history) {
          PushConserves(history, e);
        }
        rows := rows[e.id := Fresh(e)];
        history := Act(history, Push(e));
      }
    }

    /** Takes a pending event that comes first in priority, then age. */
    method PopEvent() returns (popped: Option<Event>)
      requires Valid()
      modifies this
      ensures Valid() && (Conserved(old(history)) ==> Conserved(history))
      ensures popped.None? ==> PendingIds(old(View())) == {} && View() == old(View()) && history == old(history)
      ensures popped.Some? ==> exists id :: IsNext(old(View()), id) && popped.value == old(rows)[id].event &&
                                            View() == Popped(old(View()), id) && history == Act(old(history), Pop(id))
    {
      hide Conserved, DistinctDead;
      var q := View();
      var best := FindNext(q);
      if best.None? {
        return None;
      }
      var id := best.value;
      if Conserved(history) {
        ActConserves(history, Pop(id));
      }
      popped := Some(rows[id].event);
      rows := rows[id := rows[id].(processing := true, attempts := rows[id].attempts + 1)];
      history := Act(history, Pop(id));
      assert IsNext(q, id) && View() == Popped(q, id);
    }

    method CompleteEvent(id: EventId)
      requires Valid()
      modifies this
      ensures Valid() && (Conserved(old(history)) ==> Conserved(history))
      ensures View() == Completed(old(View()), id) && history == Act(old(history), Complete(id))
    {
      hide Conserved, DistinctDead;
      if Conserved(history) {
        ActConserves(history, Complete(id));
      }
      rows := rows - {id};
      history := Act(history, Complete(id));
    }

    /** Back to pending, or to the dead letters after the last attempt. A dead letter of the
        same id makes the insert raise, and nothing is written. */
    method FailEvent(id: EventId, error: string) returns (ok: bool)
      requires Valid()
      modifies this
      ensures Valid() && (Conserved(old(history)) ==> Conserved(history))
      ensures ok == !(id in old(rows) && old(rows)[id].attempts >= MAX_ATTEMPTS && InDead(old(dead), id))
      ensures View() == if ok then FailedOnce(old(View()), id, error) else old(View())
      ensures history == if ok then Act(old(history), Fail(id, error)) else old(history)
    {
      hide Conserved;
      if Conserved(history) {
        ActConserves(history, Fail(id, error));
      }
      if id !in rows {
        history := Act(history, Fail(id, error));
        return true;
      }
      var row := rows[id];
      if row.attempts >= MAX_ATTEMPTS {
        if exists k | 0 <= k < |dead| :: dead[k].event.id == id {
          return false;
        }
        var d := Dead(row.event, row.attempts, Some(error));
        DeadAppend(dead, d);
        dead := dead + [d];
        rows := rows - {id};
      } else {
        rows := rows[id := row.(processing := false, lastError := Some(error))];
      }
      history := Act(history, Fail(id, error));
      return true;
    }

    method Recover() returns (count: nat)
      requires Valid()
      modifies this
      ensures Valid() && (Conserved(old(history)) ==> Conserved(history))
      ensures View() == Recovered(old(View())) && history == Act(old(history), RecoverStale)
      ensures count == |set id | id in old(rows) && old(rows)[id].processing|
    {
      hide Conserved, DistinctDead;
      if Conserved(history) {
        ActConserves(history, RecoverStale);
      }
      count := |set id | id in rows && rows[id].processing|;
      rows := map id | id in rows :: rows[id].(processing := false);
      history := Act(history, RecoverStale);
    }

    /** Moves one dead letter back, with no attempts used. A row of the same id in the event
        table makes the insert raise, and nothing is written. */
    method ReplayDeadLetter(id: EventId) returns (found: Result<bool, string>)
      requires Valid()
      modifies this
      ensures Valid() && (Conserved(old(history)) ==> Conserved(history))
      ensures found == if !InDead(old(dead), id) then Ok(false) else if id in old(rows) then Err("duplicate id") else Ok(true)
      ensures found != Ok(true) ==> View() == old(View()) && history == old(history)
      ensures found == Ok(true) ==> exists k | 0 <= k < |old(dead)| :: old(dead)[k].event.id == id &&
                                      Possible(old(history), Replay(k)) && View() == Replayed(old(View()), k) && history == Act(old(history), Replay(k))
    {
      hide Conserved;
      if !exists k | 0 <= k < |dead| :: dead[k].event.id == id {
        return Ok(false);
      }
      if id in rows {
        return Err("duplicate id");
      }
      var k: nat :| k < |dead| && dead[k].event.id == id;
      if Conserved(history) {
        ActConserves(history, Replay(k));
      }
      DeadRemove(dead, k);
      ghost var before := View();
      var e := dead[k].event;
      rows := rows[e.id := Fresh(e)];
      dead := dead[..k] + dead[k + 1..];
      history := Act(history, Replay(k));
      assert before.dead[k].event.id == id && View() == Replayed(before, k);
      return Ok(true);
    }

    /** Replays the oldest dead letters, at most limit of them; no limit, or zero, means 1000.
        It stops, raising, at the first whose id is taken in the event table. */
    method ReplayAll(limit: Option<nat>) returns (replayed: Result<nat, string>, ghost n: nat)
      requires Valid()
      modifies this
      ensures Valid() && (Conserved(old(history)) ==> Conserved(history))
      ensures var bound := if limit.Some? && limit.value > 0 then limit.value else 1000;
              && n <= bound && n <= |old(dead)|
              && (n < bound && n < |old(dead)| ==> old(dead)[n].event.id in old(rows) && replayed == Err("duplicate id"))
              && (n == bound || n == |old(dead)| ==> replayed == Ok(n))
      ensures CanReplay(old(history), n) && history == ReplayedFirst(old(history), n)
    {
      hide Conserved, DistinctDead, InDead, Filed, Act, Possible, ReplayedFirst;
      var bound := if limit.Some? && limit.value > 0 then limit.value else 1000;
      var listed := dead[..Min(bound, |dead|)];
      ghost var h0 := history;
      NoneReplayed(h0);
      n := 0;
      var i := 0;
      while i < |listed|
        invariant 0 <= i <= |listed| && n == i && Valid()
        invariant CanReplay(h0, i) && history == ReplayedFirst(h0, i)
      {
        var id := listed[i].event.id;
        assert dead[0] == h0.q.dead[i] == listed[i];
        FirstIsDead(dead, id);
        TakenLater(h0, i);
        var found := ReplayDeadLetter(id);
        if found.Err? {
          ReplayedAreConserved(h0, i);
          return Err(found.error), n;
        }
        OneReplayed(h0, i, history);
        i := i + 1;
        n := n + 1;
      }
      ReplayedAreConserved(h0, i);
      replayed := Ok(i);
    }

    /** What the consumer does once the handler of a popped event has ended. */
    method Finish(id: EventId, raised: Handling)
      requires Valid() && id in rows && !InDead(dead, id)
      modifies this
      ensures Valid() && (Conserved(old(history)) ==> Conserved(history))
      ensures View() == if raised.None? then Completed(old(View()), id) else FailedOnce(old(View()), id, raised.value)
      ensures history.completed == old(history).completed + (if raised.None? then {id} else {})
    {
      hide Conserved, DistinctDead, InDead;
      CompletedBy(history, if raised.None? then Complete(id) else Fail(id, raised.value));
      hide Act;
      if raised.None? {
        CompleteEvent(id);
      } else {
        var _ := FailEvent(id, raised.value);
      }
    }

    /** One turn of the consumer: takes the next event, if one is pending, and finishes it as
        its handler ended. */
    method ServeNext(raised: Handling) returns (served: Option<Event>)
      requires Valid() && ProperIds(View())
      modifies this
      ensures Valid() && (Conserved(old(history)) ==> Conserved(history))
      ensures served.None? ==> PendingIds(View()) == {} && View() == old(View()) && history == old(history)
      ensures served.Some? ==>
                var id := served.value.id;
                && IsNext(old(View()), id) && served.value == old(rows)[id].event
                && View() == ServeOnce(old(View()), id, raised)
                && history.completed == old(history).completed + (if raised.None? then {id} else {})
    {
      hide Conserved, DistinctDead, InDead;
      ghost var before, h0 := View(), history;
      served := PopEvent();
      if served.Some? {
        ghost var id :| IsNext(before, id) && served.value == before.rows[id].event && View() == Popped(before, id) && history == Act(h0, Pop(id));
        assert !InDead(dead, id) && served.value.id == id;
        CompletedBy(h0, Pop(id));
        hide Act;
        Finish(served.value.id, raised);
      }
    }

    /** The consumer: pops, then completes or fails, until nothing is pending. */
    method Drain(raised: nat -> Handling) returns (trace: seq<Event>)
      requires Valid() && ProperIds(View())
      modifies this
      ensures Valid() && (Conserved(old(history)) ==> Conserved(history))
      ensures Serves(old(View()), trace, raised) && View() == After(old(View()), trace, raised)
      ensures PendingIds(View()) == {}
      ensures history.completed == old(history).completed + HandledIds(trace, raised)
      ensures forall id :: IsPending(old(View()), id) <==> IsServed(trace, id)
      ensures forall n, m | 0 <= n < m < |trace| && raised(n).None? :: trace[m].id != trace[n].id
      ensures forall id | IsPending(old(View()), id) :: id !in rows && (Handled(trace, raised, id) <==> !NewInDead(old(View()), View(), id))
      ensures old(dead) <= dead && forall k | |old(dead)| <= k < |dead| :: DeadAt(old(View()), View(), trace, raised, k)
    {
      hide Conserved, DistinctDead, HandledIds, IsServed, Handled, NewInDead, DeadAt;
      trace := [];
      NoneHandled(raised);
      ghost var q0 := View();
      while true
        invariant Valid() && (Conserved(old(history)) ==> Conserved(history))
        invariant Serves(q0, trace, raised) && View() == After(q0, trace, raised)
        invariant history.completed == old(history).completed + HandledIds(trace, raised)
        decreases Work(View())
      {
        hide DrainInv, Serves, After, Served, ServeOnce, IsNext, PendingIds;
        ghost var before := View();
        ServesKeeps(q0, trace, raised);
        DrainProper(q0, before, trace);
        var n := |trace|;
        var served := ServeNext(raised(n));
        if served.None? {
          DrainFates(q0, trace, raised);
          break;
        }
        NextIsPending(before, served.value.id);
        HandledMore(trace, raised, served.value);
        ServedMeans(before, served.value.id, raised(n), View());
        ServesMore(q0, trace, raised, served.value);
        trace := trace + [served.value];
      }
    }
  }

  lemma FirstIsDead(dead: seq<Dead>, id: EventId)
    requires dead != [] && dead[0].event.id == id
    ensures InDead(dead, id)
  {
  }

  /** Whether the next dead letter's id is taken does not depend on those replayed before. */
  lemma TakenLater(h: History, n: nat)
    requires CanReplay(h, n) && n < |h.q.dead|
    ensures h.q.dead[n].event.id in ReplayedFirst(h, n).q.rows <==> h.q.dead[n].event.id in h.q.rows
    ensures h.q.dead[n].event.id !in h.q.rows ==> CanReplay(h, n + 1)
  {
    hide ReplayedFirst;
  }

  lemma NoneReplayed(h: History)
    requires DistinctDead(h.q.dead)
    ensures CanReplay(h, 0) && ReplayedFirst(h, 0) == h
  {
  }

  lemma OneReplayed(h: History, n: nat, g: History)
    requires CanReplay(h, n + 1)
    requires exists k | 0 <= k < |ReplayedFirst(h, n).q.dead| ::
               ReplayedFirst(h, n).q.dead[k].event.id == h.q.dead[n].event.id &&
               Possible(ReplayedFirst(h, n), Replay(k)) && g == Act(ReplayedFirst(h, n), Replay(k))
    ensures g == ReplayedFirst(h, n + 1)
  {
    var before := ReplayedFirst(h, n);
    var k :| 0 <= k < |before.q.dead| && before.q.dead[k].event.id == h.q.dead[n].event.id &&
             Possible(before, Replay(k)) && g == Act(before, Replay(k));
    assert before.q.dead[k] == h.q.dead[n + k];
    assert k == 0;
  }

  lemma ReplayedAreConserved(h: History, n: nat)
    requires CanReplay(h, n)
    ensures Conserved(h) ==> Conserved(ReplayedFirst(h, n))
  {
    if Conserved(h) {
      ReplayedConserves(h, n);
    }
  }

  function Min(a: nat, b: nat): nat {
    if a < b then a else b
  }
}
