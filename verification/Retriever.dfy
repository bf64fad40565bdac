/** MemGate retrieval: merging the tiers' answers, recency deduplication and packing. */
module Retriever {
  import opened Prelude
  import Text

  type Id = string

  /** A search result. Embeddings are opaque codes: only which of them are near matters. */
  datatype Item = Item(id: Id, embedding: Option<int>, created: int, relevance: real, content: string)

  /** near(a, b) says that the cosine similarity of a and b reaches the conflict threshold. */
  predicate Close(near: (int, int) -> bool, a: Item, b: Item) {
    a.embedding.Some? && b.embedding.Some? && near(a.embedding.value, b.embedding.value)
  }

  predicate PairwiseFar(near: (int, int) -> bool, items: seq<Item>) {
    forall i, j | 0 <= i < j < |items| :: !Close(near, items[i], items[j])
  }

  // --- chains from removed results to kept ones ---

  /** Result b is newer than a, or as new and listed before it. */
  predicate Newer(items: seq<Item>, a: nat, b: nat)
    requires a < |items| && b < |items|
  {
    items[a].created < items[b].created || (items[a].created == items[b].created && b < a)
  }

  /** One link: two results close to each other, the second preferred. */
  predicate Link(near: (int, int) -> bool, items: seq<Item>, a: nat, b: nat) {
    a < |items| && b < |items|
    && (Close(near, items[a], items[b]) || Close(near, items[b], items[a]))
    && Newer(items, a, b)
  }

  predicate Chain(near: (int, int) -> bool, items: seq<Item>, path: seq<nat>) {
    forall k | 0 <= k < |path| - 1 :: Link(near, items, path[k], path[k + 1])
  }

  ghost predicate LinkedTo(near: (int, int) -> bool, items: seq<Item>, a: nat, removed: set<nat>) {
    exists path: seq<nat> :: LinksOut(near, items, a, removed, path)
  }

  /** path leads from a to a result that is not removed. */
  predicate LinksOut(near: (int, int) -> bool, items: seq<Item>, a: nat, removed: set<nat>, path: seq<nat>) {
    |path| > 0 && path[0] == a && path[|path| - 1] < |items| && path[|path| - 1] !in removed && Chain(near, items, path)
  }

  /** Removing x in favour of p keeps every removed result linked to one that remains. */
  lemma LinksSurvive(near: (int, int) -> bool, items: seq<Item>, removed: set<nat>, x: nat, p: nat)
    requires forall r | r in removed :: LinkedTo(near, items, r, removed)
    requires x !in removed && p !in removed && Link(near, items, x, p)
    ensures forall r | r in removed + {x} :: LinkedTo(near, items, r, removed + {x})
  {
    forall r | r in removed + {x} ensures LinkedTo(near, items, r, removed + {x}) {
      if r == x {
        assert LinksOut(near, items, x, removed + {x}, [x, p]);
      } else {
        var path :| LinksOut(near, items, r, removed, path);
        if path[|path| - 1] == x {
          assert LinksOut(near, items, r, removed + {x}, path + [p]);
        } else {
          assert LinksOut(near, items, r, removed + {x}, path);
        }
      }
    }
  }

  lemma {:induction false} ChainGetsNewer(near: (int, int) -> bool, items: seq<Item>, path: seq<nat>)
    requires |path| > 0 && path[0] < |items| && Chain(near, items, path)
    ensures path[|path| - 1] < |items| && (|path| == 1 || Newer(items, path[0], path[|path| - 1]))
    decreases |path|
  {
    if |path| > 1 {
      assert Link(near, items, path[0], path[1]);
      var rest := path[1..];
      assert Chain(near, items, rest) by {
        forall k | 0 <= k < |rest| - 1 ensures Link(near, items, rest[k], rest[k + 1]) {
          assert Link(near, items, path[k + 1], path[k + 2]);
        }
      }
      ChainGetsNewer(near, items, rest);
    }
  }

  // --- keeping the rest in order ---

  /** The positions below n that are not removed, in order. */
  function KeptIndices(n: nat, removed: set<nat>): seq<nat> {
    if n == 0 then [] else KeptIndices(n - 1, removed) + (if n - 1 in removed then [] else [n - 1])
  }

  lemma {:induction false} KeptMeaning(n: nat, removed: set<nat>)
    ensures var ks := KeptIndices(n, removed);
            && (forall k | 0 <= k < |ks| :: ks[k] < n && ks[k] !in removed)
            && (forall a, b | 0 <= a < b < |ks| :: ks[a] < ks[b])
            && (forall i: nat | i < n && i !in removed :: i in ks)
  {
    if n > 0 {
      KeptMeaning(n - 1, removed);
    }
  }

  lemma {:induction false} KeptAll(n: nat)
    ensures |KeptIndices(n, {})| == n && forall k | 0 <= k < n :: KeptIndices(n, {})[k] == k
  {
    if n > 0 {
      KeptAll(n - 1);
    }
  }

  function Kept(items: seq<Item>, removed: set<nat>): (kept: seq<Item>)
    ensures |kept| == |KeptIndices(|items|, removed)|
  {
    KeptMeaning(|items|, removed);
    var ks := KeptIndices(|items|, removed);
    seq(|ks|, k requires 0 <= k < |ks| => items[ks[k]])
  }

  /** What deduplication promises about which positions it removed. */
  ghost predicate Deduplicated(near: (int, int) -> bool, items: seq<Item>, removed: set<nat>) {
    && (forall r | r in removed :: r < |items|)
    && (forall i: nat, j: nat | i < j < |items| && i !in removed && j !in removed :: !Close(near, items[i], items[j]))
    && (forall r | r in removed :: LinkedTo(near, items, r, removed))
  }

  /** kept is items without some positions, removed as deduplication promises. */
  ghost predicate IsDedup(near: (int, int) -> bool, items: seq<Item>, kept: seq<Item>) {
    exists removed: set<nat> :: Deduplicated(near, items, removed) && kept == Kept(items, removed)
  }

  ghost predicate AllLinked(near: (int, int) -> bool, items: seq<Item>, removed: set<nat>) {
    forall r | r in removed :: r < |items| && LinkedTo(near, items, r, removed)
  }

  /** Among what is not removed, the results before position i are far from all later ones. */
  predicate FarUpTo(near: (int, int) -> bool, items: seq<Item>, removed: set<nat>, i: nat) {
    forall a: nat, b: nat | a < i && a < b < |items| && a !in removed && b !in removed :: !Close(near, items[a], items[b])
  }

  /** Compares one result with all later ones; stops when it is itself removed. */
  method CompareWithLater(near: (int, int) -> bool, items: seq<Item>, i: nat, before: set<nat>) returns (toRemove: set<nat>)
    requires i < |items| && i !in before && AllLinked(near, items, before) && FarUpTo(near, items, before, i)
    ensures before <= toRemove && AllLinked(near, items, toRemove) && FarUpTo(near, items, toRemove, i + 1)
    ensures PairwiseFar(near, items) ==> toRemove == before
  {
    hide LinkedTo, Link;
    toRemove := before;
    var j := i + 1;
    while j < |items|
      invariant i < j <= |items| && i !in toRemove && before <= toRemove
      invariant AllLinked(near, items, toRemove)
      invariant forall b: nat | i < b < j && b !in toRemove :: !Close(near, items[i], items[b])
      invariant PairwiseFar(near, items) ==> toRemove == before
    {
      if j !in toRemove && Close(near, items[i], items[j]) {
        if items[i].created >= items[j].created {
          CloseLinks(near, items, j, i);
          LinksSurvive(near, items, toRemove, j, i);
          toRemove := toRemove + {j};
        } else {
          CloseLinks(near, items, i, j);
          LinksSurvive(near, items, toRemove, i, j);
          toRemove := toRemove + {i};
          break;
        }
      }
      j := j + 1;
    }
  }

  lemma CloseLinks(near: (int, int) -> bool, items: seq<Item>, a: nat, b: nat)
    requires a < |items| && b < |items| && Newer(items, a, b)
    requires Close(near, items[a], items[b]) || Close(near, items[b], items[a])
    ensures Link(near, items, a, b)
  {
  }

  lemma KeptNone(near: (int, int) -> bool, items: seq<Item>)
    ensures Kept(items, {}) == items
    ensures PairwiseFar(near, items) ==> IsDedup(near, items, items)
  {
    KeptAll(|items|);
    if PairwiseFar(near, items) {
      assert Deduplicated(near, items, {});
    }
  }

  /** When two results are close, only the newer one is kept. */
  method Dedup(near: (int, int) -> bool, items: seq<Item>) returns (kept: seq<Item>)
    ensures IsDedup(near, items, kept)
    ensures PairwiseFar(near, items) ==> kept == items
  {
    hide LinkedTo, Kept, Close;
    KeptNone(near, items);
    if |items| <= 1 {
      return items;
    }
    var toRemove: set<nat> := {};
    var i := 0;
    while i < |items|
      invariant 0 <= i <= |items| && AllLinked(near, items, toRemove) && FarUpTo(near, items, toRemove, i)
      invariant PairwiseFar(near, items) ==> toRemove == {}
    {
      if i !in toRemove {
        toRemove := CompareWithLater(near, items, i, toRemove);
      }
      i := i + 1;
    }
    assert Deduplicated(near, items, toRemove);
    kept := Kept(items, toRemove);
  }

  /** No two kept results are close, so a second pass changes nothing. */
  lemma DedupIsFar(near: (int, int) -> bool, items: seq<Item>, kept: seq<Item>)
    requires IsDedup(near, items, kept)
    ensures PairwiseFar(near, kept)
  {
    var removed :| Deduplicated(near, items, removed) && kept == Kept(items, removed);
    KeptMeaning(|items|, removed);
  }

  /** Every removed result is represented by a preferred one that is kept. */
  lemma RemovedIsRepresented(near: (int, int) -> bool, items: seq<Item>, removed: set<nat>, r: nat) returns (e: nat)
    requires Deduplicated(near, items, removed) && r in removed
    ensures e < |items| && e !in removed && items[e] in Kept(items, removed) && r < |items| && Newer(items, r, e) && !Newer(items, e, r)
  {
    var path :| LinksOut(near, items, r, removed, path);
    ChainGetsNewer(near, items, path);
    e := path[|path| - 1];
    PositionKept(items, removed, e);
  }

  lemma PositionKept(items: seq<Item>, removed: set<nat>, e: nat)
    requires e < |items| && e !in removed
    ensures items[e] in Kept(items, removed)
  {
    KeptMeaning(|items|, removed);
    var ks := KeptIndices(|items|, removed);
    var k :| 0 <= k < |ks| && ks[k] == e;
    assert Kept(items, removed)[k] == items[e];
  }

  /** The first of the newest results is never removed. */
  lemma NewestSurvives(near: (int, int) -> bool, items: seq<Item>, kept: seq<Item>, u: nat)
    requires IsDedup(near, items, kept) && u < |items|
    requires forall k: nat | k < |items| && k != u :: Newer(items, k, u)
    ensures items[u] in kept
  {
    var removed :| Deduplicated(near, items, removed) && kept == Kept(items, removed);
    if u in removed {
      var e := RemovedIsRepresented(near, items, removed, u);
      assert false;
    }
    PositionKept(items, removed, u);
  }

  // --- searching ---

  predicate DistinctIds(items: seq<Item>) {
    forall i, j | 0 <= i < j < |items| :: items[i].id != items[j].id
  }

  predicate SortedDesc(items: seq<Item>) {
    forall i, j | 0 <= i < j < |items| :: items[i].relevance >= items[j].relevance
  }

  function Ids(items: seq<Item>): set<Id> {
    set r | r in items :: r.id
  }

  /** How many of the leading results are at least as relevant as x. */
  function Slot(sorted: seq<Item>, x: Item): (k: nat)
    ensures k <= |sorted| && forall j | 0 <= j < k :: sorted[j].relevance >= x.relevance
    ensures k < |sorted| ==> sorted[k].relevance < x.relevance
  {
    if sorted == [] || sorted[0].relevance < x.relevance then 0 else 1 + Slot(sorted[1..], x)
  }

  /** x goes after everything at least as relevant. */
  function Place(sorted: seq<Item>, x: Item): seq<Item> {
    sorted[..Slot(sorted, x)] + [x] + sorted[Slot(sorted, x)..]
  }

  /** The stable sort by relevance, most relevant first. */
  function ByRelevance(items: seq<Item>): seq<Item> {
    if items == [] then [] else Place(ByRelevance(items[..|items| - 1]), items[|items| - 1])
  }

  lemma PlaceMembers(sorted: seq<Item>, x: Item)
    ensures forall r :: r in Place(sorted, x) <==> r == x || r in sorted
  {
    var k := Slot(sorted, x);
    var front, back := sorted[..k], sorted[k..];
    assert sorted == front + back;
    assert forall r :: r in sorted <==> r in front || r in back;
  }

  lemma PlaceSorted(sorted: seq<Item>, x: Item)
    requires SortedDesc(sorted)
    ensures SortedDesc(Place(sorted, x))
  {
    var k, placed := Slot(sorted, x), Place(sorted, x);
    forall i, j | 0 <= i < j < |placed| ensures placed[i].relevance >= placed[j].relevance {
      if j < k {
        assert placed[i] == sorted[i] && placed[j] == sorted[j];
      } else if i == k {
        assert placed[i] == x && placed[j] == sorted[j - 1];
      } else if j == k {
        assert placed[i] == sorted[i] && placed[j] == x;
      } else {
        assert placed[j] == sorted[j - 1] && placed[i] == sorted[if i < k then i else i - 1];
      }
    }
  }

  lemma PlaceDistinct(sorted: seq<Item>, x: Item)
    requires DistinctIds(sorted) && forall r | r in sorted :: r.id != x.id
    ensures DistinctIds(Place(sorted, x))
  {
    var k := Slot(sorted, x);
    forall j | 0 <= j < |sorted| ensures sorted[j].id != x.id {
      assert sorted[j] in sorted;
    }
  }

  lemma {:induction false} ByRelevanceSorts(items: seq<Item>)
    ensures SortedDesc(ByRelevance(items))
    ensures forall r :: r in ByRelevance(items) <==> r in items
    ensures DistinctIds(items) ==> DistinctIds(ByRelevance(items))
  {
    if items != [] {
      var n := |items| - 1;
      ByRelevanceSorts(items[..n]);
      PlaceMembers(ByRelevance(items[..n]), items[n]);
      PlaceSorted(ByRelevance(items[..n]), items[n]);
      assert items == items[..n] + [items[n]];
      if DistinctIds(items) {
        forall r | r in items[..n] ensures r.id != items[n].id {
          var j :| 0 <= j < n && items[j] == r;
        }
        PlaceDistinct(ByRelevance(items[..n]), items[n]);
      }
    }
  }

  /** Order, distinct ids and membership survive deduplication. */
  lemma KeptKeeps(near: (int, int) -> bool, items: seq<Item>, kept: seq<Item>)
    requires IsDedup(near, items, kept)
    ensures SortedDesc(items) ==> SortedDesc(kept)
    ensures DistinctIds(items) ==> DistinctIds(kept)
    ensures forall r | r in kept :: r in items
  {
    var removed :| Deduplicated(near, items, removed) && kept == Kept(items, removed);
    hide Deduplicated, LinkedTo;
    KeptMeaning(|items|, removed);
  }

  /** An answer's results added to those found before, each id only once; with a limit,
      up to the first addition that reaches it. */
  function Added(results: seq<Item>, answer: seq<Item>, limit: Option<nat>): seq<Item>
    decreases |answer|
  {
    if answer == [] then results
    else if answer[0].id in Ids(results) then Added(results, answer[1..], limit)
    else
      var more := results + [answer[0]];
      if limit.Some? && |more| >= limit.value then more else Added(more, answer[1..], limit)
  }

  /** The tiers' answers, in order, as one list. */
  function MergedTiers(tiers: seq<seq<Item>>): seq<Item> {
    if tiers == [] then [] else Added(MergedTiers(tiers[..|tiers| - 1]), tiers[|tiers| - 1], None)
  }

  /** The tiers' list, filled up from the global answer when it is shorter than topK. */
  function Collected(tiers: seq<seq<Item>>, global: nat -> seq<Item>, topK: nat): seq<Item> {
    var merged := MergedTiers(tiers);
    if |merged| < topK then Added(merged, global(topK + |merged|), Some(topK * 2)) else merged
  }

  lemma {:induction false} AddedMeaning(results: seq<Item>, answer: seq<Item>, limit: Option<nat>)
    requires DistinctIds(results)
    ensures DistinctIds(Added(results, answer, limit)) && results <= Added(results, answer, limit)
    ensures forall r | r in Added(results, answer, limit) :: r in results || r in answer
    ensures limit.None? ==> forall r | r in answer :: r.id in Ids(Added(results, answer, limit))
    decreases |answer|
  {
    if answer != [] {
      var r := answer[0];
      if r.id in Ids(results) {
        AddedMeaning(results, answer[1..], limit);
        IdsGrow(results, Added(results, answer[1..], limit));
      } else {
        var more := results + [r];
        forall j | 0 <= j < |results| ensures results[j].id != r.id {
          assert results[j] in results;
        }
        assert more[|results|] == r && r.id in Ids(more);
        AddedMeaning(more, answer[1..], limit);
        IdsGrow(more, Added(more, answer[1..], limit));
      }
    }
  }

  lemma IdsGrow(a: seq<Item>, b: seq<Item>)
    requires a <= b
    ensures Ids(a) <= Ids(b)
  {
    assert forall r | r in a :: r in b;
  }

  /** Merging loses no answer of the tiers: every id is found, and found once. */
  lemma {:induction false} MergedMeaning(tiers: seq<seq<Item>>)
    ensures DistinctIds(MergedTiers(tiers))
    ensures forall k, r | 0 <= k < |tiers| && r in tiers[k] :: r.id in Ids(MergedTiers(tiers))
    ensures forall r | r in MergedTiers(tiers) :: exists k | 0 <= k < |tiers| :: r in tiers[k]
  {
    if tiers != [] {
      var n := |tiers| - 1;
      MergedMeaning(tiers[..n]);
      AddedMeaning(MergedTiers(tiers[..n]), tiers[n], None);
      IdsGrow(MergedTiers(tiers[..n]), MergedTiers(tiers));
      forall k, r | 0 <= k < |tiers| && r in tiers[k] ensures r.id in Ids(MergedTiers(tiers)) {
        if k < n {
          assert tiers[..n][k] == tiers[k];
        }
      }
      forall r | r in MergedTiers(tiers) ensures exists k | 0 <= k < |tiers| :: r in tiers[k] {
        if r in MergedTiers(tiers[..n]) {
          var k :| 0 <= k < n && r in tiers[..n][k];
          assert r in tiers[k];
        } else {
          assert r in tiers[n];
        }
      }
    }
  }

  /** Adds the results of one answer that have not been seen. */
  method AddUnseen(results: seq<Item>, seen: set<Id>, answer: seq<Item>, limit: Option<nat>) returns (merged: seq<Item>, all: set<Id>)
    requires seen == Ids(results)
    ensures merged == Added(results, answer, limit) && all == Ids(merged)
  {
    merged, all := results, seen;
    var i := 0;
    assert answer[0..] == answer;
    while i < |answer|
      invariant 0 <= i <= |answer| && all == Ids(merged)
      invariant Added(results, answer, limit) == Added(merged, answer[i..], limit)
    {
      var r := answer[i];
      assert answer[i..][0] == r && answer[i..][1..] == answer[i + 1..];
      i := i + 1;
      if r.id !in all {
        assert Ids(merged + [r]) == all + {r.id} by {
          assert forall x :: x in merged + [r] <==> x in merged || x == r;
        }
        all, merged := all + {r.id}, merged + [r];
        if limit.Some? && |merged| >= limit.value {
          return;
        }
      }
    }
  }

  // --- the tier of several entities ---

  /** The entities' answers as one list. */
  function Listed(answers: seq<seq<Item>>): seq<Item> {
    if answers == [] then [] else Listed(answers[..|answers| - 1]) + answers[|answers| - 1]
  }

  /** The ids found for every entity. */
  function CommonIds(answers: seq<seq<Item>>): set<Id>
    requires answers != []
  {
    var last := Ids(answers[|answers| - 1]);
    if |answers| == 1 then last else CommonIds(answers[..|answers| - 1]) * last
  }

  lemma {:induction false} CommonIdsMeaning(answers: seq<seq<Item>>)
    requires answers != []
    ensures forall id :: id in CommonIds(answers) <==> forall k | 0 <= k < |answers| :: id in Ids(answers[k])
  {
    var n := |answers| - 1;
    if n > 0 {
      CommonIdsMeaning(answers[..n]);
      assert forall k | 0 <= k < n :: answers[..n][k] == answers[k];
      hide Ids;
    }
  }

  function LastWith(items: seq<Item>, id: Id): Option<Item> {
    if items == [] then None
    else if items[|items| - 1].id == id then Some(items[|items| - 1])
    else LastWith(items[..|items| - 1], id)
  }

  lemma LastWithNext(items: seq<Item>, r: Item, id: Id)
    ensures LastWith(items + [r], id) == if r.id == id then Some(r) else LastWith(items, id)
    ensures Ids(items + [r]) == Ids(items) + {r.id}
  {
    assert (items + [r])[..|items|] == items;
    assert forall x :: x in items + [r] <==> x in items || x == r;
  }

  /** The first k results are exactly those found for every entity. */
  predicate CommonFirst(results: seq<Item>, common: set<Id>, k: nat) {
    k <= |results| && forall j | 0 <= j < |results| :: results[j].id in common <==> j < k
  }

  /** Every id found for some entity, once, with the result listed last for it. */
  predicate EachOnce(results: seq<Item>, listed: seq<Item>) {
    DistinctIds(results) && Ids(results) == Ids(listed) &&
    forall r | r in results :: LastWith(listed, r.id) == Some(r)
  }

  /** For each id listed its last result, and the ids in the order first seen. */
  ghost predicate IsIndex(byId: map<Id, Item>, order: seq<Id>, listed: seq<Item>) {
    && byId.Keys == Ids(listed) && (forall id | id in byId :: LastWith(listed, id) == Some(byId[id]))
    && (forall id :: id in order <==> id in byId) && (forall a, b | 0 <= a < b < |order| :: order[a] != order[b])
  }

  lemma IndexNext(byId: map<Id, Item>, order: seq<Id>, listed: seq<Item>, r: Item)
    requires IsIndex(byId, order, listed)
    ensures IsIndex(byId[r.id := r], if r.id in byId then order else order + [r.id], listed + [r])
  {
    LastWithNext(listed, r, r.id);
    forall id | id in byId[r.id := r] ensures LastWith(listed + [r], id) == Some(byId[r.id := r][id]) {
      LastWithNext(listed, r, id);
    }
    hide LastWith;
  }

  /** Indexes one answer after those listed before. */
  method IndexAnswer(before: map<Id, Item>, seen: seq<Id>, answer: seq<Item>, ghost listed: seq<Item>)
    returns (byId: map<Id, Item>, order: seq<Id>, ids: set<Id>)
    requires IsIndex(before, seen, listed)
    ensures IsIndex(byId, order, listed + answer) && ids == Ids(answer)
  {
    hide IsIndex, LastWith;
    byId, order, ids := before, seen, {};
    var j := 0;
    assert listed + answer[..0] == listed;
    while j < |answer|
      invariant 0 <= j <= |answer| && ids == Ids(answer[..j]) && IsIndex(byId, order, listed + answer[..j])
    {
      var r := answer[j];
      assert answer[..j + 1] == answer[..j] + [r] && listed + answer[..j + 1] == listed + answer[..j] + [r];
      LastWithNext(answer[..j], r, r.id);
      IndexNext(byId, order, listed + answer[..j], r);
      if r.id !in byId {
        order := order + [r.id];
      }
      byId, ids := byId[r.id := r], ids + {r.id};
      j := j + 1;
    }
    assert answer[..j] == answer;
  }

  /** Indexes all answers, and finds the ids common to them. */
  method Indexed(answers: seq<seq<Item>>) returns (byId: map<Id, Item>, order: seq<Id>, common: set<Id>)
    requires answers != []
    ensures IsIndex(byId, order, Listed(answers)) && common == CommonIds(answers)
  {
    byId, order, common := map[], [], {};
    var i := 0;
    while i < |answers|
      invariant 0 <= i <= |answers| && (i > 0 ==> common == CommonIds(answers[..i]))
      invariant IsIndex(byId, order, Listed(answers[..i]))
    {
      hide IsIndex, Ids;
      var ids: set<Id>;
      byId, order, ids := IndexAnswer(byId, order, answers[i], Listed(answers[..i]));
      assert answers[..i + 1][..i] == answers[..i];
      common := if i == 0 then ids else common * ids;
      i := i + 1;
    }
    assert answers[..i] == answers;
  }

  /** Two or more entities: first what was found for all of them, in any order, then the
      rest in the order first seen. */
  method EntityTier(answers: seq<seq<Item>>) returns (results: seq<Item>)
    requires |answers| >= 2
    ensures EachOnce(results, Listed(answers))
    ensures exists k :: CommonFirst(results, CommonIds(answers), k)
  {
    var byId, order, common := Indexed(answers);
    CommonListed(answers);
    ghost var listed := Listed(answers);
    hide Listed, CommonIds, LastWith;
    results := [];
    var left := common;
    while left != {}
      invariant left <= common && Ids(results) == common - left && DistinctIds(results)
      invariant forall r | r in results :: r.id in byId && r == byId[r.id]
      decreases left
    {
      var id :| id in left;
      NewResult(results, byId[id], id);
      results, left := results + [byId[id]], left - {id};
    }
    ghost var k := |results|;
    assert forall j | 0 <= j < |results| :: results[j] in results && results[j].id in Ids(results);
    results := AddOthers(results, byId, order, common, k);
    assert EachOnce(results, listed) by {
      assert forall r | r in results :: LastWith(listed, r.id) == Some(r);
    }
  }

  /** Adds what is indexed and not yet there, in order. */
  method AddOthers(first: seq<Item>, byId: map<Id, Item>, order: seq<Id>, common: set<Id>, ghost k: nat) returns (results: seq<Item>)
    requires DistinctIds(first) && Ids(first) == common <= byId.Keys && CommonFirst(first, common, k)
    requires (forall r | r in first :: r.id in byId && r == byId[r.id]) && (forall id :: id in order <==> id in byId)
    requires forall id | id in byId :: byId[id].id == id
    ensures DistinctIds(results) && Ids(results) == byId.Keys && CommonFirst(results, common, k)
    ensures forall r | r in results :: r.id in byId && r == byId[r.id]
  {
    results := first;
    var i := 0;
    while i < |order|
      invariant 0 <= i <= |order| && DistinctIds(results) && CommonFirst(results, common, k)
      invariant Ids(results) == common + set a | 0 <= a < i :: order[a]
      invariant forall r | r in results :: r.id in byId && r == byId[r.id]
    {
      var id := order[i];
      if id !in Ids(results) {
        NewResult(results, byId[id], id);
        results := results + [byId[id]];
      }
      i := i + 1;
    }
    assert forall id | id in byId :: id in order;
  }

  lemma NewResult(results: seq<Item>, r: Item, id: Id)
    requires DistinctIds(results) && id !in Ids(results)
    ensures r.id == id ==> DistinctIds(results + [r])
    ensures Ids(results + [r]) == Ids(results) + {r.id}
    ensures forall x :: x in results + [r] <==> x in results || x == r
  {
    forall j | 0 <= j < |results| ensures results[j].id in Ids(results) {
      assert results[j] in results;
    }
  }

  lemma {:induction false} CommonListed(answers: seq<seq<Item>>)
    requires answers != []
    ensures CommonIds(answers) <= Ids(Listed(answers))
    ensures forall id | id in Ids(Listed(answers)) :: LastWith(Listed(answers), id).Some? && LastWith(Listed(answers), id).value.id == id
  {
    var n := |answers| - 1;
    assert forall r | r in answers[n] :: r in Listed(answers);
    forall id | id in Ids(Listed(answers))
      ensures LastWith(Listed(answers), id).Some? && LastWith(Listed(answers), id).value.id == id
    {
      LastFound(Listed(answers), id);
    }
  }

  lemma {:induction false} LastFound(items: seq<Item>, id: Id)
    requires id in Ids(items)
    ensures LastWith(items, id).Some? && LastWith(items, id).value.id == id
  {
    var n := |items| - 1;
    assert items == items[..n] + [items[n]];
    if items[n].id != id {
      LastWithNext(items[..n], items[n], id);
      LastFound(items[..n], id);
    }
  }

  function Boosted(items: seq<Item>, boost: Item -> real): seq<Item> {
    seq(|items|, k requires 0 <= k < |items| => items[k].(relevance := boost(items[k])))
  }

  /** Merges the tiers' answers in order: entity tiers, cluster summaries, topic; the global
      tier fills up when fewer than topK were found. */
  method Merge(tiers: seq<seq<Item>>, global: nat -> seq<Item>, topK: nat) returns (results: seq<Item>)
    ensures results == Collected(tiers, global, topK)
  {
    results := [];
    var seen: set<Id> := {};
    var k := 0;
    while k < |tiers|
      invariant 0 <= k <= |tiers| && results == MergedTiers(tiers[..k]) && seen == Ids(results)
    {
      assert tiers[..k + 1][..k] == tiers[..k];
      results, seen := AddUnseen(results, seen, tiers[k], None);
      k := k + 1;
    }
    assert tiers[..k] == tiers;
    if |results| < topK {
      results, seen := AddUnseen(results, seen, global(topK + |results|), Some(topK * 2));
    }
  }

  /** Sorted by relevance; if the query names a time, boosted and sorted again. */
  function Ranked(merged: seq<Item>, boost: Option<Item -> real>): seq<Item> {
    if boost.Some? then ByRelevance(Boosted(ByRelevance(merged), boost.value)) else ByRelevance(merged)
  }

  lemma RankedMeaning(merged: seq<Item>, boost: Option<Item -> real>)
    ensures SortedDesc(Ranked(merged, boost))
    ensures DistinctIds(merged) ==> DistinctIds(Ranked(merged, boost))
    ensures forall r :: r in Ranked(merged, boost) <==> exists o :: o in merged && r == Weighed(boost, o)
  {
    ByRelevanceSorts(merged);
    var plain := ByRelevance(merged);
    if boost.Some? {
      var boosted := Boosted(plain, boost.value);
      ByRelevanceSorts(boosted);
      forall r ensures r in boosted <==> exists o :: o in merged && r == Weighed(boost, o) {
        if r in boosted {
          var j :| 0 <= j < |boosted| && boosted[j] == r;
          assert plain[j] in plain && r == Weighed(boost, plain[j]);
        }
        if exists o :: o in merged && r == Weighed(boost, o) {
          var o :| o in merged && r == Weighed(boost, o);
          assert o in plain;
          var j :| 0 <= j < |plain| && plain[j] == o;
          assert boosted[j] == r;
        }
      }
    } else {
      forall r ensures r in plain <==> exists o :: o in merged && r == Weighed(boost, o) {
        assert r in merged ==> r == Weighed(boost, r);
      }
    }
  }

  /** The ranked answers, deduplicated and cut to topK. */
  ghost predicate IsSearch(near: (int, int) -> bool, ranked: seq<Item>, topK: nat, found: seq<Item>) {
    exists kept :: IsDedup(near, ranked, kept) && found == (if |kept| <= topK then kept else kept[..topK])
  }

  /** What a search gives of a ranked list without repeated ids: at most topK results, no id
      twice, most relevant first, no two of them close. */
  lemma {:induction false} SearchMeaning(near: (int, int) -> bool, ranked: seq<Item>, topK: nat, found: seq<Item>)
    requires IsSearch(near, ranked, topK, found) && SortedDesc(ranked) && DistinctIds(ranked)
    ensures |found| <= topK && DistinctIds(found) && SortedDesc(found) && PairwiseFar(near, found)
    ensures forall r | r in found :: r in ranked
  {
    hide IsDedup, Close;
    var kept :| IsDedup(near, ranked, kept) && found == (if |kept| <= topK then kept else kept[..topK]);
    KeptKeeps(near, ranked, kept);
    DedupIsFar(near, ranked, kept);
    assert forall r | r in found :: r in kept;
  }

  // --- what is searched ---

  /** The ids some tier answers with. */
  function TierIds(tiers: seq<seq<Item>>): set<Id> {
    set k, r | 0 <= k < |tiers| && r in tiers[k] :: r.id
  }

  lemma {:induction false} DistinctSize(items: seq<Item>)
    requires DistinctIds(items)
    ensures |Ids(items)| == |items|
  {
    if items == [] {
      assert Ids(items) == {};
    } else {
      var n := |items| - 1;
      DistinctSize(items[..n]);
      assert items == items[..n] + [items[n]];
      assert forall r | r in items[..n] :: r.id != items[n].id by {
        forall r | r in items[..n] ensures r.id != items[n].id {
          var j :| 0 <= j < n && items[j] == r;
        }
      }
      assert Ids(items) == Ids(items[..n]) + {items[n].id} by {
        assert forall x :: x in items <==> x in items[..n] || x == items[n];
      }
    }
  }

  /** Filling up to a limit: nothing but what is there and what is answered, and all of the
      answer unless the limit is reached. */
  lemma {:induction false} FilledMeaning(results: seq<Item>, answer: seq<Item>, limit: nat)
    requires DistinctIds(results) && |results| < limit
    ensures var all := Added(results, answer, Some(limit));
            && Ids(results) <= Ids(all) <= Ids(results) + Ids(answer)
            && |all| <= limit && (Ids(answer) <= Ids(all) || |all| == limit)
    decreases |answer|
  {
    if answer != [] {
      var r := answer[0];
      assert Ids(answer) == {r.id} + Ids(answer[1..]) by {
        assert forall x :: x in answer <==> x == r || x in answer[1..];
      }
      if r.id in Ids(results) {
        FilledMeaning(results, answer[1..], limit);
      } else {
        var more := results + [r];
        AppendDistinct(results, r);
        if |more| < limit {
          FilledMeaning(more, answer[1..], limit);
        }
      }
    }
  }

  lemma AppendDistinct(results: seq<Item>, r: Item)
    requires DistinctIds(results) && r.id !in Ids(results)
    ensures DistinctIds(results + [r]) && Ids(results + [r]) == Ids(results) + {r.id}
  {
    forall j | 0 <= j < |results| ensures results[j].id != r.id {
      assert results[j] in results;
    }
    assert forall x :: x in results + [r] <==> x in results || x == r;
  }

  lemma TiersFound(tiers: seq<seq<Item>>)
    ensures Ids(MergedTiers(tiers)) == TierIds(tiers) && DistinctIds(MergedTiers(tiers)) && |MergedTiers(tiers)| == |TierIds(tiers)|
  {
    MergedMeaning(tiers);
    DistinctSize(MergedTiers(tiers));
    forall id ensures id in Ids(MergedTiers(tiers)) <==> id in TierIds(tiers) {
      if id in Ids(MergedTiers(tiers)) {
        var r :| r in MergedTiers(tiers) && r.id == id;
        var k :| 0 <= k < |tiers| && r in tiers[k];
      }
      if id in TierIds(tiers) {
        var k, r :| 0 <= k < |tiers| && r in tiers[k] && r.id == id;
        assert r.id in Ids(MergedTiers(tiers));
      }
    }
  }

  /** The first result with the id. */
  function FirstWith(items: seq<Item>, id: Id): Option<Item> {
    if items == [] then None else if items[0].id == id then Some(items[0]) else FirstWith(items[1..], id)
  }

  lemma {:induction false} FirstConcat(a: seq<Item>, b: seq<Item>, id: Id)
    ensures FirstWith(a + b, id) == if id in Ids(a) then FirstWith(a, id) else FirstWith(b, id)
    ensures FirstWith(a, id).Some? <==> id in Ids(a)
  {
    if a == [] {
      assert a + b == b;
    } else {
      assert (a + b)[1..] == a[1..] + b && forall x :: x in a <==> x == a[0] || x in a[1..];
      FirstConcat(a[1..], b, id);
      assert id in Ids(a) <==> a[0].id == id || id in Ids(a[1..]);
    }
  }

  /** Every result is the first with its id in the list. */
  predicate FirstOnes(results: seq<Item>, listed: seq<Item>) {
    forall r | r in results :: FirstWith(listed, r.id) == Some(r)
  }

  lemma {:induction false} AddedFirst(results: seq<Item>, answer: seq<Item>, limit: Option<nat>, listed: seq<Item>)
    requires FirstOnes(results, listed) && Ids(results) == Ids(listed)
    ensures FirstOnes(Added(results, answer, limit), listed + answer)
    ensures limit.None? ==> Ids(Added(results, answer, limit)) == Ids(listed + answer)
    decreases |answer|
  {
    if answer == [] {
      assert listed + answer == listed;
    } else {
      var r, rest := answer[0], answer[1..];
      assert listed + answer == listed + [r] + rest;
      AddedFirstOne(results, listed, r);
      var more := if r.id in Ids(results) then results else results + [r];
      if r.id in Ids(results) || limit.None? || |more| < limit.value {
        AddedFirst(more, rest, limit, listed + [r]);
      } else {
        FirstStays(more, listed + [r], rest);
      }
    }
  }

  lemma FirstStays(results: seq<Item>, listed: seq<Item>, more: seq<Item>)
    requires FirstOnes(results, listed)
    ensures FirstOnes(results, listed + more)
  {
    forall r | r in results ensures FirstWith(listed + more, r.id) == Some(r) {
      FirstConcat(listed, more, r.id);
    }
  }

  lemma AddedFirstOne(results: seq<Item>, listed: seq<Item>, r: Item)
    requires FirstOnes(results, listed) && Ids(results) == Ids(listed)
    ensures var more := if r.id in Ids(results) then results else results + [r];
            FirstOnes(more, listed + [r]) && Ids(more) == Ids(listed + [r])
  {
    FirstStays(results, listed, [r]);
    FirstConcat(listed, [r], r.id);
    assert FirstWith([r], r.id) == Some(r);
    assert forall x :: x in listed + [r] <==> x in listed || x == r;
    assert Ids(listed + [r]) == Ids(listed) + {r.id};
    assert forall x :: x in results + [r] <==> x in results || x == r;
    assert Ids(results + [r]) == Ids(results) + {r.id};
  }

  lemma {:induction false} MergedFirst(tiers: seq<seq<Item>>)
    ensures FirstOnes(MergedTiers(tiers), Listed(tiers)) && Ids(MergedTiers(tiers)) == Ids(Listed(tiers))
  {
    if tiers != [] {
      MergedFirst(tiers[..|tiers| - 1]);
      AddedFirst(MergedTiers(tiers[..|tiers| - 1]), tiers[|tiers| - 1], None, Listed(tiers[..|tiers| - 1]));
    }
  }

  /** Of several answers with one id the first listed is taken, the global search coming last. */
  lemma CollectedFirst(tiers: seq<seq<Item>>, global: nat -> seq<Item>, topK: nat)
    ensures FirstOnes(Collected(tiers, global, topK), Listed(tiers) + global(topK + |TierIds(tiers)|))
  {
    hide MergedTiers, Added, Ids, FirstWith, Listed, TierIds;
    var merged := MergedTiers(tiers);
    MergedFirst(tiers);
    TiersFound(tiers);
    if |merged| < topK {
      AddedFirst(merged, global(topK + |merged|), Some(topK * 2), Listed(tiers));
    } else {
      FirstStays(merged, Listed(tiers), global(topK + |merged|));
    }
  }

  /** What is searched: everything the tiers answer with and, when that is fewer than topK, what
      the global search gives for topK and as many more as were found, all of it unless twice
      topK are reached. */
  ghost predicate Covers(ids: set<Id>, tiers: seq<seq<Item>>, global: nat -> seq<Item>, topK: nat) {
    var k := |TierIds(tiers)|;
    if k >= topK then ids == TierIds(tiers)
    else
      && TierIds(tiers) <= ids <= TierIds(tiers) + Ids(global(topK + k))
      && |ids| <= 2 * topK && (Ids(global(topK + k)) <= ids || |ids| == 2 * topK)
  }

  lemma CollectedCovers(tiers: seq<seq<Item>>, global: nat -> seq<Item>, topK: nat)
    ensures DistinctIds(Collected(tiers, global, topK)) && Covers(Ids(Collected(tiers, global, topK)), tiers, global, topK)
  {
    hide MergedTiers, Added, Ids, DistinctIds, TierIds;
    var merged, all := MergedTiers(tiers), Collected(tiers, global, topK);
    TiersFound(tiers);
    CollectedDistinct(tiers, global, topK);
    DistinctSize(all);
    if |merged| < topK {
      FilledMeaning(merged, global(topK + |merged|), topK * 2);
    }
  }

  lemma RankedIds(merged: seq<Item>, boost: Option<Item -> real>)
    requires DistinctIds(merged)
    ensures Ids(Ranked(merged, boost)) == Ids(merged) && |Ranked(merged, boost)| == |merged|
  {
    RankedMeaning(merged, boost);
    var ranked := Ranked(merged, boost);
    hide Ranked;
    forall id ensures id in Ids(ranked) <==> id in Ids(merged) {
      if id in Ids(ranked) {
        var r :| r in ranked && r.id == id;
        var o :| o in merged && r == Weighed(boost, o);
      }
      if id in Ids(merged) {
        var o :| o in merged && o.id == id;
        assert Weighed(boost, o) in ranked;
      }
    }
    DistinctSize(ranked);
    DistinctSize(merged);
  }

  /** The ranked answers, deduplicated and cut to topK: at most topK results, no id twice,
      most relevant first, no two of them close, each a (boosted) answer of some tier. The ranked
      answers are all that is searched, and when no two of them are close, none is missing but
      those after the first topK. */
  method Search(near: (int, int) -> bool, tiers: seq<seq<Item>>, global: nat -> seq<Item>, boost: Option<Item -> real>, topK: nat)
    returns (found: seq<Item>, ghost ranked: seq<Item>)
    ensures ranked == Ranked(Collected(tiers, global, topK), boost) && IsSearch(near, ranked, topK, found)
    ensures |found| <= topK && DistinctIds(found) && SortedDesc(found) && PairwiseFar(near, found)
    ensures forall r | r in found :: exists o :: o in Collected(tiers, global, topK) && r == Weighed(boost, o)
    ensures SortedDesc(ranked) && DistinctIds(ranked) && Covers(Ids(ranked), tiers, global, topK)
    ensures PairwiseFar(near, ranked) ==> found == if |ranked| <= topK then ranked else ranked[..topK]
  {
    hide IsDedup, Close, Collected, Boosted, ByRelevance;
    var merged := Merge(tiers, global, topK);
    var results := ByRelevance(merged);
    if boost.Some? {
      results := Boosted(results, boost.value);
      results := ByRelevance(results);
    }
    ranked := results;
    assert ranked == Ranked(merged, boost);
    results := Dedup(near, results);
    assert IsDedup(near, ranked, results);
    found := if |results| <= topK then results else results[..topK];
    hide Ranked, Weighed, Covers, PairwiseFar;
    CollectedCovers(tiers, global, topK);
    RankedMeaning(merged, boost);
    RankedIds(merged, boost);
    SearchMeaning(near, ranked, topK, found);
  }

  lemma CollectedDistinct(tiers: seq<seq<Item>>, global: nat -> seq<Item>, topK: nat)
    ensures DistinctIds(Collected(tiers, global, topK))
  {
    hide MergedTiers, Added, Ids, DistinctIds;
    MergedMeaning(tiers);
    AddedMeaning(MergedTiers(tiers), global(topK + |MergedTiers(tiers)|), Some(topK * 2));
  }

  /** The relevance a temporal boost gives an answer. */
  function Weighed(boost: Option<Item -> real>, o: Item): Item {
    if boost.Some? then o.(relevance := boost.value(o)) else o
  }

  // --- packing ---

  const ELLIPSIS := "..."

  /** The characters the first n contents take up, with a newline after each. */
  function Used(items: seq<Item>, n: nat): nat
    requires n <= |items|
  {
    if n == 0 then 0 else Used(items, n - 1) + |items[n - 1].content| + 1
  }

  /** Content n still fits, with a margin of two, into a budget of characters. */
  predicate Fits(items: seq<Item>, n: nat, budget: int)
    requires n < |items|
  {
    Used(items, n) + |items[n].content| + 2 <= budget
  }

  /** What is packed into a budget: the longest run of contents that fit, one per line, and
      after it, if more than fifty characters are left, the next one cut to what is left. */
  ghost predicate Packed(items: seq<Item>, budget: int, n: nat, cut: bool, context: string) {
    && n <= |items|
    && (forall k | 0 <= k < n :: Fits(items, k, budget))
    && (n < |items| ==> !Fits(items, n, budget))
    && (cut <==> n < |items| && budget - Used(items, n) - 2 > 50)
    && (if cut then
          var remaining := budget - Used(items, n) - 2;
          remaining <= |items[n].content| &&
          context == Text.Join(Contents(items[..n]) + [items[n].content[..remaining] + ELLIPSIS], '\n')
        else context == Text.Join(Contents(items[..n]), '\n'))
  }

  /** Packs contents, newline-separated, into four characters per token. */
  method AssembleContext(items: seq<Item>, maxTokens: int) returns (context: string)
    ensures exists n, cut :: Packed(items, 4 * maxTokens, n, cut, context)
  {
    if items == [] {
      assert Packed(items, 4 * maxTokens, 0, false, "");
      return "";
    }
    var maxChars := maxTokens * 4;
    var parts: seq<string> := [];
    var totalChars := 0;
    var cut := false;
    var i := 0;
    while i < |items|
      invariant 0 <= i <= |items| && parts == Contents(items[..i]) && totalChars == Used(items, i)
      invariant forall k | 0 <= k < i :: Fits(items, k, maxChars)
      invariant !cut
    {
      var content := items[i].content;
      if totalChars + |content| + 2 > maxChars {
        var remaining := maxChars - totalChars - 2;
        if remaining > 50 {
          parts := parts + [content[..remaining] + ELLIPSIS];
          cut := true;
        }
        break;
      }
      assert items[..i + 1][..i] == items[..i];
      parts := parts + [content];
      totalChars := totalChars + |content| + 1;
      i := i + 1;
    }
    context := Text.Join(parts, '\n');
    assert Packed(items, 4 * maxTokens, i, cut, context);
  }

  /** The packed context exceeds the budget by one character exactly when a piece was cut;
      otherwise it is empty or at least two characters short of it. */
  lemma PackedLength(items: seq<Item>, budget: int, n: nat, cut: bool, context: string)
    requires Packed(items, budget, n, cut, context)
    ensures cut ==> |context| == budget + 1
    ensures !cut ==> context == "" || |context| <= budget - 2
  {
    var parts := Contents(items[..n]);
    PartsLength(items, n);
    if cut {
      JoinAppend(parts, items[n].content[..budget - Used(items, n) - 2] + ELLIPSIS);
    } else if n > 0 {
      assert Fits(items, n - 1, budget);
    }
  }

  /** As much as possible is packed: all contents if they fit with a margin of two, and otherwise
      the first content left out would not have fitted. */
  lemma PackedIsLongest(items: seq<Item>, budget: int, n: nat, cut: bool, context: string)
    requires Packed(items, budget, n, cut, context)
    ensures |Text.Join(Contents(items), '\n')| + 2 <= budget ==> context == Text.Join(Contents(items), '\n')
    ensures n < |items| ==> |Text.Join(Contents(items[..n + 1]), '\n')| + 2 > budget
    ensures 0 < n ==> |Text.Join(Contents(items[..n]), '\n')| + 2 <= budget
  {
    hide Text.Join, Contents;
    forall k: nat | k < |items| ensures Fits(items, k, budget) <==> |Text.Join(Contents(items[..k + 1]), '\n')| + 2 <= budget {
      PartsLength(items, k + 1);
    }
    assert items[..|items|] == items;
    assert n > 0 ==> Fits(items, n - 1, budget);
    if n < |items| && |Text.Join(Contents(items), '\n')| + 2 <= budget {
      LongerJoin(items, n + 1);
    }
  }

  lemma {:induction false} LongerJoin(items: seq<Item>, n: nat)
    requires n <= |items|
    ensures |Text.Join(Contents(items[..n]), '\n')| <= |Text.Join(Contents(items), '\n')|
    decreases |items| - n
  {
    if n == |items| {
      assert items[..n] == items;
    } else {
      LongerJoin(items, n + 1);
      PartsLength(items, n);
      PartsLength(items, n + 1);
      assert Used(items, n + 1) == Used(items, n) + |items[n].content| + 1;
      assert n == 0 ==> Contents(items[..n]) == [] && Text.Join([], '\n') == "";
    }
  }

  lemma {:induction false} PartsLength(items: seq<Item>, n: nat)
    requires n <= |items|
    ensures |Contents(items[..n])| == n
    ensures Used(items, n) == if n == 0 then 0 else |Text.Join(Contents(items[..n]), '\n')| + 1
  {
    if n > 0 {
      PartsLength(items, n - 1);
      assert items[..n][..n - 1] == items[..n - 1];
      JoinAppend(Contents(items[..n - 1]), items[n - 1].content);
    }
  }

  function Contents(items: seq<Item>): seq<string> {
    if items == [] then [] else Contents(items[..|items| - 1]) + [items[|items| - 1].content]
  }

  lemma {:induction false} JoinAppend(parts: seq<string>, last: string)
    ensures |Text.Join(parts + [last], '\n')| == (if parts == [] then |last| else |Text.Join(parts, '\n')| + 1 + |last|)
  {
    if parts == [] {
      assert parts + [last] == [last];
    } else {
      assert (parts + [last])[1..] == parts[1..] + [last];
      JoinAppend(parts[1..], last);
    }
  }
}
