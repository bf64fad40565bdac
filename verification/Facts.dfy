/** Versioned facts: storing a fact supersedes older ones about the same attribute. */
module Facts {
  import opened Prelude
  import Text

  /** A fact's id is its position in the order facts were stored. */
  datatype Fact = Fact(entity: string, attribute: string, value: string, supersededBy: Option<nat>)

  /** One entity of a structured payload. */
  datatype Entity = Entity(name: string, attribute: string, value: string, previous: string)

  predicate Active(f: Fact) {
    f.supersededBy.None?
  }

  predicate About(f: Fact, entity: string, attribute: string) {
    f.entity == entity && f.attribute == attribute
  }

  /** Which stored facts a new one replaces: with plain extraction the active ones with a
      different value, with a structured payload all active ones if a previous value is given. */
  datatype Rule = DifferentValue | Always | Never

  predicate Replaces(rule: Rule, f: Fact, entity: string, attribute: string, value: string) {
    Active(f) && About(f, entity, attribute) && (rule == Always || (rule == DifferentValue && f.value != value))
  }

  /** The table after one fact was stored. */
  function Stored(facts: seq<Fact>, entity: string, attribute: string, value: string, rule: Rule): seq<Fact> {
    var n := |facts|;
    seq(n + 1, i requires 0 <= i < n + 1 =>
      if i == n then Fact(entity, attribute, value, None)
      else if Replaces(rule, facts[i], entity, attribute, value) then facts[i].(supersededBy := Some(n))
      else facts[i])
  }

  // --- version chains ---

  /** A superseding fact is stored later and is about the same attribute of the same entity. */
  predicate Versioned(facts: seq<Fact>) {
    forall i | 0 <= i < |facts| && facts[i].supersededBy.Some? ::
      i < facts[i].supersededBy.value < |facts| &&
      About(facts[facts[i].supersededBy.value], facts[i].entity, facts[i].attribute)
  }

  lemma StoringKeepsVersions(facts: seq<Fact>, entity: string, attribute: string, value: string, rule: Rule)
    requires Versioned(facts)
    ensures Versioned(Stored(facts, entity, attribute, value, rule))
  {
  }

  /** Following supersession from any fact ends at an active fact about the same thing. */
  function Latest(facts: seq<Fact>, i: nat): (k: nat)
    requires Versioned(facts) && i < |facts|
    ensures i <= k < |facts| && Active(facts[k]) && About(facts[k], facts[i].entity, facts[i].attribute)
    decreases |facts| - i
  {
    if facts[i].supersededBy.None? then i else Latest(facts, facts[i].supersededBy.value)
  }

  // --- one value per key ---

  /** The value most recently stored for a key. */
  function Newest(facts: seq<Fact>, entity: string, attribute: string): Option<string> {
    if facts == [] then None
    else if About(facts[|facts| - 1], entity, attribute) then Some(facts[|facts| - 1].value)
    else Newest(facts[..|facts| - 1], entity, attribute)
  }

  /** All active facts of the key carry its most recent value. */
  predicate Agree(facts: seq<Fact>, entity: string, attribute: string) {
    forall i | 0 <= i < |facts| && Active(facts[i]) && About(facts[i], entity, attribute) ::
      Newest(facts, entity, attribute) == Some(facts[i].value)
  }

  lemma {:induction false} NewestIgnoresMarks(facts: seq<Fact>, others: seq<Fact>, entity: string, attribute: string)
    requires |facts| == |others|
    requires forall i | 0 <= i < |facts| ::
      facts[i].entity == others[i].entity && facts[i].attribute == others[i].attribute && facts[i].value == others[i].value
    ensures Newest(facts, entity, attribute) == Newest(others, entity, attribute)
    decreases |facts|
  {
    if facts != [] {
      NewestIgnoresMarks(facts[..|facts| - 1], others[..|others| - 1], entity, attribute);
    }
  }

  lemma NewestAfterStoring(facts: seq<Fact>, e: string, a: string, v: string, rule: Rule, entity: string, attribute: string)
    ensures Newest(Stored(facts, e, a, v, rule), entity, attribute) ==
            if e == entity && a == attribute then Some(v) else Newest(facts, entity, attribute)
  {
    NewestIgnoresMarks(Stored(facts, e, a, v, rule)[..|facts|], facts, entity, attribute);
  }

  /** Exactly when storing keeps a key uniform: other keys are never affected; for the stored
      key, when replacement is unconditional or looks at the value, always; without
      replacement, exactly when no active fact of the key has another value. */
  lemma AgreeAfterStoring(facts: seq<Fact>, e: string, a: string, v: string, rule: Rule, entity: string, attribute: string)
    ensures Agree(Stored(facts, e, a, v, rule), entity, attribute) <==>
              if e != entity || a != attribute then Agree(facts, entity, attribute)
              else rule != Never || forall i | 0 <= i < |facts| && Active(facts[i]) && About(facts[i], e, a) :: facts[i].value == v
  {
    var after := Stored(facts, e, a, v, rule);
    NewestAfterStoring(facts, e, a, v, rule, entity, attribute);
    if e != entity || a != attribute {
      assert forall i | 0 <= i < |facts| && About(facts[i], entity, attribute) :: after[i] == facts[i];
    } else if rule == Never {
      assert forall i | 0 <= i < |facts| :: after[i] == facts[i];
    }
  }

  // --- ingestion ---

  /** The table after a list of extracted (entity, attribute, value) facts. */
  function Ingested(facts: seq<Fact>, extracted: seq<(string, string, string)>): seq<Fact> {
    if extracted == [] then facts
    else
      var last := extracted[|extracted| - 1];
      Stored(Ingested(facts, extracted[..|extracted| - 1]), last.0, last.1, last.2, DifferentValue)
  }

  /** How a structured entity is stored; None when a required part is blank. */
  function Cleaned(ent: Entity): Option<(string, string, string, Rule)> {
    var name, attr, value := Text.Strip(Text.Lower(ent.name)), Text.Strip(ent.attribute), Text.Strip(ent.value);
    if name == "" || attr == "" || value == "" then None
    else Some((name, attr, value, if Text.Strip(ent.previous) != "" then Always else Never))
  }

  function IngestedStructured(facts: seq<Fact>, entities: seq<Entity>): seq<Fact> {
    if entities == [] then facts
    else
      var before := IngestedStructured(facts, entities[..|entities| - 1]);
      match Cleaned(entities[|entities| - 1])
      case None => before
      case Some((name, attr, value, rule)) => Stored(before, name, attr, value, rule)
  }

  datatype Ingestion = FromText(extracted: seq<(string, string, string)>) | Structured(entities: seq<Entity>)

  function IngestAll(facts: seq<Fact>, work: seq<Ingestion>): seq<Fact> {
    if work == [] then facts
    else
      var before := IngestAll(facts, work[..|work| - 1]);
      match work[|work| - 1]
      case FromText(extracted) => Ingested(before, extracted)
      case Structured(entities) => IngestedStructured(before, entities)
  }

  /** One more extracted fact, said of the tables: it is appended, active; exactly the active
      facts about the same thing with another value are superseded by it; the rest stays. */
  lemma PlainSupersedes(facts: seq<Fact>, extracted: seq<(string, string, string)>, e: string, a: string, v: string)
    ensures var before, after := Ingested(facts, extracted), Ingested(facts, extracted + [(e, a, v)]);
            var n := |before|;
            && |after| == n + 1 && after[n] == Fact(e, a, v, None)
            && forall i | 0 <= i < n ::
                 var f := before[i];
                 after[i] == if f.supersededBy == None && f.entity == e && f.attribute == a && f.value != v then f.(supersededBy := Some(n)) else f
  {
    assert (extracted + [(e, a, v)])[..|extracted|] == extracted;
  }

  /** One more entity of a payload: with a blank name, attribute or value nothing happens;
      otherwise its fact is appended under the lower-case name, and exactly if a previous value is
      given every active fact about the same thing is superseded by it, whatever its value. */
  lemma StructuredSupersedes(facts: seq<Fact>, entities: seq<Entity>, ent: Entity)
    ensures var before, after := IngestedStructured(facts, entities), IngestedStructured(facts, entities + [ent]);
            var e, a, v := Text.Strip(Text.Lower(ent.name)), Text.Strip(ent.attribute), Text.Strip(ent.value);
            var n := |before|;
            if |e| == 0 || |a| == 0 || |v| == 0 then after == before
            else
              && |after| == n + 1 && after[n] == Fact(e, a, v, None)
              && forall i | 0 <= i < n ::
                   var f := before[i];
                   after[i] == if |Text.Strip(ent.previous)| > 0 && f.supersededBy == None && f.entity == e && f.attribute == a
                               then f.(supersededBy := Some(n)) else f
  {
    assert (entities + [ent])[..|entities|] == entities;
    hide Text.Strip, Text.Lower;
  }

  lemma {:induction false} IngestedVersioned(facts: seq<Fact>, extracted: seq<(string, string, string)>)
    requires Versioned(facts)
    ensures Versioned(Ingested(facts, extracted))
  {
    if extracted != [] {
      var last := extracted[|extracted| - 1];
      IngestedVersioned(facts, extracted[..|extracted| - 1]);
      StoringKeepsVersions(Ingested(facts, extracted[..|extracted| - 1]), last.0, last.1, last.2, DifferentValue);
    }
  }

  lemma {:induction false} StructuredVersioned(facts: seq<Fact>, entities: seq<Entity>)
    requires Versioned(facts)
    ensures Versioned(IngestedStructured(facts, entities))
  {
    if entities != [] {
      StructuredVersioned(facts, entities[..|entities| - 1]);
      var c := Cleaned(entities[|entities| - 1]);
      if c.Some? {
        StoringKeepsVersions(IngestedStructured(facts, entities[..|entities| - 1]), c.value.0, c.value.1, c.value.2, c.value.3);
      }
    }
  }

  /** Over any mix of ingestions every supersession points to a later fact about the same
      thing, so every version chain ends at an active fact. */
  lemma {:induction false} AlwaysVersioned(work: seq<Ingestion>)
    ensures Versioned(IngestAll([], work))
  {
    if work != [] {
      AlwaysVersioned(work[..|work| - 1]);
      var before := IngestAll([], work[..|work| - 1]);
      match work[|work| - 1]
      case FromText(extracted) => IngestedVersioned(before, extracted);
      case Structured(entities) => StructuredVersioned(before, entities);
    }
  }

  const FIRST := Entity("ann", "age", "one", "")
  const SECOND := Entity("ann", "age", "two", "")

  /** Two structured entities that disagree and name no previous value: both stay active. */
  lemma StructuredDisagrees()
    ensures !Agree(IngestedStructured([], [FIRST, SECOND]), "ann", "age")
  {
    Text.StripFixes("ann");
    Text.StripFixes("age");
    Text.StripFixes("one");
    Text.StripFixes("two");
    Text.StripFixes("");
    assert Text.Lower("ann") == "ann";
    hide Text.Strip, Text.Lower;
    assert [FIRST, SECOND][..1] == [FIRST] && [FIRST][..0] == [];
    assert IngestedStructured([], []) == [];
    var one := IngestedStructured([], [FIRST]);
    var both := IngestedStructured([], [FIRST, SECOND]);
    assert one == Stored([], "ann", "age", "one", Never);
    assert both == Stored(one, "ann", "age", "two", Never);
    assert Active(one[0]) && About(one[0], "ann", "age") && one[0].value != "two";
    AgreeAfterStoring(one, "ann", "age", "two", Never, "ann", "age");
  }

  /** With plain extraction alone every key has one current value: the last one extracted. */
  lemma {:induction false} PlainIngestionAgrees(facts: seq<Fact>, extracted: seq<(string, string, string)>, entity: string, attribute: string)
    requires Agree(facts, entity, attribute)
    ensures Agree(Ingested(facts, extracted), entity, attribute)
  {
    if extracted != [] {
      var last := extracted[|extracted| - 1];
      var before := Ingested(facts, extracted[..|extracted| - 1]);
      PlainIngestionAgrees(facts, extracted[..|extracted| - 1], entity, attribute);
      AgreeAfterStoring(before, last.0, last.1, last.2, DifferentValue, entity, attribute);
    }
  }

  // --- the store ---

  class FactStore {
    var facts: seq<Fact>

    constructor ()
      ensures facts == []
    {
      facts := [];
    }

    method StoreFact(entity: string, attribute: string, value: string) returns (id: nat)
      modifies this
      ensures id == |old(facts)| && facts == old(facts) + [Fact(entity, attribute, value, None)]
    {
      id := |facts|;
      facts := facts + [Fact(entity, attribute, value, None)];
    }

    method SupersedeFact(older: nat, newer: nat)
      requires older < |facts|
      modifies this
      ensures facts == old(facts)[older := old(facts)[older].(supersededBy := Some(newer))]
    {
      facts := facts[older := facts[older].(supersededBy := Some(newer))];
    }

    /** The active facts of a key, newest first. */
    method FindActive(entity: string, attribute: string) returns (ids: seq<nat>)
      ensures forall i: nat :: i in ids <==> i < |facts| && Active(facts[i]) && About(facts[i], entity, attribute)
      ensures forall a, b | 0 <= a < b < |ids| :: ids[a] > ids[b]
    {
      ids := [];
      var i := 0;
      while i < |facts|
        invariant 0 <= i <= |facts|
        invariant forall k: nat :: k in ids <==> k < i && Active(facts[k]) && About(facts[k], entity, attribute)
        invariant forall a, b | 0 <= a < b < |ids| :: ids[a] > ids[b]
      {
        if Active(facts[i]) && About(facts[i], entity, attribute) {
          assert forall a | 0 <= a < |ids| :: ids[a] in ids;
          ids := [i] + ids;
        }
        i := i + 1;
      }
    }

    /** Marks those of the given facts the rule replaces as superseded by the last one. */
    method SupersedeAll(existing: seq<nat>, rule: Rule, ghost before: seq<Fact>)
      requires facts != [] && before == facts[..|facts| - 1]
      requires forall i: nat :: i in existing ==> i <= |before|
      requires var f := facts[|before|];
               forall i: nat | i < |before| && Replaces(rule, before[i], f.entity, f.attribute, f.value) :: i in existing
      requires var f := facts[|before|];
               forall i: nat | i in existing && i < |before| :: Active(before[i]) && About(before[i], f.entity, f.attribute)
      requires facts[|before|].supersededBy == None
      modifies this
      ensures var f := old(facts)[|before|]; facts == Stored(before, f.entity, f.attribute, f.value, rule)
    {
      ghost var f := facts[|facts| - 1];
      var n := |facts| - 1;
      var value := facts[n].value;
      var k := 0;
      while k < |existing|
        invariant 0 <= k <= |existing| && |facts| == n + 1 && facts[n] == f
        invariant forall i | 0 <= i < n ::
          facts[i] == (if i in existing[..k] && Replaces(rule, before[i], f.entity, f.attribute, f.value)
                       then before[i].(supersededBy := Some(n)) else before[i])
      {
        var older := existing[k];
        assert older in existing;
        if older != n && (rule == Always || (rule == DifferentValue && facts[older].value != value)) {
          SupersedeFact(older, n);
        }
        k := k + 1;
      }
      assert existing[..k] == existing;
    }

    /** Stores extracted facts; each supersedes the active ones it contradicts. */
    method Ingest(extracted: seq<(string, string, string)>)
      modifies this
      ensures facts == Ingested(old(facts), extracted)
    {
      var k := 0;
      while k < |extracted|
        invariant 0 <= k <= |extracted| && facts == Ingested(old(facts), extracted[..k])
      {
        var (entity, attribute, value) := extracted[k];
        ghost var before := facts;
        var existing := FindActive(entity, attribute);
        var _ := StoreFact(entity, attribute, value);
        assert facts[..|before|] == before;
        SupersedeAll(existing, DifferentValue, before);
        assert extracted[..k + 1][..k] == extracted[..k];
        k := k + 1;
      }
      assert extracted[..k] == extracted;
    }

    /** Stores the entities of a payload; only one that names a previous value supersedes. */
    method IngestStructured(entities: seq<Entity>)
      modifies this
      ensures facts == IngestedStructured(old(facts), entities)
    {
      var k := 0;
      while k < |entities|
        invariant 0 <= k <= |entities| && facts == IngestedStructured(old(facts), entities[..k])
      {
        assert entities[..k + 1][..k] == entities[..k];
        var c := Cleaned(entities[k]);
        k := k + 1;
        if c.None? {
          continue;
        }
        var (name, attr, value, rule) := c.value;
        ghost var before := facts;
        var _ := StoreFact(name, attr, value);
        assert facts[..|before|] == before;
        var existing := FindActive(name, attr);
        SupersedeAll(existing, rule, before);
      }
      assert entities[..k] == entities;
    }
  }
}
