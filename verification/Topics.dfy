/** Greedy topic clustering of terms by the overlap of their dominant neurons. */
module Topics {

  type Term = string

  datatype Cluster = Cluster(id: nat, terms: seq<Term>, neurons: set<int>)

  /** Jaccard overlap of a and b is at least threshold; two empty sets overlap by zero. */
  predicate Overlaps(a: set<int>, b: set<int>, threshold: real) {
    if a + b == {} then 0.0 >= threshold else |a * b| as real >= threshold * |a + b| as real
  }

  /** The share of two sets' neurons that they have in common, none of none being zero. */
  function Similarity(a: set<int>, b: set<int>): real {
    if |a + b| == 0 then 0.0 else |a * b| as real / |a + b| as real
  }

  lemma OverlapMeaning(a: set<int>, b: set<int>, threshold: real)
    ensures Overlaps(a, b, threshold) <==> Similarity(a, b) >= threshold
  {
    if |a + b| > 0 {
      var common, all := |a * b| as real, |a + b| as real;
      assert a + b != {};
      assert common == Similarity(a, b) * all;
      if Similarity(a, b) >= threshold {
        assert Similarity(a, b) * all >= threshold * all;
      } else {
        assert Similarity(a, b) * all < threshold * all;
      }
    } else {
      assert a + b == {};
    }
  }

  lemma {:induction false} AllNeuronsMeaning(terms: seq<Term>, neurons: map<Term, set<int>>)
    requires forall t | t in terms :: t in neurons
    ensures forall x :: x in AllNeurons(terms, neurons) <==> exists t | t in terms :: x in neurons[t]
  {
    if terms != [] {
      var n := |terms| - 1;
      AllNeuronsMeaning(terms[..n], neurons);
      assert forall t :: t in terms <==> t in terms[..n] || t == terms[n];
    }
  }

  /** The union of the neurons of some terms. */
  function AllNeurons(terms: seq<Term>, neurons: map<Term, set<int>>): set<int>
    requires forall t | t in terms :: t in neurons
  {
    if terms == [] then {} else AllNeurons(terms[..|terms| - 1], neurons) + neurons[terms[|terms| - 1]]
  }

  predicate NoRepeats(terms: seq<Term>) {
    forall i, j | 0 <= i < j < |terms| :: terms[i] != terms[j]
  }

  function TermsOf(group: seq<Term>): set<Term> {
    set t | t in group
  }

  /** Some terms as a partition into groups, each led by its seed. */
  ghost predicate Grouping(groups: seq<seq<Term>>, terms: set<Term>, neurons: map<Term, set<int>>, threshold: real) {
    && (forall t | t in terms :: t in neurons)
    && (forall g | 0 <= g < |groups| :: groups[g] != [] && NoRepeats(groups[g]) && TermsOf(groups[g]) <= terms)
    && (forall t | t in terms :: exists g | 0 <= g < |groups| :: t in groups[g])
    && (forall g, h | 0 <= g < h < |groups| :: TermsOf(groups[g]) !! TermsOf(groups[h]))
    // every member meets the threshold with the seed of its group
    && (forall g, k | 0 <= g < |groups| && 0 < k < |groups[g]| :: Overlaps(neurons[groups[g][0]], neurons[groups[g][k]], threshold))
    // and everything in a later group is below it, in particular the later seeds
    && (forall g, h, t | 0 <= g < h < |groups| && t in groups[h] :: !Overlaps(neurons[groups[g][0]], neurons[t], threshold))
  }

  /** Every grouped term has neurons. */
  predicate Known(groups: seq<seq<Term>>, neurons: map<Term, set<int>>) {
    forall g | 0 <= g < |groups| :: forall t | t in groups[g] :: t in neurons
  }

  /** The clusters reported for a grouping: its groups of two or more, in order, with
      consecutive ids. */
  function Reported(groups: seq<seq<Term>>, neurons: map<Term, set<int>>, firstId: nat): seq<Cluster>
    requires Known(groups, neurons)
  {
    if groups == [] then []
    else
      var before := Reported(groups[..|groups| - 1], neurons, firstId);
      var last := groups[|groups| - 1];
      if |last| >= 2 then before + [Cluster(firstId + |before|, last, AllNeurons(last, neurons))] else before
  }

  lemma {:induction false} ReportedIds(groups: seq<seq<Term>>, neurons: map<Term, set<int>>, firstId: nat)
    requires Known(groups, neurons)
    ensures var cs := Reported(groups, neurons, firstId);
            && (forall k | 0 <= k < |cs| :: cs[k].id == firstId + k && |cs[k].terms| >= 2 && cs[k].terms in groups)
            && (forall g | 0 <= g < |groups| && |groups[g]| >= 2 :: exists k | 0 <= k < |cs| :: cs[k].terms == groups[g])
  {
    if groups != [] {
      var n := |groups| - 1;
      ReportedIds(groups[..n], neurons, firstId);
      var before, cs := Reported(groups[..n], neurons, firstId), Reported(groups, neurons, firstId);
      forall g | 0 <= g < |groups| && |groups[g]| >= 2 ensures exists k | 0 <= k < |cs| :: cs[k].terms == groups[g] {
        if g < n {
          assert groups[..n][g] == groups[g];
          var k :| 0 <= k < |before| && before[k].terms == groups[g];
          assert cs[k] == before[k];
        } else {
          assert cs[|before|].terms == groups[n];
        }
      }
    }
  }

  class TopicModel {
    const threshold: real
    var clusters: seq<Cluster>
    var nextClusterId: nat

    /** The stored clusters carry ids that were handed out, each once. */
    ghost predicate Valid()
      reads this
    {
      && (forall k | 0 <= k < |clusters| :: clusters[k].id < nextClusterId)
      && (forall a, b | 0 <= a < b < |clusters| :: clusters[a].id != clusters[b].id)
    }

    constructor (threshold: real)
      ensures Valid() && this.threshold == threshold && clusters == [] && nextClusterId == 0
    {
      this.threshold := threshold;
      clusters, nextClusterId := [], 0;
    }

    /** Collects the terms that overlap with a seed. */
    method Gather(seed: Term, neurons: map<Term, set<int>>, unassigned: set<Term>) returns (group: seq<Term>, rest: set<Term>)
      requires seed in neurons && seed !in unassigned && forall t | t in unassigned :: t in neurons
      ensures group != [] && group[0] == seed && NoRepeats(group) && seed !in rest
      ensures TermsOf(group) + rest == unassigned + {seed} && TermsOf(group) !! rest
      ensures forall k | 0 < k < |group| :: Overlaps(neurons[seed], neurons[group[k]], threshold)
      ensures forall t | t in rest :: !Overlaps(neurons[seed], neurons[t], threshold)
    {
      group, rest := [seed], unassigned;
      var left := unassigned;
      while left != {}
        invariant left <= rest <= unassigned
        invariant group != [] && group[0] == seed && NoRepeats(group)
        invariant TermsOf(group) + rest == unassigned + {seed} && TermsOf(group) !! rest
        invariant forall k | 0 < k < |group| :: Overlaps(neurons[seed], neurons[group[k]], threshold)
        invariant forall t | t in rest && t !in left :: !Overlaps(neurons[seed], neurons[t], threshold)
        decreases left
      {
        var term :| term in left;
        left := left - {term};
        if Overlaps(neurons[seed], neurons[term], threshold) {
          assert forall k | 0 <= k < |group| :: group[k] in TermsOf(group);
          group, rest := group + [term], rest - {term};
        }
      }
    }

    /** Clusters the cached terms. With fewer than three nothing changes; otherwise every
        term falls into exactly one group, and the groups of two or more become the clusters,
        under ids never used before. */
    method Extract(neurons: map<Term, set<int>>) returns (result: seq<Cluster>, ghost groups: seq<seq<Term>>)
      requires Valid()
      modifies this
      ensures Valid() && result == clusters
      ensures |neurons| < 3 ==> clusters == old(clusters) && nextClusterId == old(nextClusterId)
      ensures |neurons| >= 3 ==>
                && Grouping(groups, neurons.Keys, neurons, threshold)
                && clusters == Reported(groups, neurons, old(nextClusterId))
                && nextClusterId == old(nextClusterId) + |clusters|
    {
      hide Grouping, Reported, Overlaps, FarFrom, Known, NoRepeats, TermsOf, AllNeurons;
      groups := [];
      NoGroups(neurons, threshold, nextClusterId);
      if |neurons| < 3 {
        return clusters, groups;
      }
      var unassigned := neurons.Keys;
      var found: seq<Cluster> := [];
      while unassigned != {}
        invariant unassigned <= neurons.Keys
        invariant Grouping(groups, neurons.Keys - unassigned, neurons, threshold)
        invariant FarFrom(groups, unassigned, neurons, threshold) && Known(groups, neurons)
        invariant found == Reported(groups, neurons, old(nextClusterId))
        invariant nextClusterId == old(nextClusterId) + |found| && clusters == old(clusters)
        decreases unassigned
      {
        var seed :| seed in unassigned;
        ghost var before := unassigned;
        var group, rest := Gather(seed, neurons, unassigned - {seed});
        assert unassigned - {seed} + {seed} == before;
        MembersKnown(group, rest, before, neurons);
        GroupAdded(groups, group, rest, before, neurons, threshold);
        unassigned := rest;
        ReportedGrows(groups, group, neurons, old(nextClusterId));
        if |group| >= 2 {
          found := found + [Cluster(nextClusterId, group, AllNeurons(group, neurons))];
          nextClusterId := nextClusterId + 1;
        }
        groups := groups + [group];
      }
      assert neurons.Keys - unassigned == neurons.Keys;
      ReportedIds(groups, neurons, old(nextClusterId));
      clusters := found;
      result := found;
    }
  }

  /** No seed so far overlaps with any of the given terms. */
  predicate FarFrom(groups: seq<seq<Term>>, terms: set<Term>, neurons: map<Term, set<int>>, threshold: real) {
    forall g | 0 <= g < |groups| :: forall t | t in terms ::
      groups[g] != [] && groups[g][0] in neurons && t in neurons && !Overlaps(neurons[groups[g][0]], neurons[t], threshold)
  }

  lemma NoGroups(neurons: map<Term, set<int>>, threshold: real, firstId: nat)
    ensures Grouping([], neurons.Keys - neurons.Keys, neurons, threshold) && FarFrom([], neurons.Keys, neurons, threshold)
    ensures Known([], neurons) && Reported([], neurons, firstId) == []
  {
  }

  lemma ReportedGrows(groups: seq<seq<Term>>, group: seq<Term>, neurons: map<Term, set<int>>, firstId: nat)
    requires Known(groups, neurons) && forall t | t in group :: t in neurons
    ensures Known(groups + [group], neurons)
    ensures var before := Reported(groups, neurons, firstId);
            Reported(groups + [group], neurons, firstId) ==
              if |group| >= 2 then before + [Cluster(firstId + |before|, group, AllNeurons(group, neurons))] else before
  {
    assert (groups + [group])[..|groups|] == groups;
  }

  /** Gathering a group out of the unassigned terms extends the grouping. */
  lemma GroupAdded(groups: seq<seq<Term>>, group: seq<Term>, rest: set<Term>, before: set<Term>, neurons: map<Term, set<int>>, threshold: real)
    requires before <= neurons.Keys && TermsOf(group) + rest == before && TermsOf(group) !! rest
    requires Grouping(groups, neurons.Keys - before, neurons, threshold) && FarFrom(groups, before, neurons, threshold)
    requires group != [] && NoRepeats(group) && group[0] !in rest
    requires forall t | t in group :: t in neurons
    requires forall k | 0 < k < |group| :: Overlaps(neurons[group[0]], neurons[group[k]], threshold)
    requires forall t | t in rest :: !Overlaps(neurons[group[0]], neurons[t], threshold)
    ensures rest < before
    ensures Grouping(groups + [group], neurons.Keys - rest, neurons, threshold) && FarFrom(groups + [group], rest, neurons, threshold)
  {
    hide Grouping, FarFrom, Overlaps, NoRepeats;
    assert group[0] in TermsOf(group);
    assert rest + TermsOf(group) == before;
    assert neurons.Keys - rest == (neurons.Keys - before) + TermsOf(group);
    GroupingGrows(groups, group, rest, neurons.Keys - before, neurons.Keys - rest, neurons, threshold);
  }

  lemma MembersKnown(group: seq<Term>, rest: set<Term>, before: set<Term>, neurons: map<Term, set<int>>)
    requires TermsOf(group) + rest == before <= neurons.Keys
    ensures forall t | t in group :: t in neurons
  {
    forall t | t in group ensures t in neurons {
      assert t in TermsOf(group) + rest;
    }
  }

  /** One more group, of terms no earlier seed overlaps with, extends a grouping. */
  lemma {:induction false} GroupingGrows(groups: seq<seq<Term>>, group: seq<Term>, rest: set<Term>, terms: set<Term>,
                                         more: set<Term>, neurons: map<Term, set<int>>, threshold: real)
    requires Grouping(groups, terms, neurons, threshold) && FarFrom(groups, rest + TermsOf(group), neurons, threshold)
    requires more == terms + TermsOf(group) && TermsOf(group) !! terms && more <= neurons.Keys && rest <= neurons.Keys
    requires group != [] && NoRepeats(group) && forall t | t in group :: t in neurons
    requires forall k | 0 < k < |group| :: Overlaps(neurons[group[0]], neurons[group[k]], threshold)
    requires forall t | t in rest :: !Overlaps(neurons[group[0]], neurons[t], threshold)
    ensures Grouping(groups + [group], more, neurons, threshold) && FarFrom(groups + [group], rest, neurons, threshold)
  {
    var all := groups + [group];
    forall t | t in more ensures exists g | 0 <= g < |all| :: t in all[g] {
      if t in terms {
        var g :| 0 <= g < |groups| && t in groups[g];
        assert t in all[g];
      } else {
        assert t in all[|groups|];
      }
    }
    forall g, h | 0 <= g < h < |all| ensures TermsOf(all[g]) !! TermsOf(all[h]) {
      if h == |groups| {
        assert TermsOf(groups[g]) <= terms;
      }
    }
    forall g, h, t | 0 <= g < h < |all| && t in all[h] ensures !Overlaps(neurons[all[g][0]], neurons[t], threshold) {
      if h == |groups| {
        assert t in TermsOf(group);
      }
    }
  }
}
