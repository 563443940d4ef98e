/** The voltage clusterer: candidate generation, occurrence counting and seed ranking,
    and the extraction loop that turns co-occurrence with a seed into final clusters.

    The graph is its node sequence (the order in which it is iterated). The voltage
    scorer is a parameter `scorer(source, target)` giving each node's voltage; the random
    (source, target) draws are the parameter `pairs`; the k-means partitioner is the
    parameter `kmeans`, assumed to meet KMeans.KMeansContract. */
module VoltageClusterer {
  import opened Common
  import opened KMeans
  import opened OccurrenceCounts
  import opened Candidates

  /** Construction-time parameters: the graph's nodes and the number of candidate rounds. */
  datatype Clusterer<V> = Clusterer(nodes: seq<V>, numCandidates: nat)

  /** The constructor: refuses fewer than one candidate round. */
  function New<V>(nodes: seq<V>, numCandidates: int): (r: Option<Clusterer<V>>)
    ensures r.Some? <==> numCandidates >= 1
    ensures r.Some? ==> r.value.nodes == nodes && r.value.numCandidates == numCandidates
  {
    if numCandidates >= 1 then Some(Clusterer(nodes, numCandidates)) else None
  }

  /** The source node of a round: the origin when there is one, else the random draw. */
  function Source<V>(origin: Option<V>, pair: (V, V)): (source: V)
    ensures origin.Some? ==> source == origin.value
    ensures origin.None? ==> source == pair.0
  {
    if origin.Some? then origin.value else pair.0
  }

  /** One (source, target) draw per candidate round, both nodes of the graph, the target
      already resampled until it differs from the source. */
  ghost predicate SampledPairs<V>(c: Clusterer<V>, origin: Option<V>, pairs: seq<(V, V)>)
  {
    && |pairs| == c.numCandidates
    && forall k | 0 <= k < |pairs| ::
         pairs[k].0 in c.nodes && pairs[k].1 in c.nodes && Source(origin, pairs[k]) != pairs[k].1
  }

  /** Counts per node: for every node of the graph, how many qualifying candidates (all of
      them without a seed, those holding the seed with one) contain it. */
  method GetObjectCounts<V(==)>(nodes: seq<V>, candidates: seq<set<V>>, seed: Option<V>)
    returns (counts: map<V, nat>)
    requires forall k | 0 <= k < |candidates| :: candidates[k] <= Elems(nodes)
    ensures counts.Keys == Elems(nodes)
    ensures forall v | v in counts :: counts[v] == Occurrences(candidates, seed, v)
  {
    counts := map[];
    var i := 0;
    while i < |nodes|
      invariant 0 <= i <= |nodes|
      invariant counts.Keys == Elems(nodes[..i])
      invariant forall v | v in counts :: counts[v] == 0
    {
      assert Elems(nodes[..i + 1]) == Elems(nodes[..i]) + {nodes[i]} by {
        assert nodes[..i + 1] == nodes[..i] + [nodes[i]];
      }
      counts := counts[nodes[i] := 0];
      i := i + 1;
    }
    assert nodes[..|nodes|] == nodes;
    i := 0;
    while i < |candidates|
      invariant 0 <= i <= |candidates|
      invariant counts.Keys == Elems(nodes)
      invariant forall v | v in counts :: counts[v] == Occurrences(candidates[..i], seed, v)
    {
      var candidate := candidates[i];
      if seed.None? || seed.value in candidate {
        var rest := candidate;
        while rest != {}
          invariant rest <= candidate
          invariant counts.Keys == Elems(nodes)
          invariant forall v | v in counts ::
            counts[v] == Occurrences(candidates[..i], seed, v) + (if v in candidate - rest then 1 else 0)
          decreases rest
        {
          var element :| element in rest;
          counts := counts[element := counts[element] + 1];
          rest := rest - {element};
        }
      }
      assert candidates[..i + 1][..i] == candidates[..i];
      i := i + 1;
    }
    assert candidates[..|candidates|] == candidates;
  }

  /** The seed ranking: every node of the graph, ordered by non-increasing number of
      candidates containing it. */
  method GetSeedCandidates<V(==)>(nodes: seq<V>, candidates: seq<set<V>>) returns (seeds: seq<V>)
    requires forall k | 0 <= k < |candidates| :: candidates[k] <= Elems(nodes)
    ensures multiset(seeds) == multiset(nodes)
    ensures forall x | x in Elems(nodes) :: x in seeds
    ensures forall i, j | 0 <= i < j < |seeds| ::
      Occurrences(candidates, None, seeds[i]) >= Occurrences(candidates, None, seeds[j])
  {
    var counts := GetObjectCounts(nodes, candidates, None);
    seeds := SortByCount(counts, nodes);
    assert forall i | 0 <= i < |seeds| :: seeds[i] in counts by {
      forall i | 0 <= i < |seeds| ensures seeds[i] in counts {
        assert seeds[i] in multiset(nodes);
      }
    }
    forall x | x in Elems(nodes) ensures x in seeds {
      assert x in multiset(nodes);
    }
  }

  /** The counts as the one-dimensional points handed to k-means. */
  function RealValues<V>(counts: map<V, nat>): (m: map<V, real>)
    ensures m.Keys == counts.Keys
    ensures forall v | v in m :: m[v] == counts[v] as real
  {
    map v | v in counts :: counts[v] as real
  }

  /** Of the two k-means groups, the one whose centroid is not below the other's; the
      first on a tie. */
  function KeptGroup<V>(m: map<V, real>, g1: seq<V>, g2: seq<V>): (kept: seq<V>)
    requires |g1| > 0 && |g2| > 0
    requires forall x | x in g1 :: x in m
    requires forall x | x in g2 :: x in m
    ensures kept == g1 || kept == g2
    ensures Centroid(m, kept) >= Centroid(m, g1) && Centroid(m, kept) >= Centroid(m, g2)
    ensures Centroid(m, g1) >= Centroid(m, g2) ==> kept == g1
  {
    if Centroid(m, g1) >= Centroid(m, g2) then g1 else g2
  }

  /** One extraction step: the kept group of a two-way split of the co-occurrence counts
      contains the seed and only nodes still in some candidate, hence still remaining. */
  lemma ExtractedCluster<V>(candidates: seq<set<V>>, remaining: set<V>, seed: V,
                            counts: map<V, nat>, groups: seq<seq<V>>)
    requires forall k | 0 <= k < |candidates| :: candidates[k] <= remaining
    requires seed in counts
    requires forall v | v in counts :: counts[v] == Occurrences(candidates, Some(seed), v)
    requires IsSplit(RealValues(counts), 2, groups)
    ensures seed in KeptGroup(RealValues(counts), groups[0], groups[1])
    ensures Elems(KeptGroup(RealValues(counts), groups[0], groups[1])) <= remaining
  {
    var m := RealValues(counts);
    UpperGroupByCentroid(m, groups);
    var first := Centroid(m, groups[0]) >= Centroid(m, groups[1]);
    var upper := if first then groups[0] else groups[1];
    var lower := if first then groups[1] else groups[0];
    assert KeptGroup(m, groups[0], groups[1]) == upper;
    assert Below(m, lower, upper);
    assert upper[0] in upper && lower[0] in lower;
    if seed in lower {
      SeedDominates(candidates, seed, upper[0]);
      assert false;
    }
    assert seed in upper by {
      var i :| 0 <= i < 2 && seed in groups[i];
    }
    forall x | x in upper ensures x in remaining {
      assert m[lower[0]] < m[x];
      PositiveIffInQualifyingCandidate(candidates, Some(seed), x);
    }
  }

  /** When the cursor has passed only nodes that are no longer remaining and some node
      still remains, the cursor is inside the ranking. */
  lemma CursorInBounds<V>(seeds: seq<V>, i: nat, remaining: set<V>)
    requires remaining != {} && forall x | x in remaining :: x in seeds
    requires i <= |seeds|
    requires forall k | 0 <= k < i :: seeds[k] !in remaining
    ensures i < |seeds|
  {
    var x :| x in remaining;
    var k :| 0 <= k < |seeds| && seeds[k] == x;
  }

  /** The three-way split of one candidate round: the voltages of the graph's nodes for
      the round's (source, target) draw, split three ways. */
  function RoundSplit<V>(nodes: seq<V>, origin: Option<V>, pair: (V, V),
                         scorer: (V, V) -> V -> real,
                         kmeans: (map<V, real>, nat) -> KMeansResult<V>): KMeansResult<V>
  {
    var scores := scorer(Source(origin, pair), pair.1);
    kmeans(map v | v in Elems(nodes) :: scores(v), 3)
  }

  /** The candidate list after the rounds for `pairs`: each round appends the pair of
      groups its three-way split keeps. */
  ghost function CandidateRounds<V(!new)>(nodes: seq<V>, origin: Option<V>, pairs: seq<(V, V)>,
                                          scorer: (V, V) -> V -> real,
                                          kmeans: (map<V, real>, nat) -> KMeansResult<V>): seq<set<V>>
    requires KMeansContract(kmeans)
  {
    if pairs == [] then []
    else
      var split := RoundSplit(nodes, origin, pairs[|pairs| - 1], scorer, kmeans);
      var scores := scorer(Source(origin, pairs[|pairs| - 1]), pairs[|pairs| - 1].1);
      ContractShape(kmeans, map v | v in Elems(nodes) :: scores(v), 3);
      CandidateRounds(nodes, origin, pairs[..|pairs| - 1], scorer, kmeans) + KeptPair(split)
  }

  /** Each round adds at most two candidates, and every candidate is a set of graph nodes. */
  lemma {:induction false} CandidateRoundsShape<V(!new)>(nodes: seq<V>, origin: Option<V>, pairs: seq<(V, V)>,
                                                          scorer: (V, V) -> V -> real,
                                                          kmeans: (map<V, real>, nat) -> KMeansResult<V>)
    requires KMeansContract(kmeans)
    ensures |CandidateRounds(nodes, origin, pairs, scorer, kmeans)| <= 2 * |pairs|
    ensures var cs := CandidateRounds(nodes, origin, pairs, scorer, kmeans);
            forall k | 0 <= k < |cs| :: cs[k] <= Elems(nodes)
  {
    if pairs != [] {
      var init := pairs[..|pairs| - 1];
      CandidateRoundsShape(nodes, origin, init, scorer, kmeans);
      var scores := scorer(Source(origin, pairs[|pairs| - 1]), pairs[|pairs| - 1].1);
      var ranks := map v | v in Elems(nodes) :: scores(v);
      ContractShape(kmeans, ranks, 3);
      assert ranks.Keys == Elems(nodes);
      var split := RoundSplit(nodes, origin, pairs[|pairs| - 1], scorer, kmeans);
      KeptPairShape(split, Elems(nodes));
      var before := CandidateRounds(nodes, origin, init, scorer, kmeans);
      assert CandidateRounds(nodes, origin, pairs, scorer, kmeans) == before + KeptPair(split);
    }
  }

  /** The candidate rounds: for each (source, target) draw, score the graph, split the
      voltages three ways and keep the two groups the size ladder selects. */
  method GenerateCandidates<V(==, !new)>(c: Clusterer<V>, origin: Option<V>,
                                          pairs: seq<(V, V)>, scorer: (V, V) -> V -> real,
                                          kmeans: (map<V, real>, nat) -> KMeansResult<V>)
    returns (candidates: CandidateList<V>)
    requires KMeansContract(kmeans)
    requires SampledPairs(c, origin, pairs)
    ensures fresh(candidates)
    ensures candidates.sets == CandidateRounds(c.nodes, origin, pairs, scorer, kmeans)
    ensures |candidates.sets| <= 2 * c.numCandidates
    ensures forall k | 0 <= k < |candidates.sets| :: candidates.sets[k] <= Elems(c.nodes)
  {
    var nodeSet := Elems(c.nodes);
    candidates := new CandidateList<V>();
    var j := 0;
    while j < c.numCandidates
      invariant 0 <= j <= c.numCandidates
      invariant candidates.sets == CandidateRounds(c.nodes, origin, pairs[..j], scorer, kmeans)
    {
      var source := Source(origin, pairs[j]);
      var target := pairs[j].1;
      var scores := scorer(source, target);
      var voltageRanks := map v | v in nodeSet :: scores(v);
      var split := kmeans(voltageRanks, 3);
      ContractShape(kmeans, voltageRanks, 3);
      candidates.AddTwoCandidateClusters(split);
      assert pairs[..j + 1][..j] == pairs[..j];
      j := j + 1;
    }
    assert pairs[..j] == pairs;
    CandidateRoundsShape(c.nodes, origin, pairs, scorer, kmeans);
  }

  /** The seed cursor: advance past nodes no longer remaining and return the first node
      that still is, with the cursor just past it. */
  method NextSeed<V(==)>(seeds: seq<V>, seedIndex: nat, remaining: set<V>)
    returns (seed: V, next: nat)
    requires remaining != {} && forall x | x in remaining :: x in seeds
    requires seedIndex <= |seeds|
    requires forall k | 0 <= k < seedIndex :: seeds[k] !in remaining
    ensures seedIndex < next <= |seeds| && seed == seeds[next - 1]
    ensures seed in remaining
    ensures forall k | 0 <= k < next - 1 :: seeds[k] !in remaining
  {
    next := seedIndex;
    CursorInBounds(seeds, next, remaining);
    seed := seeds[next];
    next := next + 1;
    while seed !in remaining
      invariant seedIndex < next <= |seeds| && seed == seeds[next - 1]
      invariant forall k | 0 <= k < next - 1 :: seeds[k] !in remaining
      decreases |seeds| - next
    {
      CursorInBounds(seeds, next, remaining);
      seed := seeds[next];
      next := next + 1;
    }
  }

  /** The clusters found so far and the remaining nodes together partition `nodeSet`
      into non-empty, pairwise disjoint parts. */
  ghost predicate Partitioned<V>(clusters: seq<set<V>>, remaining: set<V>, nodeSet: set<V>)
  {
    && Union(clusters) + remaining == nodeSet
    && PairwiseDisjoint(clusters)
    && (forall i | 0 <= i < |clusters| :: clusters[i] != {})
    && (forall i | 0 <= i < |clusters| :: clusters[i] !! remaining)
  }

  /** In a pairwise disjoint cover of the graph, every node lies in exactly one cluster. */
  lemma ExactlyOneCluster<V>(clusters: seq<set<V>>, nodeSet: set<V>, x: V)
    requires Union(clusters) == nodeSet && PairwiseDisjoint(clusters)
    requires x in nodeSet
    ensures exists i | 0 <= i < |clusters| :: x in clusters[i]
    ensures forall i, j | 0 <= i < |clusters| && 0 <= j < |clusters| && x in clusters[i] && x in clusters[j] :: i == j
  {
    InUnion(clusters, x);
  }

  /** Appending a non-empty cluster taken from the remaining nodes keeps the partition. */
  lemma AppendCluster<V>(clusters: seq<set<V>>, remaining: set<V>, nodeSet: set<V>, newCluster: set<V>)
    requires Partitioned(clusters, remaining, nodeSet)
    requires newCluster != {} && newCluster <= remaining
    ensures Partitioned(clusters + [newCluster], remaining - newCluster, nodeSet)
  {
    UnionAppend(clusters, newCluster);
    var next := clusters + [newCluster];
    assert forall i | 0 <= i < |next| :: next[i] != {};
  }

  /** Appending what remains, when anything does, as a last cluster turns the claimed
      clusters and the remaining nodes into a partition of the graph by clusters alone. It
      adds at most one cluster, and it keeps the first cluster when one was claimed. When
      none was claimed, the only cluster is the whole graph. */
  lemma AppendGarbage<V>(clusters: seq<set<V>>, remaining: set<V>, nodeSet: set<V>, all: seq<set<V>>)
    requires Partitioned(clusters, remaining, nodeSet)
    requires nodeSet != {}
    requires clusters == [] ==> remaining == nodeSet
    requires all == if remaining == {} then clusters else clusters + [remaining]
    ensures Union(all) == nodeSet
    ensures PairwiseDisjoint(all)
    ensures forall i | 0 <= i < |all| :: all[i] != {}
    ensures 1 <= |all| <= |clusters| + 1
    ensures |clusters| >= 1 ==> all[0] == clusters[0]
    ensures clusters == [] ==> all == [nodeSet]
  {
    if remaining != {} {
      AppendCluster(clusters, remaining, nodeSet, remaining);
    }
    if clusters == [] {
      assert all == [nodeSet];
    }
  }

  /** The seed's co-occurrence counts over the graph's nodes, as k-means points. */
  function CoCounts<V>(nodes: seq<V>, candidates: seq<set<V>>, seed: V): (m: map<V, real>)
    ensures m.Keys == Elems(nodes)
  {
    RealValues(map v | v in Elems(nodes) :: Occurrences(candidates, Some(seed), v))
  }

  /** What one extraction step claims: nothing when the graph has fewer than two nodes
      (so fewer than two counts) or k-means cannot split the counts in two; otherwise the
      nodes of the group of higher centroid. */
  function Extraction<V(!new)>(nodes: seq<V>, candidates: seq<set<V>>, seed: V,
                               kmeans: (map<V, real>, nat) -> KMeansResult<V>): Option<set<V>>
    requires KMeansContract(kmeans)
  {
    var m := CoCounts(nodes, candidates, seed);
    if |Elems(nodes)| < 2 then None
    else match kmeans(m, 2)
      case NotEnoughClusters => None
      case Clusters(groups) =>
        assert IsSplit(m, 2, groups);
        Some(Elems(KeptGroup(m, groups[0], groups[1])))
  }

  /** An extraction step stops exactly when the graph has fewer than two nodes or k-means
      cannot split the counts; when the candidates hold only remaining nodes, what it
      claims contains the seed and lies within the remaining nodes. */
  lemma ExtractionOutcome<V(!new)>(nodes: seq<V>, candidates: seq<set<V>>, remaining: set<V>, seed: V,
                                   kmeans: (map<V, real>, nat) -> KMeansResult<V>)
    requires KMeansContract(kmeans)
    requires seed in nodes
    requires forall k | 0 <= k < |candidates| :: candidates[k] <= remaining
    ensures Extraction(nodes, candidates, seed, kmeans).None? <==>
      (|Elems(nodes)| < 2 || kmeans(CoCounts(nodes, candidates, seed), 2).NotEnoughClusters?)
    ensures var r := Extraction(nodes, candidates, seed, kmeans);
      r.Some? ==> seed in r.value && r.value <= remaining
  {
    var m := CoCounts(nodes, candidates, seed);
    if |Elems(nodes)| >= 2 && kmeans(m, 2).Clusters? {
      var counts := map v | v in Elems(nodes) :: Occurrences(candidates, Some(seed), v);
      assert m == RealValues(counts);
      ExtractedCluster(candidates, remaining, seed, counts, kmeans(m, 2).groups);
    }
  }

  /** One extraction step around `seed`: count co-occurrences with the seed, split the
      counts two ways and take the group whose first mean entry is not below the
      other's, which on a k-means split is the group of higher centroid, as Extraction
      states. The new
      cluster contains the seed, is drawn from the remaining nodes, and is removed from
      every candidate; when the step claims nothing the candidates are unchanged. */
  method ExtractCluster<V(==, !new)>(nodes: seq<V>, candidates: CandidateList<V>,
                                      remaining: set<V>, seed: V,
                                      kmeans: (map<V, real>, nat) -> KMeansResult<V>)
    returns (newCluster: Option<set<V>>)
    requires KMeansContract(kmeans)
    requires seed in nodes && remaining <= Elems(nodes)
    requires forall k | 0 <= k < |candidates.sets| :: candidates.sets[k] <= remaining
    modifies candidates
    ensures newCluster == Extraction(nodes, old(candidates.sets), seed, kmeans)
    ensures newCluster.None? ==> candidates.sets == old(candidates.sets)
    ensures newCluster.Some? ==>
      && seed in newCluster.value
      && newCluster.value <= remaining
      && |candidates.sets| == |old(candidates.sets)|
      && forall k | 0 <= k < |candidates.sets| ::
           candidates.sets[k] == old(candidates.sets)[k] - newCluster.value
  {
    var counts := GetObjectCounts(nodes, candidates.sets, Some(seed));
    assert counts == map v | v in Elems(nodes) :: Occurrences(candidates.sets, Some(seed), v);
    if |counts| < 2 {
      return None;
    }
    var values := RealValues(counts);
    var highLow := kmeans(values, 2);
    if highLow.NotEnoughClusters? {
      return None;
    }
    assert IsSplit(values, 2, highLow.groups);
    // The source's comparison of first mean entries; on a k-means split it keeps the
    // group of higher centroid.
    var kept := ChooseGroupAsWritten(values, highLow.groups[0], highLow.groups[1]);
    AsWrittenAgreesOnSplits(values, highLow.groups);
    ExtractedCluster(candidates.sets, remaining, seed, counts, highLow.groups);
    candidates.RemoveFromAll(Elems(kept));
    newCluster := Some(Elems(kept));
  }

  /** Candidates cut down to the remaining nodes stay so when a cluster is removed from
      both. */
  lemma ShrinkCandidates<V>(initial: seq<set<V>>, before: seq<set<V>>, after: seq<set<V>>,
                            remaining: set<V>, newCluster: set<V>)
    requires |before| == |initial| && forall k | 0 <= k < |before| :: before[k] == initial[k] * remaining
    requires |after| == |before| && forall k | 0 <= k < |after| :: after[k] == before[k] - newCluster
    ensures forall k | 0 <= k < |after| :: after[k] == initial[k] * (remaining - newCluster)
  {
  }

  /** The state the extraction loop keeps between rounds: the clusters claimed and the
      remaining nodes partition the graph; every candidate is its original self cut down
      to the remaining nodes; the cursor has passed only nodes no longer remaining; and
      with an origin the cursor has not moved and at most one cluster, holding the origin,
      has been claimed. */
  ghost predicate ExtractionState<V>(nodeSet: set<V>, initial: seq<set<V>>, sets: seq<set<V>>,
                                     seeds: seq<V>, origin: Option<V>,
                                     clusters: seq<set<V>>, remaining: set<V>, seedIndex: int)
  {
    && remaining <= nodeSet
    && Partitioned(clusters, remaining, nodeSet)
    && |sets| == |initial|
    && (forall k | 0 <= k < |sets| :: sets[k] == initial[k] * remaining)
    && 0 <= seedIndex <= |seeds|
    && (forall k | 0 <= k < seedIndex :: seeds[k] !in remaining)
    && (origin.Some? ==> seedIndex == 0 && |clusters| <= 1 && (|clusters| == 1 ==> origin.value in clusters[0]))
  }

  /** How the round's seed was chosen: the origin while the cursor has not moved, else the
      remaining node just before the new cursor, with every node passed over no longer
      remaining. */
  ghost predicate SeedChoice<V>(seeds: seq<V>, origin: Option<V>, remaining: set<V>,
                                seedIndex: nat, nextIndex: nat, seed: V)
  {
    if origin.Some? && seedIndex == 0 then seed == origin.value && nextIndex == seedIndex
    else
      && seedIndex < nextIndex <= |seeds| && seed == seeds[nextIndex - 1] && seed in remaining
      && forall k | 0 <= k < nextIndex - 1 :: seeds[k] !in remaining
  }

  /** The first node of the ranking that is still in `rem`, if any. */
  function FirstIn<V>(ranking: seq<V>, rem: set<V>): (first: Option<V>)
    ensures first.Some? ==> first.value in rem && first.value in ranking
    ensures first.None? ==> forall k | 0 <= k < |ranking| :: ranking[k] !in rem
  {
    if ranking == [] then None
    else if ranking[0] in rem then Some(ranking[0])
    else FirstIn(ranking[1..], rem)
  }

  /** A node of the ranking that is in `rem`, with every node before it not, is FirstIn's
      answer: the do-while cursor finds the first ranked node still remaining. */
  lemma {:induction false} FirstInAt<V>(ranking: seq<V>, rem: set<V>, n: nat)
    requires n < |ranking| && ranking[n] in rem
    requires forall k | 0 <= k < n :: ranking[k] !in rem
    ensures FirstIn(ranking, rem) == Some(ranking[n])
  {
    if n > 0 {
      assert ranking[0] !in rem;
      var tail := ranking[1..];
      assert forall k | 0 <= k < n - 1 :: tail[k] == ranking[k + 1];
      FirstInAt(tail, rem, n - 1);
    }
  }

  /** The seed of an extraction round while `rem` is unassigned: the origin when there is
      one (the cursor never moves then), else the first ranked node still unassigned. */
  function RoundSeed<V>(ranking: seq<V>, origin: Option<V>, rem: set<V>): Option<V>
  {
    if origin.Some? then origin else FirstIn(ranking, rem)
  }

  /** The original candidates cut down to the unassigned nodes `rem`. */
  function CutDown<V>(initial: seq<set<V>>, rem: set<V>): (cut: seq<set<V>>)
    ensures |cut| == |initial| && forall k | 0 <= k < |cut| :: cut[k] == initial[k] * rem
  {
    seq(|initial|, k requires 0 <= k < |initial| => initial[k] * rem)
  }

  /** What an extraction round claims while `rem` is unassigned: the extraction step
      around the round's seed, on the original candidates cut down to `rem`. */
  ghost function RoundClaim<V(!new)>(nodes: seq<V>, initial: seq<set<V>>, ranking: seq<V>,
                                     origin: Option<V>, rem: set<V>,
                                     kmeans: (map<V, real>, nat) -> KMeansResult<V>): Option<set<V>>
    requires KMeansContract(kmeans)
  {
    match RoundSeed(ranking, origin, rem)
    case None => None
    case Some(seed) => Extraction(nodes, CutDown(initial, rem), seed, kmeans)
  }

  /** The seed a round chooses is RoundSeed's, and the candidates it works on are the
      originals cut down to the remaining nodes; so its extraction step is RoundClaim. */
  lemma RoundOfChoice<V(!new)>(nodes: seq<V>, initial: seq<set<V>>, sets: seq<set<V>>,
                               seeds: seq<V>, origin: Option<V>, clusters: seq<set<V>>,
                               remaining: set<V>, seedIndex: nat, nextIndex: nat, seed: V,
                               kmeans: (map<V, real>, nat) -> KMeansResult<V>)
    requires KMeansContract(kmeans)
    requires ExtractionState(Elems(nodes), initial, sets, seeds, origin, clusters, remaining, seedIndex)
    requires SeedChoice(seeds, origin, remaining, seedIndex, nextIndex, seed)
    ensures RoundSeed(seeds, origin, remaining) == Some(seed)
    ensures RoundClaim(nodes, initial, seeds, origin, remaining, kmeans) == Extraction(nodes, sets, seed, kmeans)
  {
    if origin.None? {
      FirstInAt(seeds, remaining, nextIndex - 1);
    }
    assert sets == CutDown(initial, remaining);
  }

  /** One round of the extraction loop, once some node remains: choose the seed (the
      origin while the cursor has not moved, else the next ranked node still remaining)
      and run one extraction step around it. What it claims is RoundClaim's. When it
      claims a cluster, the loop state holds again with that cluster appended and its
      nodes no longer remaining; with an origin this happens only in the first round.
      When it claims nothing, the candidates are unchanged. */
  method ExtractionRound<V(==, !new)>(nodes: seq<V>, candidates: CandidateList<V>, seeds: seq<V>,
                                       origin: Option<V>,
                                       kmeans: (map<V, real>, nat) -> KMeansResult<V>,
                                       clusters: seq<set<V>>, remaining: set<V>, seedIndex: nat,
                                       ghost initial: seq<set<V>>)
    returns (claimed: Option<set<V>>, nextIndex: nat)
    requires KMeansContract(kmeans)
    requires remaining != {}
    requires forall x | x in Elems(nodes) :: x in seeds
    requires origin.Some? ==> origin.value in nodes
    requires ExtractionState(Elems(nodes), initial, candidates.sets, seeds, origin, clusters, remaining, seedIndex)
    modifies candidates
    ensures claimed == RoundClaim(nodes, initial, seeds, origin, remaining, kmeans)
    ensures claimed.None? ==> candidates.sets == old(candidates.sets)
    ensures claimed.Some? ==>
      && claimed.value != {}
      && (origin.Some? ==> clusters == [])
      && ExtractionState(Elems(nodes), initial, candidates.sets, seeds, origin,
                         clusters + [claimed.value], remaining - claimed.value, nextIndex)
  {
    var nodeSet := Elems(nodes);
    var seed;
    nextIndex := seedIndex;
    if seedIndex == 0 && origin.Some? {
      seed := origin.value;
    } else {
      seed, nextIndex := NextSeed(seeds, seedIndex, remaining);
    }
    ghost var before := candidates.sets;
    assert SeedChoice(seeds, origin, remaining, seedIndex, nextIndex, seed);
    claimed := ExtractCluster(nodes, candidates, remaining, seed, kmeans);
    RoundOfChoice(nodes, initial, before, seeds, origin, clusters, remaining, seedIndex, nextIndex, seed, kmeans);
    if claimed.Some? {
      ClaimKeepsState(nodeSet, initial, before, candidates.sets, seeds, origin,
                      clusters, remaining, seedIndex, nextIndex, seed, claimed.value);
    }
  }

  /** A claimed cluster holding the round's seed, drawn from the remaining nodes and cut
      from every candidate, restores the loop state; with an origin it can only be the
      first cluster, since the origin is the seed and it no longer remains afterwards. */
  lemma ClaimKeepsState<V>(nodeSet: set<V>, initial: seq<set<V>>, before: seq<set<V>>, after: seq<set<V>>,
                           seeds: seq<V>, origin: Option<V>, clusters: seq<set<V>>, remaining: set<V>,
                           seedIndex: nat, nextIndex: nat, seed: V, newCluster: set<V>)
    requires ExtractionState(nodeSet, initial, before, seeds, origin, clusters, remaining, seedIndex)
    requires SeedChoice(seeds, origin, remaining, seedIndex, nextIndex, seed)
    requires seed in newCluster && newCluster <= remaining
    requires |after| == |before| && forall k | 0 <= k < |after| :: after[k] == before[k] - newCluster
    ensures newCluster != {}
    ensures origin.Some? ==> clusters == []
    ensures ExtractionState(nodeSet, initial, after, seeds, origin,
                            clusters + [newCluster], remaining - newCluster, nextIndex)
  {
    assert origin.Some? ==> clusters == [] by {
      assert |clusters| >= 1 ==> clusters[0] !! remaining;
    }
    assert forall k | 0 <= k < nextIndex :: seeds[k] !in remaining - newCluster by {
      forall k | 0 <= k < nextIndex ensures seeds[k] !in remaining - newCluster {
        if k == nextIndex - 1 && origin.None? {
          assert seeds[k] == seed;
        }
      }
    }
    ShrinkCandidates(initial, before, after, remaining, newCluster);
    AppendCluster(clusters, remaining, nodeSet, newCluster);
  }

  /** The nodes still unassigned are the graph minus the clusters claimed so far. */
  lemma RemainingIsRest<V>(clusters: seq<set<V>>, remaining: set<V>, nodeSet: set<V>)
    requires Partitioned(clusters, remaining, nodeSet)
    ensures remaining == nodeSet - Union(clusters)
  {
    forall x | x in remaining ensures x !in Union(clusters) {
      InUnion(clusters, x);
    }
  }

  /** The extraction rounds as one function: what a round claims while `rem` is
      unassigned. */
  ghost function RoundsOf<V(!new)>(nodes: seq<V>, initial: seq<set<V>>, ranking: seq<V>,
                                   origin: Option<V>,
                                   kmeans: (map<V, real>, nat) -> KMeansResult<V>): set<V> -> Option<set<V>>
    requires KMeansContract(kmeans)
  {
    rem => RoundClaim(nodes, initial, ranking, origin, rem, kmeans)
  }

  /** Every claimed cluster is what its round claims, round i running with the nodes not
      claimed in rounds before it. */
  ghost predicate ClaimsFollowRounds<V>(claimOf: set<V> -> Option<set<V>>, nodeSet: set<V>,
                                        claimed: seq<set<V>>)
  {
    forall i | 0 <= i < |claimed| :: claimOf(nodeSet - Union(claimed[..i])) == Some(claimed[i])
  }

  /** A round claiming `newCluster` while the nodes not yet claimed remain extends the
      clusters that follow the rounds. */
  lemma ExtendClaims<V>(claimOf: set<V> -> Option<set<V>>, nodeSet: set<V>,
                        claimed: seq<set<V>>, remaining: set<V>, newCluster: set<V>)
    requires ClaimsFollowRounds(claimOf, nodeSet, claimed)
    requires remaining == nodeSet - Union(claimed)
    requires claimOf(remaining) == Some(newCluster)
    ensures ClaimsFollowRounds(claimOf, nodeSet, claimed + [newCluster])
  {
    var next := claimed + [newCluster];
    forall i | 0 <= i < |next| ensures claimOf(nodeSet - Union(next[..i])) == Some(next[i]) {
      if i < |claimed| {
        assert next[..i] == claimed[..i];
      } else {
        assert next[..i] == claimed;
      }
    }
  }

  /** An int of the source's 32-bit range. */
  predicate IsInt32(n: int)
  {
    -0x8000_0000 <= n < 0x8000_0000
  }

  /** The loop bound `num_clusters - 1` as a 32-bit int computes it: the difference
      wrapped into the 32-bit range, so that Integer.MIN_VALUE gives Integer.MAX_VALUE. */
  function RoundLimit(numClusters: int): (limit: int)
    requires IsInt32(numClusters)
    ensures IsInt32(limit)
    ensures numClusters > -0x8000_0000 ==> limit == numClusters - 1
    ensures numClusters == -0x8000_0000 ==> limit == 0x7fff_ffff
  {
    (numClusters - 1 + 0x8000_0000) % 0x1_0000_0000 - 0x8000_0000
  }

  /** The seed ranking over the original candidates: every node of the graph, ordered by
      non-increasing number of candidates containing it. */
  ghost predicate RankedByCount<V>(nodes: seq<V>, candidates: seq<set<V>>, ranking: seq<V>)
  {
    && multiset(ranking) == multiset(nodes)
    && (forall x | x in Elems(nodes) :: x in ranking)
    && forall i, j | 0 <= i < j < |ranking| ::
         Occurrences(candidates, None, ranking[i]) >= Occurrences(candidates, None, ranking[j])
  }

  /** A run of the extraction loop on the original candidates with a seed ranking: every
      claimed cluster is its round's claim, at most `limit` rounds claim, and fewer only
      when no node is left or the next round claims nothing. */
  ghost predicate ExtractionRun<V(!new)>(nodes: seq<V>, initial: seq<set<V>>, ranking: seq<V>,
                                         origin: Option<V>, limit: int,
                                         kmeans: (map<V, real>, nat) -> KMeansResult<V>,
                                         claimed: seq<set<V>>)
    requires KMeansContract(kmeans)
  {
    var rest := Elems(nodes) - Union(claimed);
    && ClaimsFollowRounds(RoundsOf(nodes, initial, ranking, origin, kmeans), Elems(nodes), claimed)
    && (limit >= 0 ==> |claimed| <= limit)
    && (limit <= 0 ==> claimed == [])
    && (|claimed| < limit && rest != {} ==> RoundClaim(nodes, initial, ranking, origin, rest, kmeans).None?)
  }

  /** When the loop ends, the claims so far form an extraction-loop run: the bound was
      reached, no node was left, or the last round claimed nothing. */
  lemma FinishRun<V(!new)>(nodes: seq<V>, initial: seq<set<V>>, ranking: seq<V>, origin: Option<V>,
                           limit: int, kmeans: (map<V, real>, nat) -> KMeansResult<V>,
                           claimed: seq<set<V>>, remaining: set<V>)
    requires KMeansContract(kmeans)
    requires Partitioned(claimed, remaining, Elems(nodes))
    requires ClaimsFollowRounds(RoundsOf(nodes, initial, ranking, origin, kmeans), Elems(nodes), claimed)
    requires limit >= 0 ==> |claimed| <= limit
    requires limit <= 0 ==> claimed == []
    requires |claimed| < limit && remaining != {} ==> RoundClaim(nodes, initial, ranking, origin, remaining, kmeans).None?
    ensures ExtractionRun(nodes, initial, ranking, origin, limit, kmeans, claimed)
  {
    RemainingIsRest(claimed, remaining, Elems(nodes));
  }

  /** The extraction loop: at most `num_clusters - 1` rounds (as a 32-bit int); it stops
      early when nothing remains or a round claims nothing. Every claimed cluster is its
      round's claim, under the seed ranking it computes. The clusters claimed and the
      nodes left over partition the graph; with an origin at most one cluster is claimed,
      and it holds the origin; every candidate ends as its original self cut down to the
      nodes left over. */
  method ExtractClusters<V(==, !new)>(nodes: seq<V>, candidates: CandidateList<V>,
                                       origin: Option<V>, numClusters: int,
                                       kmeans: (map<V, real>, nat) -> KMeansResult<V>)
    returns (clusters: seq<set<V>>, remaining: set<V>, ghost ranking: seq<V>)
    requires KMeansContract(kmeans)
    requires IsInt32(numClusters)
    requires forall k | 0 <= k < |candidates.sets| :: candidates.sets[k] <= Elems(nodes)
    requires origin.Some? ==> origin.value in nodes
    modifies candidates
    ensures Partitioned(clusters, remaining, Elems(nodes))
    ensures RankedByCount(nodes, old(candidates.sets), ranking)
    ensures ExtractionRun(nodes, old(candidates.sets), ranking, origin, RoundLimit(numClusters), kmeans, clusters)
    ensures RoundLimit(numClusters) >= 0 ==> |clusters| <= RoundLimit(numClusters)
    ensures RoundLimit(numClusters) <= 0 ==> clusters == []
    ensures clusters == [] ==> remaining == Elems(nodes)
    ensures origin.Some? ==> |clusters| <= 1 && (|clusters| == 1 ==> origin.value in clusters[0])
    ensures |candidates.sets| == |old(candidates.sets)|
    ensures forall k | 0 <= k < |candidates.sets| :: candidates.sets[k] == old(candidates.sets)[k] * remaining
  {
    var nodeSet := Elems(nodes);
    clusters := [];
    remaining := nodeSet;
    var seeds := GetSeedCandidates(nodes, candidates.sets);
    ranking := seeds;
    ghost var initial := candidates.sets;
    ghost var claimOf := RoundsOf(nodes, initial, seeds, origin, kmeans);
    var limit := RoundLimit(numClusters);
    var seedIndex := 0;
    var j := 0;
    while j < limit
      invariant 0 <= j && (limit >= 0 ==> j <= limit) && (limit < 0 ==> j == 0)
      invariant |clusters| == j
      invariant j == 0 ==> remaining == nodeSet
      invariant initial == old(candidates.sets)
      invariant ExtractionState(nodeSet, initial, candidates.sets, seeds, origin, clusters, remaining, seedIndex)
      invariant ClaimsFollowRounds(claimOf, nodeSet, clusters)
    {
      if remaining == {} {
        break;
      }
      var claimed, nextIndex := ExtractionRound(nodes, candidates, seeds, origin, kmeans,
                                                clusters, remaining, seedIndex, initial);
      RemainingIsRest(clusters, remaining, nodeSet);
      if claimed.None? {
        break;
      }
      ExtendClaims(claimOf, nodeSet, clusters, remaining, claimed.value);
      clusters := clusters + [claimed.value];
      remaining := remaining - claimed.value;
      seedIndex := nextIndex;
      j := j + 1;
    }
    FinishRun(nodes, initial, seeds, origin, limit, kmeans, clusters, remaining);
  }

  /** The outcome of the extraction loop followed by the garbage step: a partition of the
      graph into non-empty clusters, at most `numClusters` of them, the whole graph when at
      most one is requested (save Integer.MIN_VALUE, whose wrapped bound lets the loop run),
      and with an origin one or two clusters, the first holding it. */
  lemma ClusteringOutcome<V>(clusters: seq<set<V>>, remaining: set<V>, nodeSet: set<V>,
                             all: seq<set<V>>, numClusters: int, origin: Option<V>)
    requires Partitioned(clusters, remaining, nodeSet)
    requires nodeSet != {}
    requires IsInt32(numClusters)
    requires RoundLimit(numClusters) >= 0 ==> |clusters| <= RoundLimit(numClusters)
    requires RoundLimit(numClusters) <= 0 ==> clusters == []
    requires clusters == [] ==> remaining == nodeSet
    requires origin.Some? ==> origin.value in nodeSet
    requires origin.Some? ==> |clusters| <= 1 && (|clusters| == 1 ==> origin.value in clusters[0])
    requires all == if remaining == {} then clusters else clusters + [remaining]
    ensures Union(all) == nodeSet
    ensures PairwiseDisjoint(all)
    ensures forall i | 0 <= i < |all| :: all[i] != {}
    ensures numClusters >= 1 ==> |all| <= numClusters
    ensures -0x8000_0000 < numClusters <= 1 ==> all == [nodeSet]
    ensures numClusters == -0x8000_0000 ==> |all| <= 0x8000_0000
    ensures |all| <= |nodeSet|
    ensures origin.Some? ==> 1 <= |all| <= 2 && origin.value in all[0]
  {
    AppendGarbage(clusters, remaining, nodeSet, all);
    DisjointUnionSize(all);
  }

  /** A whole run of the algorithm: the candidate list is the candidate rounds' result, the
      seed ranking orders the graph by occurrence in it, the claimed clusters are an
      extraction-loop run on it, and the result is the claimed clusters followed by the
      garbage cluster when any node is left. */
  ghost predicate VoltageRun<V(!new)>(c: Clusterer<V>, origin: Option<V>, numClusters: int,
                                      pairs: seq<(V, V)>, scorer: (V, V) -> V -> real,
                                      kmeans: (map<V, real>, nat) -> KMeansResult<V>,
                                      ranking: seq<V>, claimed: seq<set<V>>, clusters: seq<set<V>>)
    requires KMeansContract(kmeans) && IsInt32(numClusters)
  {
    var initial := CandidateRounds(c.nodes, origin, pairs, scorer, kmeans);
    var rest := Elems(c.nodes) - Union(claimed);
    && RankedByCount(c.nodes, initial, ranking)
    && ExtractionRun(c.nodes, initial, ranking, origin, RoundLimit(numClusters), kmeans, claimed)
    && clusters == if rest == {} then claimed else claimed + [rest]
  }

  /** The whole algorithm, as VoltageRun describes it. The result partitions the graph's
      nodes into non-empty clusters, never more than requested; a single requested
      cluster is all nodes; with an origin, the first cluster holds the origin and there
      are at most two clusters (the cursor is never advanced, so a second extraction would
      reseed with the origin, which no candidate holds any more). */
  method ClusterInternal<V(==, !new)>(c: Clusterer<V>, origin: Option<V>, numClusters: int,
                                pairs: seq<(V, V)>, scorer: (V, V) -> V -> real,
                                kmeans: (map<V, real>, nat) -> KMeansResult<V>)
    returns (clusters: seq<set<V>>, ghost ranking: seq<V>, ghost claimed: seq<set<V>>)
    requires c.numCandidates >= 1
    requires KMeansContract(kmeans)
    requires IsInt32(numClusters)
    requires SampledPairs(c, origin, pairs)
    requires origin.Some? ==> origin.value in c.nodes
    ensures VoltageRun(c, origin, numClusters, pairs, scorer, kmeans, ranking, claimed, clusters)
    ensures Union(clusters) == Elems(c.nodes)
    ensures PairwiseDisjoint(clusters)
    ensures forall i | 0 <= i < |clusters| :: clusters[i] != {}
    ensures numClusters >= 1 ==> |clusters| <= numClusters
    ensures -0x8000_0000 < numClusters <= 1 ==> clusters == [Elems(c.nodes)]
    ensures numClusters == -0x8000_0000 ==> |clusters| <= 0x8000_0000
    ensures |clusters| <= |Elems(c.nodes)|
    ensures origin.Some? ==> 1 <= |clusters| <= 2 && origin.value in clusters[0]
  {
    var nodeSet := Elems(c.nodes);
    assert pairs[0].1 in nodeSet;

    var candidates := GenerateCandidates(c, origin, pairs, scorer, kmeans);

    var remaining;
    clusters, remaining, ranking := ExtractClusters(c.nodes, candidates, origin, numClusters, kmeans);
    claimed := clusters;

    // Whatever was never claimed becomes the garbage cluster.
    var all := if remaining == {} then clusters else clusters + [remaining];
    ClusteringOutcome(clusters, remaining, nodeSet, all, numClusters, origin);
    assert |all| <= |Elems(c.nodes)|;
    RemainingIsRest(clusters, remaining, nodeSet);
    clusters := all;
  }

  /** Clusters the whole graph into at most `numClusters` clusters. */
  method Cluster<V(==, !new)>(c: Clusterer<V>, numClusters: int,
                        pairs: seq<(V, V)>, scorer: (V, V) -> V -> real,
                        kmeans: (map<V, real>, nat) -> KMeansResult<V>)
    returns (clusters: seq<set<V>>, ghost ranking: seq<V>, ghost claimed: seq<set<V>>)
    requires c.numCandidates >= 1
    requires KMeansContract(kmeans)
    requires IsInt32(numClusters)
    requires SampledPairs(c, None, pairs)
    ensures VoltageRun(c, None, numClusters, pairs, scorer, kmeans, ranking, claimed, clusters)
    ensures Union(clusters) == Elems(c.nodes)
    ensures PairwiseDisjoint(clusters)
    ensures forall i | 0 <= i < |clusters| :: clusters[i] != {}
    ensures numClusters >= 1 ==> |clusters| <= numClusters
    ensures -0x8000_0000 < numClusters <= 1 ==> clusters == [Elems(c.nodes)]
    ensures numClusters == -0x8000_0000 ==> |clusters| <= 0x8000_0000
    ensures |clusters| <= |Elems(c.nodes)|
  {
    clusters, ranking, claimed := ClusterInternal(c, None, numClusters, pairs, scorer, kmeans);
  }

  /** The community of `v`: one or two non-empty clusters partitioning the graph, the
      first of which contains `v`. */
  method GetCommunity<V(==, !new)>(c: Clusterer<V>, v: V,
                             pairs: seq<(V, V)>, scorer: (V, V) -> V -> real,
                             kmeans: (map<V, real>, nat) -> KMeansResult<V>)
    returns (clusters: seq<set<V>>, ghost ranking: seq<V>, ghost claimed: seq<set<V>>)
    requires c.numCandidates >= 1
    requires KMeansContract(kmeans)
    requires SampledPairs(c, Some(v), pairs)
    requires v in c.nodes
    ensures VoltageRun(c, Some(v), 2, pairs, scorer, kmeans, ranking, claimed, clusters)
    ensures Union(clusters) == Elems(c.nodes)
    ensures PairwiseDisjoint(clusters)
    ensures forall i | 0 <= i < |clusters| :: clusters[i] != {}
    ensures 1 <= |clusters| <= 2 && v in clusters[0]
  {
    clusters, ranking, claimed := ClusterInternal(c, Some(v), 2, pairs, scorer, kmeans);
  }

  // ---------------------------------------------------------------------------------
  // The centroid comparison as the source writes it.

  function SumOf(xs: seq<real>): real
  {
    if xs == [] then 0.0 else xs[0] + SumOf(xs[1..])
  }

  /** Arithmetic mean of a non-empty vector. */
  function Mean(xs: seq<real>): real
    requires |xs| > 0
  {
    SumOf(xs) / (|xs| as real)
  }

  /** What the source's helper computes: one mean PER input vector, in iteration order,
      rather than the per-dimension mean of the vectors. */
  method MeansOf(vectors: seq<seq<real>>) returns (result: array<real>)
    requires forall i | 0 <= i < |vectors| :: |vectors[i]| > 0
    ensures fresh(result) && result.Length == |vectors|
    ensures forall i | 0 <= i < |vectors| :: result[i] == Mean(vectors[i])
  {
    result := new real[|vectors|];
    var index := 0;
    while index < |vectors|
      invariant 0 <= index <= |vectors|
      invariant forall i | 0 <= i < index :: result[i] == Mean(vectors[i])
    {
      result[index] := Mean(vectors[index]);
      index := index + 1;
    }
  }

  /** The group's values as the one-element vectors the source stores. */
  function ValueVectors<V>(m: map<V, real>, g: seq<V>): (vs: seq<seq<real>>)
    requires forall x | x in g :: x in m
    ensures |vs| == |g| && forall i | 0 <= i < |g| :: vs[i] == [m[g[i]]]
  {
    seq(|g|, i requires 0 <= i < |g| => [m[g[i]]])
  }

  /** The kept group as written: entry 0 of MeansOf is the mean of the FIRST node's
      one-element vector, i.e. that node's value, not the group's centroid. */
  function KeptGroupAsWritten<V>(m: map<V, real>, g1: seq<V>, g2: seq<V>): (kept: seq<V>)
    requires |g1| > 0 && |g2| > 0
    requires forall x | x in g1 :: x in m
    requires forall x | x in g2 :: x in m
    ensures kept == g1 || kept == g2
    ensures m[g1[0]] >= m[g2[0]] ==> kept == g1
    ensures m[g1[0]] < m[g2[0]] ==> kept == g2
  {
    MeanOfOne(m[g1[0]]);
    MeanOfOne(m[g2[0]]);
    if Mean(ValueVectors(m, g1)[0]) >= Mean(ValueVectors(m, g2)[0]) then g1 else g2
  }

  /** Lines 196-203 as written, through the array helper: the first entries of the two
      mean arrays decide, and the choice is KeptGroupAsWritten's. */
  method ChooseGroupAsWritten<V>(m: map<V, real>, g1: seq<V>, g2: seq<V>) returns (kept: seq<V>)
    requires |g1| > 0 && |g2| > 0
    requires forall x | x in g1 :: x in m
    requires forall x | x in g2 :: x in m
    ensures kept == KeptGroupAsWritten(m, g1, g2)
  {
    var centroid1 := MeansOf(ValueVectors(m, g1));
    var centroid2 := MeansOf(ValueVectors(m, g2));
    if centroid1[0] >= centroid2[0] {
      kept := g1;
    } else {
      kept := g2;
    }
  }

  /** The mean of a one-element vector is its element. */
  lemma MeanOfOne(x: real)
    ensures Mean([x]) == x
  {
    assert SumOf([x]) == x + SumOf([]);
  }

  /** The discrepancy: groups [1, 2] (values 1 and 10, centroid 5.5) and [3] (value 5).
      As written the group [3], of lower centroid, is kept. */
  lemma AsWrittenKeepsLowerCentroid()
    ensures var m := map[1 := 1.0, 2 := 10.0, 3 := 5.0];
            && KeptGroupAsWritten(m, [1, 2], [3]) == [3]
            && Centroid(m, [3]) < Centroid(m, [1, 2])
            && KeptGroup(m, [1, 2], [3]) == [1, 2]
  {
    var m := map[1 := 1.0, 2 := 10.0, 3 := 5.0];
    assert Sum(m, [1, 2]) == 11.0 by {
      assert [1, 2][1..] == [2];
      assert Sum(m, [2]) == 10.0;
    }
    assert Sum(m, [3]) == 5.0;
  }

  /** The discrepancy is latent: on a value-separated split the first values compare the
      same way as the centroids, so both versions keep the same group. */
  lemma AsWrittenAgreesOnSplits<V>(m: map<V, real>, groups: seq<seq<V>>)
    requires IsSplit(m, 2, groups)
    ensures KeptGroupAsWritten(m, groups[0], groups[1]) == KeptGroup(m, groups[0], groups[1])
  {
    UpperGroupByCentroid(m, groups);
    assert groups[0][0] in groups[0] && groups[1][0] in groups[1];
  }
}
