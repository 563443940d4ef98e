# Voltage clustering, modelled in Dafny

This project models JUNG's `VoltageClusterer`. That class clusters the nodes of a graph
using the "voltage" method of Wu and Huberman:

1. **Candidate rounds.** It runs `num_candidates` rounds. Each round draws a
   (source, target) pair of distinct nodes. The source is the origin node when there is
   one. It scores every node's voltage between the two, splits the voltages three ways
   with k-means, and keeps the two groups other than the largest one; when several groups tie for largest, the last of them is the one dropped.
2. **Seed ranking.** It ranks all nodes by how many candidates contain them.
3. **Extraction loop.** Up to `num_clusters - 1` times it picks a seed. With an origin,
   every round's seed is the origin: the cursor is only advanced when there is none.
   Without one, the seed is the first ranked node still unassigned. It counts how often each node
   co-occurs with the seed in a candidate and splits those counts two ways with k-means.
   The group with the higher centroid becomes a cluster, and its nodes are removed from
   every candidate and from the unassigned set.
4. **Garbage cluster.** Whatever remains unassigned becomes one last cluster.

The loop bound `num_clusters - 1` is a 32-bit int. For `num_clusters` equal to
Integer.MIN_VALUE it wraps to Integer.MAX_VALUE, so the loop is then bounded only by the
graph. `VoltageClusterer.RoundLimit` models this wrap.

Modules:

- `Common`: optional values, duplicate-free sequences, and unions of set sequences.
- `KMeans`:
  - the k-means result type;
  - the contract the clusterer relies on;
  - centroid arithmetic on one-dimensional points.
- `OccurrenceCounts`:
  - the reference definition of occurrence counts;
  - the count comparator;
  - the descending sort of seeds.
- `Candidates`: the mutable candidate list, which the candidate rounds append to and the
  extraction loop shrinks in place.
- `VoltageClusterer`:
  - the constructor;
  - count and seed computation;
  - one extraction step and the extraction loop;
  - `cluster_internal` and its two public entry points;
  - the source's `meansOf` exactly as written (see Findings).

The graph is its node sequence, in iteration order. Three things are parameters:

- the voltage scorer: `scorer(source, target)` gives each node's voltage;
- the random draws: `pairs`, one per candidate round, already resampled until the target
  differs from the source;
- the k-means partitioner: `kmeans(values, k)`.

`KMeans.KMeansContract` states what the partitioner is assumed to do. It either reports
NotEnoughClusters, or returns k non-empty, duplicate-free groups that cover the input
keys. Any two of those groups are separated by value: every value of one is strictly
below every value of the other. This is what nearest-centroid assignment produces on
one-dimensional points.

## Model

| member | source | states |
|---|---|---|
| VoltageClusterer.New | jung-algorithms/src/main/java/edu/uci/ics/jung/algorithms/cluster/VoltageClusterer.java:83-90 | construction succeeds exactly when at least one candidate round is requested, and then keeps the graph and that count |
| VoltageClusterer.Source | jung-algorithms/src/main/java/edu/uci/ics/jung/algorithms/cluster/VoltageClusterer.java:133-138 | a round's source node is the origin when there is one and otherwise the randomly drawn node |
| VoltageClusterer.Cluster | jung-algorithms/src/main/java/edu/uci/ics/jung/algorithms/cluster/VoltageClusterer.java:111-113 | the result is a VoltageRun of the whole algorithm without an origin. The clusters are non-empty and pairwise disjoint and cover the graph's nodes. For `num_clusters >= 1` there are never more than requested (class note, lines 60-62), and there are never more clusters than nodes. Asking for one cluster or fewer yields all nodes as one cluster, except for Integer.MIN_VALUE, whose wrapped loop bound allows up to 2^31 clusters |
| VoltageClusterer.GetCommunity | jung-algorithms/src/main/java/edu/uci/ics/jung/algorithms/cluster/VoltageClusterer.java:100-102 | the result is a VoltageRun around `v` with two clusters requested: one or two non-empty disjoint clusters covering the graph, the first containing `v` |
| VoltageClusterer.ClusterInternal | jung-algorithms/src/main/java/edu/uci/ics/jung/algorithms/cluster/VoltageClusterer.java:122-223 | the result is exactly a VoltageRun: the candidates are the candidate rounds' list, the seeds are ranked by occurrence in it, the claimed clusters follow the extraction rounds (ExtractionRun), and any leftover nodes form the garbage cluster. Hence the clusters partition the graph into non-empty parts, never more than the nodes, and for `num_clusters >= 1` at most `num_clusters` of them. With `num_clusters <= 1` (Integer.MIN_VALUE excepted) they are the single cluster of all nodes. With an origin there are one or two, and the first holds the origin |
| VoltageClusterer.GenerateCandidates | jung-algorithms/src/main/java/edu/uci/ics/jung/algorithms/cluster/VoltageClusterer.java:128-153 | the candidate list is exactly CandidateRounds of the draws: each round appends, in round order, the pair of key sets its three-way voltage split keeps (nothing when the split fails); hence at most two candidates per round, each a set of graph nodes |
| VoltageClusterer.CandidateRoundsShape | jung-algorithms/src/main/java/edu/uci/ics/jung/algorithms/cluster/VoltageClusterer.java:132-153 | after any number of rounds there are at most two candidates per round, and every candidate is a set of graph nodes |
| Candidates.CandidateList.constructor | jung-algorithms/src/main/java/edu/uci/ics/jung/algorithms/cluster/VoltageClusterer.java:130 | a new candidate list is empty |
| Candidates.LastLargest | jung-algorithms/src/main/java/edu/uci/ics/jung/algorithms/cluster/VoltageClusterer.java:246-258 | the index the size ladder drops is a largest group, and no later group is as large; so the two kept groups are never larger than the dropped one |
| Candidates.CandidateList.AddTwoCandidateClusters | jung-algorithms/src/main/java/edu/uci/ics/jung/algorithms/cluster/VoltageClusterer.java:241-262 | the ladder appends exactly KeptPair(split): on a three-way split the key sets of the two groups other than the last largest one, in group order (so the ladder's fall-through is unreachable); nothing on NotEnoughClusters |
| Candidates.KeptPairShape | jung-algorithms/src/main/java/edu/uci/ics/jung/algorithms/cluster/VoltageClusterer.java:249-258 | a failed split contributes no candidate; a three-way split contributes exactly two, each the key set of one of its three groups, and so a set of graph nodes |
| Candidates.CandidateList.AddOneCandidateCluster | jung-algorithms/src/main/java/edu/uci/ics/jung/algorithms/cluster/VoltageClusterer.java:272-285 | on a two-way split, exactly one key set is appended: the first group's if it is strictly smaller, otherwise the second's; earlier candidates are untouched; on NotEnoughClusters the list is unchanged |
| Candidates.CandidateList.RemoveFromAll | jung-algorithms/src/main/java/edu/uci/ics/jung/algorithms/cluster/VoltageClusterer.java:205-208 | every candidate loses exactly the members of the new cluster; the list keeps its length and order |
| VoltageClusterer.GetObjectCounts | jung-algorithms/src/main/java/edu/uci/ics/jung/algorithms/cluster/VoltageClusterer.java:308-334 | the count map has every graph node as a key. A node's count is the number of candidates containing it, or, with a seed, the number containing both it and the seed |
| OccurrenceCounts.PositiveIffInQualifyingCandidate | jung-algorithms/src/main/java/edu/uci/ics/jung/algorithms/cluster/VoltageClusterer.java:314-323 | a count is positive exactly when some counted candidate contains the node |
| OccurrenceCounts.SeedDominates | jung-algorithms/src/main/java/edu/uci/ics/jung/algorithms/cluster/VoltageClusterer.java:318-323 | with a seed, no node's co-occurrence count exceeds the seed's own |
| OccurrenceCounts.CoOccurrenceBounds | jung-algorithms/src/main/java/edu/uci/ics/jung/algorithms/cluster/VoltageClusterer.java:314-323 | the seed's co-occurrence count equals its plain count, and any node's co-occurrence count is at most its plain count |
| OccurrenceCounts.Compare | jung-algorithms/src/main/java/edu/uci/ics/jung/algorithms/cluster/VoltageClusterer.java:343-352 | the comparator answers -1, 0 or 1; it is negative exactly when the first count is larger and positive exactly when it is smaller |
| OccurrenceCounts.CompareIsTotalPreorder | jung-algorithms/src/main/java/edu/uci/ics/jung/algorithms/cluster/VoltageClusterer.java:336-353 | the comparator is sign-antisymmetric and transitive, as a list sort requires |
| OccurrenceCounts.Insert | jung-algorithms/src/main/java/edu/uci/ics/jung/algorithms/cluster/VoltageClusterer.java:298 | inserting into a list ordered by non-increasing count keeps it ordered and adds exactly the one node |
| OccurrenceCounts.SortByCount | jung-algorithms/src/main/java/edu/uci/ics/jung/algorithms/cluster/VoltageClusterer.java:297-298 | the sorted list is a permutation of its input, ordered by non-increasing count |
| VoltageClusterer.GetSeedCandidates | jung-algorithms/src/main/java/edu/uci/ics/jung/algorithms/cluster/VoltageClusterer.java:294-306 | the ranking is a permutation of the graph's nodes, in non-increasing order of occurrence in the candidates |
| VoltageClusterer.NextSeed | jung-algorithms/src/main/java/edu/uci/ics/jung/algorithms/cluster/VoltageClusterer.java:179-181 | the cursor advances to the first node still remaining, returns it, and leaves the cursor just past it; every node skipped was no longer remaining |
| VoltageClusterer.CursorInBounds | jung-algorithms/src/main/java/edu/uci/ics/jung/algorithms/cluster/VoltageClusterer.java:179-181 | while some node remains and all skipped nodes are gone, the cursor stays inside the ranking, so `seed_candidates.get` never runs off the end |
| KMeans.ContractShape | jung-algorithms/src/main/java/edu/uci/ics/jung/algorithms/cluster/VoltageClusterer.java:244-248 | a k-way answer from the partitioner has k groups, each made of keys of its input, so `clusters.get(0..k-1)` are defined |
| KMeans.CentroidSeparated | jung-algorithms/src/main/java/edu/uci/ics/jung/algorithms/cluster/VoltageClusterer.java:196-199 | a group lying wholly below another has the strictly smaller centroid |
| KMeans.CentroidBelow | jung-algorithms/src/main/java/edu/uci/ics/jung/algorithms/cluster/VoltageClusterer.java:196-199 | a group whose values all lie below a bound has its centroid below that bound |
| KMeans.CentroidAtLeast | jung-algorithms/src/main/java/edu/uci/ics/jung/algorithms/cluster/VoltageClusterer.java:196-199 | a group whose values are all at least a bound has its centroid at least that bound |
| KMeans.UpperGroupByCentroid | jung-algorithms/src/main/java/edu/uci/ics/jung/algorithms/cluster/VoltageClusterer.java:192-203 | on a two-way split, comparing centroids picks exactly the group whose values lie above the other's, in both directions |
| VoltageClusterer.KeptGroup | jung-algorithms/src/main/java/edu/uci/ics/jung/algorithms/cluster/VoltageClusterer.java:192-203 | the kept group is one of the two and its centroid is at least that of each; on equal centroids (the `>=` of line 199) the first group is kept |
| VoltageClusterer.ExtractedCluster | jung-algorithms/src/main/java/edu/uci/ics/jung/algorithms/cluster/VoltageClusterer.java:184-203 | the high group of the seed's co-occurrence counts contains the seed, and all its nodes are still remaining |
| VoltageClusterer.ExtractCluster | jung-algorithms/src/main/java/edu/uci/ics/jung/algorithms/cluster/VoltageClusterer.java:184-214 | the step claims exactly Extraction of the seed's co-occurrence counts: nothing when there are fewer than two counts or k-means cannot split them, otherwise the key set of the group of higher centroid. It picks that group by the source's own first-entry comparison (ChooseGroupAsWritten), which on a k-means split agrees with the centroids. A claimed cluster holds the seed, lies within the remaining nodes and is removed from every candidate; when nothing is claimed the candidates are unchanged |
| VoltageClusterer.ExtractionOutcome | jung-algorithms/src/main/java/edu/uci/ics/jung/algorithms/cluster/VoltageClusterer.java:184-213 | an extraction step claims nothing exactly when the graph has fewer than two nodes or k-means cannot split the counts in two; what it claims contains the seed and lies within the remaining nodes |
| VoltageClusterer.ExtractClusters | jung-algorithms/src/main/java/edu/uci/ics/jung/algorithms/cluster/VoltageClusterer.java:164-215 | the loop's claims are an ExtractionRun under the seed ranking it computes: cluster i is RoundClaim for the nodes not claimed before it, at most `num_clusters - 1` rounds claim (as a wrapped 32-bit int), and fewer only when no node is left or the next round claims nothing. The claimed clusters and the remaining nodes partition the graph. With an origin at most one cluster is claimed, and it holds the origin. Every candidate ends as its original self cut down to the nodes left over |
| VoltageClusterer.ExtractionRound | jung-algorithms/src/main/java/edu/uci/ics/jung/algorithms/cluster/VoltageClusterer.java:171-210 | the round claims exactly RoundClaim of the remaining nodes: the seed is the origin while the cursor has not moved, else the first ranked node still remaining, and the step is Extraction on the candidates as they stand. A claim restores the loop state with the cluster appended and its nodes no longer remaining (with an origin only in the first round); no claim leaves the candidates unchanged |
| VoltageClusterer.FirstIn | jung-algorithms/src/main/java/edu/uci/ics/jung/algorithms/cluster/VoltageClusterer.java:179-181 | the first node of the ranking still in the given set is in that set; when there is none, no node of the ranking is |
| VoltageClusterer.FirstInAt | jung-algorithms/src/main/java/edu/uci/ics/jung/algorithms/cluster/VoltageClusterer.java:179-181 | a ranked node in the set with no earlier ranked node in it is FirstIn's answer, so the do-while cursor finds the first remaining ranked node |
| VoltageClusterer.RoundOfChoice | jung-algorithms/src/main/java/edu/uci/ics/jung/algorithms/cluster/VoltageClusterer.java:176-184 | the seed a round picks is RoundSeed's (the origin, else FirstIn of the remaining nodes), and the step it runs on the current candidates is RoundClaim |
| VoltageClusterer.RemainingIsRest | jung-algorithms/src/main/java/edu/uci/ics/jung/algorithms/cluster/VoltageClusterer.java:209-210 | the unassigned nodes are exactly the graph minus the clusters claimed so far |
| VoltageClusterer.ExtendClaims | jung-algorithms/src/main/java/edu/uci/ics/jung/algorithms/cluster/VoltageClusterer.java:209-210 | a round claiming a cluster extends the list of clusters that follow the rounds |
| VoltageClusterer.FinishRun | jung-algorithms/src/main/java/edu/uci/ics/jung/algorithms/cluster/VoltageClusterer.java:170-215 | when the loop stops at its bound, for lack of nodes, or on a round claiming nothing, the claims so far are an ExtractionRun |
| VoltageClusterer.RoundLimit | jung-algorithms/src/main/java/edu/uci/ics/jung/algorithms/cluster/VoltageClusterer.java:170 | `num_clusters - 1` evaluated in 32 bits stays in the int range; it is the plain difference except that Integer.MIN_VALUE wraps to Integer.MAX_VALUE |
| VoltageClusterer.ClaimKeepsState | jung-algorithms/src/main/java/edu/uci/ics/jung/algorithms/cluster/VoltageClusterer.java:205-210 | a claimed cluster holding the round's seed, taken from the remaining nodes and cut from every candidate, restores the loop state; with an origin it can only be the first cluster |
| VoltageClusterer.ShrinkCandidates | jung-algorithms/src/main/java/edu/uci/ics/jung/algorithms/cluster/VoltageClusterer.java:205-210 | candidates that equal their original selves cut down to the remaining nodes stay so when a cluster is removed from both |
| VoltageClusterer.AppendCluster | jung-algorithms/src/main/java/edu/uci/ics/jung/algorithms/cluster/VoltageClusterer.java:209-210 | moving a non-empty cluster out of the remaining nodes keeps clusters-plus-remaining a partition of the graph |
| VoltageClusterer.AppendGarbage | jung-algorithms/src/main/java/edu/uci/ics/jung/algorithms/cluster/VoltageClusterer.java:217-220 | adding the leftover nodes, when there are any, as a last cluster makes the clusters alone a partition of the graph; it adds at most one cluster and keeps the first; when nothing was claimed, the result is the single cluster of all nodes |
| VoltageClusterer.ClusteringOutcome | jung-algorithms/src/main/java/edu/uci/ics/jung/algorithms/cluster/VoltageClusterer.java:164-222 | after the extraction loop and the garbage step, the clusters partition the graph into non-empty parts, never more than the nodes, and for `num_clusters >= 1` at most `num_clusters` of them. They are the whole graph when at most one is requested, save Integer.MIN_VALUE, where at most 2^31 result. With an origin there are one or two clusters, the first holding it |
| VoltageClusterer.ExactlyOneCluster | jung-algorithms/src/main/java/edu/uci/ics/jung/algorithms/cluster/VoltageClusterer.java:217-222 | in the returned clusters, every graph node lies in exactly one cluster |
| Common.DisjointUnionSize | jung-algorithms/src/main/java/edu/uci/ics/jung/algorithms/cluster/VoltageClusterer.java:217-222 | pairwise disjoint non-empty clusters are never more than the nodes they cover |
| VoltageClusterer.MeansOf | jung-algorithms/src/main/java/edu/uci/ics/jung/algorithms/cluster/VoltageClusterer.java:225-232 | the helper fills a fresh array with one mean per input vector, in order |
| VoltageClusterer.KeptGroupAsWritten | jung-algorithms/src/main/java/edu/uci/ics/jung/algorithms/cluster/VoltageClusterer.java:196-203 | as written, the choice between the two groups compares only the values of their first nodes |
| VoltageClusterer.ChooseGroupAsWritten | jung-algorithms/src/main/java/edu/uci/ics/jung/algorithms/cluster/VoltageClusterer.java:196-203 | choosing between the groups through the two `meansOf` arrays, as the source does, yields exactly KeptGroupAsWritten |
| VoltageClusterer.AsWrittenKeepsLowerCentroid | jung-algorithms/src/main/java/edu/uci/ics/jung/algorithms/cluster/VoltageClusterer.java:196-203 | an explicit input where the as-written choice keeps the group of lower centroid and the centroid comparison keeps the other |
| VoltageClusterer.AsWrittenAgreesOnSplits | jung-algorithms/src/main/java/edu/uci/ics/jung/algorithms/cluster/VoltageClusterer.java:196-203 | on any value-separated two-way split, the as-written choice and the centroid comparison keep the same group |

## Left out

- The voltage scorer (`VoltageScorer`) is not part of this model. It is the parameter `scorer`, and no property of voltages is assumed.
- The k-means partitioner (`KMeansClusterer`) is not part of this model. It is the parameter `kmeans`, assumed to meet `KMeans.KMeansContract`. The extraction results, and the fact that the seed cursor never runs off the end, hold under that assumption only.
- Random numbers are not modelled: the (source, target) draws are the parameter `pairs`.
- The resampling loop (lines 140-142) is not modelled: the draws arrive already resampled. On a graph with a single node that loop never ends, and on an empty graph `v_array.get` throws IndexOutOfBoundsException (line 135, or line 141 with an origin). The model rules both out through `SampledPairs`, which requires one draw per round of two distinct graph nodes.
- Counts, indices and sizes are unbounded integers. The only source arithmetic that can overflow is `num_clusters - 1`, and `RoundLimit` wraps it to 32 bits; `num_clusters` itself is required to be a 32-bit int, as its Java type makes it.
- Source and target are compared by value, not by reference (`==` on objects in the source).
- Floating point is not modelled. Voltages and counts are reals, `Stats.meanOf` is the exact arithmetic mean, and the `double[]` counts are natural numbers (they only ever hold whole numbers).
- The diagnostic printing in `getSeedCandidates` and `getObjectCounts` is I/O and is not modelled.
- The `Network` is not modelled; only its node collection, in iteration order, is used.
- `setRandomSeed` is left out, because the draws are a parameter.
- VoltageClusterer.GetSeedCandidates: does not fix the order of nodes with equal counts. The source sorts stably from hash-map key order, which this model does not know; the model sorts from the graph's node order instead.
- VoltageClusterer.GetCommunity: requires `v` to be a node of the graph, because the scorer is only defined on the graph's nodes.
- The result of `cluster_internal` is a sequence of node sets. The source returns key-set views of the k-means result maps, and any aliasing between those views and later updates is not modelled.
- `LayoutAlgorithmTestAWT` is a layout test unrelated to clustering and is not part of this model.

## Findings

| source | as written | input that shows it | evidently intended | confidence | as-written member | corrected member |
|---|---|---|---|---|---|---|
| jung-algorithms/src/main/java/edu/uci/ics/jung/algorithms/cluster/VoltageClusterer.java:196-199 | `meansOf` returns one mean per node of the group, each over that node's one-element vector, so `centroid1[0]` is just the first node's count and not the group's centroid | counts {1: 1.0, 2: 10.0, 3: 5.0} split into groups [1, 2] and [3]: as written [3] is kept (5 >= 1), though its centroid 5 is below 5.5 | keep the group whose mean count is higher | low: latent whenever k-means returns a value-separated split, which `AsWrittenAgreesOnSplits` proves, so the model's extraction step runs the comparison as written and still claims the higher-centroid group; not executed | VoltageClusterer.KeptGroupAsWritten, VoltageClusterer.AsWrittenKeepsLowerCentroid | VoltageClusterer.KeptGroup, KMeans.UpperGroupByCentroid |
