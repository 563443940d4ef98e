/** The candidate list built by the clusterer: a list of node sets that the candidate
    rounds append to and that the extraction loop later shrinks in place. */
module Candidates {
  import opened Common
  import opened KMeans

  /** The group the three-way size ladder drops: the LAST index among the groups of
      largest size. The two groups kept are therefore never larger than the dropped one. */
  function LastLargest(n0: nat, n1: nat, n2: nat): (d: nat)
    ensures d < 3
    ensures var n := [n0, n1, n2];
            forall i | 0 <= i < 3 :: n[i] <= n[d] && (i > d ==> n[i] < n[d])
  {
    if n2 >= n0 && n2 >= n1 then 2
    else if n1 >= n0 then 1
    else 0
  }

  /** The candidates one three-way split contributes: nothing on NotEnoughClusters, else
      the key sets of the two groups other than the one LastLargest drops, in group order. */
  function KeptPair<V>(split: KMeansResult<V>): seq<set<V>>
    requires split.Clusters? ==> |split.groups| == 3
  {
    if split.NotEnoughClusters? then []
    else
      var g := split.groups;
      var d := LastLargest(|Elems(g[0])|, |Elems(g[1])|, |Elems(g[2])|);
      [Elems(g[if d == 0 then 1 else 0]), Elems(g[if d == 2 then 1 else 2])]
  }

  /** A failed split contributes nothing; a three-way split contributes exactly two
      candidates, each the key set of one of its groups, hence a set of graph nodes. */
  lemma KeptPairShape<V>(split: KMeansResult<V>, nodeSet: set<V>)
    requires split.Clusters? ==> |split.groups| == 3 && forall i | 0 <= i < 3 :: Elems(split.groups[i]) <= nodeSet
    ensures split.NotEnoughClusters? ==> KeptPair(split) == []
    ensures split.Clusters? ==>
      && |KeptPair(split)| == 2
      && forall k | 0 <= k < 2 ::
           KeptPair(split)[k] in {Elems(split.groups[0]), Elems(split.groups[1]), Elems(split.groups[2])}
    ensures |KeptPair(split)| <= 2
    ensures forall k | 0 <= k < |KeptPair(split)| :: KeptPair(split)[k] <= nodeSet
  {
  }

  class CandidateList<V(==)> {
    var sets: seq<set<V>>

    constructor ()
      ensures sets == []
    {
      sets := [];
    }

    /** Three-way k-means result: the size ladder keeps exactly KeptPair(split), i.e. the
        two groups other than the last largest one, in their original order; on
        NotEnoughClusters it keeps nothing. The size of a group is the number of its keys. */
    method AddTwoCandidateClusters(split: KMeansResult<V>)
      requires split.Clusters? ==> |split.groups| == 3
      modifies this
      ensures sets == old(sets) + KeptPair(split)
    {
      if split.Clusters? {
        var g := split.groups;
        var b01 := |Elems(g[0])| > |Elems(g[1])|;
        var b02 := |Elems(g[0])| > |Elems(g[2])|;
        var b12 := |Elems(g[1])| > |Elems(g[2])|;
        if b01 && b02 {
          sets := sets + [Elems(g[1])];
          sets := sets + [Elems(g[2])];
        } else if !b01 && b12 {
          sets := sets + [Elems(g[0])];
          sets := sets + [Elems(g[2])];
        } else if !b02 && !b12 {
          sets := sets + [Elems(g[0])];
          sets := sets + [Elems(g[1])];
        }
      }
    }

    /** Two-way k-means result: keep the strictly smaller group, the second one on a tie;
        on NotEnoughClusters keep nothing. */
    method AddOneCandidateCluster(split: KMeansResult<V>)
      requires split.Clusters? ==> |split.groups| == 2
      modifies this
      ensures split.NotEnoughClusters? ==> sets == old(sets)
      ensures split.Clusters? ==>
        var g := split.groups;
        && |sets| == |old(sets)| + 1
        && sets[..|old(sets)|] == old(sets)
        && ((sets[|old(sets)|] == Elems(g[0]) && |Elems(g[0])| < |Elems(g[1])|)
            || (sets[|old(sets)|] == Elems(g[1]) && |Elems(g[1])| <= |Elems(g[0])|))
    {
      if split.Clusters? {
        var g := split.groups;
        if |Elems(g[0])| < |Elems(g[1])| {
          sets := sets + [Elems(g[0])];
        } else {
          sets := sets + [Elems(g[1])];
        }
      }
    }

    /** Removes the members of `cluster` from every candidate. */
    method RemoveFromAll(cluster: set<V>)
      modifies this
      ensures |sets| == |old(sets)|
      ensures forall i | 0 <= i < |sets| :: sets[i] == old(sets)[i] - cluster
    {
      var i := 0;
      while i < |sets|
        invariant 0 <= i <= |sets| == |old(sets)|
        invariant forall k | 0 <= k < i :: sets[k] == old(sets)[k] - cluster
        invariant forall k | i <= k < |sets| :: sets[k] == old(sets)[k]
      {
        sets := sets[i := sets[i] - cluster];
        i := i + 1;
      }
    }
  }
}
