/** The k-means partitioner the clusterer calls, seen from outside: its result type, the
    contract every implementation is assumed to meet, and the centroid arithmetic the
    clusterer does on the groups it returns.

    The partitioner itself (iterative floating-point k-means) is not part of this model.
    It is a parameter `kmeans(values, k)` of the clusterer, and KMeansContract states what
    the clusterer relies on: either NotEnoughClusters, or k non-empty, duplicate-free
    groups that cover the keys of `values` and are separated by value, as nearest-centroid
    assignment on one-dimensional values makes them. */
module KMeans {
  import opened Common

  /** Each group is the key order of one result map (what iterating it yields). */
  datatype KMeansResult<V> = NotEnoughClusters | Clusters(groups: seq<seq<V>>)

  /** Every value of `lo` is strictly below every value of `hi`. */
  ghost predicate Below<V>(m: map<V, real>, lo: seq<V>, hi: seq<V>)
  {
    forall x, y | x in lo && y in hi :: x in m && y in m && m[x] < m[y]
  }

  /** `groups` is a k-way split of the keys of `m`, ordered by value pair-wise. */
  ghost predicate IsSplit<V>(m: map<V, real>, k: nat, groups: seq<seq<V>>)
  {
    && |groups| == k
    && (forall i | 0 <= i < k :: |groups[i]| > 0 && NoDup(groups[i]))
    && (forall i, x | 0 <= i < k && x in groups[i] :: x in m)
    && (forall x | x in m :: exists i | 0 <= i < k :: x in groups[i])
    && (forall i, j | 0 <= i < k && 0 <= j < k && i != j ::
          Below(m, groups[i], groups[j]) || Below(m, groups[j], groups[i]))
  }

  /** What the clusterer assumes of the partitioner, for every input and every k. */
  ghost predicate KMeansContract<V(!new)>(kmeans: (map<V, real>, nat) -> KMeansResult<V>)
  {
    forall m: map<V, real>, k: nat ::
      kmeans(m, k).Clusters? ==> IsSplit(m, k, kmeans(m, k).groups)
  }

  /** What a caller of the partitioner may rely on about the shape of its answer. */
  lemma ContractShape<V(!new)>(kmeans: (map<V, real>, nat) -> KMeansResult<V>, m: map<V, real>, k: nat)
    requires KMeansContract(kmeans)
    ensures kmeans(m, k).Clusters? ==>
      && |kmeans(m, k).groups| == k
      && forall i | 0 <= i < k :: Elems(kmeans(m, k).groups[i]) <= m.Keys
  {
    if kmeans(m, k).Clusters? {
      assert IsSplit(m, k, kmeans(m, k).groups);
    }
  }

  /** Sum of the values of the keys in `g`. */
  function Sum<V>(m: map<V, real>, g: seq<V>): real
    requires forall x | x in g :: x in m
  {
    if g == [] then 0.0 else m[g[0]] + Sum(m, g[1..])
  }

  /** The centroid (mean value) of a non-empty group of one-dimensional points. */
  function Centroid<V>(m: map<V, real>, g: seq<V>): real
    requires |g| > 0 && forall x | x in g :: x in m
  {
    Sum(m, g) / (|g| as real)
  }

  /** A key of `g` whose value is smallest. */
  function ArgMin<V>(m: map<V, real>, g: seq<V>): (w: V)
    requires |g| > 0 && forall x | x in g :: x in m
    ensures w in g && forall x | x in g :: m[w] <= m[x]
  {
    if |g| == 1 then g[0]
    else
      var w' := ArgMin(m, g[1..]);
      if m[g[0]] <= m[w'] then g[0] else w'
  }

  lemma {:induction false} SumAtLeast<V>(m: map<V, real>, g: seq<V>, t: real)
    requires forall x | x in g :: x in m && t <= m[x]
    ensures (|g| as real) * t <= Sum(m, g)
  {
    if g != [] {
      SumAtLeast(m, g[1..], t);
    }
  }

  lemma {:induction false} SumBelow<V>(m: map<V, real>, g: seq<V>, t: real)
    requires |g| > 0
    requires forall x | x in g :: x in m && m[x] < t
    ensures Sum(m, g) < (|g| as real) * t
  {
    if |g| > 1 {
      SumBelow(m, g[1..], t);
    }
  }

  /** A group lying wholly below another has the smaller centroid. */
  lemma CentroidSeparated<V>(m: map<V, real>, lo: seq<V>, hi: seq<V>)
    requires |lo| > 0 && |hi| > 0
    requires forall x | x in lo :: x in m
    requires forall x | x in hi :: x in m
    requires Below(m, lo, hi)
    ensures Centroid(m, lo) < Centroid(m, hi)
  {
    var t := m[ArgMin(m, hi)];
    CentroidBelow(m, lo, t);
    CentroidAtLeast(m, hi, t);
  }

  /** A group whose values all lie below `t` has its centroid below `t`. */
  lemma CentroidBelow<V>(m: map<V, real>, g: seq<V>, t: real)
    requires |g| > 0
    requires forall x | x in g :: x in m && m[x] < t
    ensures Centroid(m, g) < t
  {
    SumBelow(m, g, t);
    QuotientBelow(Sum(m, g), |g| as real, t);
  }

  /** A group whose values are all at least `t` has its centroid at least `t`. */
  lemma CentroidAtLeast<V>(m: map<V, real>, g: seq<V>, t: real)
    requires |g| > 0
    requires forall x | x in g :: x in m && t <= m[x]
    ensures t <= Centroid(m, g)
  {
    SumAtLeast(m, g, t);
    QuotientAtLeast(Sum(m, g), |g| as real, t);
  }

  lemma QuotientBelow(a: real, n: real, t: real)
    requires n > 0.0 && a < n * t
    ensures a / n < t
  {
    assert a == (a / n) * n;
  }

  lemma QuotientAtLeast(a: real, n: real, t: real)
    requires n > 0.0 && n * t <= a
    ensures t <= a / n
  {
    assert a == (a / n) * n;
  }

  /** For a two-way split, the first group has the larger-or-equal centroid exactly when
      it is the upper group. */
  lemma UpperGroupByCentroid<V>(m: map<V, real>, groups: seq<seq<V>>)
    requires IsSplit(m, 2, groups)
    ensures Centroid(m, groups[0]) >= Centroid(m, groups[1]) <==> Below(m, groups[1], groups[0])
    ensures Centroid(m, groups[0]) < Centroid(m, groups[1]) <==> Below(m, groups[0], groups[1])
  {
    assert Below(m, groups[0], groups[1]) || Below(m, groups[1], groups[0]);
    if Below(m, groups[0], groups[1]) {
      CentroidSeparated(m, groups[0], groups[1]);
      assert !Below(m, groups[1], groups[0]) by {
        assert groups[0][0] in groups[0] && groups[1][0] in groups[1];
      }
    } else {
      CentroidSeparated(m, groups[1], groups[0]);
      assert groups[0][0] in groups[0] && groups[1][0] in groups[1];
    }
  }
}
