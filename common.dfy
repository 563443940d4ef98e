/** Small vocabulary shared by the clusterer's modules: an optional value (the source's
    nullable node), duplicate-free sequences (a node collection iterated in a fixed
    order) and sequences of node sets (candidate lists and cluster lists). */
module Common {

  /** A node that may be absent; the source writes `null` for None. */
  datatype Option<T> = None | Some(value: T)

  /** No element occurs twice in `s`. */
  predicate NoDup<V(==)>(s: seq<V>)
  {
    forall i, j | 0 <= i < j < |s| :: s[i] != s[j]
  }

  /** The elements of `s` as a set. */
  function Elems<V>(s: seq<V>): set<V>
  {
    set x | x in s
  }

  /** The union of a sequence of sets. */
  ghost function Union<V>(ss: seq<set<V>>): set<V>
  {
    if ss == [] then {} else Union(ss[..|ss| - 1]) + ss[|ss| - 1]
  }

  /** No two sets of `ss` share an element. */
  ghost predicate PairwiseDisjoint<V>(ss: seq<set<V>>)
  {
    forall i, j | 0 <= i < j < |ss| :: ss[i] !! ss[j]
  }

  /** Appending a set adds exactly its elements to the union. */
  lemma UnionAppend<V>(ss: seq<set<V>>, s: set<V>)
    ensures Union(ss + [s]) == Union(ss) + s
  {
    assert (ss + [s])[..|ss|] == ss;
  }

  /** An element of the union lies in one of the sets, and conversely. */
  lemma {:induction false} InUnion<V>(ss: seq<set<V>>, x: V)
    ensures x in Union(ss) <==> exists i | 0 <= i < |ss| :: x in ss[i]
  {
    if ss != [] {
      var init := ss[..|ss| - 1];
      InUnion(init, x);
      if x in Union(ss) && x !in ss[|ss| - 1] {
        var i :| 0 <= i < |init| && x in init[i];
        assert x in ss[i];
      }
      if exists i | 0 <= i < |ss| :: x in ss[i] {
        var i :| 0 <= i < |ss| && x in ss[i];
        if i < |ss| - 1 {
          assert x in init[i];
        }
      }
    }
  }

  /** Pairwise disjoint non-empty sets are at most as many as the elements of their union. */
  lemma {:induction false} DisjointUnionSize<V>(ss: seq<set<V>>)
    requires PairwiseDisjoint(ss)
    requires forall i | 0 <= i < |ss| :: ss[i] != {}
    ensures |ss| <= |Union(ss)|
  {
    if ss != [] {
      var init := ss[..|ss| - 1];
      var last := ss[|ss| - 1];
      assert PairwiseDisjoint(init);
      DisjointUnionSize(init);
      forall x | x in last ensures x !in Union(init) {
        InUnion(init, x);
        forall i | 0 <= i < |init| ensures x !in init[i] {
          assert ss[i] !! ss[|ss| - 1];
        }
      }
      assert Union(ss) == Union(init) + last;
      assert |Union(ss)| == |Union(init)| + |last|;
      var y :| y in last;
    }
  }
}
