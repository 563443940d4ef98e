/** Occurrence counting over candidate clusters and the descending order of seeds.

    Occurrences(candidates, seed, v) is the reference definition of what the clusterer's
    count map holds for node `v`: with no seed, the number of candidates containing `v`;
    with a seed, the number of candidates containing both the seed and `v`. */
module OccurrenceCounts {
  import opened Common

  /** Whether a candidate is counted at all: every candidate when there is no seed,
      otherwise only those that contain the seed. */
  predicate Qualifies<V>(candidate: set<V>, seed: Option<V>)
  {
    seed.None? || seed.value in candidate
  }

  /** Number of qualifying candidates that contain `v`. */
  function Occurrences<V>(candidates: seq<set<V>>, seed: Option<V>, v: V): nat
  {
    if candidates == [] then 0
    else
      var last := candidates[|candidates| - 1];
      Occurrences(candidates[..|candidates| - 1], seed, v)
        + (if Qualifies(last, seed) && v in last then 1 else 0)
  }

  /** A node has a positive count exactly when some qualifying candidate contains it. */
  lemma {:induction false} PositiveIffInQualifyingCandidate<V>(candidates: seq<set<V>>, seed: Option<V>, v: V)
    ensures Occurrences(candidates, seed, v) > 0 <==>
            exists i | 0 <= i < |candidates| :: Qualifies(candidates[i], seed) && v in candidates[i]
  {
    if candidates != [] {
      var init := candidates[..|candidates| - 1];
      PositiveIffInQualifyingCandidate(init, seed, v);
      if exists i | 0 <= i < |candidates| :: Qualifies(candidates[i], seed) && v in candidates[i] {
        var i :| 0 <= i < |candidates| && Qualifies(candidates[i], seed) && v in candidates[i];
        if i < |init| {
          assert init[i] == candidates[i];
        }
      }
      if Occurrences(init, seed, v) > 0 {
        var i :| 0 <= i < |init| && Qualifies(init[i], seed) && v in init[i];
        assert candidates[i] == init[i];
      }
    }
  }

  /** With a seed, no node co-occurs with the seed more often than the seed itself: every
      candidate counted for `v` contains the seed as well. */
  lemma {:induction false} SeedDominates<V>(candidates: seq<set<V>>, seed: V, v: V)
    ensures Occurrences(candidates, Some(seed), v) <= Occurrences(candidates, Some(seed), seed)
  {
    if candidates != [] {
      SeedDominates(candidates[..|candidates| - 1], seed, v);
    }
  }

  /** The seed's own co-occurrence count is its plain occurrence count, and a
      co-occurrence count never exceeds the plain count of the node. */
  lemma {:induction false} CoOccurrenceBounds<V>(candidates: seq<set<V>>, seed: V, v: V)
    ensures Occurrences(candidates, Some(seed), seed) == Occurrences(candidates, None, seed)
    ensures Occurrences(candidates, Some(seed), v) <= Occurrences(candidates, None, v)
  {
    if candidates != [] {
      CoOccurrenceBounds(candidates[..|candidates| - 1], seed, v);
    }
  }

  /** The source's comparator on count maps: negative when the first node has the larger
      count, zero on equal counts, positive otherwise. */
  function Compare<V>(counts: map<V, nat>, a: V, b: V): (r: int)
    requires a in counts && b in counts
    ensures r == -1 || r == 0 || r == 1
    ensures r < 0 <==> counts[a] > counts[b]
    ensures r > 0 <==> counts[a] < counts[b]
  {
    if counts[a] < counts[b] then 1
    else if counts[a] > counts[b] then -1
    else 0
  }

  /** Compare is a total preorder: antisymmetric in sign and transitive. */
  lemma CompareIsTotalPreorder<V>(counts: map<V, nat>, a: V, b: V, c: V)
    requires a in counts && b in counts && c in counts
    ensures Compare(counts, a, b) == -Compare(counts, b, a)
    ensures Compare(counts, a, b) <= 0 && Compare(counts, b, c) <= 0 ==> Compare(counts, a, c) <= 0
  {
  }

  /** `s` lists nodes by non-increasing count. */
  ghost predicate DescendingBy<V>(counts: map<V, nat>, s: seq<V>)
  {
    forall i, j | 0 <= i < j < |s| :: s[i] in counts && s[j] in counts && counts[s[i]] >= counts[s[j]]
  }

  /** Places `x` in front of the first node that the comparator puts after it. */
  function Insert<V>(counts: map<V, nat>, x: V, s: seq<V>): (r: seq<V>)
    requires x in counts && forall y | y in s :: y in counts
    requires DescendingBy(counts, s)
    ensures multiset(r) == multiset(s) + multiset{x}
    ensures DescendingBy(counts, r)
  {
    if s == [] then [x]
    else if Compare(counts, x, s[0]) <= 0 then
      [x] + s
    else
      var rest := Insert(counts, x, s[1..]);
      HeadDominates(counts, s, x, rest);
      assert s == [s[0]] + s[1..];
      [s[0]] + rest
  }

  /** Putting the head of a descending list in front of the insertion into its tail, when
      the inserted node counts no more than that head, keeps the list descending. */
  lemma HeadDominates<V>(counts: map<V, nat>, s: seq<V>, x: V, rest: seq<V>)
    requires |s| > 0 && x in counts && forall y | y in s :: y in counts
    requires DescendingBy(counts, s) && counts[x] <= counts[s[0]]
    requires multiset(rest) == multiset(s[1..]) + multiset{x}
    requires DescendingBy(counts, rest)
    ensures DescendingBy(counts, [s[0]] + rest)
  {
    var r := [s[0]] + rest;
    forall j | 0 < j < |r| ensures r[j] in counts && counts[s[0]] >= counts[r[j]] {
      var y := rest[j - 1];
      assert r[j] == y;
      assert y in multiset(rest);
      if y != x {
        assert y in multiset(s[1..]);
        var k :| 0 <= k < |s[1..]| && s[1..][k] == y;
        assert s[k + 1] == y;
      }
    }
  }

  /** A stable sort by non-increasing count, in the manner of the source's list sort with
      its comparator: the result is a permutation of `s`. */
  function SortByCount<V>(counts: map<V, nat>, s: seq<V>): (r: seq<V>)
    requires forall y | y in s :: y in counts
    ensures multiset(r) == multiset(s)
    ensures DescendingBy(counts, r)
  {
    if s == [] then []
    else
      var sorted := SortByCount(counts, s[1..]);
      InMultiset(sorted, s[1..], counts);
      assert s == [s[0]] + s[1..];
      Insert(counts, s[0], sorted)
  }

  /** Membership in `counts` carries over to any permutation. */
  lemma InMultiset<V>(r: seq<V>, s: seq<V>, counts: map<V, nat>)
    requires multiset(r) == multiset(s)
    requires forall y | y in s :: y in counts
    ensures forall y | y in r :: y in counts
  {
    forall y | y in r ensures y in counts {
      assert y in multiset(r);
    }
  }
}
