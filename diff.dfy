/**
  The "difference" of two name lists used by every convergence check of the
  scale test (DiffOfLists in tests/scaletest/scale_test.go).

  The source builds a frequency map: every key of the first list is set to 1,
  every occurrence in the second list adds 1, and the keys whose final count is
  exactly 1 are returned in map order. This is not a multiset symmetric
  difference: a name absent from the first list that occurs twice or more in
  the second is dropped.
 */
module Diff {

  /** The elements of a list, as a set. */
  function Elems(s: seq<string>): set<string>
  {
    set x | x in s
  }

  /** No name occurs twice. */
  predicate NoDuplicates(s: seq<string>)
  {
    forall i, j :: 0 <= i < j < |s| ==> s[i] != s[j]
  }

  /** The value the frequency map holds for key x after both loops. */
  function FinalCount(list1: seq<string>, list2: seq<string>, x: string): nat
  {
    (if x in list1 then 1 else 0) + multiset(list2)[x]
  }

  /** The keys whose final count is exactly 1: the set DiffOfLists returns. */
  function DiffSet(list1: seq<string>, list2: seq<string>): set<string>
  {
    set x | x in list1 + list2 && FinalCount(list1, list2, x) == 1
  }

  /** The length of the list DiffOfLists returns. */
  function DiffCount(list1: seq<string>, list2: seq<string>): nat
  {
    |DiffSet(list1, list2)|
  }

  /**
    The source's DiffOfLists: the frequency map is built in two loops and the
    keys with count 1 are collected in an arbitrary (map) order.
   */
  method DiffOfLists(list1: seq<string>, list2: seq<string>) returns (diff: seq<string>)
    ensures NoDuplicates(diff)
    ensures forall x :: x in diff <==> (x in list1 && x !in list2) || (x !in list1 && multiset(list2)[x] == 1)
    ensures Elems(diff) == DiffSet(list1, list2)
    ensures |diff| == DiffCount(list1, list2)
  {
    var diffMap := CountOccurrences(list1, list2);
    diff := KeysWithCountOne(diffMap);
    assert Elems(diff) == DiffSet(list1, list2) by {
      forall x ensures x in Elems(diff) <==> x in DiffSet(list1, list2) {
        assert x in list1 + list2 <==> x in list1 || x in list2;
      }
    }
    DistinctCardinality(diff);
  }

  /** The first two loops of DiffOfLists: every name of list1 counts 1, every occurrence in list2 adds 1. */
  method CountOccurrences(list1: seq<string>, list2: seq<string>) returns (diffMap: map<string, nat>)
    ensures diffMap.Keys == Elems(list1) + Elems(list2)
    ensures forall k :: k in diffMap ==> diffMap[k] == FinalCount(list1, list2, k)
  {
    diffMap := map[];
    for i := 0 to |list1|
      invariant diffMap.Keys == Elems(list1[..i])
      invariant forall k :: k in diffMap ==> diffMap[k] == 1
    {
      ElemsStep(list1, i);
      diffMap := diffMap[list1[i] := 1];
    }
    assert list1[..|list1|] == list1;
    for j := 0 to |list2|
      invariant diffMap.Keys == Elems(list1) + Elems(list2[..j])
      invariant forall k :: k in diffMap ==> diffMap[k] == FinalCount(list1, list2[..j], k)
    {
      var l2 := list2[j];
      ElemsStep(list2, j);
      // a missing key reads as 0 in Go
      var current := if l2 in diffMap then diffMap[l2] else 0;
      diffMap := diffMap[l2 := current + 1];
      forall k | k in diffMap ensures diffMap[k] == FinalCount(list1, list2[..j + 1], k) {
        OccurrenceStep(list1, list2, j, k);
      }
    }
    assert list2[..|list2|] == list2;
  }

  /** One more name of a list adds it to the list's elements. */
  lemma ElemsStep(s: seq<string>, i: nat)
    requires i < |s|
    ensures Elems(s[..i + 1]) == Elems(s[..i]) + {s[i]}
  {
    assert s[..i + 1] == s[..i] + [s[i]];
  }

  /** One more occurrence in list2 raises the count of its name by one. */
  lemma OccurrenceStep(list1: seq<string>, list2: seq<string>, j: nat, k: string)
    requires j < |list2|
    ensures FinalCount(list1, list2[..j + 1], k) == FinalCount(list1, list2[..j], k) + (if k == list2[j] then 1 else 0)
  {
    assert list2[..j + 1] == list2[..j] + [list2[j]];
  }

  /** The last loop of DiffOfLists: the keys of the frequency map with count 1, in an arbitrary order. */
  method KeysWithCountOne(diffMap: map<string, nat>) returns (diff: seq<string>)
    ensures NoDuplicates(diff)
    ensures forall x :: x in diff <==> x in diffMap && diffMap[x] == 1
  {
    var keys := diffMap.Keys;
    diff := [];
    while keys != {}
      invariant keys <= diffMap.Keys
      invariant forall x :: x in diff <==> x in diffMap && x !in keys && diffMap[x] == 1
      invariant NoDuplicates(diff)
      decreases keys
    {
      var key :| key in keys;
      if diffMap[key] == 1 {
        diff := diff + [key];
      }
      keys := keys - {key};
    }
  }

  /** A duplicate-free list has as many elements as its set. */
  lemma {:induction false} DistinctCardinality(s: seq<string>)
    requires NoDuplicates(s)
    ensures |Elems(s)| == |s|
  {
    if s != [] {
      var init := s[..|s| - 1];
      assert s == init + [s[|s| - 1]];
      assert Elems(s) == Elems(init) + {s[|s| - 1]};
      assert s[|s| - 1] !in Elems(init);
      DistinctCardinality(init);
    }
  }

  /** In a duplicate-free list every name occurs at most once. */
  lemma {:induction false} DistinctOccurrence(s: seq<string>, x: string)
    requires NoDuplicates(s)
    ensures multiset(s)[x] <= 1
  {
    if s != [] {
      assert s == [s[0]] + s[1..];
      assert multiset(s) == multiset([s[0]]) + multiset(s[1..]);
      DistinctOccurrence(s[1..], x);
      if x == s[0] {
        assert x !in s[1..];
      }
    }
  }

  /** Which names the difference keeps (both directions). */
  lemma DiffMembership(list1: seq<string>, list2: seq<string>, x: string)
    ensures x in DiffSet(list1, list2) <==>
              (x in list1 && x !in list2) || (x !in list1 && multiset(list2)[x] == 1)
  {
  }

  /** A list compared with itself, duplicates included, has an empty difference. */
  lemma DiffOfListWithItself(a: seq<string>)
    ensures DiffSet(a, a) == {}
    ensures DiffCount(a, a) == 0
  {
    forall x ensures x !in DiffSet(a, a) {
      if x in a {
        assert multiset(a)[x] >= 1;
      }
    }
  }

  /** When the second list has no duplicates the result is the set symmetric difference. */
  lemma DiffIsSymmetricDifference(list1: seq<string>, list2: seq<string>)
    requires NoDuplicates(list2)
    ensures DiffSet(list1, list2) == (Elems(list1) - Elems(list2)) + (Elems(list2) - Elems(list1))
  {
    forall x ensures x in DiffSet(list1, list2) <==> x in (Elems(list1) - Elems(list2)) + (Elems(list2) - Elems(list1)) {
      DistinctOccurrence(list2, x);
      assert x in list1 + list2 <==> x in list1 || x in list2;
    }
  }

  /** With a duplicate-free second list, the size of the difference is that of the set symmetric difference. */
  lemma DiffCountOfDistinct(list1: seq<string>, list2: seq<string>)
    ensures NoDuplicates(list2) ==>
      DiffCount(list1, list2) == |(Elems(list1) - Elems(list2)) + (Elems(list2) - Elems(list1))|
  {
    if NoDuplicates(list2) {
      DiffIsSymmetricDifference(list1, list2);
    }
  }

  /** For duplicate-free lists the size of the difference does not depend on the order of the arguments. */
  lemma DiffCountSymmetric(list1: seq<string>, list2: seq<string>)
    requires NoDuplicates(list1) && NoDuplicates(list2)
    ensures DiffSet(list1, list2) == DiffSet(list2, list1)
    ensures DiffCount(list1, list2) == DiffCount(list2, list1)
  {
    DiffIsSymmetricDifference(list1, list2);
    DiffIsSymmetricDifference(list2, list1);
  }

  /** Without that assumption it does: a name twice in the second list only is dropped. */
  lemma DiffCountNotSymmetric(x: string)
    ensures DiffCount([], [x, x]) == 0
    ensures DiffCount([x, x], []) == 1
  {
    assert DiffSet([], [x, x]) == {} by {
      assert multiset([x, x])[x] == 2;
    }
    assert DiffSet([x, x], []) == {x} by {
      assert x in [x, x] + [];
    }
  }

  /**
    Expected names against a snapshot holding exactly those names plus a set of
    unrelated pre-existing ones: the difference is the pre-existing names.
   */
  lemma DiffOfExactSnapshot(expected: seq<string>, extra: seq<string>, observed: seq<string>)
    requires NoDuplicates(extra)
    requires forall x :: x in extra ==> x !in expected
    requires multiset(observed) == multiset(expected + extra)
    ensures DiffSet(expected, observed) == Elems(extra)
    ensures DiffCount(expected, observed) == |extra|
  {
    forall x ensures x in DiffSet(expected, observed) <==> x in extra {
      assert multiset(observed)[x] == multiset(expected)[x] + multiset(extra)[x];
      DistinctOccurrence(extra, x);
      assert x in observed <==> x in multiset(observed);
    }
    DistinctCardinality(extra);
  }

  /** The same with the observed list given first, as the DNS check does. */
  lemma DiffOfExactSnapshotObservedFirst(expected: seq<string>, extra: seq<string>, observed: seq<string>)
    requires NoDuplicates(extra)
    requires forall x :: x in extra ==> x !in expected
    requires multiset(observed) == multiset(expected + extra)
    ensures DiffSet(observed, expected) == Elems(extra)
    ensures DiffCount(observed, expected) == |extra|
  {
    forall x ensures x in DiffSet(observed, expected) <==> x in extra {
      assert multiset(observed)[x] == multiset(expected)[x] + multiset(extra)[x];
      assert x in observed <==> x in multiset(observed);
      assert x in expected <==> x in multiset(expected);
      assert x in extra <==> x in multiset(extra);
    }
    DistinctCardinality(extra);
  }

  /**
    One expected name replaced by an unrelated one in the observed list makes
    the difference 2: the missing name and the stray one.
   */
  lemma DiffOfMisnamedEntry(expected: seq<string>, k: nat, stray: string)
    requires NoDuplicates(expected)
    requires k < |expected|
    requires stray !in expected
    ensures DiffSet(expected, expected[k := stray]) == {expected[k], stray}
    ensures DiffCount(expected, expected[k := stray]) == 2
  {
    var observed := expected[k := stray];
    forall x ensures x in DiffSet(expected, observed) <==> x == expected[k] || x == stray {
      DistinctOccurrence(expected, x);
      if x in expected && x != expected[k] {
        var i :| 0 <= i < |expected| && expected[i] == x;
        assert observed[i] == x;
        assert x in multiset(observed);
      }
      if x == expected[k] {
        assert multiset(observed)[x] == multiset(expected)[x] - 1;
      }
      if x == stray {
        assert multiset(observed)[x] == 1;
      }
      assert x in expected + observed <==> x in expected || x in observed;
    }
    assert DiffSet(expected, observed) == {expected[k], stray};
  }

  /**
    A set of observed names at least b larger than the expected set whose
    symmetric difference with it has exactly b elements contains every
    expected name.
   */
  lemma SymmetricDifferenceAtBound(expected: set<string>, observed: set<string>, b: nat)
    requires |observed| >= |expected| + b
    requires |(expected - observed) + (observed - expected)| == b
    ensures expected <= observed
    ensures |observed - expected| == b
  {
    var common := expected * observed;
    assert expected == (expected - observed) + common;
    assert observed == (observed - expected) + common;
    assert |expected| == |expected - observed| + |common|;
    assert |observed| == |observed - expected| + |common|;
    assert |(expected - observed) + (observed - expected)| == |expected - observed| + |observed - expected|;
  }
}
