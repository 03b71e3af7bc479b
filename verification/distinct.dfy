/**
 * Sequences whose elements have pairwise distinct keys, as the entries of a
 * dictionary listed with `.items()` have.
 */
module Distinct {

  ghost predicate DistinctBy<T, K>(s: seq<T>, key: T -> K) {
    forall i, j :: 0 <= i < j < |s| ==> key(s[i]) != key(s[j])
  }

  /** With distinct keys, an element occurs at most once. */
  lemma OccursOnce<T, K>(s: seq<T>, key: T -> K, x: T)
    requires DistinctBy(s, key)
    ensures multiset(s)[x] <= 1
  {
    if x in s {
      var i :| 0 <= i < |s| && s[i] == x;
      OnlyAtItsIndex(s, key, i);
      assert s == s[..i] + [x] + s[i + 1..];
      CountOfSingleOccurrence(s[..i], x, s[i + 1..]);
    }
  }

  lemma OnlyAtItsIndex<T, K>(s: seq<T>, key: T -> K, i: nat)
    requires DistinctBy(s, key) && i < |s|
    ensures s[i] !in s[..i] && s[i] !in s[i + 1..]
  {
    var head, tail := s[..i], s[i + 1..];
    forall j | 0 <= j < |head| ensures head[j] != s[i] {
      assert head[j] == s[j];
    }
    forall j | 0 <= j < |tail| ensures tail[j] != s[i] {
      assert tail[j] == s[i + 1 + j];
    }
  }

  lemma CountOfSingleOccurrence<T>(head: seq<T>, x: T, tail: seq<T>)
    requires x !in head && x !in tail
    ensures multiset(head + [x] + tail)[x] == 1
  {
    assert multiset(head + [x] + tail) == multiset(head) + multiset([x]) + multiset(tail);
  }

  /** Taking elements out of a sequence with distinct keys, in any order, keeps the keys distinct. */
  lemma SubMultisetKeepsDistinct<T, K>(s: seq<T>, r: seq<T>, key: T -> K)
    requires DistinctBy(s, key)
    requires multiset(r) <= multiset(s)
    ensures DistinctBy(r, key)
  {
    forall i, j | 0 <= i < j < |r| ensures key(r[i]) != key(r[j]) {
      if key(r[i]) == key(r[j]) {
        assert r[i] in multiset(s) && r[j] in multiset(s);
        var a :| 0 <= a < |s| && s[a] == r[i];
        var b :| 0 <= b < |s| && s[b] == r[j];
        assert a == b;
        assert r == r[..j] + [r[j]] + r[j + 1..];
        assert r[..j] == r[..i] + [r[i]] + r[i + 1..j];
        assert multiset(r)[r[i]] >= 2;
        OccursOnce(s, key, r[i]);
      }
    }
  }
}
