/**
 * QuickSort.sort: Lomuto-partition quicksort on a copy of the input, with a
 * key function and a `reverse` flag. The pivot is always the last element of
 * the active range.
 */
module QuickSort {

  /** `x` belongs strictly on the pivot's left side of `y` (the `should_swap` test). */
  predicate Precedes(x: real, y: real, reverse: bool) {
    if reverse then x > y else x < y
  }

  /** Keys `x`, `y` are in the requested order: `y` does not strictly precede `x`. */
  predicate InOrder(x: real, y: real, reverse: bool) {
    !Precedes(y, x, reverse)
  }

  ghost predicate SortedBy<T>(s: seq<T>, key: T -> real, reverse: bool) {
    forall i, j :: 0 <= i < j < |s| ==> InOrder(key(s[i]), key(s[j]), reverse)
  }

  /** The identity key, which the source uses when no key is given. */
  function Identity(x: real): real { x }

  ghost predicate Ascending(s: seq<real>) {
    forall i, j :: 0 <= i < j < |s| ==> s[i] <= s[j]
  }

  lemma SortedByIdentity(s: seq<real>)
    requires SortedBy(s, Identity, false)
    ensures Ascending(s)
  {
    forall i, j | 0 <= i < j < |s| ensures s[i] <= s[j] {
      assert InOrder(Identity(s[i]), Identity(s[j]), false);
    }
  }

  /** Every element of `t` satisfies `p` when `t` is a rearrangement of `s` whose elements do. */
  lemma AllPreserved<T>(s: seq<T>, t: seq<T>, p: T -> bool)
    requires multiset(s) == multiset(t)
    requires forall k :: 0 <= k < |s| ==> p(s[k])
    ensures forall k :: 0 <= k < |t| ==> p(t[k])
  {
    forall k | 0 <= k < |t| ensures p(t[k]) {
      assert t[k] in multiset(t);
      assert t[k] in multiset(s);
      var m :| 0 <= m < |s| && s[m] == t[k];
    }
  }

  /** The slice [lo, hi) after exchanging positions i and j keeps its multiset. */
  lemma SwapKeepsMultiset<T>(s: seq<T>, t: seq<T>, lo: int, hi: int, i: int, j: int)
    requires |s| == |t| && 0 <= lo <= i <= j < hi <= |s|
    requires t[i] == s[j] && t[j] == s[i]
    requires forall k :: 0 <= k < |s| && k != i && k != j ==> t[k] == s[k]
    ensures multiset(t[lo..hi]) == multiset(s[lo..hi])
  {
    if i < j {
      SplitAround(s, lo, i, j, hi);
      SplitAround(t, lo, i, j, hi);
      assert t[lo..i] == s[lo..i];
      assert t[i + 1..j] == s[i + 1..j];
      assert t[j + 1..hi] == s[j + 1..hi];
      ExchangeKeepsMultiset(s[lo..i], s[i], s[i + 1..j], s[j], s[j + 1..hi]);
    } else {
      assert s[lo..hi] == t[lo..hi];
    }
  }

  lemma SplitAround<T>(u: seq<T>, lo: int, i: int, j: int, hi: int)
    requires 0 <= lo <= i < j < hi <= |u|
    ensures u[lo..hi] == u[lo..i] + [u[i]] + u[i + 1..j] + [u[j]] + u[j + 1..hi]
  {
    assert u[lo..hi] == u[lo..i] + u[i..hi];
    assert u[i..hi] == [u[i]] + u[i + 1..hi];
    assert u[i + 1..hi] == u[i + 1..j] + u[j..hi];
    assert u[j..hi] == [u[j]] + u[j + 1..hi];
  }

  lemma ExchangeKeepsMultiset<T>(before: seq<T>, x: T, between: seq<T>, y: T, after: seq<T>)
    ensures multiset(before + [x] + between + [y] + after) == multiset(before + [y] + between + [x] + after)
  {
  }

  /** Exchanges a[i] and a[j] inside the range [low, high]. */
  method Swap<T>(a: array<T>, low: int, high: int, i: int, j: int)
    requires 0 <= low <= i <= j <= high < a.Length
    modifies a
    ensures a[i] == old(a[j]) && a[j] == old(a[i])
    ensures forall k :: 0 <= k < a.Length && k != i && k != j ==> a[k] == old(a[k])
    ensures multiset(a[low..high + 1]) == old(multiset(a[low..high + 1]))
  {
    ghost var s := a[..];
    a[i], a[j] := a[j], a[i];
    ghost var t := a[..];
    SwapKeepsMultiset(s, t, low, high + 1, i, j);
    assert t[low..high + 1] == a[low..high + 1];
    assert s[low..high + 1] == old(a[low..high + 1]);
  }

  /**
   * partition(low, high): moves every element whose key strictly precedes the
   * pivot's key to the front of the range and puts the pivot right after them.
   */
  method Partition<T>(a: array<T>, key: T -> real, reverse: bool, low: int, high: int) returns (p: int)
    requires 0 <= low < high < a.Length
    modifies a
    ensures low <= p <= high
    ensures a[p] == old(a[high])
    ensures forall k :: low <= k < p ==> Precedes(key(a[k]), key(a[p]), reverse)
    ensures forall k :: p < k <= high ==> !Precedes(key(a[k]), key(a[p]), reverse)
    ensures forall k :: 0 <= k < a.Length && !(low <= k <= high) ==> a[k] == old(a[k])
    ensures multiset(a[low..high + 1]) == old(multiset(a[low..high + 1]))
  {
    var pivotVal := key(a[high]);
    var i := low - 1;
    for j := low to high
      invariant low - 1 <= i < j
      invariant a[high] == old(a[high])
      invariant forall k :: low <= k <= i ==> Precedes(key(a[k]), pivotVal, reverse)
      invariant forall k :: i < k < j ==> !Precedes(key(a[k]), pivotVal, reverse)
      invariant forall k :: 0 <= k < a.Length && !(low <= k <= high) ==> a[k] == old(a[k])
      invariant multiset(a[low..high + 1]) == old(multiset(a[low..high + 1]))
    {
      var currentVal := key(a[j]);
      var shouldSwap := if reverse then currentVal > pivotVal else currentVal < pivotVal;
      if shouldSwap {
        i := i + 1;
        Swap(a, low, high, i, j);
      }
    }
    Swap(a, low, high, i + 1, high);
    p := i + 1;
  }

  /**
   * Changing only the sub-slice [lo, mid) of [lo, hi) while keeping that
   * sub-slice's multiset keeps the multiset of all of [lo, hi).
   */
  lemma SubrangeKeepsMultiset<T>(s: seq<T>, t: seq<T>, lo: int, mid: int, hi: int)
    requires |s| == |t| && 0 <= lo <= mid <= hi <= |s|
    requires multiset(t[lo..mid]) == multiset(s[lo..mid])
    requires t[mid..hi] == s[mid..hi]
    ensures multiset(t[lo..hi]) == multiset(s[lo..hi])
  {
    assert s[lo..hi] == s[lo..mid] + s[mid..hi];
    assert t[lo..hi] == t[lo..mid] + t[mid..hi];
  }

  /** Two sorted ranges either side of a pivot that separates them form one sorted range. */
  lemma JoinAroundPivot<T>(s: seq<T>, key: T -> real, reverse: bool, low: int, pi: int, high: int)
    requires 0 <= low <= pi <= high < |s|
    requires forall i, j :: low <= i < j < pi ==> InOrder(key(s[i]), key(s[j]), reverse)
    requires forall i, j :: pi < i < j <= high ==> InOrder(key(s[i]), key(s[j]), reverse)
    requires forall k :: low <= k < pi ==> Precedes(key(s[k]), key(s[pi]), reverse)
    requires forall k :: pi < k <= high ==> !Precedes(key(s[k]), key(s[pi]), reverse)
    ensures forall i, j :: low <= i < j <= high ==> InOrder(key(s[i]), key(s[j]), reverse)
  {
  }

  /**
   * The reasoning behind one level of quicksort_recursive: `s0` is the range
   * after partitioning around the pivot at `pi`, `s1` after sorting its left
   * part and `s2` after sorting its right part.
   */
  lemma RecursionStep<T>(s0: seq<T>, s1: seq<T>, s2: seq<T>, key: T -> real, reverse: bool, low: int, pi: int, high: int)
    requires |s0| == |s1| == |s2| && 0 <= low <= pi <= high < |s0|
    requires forall k :: low <= k < pi ==> Precedes(key(s0[k]), key(s0[pi]), reverse)
    requires forall k :: pi < k <= high ==> !Precedes(key(s0[k]), key(s0[pi]), reverse)
    requires forall k :: 0 <= k < |s0| && !(low <= k <= pi - 1) ==> s1[k] == s0[k]
    requires multiset(s1[low..pi]) == multiset(s0[low..pi])
    requires forall i, j :: low <= i < j <= pi - 1 ==> InOrder(key(s1[i]), key(s1[j]), reverse)
    requires forall k :: 0 <= k < |s1| && !(pi + 1 <= k <= high) ==> s2[k] == s1[k]
    requires multiset(s2[pi + 1..high + 1]) == multiset(s1[pi + 1..high + 1])
    requires forall i, j :: pi + 1 <= i < j <= high ==> InOrder(key(s2[i]), key(s2[j]), reverse)
    ensures multiset(s2[low..high + 1]) == multiset(s0[low..high + 1])
    ensures forall i, j :: low <= i < j <= high ==> InOrder(key(s2[i]), key(s2[j]), reverse)
  {
    SidesKeepMultiset(s0, s1, s2, low, pi, high);
    SidesKeepPivotRelation(s0, s1, s2, key, reverse, low, pi, high);
    JoinAroundPivot(s2, key, reverse, low, pi, high);
  }

  /** Sorting the two sides in turn keeps the multiset of the whole range. */
  lemma SidesKeepMultiset<T>(s0: seq<T>, s1: seq<T>, s2: seq<T>, low: int, pi: int, high: int)
    requires |s0| == |s1| == |s2| && 0 <= low <= pi <= high < |s0|
    requires forall k :: 0 <= k < |s0| && !(low <= k <= pi - 1) ==> s1[k] == s0[k]
    requires multiset(s1[low..pi]) == multiset(s0[low..pi])
    requires forall k :: 0 <= k < |s1| && !(pi + 1 <= k <= high) ==> s2[k] == s1[k]
    requires multiset(s2[pi + 1..high + 1]) == multiset(s1[pi + 1..high + 1])
    ensures multiset(s2[low..high + 1]) == multiset(s0[low..high + 1])
  {
    assert s1[pi..high + 1] == s0[pi..high + 1];
    SubrangeKeepsMultiset(s0, s1, low, pi, high + 1);
    assert s2[low..pi + 1] == s1[low..pi + 1];
    assert s2[low..high + 1] == s2[low..pi + 1] + s2[pi + 1..high + 1];
    assert s1[low..high + 1] == s1[low..pi + 1] + s1[pi + 1..high + 1];
  }

  lemma SidesKeepPivotRelation<T>(s0: seq<T>, s1: seq<T>, s2: seq<T>, key: T -> real, reverse: bool, low: int, pi: int, high: int)
    requires |s0| == |s1| == |s2| && 0 <= low <= pi <= high < |s0|
    requires forall k :: low <= k < pi ==> Precedes(key(s0[k]), key(s0[pi]), reverse)
    requires forall k :: pi < k <= high ==> !Precedes(key(s0[k]), key(s0[pi]), reverse)
    requires forall k :: 0 <= k < |s0| && !(low <= k <= pi - 1) ==> s1[k] == s0[k]
    requires multiset(s1[low..pi]) == multiset(s0[low..pi])
    requires forall k :: 0 <= k < |s1| && !(pi + 1 <= k <= high) ==> s2[k] == s1[k]
    requires multiset(s2[pi + 1..high + 1]) == multiset(s1[pi + 1..high + 1])
    ensures forall k :: low <= k < pi ==> Precedes(key(s2[k]), key(s2[pi]), reverse)
    ensures forall k :: pi < k <= high ==> !Precedes(key(s2[k]), key(s2[pi]), reverse)
  {
    var pivot := key(s0[pi]);
    assert s2[pi] == s0[pi];
    forall m | 0 <= m < pi - low ensures Precedes(key(s0[low..pi][m]), pivot, reverse) {
      assert s0[low..pi][m] == s0[low + m];
    }
    AllPreserved(s0[low..pi], s1[low..pi], x => Precedes(key(x), pivot, reverse));
    forall k | low <= k < pi ensures Precedes(key(s2[k]), pivot, reverse) {
      assert s2[k] == s1[low..pi][k - low];
    }
    var right := s1[pi + 1..high + 1];
    forall m | 0 <= m < |right| ensures !Precedes(key(right[m]), pivot, reverse) {
      assert right[m] == s0[pi + 1 + m];
    }
    AllPreserved(right, s2[pi + 1..high + 1], x => !Precedes(key(x), pivot, reverse));
    forall k | pi < k <= high ensures !Precedes(key(s2[k]), pivot, reverse) {
      assert s2[k] == s2[pi + 1..high + 1][k - pi - 1];
    }
  }

  /** quicksort_recursive(low, high): sorts the inclusive range [low, high] in place. */
  method QuicksortRange<T>(a: array<T>, key: T -> real, reverse: bool, low: int, high: int)
    requires 0 <= low <= high + 1 <= a.Length
    modifies a
    ensures forall i, j :: low <= i < j <= high ==> InOrder(key(a[i]), key(a[j]), reverse)
    ensures forall k :: 0 <= k < a.Length && !(low <= k <= high) ==> a[k] == old(a[k])
    ensures multiset(a[low..high + 1]) == old(multiset(a[low..high + 1]))
    decreases high - low
  {
    if low < high {
      var pi := Partition(a, key, reverse, low, high);
      ghost var s0 := a[..];
      QuicksortRange(a, key, reverse, low, pi - 1);
      ghost var s1 := a[..];
      QuicksortRange(a, key, reverse, pi + 1, high);
      RecursionStep(s0, s1, a[..], key, reverse, low, pi, high);
    }
  }

  /**
   * QuickSort.sort(arr, key, reverse): a new sequence holding the same elements,
   * ordered by key (descending when `reverse`); the input is a value and is
   * therefore never changed.
   */
  method Sort<T>(arr: seq<T>, key: T -> real, reverse: bool) returns (result: seq<T>)
    ensures multiset(result) == multiset(arr)
    ensures SortedBy(result, key, reverse)
  {
    if |arr| == 0 {
      return [];
    }
    var a := new T[|arr|](i requires 0 <= i < |arr| => arr[i]);
    assert a[0..a.Length] == arr;
    QuicksortRange(a, key, reverse, 0, a.Length - 1);
    assert a[..] == a[0..a.Length];
    result := a[..];
  }

  /** Inserts `x` before the first element of `s` that is not below it. */
  function Insert(x: real, s: seq<real>): seq<real> {
    if |s| == 0 then [x]
    else if x <= s[0] then [x] + s
    else [s[0]] + Insert(x, s[1..])
  }

  /**
   * The ascending arrangement of a sequence of numbers, by insertion: the
   * reference for what QuickSort.sort returns on numbers without a key.
   */
  function SortedValues(s: seq<real>): seq<real> {
    if |s| == 0 then [] else Insert(s[0], SortedValues(s[1..]))
  }

  lemma {:induction false} InsertKeepsOrder(x: real, s: seq<real>)
    requires Ascending(s)
    ensures multiset(Insert(x, s)) == multiset(s) + multiset{x}
    ensures Ascending(Insert(x, s))
  {
    InsertAddsElement(x, s);
    InsertAscending(x, s);
  }

  lemma {:induction false} InsertAddsElement(x: real, s: seq<real>)
    ensures multiset(Insert(x, s)) == multiset(s) + multiset{x}
  {
    if |s| > 0 {
      assert s == [s[0]] + s[1..];
      if x > s[0] {
        InsertAddsElement(x, s[1..]);
        assert Insert(x, s) == [s[0]] + Insert(x, s[1..]);
      } else {
        assert Insert(x, s) == [x] + s;
      }
    }
  }

  /** A lower bound of `x` and of all of `s` bounds everything after inserting. */
  lemma {:induction false} InsertLowerBound(x: real, s: seq<real>, b: real)
    requires b <= x
    requires forall k :: 0 <= k < |s| ==> b <= s[k]
    ensures forall k :: 0 <= k < |Insert(x, s)| ==> b <= Insert(x, s)[k]
  {
    if |s| > 0 && x > s[0] {
      InsertLowerBound(x, s[1..], b);
      assert Insert(x, s) == [s[0]] + Insert(x, s[1..]);
    }
  }

  lemma {:induction false} InsertAscending(x: real, s: seq<real>)
    requires Ascending(s)
    ensures Ascending(Insert(x, s))
  {
    if |s| > 0 && x > s[0] {
      var rest := Insert(x, s[1..]);
      InsertAscending(x, s[1..]);
      InsertLowerBound(x, s[1..], s[0]);
      assert Insert(x, s) == [s[0]] + rest;
    }
  }

  /** The reference sort returns an ascending permutation of its input. */
  lemma {:induction false} SortedValuesSorts(s: seq<real>)
    ensures multiset(SortedValues(s)) == multiset(s)
    ensures Ascending(SortedValues(s))
  {
    if |s| > 0 {
      SortedValuesSorts(s[1..]);
      InsertKeepsOrder(s[0], SortedValues(s[1..]));
      assert s == [s[0]] + s[1..];
    }
  }

  /** Two ascending arrangements of the same multiset of numbers are equal. */
  lemma {:induction false} AscendingPermutationUnique(x: seq<real>, y: seq<real>)
    requires Ascending(x) && Ascending(y)
    requires multiset(x) == multiset(y)
    ensures x == y
  {
    assert |x| == |multiset(x)| == |multiset(y)| == |y|;
    if |x| > 0 {
      SameLeast(x, y);
      WithoutHead(x);
      WithoutHead(y);
      AscendingPermutationUnique(x[1..], y[1..]);
      assert x == [x[0]] + x[1..];
      assert y == [y[0]] + y[1..];
    }
  }

  /** Ascending arrangements of the same numbers start with the same, least, number. */
  lemma SameLeast(x: seq<real>, y: seq<real>)
    requires Ascending(x) && Ascending(y)
    requires multiset(x) == multiset(y) && |x| > 0 && |y| > 0
    ensures x[0] == y[0]
  {
    assert x[0] in multiset(y);
    var j :| 0 <= j < |y| && y[j] == x[0];
    assert y[0] in multiset(x);
    var i :| 0 <= i < |x| && x[i] == y[0];
  }

  lemma WithoutHead(x: seq<real>)
    requires |x| > 0
    ensures multiset(x[1..]) == multiset(x) - multiset{x[0]}
    ensures Ascending(x) ==> Ascending(x[1..])
  {
    assert x == [x[0]] + x[1..];
  }

  /** Sorting numbers with the identity key yields exactly their ascending arrangement. */
  method SortValues(data: seq<real>) returns (sorted: seq<real>)
    ensures sorted == SortedValues(data)
  {
    sorted := Sort(data, Identity, false);
    SortedByIdentity(sorted);
    SortedValuesSorts(data);
    AscendingPermutationUnique(sorted, SortedValues(data));
  }
}
