/**
 * Collections as the dashboard's code uses them: a JavaScript `Set` or `Map` keeps its keys in
 * insertion order, so it is modelled by the sequence of distinct keys in first-appearance order
 * (`Distinct`) together with per-key counts (`Count`); `Array.prototype.indexOf` is `IndexOfElem`;
 * `Array.prototype.sort`, which is stable, is the stable insertion sort `InsertionSort`, performed
 * in place on an array by `SortInPlace`.
 */
module Sequences {

  /** `xs.indexOf(x)` on an array: the first index holding `x`, or -1. */
  function IndexOfElem<T(==)>(xs: seq<T>, x: T): (r: int)
    ensures -1 <= r < |xs|
    ensures r >= 0 ==> xs[r] == x && forall j | 0 <= j < r :: xs[j] != x
    ensures r == -1 <==> x !in xs
  {
    if |xs| == 0 then -1
    else if xs[0] == x then 0
    else
      var r := IndexOfElem(xs[1..], x);
      assert forall j | 1 <= j < |xs| :: xs[j] == xs[1..][j - 1];
      if r < 0 then -1 else r + 1
  }

  /** The distinct elements of `s` in order of first appearance: the iteration order of a
      JavaScript `Set` filled from `s`. */
  function Distinct<T(==)>(s: seq<T>): (r: seq<T>)
    ensures forall i, j | 0 <= i < j < |r| :: r[i] != r[j]
    ensures |r| <= |s|
  {
    if |s| == 0 then []
    else
      var d := Distinct(s[..|s| - 1]);
      var x := s[|s| - 1];
      if x in d then d else d + [x]
  }

  /** The set's order holds exactly the elements of `s`. */
  lemma {:induction false} DistinctMembers<T>(s: seq<T>)
    ensures forall x :: x in Distinct(s) <==> x in s
  {
    if |s| > 0 {
      var init := s[..|s| - 1];
      DistinctMembers(init);
      assert s == init + [s[|s| - 1]];
    }
  }

  /** Adding an element to the end of the input extends the set's order only when the element is new. */
  lemma DistinctSnoc<T>(s: seq<T>, x: T)
    ensures Distinct(s + [x]) == if x in s then Distinct(s) else Distinct(s) + [x]
  {
    assert (s + [x])[..|s|] == s;
    DistinctMembers(s);
  }

  /** The set's order has one entry per distinct element of `s`. */
  lemma {:induction false} DistinctSize<T>(s: seq<T>)
    ensures |Distinct(s)| == |set x | x in s|
  {
    if |s| > 0 {
      var init := s[..|s| - 1];
      var x := s[|s| - 1];
      DistinctSize(init);
      DistinctSnoc(init, x);
      assert s == init + [x];
      assert (set y | y in s) == (set y | y in init) + {x};
    }
  }

  /** Extending a prefix by one element. */
  lemma TakeSnoc<T>(s: seq<T>, i: int)
    requires 0 <= i < |s|
    ensures s[..i + 1] == s[..i] + [s[i]]
  {
  }

  /** The prefix of full length is the whole sequence. */
  lemma TakeAll<T>(s: seq<T>)
    ensures s[..|s|] == s
  {
  }

  /** The number of occurrences of `x` in `s`. */
  function Count<T(==)>(s: seq<T>, x: T): (r: nat)
    ensures r <= |s|
    ensures r == 0 <==> x !in s
  {
    if |s| == 0 then 0
    else
      assert s == s[..|s| - 1] + [s[|s| - 1]];
      Count(s[..|s| - 1], x) + (if s[|s| - 1] == x then 1 else 0)
  }

  lemma CountSnoc<T>(s: seq<T>, y: T, x: T)
    ensures Count(s + [y], x) == Count(s, x) + (if y == x then 1 else 0)
  {
    assert (s + [y])[..|s|] == s;
  }

  /** The sum of the counts in `s` of each of `keys`. */
  function SumCounts<T(==)>(keys: seq<T>, s: seq<T>): nat {
    if |keys| == 0 then 0
    else SumCounts(keys[..|keys| - 1], s) + Count(s, keys[|keys| - 1])
  }

  lemma SumCountsSnoc<T>(keys: seq<T>, s: seq<T>, y: T)
    ensures SumCounts(keys, s + [y]) == SumCounts(keys, s) + Count(keys, y)
  {
    if |keys| > 0 {
      var init := keys[..|keys| - 1];
      SumCountsSnoc(init, s, y);
      CountSnoc(s, y, keys[|keys| - 1]);
      CountSnoc(init, keys[|keys| - 1], y);
      assert init + [keys[|keys| - 1]] == keys;
    }
  }

  /** Counting by key conserves the total: over the distinct keys of `s`, the counts add up to
      the length of `s`. This is what makes a counting `Map` lose and invent nothing. */
  lemma {:induction false} CountsAddUp<T>(s: seq<T>)
    ensures SumCounts(Distinct(s), s) == |s|
  {
    if |s| > 0 {
      var init := s[..|s| - 1];
      var x := s[|s| - 1];
      assert s == init + [x];
      CountsAddUp(init);
      DistinctSnoc(init, x);
      var d := Distinct(init);
      SumCountsSnoc(d, init, x);
      if x in init {
        CountDistinctMember(d, x);
      } else {
        assert Count(d, x) == 0;
        SumCountsSnoc(d, init, x);
        CountSnoc(init, x, x);
        assert (d + [x])[..|d|] == d;
      }
    }
  }

  /** An element that occurs in a duplicate-free sequence occurs exactly once. */
  lemma {:induction false} CountDistinctMember<T>(d: seq<T>, x: T)
    requires x in d
    requires forall i, j | 0 <= i < j < |d| :: d[i] != d[j]
    ensures Count(d, x) == 1
  {
    var init := d[..|d| - 1];
    assert d == init + [d[|d| - 1]];
    if d[|d| - 1] == x {
      assert x !in init;
    } else {
      CountDistinctMember(init, x);
    }
  }

  /** `order` is the insertion order of the counting map `counts`, and `counts` holds, for each
      key counted so far, how often it was counted. */
  ghost predicate Tallies<K>(order: seq<K>, counts: map<K, int>, keys: seq<K>) {
    && order == Distinct(keys)
    && (forall k | k in counts :: k in keys)
    && (forall k | k in keys :: k in counts && counts[k] == Count(keys, k))
  }

  /** One `counts.set(key, (counts.get(key) || 0) + 1)` for a key not counted yet: it is
      appended to the insertion order with count 1. */
  lemma TallyNew<K>(order: seq<K>, counts: map<K, int>, keys: seq<K>, key: K)
    requires Tallies(order, counts, keys) && key !in counts
    ensures Tallies(order + [key], counts[key := 1], keys + [key])
  {
    DistinctSnoc(keys, key);
    forall k | k in keys + [key]
      ensures k in counts[key := 1] && counts[key := 1][k] == Count(keys + [key], k)
    {
      CountSnoc(keys, key, k);
    }
  }

  /** The same for a key counted before: its count grows by one and the order stays. */
  lemma TallyOld<K>(order: seq<K>, counts: map<K, int>, keys: seq<K>, key: K)
    requires Tallies(order, counts, keys) && key in counts
    ensures Tallies(order, counts[key := counts[key] + 1], keys + [key])
  {
    var updated := counts[key := counts[key] + 1];
    DistinctSnoc(keys, key);
    forall k | k in updated
      ensures k in keys + [key]
    {
    }
    forall k | k in keys + [key]
      ensures k in updated && updated[k] == Count(keys + [key], k)
    {
      CountSnoc(keys, key, k);
      if k == key {
        assert updated[k] == Count(keys, k) + 1;
      } else {
        assert k in keys && updated[k] == counts[k];
      }
    }
  }

  /** The sum of a sequence of integers. */
  function Sum(s: seq<int>): int {
    if |s| == 0 then 0 else Sum(s[..|s| - 1]) + s[|s| - 1]
  }

  lemma SumSnoc(s: seq<int>, x: int)
    ensures Sum(s + [x]) == Sum(s) + x
  {
    assert (s + [x])[..|s|] == s;
  }

  /** `s` is in non-decreasing order of `key`. */
  ghost predicate SortedBy<T>(s: seq<T>, key: T -> int) {
    forall i, j | 0 <= i < j < |s| :: key(s[i]) <= key(s[j])
  }

  /** The elements of `s` whose key is `k`, in their order in `s`. */
  function WithKey<T>(s: seq<T>, key: T -> int, k: int): seq<T> {
    if |s| == 0 then []
    else WithKey(s[..|s| - 1], key, k) + (if key(s[|s| - 1]) == k then [s[|s| - 1]] else [])
  }

  lemma WithKeySnoc<T>(s: seq<T>, x: T, key: T -> int, k: int)
    ensures WithKey(s + [x], key, k) == WithKey(s, key, k) + (if key(x) == k then [x] else [])
  {
    assert (s + [x])[..|s|] == s;
  }

  /** One step of a stable insertion sort: `x` moves left past every element with a greater
      key and stops after the first one whose key is not greater. */
  function Insert<T>(t: seq<T>, x: T, key: T -> int): (r: seq<T>)
    ensures |r| == |t| + 1
  {
    if |t| == 0 then [x]
    else if key(t[|t| - 1]) > key(x) then Insert(t[..|t| - 1], x, key) + [t[|t| - 1]]
    else t + [x]
  }

  /** Inserting adds exactly the inserted element. */
  lemma {:induction false} InsertPermutes<T>(t: seq<T>, x: T, key: T -> int)
    ensures multiset(Insert(t, x, key)) == multiset(t) + multiset{x}
  {
    if |t| > 0 && key(t[|t| - 1]) > key(x) {
      assert t == t[..|t| - 1] + [t[|t| - 1]];
      InsertPermutes(t[..|t| - 1], x, key);
    }
  }

  /** A stable sort by `key`, the ordering `Array.prototype.sort` gives for a comparator
      `(a, b) => key(a) - key(b)`. */
  function InsertionSort<T>(s: seq<T>, key: T -> int): (r: seq<T>)
    ensures |r| == |s|
  {
    if |s| == 0 then []
    else Insert(InsertionSort(s[..|s| - 1], key), s[|s| - 1], key)
  }

  /** The result of `InsertionSort` is a permutation of its input. */
  lemma {:induction false} InsertionSortPermutes<T>(s: seq<T>, key: T -> int)
    ensures multiset(InsertionSort(s, key)) == multiset(s)
  {
    if |s| > 0 {
      assert s == s[..|s| - 1] + [s[|s| - 1]];
      InsertionSortPermutes(s[..|s| - 1], key);
      InsertPermutes(InsertionSort(s[..|s| - 1], key), s[|s| - 1], key);
    }
  }

  lemma {:induction false} InsertSorted<T>(t: seq<T>, x: T, key: T -> int)
    requires SortedBy(t, key)
    ensures SortedBy(Insert(t, x, key), key)
  {
    if |t| > 0 && key(t[|t| - 1]) > key(x) {
      var init := t[..|t| - 1];
      var last := t[|t| - 1];
      InsertSorted(init, x, key);
      InsertPermutes(init, x, key);
      var u := Insert(init, x, key);
      forall y | y in u ensures key(y) <= key(last) {
        assert y in multiset(u);
        if y != x {
          assert y in multiset(init);
        }
      }
      assert forall i | 0 <= i < |u| :: u[i] in u;
    }
  }

  /** The result of `InsertionSort` is sorted. */
  lemma {:induction false} InsertionSortSorted<T>(s: seq<T>, key: T -> int)
    ensures SortedBy(InsertionSort(s, key), key)
  {
    if |s| > 0 {
      InsertionSortSorted(s[..|s| - 1], key);
      InsertSorted(InsertionSort(s[..|s| - 1], key), s[|s| - 1], key);
    }
  }

  lemma {:induction false} InsertWithKey<T>(t: seq<T>, x: T, key: T -> int, k: int)
    ensures WithKey(Insert(t, x, key), key, k) == WithKey(t, key, k) + (if key(x) == k then [x] else [])
  {
    if |t| == 0 {
      assert Insert(t, x, key) == [] + [x];
      WithKeySnoc([], x, key, k);
    } else if key(t[|t| - 1]) > key(x) {
      var init := t[..|t| - 1];
      var last := t[|t| - 1];
      assert t == init + [last];
      InsertWithKey(init, x, key, k);
      WithKeySnoc(Insert(init, x, key), last, key, k);
      WithKeySnoc(init, last, key, k);
    } else {
      WithKeySnoc(t, x, key, k);
    }
  }

  /** `InsertionSort` is stable: for every key, the elements with that key keep their relative
      order. */
  lemma {:induction false} InsertionSortStable<T>(s: seq<T>, key: T -> int, k: int)
    ensures WithKey(InsertionSort(s, key), key, k) == WithKey(s, key, k)
  {
    if |s| > 0 {
      var init := s[..|s| - 1];
      InsertionSortStable(init, key, k);
      InsertWithKey(InsertionSort(init, key), s[|s| - 1], key, k);
      WithKeySnoc(init, s[|s| - 1], key, k);
      assert s == init + [s[|s| - 1]];
    }
  }

  /** A fresh array holding the elements of `s` (`Array.from`, or the copy a sort works on). */
  method ToArray<T>(s: seq<T>) returns (a: array<T>)
    ensures fresh(a) && a[..] == s
  {
    a := new T[|s|](i requires 0 <= i < |s| => s[i]);
  }

  /** Sorts `a` in place, as `a.sort((x, y) => key(x) - key(y))` does: the new contents are the
      stable sort of the old ones. */
  method SortInPlace<T>(a: array<T>, key: T -> int)
    modifies a
    ensures a[..] == InsertionSort(old(a[..]), key)
  {
    ghost var input := a[..];
    var i := 0;
    while i < a.Length
      invariant 0 <= i <= a.Length
      invariant a[..] == InsertionSort(input[..i], key) + input[i..]
    {
      SortStep(a[..], input, i, key);
      InsertNext(a, i, key);
      i := i + 1;
    }
    assert input[..a.Length] == input;
  }

  /** What one pass of the outer loop of `SortInPlace` needs to know about its array. */
  lemma SortStep<T>(now: seq<T>, input: seq<T>, i: int, key: T -> int)
    requires 0 <= i < |input| && now == InsertionSort(input[..i], key) + input[i..]
    ensures Insert(now[..i], now[i], key) + now[i + 1..]
         == InsertionSort(input[..i + 1], key) + input[i + 1..]
  {
    assert now[..i] == InsertionSort(input[..i], key);
    assert now[i] == input[i];
    assert now[i + 1..] == input[i + 1..];
    assert input[..i + 1] == input[..i] + [input[i]];
    InsertionSortSnoc(input[..i], input[i], key);
  }

  /** Moves `a[i]` left into the sorted prefix `a[..i]`, one swap at a time. */
  method InsertNext<T>(a: array<T>, i: int, key: T -> int)
    requires 0 <= i < a.Length
    modifies a
    ensures a[..] == Insert(old(a[..i]), old(a[i]), key) + old(a[i + 1..])
  {
    ghost var sorted := a[..i];
    var x := a[i];
    var j := i;
    while j > 0 && key(a[j - 1]) > key(x)
      invariant 0 <= j <= i
      invariant forall k | 0 <= k < j :: a[k] == sorted[k]
      invariant a[j] == x
      invariant forall k | j < k <= i :: a[k] == sorted[k - 1]
      invariant forall k | i < k < a.Length :: a[k] == old(a[k])
      invariant forall k | j <= k < i :: key(sorted[k]) > key(x)
    {
      a[j - 1], a[j] := x, a[j - 1];
      j := j - 1;
    }
    InsertPosition(sorted, x, key, j);
    Reassemble(a[..], old(a[..]), sorted, j, i, x);
  }

  /** `Insert` places `x` right after the last element whose key is not greater than its own. */
  lemma {:induction false} InsertPosition<T>(t: seq<T>, x: T, key: T -> int, p: int)
    requires 0 <= p <= |t|
    requires p == 0 || key(t[p - 1]) <= key(x)
    requires forall k | p <= k < |t| :: key(t[k]) > key(x)
    ensures Insert(t, x, key) == t[..p] + [x] + t[p..]
    decreases |t|
  {
    if p < |t| {
      var init := t[..|t| - 1];
      InsertPosition(init, x, key, p);
      assert init[..p] == t[..p];
      assert t[p..] == init[p..] + [t[|t| - 1]];
    }
  }

  /** The array contents described element by element, put back together as one sequence. */
  lemma Reassemble<T>(now: seq<T>, was: seq<T>, sorted: seq<T>, j: int, i: int, x: T)
    requires 0 <= j <= i < |now| == |was| && sorted == was[..i]
    requires forall k | 0 <= k < j :: now[k] == sorted[k]
    requires now[j] == x
    requires forall k | j < k <= i :: now[k] == sorted[k - 1]
    requires forall k | i < k < |now| :: now[k] == was[k]
    ensures now == sorted[..j] + [x] + sorted[j..] + was[i + 1..]
  {
  }

  lemma InsertionSortSnoc<T>(s: seq<T>, x: T, key: T -> int)
    ensures InsertionSort(s + [x], key) == Insert(InsertionSort(s, key), x, key)
  {
    assert (s + [x])[..|s|] == s;
  }
}
