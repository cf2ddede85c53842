/**
 * The list operations the ledger is built from: Kotlin's `filter`,
 * `distinct` (first occurrence wins) and the stable `sortedByDescending` /
 * `sortedWith`, here as one insertion sort that orders by a key under a
 * total preorder and keeps equal keys in input order.
 */
module Seqs {

  /** Kotlin's `filter`: the elements satisfying `p`, in their original order. */
  function Filter<T(!new)>(s: seq<T>, p: T -> bool): (r: seq<T>)
    ensures |r| <= |s|
    ensures forall x :: x in r <==> x in s && p(x)
  {
    if s == [] then [] else (if p(s[0]) then [s[0]] else []) + Filter(s[1..], p)
  }

  lemma {:induction false} FilterMultiset<T(!new)>(s: seq<T>, p: T -> bool, x: T)
    ensures multiset(Filter(s, p))[x] == if p(x) then multiset(s)[x] else 0
  {
    if s != [] {
      FilterMultiset(s[1..], p, x);
      assert s == [s[0]] + s[1..];
    }
  }

  lemma {:induction false} FilterAppend<T(!new)>(a: seq<T>, b: seq<T>, p: T -> bool)
    ensures Filter(a + b, p) == Filter(a, p) + Filter(b, p)
  {
    if a == [] {
      assert a + b == b;
    } else {
      assert (a + b)[0] == a[0] && (a + b)[1..] == a[1..] + b;
      FilterAppend(a[1..], b, p);
    }
  }

  /** Two predicates that agree everywhere select the same elements. */
  lemma {:induction false} FilterExt<T(!new)>(s: seq<T>, p: T -> bool, q: T -> bool)
    requires forall x :: p(x) == q(x)
    ensures Filter(s, p) == Filter(s, q)
  {
    if s != [] {
      FilterExt(s[1..], p, q);
    }
  }

  /** Filtering twice is filtering once by the conjunction. */
  lemma {:induction false} FilterFilter<T(!new)>(s: seq<T>, p: T -> bool, q: T -> bool, pq: T -> bool)
    requires forall x :: pq(x) == (p(x) && q(x))
    ensures Filter(Filter(s, p), q) == Filter(s, pq)
  {
    if s != [] {
      FilterFilter(s[1..], p, q, pq);
      if p(s[0]) {
        assert Filter(s, p) == [s[0]] + Filter(s[1..], p);
      } else {
        assert Filter(s, p) == Filter(s[1..], p);
      }
    }
  }

  /** A filter that every element passes changes nothing. */
  lemma {:induction false} FilterKeepsAll<T(!new)>(s: seq<T>, p: T -> bool)
    requires forall x :: x in s ==> p(x)
    ensures Filter(s, p) == s
  {
    if s != [] {
      FilterKeepsAll(s[1..], p);
      assert s == [s[0]] + s[1..];
    }
  }

  /** A filter that no element passes leaves nothing. */
  lemma {:induction false} FilterNone<T(!new)>(s: seq<T>, p: T -> bool)
    requires forall x :: x in s ==> !p(x)
    ensures Filter(s, p) == []
  {
    if s != [] {
      FilterNone(s[1..], p);
    }
  }

  ghost predicate NoDuplicates<T(!new)>(s: seq<T>) {
    forall i, j :: 0 <= i < j < |s| ==> s[i] != s[j]
  }

  /** Position of the first occurrence of `x` (Kotlin's `indexOf`). */
  function FirstIndex<T(==,!new)>(s: seq<T>, x: T): (k: nat)
    requires x in s
    ensures k < |s| && s[k] == x && x !in s[..k]
  {
    if s[0] == x then 0 else 1 + FirstIndex(s[1..], x)
  }

  lemma {:induction false} FirstIndexAppend<T(!new)>(a: seq<T>, b: seq<T>, x: T)
    requires x in a
    ensures FirstIndex(a + b, x) == FirstIndex(a, x)
  {
    if a[0] != x {
      assert (a + b)[0] == a[0] && (a + b)[1..] == a[1..] + b;
      FirstIndexAppend(a[1..], b, x);
    }
  }

  /** Kotlin's `distinct()`: each element once, where it first occurs. */
  function Distinct<T(==,!new)>(s: seq<T>): (r: seq<T>)
    ensures forall x :: x in r <==> x in s
    ensures NoDuplicates(r)
    ensures |r| <= |s|
  {
    if s == [] then []
    else
      var d := Distinct(s[..|s| - 1]);
      assert forall x :: x in s <==> x in s[..|s| - 1] || x == s[|s| - 1];
      if s[|s| - 1] in d then d else d + [s[|s| - 1]]
  }

  /** `distinct()` keeps first occurrences in the order they occur. */
  lemma {:induction false} DistinctOrder<T(!new)>(s: seq<T>, i: nat, j: nat)
    requires i < j < |Distinct(s)|
    ensures FirstIndex(s, Distinct(s)[i]) < FirstIndex(s, Distinct(s)[j])
  {
    var p, x := s[..|s| - 1], s[|s| - 1];
    assert s == p + [x];
    var d := Distinct(p);
    var u, v := Distinct(s)[i], Distinct(s)[j];
    assert u in p by {
      if x !in d { assert i < |d| && u == d[i]; }
    }
    FirstIndexAppend(p, [x], u);
    if x in d {
      FirstIndexAppend(p, [x], v);
      DistinctOrder(p, i, j);
    } else if j < |d| {
      FirstIndexAppend(p, [x], v);
      DistinctOrder(p, i, j);
    } else {
      assert v == x && x !in p;
      assert FirstIndex(s, x) == |p| by {
        assert s[|p|] == x && x !in s[..|p|];
        FirstIndexIsFirst(s, x, |p|);
      }
    }
  }

  /** `DistinctOrder` for a list that puts one extra element in front of the distinct ones. */
  lemma DistinctOrderAfter<T(!new)>(head: T, s: seq<T>, i: nat, j: nat)
    requires 1 <= i < j < |[head] + Distinct(s)|
    ensures FirstIndex(s, ([head] + Distinct(s))[i]) < FirstIndex(s, ([head] + Distinct(s))[j])
  {
    var d := Distinct(s);
    assert ([head] + d)[i] == d[i - 1] && ([head] + d)[j] == d[j - 1];
    DistinctOrder(s, i - 1, j - 1);
  }

  lemma FirstIndexIsFirst<T(!new)>(s: seq<T>, x: T, k: nat)
    requires k < |s| && s[k] == x && x !in s[..k]
    ensures FirstIndex(s, x) == k
  {
  }

  // ---------------------------------------------------------------------------
  // Stable sort in descending key order

  /** `leq` is total and transitive: what `compareBy` needs of its keys. */
  ghost predicate TotalPreorder<K(!new)>(leq: (K, K) -> bool) {
    && (forall a, b :: leq(a, b) || leq(b, a))
    && (forall a, b, c :: leq(a, b) && leq(b, c) ==> leq(a, c))
  }

  /** Each element's key is at most the key of every element before it. */
  ghost predicate SortedDesc<T(!new), K(!new)>(s: seq<T>, key: T -> K, leq: (K, K) -> bool) {
    forall i, j :: 0 <= i < j < |s| ==> leq(key(s[j]), key(s[i]))
  }

  /** A prefix of a sorted sequence is sorted, and nothing after it ranks above anything in it. */
  lemma TakeSorted<T(!new), K(!new)>(s: seq<T>, n: nat, key: T -> K, leq: (K, K) -> bool)
    requires SortedDesc(s, key, leq) && n <= |s|
    ensures SortedDesc(s[..n], key, leq)
    ensures forall i, k :: 0 <= i < n <= k < |s| ==> leq(key(s[k]), key(s[..n][i]))
  {
  }

  /** Puts `x` before the first element whose key is not above `x`'s. */
  function InsertDesc<T(!new), K(!new)>(x: T, s: seq<T>, key: T -> K, leq: (K, K) -> bool): (r: seq<T>)
    ensures |r| == |s| + 1
  {
    if s == [] || leq(key(s[0]), key(x)) then [x] + s else [s[0]] + InsertDesc(x, s[1..], key, leq)
  }

  /**
   * Kotlin's stable `sortedByDescending(key)`: insertion sort from the back;
   * the head goes in front of the later elements with an equal key.
   */
  function SortDesc<T(!new), K(!new)>(s: seq<T>, key: T -> K, leq: (K, K) -> bool): (r: seq<T>)
    ensures |r| == |s|
  {
    if s == [] then [] else InsertDesc(s[0], SortDesc(s[1..], key, leq), key, leq)
  }

  /** Where `InsertDesc` puts `x`: after every element whose key is strictly above it. */
  lemma {:induction false} InsertPosition<T(!new), K(!new)>(x: T, s: seq<T>, key: T -> K, leq: (K, K) -> bool)
    returns (k: nat)
    ensures k <= |s| && InsertDesc(x, s, key, leq) == s[..k] + [x] + s[k..]
    ensures forall i :: 0 <= i < k ==> !leq(key(s[i]), key(x))
    ensures k < |s| ==> leq(key(s[k]), key(x))
  {
    if s == [] || leq(key(s[0]), key(x)) {
      k := 0;
    } else {
      var k' := InsertPosition(x, s[1..], key, leq);
      k := k' + 1;
      assert s[..k] == [s[0]] + s[1..][..k'] && s[k..] == s[1..][k'..];
    }
  }

  lemma {:induction false} InsertDescMultiset<T(!new), K(!new)>(x: T, s: seq<T>, key: T -> K, leq: (K, K) -> bool)
    ensures multiset(InsertDesc(x, s, key, leq)) == multiset(s) + multiset{x}
  {
    if s != [] && !leq(key(s[0]), key(x)) {
      InsertDescMultiset(x, s[1..], key, leq);
      assert s == [s[0]] + s[1..];
    }
  }

  lemma {:induction false} SortDescPermutation<T(!new), K(!new)>(s: seq<T>, key: T -> K, leq: (K, K) -> bool)
    ensures multiset(SortDesc(s, key, leq)) == multiset(s)
  {
    if s != [] {
      SortDescPermutation(s[1..], key, leq);
      InsertDescMultiset(s[0], SortDesc(s[1..], key, leq), key, leq);
      assert s == [s[0]] + s[1..];
    }
  }

  lemma {:induction false} SortDescSorted<T(!new), K(!new)>(s: seq<T>, key: T -> K, leq: (K, K) -> bool)
    requires TotalPreorder(leq)
    ensures SortedDesc(SortDesc(s, key, leq), key, leq)
  {
    if s != [] {
      SortDescSorted(s[1..], key, leq);
      var r := SortDesc(s[1..], key, leq);
      var x := s[0];
      var k := InsertPosition(x, r, key, leq);
      var out := r[..k] + [x] + r[k..];
      forall i, j | 0 <= i < j < |out|
        ensures leq(key(out[j]), key(out[i]))
      {
        if j < k {
          assert out[i] == r[i] && out[j] == r[j];
        } else if j == k {
          assert out[i] == r[i] && out[j] == x;
          assert !leq(key(r[i]), key(x));
        } else if i < k {
          assert out[i] == r[i] && out[j] == r[j - 1];
        } else if i == k {
          assert out[i] == x && out[j] == r[j - 1];
          assert leq(key(r[k]), key(x));
          if j - 1 > k {
            assert leq(key(r[j - 1]), key(r[k]));
          }
        } else {
          assert out[i] == r[i - 1] && out[j] == r[j - 1];
        }
      }
    }
  }

  /** The elements whose key is equivalent (under `leq`) to `k`, in order. */
  function RankClass<T(!new), K(!new)>(s: seq<T>, key: T -> K, leq: (K, K) -> bool, k: K): seq<T> {
    if s == [] then []
    else (if leq(key(s[0]), k) && leq(k, key(s[0])) then [s[0]] else []) + RankClass(s[1..], key, leq, k)
  }

  lemma {:induction false} RankClassAppend<T(!new), K(!new)>(a: seq<T>, b: seq<T>, key: T -> K, leq: (K, K) -> bool, k: K)
    ensures RankClass(a + b, key, leq, k) == RankClass(a, key, leq, k) + RankClass(b, key, leq, k)
  {
    if a == [] {
      assert a + b == b;
    } else {
      assert (a + b)[0] == a[0] && (a + b)[1..] == a[1..] + b;
      RankClassAppend(a[1..], b, key, leq, k);
    }
  }

  /** A class is the filter by any predicate that picks out exactly its members. */
  lemma {:induction false} RankClassIsFilter<T(!new), K(!new)>(s: seq<T>, key: T -> K, leq: (K, K) -> bool, k: K, p: T -> bool)
    requires forall x :: p(x) == (leq(key(x), k) && leq(k, key(x)))
    ensures RankClass(s, key, leq, k) == Filter(s, p)
  {
    if s != [] {
      RankClassIsFilter(s[1..], key, leq, k, p);
    }
  }

  lemma {:induction false} RankClassEmpty<T(!new), K(!new)>(s: seq<T>, key: T -> K, leq: (K, K) -> bool, k: K)
    requires forall i :: 0 <= i < |s| ==> !(leq(key(s[i]), k) && leq(k, key(s[i])))
    ensures RankClass(s, key, leq, k) == []
  {
    if s != [] {
      RankClassEmpty(s[1..], key, leq, k);
    }
  }

  /** Inserting `x` puts it in front of every element of its own class. */
  lemma RankClassInsert<T(!new), K(!new)>(x: T, r: seq<T>, key: T -> K, leq: (K, K) -> bool, k: K)
    requires TotalPreorder(leq)
    ensures RankClass(InsertDesc(x, r, key, leq), key, leq, k) == RankClass([x] + r, key, leq, k)
  {
    var p := InsertPosition(x, r, key, leq);
    var a, b := r[..p], r[p..];
    if leq(key(x), k) && leq(k, key(x)) {
      PrefixOutsideClass(x, a, key, leq, k);
    }
    RankClassMoveFront(x, a, b, key, leq, k);
    assert r == a + b;
  }

  /** Moving `x` in front of `a` leaves the class of `k` alone when `a` holds none of `x`'s class. */
  lemma RankClassMoveFront<T(!new), K(!new)>(x: T, a: seq<T>, b: seq<T>, key: T -> K, leq: (K, K) -> bool, k: K)
    requires leq(key(x), k) && leq(k, key(x)) ==> RankClass(a, key, leq, k) == []
    ensures RankClass(a + [x] + b, key, leq, k) == RankClass([x] + (a + b), key, leq, k)
  {
    assert a + [x] + b == a + ([x] + b);
    RankClassAppend(a, [x] + b, key, leq, k);
    RankClassAppend([x], b, key, leq, k);
    RankClassAppend(a, b, key, leq, k);
    RankClassAppend([x], a + b, key, leq, k);
  }

  lemma PrefixOutsideClass<T(!new), K(!new)>(x: T, a: seq<T>, key: T -> K, leq: (K, K) -> bool, k: K)
    requires TotalPreorder(leq)
    requires leq(k, key(x))
    requires forall i :: 0 <= i < |a| ==> !leq(key(a[i]), key(x))
    ensures RankClass(a, key, leq, k) == []
  {
    RankClassEmpty(a, key, leq, k);
  }

  /**
   * Stability: among elements with equivalent keys the sort keeps input
   * order, i.e. each equivalence class appears in the output exactly as in
   * the input.
   */
  lemma {:induction false} SortDescStable<T(!new), K(!new)>(s: seq<T>, key: T -> K, leq: (K, K) -> bool, k: K)
    requires TotalPreorder(leq)
    ensures RankClass(SortDesc(s, key, leq), key, leq, k) == RankClass(s, key, leq, k)
  {
    if s != [] {
      SortDescStable(s[1..], key, leq, k);
      var r := SortDesc(s[1..], key, leq);
      RankClassInsert(s[0], r, key, leq, k);
      RankClassAppend([s[0]], r, key, leq, k);
      RankClassAppend([s[0]], s[1..], key, leq, k);
      assert s == [s[0]] + s[1..];
    }
  }

  /** Sorting a list whose keys are already in descending order changes nothing. */
  lemma {:induction false} SortDescOfSorted<T(!new), K(!new)>(s: seq<T>, key: T -> K, leq: (K, K) -> bool)
    requires SortedDesc(s, key, leq)
    ensures SortDesc(s, key, leq) == s
  {
    if s != [] {
      assert SortedDesc(s[1..], key, leq) by {
        forall i, j | 0 <= i < j < |s[1..]| ensures leq(key(s[1..][j]), key(s[1..][i])) {
          assert s[1..][i] == s[i + 1] && s[1..][j] == s[j + 1];
        }
      }
      SortDescOfSorted(s[1..], key, leq);
      if |s| > 1 {
        assert leq(key(s[1..][0]), key(s[0]));
      }
    }
  }
}
