/** The list operations the client code uses on arrays: `filter`, grouping by
    a key, counting, and sorting with a comparator. */
module SeqUtil {

  /** `s.filter(p)`. */
  function Filter<T>(s: seq<T>, p: T -> bool): (r: seq<T>)
    ensures |r| <= |s|
    ensures forall i :: 0 <= i < |r| ==> p(r[i])
    decreases |s|
  {
    if s == [] then [] else (if p(s[0]) then [s[0]] else []) + Filter(s[1..], p)
  }

  /** a can be obtained from b by deleting elements: the kept ones stay in order. */
  predicate IsSubseq<T(==)>(a: seq<T>, b: seq<T>)
    decreases |b|
  {
    if a == [] then true
    else if b == [] then false
    else (a[0] == b[0] && IsSubseq(a[1..], b[1..])) || IsSubseq(a, b[1..])
  }

  lemma {:induction false} IsSubseqRefl<T>(s: seq<T>)
    ensures IsSubseq(s, s)
    decreases |s|
  {
    if s != [] {
      IsSubseqRefl(s[1..]);
    }
  }

  /** An element is kept by the filter exactly when it is in the input and satisfies p. */
  lemma {:induction false} FilterMembership<T>(s: seq<T>, p: T -> bool, x: T)
    ensures x in Filter(s, p) <==> x in s && p(x)
    decreases |s|
  {
    if s != [] {
      FilterMembership(s[1..], p, x);
      assert x in s <==> x == s[0] || x in s[1..];
    }
  }

  /** The filter keeps the order of the input. */
  lemma {:induction false} FilterIsSubseq<T>(s: seq<T>, p: T -> bool)
    ensures IsSubseq(Filter(s, p), s)
    decreases |s|
  {
    if s != [] {
      FilterIsSubseq(s[1..], p);
      var r := Filter(s[1..], p);
      if p(s[0]) {
        assert Filter(s, p) == [s[0]] + r;
        assert ([s[0]] + r)[1..] == r;
      } else {
        assert Filter(s, p) == r;
      }
    }
  }

  /** A filter whose predicate holds of every element returns its input unchanged. */
  lemma {:induction false} FilterAll<T>(s: seq<T>, p: T -> bool)
    requires forall i :: 0 <= i < |s| ==> p(s[i])
    ensures Filter(s, p) == s
    decreases |s|
  {
    if s != [] {
      FilterAll(s[1..], p);
    }
  }

  lemma {:induction false} FilterConcat<T>(a: seq<T>, b: seq<T>, p: T -> bool)
    ensures Filter(a + b, p) == Filter(a, p) + Filter(b, p)
    decreases |a|
  {
    if a == [] {
      assert a + b == b;
    } else {
      assert (a + b)[1..] == a[1..] + b;
      FilterConcat(a[1..], b, p);
    }
  }

  /** Number of elements satisfying p: `s.filter(p).length`. */
  function Count<T>(s: seq<T>, p: T -> bool): nat {
    |Filter(s, p)|
  }

  /** Two predicates that never hold together count disjoint sets of elements. */
  lemma {:induction false} CountDisjoint<T>(s: seq<T>, p: T -> bool, q: T -> bool)
    requires forall x :: !(p(x) && q(x))
    ensures Count(s, p) + Count(s, q) <= |s|
    decreases |s|
  {
    if s != [] {
      CountDisjoint(s[1..], p, q);
    }
  }

  // ---------------------------------------------------------------------------
  // Grouping by key

  /** The elements whose key is k, in input order. */
  function Bucket<T, K(==)>(s: seq<T>, key: T -> K, k: K): seq<T> {
    Filter(s, x => key(x) == k)
  }

  /** The bucket of k holds exactly the input elements whose key is k, in input order. */
  lemma BucketSpec<T, K>(s: seq<T>, key: T -> K, k: K)
    ensures forall x :: x in Bucket(s, key, k) <==> x in s && key(x) == k
    ensures IsSubseq(Bucket(s, key, k), s)
  {
    forall x ensures x in Bucket(s, key, k) <==> x in s && key(x) == k {
      FilterMembership(s, x => key(x) == k, x);
    }
    FilterIsSubseq(s, x => key(x) == k);
  }

  /** Grouping a concatenation groups each part. */
  lemma BucketConcat<T, K>(a: seq<T>, b: seq<T>, key: T -> K, k: K)
    ensures Bucket(a + b, key, k) == Bucket(a, key, k) + Bucket(b, key, k)
  {
    FilterConcat(a, b, x => key(x) == k);
  }

  /** A key no element carries has an empty bucket. */
  lemma BucketAbsent<T, K>(s: seq<T>, key: T -> K, k: K)
    requires !KeyOccurs(s, key, k)
    ensures Bucket(s, key, k) == []
  {
    var b := Bucket(s, key, k);
    if b != [] {
      FilterMembership(s, x => key(x) == k, b[0]);
    }
  }

  /** No value occurs twice. */
  predicate NoDup<K(==)>(ks: seq<K>) {
    forall i, j :: 0 <= i < j < |ks| ==> ks[i] != ks[j]
  }

  /** The keys of s in order of first occurrence: the order in which `reduce`
      creates the buckets of an object keyed by non-numeric strings. */
  function KeyOrder<T, K(==)>(s: seq<T>, key: T -> K): (ks: seq<K>)
    ensures |ks| <= |s|
    decreases |s|
  {
    if s == [] then []
    else
      var rest := KeyOrder(s[..|s| - 1], key);
      if key(s[|s| - 1]) in rest then rest else rest + [key(s[|s| - 1])]
  }

  /** Some element of s has key k. */
  ghost predicate KeyOccurs<T, K>(s: seq<T>, key: T -> K, k: K) {
    exists i :: 0 <= i < |s| && key(s[i]) == k
  }

  lemma {:induction false} KeyOrderSpec<T, K>(s: seq<T>, key: T -> K)
    ensures NoDup(KeyOrder(s, key))
    ensures forall k :: k in KeyOrder(s, key) <==> KeyOccurs(s, key, k)
    decreases |s|
  {
    if s != [] {
      var init := s[..|s| - 1];
      KeyOrderSpec(init, key);
      forall k ensures KeyOccurs(s, key, k) <==> KeyOccurs(init, key, k) || key(s[|s| - 1]) == k {
        if KeyOccurs(s, key, k) {
          var i :| 0 <= i < |s| && key(s[i]) == k;
          if i < |init| { assert init[i] == s[i]; }
        }
        if KeyOccurs(init, key, k) {
          var i :| 0 <= i < |init| && key(init[i]) == k;
          assert s[i] == init[i];
        }
      }
    }
  }

  /** A sequence without repetitions has as many elements as its set. */
  lemma {:induction false} NoDupCard<K>(ks: seq<K>)
    requires NoDup(ks)
    ensures |set k | k in ks| == |ks|
    decreases |ks|
  {
    if ks != [] {
      var rest := ks[1..];
      assert NoDup(rest) by {
        forall i, j | 0 <= i < j < |rest| ensures rest[i] != rest[j] {
          assert rest[i] == ks[i + 1] && rest[j] == ks[j + 1];
        }
      }
      NoDupCard(rest);
      assert (set k | k in ks) == (set k | k in rest) + {ks[0]};
      assert ks[0] !in rest;
    }
  }

  /** No value occurs twice exactly when every multiplicity is at most one. */
  lemma {:induction false} NoDupMultiset<K>(ks: seq<K>)
    ensures NoDup(ks) <==> forall x :: multiset(ks)[x] <= 1
    decreases |ks|
  {
    if ks != [] {
      var rest := ks[1..];
      NoDupMultiset(rest);
      assert ks == [ks[0]] + rest;
      assert multiset(ks) == multiset{ks[0]} + multiset(rest);
      if NoDup(ks) {
        assert NoDup(rest) by {
          forall i, j | 0 <= i < j < |rest| ensures rest[i] != rest[j] {
            assert rest[i] == ks[i + 1] && rest[j] == ks[j + 1];
          }
        }
        assert ks[0] !in rest;
        assert multiset(rest)[ks[0]] == 0;
      }
      if forall x :: multiset(ks)[x] <= 1 {
        assert forall x :: multiset(rest)[x] <= 1 by {
          forall x ensures multiset(rest)[x] <= 1 {
            assert multiset(ks)[x] <= 1;
          }
        }
        assert multiset(ks)[ks[0]] <= 1;
        assert ks[0] !in multiset(rest);
        forall i, j | 0 <= i < j < |ks| ensures ks[i] != ks[j] {
          if i == 0 {
            assert ks[j] == rest[j - 1];
            assert rest[j - 1] in multiset(rest);
          } else {
            assert ks[i] == rest[i - 1] && ks[j] == rest[j - 1];
          }
        }
      }
    }
  }

  /** A permutation of a sequence without repetitions has none either. */
  lemma NoDupPermutation<K>(a: seq<K>, b: seq<K>)
    requires multiset(a) == multiset(b) && NoDup(a)
    ensures NoDup(b)
  {
    NoDupMultiset(a);
    NoDupMultiset(b);
  }

  /** The buckets of ks, one after the other. */
  function ConcatBuckets<T, K(==)>(s: seq<T>, key: T -> K, ks: seq<K>): seq<T>
    decreases |ks|
  {
    if ks == [] then [] else Bucket(s, key, ks[0]) + ConcatBuckets(s, key, ks[1..])
  }

  /** The elements whose key is in K. */
  function KeyIn<T, K(==)>(s: seq<T>, key: T -> K, K: set<K>): seq<T> {
    Filter(s, x => key(x) in K)
  }

  lemma {:induction false} KeyInSplit<T, K>(s: seq<T>, key: T -> K, K: set<K>, k: K)
    requires k in K
    ensures multiset(KeyIn(s, key, K)) == multiset(Bucket(s, key, k)) + multiset(KeyIn(s, key, K - {k}))
    decreases |s|
  {
    if s != [] {
      KeyInSplit(s[1..], key, K, k);
    }
  }

  lemma {:induction false} ConcatBucketsKeyIn<T, K>(s: seq<T>, key: T -> K, ks: seq<K>)
    requires NoDup(ks)
    ensures multiset(ConcatBuckets(s, key, ks)) == multiset(KeyIn(s, key, set k | k in ks))
    decreases |ks|
  {
    var K := set k | k in ks;
    if ks == [] {
      assert K == {};
      KeyInNone(s, key, K);
    } else {
      ConcatBucketsKeyIn(s, key, ks[1..]);
      assert (set k | k in ks[1..]) == K - {ks[0]} by {
        forall k ensures k in ks[1..] <==> k in ks && k != ks[0] {
          if k in ks[1..] {
            var j :| 0 <= j < |ks[1..]| && ks[1..][j] == k;
            assert ks[j + 1] == k;
          }
          if k in ks && k != ks[0] {
            var j :| 0 <= j < |ks| && ks[j] == k;
            assert ks[1..][j - 1] == k;
          }
        }
      }
      KeyInSplit(s, key, K, ks[0]);
    }
  }

  lemma {:induction false} KeyInNone<T, K>(s: seq<T>, key: T -> K, K: set<K>)
    requires K == {}
    ensures KeyIn(s, key, K) == []
    decreases |s|
  {
    if s != [] {
      KeyInNone(s[1..], key, K);
    }
  }

  /** Grouping loses and duplicates nothing: when ks lists every key once,
      the buckets together are a permutation of the input. */
  lemma ConcatBucketsPermutation<T, K>(s: seq<T>, key: T -> K, ks: seq<K>)
    requires NoDup(ks)
    requires forall i :: 0 <= i < |s| ==> key(s[i]) in ks
    ensures multiset(ConcatBuckets(s, key, ks)) == multiset(s)
  {
    var K := set k | k in ks;
    ConcatBucketsKeyIn(s, key, ks);
    assert forall i :: 0 <= i < |s| ==> key(s[i]) in K;
    FilterAll(s, x => key(x) in K);
  }

  // ---------------------------------------------------------------------------
  // Sorting with a comparator

  /** le is total and transitive: what `Array.prototype.sort` needs of a comparator. */
  ghost predicate TotalPreorder<T(!new)>(le: (T, T) -> bool) {
    && (forall a, b :: le(a, b) || le(b, a))
    && (forall a, b, c :: le(a, b) && le(b, c) ==> le(a, c))
  }

  ghost predicate Sorted<T>(s: seq<T>, le: (T, T) -> bool) {
    forall i, j :: 0 <= i < j < |s| ==> le(s[i], s[j])
  }

  /** Insert x before the first element it is le to. */
  function Insert<T>(x: T, t: seq<T>, le: (T, T) -> bool): (r: seq<T>)
    ensures multiset(r) == multiset(t) + multiset{x}
    decreases |t|
  {
    if t == [] then [x]
    else if le(x, t[0]) then [x] + t
    else
      assert t == [t[0]] + t[1..];
      [t[0]] + Insert(x, t[1..], le)
  }

  /** A stable insertion sort: the sequence `s.sort(cmp)` yields for a consistent comparator. */
  function SortBy<T>(s: seq<T>, le: (T, T) -> bool): (r: seq<T>)
    ensures multiset(r) == multiset(s)
    decreases |s|
  {
    if s == [] then []
    else
      assert s == [s[0]] + s[1..];
      Insert(s[0], SortBy(s[1..], le), le)
  }

  lemma {:induction false} InsertSorted<T(!new)>(x: T, t: seq<T>, le: (T, T) -> bool)
    requires TotalPreorder(le) && Sorted(t, le)
    ensures Sorted(Insert(x, t, le), le)
    decreases |t|
  {
    if t != [] && !le(x, t[0]) {
      InsertSorted(x, t[1..], le);
      var r := Insert(x, t[1..], le);
      forall y | y in r ensures le(t[0], y) {
        assert y in multiset(r);
        if y != x {
          assert y in multiset(t[1..]);
          var j :| 0 <= j < |t[1..]| && t[1..][j] == y;
          assert t[j + 1] == y;
        }
      }
    }
  }

  /** The result of SortBy is sorted and is a permutation of the input. */
  lemma {:induction false} SortBySorted<T(!new)>(s: seq<T>, le: (T, T) -> bool)
    requires TotalPreorder(le)
    ensures Sorted(SortBy(s, le), le)
    ensures multiset(SortBy(s, le)) == multiset(s)
    decreases |s|
  {
    if s != [] {
      SortBySorted(s[1..], le);
      InsertSorted(s[0], SortBy(s[1..], le), le);
    }
  }

  /** Inserting x into t puts it after the first k elements when x is not
      le to any of them and k is the end of t or x is le to t[k]. */
  lemma {:induction false} InsertAt<T>(x: T, t: seq<T>, le: (T, T) -> bool, k: nat)
    requires k <= |t|
    requires forall m :: 0 <= m < k ==> !le(x, t[m])
    requires k == |t| || le(x, t[k])
    ensures Insert(x, t, le) == t[..k] + [x] + t[k..]
    decreases k
  {
    if k > 0 {
      var u := t[1..];
      forall m | 0 <= m < k - 1 ensures !le(x, u[m]) {
        assert u[m] == t[m + 1];
      }
      assert k - 1 < |u| ==> u[k - 1] == t[k];
      InsertAt(x, u, le, k - 1);
      InsertPast(x, t, le);
      SplitAfterHead(t, x, k);
    } else {
      InsertFront(x, t, le);
      assert t[..0] == [];
      assert t[0..] == t;
    }
  }

  /** x goes in front of t when t is empty or x is le to its head. */
  lemma InsertFront<T>(x: T, t: seq<T>, le: (T, T) -> bool)
    requires t == [] || le(x, t[0])
    ensures Insert(x, t, le) == [x] + t
  {
  }

  /** x goes past the head of t when it is not le to it. */
  lemma InsertPast<T>(x: T, t: seq<T>, le: (T, T) -> bool)
    requires t != [] && !le(x, t[0])
    ensures Insert(x, t, le) == [t[0]] + Insert(x, t[1..], le)
  {
  }

  /** Placing x after k > 0 elements of t keeps the head of t in front. */
  lemma SplitAfterHead<T>(t: seq<T>, x: T, k: nat)
    requires 0 < k <= |t|
    ensures t[..k] + [x] + t[k..] == [t[0]] + (t[1..][..k - 1] + [x] + t[1..][k - 1..])
  {
    assert t[1..][..k - 1] == t[1..k];
    assert t[1..][k - 1..] == t[k..];
    assert t[..k] == [t[0]] + t[1..k];
  }

  /** One step of the sort: a[i] is swapped rightwards past the elements
      it is not le to, so that the suffix from i becomes the insertion of
      the old a[i] into the old suffix after it. */
  method InsertInto<T>(a: array<T>, i: nat, le: (T, T) -> bool)
    requires i < a.Length
    modifies a
    ensures a[..] == old(a[..i]) + Insert(old(a[i]), old(a[i + 1..]), le)
  {
    var x := a[i];
    ghost var pre := a[..i];
    ghost var t := a[i + 1..];
    StartInsert(a[..], i);
    var k := ShiftPast(a, i, x, pre, t, le);
    EndInsert(a[..], pre, x, t, k, le);
  }

  /** The loop of InsertInto: x, sitting k places into t, moves right while
      it is not le to its right neighbour. */
  method ShiftPast<T>(a: array<T>, i: nat, x: T, ghost pre: seq<T>, ghost t: seq<T>, le: (T, T) -> bool)
      returns (k: nat)
    requires i == |pre| && Placed(a[..], pre, x, t, 0)
    modifies a
    ensures Placed(a[..], pre, x, t, k) && Passed(x, t, k, le)
    ensures i + k + 1 == a.Length || (i + k + 1 < a.Length && le(x, a[i + k + 1]))
  {
    k := 0;
    while i + k + 1 < a.Length && !le(x, a[i + k + 1])
      invariant Placed(a[..], pre, x, t, k)
      invariant Passed(x, t, k, le)
      decreases |t| - k
    {
      SwapNext(a, i + k, pre, x, t, k);
      PassOne(x, t, k, le);
      k := k + 1;
    }
  }

  /** x is not le to any of the first k elements of t. */
  ghost predicate Passed<T>(x: T, t: seq<T>, k: nat, le: (T, T) -> bool) {
    k <= |t| && forall m :: 0 <= m < k ==> !le(x, t[m])
  }

  lemma PassOne<T>(x: T, t: seq<T>, k: nat, le: (T, T) -> bool)
    requires Passed(x, t, k, le) && k < |t| && !le(x, t[k])
    ensures Passed(x, t, k + 1, le)
  {
  }

  /** q is pre, then the first k elements of t, then x, then the rest of t. */
  ghost predicate Placed<T>(q: seq<T>, pre: seq<T>, x: T, t: seq<T>, k: nat) {
    k <= |t| && q == pre + (t[..k] + [x] + t[k..])
  }

  /** Before the first swap, q is its prefix, q[i] and the rest. */
  lemma StartInsert<T>(q: seq<T>, i: nat)
    requires i < |q|
    ensures Placed(q, q[..i], q[i], q[i + 1..], 0)
  {
    assert q[i + 1..][..0] == [];
    assert q[i + 1..][0..] == q[i + 1..];
    assert q == q[..i] + [q[i]] + q[i + 1..];
  }

  /** Exchanges a[j] and a[j + 1], where x stands at j with the first k
      elements of t before it. */
  method SwapNext<T>(a: array<T>, j: nat, ghost pre: seq<T>, ghost x: T, ghost t: seq<T>, ghost k: nat)
    requires Placed(a[..], pre, x, t, k) && j == |pre| + k && j + 1 < a.Length
    modifies a
    ensures k < |t| && old(a[j + 1]) == t[k]
    ensures Placed(a[..], pre, x, t, k + 1)
  {
    SwapStep(a[..], pre, x, t, k);
    a[j], a[j + 1] := a[j + 1], a[j];
    assert a[..] == old(a[..])[j := t[k]][j + 1 := x];
  }

  /** Moving x one place right past t[k], behind an untouched prefix. */
  lemma SwapStep<T>(q: seq<T>, pre: seq<T>, x: T, t: seq<T>, k: nat)
    requires Placed(q, pre, x, t, k) && |pre| + k + 1 < |q|
    ensures k < |t| && q[|pre| + k] == x && q[|pre| + k + 1] == t[k]
    ensures Placed(q[|pre| + k := t[k]][|pre| + k + 1 := x], pre, x, t, k + 1)
  {
    var w := t[..k] + [x] + t[k..];
    assert q[|pre| + k] == w[k] == x;
    assert q[|pre| + k + 1] == w[k + 1] == t[k];
    var w' := t[..k + 1] + [x] + t[k + 1..];
    assert w[k := t[k]][k + 1 := x] == w';
    assert q[|pre| + k := t[k]][|pre| + k + 1 := x] == pre + w[k := t[k]][k + 1 := x];
  }

  /** When x stops before the end or before an element it is le to, q is
      pre followed by the insertion of x into t. */
  lemma EndInsert<T>(q: seq<T>, pre: seq<T>, x: T, t: seq<T>, k: nat, le: (T, T) -> bool)
    requires Placed(q, pre, x, t, k)
    requires Passed(x, t, k, le)
    requires |pre| + k + 1 == |q| || (|pre| + k + 1 < |q| && le(x, q[|pre| + k + 1]))
    ensures q == pre + Insert(x, t, le)
  {
    if |pre| + k + 1 < |q| {
      SwapStep(q, pre, x, t, k);
    }
    InsertAt(x, t, le, k);
  }

  /** Sorts a in place, element by element from the back: the result is
      exactly SortBy of the original contents. */
  method InsertionSort<T>(a: array<T>, le: (T, T) -> bool)
    modifies a
    ensures a[..] == SortBy(old(a[..]), le)
  {
    ghost var s := a[..];
    var i := a.Length;
    assert a[..] == s[..i] + SortBy(s[i..], le);
    while i > 0
      invariant 0 <= i <= a.Length
      invariant a[..] == s[..i] + SortBy(s[i..], le)
    {
      i := i - 1;
      ghost var rest := SortBy(s[i + 1..], le);
      SortByStep(s, i, le);
      PrefixStep(s, i, rest);
      Pieces(a[..], s[..i], s[i], rest);
      InsertInto(a, i, le);
    }
    assert s[0..] == s;
  }

  /** SortBy on a non-empty sequence inserts its head into the sorted tail. */
  lemma SortByCons<T>(s: seq<T>, le: (T, T) -> bool)
    requires s != []
    ensures SortBy(s, le) == Insert(s[0], SortBy(s[1..], le), le)
  {
  }

  /** Growing the sorted suffix of s by one element. */
  lemma SortByStep<T>(s: seq<T>, i: nat, le: (T, T) -> bool)
    requires i < |s|
    ensures SortBy(s[i..], le) == Insert(s[i], SortBy(s[i + 1..], le), le)
  {
    var u := s[i..];
    assert u[0] == s[i];
    assert u[1..] == s[i + 1..];
    SortByCons(u, le);
  }

  /** Moving the boundary of a prefix one element left. */
  lemma PrefixStep<T>(s: seq<T>, i: nat, rest: seq<T>)
    requires i < |s|
    ensures s[..i + 1] + rest == s[..i] + ([s[i]] + rest)
  {
    assert s[..i + 1] == s[..i] + [s[i]];
  }

  /** Reading the prefix, the element and the rest back out of q. */
  lemma Pieces<T>(q: seq<T>, p: seq<T>, y: T, r: seq<T>)
    requires q == p + ([y] + r)
    ensures q[..|p|] == p && q[|p|] == y && q[|p| + 1..] == r
  {
    assert q[..|p|] == p;
    assert q[|p| + 1..] == r;
  }
}
