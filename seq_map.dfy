/** `array.map`, and how it interacts with concatenation and permutation. */
module SeqMap {

  /** The elements of s, each through f, in order. */
  function Map<A, B>(s: seq<A>, f: A -> B): (r: seq<B>)
    ensures |r| == |s|
    ensures forall i :: 0 <= i < |s| ==> r[i] == f(s[i])
    decreases |s|
  {
    if s == [] then [] else [f(s[0])] + Map(s[1..], f)
  }

  lemma MapConcat<A, B>(u: seq<A>, v: seq<A>, f: A -> B)
    ensures Map(u + v, f) == Map(u, f) + Map(v, f)
  {
    assert forall i :: 0 <= i < |u + v| ==> Map(u + v, f)[i] == (Map(u, f) + Map(v, f))[i];
  }

  /** Mapping a permutation gives a permutation of the mapped sequence. */
  lemma {:induction false} MapPermutation<A, B>(a: seq<A>, b: seq<A>, f: A -> B)
    requires multiset(a) == multiset(b)
    ensures multiset(Map(a, f)) == multiset(Map(b, f))
    decreases |a|
  {
    if a == [] {
      assert |b| == |multiset(b)| == 0;
    } else {
      var x := a[0];
      assert a == [x] + a[1..];
      assert x in multiset(b);
      var j :| 0 <= j < |b| && b[j] == x;
      var b' := b[..j] + b[j + 1..];
      assert b == b[..j] + [x] + b[j + 1..];
      assert multiset(b) == multiset(b') + multiset{x};
      assert multiset(a) == multiset{x} + multiset(a[1..]);
      assert multiset(b') == multiset(b) - multiset{x};
      assert multiset(a[1..]) == multiset(a) - multiset{x};
      MapPermutation(a[1..], b', f);
      MapConcat([x], a[1..], f);
      MapConcat(b[..j], [x], f);
      MapConcat(b[..j] + [x], b[j + 1..], f);
      MapConcat(b[..j], b[j + 1..], f);
    }
  }
}
