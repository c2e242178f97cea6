/**
 * Sequences of positions into a sequence, and the elements they pick out:
 * picking the same positions in another order picks the same elements in
 * another order.
 */
module Positions {
  /** Every position in cs is one of n positions. */
  predicate Within(cs: seq<int>, n: int) {
    forall j :: 0 <= j < |cs| ==> 0 <= cs[j] < n
  }

  /** The elements of s at the positions cs, in that order. */
  function Pick<T>(s: seq<T>, cs: seq<int>): (r: seq<T>)
    requires Within(cs, |s|)
    ensures |r| == |cs| && forall j {:trigger r[j]} :: 0 <= j < |cs| ==> r[j] == s[cs[j]]
  {
    seq(|cs|, j requires 0 <= j < |cs| => s[cs[j]])
  }

  /** No position occurs twice in cs. */
  predicate Distinct(cs: seq<int>) {
    forall j, k :: 0 <= j < k < |cs| ==> cs[j] != cs[k]
  }

  lemma {:induction false} DistinctOnce(cs: seq<int>, x: int)
    requires Distinct(cs)
    ensures multiset(cs)[x] <= 1
  {
    if cs != [] {
      assert cs == [cs[0]] + cs[1..];
      DistinctOnce(cs[1..], x);
      if x == cs[0] {
        assert x !in cs[1..];
      }
    }
  }

  lemma PickAppend<T>(s: seq<T>, a: seq<int>, b: seq<int>)
    requires Within(a, |s|) && Within(b, |s|)
    ensures Within(a + b, |s|) && Pick(s, a + b) == Pick(s, a) + Pick(s, b)
  {
  }

  lemma WithinSlice(b: seq<int>, i: int, j: int, n: int)
    requires Within(b, n) && 0 <= i <= j <= |b|
    ensures Within(b[i..j], n)
  {
    assert forall t :: 0 <= t < j - i ==> b[i..j][t] == b[i + t];
  }

  /** The pick of a is the element at a's first position, then the pick of the rest. */
  lemma PickFront<T>(s: seq<T>, a: seq<int>)
    requires Within(a, |s|) && a != []
    ensures Within(a[1..], |s|)
    ensures Pick(s, a) == [s[a[0]]] + Pick(s, a[1..])
  {
    WithinSlice(a, 1, |a|, |s|);
    assert a == [a[0]] + a[1..];
    PickAppend(s, [a[0]], a[1..]);
  }

  /** Taking position k out of b takes its element out of the pick. */
  lemma PickRemove<T>(s: seq<T>, b: seq<int>, k: int)
    requires Within(b, |s|) && 0 <= k < |b|
    ensures Within(b[..k], |s|) && Within(b[k + 1..], |s|) && Within(b[..k] + b[k + 1..], |s|)
    ensures Pick(s, b) == Pick(s, b[..k]) + [s[b[k]]] + Pick(s, b[k + 1..])
    ensures Pick(s, b[..k] + b[k + 1..]) == Pick(s, b[..k]) + Pick(s, b[k + 1..])
  {
    var u, v, x := b[..k], b[k + 1..], b[k];
    WithinSlice(b, 0, k, |s|);
    WithinSlice(b, k + 1, |b|, |s|);
    assert Within([x], |s|);
    PickAppend(s, u, [x]);
    var w := u + [x];
    PickAppend(s, w, v);
    assert b == w + v;
    PickAppend(s, u, v);
  }

  /** Taking position k out of b takes one b[k] out of its multiset. */
  lemma RemoveAt(b: seq<int>, k: int)
    requires 0 <= k < |b|
    ensures multiset(b[..k] + b[k + 1..]) == multiset(b) - multiset{b[k]}
  {
    assert b == b[..k] + [b[k]] + b[k + 1..];
  }

  /** Picking the same positions in another order picks the same elements. */
  lemma {:induction false} PickPermutes<T>(s: seq<T>, a: seq<int>, b: seq<int>)
    requires Within(a, |s|) && Within(b, |s|) && multiset(a) == multiset(b)
    ensures multiset(Pick(s, a)) == multiset(Pick(s, b))
    decreases |a|
  {
    if a != [] {
      assert a[0] in multiset(b);
      var k :| 0 <= k < |b| && b[k] == a[0];
      PickRemove(s, b, k);
      RemoveAt(b, k);
      PickFront(s, a);
      assert a == [a[0]] + a[1..];
      PickPermutes(s, a[1..], b[..k] + b[k + 1..]);
    }
  }
}
