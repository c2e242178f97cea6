/**
 * The shape a nesting (`Nesting.Nested`) gives the sorted records: the
 * subtree of record c is the run c, c + 1, ..., End(c) - 1; the children of a
 * parent q are q + 1 and then, one after the other, the first record past
 * the previous child's subtree; the last child's subtree ends where q's does.
 * The top level is the parent q = -1, whose subtree is everything.
 */
module Subtrees {
  import opened Nesting
  import opened Layout

  /** The first position from e on that leaves the subtree of c. */
  function Exit(par: seq<int>, c: int, e: int): int
    requires -1 <= c < e <= |par|
    decreases |par| - e
  {
    if e == |par| || par[e] < c then e else Exit(par, c, e + 1)
  }

  lemma {:induction false} ExitFacts(par: seq<int>, c: int, e: int)
    requires -1 <= c < e <= |par|
    ensures var r := Exit(par, c, e);
      && e <= r <= |par|
      && (r == |par| || par[r] < c)
      && (forall k :: e <= k < r ==> par[k] >= c)
    decreases |par| - e
  {
    if !(e == |par| || par[e] < c) {
      ExitFacts(par, c, e + 1);
    }
  }

  /** The end of c's subtree (c = -1: the whole sequence). */
  function End(par: seq<int>, c: int): (r: int)
    requires -1 <= c < |par|
    ensures c < r <= |par|
    ensures r == |par| || par[r] < c
    ensures forall k :: c < k < r ==> par[k] >= c
  {
    ExitFacts(par, c, c + 1);
    Exit(par, c, c + 1)
  }

  /** The positions a, a + 1, ..., b - 1. */
  function Range(a: int, b: int): (r: seq<int>)
    requires a <= b
    ensures |r| == b - a && forall i :: 0 <= i < b - a ==> r[i] == a + i
  {
    seq(b - a, i requires 0 <= i < b - a => a + i)
  }

  lemma RangeSplit(a: int, m: int, b: int)
    requires a <= m <= b
    ensures Range(a, b) == Range(a, m) + Range(m, b)
  {
  }

  /** A subtree cannot end at a position that still belongs to it. */
  lemma EndAtMost(par: seq<int>, c: int, j: int)
    requires -1 <= c < j <= |par|
    requires j == |par| || par[j] < c
    ensures End(par, c) <= j
  {
  }

  /** A child of q lies inside q's subtree; its own subtree ends no later, and the record that ends it is again a child of q. */
  lemma KidInside(e: seq<int>, par: seq<int>, q: int, k: int)
    requires Nested(e, par) && |par| == |e| && 0 <= k < |par| && par[k] == q
    ensures q < k < End(par, q)
    ensures End(par, k) <= End(par, q)
    ensures End(par, k) < End(par, q) ==> par[End(par, k)] == q
  {
    var r := End(par, q);
    assert InsideRun(par, k, r);
    EndAtMost(par, k, r);
    assert InsideRun(par, End(par, k), k);
  }

  /** Nothing strictly inside the subtree of a child k of q is a child of q. */
  lemma NoKidInside(e: seq<int>, par: seq<int>, q: int, k: int, m: int)
    requires Nested(e, par) && |par| == |e| && 0 <= k < |par| && par[k] == q
    requires k < m < End(par, k)
    ensures par[m] != q
  {
    KidInside(e, par, q, k);
  }

  /** A record without children is a subtree of its own. */
  lemma LeafEnd(e: seq<int>, par: seq<int>, c: int)
    requires Nested(e, par) && |par| == |e| && 0 <= c < |par| && !HasKids(par, c)
    ensures End(par, c) == c + 1
  {
    if c + 1 < |par| {
      assert -1 <= par[c + 1] < c + 1;
    }
    EndAtMost(par, c, c + 1);
  }

  /**
   * The children of q (the top-level records when q = -1) come in the order
   * q + 1, End(q + 1), End(End(q + 1)), ..., and the last one's subtree
   * ends where q's does.
   */
  lemma KidsChain(e: seq<int>, par: seq<int>, q: int)
    requires Nested(e, par) && |par| == |e|
    requires (q == -1 && |par| > 0) || HasKids(par, q)
    ensures var cs := Kids(par, q, |par|);
      && |cs| > 0 && cs[0] == q + 1
      && (forall t :: 0 <= t < |cs| - 1 ==> cs[t + 1] == End(par, cs[t]))
      && End(par, cs[|cs| - 1]) == End(par, q)
  {
    var n := |par|;
    var cs := Kids(par, q, n);
    assert par[q + 1] == q;
    assert q + 1 in cs;
    assert cs[0] == q + 1;
    forall t | 0 <= t < |cs| - 1 ensures cs[t + 1] == End(par, cs[t]) {
      KidsNext(e, par, q, t);
    }
    var k := cs[|cs| - 1];
    assert k in cs;
    KidInside(e, par, q, k);
    KidMember(par, q, End(par, k));
  }

  /** A record whose parent is q is one of q's children. */
  lemma KidMember(par: seq<int>, q: int, c: int)
    ensures 0 <= c < |par| && par[c] == q ==> c in Kids(par, q, |par|)
  {
  }

  lemma KidsNext(e: seq<int>, par: seq<int>, q: int, t: int)
    requires Nested(e, par) && |par| == |e|
    requires var cs := Kids(par, q, |par|); 0 <= t < |cs| - 1
    ensures var cs := Kids(par, q, |par|); cs[t + 1] == End(par, cs[t])
  {
    var cs := Kids(par, q, |par|);
    var k, k' := cs[t], cs[t + 1];
    KidInside(e, par, q, k);
    KidInside(e, par, q, k');
    var ek := End(par, k);
    if k' < ek {
      NoKidInside(e, par, q, k, k');
    }
    assert ek in cs;
    var u :| 0 <= u < |cs| && cs[u] == ek;
    assert t < u;
  }
}
