/**
 * The first phase of build_nested_list: after sorting, every record is given
 * its containing parent (`sublist` doubles as a parent-pointer stack).
 *
 * `Parents(s)` is the parent array the scan computes for a sorted record
 * sequence `s`: record i climbs the chain of open containers, starting at
 * record i - 1, until it meets one whose end is not before its own.
 */
module Nesting {
  import opened Records

  /** The parent chain climb of record i, starting at candidate p (-1: no parent). */
  function Climb(e: seq<int>, par: seq<int>, i: nat, p: int): (r: int)
    requires i < |e| && |par| == i && p < i
    requires forall j :: 0 <= j < |par| ==> par[j] < j
    ensures -1 <= r <= p || r == -1
    decreases p + 1
  {
    if p < 0 then -1
    else if e[i] <= e[p] then p
    else Climb(e, par, i, par[p])
  }

  /** The parents of the first m records. */
  function ParentsUpTo(e: seq<int>, m: nat): (par: seq<int>)
    requires m <= |e|
    ensures |par| == m && forall j :: 0 <= j < m ==> -1 <= par[j] < j
    decreases m
  {
    if m == 0 then []
    else
      var pre := ParentsUpTo(e, m - 1);
      pre + [Climb(e, pre, m - 1, m - 2)]
  }

  function Parents(e: seq<int>): (par: seq<int>)
    ensures |par| == |e|
  {
    ParentsUpTo(e, |e|)
  }

  /**
   * The nesting a parent array describes: parents precede their children and
   * contain them; a subtree is a contiguous run of the sorted order; and
   * siblings have strictly increasing ends.
   */
  ghost predicate Nested(e: seq<int>, par: seq<int>) {
    && |par| <= |e|
    && (forall j :: 0 <= j < |par| ==> -1 <= par[j] < j)
    && (forall j {:trigger par[j]} :: 0 <= j < |par| && par[j] >= 0 ==> e[j] <= e[par[j]])
    && (forall j, k :: InsideRun(par, j, k))
    && (forall j, k :: SiblingEnds(e, par, j, k))
  }

  /** Every record between j's parent and j lies in the parent's subtree. */
  ghost predicate InsideRun(par: seq<int>, j: int, k: int) {
    0 <= j < |par| && 0 <= par[j] < k < j ==> par[k] >= par[j]
  }

  /** Of two siblings, the later one ends later. */
  ghost predicate SiblingEnds(e: seq<int>, par: seq<int>, j: int, k: int) {
    0 <= k < j < |par| && j < |e| && par[k] == par[j] ==> e[k] < e[j]
  }

  /** Everything scanned after candidate p lies in p's subtree. */
  ghost predicate InSubtree(par: seq<int>, i: nat, p: int)
    requires |par| == i
  {
    forall k :: p < k < i && 0 <= k ==> par[k] >= p
  }

  /** Every child of candidate p seen so far ends before record i. */
  ghost predicate ChildrenEndBefore(e: seq<int>, par: seq<int>, i: nat, p: int)
    requires |par| == i < |e|
  {
    forall k :: p < k < i && 0 <= k && par[k] == p ==> e[k] < e[i]
  }

  lemma {:induction false} ClimbProperties(e: seq<int>, par: seq<int>, i: nat, p: int)
    requires i < |e| && |par| == i && -1 <= p < i
    requires Nested(e, par)
    requires InSubtree(par, i, p) && ChildrenEndBefore(e, par, i, p)
    ensures var r := Climb(e, par, i, p);
      && -1 <= r <= p
      && (r >= 0 ==> e[i] <= e[r])
      && InSubtree(par, i, r) && ChildrenEndBefore(e, par, i, r)
    decreases p + 1
  {
    if p >= 0 && e[i] > e[p] {
      var q := par[p];
      assert InSubtree(par, i, q) by {
        forall k | q < k < i && 0 <= k ensures par[k] >= q {
          if k < p {
            assert InsideRun(par, p, k);
          }
        }
      }
      assert ChildrenEndBefore(e, par, i, q) by {
        forall k | q < k < i && 0 <= k && par[k] == q ensures e[k] < e[i] {
          if k < p {
            assert SiblingEnds(e, par, p, k);
          }
        }
      }
      ClimbProperties(e, par, i, q);
    }
  }

  /** Attaching record |pre| to a parent found by the climb keeps the nesting. */
  lemma ExtendNested(e: seq<int>, pre: seq<int>, r: int)
    requires |pre| < |e| && Nested(e, pre)
    requires -1 <= r < |pre|
    requires r >= 0 ==> e[|pre|] <= e[r]
    requires InSubtree(pre, |pre|, r) && ChildrenEndBefore(e, pre, |pre|, r)
    ensures Nested(e, pre + [r])
  {
    var par := pre + [r];
    ExtendBounds(e, pre, r);
    ExtendContained(e, pre, r);
    ExtendContiguous(e, pre, r);
    ExtendSiblings(e, pre, r);
  }

  lemma ExtendBounds(e: seq<int>, pre: seq<int>, r: int)
    requires |pre| < |e| && Nested(e, pre) && -1 <= r < |pre|
    ensures forall j :: 0 <= j < |pre + [r]| ==> -1 <= (pre + [r])[j] < j
  {
    var par := pre + [r];
    forall j | 0 <= j < |par| ensures -1 <= par[j] < j {
      if j < |pre| { assert par[j] == pre[j]; }
    }
  }

  lemma ExtendContained(e: seq<int>, pre: seq<int>, r: int)
    requires |pre| < |e| && Nested(e, pre) && -1 <= r < |pre|
    requires r >= 0 ==> e[|pre|] <= e[r]
    ensures var par := pre + [r];
      forall j {:trigger par[j]} :: 0 <= j < |par| && par[j] >= 0 ==> e[j] <= e[par[j]]
  {
    var par := pre + [r];
    forall j | 0 <= j < |par| && par[j] >= 0 ensures e[j] <= e[par[j]] {
      if j < |pre| { assert par[j] == pre[j]; }
    }
  }

  lemma ExtendContiguous(e: seq<int>, pre: seq<int>, r: int)
    requires |pre| < |e| && Nested(e, pre) && -1 <= r < |pre|
    requires InSubtree(pre, |pre|, r)
    ensures forall j, k :: InsideRun(pre + [r], j, k)
  {
    var par := pre + [r];
    forall j, k ensures InsideRun(par, j, k) {
      if 0 <= j < |par| && 0 <= par[j] < k < j {
        assert par[k] == pre[k];
        if j < |pre| {
          assert par[j] == pre[j];
          assert InsideRun(pre, j, k);
        }
      }
    }
  }

  lemma ExtendSiblings(e: seq<int>, pre: seq<int>, r: int)
    requires |pre| < |e| && Nested(e, pre) && -1 <= r < |pre|
    requires ChildrenEndBefore(e, pre, |pre|, r)
    ensures forall j, k :: SiblingEnds(e, pre + [r], j, k)
  {
    var par := pre + [r];
    forall j, k ensures SiblingEnds(e, par, j, k) {
      if 0 <= k < j < |par| && j < |e| && par[k] == par[j] {
        assert par[k] == pre[k];
        if j < |pre| {
          assert par[j] == pre[j];
          assert pre[k] == pre[j];
          assert SiblingEnds(e, pre, j, k);
        } else {
          assert pre[k] == r && r < k;
        }
      }
    }
  }

  /** The scan builds a nesting. */
  lemma {:induction false} ParentsUpToNested(e: seq<int>, m: nat)
    requires m <= |e|
    ensures Nested(e, ParentsUpTo(e, m))
    decreases m
  {
    if m > 0 {
      var pre := ParentsUpTo(e, m - 1);
      ParentsUpToNested(e, m - 1);
      var r := Climb(e, pre, m - 1, m - 2);
      assert ParentsUpTo(e, m) == pre + [r];
      ClimbProperties(e, pre, m - 1, m - 2);
      ExtendNested(e, pre, r);
    }
  }

  lemma {:induction false} ParentsUpToPrefix(e: seq<int>, m: nat, k: nat)
    requires k <= m <= |e|
    ensures ParentsUpTo(e, m)[..k] == ParentsUpTo(e, k)
    decreases m
  {
    if k < m {
      ParentsUpToPrefix(e, m - 1, k);
      assert ParentsUpTo(e, m)[..m - 1] == ParentsUpTo(e, m - 1);
    }
  }

  /**
   * The properties the build promises of every record j with a parent:
   * the parent comes earlier and contains j; all records between them are
   * also descendants of the parent; and earlier siblings end strictly earlier.
   */
  lemma ParentsNested(e: seq<int>)
    ensures Nested(e, Parents(e))
  {
    ParentsUpToNested(e, |e|);
  }

  /** A record that has a child has the record right after it as its first child. */
  lemma FirstChildFollows(e: seq<int>, par: seq<int>, c: nat)
    requires Nested(e, par) && c < |par| && par[c] >= 0
    ensures par[c] + 1 < |par| && par[par[c] + 1] == par[c]
  {
    var q := par[c];
    if q + 1 < c {
      assert InsideRun(par, c, q + 1);
    }
  }
}
