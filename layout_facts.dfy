/**
 * What the repacking of build_nested_list guarantees: the sorted entries are
 * grouped by parent in increasing parent order, parents are numbered in that
 * same order, and the header loop makes every header describe exactly the
 * block of its parent's entries.
 */
module LayoutFacts {
  import opened Records
  import opened Ordering
  import opened Nesting
  import opened Layout

  predicate KeyLt(a: Key, b: Key) {
    a.major < b.major || (a.major == b.major && a.minor < b.minor)
  }

  lemma {:induction false} SubEntriesOnce(par: seq<int>, m: nat)
    requires m <= |par|
    ensures forall x :: multiset(SubEntries(par, m))[x] <= 1
    decreases m
  {
    if m > 0 {
      SubEntriesOnce(par, m - 1);
      var pre := SubEntries(par, m - 1);
      if par[m - 1] >= 0 {
        assert SubEntry(m - 1, par[m - 1]) !in pre;
        assert SubEntries(par, m) == pre + [SubEntry(m - 1, par[m - 1])];
      } else {
        assert SubEntries(par, m) == pre;
      }
    }
  }

  lemma TwiceCounted(x: seq<IntervalMap>, i: int, j: int)
    requires 0 <= i < j < |x| && x[i] == x[j]
    ensures multiset(x)[x[i]] >= 2
  {
    assert x == x[..j] + [x[j]] + x[j + 1..];
    assert x[..j][i] == x[i];
    assert x[i] in multiset(x[..j]);
  }

  /** What qsort with sublist_qsort_cmp promises: `sub` is a sorted permutation of the entries. */
  ghost predicate SubOrder(par: seq<int>, sub: seq<IntervalMap>) {
    SortedBy(sub, SublistKey) && multiset(sub) == multiset(SubEntries(par, |par|))
  }

  lemma SubIsSubOrder(par: seq<int>)
    ensures SubOrder(par, Sub(par))
  {
  }

  /**
   * Whatever order qsort leaves equal keys in, the sorted entries are Sub(par):
   * no two entries share the key (parent, index).
   */
  lemma SubUnique(par: seq<int>, sub: seq<IntervalMap>)
    requires SubOrder(par, sub)
    ensures sub == Sub(par)
  {
    var es := SubEntries(par, |par|);
    forall a, b | a in multiset(sub) && b in multiset(sub) && SublistKey(a) == SublistKey(b)
      ensures a == b
    {
      assert a in multiset(es) && b in multiset(es);
      assert a in es && b in es;
    }
    SubIsSubOrder(par);
    SortedUnique(sub, Sub(par), SublistKey);
  }

  /** Every sorted entry is the entry (c, par[c]) of some contained record c. */
  lemma SubShape(par: seq<int>, sub: seq<IntervalMap>)
    requires SubOrder(par, sub)
    ensures forall i :: 0 <= i < |sub| ==>
      0 <= sub[i].start < |par| && par[sub[i].start] >= 0 && sub[i] == SubEntry(sub[i].start, par[sub[i].start])
  {
    assert forall i :: 0 <= i < |sub| ==> sub[i] in multiset(sub);
    assert forall i :: 0 <= i < |sub| ==> sub[i] in SubEntries(par, |par|);
  }

  /** Every contained record has its entry among the sorted ones. */
  lemma SubComplete(par: seq<int>, sub: seq<IntervalMap>, c: int) returns (i: int)
    requires SubOrder(par, sub) && 0 <= c < |par| && par[c] >= 0
    ensures 0 <= i < |sub| && sub[i] == SubEntry(c, par[c])
  {
    assert SubEntry(c, par[c]) in SubEntries(par, |par|);
    assert SubEntry(c, par[c]) in multiset(SubEntries(par, |par|));
    i :| 0 <= i < |sub| && sub[i] == SubEntry(c, par[c]);
  }

  /** The sort leaves the entries strictly ordered by (parent, index): no two share a key. */
  lemma SubStrict(par: seq<int>, sub: seq<IntervalMap>)
    requires SubOrder(par, sub)
    ensures forall i, j :: 0 <= i < j < |sub| ==> KeyLt(SublistKey(sub[i]), SublistKey(sub[j]))
  {
    SubShape(par, sub);
    SubEntriesOnce(par, |par|);
    forall i, j | 0 <= i < j < |sub| ensures KeyLt(SublistKey(sub[i]), SublistKey(sub[j])) {
      assert KeyLe(SublistKey(sub[i]), SublistKey(sub[j]));
      if SublistKey(sub[i]) == SublistKey(sub[j]) {
        assert sub[i] == sub[j];
        TwiceCounted(sub, i, j);
        assert false;
      }
    }
  }

  /** A smaller key sits at a smaller position. */
  lemma SubPositions(par: seq<int>, sub: seq<IntervalMap>, i: int, j: int)
    requires SubOrder(par, sub) && 0 <= i < |sub| && 0 <= j < |sub|
    requires KeyLt(SublistKey(sub[i]), SublistKey(sub[j]))
    ensures i < j
  {
    SubStrict(par, sub);
  }

  lemma {:induction false} HeadsMono(par: seq<int>, a: nat, b: nat)
    requires a <= b <= |par|
    ensures Heads(par, a) <= Heads(par, b)
    decreases b
  {
    if a < b {
      HeadsMono(par, a, b - 1);
    }
  }

  lemma {:induction false} HeadsFlat(par: seq<int>, a: nat, b: nat)
    requires a <= b <= |par|
    requires forall r :: a - 1 <= r < b - 1 ==> !HasKids(par, r)
    ensures Heads(par, a) == Heads(par, b)
    decreases b
  {
    if a < b {
      HeadsFlat(par, a, b - 1);
    }
  }

  /** Distinct parents get distinct header indices, in the order of the parents. */
  lemma HeaderOfOrder(par: seq<int>, q1: int, q2: int)
    requires HasKids(par, q1) && HasKids(par, q2) && q1 < q2
    ensures 0 <= HeaderOf(par, q1) < HeaderOf(par, q2) < Heads(par, |par|)
  {
    HeadsMono(par, q1 + 2, q2 + 1);
    HeadsMono(par, q2 + 2, |par|);
  }

  lemma HeaderOfBound(par: seq<int>, q: int)
    requires HasKids(par, q)
    ensures 0 <= HeaderOf(par, q) < Heads(par, |par|)
  {
    HeadsMono(par, q + 2, |par|);
  }

  /** The parent of every entry has children (its first child follows it). */
  lemma SubParentsHaveKids(e: seq<int>, par: seq<int>, sub: seq<IntervalMap>)
    requires Nested(e, par) && SubOrder(par, sub)
    ensures forall i :: 0 <= i < |sub| ==> HasKids(par, sub[i].sublist)
  {
    SubShape(par, sub);
    forall i | 0 <= i < |sub| ensures HasKids(par, sub[i].sublist) {
      FirstChildFollows(e, par, sub[i].start);
    }
  }

  /** Keys whose values grow from 0 by steps of 0 or 1. */
  ghost predicate StepKeys(keys: seq<int>, nlists: nat) {
    && |keys| > 0 && keys[0] == 0
    && (forall i :: 0 <= i < |keys| - 1 ==> keys[i + 1] == keys[i] || keys[i + 1] == keys[i] + 1)
    && keys[|keys| - 1] == nlists - 1
  }

  /** No parent with children precedes the parent of the first entry. */
  lemma KeyFirst(e: seq<int>, par: seq<int>, sub: seq<IntervalMap>)
    requires Nested(e, par) && SubOrder(par, sub) && |sub| > 0
    ensures SubKeys(par, sub)[0] == 0
  {
    SubShape(par, sub);
    SubParentsHaveKids(e, par, sub);
    var q0 := sub[0].sublist;
    forall r | 0 <= r < q0 ensures !HasKids(par, r) {
      if HasKids(par, r) {
        var t := SubComplete(par, sub, r + 1);
        SubPositions(par, sub, t, 0);
      }
    }
    HeadsFlat(par, 1, q0 + 1);
  }

  /** Consecutive entries have the same parent, or parents with no parent between them. */
  lemma KeyNext(e: seq<int>, par: seq<int>, sub: seq<IntervalMap>, i: int)
    requires Nested(e, par) && SubOrder(par, sub) && 0 <= i < |sub| - 1
    ensures var keys := SubKeys(par, sub);
      keys[i + 1] == keys[i] || keys[i + 1] == keys[i] + 1
  {
    SubShape(par, sub);
    SubParentsHaveKids(e, par, sub);
    SubStrict(par, sub);
    var q, q' := sub[i].sublist, sub[i + 1].sublist;
    if q != q' {
      forall r | q + 1 <= r < q' ensures !HasKids(par, r) {
        if HasKids(par, r) {
          var t := SubComplete(par, sub, r + 1);
          SubPositions(par, sub, i, t);
          SubPositions(par, sub, t, i + 1);
        }
      }
      HeadsFlat(par, q + 2, q' + 1);
    }
  }

  /** No parent with children follows the parent of the last entry. */
  lemma KeyLast(e: seq<int>, par: seq<int>, sub: seq<IntervalMap>)
    requires Nested(e, par) && SubOrder(par, sub) && |sub| > 0
    ensures SubKeys(par, sub)[|sub| - 1] == Heads(par, |par|) - 1
  {
    SubShape(par, sub);
    SubParentsHaveKids(e, par, sub);
    var ql := sub[|sub| - 1].sublist;
    NoParentAfterLast(e, par, sub);
    HeadsFlat(par, ql + 2, |par|);
  }

  lemma NoParentAfterLast(e: seq<int>, par: seq<int>, sub: seq<IntervalMap>)
    requires Nested(e, par) && SubOrder(par, sub) && |sub| > 0
    ensures forall r :: sub[|sub| - 1].sublist + 1 <= r < |par| - 1 ==> !HasKids(par, r)
  {
    var last := |sub| - 1;
    forall r | sub[last].sublist + 1 <= r < |par| - 1 ensures !HasKids(par, r) {
      if HasKids(par, r) {
        var t := SubComplete(par, sub, r + 1);
        SubPositions(par, sub, last, t);
      }
    }
  }

  /** The header index of the sorted entries: 0 first, stepping by at most 1, up to the last header. */
  lemma KeysStep(e: seq<int>, par: seq<int>, sub: seq<IntervalMap>)
    requires Nested(e, par) && SubOrder(par, sub) && |sub| > 0
    ensures StepKeys(SubKeys(par, sub), Heads(par, |par|))
  {
    KeyFirst(e, par, sub);
    KeyLast(e, par, sub);
    var keys := SubKeys(par, sub);
    forall i | 0 <= i < |sub| - 1 ensures keys[i + 1] == keys[i] || keys[i + 1] == keys[i] + 1 {
      KeyNext(e, par, sub, i);
    }
  }

  /**
   * Headers 0..top lie end to end over the entries [0, m), each non-empty;
   * the headers after top are still empty.
   */
  ghost predicate Tiled(h: seq<SublistHeader>, top: int, m: int) {
    && 0 <= top < |h|
    && h[0].start == 0
    && (forall k :: 0 <= k < top ==> h[k + 1].start == h[k].start + h[k].len)
    && (forall k :: 0 <= k <= top ==> h[k].len >= 1)
    && (forall k :: 0 <= k < top ==> h[k].start + h[k].len <= h[top].start)
    && h[top].start + h[top].len == m
    && (forall k :: top < k < |h| ==> h[k] == SublistHeader(0, 0))
  }

  /** Each of the first m entries lies in the block of its own header. */
  ghost predicate Inside(keys: seq<int>, h: seq<SublistHeader>, m: int)
    requires 0 <= m <= |keys|
  {
    forall i :: 0 <= i < m ==> 0 <= keys[i] < |h| && h[keys[i]].start <= i < h[keys[i]].start + h[keys[i]].len
  }

  /** An entry that is the first of its key opens its header's block. */
  ghost predicate Opens(keys: seq<int>, h: seq<SublistHeader>, m: int)
    requires 0 <= m <= |keys|
  {
    forall i :: 0 <= i < m && (i == 0 || keys[i - 1] != keys[i]) ==> 0 <= keys[i] < |h| && h[keys[i]].start == i
  }

  /** An entry followed by one of another key closes its header's block. */
  ghost predicate Closes(keys: seq<int>, h: seq<SublistHeader>, m: int)
    requires 0 <= m <= |keys|
  {
    forall i :: 0 <= i < m - 1 && keys[i + 1] != keys[i] ==> 0 <= keys[i] < |h| && h[keys[i]].start + h[keys[i]].len == i + 1
  }

  /** Every entry in a header's block carries that header's key. */
  ghost predicate Owns(keys: seq<int>, h: seq<SublistHeader>, m: int)
    requires 0 <= m <= |keys|
  {
    forall k, i :: 0 <= k < |h| && 0 <= i < m && h[k].start <= i < h[k].start + h[k].len ==> keys[i] == k
  }

  /**
   * The header loop, run over the first m entries: the headers tile them, and
   * each entry lies in its own header's block, opening it when it is the first
   * of its key and closing it when it is the last.
   */
  lemma {:induction false} FoldTiles(keys: seq<int>, nlists: nat, m: nat)
    requires StepKeys(keys, nlists) && 1 <= m <= |keys|
    ensures var h := FoldHeaders(keys, nlists, m);
      && Tiled(h, keys[m - 1], m)
      && Inside(keys, h, m) && Opens(keys, h, m) && Closes(keys, h, m) && Owns(keys, h, m)
    decreases m
  {
    KeysBelow(keys, nlists);
    if m == 1 {
      FoldFirst(keys, nlists);
    } else {
      FoldTiles(keys, nlists, m - 1);
      var h := FoldHeaders(keys, nlists, m - 1);
      FoldStepTiled(keys, nlists, m, h);
      FoldStepInside(keys, nlists, m, h);
      FoldStepOpens(keys, nlists, m, h);
      FoldStepCloses(keys, nlists, m, h);
      FoldStepOwns(keys, nlists, m, h);
    }
  }

  lemma FoldFirst(keys: seq<int>, nlists: nat)
    requires StepKeys(keys, nlists)
    ensures var h := FoldHeaders(keys, nlists, 1);
      && Tiled(h, keys[0], 1)
      && Inside(keys, h, 1) && Opens(keys, h, 1) && Closes(keys, h, 1) && Owns(keys, h, 1)
  {
    KeysBelow(keys, nlists);
    var h := FoldHeaders(keys, nlists, 1);
    assert h == seq(nlists, _ => SublistHeader(0, 0))[0 := SublistHeader(0, 1)];
  }

  lemma FoldStepTiled(keys: seq<int>, nlists: nat, m: nat, h: seq<SublistHeader>)
    requires StepKeys(keys, nlists) && 2 <= m <= |keys| && |h| == nlists
    requires forall i, j :: 0 <= i <= j < |keys| ==> 0 <= keys[i] <= keys[j] < nlists
    requires Tiled(h, keys[m - 2], m - 1)
    ensures Tiled(AddEntry(h, keys[m - 1], m - 1), keys[m - 1], m)
  {
  }

  lemma FoldStepInside(keys: seq<int>, nlists: nat, m: nat, h: seq<SublistHeader>)
    requires StepKeys(keys, nlists) && 2 <= m <= |keys| && |h| == nlists
    requires forall i, j :: 0 <= i <= j < |keys| ==> 0 <= keys[i] <= keys[j] < nlists
    requires Tiled(h, keys[m - 2], m - 1) && Inside(keys, h, m - 1)
    ensures Inside(keys, AddEntry(h, keys[m - 1], m - 1), m)
  {
    var h' := AddEntry(h, keys[m - 1], m - 1);
    forall i | 0 <= i < m ensures 0 <= keys[i] < |h'| && h'[keys[i]].start <= i < h'[keys[i]].start + h'[keys[i]].len {
      if i < m - 1 && keys[i] != keys[m - 1] {
        assert h'[keys[i]] == h[keys[i]];
      }
    }
  }

  lemma FoldStepOpens(keys: seq<int>, nlists: nat, m: nat, h: seq<SublistHeader>)
    requires StepKeys(keys, nlists) && 2 <= m <= |keys| && |h| == nlists
    requires forall i, j :: 0 <= i <= j < |keys| ==> 0 <= keys[i] <= keys[j] < nlists
    requires Tiled(h, keys[m - 2], m - 1) && Opens(keys, h, m - 1)
    ensures Opens(keys, AddEntry(h, keys[m - 1], m - 1), m)
  {
    var h' := AddEntry(h, keys[m - 1], m - 1);
    forall i | 0 <= i < m && (i == 0 || keys[i - 1] != keys[i]) ensures 0 <= keys[i] < |h'| && h'[keys[i]].start == i {
      if i < m - 1 && keys[i] != keys[m - 1] {
        assert h'[keys[i]] == h[keys[i]];
      }
    }
  }

  lemma FoldStepCloses(keys: seq<int>, nlists: nat, m: nat, h: seq<SublistHeader>)
    requires StepKeys(keys, nlists) && 2 <= m <= |keys| && |h| == nlists
    requires forall i, j :: 0 <= i <= j < |keys| ==> 0 <= keys[i] <= keys[j] < nlists
    requires Tiled(h, keys[m - 2], m - 1) && Closes(keys, h, m - 1)
    ensures Closes(keys, AddEntry(h, keys[m - 1], m - 1), m)
  {
    var h' := AddEntry(h, keys[m - 1], m - 1);
    forall i | 0 <= i < m - 1 && keys[i + 1] != keys[i] ensures 0 <= keys[i] < |h'| && h'[keys[i]].start + h'[keys[i]].len == i + 1 {
      if keys[i] != keys[m - 1] {
        assert h'[keys[i]] == h[keys[i]];
      }
    }
  }

  lemma FoldStepOwns(keys: seq<int>, nlists: nat, m: nat, h: seq<SublistHeader>)
    requires StepKeys(keys, nlists) && 2 <= m <= |keys| && |h| == nlists
    requires forall i, j :: 0 <= i <= j < |keys| ==> 0 <= keys[i] <= keys[j] < nlists
    requires Tiled(h, keys[m - 2], m - 1) && Owns(keys, h, m - 1) && Inside(keys, h, m - 1)
    ensures Owns(keys, AddEntry(h, keys[m - 1], m - 1), m)
  {
    var h' := AddEntry(h, keys[m - 1], m - 1);
    var top := keys[m - 2];
    forall k, i | 0 <= k < |h'| && 0 <= i < m && h'[k].start <= i < h'[k].start + h'[k].len ensures keys[i] == k {
      if k != keys[m - 1] {
        assert h'[k] == h[k];
      }
    }
  }

  lemma KeysBelow(keys: seq<int>, nlists: nat)
    requires StepKeys(keys, nlists)
    ensures forall i, j :: 0 <= i <= j < |keys| ==> 0 <= keys[i] <= keys[j] < nlists
  {
    forall i, j | 0 <= i <= j < |keys| ensures 0 <= keys[i] <= keys[j] < nlists {
      KeysMono(keys, nlists, 0, i);
      KeysMono(keys, nlists, i, j);
      KeysMono(keys, nlists, j, |keys| - 1);
    }
  }

  lemma {:induction false} KeysMono(keys: seq<int>, nlists: nat, i: int, j: int)
    requires StepKeys(keys, nlists) && 0 <= i <= j < |keys|
    ensures keys[i] <= keys[j]
    decreases j - i
  {
    if i < j {
      KeysMono(keys, nlists, i, j - 1);
    }
  }

  /** Two strictly increasing sequences with the same elements are equal. */
  /** The tail of a strictly increasing sequence holds everything but its head. */
  lemma TailIn(a: seq<int>)
    requires a != [] && forall x, y :: 0 <= x < y < |a| ==> a[x] < a[y]
    ensures forall c :: c in a[1..] <==> c in a && c != a[0]
  {
    forall c ensures c in a[1..] <==> c in a && c != a[0] {
      if c in a[1..] {
        var x :| 0 <= x < |a[1..]| && a[1..][x] == c;
        assert a[x + 1] == c;
      }
      if c in a && c != a[0] {
        var x :| 0 <= x < |a| && a[x] == c;
        assert a[1..][x - 1] == c;
      }
    }
  }

  lemma {:induction false} IncreasingUnique(a: seq<int>, b: seq<int>)
    requires forall x, y :: 0 <= x < y < |a| ==> a[x] < a[y]
    requires forall x, y :: 0 <= x < y < |b| ==> b[x] < b[y]
    requires forall c :: c in a <==> c in b
    ensures a == b
    decreases |a|
  {
    if a != [] && b != [] {
      assert a[0] in b && b[0] in a;
      var i :| 0 <= i < |a| && a[i] == b[0];
      var j :| 0 <= j < |b| && b[j] == a[0];
      assert i == 0 || j == 0;
      assert a[0] == b[0];
      TailIn(a);
      TailIn(b);
      IncreasingUnique(a[1..], b[1..]);
      assert a == [a[0]] + a[1..] && b == [b[0]] + b[1..];
    } else if a != [] {
      HeadIn(a);
    } else if b != [] {
      HeadIn(b);
    }
  }

  lemma HeadIn(a: seq<int>)
    requires a != []
    ensures a[0] in a
  {
  }

  /** Every record is either top-level or has an entry. */
  lemma {:induction false} TopPlusSub(par: seq<int>, m: nat)
    requires m <= |par| && forall j :: 0 <= j < |par| ==> par[j] >= -1
    ensures |Kids(par, -1, m)| + |SubEntries(par, m)| == m
    decreases m
  {
    if m > 0 {
      TopPlusSub(par, m - 1);
    }
  }

  /** The header of a parent q is opened by the entry of q's first child, q + 1. */
  lemma BlockOpens(e: seq<int>, par: seq<int>, sub: seq<IntervalMap>, q: int) returns (g: int)
    requires Nested(e, par) && SubOrder(par, sub) && HasKids(par, q)
    ensures 0 <= g < |sub| && sub[g] == SubEntry(q + 1, q)
    ensures SubKeys(par, sub)[g] == HeaderOf(par, q)
    ensures g == 0 || SubKeys(par, sub)[g - 1] != SubKeys(par, sub)[g]
  {
    g := SubComplete(par, sub, q + 1);
    SubShape(par, sub);
    SubParentsHaveKids(e, par, sub);
    if g > 0 {
      SubStrict(par, sub);
      var q' := sub[g - 1].sublist;
      assert KeyLt(SublistKey(sub[g - 1]), SublistKey(sub[g]));
      HeaderOfOrder(par, q', q);
    }
  }

  /** The fold's guarantees over the whole entry sequence. */
  lemma FoldAll(e: seq<int>, par: seq<int>, sub: seq<IntervalMap>)
    requires Nested(e, par) && |par| == |e| && SubOrder(par, sub) && |sub| > 0
    ensures var keys, nl := SubKeys(par, sub), Heads(par, |par|);
      var h := FoldHeaders(keys, nl, |sub|);
      && StepKeys(keys, nl)
      && Tiled(h, nl - 1, |sub|)
      && Inside(keys, h, |sub|) && Opens(keys, h, |sub|) && Closes(keys, h, |sub|) && Owns(keys, h, |sub|)
  {
    KeysStep(e, par, sub);
    FoldTiles(SubKeys(par, sub), Heads(par, |par|), |sub|);
  }

  /** The header of equal index belongs to the same parent. */
  lemma HeaderOfInjective(par: seq<int>, q1: int, q2: int)
    requires HasKids(par, q1) && HasKids(par, q2) && HeaderOf(par, q1) == HeaderOf(par, q2)
    ensures q1 == q2
  {
    if q1 < q2 {
      HeaderOfOrder(par, q1, q2);
    } else if q2 < q1 {
      HeaderOfOrder(par, q2, q1);
    }
  }

  /** The starts of the entries in positions [g, g + len). */
  function EntryStarts(sub: seq<IntervalMap>, g: int, len: int): (cs: seq<int>)
    requires 0 <= g && 0 <= len && g + len <= |sub|
    ensures |cs| == len && forall t :: 0 <= t < len ==> cs[t] == sub[g + t].start
  {
    seq(len, t requires 0 <= t < len => sub[g + t].start)
  }

  /** Parent q's header is a block of the entries that opens at the entry of q + 1. */
  lemma BlockHeader(e: seq<int>, par: seq<int>, sub: seq<IntervalMap>, q: int) returns (g: int, len: int)
    requires Nested(e, par) && |par| == |e| && SubOrder(par, sub) && HasKids(par, q)
    ensures var h := FoldHeaders(SubKeys(par, sub), Heads(par, |par|), |sub|);
      && 0 <= HeaderOf(par, q) < |h|
      && h[HeaderOf(par, q)] == SublistHeader(g, len)
      && 0 <= g < |sub| && 0 <= len && g + len <= |sub|
  {
    var keys, nl := SubKeys(par, sub), Heads(par, |par|);
    var h := FoldHeaders(keys, nl, |sub|);
    var k := HeaderOf(par, q);
    g := BlockOpens(e, par, sub, q);
    FoldAll(e, par, sub);
    HeaderOfBound(par, q);
    len := h[k].len;
    TiledBounds(h, nl - 1, |sub|, k);
  }

  /** The entries of a header's block are exactly the entries of its key. */
  lemma BlockKeys(e: seq<int>, par: seq<int>, sub: seq<IntervalMap>, k: int)
    requires Nested(e, par) && |par| == |e| && SubOrder(par, sub) && |sub| > 0
    requires 0 <= k < Heads(par, |par|)
    ensures var keys := SubKeys(par, sub);
      var h := FoldHeaders(keys, Heads(par, |par|), |sub|);
      forall i :: 0 <= i < |sub| ==> (keys[i] == k <==> h[k].start <= i < h[k].start + h[k].len)
  {
    FoldAll(e, par, sub);
  }

  /** The block of q's header holds exactly the entries whose parent is q. */
  lemma BlockSpan(e: seq<int>, par: seq<int>, sub: seq<IntervalMap>, q: int) returns (g: int, len: int)
    requires Nested(e, par) && |par| == |e| && SubOrder(par, sub) && HasKids(par, q)
    ensures var h := FoldHeaders(SubKeys(par, sub), Heads(par, |par|), |sub|);
      && 0 <= HeaderOf(par, q) < |h|
      && h[HeaderOf(par, q)] == SublistHeader(g, len)
      && 0 <= g && 0 <= len && g + len <= |sub|
      && (forall i :: g <= i < g + len ==> sub[i].sublist == q)
      && (forall i :: 0 <= i < |sub| && sub[i].sublist == q ==> g <= i < g + len)
  {
    g, len := BlockHeader(e, par, sub, q);
    var keys := SubKeys(par, sub);
    var k := HeaderOf(par, q);
    BlockKeys(e, par, sub, k);
    SubParentsHaveKids(e, par, sub);
    forall i | g <= i < g + len ensures sub[i].sublist == q {
      HeaderOfInjective(par, sub[i].sublist, q);
    }
  }

  /**
   * The block of parent q's header is the run of q's entries: it starts at
   * the entry of q + 1 and holds the children of q in index order.
   */
  lemma Block(e: seq<int>, par: seq<int>, sub: seq<IntervalMap>, q: int) returns (g: int)
    requires Nested(e, par) && |par| == |e| && SubOrder(par, sub) && HasKids(par, q)
    ensures var h := FoldHeaders(SubKeys(par, sub), Heads(par, |par|), |sub|);
      var cs := Kids(par, q, |par|);
      && 0 <= HeaderOf(par, q) < |h|
      && h[HeaderOf(par, q)] == SublistHeader(g, |cs|)
      && 0 <= g && g + |cs| <= |sub|
      && EntryStarts(sub, g, |cs|) == cs
      && forall t :: 0 <= t < |cs| ==> sub[g + t] == SubEntry(cs[t], q)
  {
    var len;
    g, len := BlockSpan(e, par, sub, q);
    var cs := Kids(par, q, |par|);
    var b := EntryStarts(sub, g, len);
    SubShape(par, sub);
    SubStrict(par, sub);
    assert forall x, y :: 0 <= x < y < len ==> b[x] < b[y] by {
      forall x, y | 0 <= x < y < len ensures b[x] < b[y] {
        assert KeyLt(SublistKey(sub[g + x]), SublistKey(sub[g + y]));
      }
    }
    forall c ensures c in b <==> c in cs {
      if c in b {
        var x :| 0 <= x < len && b[x] == c;
        assert par[sub[g + x].start] == q;
      }
      if c in cs {
        var i := SubComplete(par, sub, c);
        assert b[i - g] == c;
      }
    }
    IncreasingUnique(b, cs);
  }

  lemma TiledBounds(h: seq<SublistHeader>, top: int, m: int, k: int)
    requires Tiled(h, top, m) && 0 <= k <= top
    ensures 0 <= h[k].start && h[k].start + h[k].len <= m
  {
    TiledStartsFrom0(h, top, m, k);
  }

  lemma {:induction false} TiledStartsFrom0(h: seq<SublistHeader>, top: int, m: int, k: int)
    requires Tiled(h, top, m) && 0 <= k <= top
    ensures 0 <= h[k].start
    decreases k
  {
    if k > 0 {
      TiledStartsFrom0(h, top, m, k - 1);
    }
  }

  /** Blocks of smaller header index lie wholly before blocks of larger index. */
  lemma {:induction false} TiledOrder(h: seq<SublistHeader>, top: int, m: int, k: int, k': int)
    requires Tiled(h, top, m) && 0 <= k < k' <= top
    ensures h[k].start + h[k].len <= h[k'].start
    decreases k' - k
  {
    if k + 1 < k' {
      TiledOrder(h, top, m, k + 1, k');
    }
  }
}
