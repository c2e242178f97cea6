/**
 * The layout build_nested_list produces is one the query can rely on: every
 * link names a header whose block lies after the linking record, the
 * top-level list and every sublist are sorted, every record contains the
 * records of its sublist, and walking the layout in preorder gives back the
 * sorted input.  Together with the query's own correctness this says that a
 * fresh search over the built list returns exactly the overlapping records.
 */
module LayoutQuery {
  import opened Records
  import opened Ordering
  import opened Nesting
  import opened Layout
  import opened LayoutFacts
  import opened Subtrees
  import opened Search
  import opened Query
  import opened Positions

  /** Records as handed to the build: no record carries a link yet. */
  ghost predicate Unlinked(s: seq<IntervalMap>) {
    forall k :: 0 <= k < |s| ==> s[k].sublist == -1
  }

  /** L is the layout of the sorted records s, with nesting par and repacking order sub. */
  ghost predicate Laid(s: seq<IntervalMap>, par: seq<int>, sub: seq<IntervalMap>, L: NCList) {
    && |par| == |s| && Nested(Ends(s), par) && SubOrder(par, sub) && |sub| > 0
    && Labels(s, par, sub, L)
    && L.headers == Shift(FoldHeaders(SubKeys(par, sub), Heads(par, |s|), |sub|), L.ntop)
  }

  /** The records of L: the top-level records, then the records of the repacking order. */
  ghost predicate Labels(s: seq<IntervalMap>, par: seq<int>, sub: seq<IntervalMap>, L: NCList) {
    && |par| == |s|
    && (forall j :: 0 <= j < |sub| ==> 0 <= sub[j].start < |s|)
    && L.ntop == |Kids(par, -1, |s|)| && |L.im| == L.ntop + |sub|
    && (forall x :: TopSlot(s, par, L, x))
    && (forall g :: SubSlot(s, par, sub, L, g))
  }

  /** Position x of the top level holds the x-th top-level record. */
  ghost predicate TopSlot(s: seq<IntervalMap>, par: seq<int>, L: NCList, x: int)
    requires |par| == |s|
  {
    var top := Kids(par, -1, |s|);
    0 <= x < |top| && x < |L.im| ==> L.im[x] == Labelled(s, par, top[x])
  }

  /** Position L.ntop + g holds the record of the g-th repacked entry. */
  ghost predicate SubSlot(s: seq<IntervalMap>, par: seq<int>, sub: seq<IntervalMap>, L: NCList, g: int)
    requires |par| == |s|
  {
    0 <= g < |sub| && 0 <= sub[g].start < |s| && 0 <= L.ntop + g < |L.im| ==>
      L.im[L.ntop + g] == Labelled(s, par, sub[g].start)
  }

  /** The layout's records are laid out as Labels says. */
  lemma LayoutLabels(s: seq<IntervalMap>)
    requires |SubEntries(Parents(Ends(s)), |s|)| > 0
    ensures Labels(s, Parents(Ends(s)), Sub(Parents(Ends(s))), LayoutOf(s))
  {
    var par := Parents(Ends(s));
    var L, top, sub := LayoutOf(s), Kids(par, -1, |s|), Sub(par);
    SubShape(par, sub);
    var cs := Order(s);
    assert cs == top + Starts(sub);
    assert L.im == LabelAll(s, par, cs);
    forall x ensures TopSlot(s, par, L, x) {
      if 0 <= x < |top| && x < |L.im| {
        assert cs[x] == top[x];
      }
    }
    forall g ensures SubSlot(s, par, sub, L, g) {
      if 0 <= g < |sub| && 0 <= L.ntop + g < |L.im| {
        assert cs[L.ntop + g] == sub[g].start;
      }
    }
  }

  lemma LayoutLaid(s: seq<IntervalMap>)
    requires |SubEntries(Parents(Ends(s)), |s|)| > 0
    ensures Laid(s, Parents(Ends(s)), Sub(Parents(Ends(s))), LayoutOf(s))
  {
    var par := Parents(Ends(s));
    ParentsNested(Ends(s));
    SubIsSubOrder(par);
    LayoutLabels(s);
  }

  /** The top-level records come first, then the repacked entries in their sorted order. */
  lemma LaidSizes(s: seq<IntervalMap>, par: seq<int>, sub: seq<IntervalMap>, L: NCList)
    requires Laid(s, par, sub, L)
    ensures |L.im| == |s| && 0 <= L.ntop && L.ntop + |sub| == |s|
    ensures |L.headers| == Heads(par, |s|)
    ensures forall x :: 0 <= x < L.ntop ==> L.im[x] == Labelled(s, par, Kids(par, -1, |s|)[x])
    ensures forall g :: 0 <= g < |sub| ==> L.im[L.ntop + g] == Labelled(s, par, sub[g].start)
  {
    LaidLength(s, par, sub, L);
    LaidTop(s, par, sub, L);
    LaidSub(s, par, sub, L);
  }

  lemma LaidLength(s: seq<IntervalMap>, par: seq<int>, sub: seq<IntervalMap>, L: NCList)
    requires Laid(s, par, sub, L)
    ensures |L.im| == |s| && 0 <= L.ntop && L.ntop + |sub| == |s|
    ensures |L.headers| == Heads(par, |s|)
  {
    TopPlusSub(par, |s|);
    assert |sub| == |multiset(sub)| == |multiset(SubEntries(par, |s|))| == |SubEntries(par, |s|)|;
  }

  lemma LaidTop(s: seq<IntervalMap>, par: seq<int>, sub: seq<IntervalMap>, L: NCList)
    requires Labels(s, par, sub, L)
    ensures forall x :: 0 <= x < L.ntop ==> L.im[x] == Labelled(s, par, Kids(par, -1, |s|)[x])
  {
    forall x | 0 <= x < L.ntop ensures L.im[x] == Labelled(s, par, Kids(par, -1, |s|)[x]) {
      assert TopSlot(s, par, L, x);
    }
  }

  lemma LaidSub(s: seq<IntervalMap>, par: seq<int>, sub: seq<IntervalMap>, L: NCList)
    requires Labels(s, par, sub, L)
    ensures |L.im| == L.ntop + |sub|
    ensures forall g :: 0 <= g < |sub| ==> L.im[L.ntop + g] == Labelled(s, par, sub[g].start)
  {
    forall g | 0 <= g < |sub| ensures L.im[L.ntop + g] == Labelled(s, par, sub[g].start) {
      assert SubSlot(s, par, sub, L, g);
    }
  }

  /** Position x of the output holds record c; past the top level, at c's own entry. */
  lemma At(s: seq<IntervalMap>, par: seq<int>, sub: seq<IntervalMap>, L: NCList, x: int) returns (c: int)
    requires Laid(s, par, sub, L) && 0 <= x < |L.im|
    ensures 0 <= c < |s| && L.im[x] == Labelled(s, par, c)
    ensures x < L.ntop ==> par[c] == -1
    ensures x >= L.ntop ==> 0 <= x - L.ntop < |sub| && sub[x - L.ntop] == SubEntry(c, par[c]) && par[c] >= 0
  {
    LaidSizes(s, par, sub, L);
    if x < L.ntop {
      c := Kids(par, -1, |s|)[x];
    } else {
      SubShape(par, sub);
      c := sub[x - L.ntop].start;
    }
  }

  /** The children of parent q, in index order, at the position its header names. */
  lemma LaidBlock(s: seq<IntervalMap>, par: seq<int>, sub: seq<IntervalMap>, L: NCList, q: int) returns (b: int)
    requires Laid(s, par, sub, L) && HasKids(par, q)
    ensures var cs := Kids(par, q, |s|);
      && 0 <= HeaderOf(par, q) < |L.headers|
      && L.headers[HeaderOf(par, q)] == SublistHeader(b, |cs|)
      && L.ntop <= b && b + |cs| <= |L.im| == |s| && b - L.ntop + |cs| <= |sub|
      && (forall t :: 0 <= t < |cs| ==> L.im[b + t] == Labelled(s, par, cs[t]))
      && (forall t :: 0 <= t < |cs| ==> sub[b - L.ntop + t] == SubEntry(cs[t], q))
  {
    b := BlockAt(s, par, sub, L, q);
    BlockEntries(s, par, sub, L, q, b);
    BlockRecords(s, par, sub, L, q, b);
  }

  lemma BlockAt(s: seq<IntervalMap>, par: seq<int>, sub: seq<IntervalMap>, L: NCList, q: int) returns (b: int)
    requires Laid(s, par, sub, L) && HasKids(par, q)
    ensures var cs := Kids(par, q, |s|);
      && 0 <= HeaderOf(par, q) < |L.headers|
      && L.headers[HeaderOf(par, q)] == SublistHeader(b, |cs|)
      && L.ntop <= b && b + |cs| <= |L.im| == |s| && b - L.ntop + |cs| <= |sub|
  {
    var g := Block(Ends(s), par, sub, q);
    LaidLength(s, par, sub, L);
    b := L.ntop + g;
  }

  lemma {:induction false} BlockEntries(s: seq<IntervalMap>, par: seq<int>, sub: seq<IntervalMap>, L: NCList, q: int, b: int)
    requires |par| == |s| && Nested(Ends(s), par) && SubOrder(par, sub) && HasKids(par, q)
    requires L.headers == Shift(FoldHeaders(SubKeys(par, sub), Heads(par, |s|), |sub|), L.ntop)
    requires 0 <= HeaderOf(par, q) < |L.headers| && L.headers[HeaderOf(par, q)].start == b
    ensures var cs := Kids(par, q, |s|);
      && 0 <= b - L.ntop && b - L.ntop + |cs| <= |sub|
      && forall t :: 0 <= t < |cs| ==> sub[b - L.ntop + t] == SubEntry(cs[t], q)
  {
    var g := Block(Ends(s), par, sub, q);
    var fold := FoldHeaders(SubKeys(par, sub), Heads(par, |s|), |sub|);
    assert fold[HeaderOf(par, q)].start == g;
  }

  lemma BlockRecords(s: seq<IntervalMap>, par: seq<int>, sub: seq<IntervalMap>, L: NCList, q: int, b: int)
    requires Labels(s, par, sub, L)
    requires var cs := Kids(par, q, |s|);
      && L.ntop <= b && b - L.ntop + |cs| <= |sub|
      && forall t :: 0 <= t < |cs| ==> sub[b - L.ntop + t] == SubEntry(cs[t], q)
    ensures var cs := Kids(par, q, |s|);
      b + |cs| <= |L.im| && forall t :: 0 <= t < |cs| ==> L.im[b + t] == Labelled(s, par, cs[t])
  {
    LaidSub(s, par, sub, L);
    var cs := Kids(par, q, |s|);
    forall t | 0 <= t < |cs| ensures L.im[b + t] == Labelled(s, par, cs[t]) {
      var g := b - L.ntop + t;
      assert L.ntop + g == b + t;
      assert sub[g] == SubEntry(cs[t], q);
      assert L.im[L.ntop + g] == Labelled(s, par, sub[g].start);
    }
  }

  /** A link names a header whose block fits the array and starts after the linking record. */
  lemma LinkAfter(s: seq<IntervalMap>, par: seq<int>, sub: seq<IntervalMap>, L: NCList, x: int)
    requires Laid(s, par, sub, L) && 0 <= x < |L.im| && L.im[x].sublist >= 0
    ensures var k := L.im[x].sublist;
      k < |L.headers| && HeaderFits(L.headers[k], |L.im|) && x < L.headers[k].start
  {
    var c := At(s, par, sub, L, x);
    assert HasKids(par, c);
    var b := BlockAt(s, par, sub, L, c);
    if x >= L.ntop {
      EntryBeforeOwnBlock(Ends(s), par, sub, c, x - L.ntop);
    }
  }

  /** The entry of a parent c in the repacking order comes before the block of c's children. */
  lemma EntryBeforeOwnBlock(e: seq<int>, par: seq<int>, sub: seq<IntervalMap>, c: int, i: int)
    requires Nested(e, par) && |par| == |e| && SubOrder(par, sub) && HasKids(par, c)
    requires 0 <= i < |sub| && sub[i] == SubEntry(c, par[c])
    ensures var h := FoldHeaders(SubKeys(par, sub), Heads(par, |par|), |sub|);
      0 <= HeaderOf(par, c) < |h| && i < h[HeaderOf(par, c)].start
  {
    var g := Block(e, par, sub, c);
    FirstKidNext(par, c);
    var cs := Kids(par, c, |par|);
    assert sub[g + 0] == SubEntry(cs[0], c);
    EntryBeforeBlock(par, sub, i, g + 0, c);
  }

  /** The first child of a parent c is the record right after it. */
  lemma FirstKidNext(par: seq<int>, c: int)
    requires HasKids(par, c) && forall j :: 0 <= j < |par| ==> par[j] < j
    ensures var cs := Kids(par, c, |par|); |cs| > 0 && cs[0] == c + 1
  {
    var cs := Kids(par, c, |par|);
    assert c + 1 in cs;
    var u :| 0 <= u < |cs| && cs[u] == c + 1;
    assert par[cs[0]] == c && cs[0] <= cs[u];
  }

  /** The entry of a parent c sorts before the entry of its first child c + 1. */
  lemma EntryBeforeBlock(par: seq<int>, sub: seq<IntervalMap>, i: int, j: int, c: int)
    requires SubOrder(par, sub) && 0 <= i < |sub| && 0 <= j < |sub| && 0 <= c < |par|
    requires par[c] < c && sub[i] == SubEntry(c, par[c]) && sub[j] == SubEntry(c + 1, c)
    ensures i < j
  {
    SubPositions(par, sub, i, j);
  }

  lemma LaidLinks(s: seq<IntervalMap>, par: seq<int>, sub: seq<IntervalMap>, L: NCList)
    requires Laid(s, par, sub, L)
    ensures ValidLinks(L.im, L.headers)
  {
    forall x | 0 <= x < |L.im| && L.im[x].sublist >= 0
      ensures L.im[x].sublist < |L.headers| && HeaderFits(L.headers[L.im[x].sublist], |L.im|)
        && x < L.headers[L.im[x].sublist].start
    {
      LinkAfter(s, par, sub, L, x);
    }
  }

  /** Siblings in index order: positive starts never decrease, positive ends strictly increase. */
  lemma SiblingsSorted(s: seq<IntervalMap>, par: seq<int>, q: int)
    requires |par| == |s| && Nested(Ends(s), par) && SortedBy(s, ImKey)
    ensures var cs := Kids(par, q, |s|);
      forall x, y :: 0 <= x < y < |cs| ==>
        PosStart(s[cs[x]]) <= PosStart(s[cs[y]]) && PosEnd(s[cs[x]]) < PosEnd(s[cs[y]])
  {
    var cs := Kids(par, q, |s|);
    forall x, y | 0 <= x < y < |cs|
      ensures PosStart(s[cs[x]]) <= PosStart(s[cs[y]]) && PosEnd(s[cs[x]]) < PosEnd(s[cs[y]])
    {
      assert KeyLe(ImKey(s[cs[x]]), ImKey(s[cs[y]]));
      assert par[cs[x]] == par[cs[y]];
      assert SiblingEnds(Ends(s), par, cs[y], cs[x]);
    }
  }

  /** The children of q laid out from position b form a sorted run. */
  lemma RunSorted(s: seq<IntervalMap>, par: seq<int>, q: int, im: seq<IntervalMap>, b: int)
    requires |par| == |s| && Nested(Ends(s), par) && SortedBy(s, ImKey)
    requires var cs := Kids(par, q, |s|);
      0 <= b && b + |cs| <= |im| && forall t :: 0 <= t < |cs| ==> im[b + t] == Labelled(s, par, cs[t])
    ensures SortedList(im, b, b + |Kids(par, q, |s|)|)
  {
    var cs := Kids(par, q, |s|);
    SiblingsSorted(s, par, q);
    forall x, y | b <= x <= y < b + |cs| && 0 <= x && y < |im|
      ensures PosStart(im[x]) <= PosStart(im[y]) && PosEnd(im[x]) <= PosEnd(im[y])
    {
      assert im[x] == Labelled(s, par, cs[x - b]) && im[y] == Labelled(s, par, cs[y - b]);
    }
  }

  /** Every header belongs to some parent. */
  lemma HeaderOwner(e: seq<int>, par: seq<int>, sub: seq<IntervalMap>, k: int) returns (q: int)
    requires Nested(e, par) && |par| == |e| && SubOrder(par, sub) && |sub| > 0
    requires 0 <= k < Heads(par, |par|)
    ensures HasKids(par, q) && HeaderOf(par, q) == k
  {
    FoldAll(e, par, sub);
    var keys, nl := SubKeys(par, sub), Heads(par, |par|);
    var h := FoldHeaders(keys, nl, |sub|);
    TiledBounds(h, nl - 1, |sub|, k);
    var i := h[k].start;
    assert keys[i] == k;
    SubParentsHaveKids(e, par, sub);
    q := sub[i].sublist;
  }

  /** The children of q sit in L from position b on, in order. */
  ghost predicate RunAt(s: seq<IntervalMap>, par: seq<int>, L: NCList, q: int, b: int)
    requires |par| == |s|
  {
    0 <= b && b + |Kids(par, q, |s|)| <= |L.im| && forall t :: Slot(s, par, L, q, b, t)
  }

  /** Position b + t holds the t-th child of q. */
  ghost predicate Slot(s: seq<IntervalMap>, par: seq<int>, L: NCList, q: int, b: int, t: int)
    requires |par| == |s|
  {
    var cs := Kids(par, q, |s|);
    0 <= t < |cs| && 0 <= b + t < |L.im| ==> L.im[b + t] == Labelled(s, par, cs[t])
  }

  lemma RunAtIntro(s: seq<IntervalMap>, par: seq<int>, L: NCList, q: int, b: int)
    requires |par| == |s|
    requires var cs := Kids(par, q, |s|);
      0 <= b && b + |cs| <= |L.im| && forall t :: 0 <= t < |cs| ==> L.im[b + t] == Labelled(s, par, cs[t])
    ensures RunAt(s, par, L, q, b)
  {
    forall t ensures Slot(s, par, L, q, b, t) {
    }
  }

  lemma RunAtElim(s: seq<IntervalMap>, par: seq<int>, L: NCList, q: int, b: int)
    requires |par| == |s| && RunAt(s, par, L, q, b)
    ensures var cs := Kids(par, q, |s|);
      0 <= b && b + |cs| <= |L.im| && forall t :: 0 <= t < |cs| ==> L.im[b + t] == Labelled(s, par, cs[t])
  {
    var cs := Kids(par, q, |s|);
    forall t | 0 <= t < |cs| ensures L.im[b + t] == Labelled(s, par, cs[t]) {
      assert Slot(s, par, L, q, b, t);
    }
  }

  /**
   * What the query's proofs need of a layout: valid links; the top-level
   * records at the front; every parent's children, in order, in the block of
   * its header; every header some parent's; every position some record.
   */
  ghost predicate Blocks(s: seq<IntervalMap>, par: seq<int>, L: NCList) {
    && |par| == |s| && Nested(Ends(s), par) && |L.im| == |s|
    && ValidLinks(L.im, L.headers)
    && L.ntop == |Kids(par, -1, |s|)| && RunAt(s, par, L, -1, 0)
    && (forall q :: ParentRun(s, par, L, q))
    && (forall k :: 0 <= k < |L.headers| ==> Owned(par, k))
    && (forall x :: 0 <= x < |L.im| ==> HoldsRecord(s, par, L, x))
  }

  /** The children of parent q lie, in order, in the block of q's header. */
  ghost predicate ParentRun(s: seq<IntervalMap>, par: seq<int>, L: NCList, q: int)
    requires |par| == |s|
  {
    HasKids(par, q) ==>
      && 0 <= HeaderOf(par, q) < |L.headers|
      && L.headers[HeaderOf(par, q)].len == |Kids(par, q, |s|)|
      && RunAt(s, par, L, q, L.headers[HeaderOf(par, q)].start)
  }

  /** Position x of L holds one of the records. */
  ghost predicate HoldsRecord(s: seq<IntervalMap>, par: seq<int>, L: NCList, x: int)
    requires |par| == |s| && 0 <= x < |L.im|
  {
    exists c :: 0 <= c < |s| && L.im[x] == Labelled(s, par, c)
  }

  /** Header k is the header of some parent. */
  ghost predicate Owned(par: seq<int>, k: int) {
    exists q :: HasKids(par, q) && HeaderOf(par, q) == k
  }

  lemma LaidBlocks(s: seq<IntervalMap>, par: seq<int>, sub: seq<IntervalMap>, L: NCList)
    requires Laid(s, par, sub, L)
    ensures Blocks(s, par, L)
  {
    LaidLength(s, par, sub, L);
    LaidLinks(s, par, sub, L);
    LaidTopRun(s, par, sub, L);
    forall q ensures ParentRun(s, par, L, q) {
      LaidParentRun(s, par, sub, L, q);
    }
    LaidOwned(s, par, sub, L);
    LaidHolds(s, par, sub, L);
  }

  /** The top-level records open the array. */
  lemma LaidTopRun(s: seq<IntervalMap>, par: seq<int>, sub: seq<IntervalMap>, L: NCList)
    requires Laid(s, par, sub, L)
    ensures RunAt(s, par, L, -1, 0)
  {
    LaidLength(s, par, sub, L);
    LaidTop(s, par, sub, L);
    forall t ensures Slot(s, par, L, -1, 0, t) {
    }
  }

  lemma LaidOwned(s: seq<IntervalMap>, par: seq<int>, sub: seq<IntervalMap>, L: NCList)
    requires Laid(s, par, sub, L)
    ensures forall k :: 0 <= k < |L.headers| ==> Owned(par, k)
  {
    LaidLength(s, par, sub, L);
    forall k | 0 <= k < |L.headers| ensures Owned(par, k) {
      var q := HeaderOwner(Ends(s), par, sub, k);
    }
  }

  lemma LaidHolds(s: seq<IntervalMap>, par: seq<int>, sub: seq<IntervalMap>, L: NCList)
    requires Laid(s, par, sub, L)
    ensures |par| == |s| && forall x :: 0 <= x < |L.im| ==> HoldsRecord(s, par, L, x)
  {
    forall x | 0 <= x < |L.im| ensures HoldsRecord(s, par, L, x) {
      var c := At(s, par, sub, L, x);
    }
  }

  lemma LaidParentRun(s: seq<IntervalMap>, par: seq<int>, sub: seq<IntervalMap>, L: NCList, q: int)
    requires Laid(s, par, sub, L)
    ensures ParentRun(s, par, L, q)
  {
    if HasKids(par, q) {
      var b := LaidBlock(s, par, sub, L, q);
      RunAtIntro(s, par, L, q, b);
    }
  }

  /** The parent q's block, read off its header. */
  lemma BlockOf(s: seq<IntervalMap>, par: seq<int>, L: NCList, q: int) returns (b: int)
    requires Blocks(s, par, L) && HasKids(par, q)
    ensures 0 <= HeaderOf(par, q) < |L.headers|
    ensures L.headers[HeaderOf(par, q)] == SublistHeader(b, |Kids(par, q, |s|)|)
    ensures RunAt(s, par, L, q, b)
  {
    assert ParentRun(s, par, L, q);
    b := L.headers[HeaderOf(par, q)].start;
  }

  lemma LaidSorted(s: seq<IntervalMap>, par: seq<int>, L: NCList)
    requires Blocks(s, par, L) && SortedBy(s, ImKey)
    ensures SortedList(L.im, 0, L.ntop)
    ensures forall k :: 0 <= k < |L.headers| ==>
      HeaderFits(L.headers[k], |L.im|) && SortedList(L.im, L.headers[k].start, L.headers[k].start + L.headers[k].len)
  {
    RunAtElim(s, par, L, -1, 0);
    RunSorted(s, par, -1, L.im, 0);
    forall k | 0 <= k < |L.headers|
      ensures HeaderFits(L.headers[k], |L.im|) && SortedList(L.im, L.headers[k].start, L.headers[k].start + L.headers[k].len)
    {
      HeaderSorted(s, par, L, k);
    }
  }

  /** The block of header k fits the array and is sorted. */
  lemma HeaderSorted(s: seq<IntervalMap>, par: seq<int>, L: NCList, k: int)
    requires Blocks(s, par, L) && SortedBy(s, ImKey) && 0 <= k < |L.headers|
    ensures HeaderFits(L.headers[k], |L.im|) && SortedList(L.im, L.headers[k].start, L.headers[k].start + L.headers[k].len)
  {
    assert Owned(par, k);
    var q :| HasKids(par, q) && HeaderOf(par, q) == k;
    var b := BlockOf(s, par, L, q);
    RunAtElim(s, par, L, q, b);
    RunSorted(s, par, q, L.im, b);
  }

  /** A record contains every record of its sublist. */
  lemma LaidContains(s: seq<IntervalMap>, par: seq<int>, L: NCList, x: int, y: int)
    requires Blocks(s, par, L) && SortedBy(s, ImKey)
    requires 0 <= x < |L.im| && 0 <= L.im[x].sublist < |L.headers| && 0 <= y < |L.im|
    requires InBlock(L.headers[L.im[x].sublist], y)
    ensures Contains(L.im[x], L.im[y])
  {
    assert HoldsRecord(s, par, L, x);
    var c :| 0 <= c < |s| && L.im[x] == Labelled(s, par, c);
    var k := BlockChild(s, par, L, c, y);
    ParentContains(s, par, c, k);
  }

  /** Position y of the block of parent c holds a child of c. */
  lemma BlockChild(s: seq<IntervalMap>, par: seq<int>, L: NCList, c: int, y: int) returns (k: int)
    requires Blocks(s, par, L) && 0 <= c < |s| && 0 <= HeaderOf(par, c) < |L.headers| && 0 <= y < |L.im|
    requires InBlock(L.headers[HeaderOf(par, c)], y)
    ensures 0 <= k < |s| && par[k] == c && L.im[y] == Labelled(s, par, k)
  {
    assert HasKids(par, c);
    var b := BlockOf(s, par, L, c);
    var cs := Kids(par, c, |s|);
    k := cs[y - b];
    assert Slot(s, par, L, c, b, y - b);
    assert L.im[b + (y - b)] == Labelled(s, par, k);
  }

  /** The sorted records nest: a parent contains each of its children. */
  lemma ParentContains(s: seq<IntervalMap>, par: seq<int>, c: int, k: int)
    requires |par| == |s| && Nested(Ends(s), par) && SortedBy(s, ImKey)
    requires 0 <= c && 0 <= k < |s| && par[k] == c
    ensures Contains(Labelled(s, par, c), Labelled(s, par, k))
  {
    assert Ends(s)[k] <= Ends(s)[c];
    assert KeyLe(ImKey(s[c]), ImKey(s[k]));
  }

  /** The layout of a sorted sequence satisfies the query's invariant. */
  lemma LaidInvariant(s: seq<IntervalMap>, par: seq<int>, L: NCList)
    requires Blocks(s, par, L) && SortedBy(s, ImKey)
    ensures Invariant(L.im, L.ntop, L.headers)
  {
    LaidSorted(s, par, L);
    forall x, y | 0 <= x < |L.im| && 0 <= L.im[x].sublist < |L.headers| && 0 <= y < |L.im|
        && InBlock(L.headers[L.im[x].sublist], y)
      ensures Contains(L.im[x], L.im[y])
    {
      LaidContains(s, par, L, x, y);
    }
  }

  /** The records a, a + 1, ..., b - 1 as the layout shows them, with their header links. */
  ghost function LabelRun(s: seq<IntervalMap>, par: seq<int>, a: int, b: int): seq<IntervalMap>
    requires 0 <= a && b <= |s|
    decreases b - a
  {
    if a >= b then [] else [Labelled(s, par, a)] + LabelRun(s, par, a + 1, b)
  }

  lemma {:induction false} LabelRunSplit(s: seq<IntervalMap>, par: seq<int>, a: int, m: int, b: int)
    requires 0 <= a <= m <= b <= |s|
    ensures LabelRun(s, par, a, b) == LabelRun(s, par, a, m) + LabelRun(s, par, m, b)
    decreases m - a
  {
    if a < m {
      LabelRunSplit(s, par, a + 1, m, b);
    }
  }

  /** The records of the subtree of c, followed by the ones from its end up to e. */
  lemma LabelRunSubtree(s: seq<IntervalMap>, par: seq<int>, c: int, m: int, e: int)
    requires 0 <= c < m <= e <= |s|
    ensures LabelRun(s, par, c, e) == [Labelled(s, par, c)] + LabelRun(s, par, c + 1, m) + LabelRun(s, par, m, e)
  {
    LabelRunSplit(s, par, c + 1, m, e);
  }

  /** Clearing the links of the laid-out run gives back the input run. */
  lemma {:induction false} LabelRunStrip(s: seq<IntervalMap>, par: seq<int>, a: int, b: int)
    requires 0 <= a <= b <= |s|
    ensures StripAll(LabelRun(s, par, a, b)) == StripAll(s[a..b])
    decreases b - a
  {
    if a < b {
      LabelRunStrip(s, par, a + 1, b);
      assert s[a..b] == [s[a]] + s[a + 1..b];
      StripAllAppend([s[a]], s[a + 1..b]);
      StripAllAppend([Labelled(s, par, a)], LabelRun(s, par, a + 1, b));
    }
  }

  /** The preorder of a run from lo is record lo, its sublist's preorder, then the rest. */
  lemma Glue(im: seq<IntervalMap>, headers: seq<SublistHeader>, lo: int, next: int, hi: int,
             below: seq<IntervalMap>, rest: seq<IntervalMap>, r: seq<IntervalMap>)
    requires ValidLinks(im, headers) && 0 <= lo < hi <= |im| && next == lo + 1
    requires Below(im, headers, lo) == below && Pre(im, headers, next, hi) == rest
    requires r == [im[lo]] + below + rest
    ensures Pre(im, headers, lo, hi) == r
  {
  }

  /** The child after the t-th starts where the t-th one's subtree ends, and so does the end of q's subtree. */
  lemma KidAfter(e: seq<int>, par: seq<int>, q: int, t: int)
    requires Nested(e, par) && |par| == |e|
    requires (q == -1 && |par| > 0) || HasKids(par, q)
    requires 0 <= t < |Kids(par, q, |par|)|
    ensures var cs := Kids(par, q, |par|);
      && End(par, cs[t]) <= End(par, q)
      && (if t + 1 < |cs| then cs[t + 1] else End(par, q)) == End(par, cs[t])
  {
    KidsChain(e, par, q);
    KidInside(e, par, q, Kids(par, q, |par|)[t]);
  }

  /** The t-th child of q: its subtree ends inside q's, where the next child starts. */
  ghost predicate KidSpan(par: seq<int>, q: int, t: int) {
    ((q == -1 && |par| > 0) || HasKids(par, q)) && 0 <= t < |Kids(par, q, |par|)| ==>
      var cs := Kids(par, q, |par|);
      && End(par, cs[t]) <= End(par, q)
      && (if t + 1 < |cs| then cs[t + 1] else End(par, q)) == End(par, cs[t])
  }

  /** A parent's first child follows it; a record without children is its own subtree. */
  ghost predicate FirstKid(par: seq<int>, c: int) {
    0 <= c < |par| ==>
      && (HasKids(par, c) ==> |Kids(par, c, |par|)| > 0 && Kids(par, c, |par|)[0] == c + 1)
      && (!HasKids(par, c) ==> End(par, c) == c + 1)
  }

  /** What the preorder proof needs of a layout, each fact on demand. */
  ghost predicate PreCtx(s: seq<IntervalMap>, par: seq<int>, L: NCList) {
    && |par| == |s| && |L.im| == |s|
    && ValidLinks(L.im, L.headers)
    && (forall q, t :: KidSpan(par, q, t))
    && (forall c :: FirstKid(par, c))
    && (forall q :: ParentRun(s, par, L, q))
  }

  lemma BlocksPreCtx(s: seq<IntervalMap>, par: seq<int>, L: NCList)
    requires Blocks(s, par, L)
    ensures PreCtx(s, par, L)
  {
    forall q, t ensures KidSpan(par, q, t) {
      if ((q == -1 && |par| > 0) || HasKids(par, q)) && 0 <= t < |Kids(par, q, |par|)| {
        KidAfter(Ends(s), par, q, t);
      }
    }
    forall c ensures FirstKid(par, c) {
      if 0 <= c < |par| {
        if HasKids(par, c) {
          KidsChain(Ends(s), par, c);
        } else {
          LeafEnd(Ends(s), par, c);
        }
      }
    }
  }

  /**
   * The preorder of the run of q's children from the t-th on is the records
   * from that child to the end of q's subtree, in index order.
   */
  lemma {:induction false} PreBlock(s: seq<IntervalMap>, par: seq<int>, L: NCList, q: int, b: int, t: int)
    requires PreCtx(s, par, L)
    requires (q == -1 && |par| > 0) || HasKids(par, q)
    requires RunAt(s, par, L, q, b) && 0 <= t <= |Kids(par, q, |s|)|
    ensures var cs := Kids(par, q, |s|);
      var from := if t < |cs| then cs[t] else End(par, q);
      from <= End(par, q)
      && Pre(L.im, L.headers, b + t, b + |cs|) == LabelRun(s, par, from, End(par, q))
    decreases |L.im| - (b + t), 1
  {
    var cs := Kids(par, q, |s|);
    if t < |cs| {
      var c := cs[t];
      assert KidSpan(par, q, t);
      assert Slot(s, par, L, q, b, t);
      var m, e := End(par, c), End(par, q);
      assert L.im[b + t] == Labelled(s, par, c);
      BelowIs(s, par, L, c, b + t);
      PreBlock(s, par, L, q, b, t + 1);
      assert (if t + 1 < |cs| then cs[t + 1] else e) == m;
      LabelRunSubtree(s, par, c, m, e);
      Glue(L.im, L.headers, b + t, b + (t + 1), b + |cs|, LabelRun(s, par, c + 1, m), LabelRun(s, par, m, e), LabelRun(s, par, c, e));
    }
  }

  /** The preorder of the sublist of record c, laid at position x, is the rest of c's subtree. */
  lemma {:induction false} BelowIs(s: seq<IntervalMap>, par: seq<int>, L: NCList, c: int, x: int)
    requires PreCtx(s, par, L)
    requires 0 <= c < |s| && 0 <= x < |L.im| && L.im[x] == Labelled(s, par, c)
    ensures Below(L.im, L.headers, x) == LabelRun(s, par, c + 1, End(par, c))
    decreases |L.im| - x, 0
  {
    assert FirstKid(par, c);
    if HasKids(par, c) {
      assert ParentRun(s, par, L, c);
      var b := L.headers[HeaderOf(par, c)].start;
      assert x < b;
      PreBlock(s, par, L, c, b, 0);
    }
  }

  /** The preorder of the whole layout visits every record once, in the sorted order. */
  lemma LaidPreorder(s: seq<IntervalMap>, par: seq<int>, L: NCList)
    requires Blocks(s, par, L) && |s| > 0
    ensures Pre(L.im, L.headers, 0, L.ntop) == LabelRun(s, par, 0, |s|)
  {
    KidsChain(Ends(s), par, -1);
    assert End(par, -1) == |s|;
    BlocksPreCtx(s, par, L);
    PreBlock(s, par, L, -1, 0, 0);
  }

  /** Without links, the preorder of a run is the run. */
  lemma {:induction false} PreFlat(im: seq<IntervalMap>, lo: int, hi: int)
    requires Unlinked(im) && 0 <= lo <= hi <= |im|
    ensures ValidLinks(im, []) && Pre(im, [], lo, hi) == im[lo..hi]
    decreases hi - lo
  {
    if lo < hi {
      PreFlat(im, lo + 1, hi);
      assert im[lo..hi] == [im[lo]] + im[lo + 1..hi];
    }
  }

  lemma UnlinkedStrip(s: seq<IntervalMap>)
    requires Unlinked(s)
    ensures StripAll(s) == s
  {
  }

  /** Without sublist entries, no record among the first m has a parent. */
  lemma {:induction false} NoEntriesTop(par: seq<int>, m: nat)
    requires m <= |par| && |SubEntries(par, m)| == 0
    ensures forall j :: 0 <= j < m ==> par[j] < 0
  {
    if m > 0 {
      NoEntriesTop(par, m - 1);
    }
  }

  /** With no contained record, every record is top-level and the ends strictly increase. */
  lemma FlatSorted(s: seq<IntervalMap>)
    requires SortedBy(s, ImKey) && |SubEntries(Parents(Ends(s)), |s|)| == 0
    ensures SortedList(s, 0, |s|)
  {
    var par := Parents(Ends(s));
    ParentsNested(Ends(s));
    NoEntriesTop(par, |s|);
    forall x, y | 0 <= x <= y < |s| ensures PosStart(s[x]) <= PosStart(s[y]) && PosEnd(s[x]) <= PosEnd(s[y]) {
      if x < y {
        assert KeyLe(ImKey(s[x]), ImKey(s[y]));
        assert par[x] == par[y];
        assert SiblingEnds(Ends(s), par, y, x);
      }
    }
  }

  /**
   * The layout build_nested_list gives sorted, unlinked records satisfies the
   * query's invariant, and its preorder is the input itself (links aside).
   */
  lemma LayoutInvariant(s: seq<IntervalMap>)
    requires SortedBy(s, ImKey) && Unlinked(s)
    ensures var L := LayoutOf(s);
      && Invariant(L.im, L.ntop, L.headers)
      && StripAll(Pre(L.im, L.headers, 0, L.ntop)) == s
  {
    if |SubEntries(Parents(Ends(s)), |s|)| > 0 {
      NestedLayoutInvariant(s);
    } else {
      FlatLayoutInvariant(s);
    }
  }

  lemma NestedLayoutInvariant(s: seq<IntervalMap>)
    requires SortedBy(s, ImKey) && Unlinked(s) && |SubEntries(Parents(Ends(s)), |s|)| > 0
    ensures var L := LayoutOf(s);
      && Invariant(L.im, L.ntop, L.headers)
      && StripAll(Pre(L.im, L.headers, 0, L.ntop)) == s
  {
    var par := Parents(Ends(s));
    var L := LayoutOf(s);
    UnlinkedStrip(s);
    LayoutLaid(s);
    LaidBlocks(s, par, Sub(par), L);
    LaidInvariant(s, par, L);
    LaidPreorder(s, par, L);
    LabelRunStrip(s, par, 0, |s|);
    assert s[0..|s|] == s;
  }

  /** With no contained record the array is left as sorted: every record is top-level. */
  lemma FlatLayoutInvariant(s: seq<IntervalMap>)
    requires SortedBy(s, ImKey) && Unlinked(s) && |SubEntries(Parents(Ends(s)), |s|)| == 0
    ensures var L := LayoutOf(s);
      && Invariant(L.im, L.ntop, L.headers)
      && StripAll(Pre(L.im, L.headers, 0, L.ntop)) == s
  {
    UnlinkedStrip(s);
    PreFlat(s, 0, |s|);
    FlatSorted(s);
    assert s[0..|s|] == s;
  }

  /**
   * A fresh search over the layout of sorted, unlinked records yields exactly
   * the records overlapping [qs, qe), in sorted order, each carrying its link.
   */
  lemma BuiltSearchIsFilter(s: seq<IntervalMap>, qs: int, qe: int)
    requires SortedBy(s, ImKey) && Unlinked(s)
    ensures var L := LayoutOf(s);
      && Invariant(L.im, L.ntop, L.headers)
      && StripAll(Pending(L.im, L.headers, qs, qe, Started([Frame(0, 0)], qs, qe, L.im, L.ntop))) == Filter(s, qs, qe)
  {
    var L := LayoutOf(s);
    LayoutInvariant(s);
    FreshSearchIsFilter(L.im, L.ntop, L.headers, qs, qe);
    StripFilter(Pre(L.im, L.headers, 0, L.ntop), qs, qe);
  }

  // ---------------------------------------------------------------------------
  // The build permutes the records and changes only their links

  /** A repeat-free sequence holding exactly the positions below n lists each of them once. */
  lemma PositionsPermute(cs: seq<int>, n: nat)
    requires Distinct(cs) && Within(cs, n)
    requires forall c :: 0 <= c < n ==> c in cs
    ensures multiset(cs) == multiset(Range(0, n))
  {
    var r := Range(0, n);
    assert Distinct(r);
    forall x ensures multiset(cs)[x] == multiset(r)[x] {
      DistinctOnce(cs, x);
      DistinctOnce(r, x);
      if 0 <= x < n {
        assert r[x] == x;
        assert x in cs && x in r;
      } else {
        assert x !in cs;
        assert x !in r;
      }
    }
  }

  /**
   * The order in which build_nested_list places the records lists every
   * position of s exactly once: the top-level records, then each contained
   * record once in the repacking order.
   */
  lemma OrderPermutes(s: seq<IntervalMap>)
    ensures multiset(Order(s)) == multiset(Range(0, |s|))
  {
    var par := Parents(Ends(s));
    var top, sub := Kids(par, -1, |s|), Sub(par);
    var cs := Order(s);
    assert cs == top + Starts(sub);
    assert par == ParentsUpTo(Ends(s), |s|);
    SubIsSubOrder(par);
    SubShape(par, sub);
    SubStrict(par, sub);
    forall j, k | 0 <= j < k < |cs| ensures cs[j] != cs[k] {
      if k < |top| {
      } else if j >= |top| {
        var i, i' := j - |top|, k - |top|;
        assert KeyLt(SublistKey(sub[i]), SublistKey(sub[i']));
        if sub[i].start == sub[i'].start {
          assert sub[i] == sub[i'];
        }
      } else {
        assert par[cs[j]] == -1 && par[cs[k]] >= 0;
      }
    }
    forall c | 0 <= c < |s| ensures c in cs {
      if par[c] == -1 {
        assert c in top;
      } else {
        var i := SubComplete(par, sub, c);
        assert cs[|top| + i] == c;
      }
    }
    PositionsPermute(cs, |s|);
  }

  lemma PickAll(s: seq<IntervalMap>)
    ensures Pick(s, Range(0, |s|)) == s
  {
  }

  /**
   * The array build_nested_list leaves is a permutation of the records it was
   * given, once the links it set are cleared: the build moves records and
   * sets their `sublist` fields, and changes nothing else.
   */
  lemma LayoutPermutes(s: seq<IntervalMap>)
    requires Unlinked(s)
    ensures multiset(StripAll(LayoutOf(s).im)) == multiset(s)
  {
    var par := Parents(Ends(s));
    UnlinkedStrip(s);
    if |SubEntries(par, |s|)| > 0 {
      var cs := Order(s);
      assert StripAll(LayoutOf(s).im) == Pick(s, cs);
      OrderPermutes(s);
      PickPermutes(s, cs, Range(0, |s|));
      PickAll(s);
    }
  }
}
