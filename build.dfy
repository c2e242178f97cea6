/**
 * build_nested_list itself, as the in-place procedure it is: sort the
 * records, scan them with `sublist` as a parent stack, number the parents,
 * sort the contained records' entries, copy them into blocks with their
 * headers, compact the top level and append the blocks.
 *
 * Every phase is proved against the functions of `Nesting` and `Layout`, so
 * that the whole procedure yields `LayoutOf` of the sorted records.
 */
module Build {
  import opened Records
  import opened Ordering
  import opened Nesting
  import opened Layout
  import opened LayoutFacts
  import opened LayoutQuery
  import opened Query

  /** The deletion mark of the repacking: both ends -1. */
  predicate Erased(r: IntervalMap) {
    r.start == -1 && r.end == -1
  }

  function Erase(r: IntervalMap): (m: IntervalMap)
    ensures Erased(m) && m.sublist == r.sublist
  {
    r.(start := -1, end := -1)
  }

  ghost predicate NoneErased(s: seq<IntervalMap>) {
    forall k :: 0 <= k < |s| ==> !Erased(s[k])
  }

  /** The first m elements of a are in key order. */
  ghost predicate SortedPrefix(a: array<IntervalMap>, key: IntervalMap -> Key, m: int)
    reads a
  {
    forall x, y :: 0 <= x < y < m && y < a.Length ==> KeyLe(key(a[x]), key(a[y]))
  }

  /**
   * The qsort calls, as an insertion sort in place: the array ends up a
   * sorted permutation of what it held.
   */
  method SortRecords(a: array<IntervalMap>, key: IntervalMap -> Key)
    modifies a
    ensures SortedBy(a[..], key) && multiset(a[..]) == multiset(old(a[..]))
  {
    var i := 0;
    while i < a.Length
      invariant 0 <= i <= a.Length
      invariant SortedPrefix(a, key, i)
      invariant multiset(a[..]) == multiset(old(a[..]))
    {
      InsertLast(a, key, i);
      i := i + 1;
    }
  }

  /** One insertion step: a[i] moves down past the larger elements before it. */
  method InsertLast(a: array<IntervalMap>, key: IntervalMap -> Key, i: int)
    requires 0 <= i < a.Length && SortedPrefix(a, key, i)
    modifies a
    ensures SortedPrefix(a, key, i + 1) && multiset(a[..]) == multiset(old(a[..]))
  {
    var j := i;
    while 0 < j && !KeyLe(key(a[j - 1]), key(a[j]))
      invariant 0 <= j <= i
      invariant forall x, y :: 0 <= x < y <= i && x != j && y != j ==> KeyLe(key(a[x]), key(a[y]))
      invariant forall y :: j < y <= i ==> KeyLe(key(a[j]), key(a[y]))
      invariant multiset(a[..]) == multiset(old(a[..]))
      decreases j
    {
      a[j - 1], a[j] := a[j], a[j - 1];
      j := j - 1;
    }
  }

  /** The parent the scan gives record i: the climb from record i - 1. */
  lemma {:induction false} ParentIsClimb(e: seq<int>, i: nat)
    requires i < |e|
    ensures var par := Parents(e);
      par[i] == Climb(e, par[..i], i, i - 1)
  {
    ParentsUpToPrefix(e, |e|, i + 1);
    ParentsUpToPrefix(e, |e|, i);
  }

  /** One step of the climb: stop at a candidate that ends no earlier, else go to its parent. */
  lemma ClimbStep(e: seq<int>, par: seq<int>, i: nat, p: int)
    requires i < |e| == |par| && 0 <= p < i
    requires forall j :: 0 <= j < |par| ==> -1 <= par[j] < j
    ensures e[i] <= e[p] ==> Climb(e, par[..i], i, p) == p
    ensures e[i] > e[p] ==> Climb(e, par[..i], i, p) == Climb(e, par[..i], i, par[p])
  {
    assert par[..i][p] == par[p];
  }

  /** The records with the parents of the first i of them written into `sublist`. */
  ghost function Linked(s: seq<IntervalMap>, par: seq<int>, i: int): (r: seq<IntervalMap>)
    requires |par| == |s|
    ensures |r| == |s|
  {
    seq(|s|, k requires 0 <= k < |s| => if k < i then s[k].(sublist := par[k]) else s[k])
  }

  lemma LinkedStep(s: seq<IntervalMap>, par: seq<int>, i: int)
    requires 0 <= i < |s| == |par|
    ensures Linked(s, par, i + 1) == Linked(s, par, i)[i := s[i].(sublist := par[i])]
  {
  }

  lemma LinkedTop(s: seq<IntervalMap>, par: seq<int>, i: int)
    requires 0 <= i < |s| == |par| && s[i].sublist == -1 && par[i] == -1
    ensures Linked(s, par, i + 1) == Linked(s, par, i)
  {
    LinkedStep(s, par, i);
  }

  lemma SubEntriesStep(par: seq<int>, i: nat)
    requires i < |par|
    ensures |SubEntries(par, i + 1)| == |SubEntries(par, i)| + (if par[i] >= 0 then 1 else 0)
  {
  }

  /** The state of the scan once the first i records have their parent. */
  ghost predicate Scanning(im: array<IntervalMap>, s: seq<IntervalMap>, par: seq<int>, i: int, nsub: int)
    reads im
  {
    && |par| == |s| == im.Length && 0 <= i <= |s|
    && im[..] == Linked(s, par, i)
    && nsub == |SubEntries(par, i)|
  }

  /**
   * Lines 73-87: the top-level scan.  Record i climbs the chain of open
   * containers from record i - 1, read through the `sublist` fields already
   * written; every record ends with its parent (or -1) in `sublist`.
   */
  method ScanParents(im: array<IntervalMap>) returns (nsub: int)
    requires Unlinked(im[..])
    modifies im
    ensures var par := Parents(Ends(old(im[..])));
      im[..] == Linked(old(im[..]), par, im.Length)
    ensures nsub == |SubEntries(Parents(Ends(old(im[..]))), im.Length)|
  {
    ghost var s := im[..];
    ghost var e := Ends(s);
    ghost var par := Parents(e);
    var n := im.Length;
    var i := 0;
    nsub := 0;
    while i < n
      invariant Scanning(im, s, par, i, nsub)
      invariant i < n ==> par[i] == -1
      decreases n - i
    {
      LinkedTop(s, par, i);
      SubEntriesStep(par, i);
      var parent := i;
      i := parent + 1;
      ghost var first := i;
      if i < n {
        ParentIsClimb(e, i);
      }
      while i < n && parent >= 0
        invariant Scanning(im, s, par, i, nsub)
        invariant first <= i && -1 <= parent < i
        invariant i < n ==> Climb(e, par[..i], i, parent) == par[i]
        decreases n - i, parent + 1
      {
        i, parent, nsub := ClimbOne(im, s, par, i, parent, nsub);
      }
    }
  }

  /** One step of the inner scan: record i is contained in the candidate, or the candidate is popped. */
  method ClimbOne(im: array<IntervalMap>, ghost s: seq<IntervalMap>, ghost par: seq<int>, i: int, parent: int, nsub: int)
      returns (i': int, parent': int, nsub': int)
    requires par == Parents(Ends(s)) && Scanning(im, s, par, i, nsub)
    requires 0 <= parent < i < im.Length && Climb(Ends(s), par[..i], i, parent) == par[i]
    modifies im
    ensures Scanning(im, s, par, i', nsub')
    ensures -1 <= parent' < i' && (i' == i + 1 || (i' == i && parent' < parent))
    ensures i' < im.Length ==> Climb(Ends(s), par[..i'], i', parent') == par[i']
  {
    ghost var e := Ends(s);
    ClimbStep(e, par, i, parent);
    assert im[i] == s[i] && im[parent].sublist == par[parent];
    assert PosEnd(im[parent]) == e[parent] && PosEnd(im[i]) == e[i];
    if PosEnd(im[i]) <= PosEnd(im[parent]) {
      LinkedStep(s, par, i);
      SubEntriesStep(par, i);
      im[i] := im[i].(sublist := parent);
      nsub' := nsub + 1;
      parent' := i;
      i' := i + 1;
      if i' < im.Length {
        ParentIsClimb(e, i');
      }
    } else {
      i', nsub' := i, nsub;
      parent' := im[parent].sublist;
    }
  }

  /** A record as CALLOC hands it out: all fields zero. */
  const Zero := IntervalMap(0, 0, 0, 0, 0, 0)

  function Zeros(m: nat): (r: seq<IntervalMap>)
    ensures |r| == m && forall t :: 0 <= t < m ==> r[t] == Zero
  {
    seq(m, _ => Zero)
  }

  /** CALLOC of m records. */
  method Calloc(m: nat) returns (a: array<IntervalMap>)
    ensures fresh(a) && a[..] == Zeros(m)
  {
    a := new IntervalMap[m](_ => Zero);
  }

  /** The records with their final `sublist`: the header index of a parent, else -1. */
  ghost function LabelledRecords(s: seq<IntervalMap>, par: seq<int>): (r: seq<IntervalMap>)
    ensures |r| == |s| && forall k :: 0 <= k < |s| ==> r[k] == Labelled(s, par, k)
  {
    seq(|s|, k requires 0 <= k < |s| => Labelled(s, par, k))
  }

  /**
   * The records once the numbering loop has passed the first i: those reset
   * to -1, except a parent whose first child has been seen, which holds its
   * header index; the rest still hold their parent.
   */
  ghost function Numbered(s: seq<IntervalMap>, par: seq<int>, i: int): (r: seq<IntervalMap>)
    requires |par| == |s|
    ensures |r| == |s|
  {
    seq(|s|, k requires 0 <= k < |s| =>
      if k < i then s[k].(sublist := if HasKids(par, k) && k + 1 < i then HeaderOf(par, k) else -1)
      else s[k].(sublist := par[k]))
  }

  lemma NumberedFirst(s: seq<IntervalMap>, par: seq<int>)
    requires |par| == |s|
    ensures Numbered(s, par, 0) == Linked(s, par, |s|)
  {
  }

  lemma NumberedLast(s: seq<IntervalMap>, par: seq<int>)
    requires |par| == |s|
    ensures Numbered(s, par, |s|) == LabelledRecords(s, par)
  {
  }

  /** The loop's step the first child of a parent takes: the parent gets its header index. */
  lemma NumberedFirstChild(s: seq<IntervalMap>, par: seq<int>, i: int)
    requires 0 < i < |s| == |par| && par[i] == i - 1
    ensures Numbered(s, par, i + 1)
      == Numbered(s, par, i)[i - 1 := s[i - 1].(sublist := Heads(par, i))][i := s[i].(sublist := -1)]
  {
  }

  /** The step every other record takes: its own `sublist` is reset. */
  lemma NumberedOther(s: seq<IntervalMap>, par: seq<int>, i: int)
    requires 0 <= i < |s| == |par| && !(i > 0 && par[i] == i - 1)
    ensures Numbered(s, par, i + 1) == Numbered(s, par, i)[i := s[i].(sublist := -1)]
  {
  }

  /** A parent still reads -1 exactly when the record at hand is its first child. */
  lemma {:induction false} NumberedParent(s: seq<IntervalMap>, i: int)
    requires 0 <= i < |s| && Parents(Ends(s))[i] >= 0
    ensures var par := Parents(Ends(s));
      Numbered(s, par, i)[par[i]].sublist < 0 <==> par[i] == i - 1
  {
    ParentsNested(Ends(s));
    FirstChildFollows(Ends(s), Parents(Ends(s)), i);
  }

  lemma HeadsStep(par: seq<int>, i: int)
    requires 0 <= i < |par| && forall j :: 0 <= j < |par| ==> -1 <= par[j] < j
    ensures Heads(par, i + 1) == Heads(par, i) + (if i > 0 && par[i] == i - 1 then 1 else 0)
  {
  }

  lemma EntriesStep(par: seq<int>, i: int, nsub: int)
    requires 0 <= i < |par| && par[i] >= 0 && |SubEntries(par, i + 1)| <= nsub
    ensures (SubEntries(par, i) + Zeros(nsub - |SubEntries(par, i)|))[|SubEntries(par, i)| := SubEntry(i, par[i])]
      == SubEntries(par, i + 1) + Zeros(nsub - |SubEntries(par, i + 1)|)
  {
  }

  lemma SubEntriesBelow(par: seq<int>, i: int, m: int)
    requires 0 <= i <= m <= |par|
    ensures |SubEntries(par, i)| <= |SubEntries(par, m)|
    decreases m
  {
    if i < m {
      SubEntriesBelow(par, i, m - 1);
    }
  }

  /** The state of the numbering loop after the first i records. */
  ghost predicate Numbering(im: array<IntervalMap>, imsub: array<IntervalMap>, s: seq<IntervalMap>,
                            par: seq<int>, i: int, j: int, nlists: int)
    reads im, imsub
  {
    && |par| == |s| == im.Length && 0 <= i <= |s|
    && j == |SubEntries(par, i)| && j <= imsub.Length
    && im[..] == Numbered(s, par, i)
    && imsub[..] == SubEntries(par, i) + Zeros(imsub.Length - j)
    && nlists == Heads(par, i)
  }

  /**
   * Lines 89-100: one pass over the records lists every contained record
   * (its index and parent) in index order, and hands each parent the next
   * header index when its first child comes by; every parent pointer is
   * reset on the way.
   */
  method NumberParents(im: array<IntervalMap>, nsub: int, ghost s: seq<IntervalMap>)
      returns (imsub: array<IntervalMap>, nlists: int)
    requires |s| == im.Length && nsub == |SubEntries(Parents(Ends(s)), |s|)|
    requires im[..] == Linked(s, Parents(Ends(s)), |s|)
    modifies im
    ensures fresh(imsub)
    ensures imsub[..] == SubEntries(Parents(Ends(s)), |s|)
    ensures nlists == Heads(Parents(Ends(s)), |s|)
    ensures im[..] == LabelledRecords(s, Parents(Ends(s)))
  {
    ghost var par := Parents(Ends(s));
    var n := im.Length;
    imsub := Calloc(nsub);
    nlists := 0;
    var i, j := 0, 0;
    NumberedFirst(s, par);
    while i < n
      invariant Numbering(im, imsub, s, par, i, j, nlists)
      invariant imsub.Length == nsub
      decreases n - i
    {
      j, nlists := NumberOne(im, imsub, s, par, i, j, nlists);
      i := i + 1;
    }
    NumberedLast(s, par);
  }

  /** One iteration of the numbering loop, for record i. */
  method NumberOne(im: array<IntervalMap>, imsub: array<IntervalMap>, ghost s: seq<IntervalMap>,
                   ghost par: seq<int>, i: int, j: int, nlists: int)
      returns (j': int, nlists': int)
    requires im != imsub && par == Parents(Ends(s)) && imsub.Length == |SubEntries(par, |s|)|
    requires Numbering(im, imsub, s, par, i, j, nlists) && i < im.Length
    modifies im, imsub
    ensures Numbering(im, imsub, s, par, i + 1, j', nlists')
  {
    SubEntriesBelow(par, i + 1, |s|);
    HeadsStep(par, i);
    j', nlists' := j, nlists;
    var parent := im[i].sublist;
    if parent >= 0 {
      EntriesStep(par, i, imsub.Length);
      imsub[j] := imsub[j].(start := i, sublist := parent);
      j' := j + 1;
      NumberedParent(s, i);
      if im[parent].sublist < 0 {
        NumberedFirstChild(s, par, i);
        im[parent] := im[parent].(sublist := nlists);
        nlists' := nlists + 1;
      } else {
        NumberedOther(s, par, i);
      }
    } else {
      NumberedOther(s, par, i);
    }
    im[i] := im[i].(sublist := -1);
  }

  /** Every entry names a record. */
  ghost predicate StartsIn(sub: seq<IntervalMap>, n: int) {
    forall t :: 0 <= t < |sub| ==> 0 <= sub[t].start < n
  }

  /** The entries once the first i have been replaced by the records they name. */
  ghost function Copied(s: seq<IntervalMap>, par: seq<int>, sub: seq<IntervalMap>, i: int): (r: seq<IntervalMap>)
    requires StartsIn(sub, |s|)
    ensures |r| == |sub|
  {
    seq(|sub|, t requires 0 <= t < |sub| => if t < i then Labelled(s, par, sub[t].start) else sub[t])
  }

  /** The records once those named by the first i entries are marked for deletion. */
  ghost function Marked(s: seq<IntervalMap>, par: seq<int>, sub: seq<IntervalMap>, i: int): (r: seq<IntervalMap>)
    requires 0 <= i <= |sub|
    ensures |r| == |s|
  {
    seq(|s|, k requires 0 <= k < |s| =>
      if k in Starts(sub)[..i] then Erase(Labelled(s, par, k)) else Labelled(s, par, k))
  }

  /** After the copy loop: every contained record is marked, the top-level ones are intact. */
  ghost function Pruned(s: seq<IntervalMap>, par: seq<int>): (r: seq<IntervalMap>)
    requires |par| == |s|
    ensures |r| == |s|
    ensures forall k {:trigger r[k]} :: 0 <= k < |s| && par[k] >= 0 ==> r[k] == Erase(Labelled(s, par, k))
    ensures forall k {:trigger r[k]} :: 0 <= k < |s| && par[k] < 0 ==> r[k] == Labelled(s, par, k)
  {
    seq(|s|, k requires 0 <= k < |s| => if par[k] >= 0 then Erase(Labelled(s, par, k)) else Labelled(s, par, k))
  }

  /** The headers as CALLOC hands them out. */
  method CallocHeaders(m: nat) returns (a: array<SublistHeader>)
    ensures fresh(a) && a[..] == seq(m, _ => SublistHeader(0, 0))
  {
    a := new SublistHeader[m](_ => SublistHeader(0, 0));
  }

  /** What the copy loop needs of entry i of the sorted sequence. */
  lemma {:induction false} EntryFacts(s: seq<IntervalMap>, sub: seq<IntervalMap>, i: int)
    requires SubOrder(Parents(Ends(s)), sub) && 0 <= i < |sub|
    ensures var par := Parents(Ends(s)); var j := sub[i].start;
      && 0 <= j < |s| && par[j] >= 0 && sub[i] == SubEntry(j, par[j])
      && 0 <= HeaderOf(par, sub[i].sublist) < Heads(par, |s|)
      && j !in Starts(sub)[..i]
  {
    SubShape(Parents(Ends(s)), sub);
    EntryHeader(s, sub, i);
    EntryUnseen(Parents(Ends(s)), sub, i);
  }

  /** The parent of an entry has a header. */
  lemma {:induction false} EntryHeader(s: seq<IntervalMap>, sub: seq<IntervalMap>, i: int)
    requires SubOrder(Parents(Ends(s)), sub) && 0 <= i < |sub|
    ensures 0 <= HeaderOf(Parents(Ends(s)), sub[i].sublist) < Heads(Parents(Ends(s)), |s|)
  {
    var par := Parents(Ends(s));
    ParentsNested(Ends(s));
    SubParentsHaveKids(Ends(s), par, sub);
    HeaderOfBound(par, sub[i].sublist);
  }

  /** No earlier entry names the same record. */
  lemma {:induction false} EntryUnseen(par: seq<int>, sub: seq<IntervalMap>, i: int)
    requires SubOrder(par, sub) && 0 <= i < |sub|
    ensures sub[i].start !in Starts(sub)[..i]
  {
    if sub[i].start in Starts(sub)[..i] {
      var t :| 0 <= t < i && Starts(sub)[..i][t] == sub[i].start;
      SubStrict(par, sub);
      SubShape(par, sub);
      assert false;
    }
  }

  lemma {:induction false} StartsShape(s: seq<IntervalMap>, sub: seq<IntervalMap>)
    requires SubOrder(Parents(Ends(s)), sub)
    ensures StartsIn(sub, |s|)
  {
    SubShape(Parents(Ends(s)), sub);
  }

  lemma CopiedStep(s: seq<IntervalMap>, par: seq<int>, sub: seq<IntervalMap>, i: int)
    requires StartsIn(sub, |s|) && 0 <= i < |sub|
    ensures Copied(s, par, sub, i + 1) == Copied(s, par, sub, i)[i := Labelled(s, par, sub[i].start)]
  {
  }

  lemma MarkedStep(s: seq<IntervalMap>, par: seq<int>, sub: seq<IntervalMap>, i: int)
    requires StartsIn(sub, |s|) && 0 <= i < |sub|
    ensures Marked(s, par, sub, i + 1)
      == Marked(s, par, sub, i)[sub[i].start := Erase(Labelled(s, par, sub[i].start))]
  {
    assert Starts(sub)[..i + 1] == Starts(sub)[..i] + [sub[i].start];
  }

  lemma MarkedFirst(s: seq<IntervalMap>, par: seq<int>, sub: seq<IntervalMap>)
    ensures Marked(s, par, sub, 0) == LabelledRecords(s, par)
  {
  }

  lemma {:induction false} MarkedLast(s: seq<IntervalMap>, sub: seq<IntervalMap>)
    requires SubOrder(Parents(Ends(s)), sub)
    ensures var par := Parents(Ends(s));
      Marked(s, par, sub, |sub|) == Pruned(s, par)
  {
    var par := Parents(Ends(s));
    SubShape(par, sub);
    assert Starts(sub)[..|sub|] == Starts(sub);
    forall k | 0 <= k < |s| ensures (k in Starts(sub)) == (par[k] >= 0) {
      if par[k] >= 0 {
        var t := SubComplete(par, sub, k);
        assert Starts(sub)[t] == k;
      }
    }
  }

  lemma CopiedLast(s: seq<IntervalMap>, par: seq<int>, sub: seq<IntervalMap>)
    requires StartsIn(sub, |s|)
    ensures Copied(s, par, sub, |sub|) == LabelAll(s, par, Starts(sub))
  {
  }

  lemma FoldStep(keys: seq<int>, nlists: nat, i: int)
    requires 0 <= i < |keys|
    ensures FoldHeaders(keys, nlists, i + 1) == AddEntry(FoldHeaders(keys, nlists, i), keys[i], i)
  {
  }

  /** The state of the copy loop after the first i entries: entries a, records b, headers h. */
  ghost predicate FillState(b: seq<IntervalMap>, a: seq<IntervalMap>, h: seq<SublistHeader>,
                            s: seq<IntervalMap>, par: seq<int>, sub: seq<IntervalMap>, i: int)
  {
    && |par| == |s| == |b| && |sub| == |a| && 0 <= i <= |sub| && StartsIn(sub, |s|)
    && a == Copied(s, par, sub, i)
    && b == Marked(s, par, sub, i)
    && h == FoldHeaders(SubKeys(par, sub), |h|, i)
  }

  ghost predicate Filling(im: array<IntervalMap>, imsub: array<IntervalMap>, subheader: array<SublistHeader>,
                          s: seq<IntervalMap>, par: seq<int>, sub: seq<IntervalMap>, i: int)
    reads im, imsub, subheader
  {
    FillState(im[..], imsub[..], subheader[..], s, par, sub, i)
  }

  /** Before the first entry: the records as labelled, the entries as sorted, all headers empty. */
  lemma FillStart(b: seq<IntervalMap>, a: seq<IntervalMap>, h: seq<SublistHeader>,
                  s: seq<IntervalMap>, par: seq<int>)
    requires |par| == |s| == |b| && StartsIn(a, |s|)
    requires b == LabelledRecords(s, par) && h == seq(|h|, _ => SublistHeader(0, 0))
    ensures FillState(b, a, h, s, par, a, 0)
  {
    MarkedFirst(s, par, a);
  }

  /** Once every entry is processed, the three arrays hold what the layout needs. */
  lemma FillDone(b: seq<IntervalMap>, a: seq<IntervalMap>, h: seq<SublistHeader>,
                 s: seq<IntervalMap>, sub: seq<IntervalMap>, i: int)
    requires SubOrder(Parents(Ends(s)), sub) && FillState(b, a, h, s, Parents(Ends(s)), sub, i) && i == |sub|
    ensures var par := Parents(Ends(s));
      && h == FoldHeaders(SubKeys(par, sub), |h|, |sub|)
      && a == LabelAll(s, par, Starts(sub))
      && b == Pruned(s, par)
  {
    MarkedLast(s, sub);
    CopiedLast(s, Parents(Ends(s)), sub);
  }

  /**
   * Lines 103-114: each sorted entry is replaced by the record it names,
   * which is marked for deletion in place, and is counted into its parent's
   * header; the first entry of a parent opens the header.
   */
  method FillSublists(im: array<IntervalMap>, imsub: array<IntervalMap>, nlists: int,
                      ghost s: seq<IntervalMap>, ghost par: seq<int>, ghost sub: seq<IntervalMap>)
      returns (subheader: array<SublistHeader>)
    requires im != imsub && |s| == im.Length && par == Parents(Ends(s)) && nlists == Heads(par, |s|)
    requires imsub[..] == sub && SubOrder(par, sub) && StartsIn(sub, |s|)
    requires im[..] == LabelledRecords(s, par)
    modifies im, imsub
    ensures fresh(subheader)
    ensures subheader[..] == FoldHeaders(SubKeys(par, sub), nlists, |sub|)
    ensures imsub[..] == LabelAll(s, par, Starts(sub))
    ensures im[..] == Pruned(s, par)
  {
    subheader := CallocHeaders(nlists);
    FillStart(im[..], imsub[..], subheader[..], s, par);
    FillLoop(im, imsub, subheader, s, par, sub);
    FillDone(im[..], imsub[..], subheader[..], s, sub, |sub|);
  }

  /** The copy loop itself, from the state before the first entry to the state after the last. */
  method FillLoop(im: array<IntervalMap>, imsub: array<IntervalMap>, subheader: array<SublistHeader>,
                  ghost s: seq<IntervalMap>, ghost par: seq<int>, ghost sub: seq<IntervalMap>)
    requires im != imsub && par == Parents(Ends(s)) && SubOrder(par, sub)
    requires Filling(im, imsub, subheader, s, par, sub, 0) && subheader.Length == Heads(par, |s|)
    modifies im, imsub, subheader
    ensures Filling(im, imsub, subheader, s, par, sub, |sub|)
  {
    var i := 0;
    while i < imsub.Length
      invariant 0 <= i <= imsub.Length == |sub|
      invariant Filling(im, imsub, subheader, s, par, sub, i)
      invariant subheader.Length == Heads(par, |s|)
      decreases imsub.Length - i
    {
      FillOne(im, imsub, subheader, s, par, sub, i);
      i := i + 1;
    }
  }


  /** One iteration of the copy loop, for entry i. */
  method FillOne(im: array<IntervalMap>, imsub: array<IntervalMap>, subheader: array<SublistHeader>,
                 ghost s: seq<IntervalMap>, ghost par: seq<int>, ghost sub: seq<IntervalMap>, i: int)
    requires im != imsub && par == Parents(Ends(s)) && SubOrder(par, sub)
    requires Filling(im, imsub, subheader, s, par, sub, i) && i < imsub.Length
    requires subheader.Length == Heads(par, |s|)
    modifies im, imsub, subheader
    ensures Filling(im, imsub, subheader, s, par, sub, i + 1)
  {
    EntryFacts(s, sub, i);
    CopiedStep(s, par, sub, i);
    MarkedStep(s, par, sub, i);
    ghost var keys := SubKeys(par, sub);
    FoldStep(keys, subheader.Length, i);
    var j := imsub[i].start;
    var parent := imsub[i].sublist;
    assert im[j] == Labelled(s, par, j);
    imsub[i] := im[j];
    assert imsub[..] == Copied(s, par, sub, i + 1);
    var k := im[parent].sublist;
    assert k == keys[i];
    ghost var h := subheader[..];
    var header := subheader[k];
    if header.len == 0 {
      header := header.(start := i);
    }
    header := header.(len := header.len + 1);
    assert header == AddEntry(h, k, i)[k];
    subheader[k] := header;
    assert subheader[..] == h[k := header];
    im[j] := im[j].(start := -1, end := -1);
  }

  lemma KidsStep(par: seq<int>, q: int, m: nat)
    requires m < |par|
    ensures Kids(par, q, m + 1) == Kids(par, q, m) + (if par[m] == q then [m] else [])
  {
  }

  /** The state of the compaction after the first i records, j of them kept. */
  ghost predicate Compacting(im: array<IntervalMap>, s: seq<IntervalMap>, par: seq<int>, i: int, j: int)
    reads im
  {
    && |par| == |s| == im.Length && 0 <= j <= i <= |s|
    && j == |Kids(par, -1, i)|
    && im[..] == LabelAll(s, par, Kids(par, -1, i)) + Pruned(s, par)[j..]
  }

  lemma CompactKeep(s: seq<IntervalMap>, par: seq<int>, i: int, j: int)
    requires |par| == |s| && 0 <= j <= i < |s| && j == |Kids(par, -1, i)| && par[i] == -1
    ensures (LabelAll(s, par, Kids(par, -1, i)) + Pruned(s, par)[j..])[j := Labelled(s, par, i)]
      == LabelAll(s, par, Kids(par, -1, i + 1)) + Pruned(s, par)[j + 1..]
  {
    KidsStep(par, -1, i);
  }

  lemma PastFront(a: seq<IntervalMap>, p: seq<IntervalMap>, i: int)
    requires |a| <= i < |p|
    ensures (a + p[|a|..])[i] == p[i]
  {
  }

  lemma CompactFirst(s: seq<IntervalMap>, par: seq<int>)
    requires |par| == |s|
    ensures LabelAll(s, par, Kids(par, -1, 0)) + Pruned(s, par)[0..] == Pruned(s, par)
  {
    assert Kids(par, -1, 0) == [];
  }

  lemma CompactDrop(par: seq<int>, i: int)
    requires 0 <= i < |par| && par[i] != -1
    ensures Kids(par, -1, i + 1) == Kids(par, -1, i)
  {
    KidsStep(par, -1, i);
  }

  /**
   * Lines 116-121: the records not marked for deletion, which are exactly the
   * top-level ones, move to the front in their order.
   */
  method Compact(im: array<IntervalMap>, ghost s: seq<IntervalMap>) returns (ntop: int)
    requires |s| == im.Length && NoneErased(s)
    requires im[..] == Pruned(s, Parents(Ends(s)))
    modifies im
    ensures Compacting(im, s, Parents(Ends(s)), |s|, ntop)
  {
    ghost var par := Parents(Ends(s));
    var i, j := 0, 0;
    CompactFirst(s, par);
    while i < im.Length
      invariant Compacting(im, s, par, i, j)
      decreases im.Length - i
    {
      j := CompactOne(im, s, par, i, j);
      i := i + 1;
    }
    ntop := j;
  }

  /** One iteration of the compaction, for record i. */
  method CompactOne(im: array<IntervalMap>, ghost s: seq<IntervalMap>, ghost par: seq<int>, i: int, j: int)
      returns (j': int)
    requires par == Parents(Ends(s)) && NoneErased(s)
    requires Compacting(im, s, par, i, j) && i < im.Length
    modifies im
    ensures Compacting(im, s, par, i + 1, j')
  {
    PastFront(LabelAll(s, par, Kids(par, -1, i)), Pruned(s, par), i);
    assert im[i] == Pruned(s, par)[i];
    j' := j;
    if im[i].start != -1 || im[i].end != -1 {
      assert !Erased(im[i]) && par[i] == -1;
      CompactKeep(s, par, i, j);
      if j < i {
        im[j] := im[i];
      }
      j' := j + 1;
    } else {
      CompactDrop(par, i);
    }
  }

  /** Line 123: the blocks go right after the top level. */
  method CopyBlocks(im: array<IntervalMap>, imsub: array<IntervalMap>, ntop: int)
    requires im != imsub && 0 <= ntop && ntop + imsub.Length == im.Length
    modifies im
    ensures im[..] == old(im[..ntop]) + imsub[..]
  {
    var t := 0;
    while t < imsub.Length
      invariant 0 <= t <= imsub.Length
      invariant forall k :: 0 <= k < ntop ==> im[k] == old(im[k])
      invariant forall k :: 0 <= k < t ==> im[ntop + k] == imsub[k]
    {
      im[ntop + t] := imsub[t];
      t := t + 1;
    }
    assert forall k :: ntop <= k < im.Length ==> im[k] == imsub[k - ntop];
  }

  /** Lines 124-125: every block start moves by the length of the top level. */
  method ShiftHeaders(subheader: array<SublistHeader>, d: int)
    modifies subheader
    ensures subheader[..] == Shift(old(subheader[..]), d)
  {
    ghost var h := subheader[..];
    var i := 0;
    while i < subheader.Length
      invariant 0 <= i <= subheader.Length
      invariant subheader[..] == Shift(h, d)[..i] + h[i..]
    {
      ShiftedOne(h, d, i);
      subheader[i] := subheader[i].(start := subheader[i].start + d);
      i := i + 1;
    }
    assert h[i..] == [];
  }

  lemma ShiftedOne(h: seq<SublistHeader>, d: int, i: int)
    requires 0 <= i < |h|
    ensures (Shift(h, d)[..i] + h[i..])[i] == h[i]
    ensures (Shift(h, d)[..i] + h[i..])[i := h[i].(start := h[i].start + d)] == Shift(h, d)[..i + 1] + h[i + 1..]
  {
  }

  /** The compacted front is the top level; the blocks that were appended follow it. */
  lemma {:induction false} FrontKept(a: seq<IntervalMap>, p: seq<IntervalMap>, b: seq<IntervalMap>, ntop: int)
    requires |a| == ntop <= |p|
    ensures (a + p[ntop..])[..ntop] + b == a + b
  {
    assert (a + p[ntop..])[..ntop] == a;
  }

  /** The layout of s, phase by phase, when some record is contained in another. */
  lemma {:induction false} NestedLayout(s: seq<IntervalMap>, sub: seq<IntervalMap>)
    requires |SubEntries(Parents(Ends(s)), |s|)| > 0 && sub == Sub(Parents(Ends(s)))
    ensures var par := Parents(Ends(s));
      var top := Kids(par, -1, |s|);
      StartsIn(sub, |s|) &&
      LayoutOf(s) == NCList(LabelAll(s, par, top) + LabelAll(s, par, Starts(sub)), |top|,
                            Shift(FoldHeaders(SubKeys(par, sub), Heads(par, |s|), |sub|), |top|))
  {
    var par := Parents(Ends(s));
    var top := Kids(par, -1, |s|);
    SubIsSubOrder(par);
    StartsShape(s, sub);
    assert Order(s) == top + Starts(sub);
    LabelAllAppend(s, par, top, Starts(sub));
  }

  lemma {:induction false} LabelAllAppend(s: seq<IntervalMap>, par: seq<int>, a: seq<int>, b: seq<int>)
    requires forall j :: 0 <= j < |a| ==> 0 <= a[j] < |s|
    requires forall j :: 0 <= j < |b| ==> 0 <= b[j] < |s|
    ensures LabelAll(s, par, a + b) == LabelAll(s, par, a) + LabelAll(s, par, b)
  {
  }

  /** With no contained record, the scan leaves every record as it came. */
  lemma {:induction false} FlatLinked(s: seq<IntervalMap>)
    requires Unlinked(s) && |SubEntries(Parents(Ends(s)), |s|)| == 0
    ensures Linked(s, Parents(Ends(s)), |s|) == s && LayoutOf(s) == NCList(s, |s|, [])
  {
    var par := Parents(Ends(s));
    ParentsNested(Ends(s));
    NoEntriesFlat(par, |s|);
  }

  lemma {:induction false} NoEntriesFlat(par: seq<int>, m: nat)
    requires m <= |par| && |SubEntries(par, m)| == 0
    ensures forall k :: 0 <= k < m ==> par[k] < 0
    decreases m
  {
    if m > 0 {
      NoEntriesFlat(par, m - 1);
    }
  }

  /** Sorting moves records around and so keeps them unlinked and unmarked. */
  lemma {:induction false} PermutedRecords(a: seq<IntervalMap>, b: seq<IntervalMap>)
    requires multiset(a) == multiset(b) && Unlinked(a) && NoneErased(a)
    ensures Unlinked(b) && NoneErased(b)
  {
    forall k | 0 <= k < |b| ensures b[k].sublist == -1 && !Erased(b[k]) {
      assert b[k] in multiset(a);
      var j :| 0 <= j < |a| && a[j] == b[k];
    }
  }

  /**
   * Lines 88-127: the repacking, from the scanned records to the nested list:
   * the contained records move into one block per parent after the top level,
   * and the headers describe the blocks.
   */
  method Repack(im: array<IntervalMap>, nsub: int, ghost s: seq<IntervalMap>)
      returns (ntop: int, nlists: int, subheader: array<SublistHeader>)
    requires |s| == im.Length && NoneErased(s)
    requires nsub == |SubEntries(Parents(Ends(s)), |s|)| && nsub > 0
    requires im[..] == Linked(s, Parents(Ends(s)), |s|)
    modifies im
    ensures fresh(subheader) && nlists == subheader.Length
    ensures NCList(im[..], ntop, subheader[..]) == LayoutOf(s)
  {
    ghost var par := Parents(Ends(s));
    var imsub;
    imsub, nlists := NumberParents(im, nsub, s);
    SortRecords(imsub, SublistKey);
    ghost var sub := imsub[..];
    assert SubOrder(par, sub);
    SubUnique(par, sub);
    NestedLayout(s, sub);
    subheader := FillSublists(im, imsub, nlists, s, par, sub);
    ntop := Compact(im, s);
    ParentsNested(Ends(s));
    TopPlusSub(par, |s|);
    ghost var top := LabelAll(s, par, Kids(par, -1, |s|));
    assert im[..] == top + Pruned(s, par)[ntop..];
    CopyBlocks(im, imsub, ntop);
    FrontKept(top, Pruned(s, par), imsub[..], ntop);
    ShiftHeaders(subheader, ntop);
  }

  /**
   * build_nested_list (lines 66-130): the records are sorted in place and
   * rearranged into the nested list that `LayoutOf` describes; `ntop` is the
   * length of the top-level list and `subheader` holds the `nlists` sublist
   * headers (none when no record is contained in another).  The result meets
   * the query's invariant, its preorder is the sorted input, and the array
   * holds the records it was given, moved, with only their links set.
   */
  method BuildNestedList(im: array<IntervalMap>)
      returns (ntop: int, nlists: int, subheader: array<SublistHeader>, ghost s: seq<IntervalMap>)
    requires Unlinked(im[..]) && NoneErased(im[..])
    modifies im
    ensures fresh(subheader) && nlists == subheader.Length
    ensures SortedBy(s, ImKey) && multiset(s) == multiset(old(im[..]))
    ensures NCList(im[..], ntop, subheader[..]) == LayoutOf(s)
    ensures Invariant(im[..], ntop, subheader[..])
    ensures StripAll(Pre(im[..], subheader[..], 0, ntop)) == s
    ensures multiset(StripAll(im[..])) == multiset(old(im[..]))
  {
    SortRecords(im, ImKey);
    s := im[..];
    PermutedRecords(old(im[..]), s);
    var nsub := ScanParents(im);
    if nsub > 0 {
      ntop, nlists, subheader := Repack(im, nsub, s);
    } else {
      FlatLinked(s);
      ntop, nlists := im.Length, 0;
      subheader := new SublistHeader[0];
    }
    LayoutInvariant(s);
    LayoutPermutes(s);
  }
}
