/**
 * The second phase of build_nested_list, as functions of the sorted records:
 * which record gets which sublist header, the entries the repacking sorts,
 * the headers that describe each block, and the final array layout.
 *
 * Records are named by their index in the sorted order; `par` is the parent
 * array of the first phase (`Nesting.Parents`).
 */
module Layout {
  import opened Records
  import opened Ordering
  import opened Nesting

  /** Record q has children; then the record right after it is its first child. */
  predicate HasKids(par: seq<int>, q: int) {
    0 <= q && q + 1 < |par| && par[q + 1] == q
  }

  /** How many records before record m - 1 have children. */
  function Heads(par: seq<int>, m: nat): nat
    requires m <= |par|
    decreases m
  {
    if m == 0 then 0 else Heads(par, m - 1) + (if HasKids(par, m - 2) then 1 else 0)
  }

  /** The sublist header index the build gives record q: parents are numbered in order. */
  function HeaderOf(par: seq<int>, q: int): int {
    if HasKids(par, q) then Heads(par, q + 1) else -1
  }

  /** The children of q (q = -1: the top-level records) among the first m records, in order. */
  function Kids(par: seq<int>, q: int, m: nat): (cs: seq<int>)
    requires m <= |par|
    ensures forall c {:trigger c in cs} :: c in cs <==> 0 <= c < m && par[c] == q
    ensures forall j :: 0 <= j < |cs| ==> 0 <= cs[j] < m && par[cs[j]] == q
    ensures forall x, y :: 0 <= x < y < |cs| ==> cs[x] < cs[y]
  {
    KidsFacts(par, q, m);
    KidsUpTo(par, q, m)
  }

  /** The children of q among the first m records, by recursion on m. */
  function KidsUpTo(par: seq<int>, q: int, m: nat): seq<int>
    requires m <= |par|
    decreases m
  {
    if m == 0 then [] else KidsUpTo(par, q, m - 1) + (if par[m - 1] == q then [m - 1] else [])
  }

  lemma {:induction false} KidsFacts(par: seq<int>, q: int, m: nat)
    requires m <= |par|
    ensures var cs := KidsUpTo(par, q, m);
      && (forall c :: c in cs <==> 0 <= c < m && par[c] == q)
      && (forall j :: 0 <= j < |cs| ==> 0 <= cs[j] < m && par[cs[j]] == q)
      && (forall x, y :: 0 <= x < y < |cs| ==> cs[x] < cs[y])
    decreases m
  {
    if m > 0 {
      KidsFacts(par, q, m - 1);
      var pre := KidsUpTo(par, q, m - 1);
      assert forall x :: 0 <= x < |pre| ==> pre[x] in pre;
    }
  }

  /** The temporary entry of the repacking: child index in `start`, parent in `sublist`. */
  function SubEntry(c: int, q: int): IntervalMap {
    IntervalMap(c, 0, 0, 0, 0, q)
  }

  /** The entries of the records among the first m that have a parent, in index order. */
  function SubEntries(par: seq<int>, m: nat): (r: seq<IntervalMap>)
    requires m <= |par|
    ensures forall x {:trigger x in r} :: x in r <==> 0 <= x.start < m && par[x.start] >= 0 && x == SubEntry(x.start, par[x.start])
    decreases m
  {
    if m == 0 then []
    else SubEntries(par, m - 1) + (if par[m - 1] >= 0 then [SubEntry(m - 1, par[m - 1])] else [])
  }

  /** The repacking order: the entries sorted by sublist_qsort_cmp's key (parent, index). */
  function Sub(par: seq<int>): seq<IntervalMap> {
    Sort(SubEntries(par, |par|), SublistKey)
  }

  /** Sorting keeps exactly the entries. */
  lemma SubMembers(par: seq<int>)
    ensures forall x :: x in Sub(par) <==> x in SubEntries(par, |par|)
  {
    var sub := Sub(par);
    assert forall x :: x in sub <==> x in multiset(sub);
  }

  /** One step of the header loop: entry i belongs to header k. */
  function AddEntry(h: seq<SublistHeader>, k: int, i: int): (r: seq<SublistHeader>)
    ensures |r| == |h|
  {
    if 0 <= k < |h| then
      h[k := if h[k].len == 0 then SublistHeader(i, 1) else SublistHeader(h[k].start, h[k].len + 1)]
    else h
  }

  /** The headers after the first i entries, with keys[j] the header of entry j. */
  function FoldHeaders(keys: seq<int>, nlists: nat, i: nat): (r: seq<SublistHeader>)
    requires i <= |keys|
    ensures |r| == nlists
    decreases i
  {
    if i == 0 then seq(nlists, _ => SublistHeader(0, 0))
    else AddEntry(FoldHeaders(keys, nlists, i - 1), keys[i - 1], i - 1)
  }

  /** The header index of each entry: the one handed to its parent. */
  function SubKeys(par: seq<int>, sub: seq<IntervalMap>): (keys: seq<int>)
    ensures |keys| == |sub| && forall j :: 0 <= j < |sub| ==> keys[j] == HeaderOf(par, sub[j].sublist)
  {
    seq(|sub|, j requires 0 <= j < |sub| => HeaderOf(par, sub[j].sublist))
  }

  function Shift(h: seq<SublistHeader>, d: int): (r: seq<SublistHeader>)
    ensures |r| == |h| && forall k :: 0 <= k < |h| ==> r[k] == SublistHeader(h[k].start + d, h[k].len)
  {
    seq(|h|, k requires 0 <= k < |h| => SublistHeader(h[k].start + d, h[k].len))
  }

  /** Record c as it appears in the output: its `sublist` is its header index, or -1. */
  function Labelled(s: seq<IntervalMap>, par: seq<int>, c: int): IntervalMap
    requires 0 <= c < |s|
  {
    s[c].(sublist := HeaderOf(par, c))
  }

  function LabelAll(s: seq<IntervalMap>, par: seq<int>, cs: seq<int>): (r: seq<IntervalMap>)
    requires forall j :: 0 <= j < |cs| ==> 0 <= cs[j] < |s|
    ensures |r| == |cs| && forall j :: 0 <= j < |cs| ==> r[j] == Labelled(s, par, cs[j])
  {
    seq(|cs|, j requires 0 <= j < |cs| => Labelled(s, par, cs[j]))
  }

  function Starts(sub: seq<IntervalMap>): (cs: seq<int>)
    ensures |cs| == |sub| && forall j :: 0 <= j < |sub| ==> cs[j] == sub[j].start
  {
    seq(|sub|, j requires 0 <= j < |sub| => sub[j].start)
  }

  /** The nested list: records, the length of the top-level list, and the sublist headers. */
  datatype NCList = NCList(im: seq<IntervalMap>, ntop: int, headers: seq<SublistHeader>)

  /** Where build_nested_list puts every record of the sorted sequence s. */
  function Order(s: seq<IntervalMap>): (cs: seq<int>)
    ensures forall j :: 0 <= j < |cs| ==> 0 <= cs[j] < |s|
  {
    var par := Parents(Ends(s));
    var top, sub := Kids(par, -1, |s|), Sub(par);
    SubMembers(par);
    assert forall j :: 0 <= j < |top| ==> top[j] in top;
    assert forall j :: 0 <= j < |sub| ==> sub[j] in sub;
    top + Starts(sub)
  }

  /**
   * The layout build_nested_list produces from the sorted sequence s.  When no
   * record is contained in another the array is left as sorted (with its
   * `sublist` fields untouched) and there are no headers.
   */
  function LayoutOf(s: seq<IntervalMap>): NCList {
    var par := Parents(Ends(s));
    if |SubEntries(par, |s|)| == 0 then NCList(s, |s|, [])
    else
      var top := Kids(par, -1, |s|);
      var sub := Sub(par);
      var fold := FoldHeaders(SubKeys(par, sub), Heads(par, |s|), |sub|);
      NCList(LabelAll(s, par, Order(s)), |top|, Shift(fold, |top|))
  }
}
