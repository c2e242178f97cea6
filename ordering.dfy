/**
 * The two qsort comparators of the build, and a sort that stands for qsort.
 *
 * A comparator returns a negative number, zero or a positive number, as the
 * C library's qsort expects.  `Comparator` states the laws qsort relies on.
 */
module Ordering {
  import opened Records

  /** The sign laws of a qsort comparator: antisymmetric sign and transitive "<= 0". */
  ghost predicate Comparator<T(!new)>(cmp: (T, T) -> int) {
    && (forall a, b :: (cmp(a, b) < 0 <==> cmp(b, a) > 0) && (cmp(a, b) == 0 <==> cmp(b, a) == 0))
    && (forall a, b, c {:trigger cmp(a, b), cmp(b, c), cmp(a, c)} ::
          cmp(a, b) <= 0 && cmp(b, c) <= 0 ==> cmp(a, c) <= 0)
  }

  /** im_qsort_cmp: positive start ascending, then positive end descending. */
  function ImCmp(a: IntervalMap, b: IntervalMap): int {
    if PosStart(a) < PosStart(b) then -1
    else if PosStart(a) > PosStart(b) then 1
    else if PosEnd(a) > PosEnd(b) then -1
    else if PosEnd(a) < PosEnd(b) then 1
    else 0
  }

  /** sublist_qsort_cmp: parent (the `sublist` field) first, then `start`. */
  function SublistCmp(a: IntervalMap, b: IntervalMap): int {
    if a.sublist < b.sublist then -1
    else if a.sublist > b.sublist then 1
    else if a.start < b.start then -1
    else if a.start > b.start then 1
    else 0
  }

  /** im_qsort_cmp is a total preorder fit for qsort. */
  lemma ImCmpIsComparator()
    ensures Comparator(ImCmp)
  {
  }

  /**
   * The order im_qsort_cmp imposes: an interval before another exactly when it
   * starts earlier, or starts at the same point and ends later (so a container
   * precedes what it contains); it ties only records with equal positive
   * coordinates.
   */
  lemma ImCmpMeaning(a: IntervalMap, b: IntervalMap)
    ensures ImCmp(a, b) < 0 <==>
      PosStart(a) < PosStart(b) || (PosStart(a) == PosStart(b) && PosEnd(a) > PosEnd(b))
    ensures ImCmp(a, b) == 0 <==> PosStart(a) == PosStart(b) && PosEnd(a) == PosEnd(b)
    ensures ImCmp(a, b) <= 0 && ImCmp(b, a) <= 0 ==> ImCmp(a, b) == 0
  {
  }

  lemma SublistCmpIsComparator()
    ensures Comparator(SublistCmp)
  {
  }

  /** sublist_qsort_cmp ties only entries with the same parent and the same start. */
  lemma SublistCmpMeaning(a: IntervalMap, b: IntervalMap)
    ensures SublistCmp(a, b) < 0 <==>
      a.sublist < b.sublist || (a.sublist == b.sublist && a.start < b.start)
    ensures SublistCmp(a, b) == 0 <==> a.sublist == b.sublist && a.start == b.start
  {
  }

  /**
   * Both comparators are lexicographic comparisons of a pair of integers taken
   * from the record; sorting is done on that key.
   */
  datatype Key = Key(major: int, minor: int)

  predicate KeyLe(a: Key, b: Key) {
    a.major < b.major || (a.major == b.major && a.minor <= b.minor)
  }

  /** The key im_qsort_cmp compares: start ascending, end descending. */
  function ImKey(r: IntervalMap): Key { Key(PosStart(r), -PosEnd(r)) }

  /** The key sublist_qsort_cmp compares. */
  function SublistKey(r: IntervalMap): Key { Key(r.sublist, r.start) }

  lemma ImCmpIsKeyOrder(a: IntervalMap, b: IntervalMap)
    ensures ImCmp(a, b) <= 0 <==> KeyLe(ImKey(a), ImKey(b))
  {
  }

  lemma SublistCmpIsKeyOrder(a: IntervalMap, b: IntervalMap)
    ensures SublistCmp(a, b) <= 0 <==> KeyLe(SublistKey(a), SublistKey(b))
  {
  }

  ghost predicate SortedBy(s: seq<IntervalMap>, key: IntervalMap -> Key) {
    forall i, j :: 0 <= i < j < |s| ==> KeyLe(key(s[i]), key(s[j]))
  }

  function Insert(x: IntervalMap, s: seq<IntervalMap>, key: IntervalMap -> Key): (r: seq<IntervalMap>)
    requires SortedBy(s, key)
    ensures SortedBy(r, key)
    ensures multiset(r) == multiset(s) + multiset{x}
    ensures |r| == |s| + 1
  {
    if s == [] then [x]
    else if KeyLe(key(x), key(s[0])) then
      assert s == [s[0]] + s[1..];
      [x] + s
    else
      var t := Insert(x, s[1..], key);
      assert s == [s[0]] + s[1..];
      assert forall j :: 0 <= j < |t| ==> KeyLe(key(s[0]), key(t[j])) by {
        forall j | 0 <= j < |t| ensures KeyLe(key(s[0]), key(t[j])) {
          assert t[j] in multiset(t);
          if t[j] != x {
            assert t[j] in multiset(s[1..]);
            var m :| 0 <= m < |s[1..]| && s[1..][m] == t[j];
            assert s[m + 1] == t[j];
          }
        }
      }
      [s[0]] + t
  }

  /** Insertion sort: stands for qsort, which promises exactly sortedness and permutation. */
  function Sort(s: seq<IntervalMap>, key: IntervalMap -> Key): (r: seq<IntervalMap>)
    ensures SortedBy(r, key)
    ensures multiset(r) == multiset(s)
    ensures |r| == |s|
  {
    if s == [] then []
    else
      assert s == [s[0]] + s[1..];
      Insert(s[0], Sort(s[1..], key), key)
  }

  lemma SortedTail(s: seq<IntervalMap>, key: IntervalMap -> Key)
    requires SortedBy(s, key) && s != []
    ensures SortedBy(s[1..], key)
  {
    forall i, j | 0 <= i < j < |s| - 1 ensures KeyLe(key(s[1..][i]), key(s[1..][j])) {
      assert s[1..][i] == s[i + 1] && s[1..][j] == s[j + 1];
    }
  }

  lemma SortedHeadsAgree(x: seq<IntervalMap>, y: seq<IntervalMap>, key: IntervalMap -> Key)
    requires SortedBy(x, key) && SortedBy(y, key) && x != [] && y != []
    requires multiset(x) == multiset(y)
    ensures key(x[0]) == key(y[0])
  {
    assert x[0] in multiset(y) && y[0] in multiset(x);
    var i :| 0 <= i < |x| && x[i] == y[0];
    var j :| 0 <= j < |y| && y[j] == x[0];
    assert KeyLe(key(x[0]), key(x[i])) || i == 0;
    assert KeyLe(key(y[0]), key(y[j])) || j == 0;
  }

  /** Equal heads leave equal tails, on which the key still tells elements apart. */
  lemma SortedUniqueTail(x: seq<IntervalMap>, y: seq<IntervalMap>, key: IntervalMap -> Key)
    requires x != [] && y != [] && x[0] == y[0] && multiset(x) == multiset(y)
    requires forall a, b :: a in multiset(x) && b in multiset(x) && key(a) == key(b) ==> a == b
    ensures multiset(x[1..]) == multiset(y[1..])
    ensures forall a, b :: a in multiset(x[1..]) && b in multiset(x[1..]) && key(a) == key(b) ==> a == b
  {
    assert x == [x[0]] + x[1..] && y == [y[0]] + y[1..];
    assert multiset(x[1..]) == multiset(x) - multiset{x[0]};
    assert multiset(y[1..]) == multiset(y) - multiset{y[0]};
  }

  /**
   * When the key tells every two distinct elements apart, a sorted permutation
   * is unique: whichever order qsort picks, the result is the same.
   */
  lemma {:induction false} SortedUnique(x: seq<IntervalMap>, y: seq<IntervalMap>, key: IntervalMap -> Key)
    requires forall a, b :: a in multiset(x) && b in multiset(x) && key(a) == key(b) ==> a == b
    requires SortedBy(x, key) && SortedBy(y, key)
    requires multiset(x) == multiset(y)
    ensures x == y
    decreases |x|
  {
    assert |x| == |multiset(x)| == |y|;
    if x != [] {
      SortedHeadsAgree(x, y, key);
      assert x[0] in multiset(x) && y[0] in multiset(y);
      assert x[0] == y[0];
      SortedUniqueTail(x, y, key);
      SortedTail(x, key);
      SortedTail(y, key);
      SortedUnique(x[1..], y[1..], key);
    }
  }
}
