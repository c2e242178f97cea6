/**
 * The binary searches of the query: find_overlap_start over a run of records,
 * find_index_start over the block index, and find_suboverlap_start, which
 * runs the first inside one sublist.  All three bisect on positive ends.
 */
module Search {
  import opened Records

  /**
   * The loop shared by find_overlap_start and find_index_start, with l and r
   * as its two variables: it narrows [l, r] towards the first end past qs.
   */
  function Bisect(ends: seq<int>, l: int, r: int, qs: int): (res: int)
    requires 0 <= l && (l < r ==> r < |ends|)
    ensures l <= res && (l < r ==> res <= r)
    decreases r - l
  {
    if l < r then
      var mid := (l + r) / 2;
      if ends[mid] <= qs then Bisect(ends, mid + 1, r, qs) else Bisect(ends, l, mid, qs)
    else l
  }

  ghost predicate NonDecreasing(ends: seq<int>, n: int) {
    forall i, j :: 0 <= i <= j < n && j < |ends| ==> ends[i] <= ends[j]
  }

  /**
   * On non-decreasing ends the bisection finds the first end past qs, or the
   * last position when there is none.
   */
  lemma {:induction false} BisectFindsFirst(ends: seq<int>, n: int, l: int, r: int, qs: int)
    requires n <= |ends| && NonDecreasing(ends, n) && 0 <= l <= r < n
    requires forall k :: 0 <= k < l ==> ends[k] <= qs
    requires r == n - 1 || ends[r] > qs
    ensures var res := Bisect(ends, l, r, qs);
      && l <= res <= r
      && (forall k :: 0 <= k < res ==> ends[k] <= qs)
      && (res == n - 1 || ends[res] > qs)
    decreases r - l
  {
    if l < r {
      var mid := (l + r) / 2;
      if ends[mid] <= qs {
        BisectFindsFirst(ends, n, mid + 1, r, qs);
      } else {
        BisectFindsFirst(ends, n, l, mid, qs);
      }
    }
  }

  /** The search from the whole run [0, n) finds the first end past qs, clamped to n - 1. */
  lemma BisectFromStart(ends: seq<int>, n: int, qs: int)
    requires 0 < n <= |ends| && NonDecreasing(ends, n)
    ensures var res := Bisect(ends, 0, n - 1, qs);
      && 0 <= res < n
      && (forall k :: 0 <= k < res ==> ends[k] <= qs)
      && (res == n - 1 || ends[res] > qs)
  {
    BisectFindsFirst(ends, n, 0, n - 1, qs);
  }

  /** A run of records whose positive starts and positive ends never decrease. */
  ghost predicate SortedList(im: seq<IntervalMap>, lo: int, hi: int) {
    forall x, y :: lo <= x <= y < hi && 0 <= x && y < |im| ==>
      PosStart(im[x]) <= PosStart(im[y]) && PosEnd(im[x]) <= PosEnd(im[y])
  }

  /** find_overlap_start as a function of the run im[0..n). */
  function OverlapStart(qs: int, qe: int, im: seq<IntervalMap>, n: int): (r: int)
    requires n <= |im|
    ensures r == -1 || 0 <= r < n
  {
    var l := Bisect(Ends(im), 0, n - 1, qs);
    if l < n && HasOverlap(im[l], qs, qe) then l else -1
  }

  /**
   * On a sorted run, find_overlap_start answers -1 exactly when nothing in the
   * run overlaps [qs, qe); otherwise it is the first record ending after qs,
   * and that record overlaps.
   */
  lemma OverlapStartMeaning(qs: int, qe: int, im: seq<IntervalMap>, n: int)
    requires 0 <= n <= |im| && SortedList(im, 0, n)
    ensures var r := OverlapStart(qs, qe, im, n);
      && (r == -1 <==> forall k :: 0 <= k < n ==> !HasOverlap(im[k], qs, qe))
      && (r >= 0 ==> HasOverlap(im[r], qs, qe) && forall k :: 0 <= k < r ==> PosEnd(im[k]) <= qs)
  {
    if n > 0 {
      var ends := Ends(im);
      BisectFromStart(ends, n, qs);
      var l := Bisect(ends, 0, n - 1, qs);
      if !HasOverlap(im[l], qs, qe) {
        forall k | 0 <= k < n ensures !HasOverlap(im[k], qs, qe) {
          if k > l {
            assert PosStart(im[l]) <= PosStart(im[k]);
          }
        }
      }
    }
  }

  method FindOverlapStart(qs: int, qe: int, im: seq<IntervalMap>, n: int) returns (r: int)
    requires n <= |im|
    ensures r == OverlapStart(qs, qe, im, n)
    ensures 0 <= n && SortedList(im, 0, n) ==>
      && (r == -1 <==> forall k :: 0 <= k < n ==> !HasOverlap(im[k], qs, qe))
      && (r >= 0 ==> 0 <= r < n && HasOverlap(im[r], qs, qe) && forall k :: 0 <= k < r ==> PosEnd(im[k]) <= qs)
  {
    var l, hi := 0, n - 1;
    while l < hi
      invariant 0 <= l && (l < hi ==> hi < n)
      invariant Bisect(Ends(im), l, hi, qs) == Bisect(Ends(im), 0, n - 1, qs)
      decreases hi - l
    {
      var mid := (l + hi) / 2;
      if PosEnd(im[mid]) <= qs {
        l := mid + 1;
      } else {
        hi := mid;
      }
    }
    if l < n && HasOverlap(im[l], qs, qe) {
      r := l;
    } else {
      r := -1;
    }
    if 0 <= n && SortedList(im, 0, n) {
      OverlapStartMeaning(qs, qe, im, n);
    }
  }

  /** The positive ends of the index entries. */
  function IndexEnds(ii: seq<IntervalIndex>): (e: seq<int>)
    ensures |e| == |ii| && forall k :: 0 <= k < |ii| ==> e[k] == IndexEnd(ii[k])
  {
    seq(|ii|, k requires 0 <= k < |ii| => IndexEnd(ii[k]))
  }

  /**
   * find_index_start: 0 for an empty index; on non-decreasing ends, the first
   * block whose end is past qs, or the last block when there is none.
   */
  method FindIndexStart(qs: int, qe: int, ii: seq<IntervalIndex>, n: int) returns (l: int)
    requires n <= |ii|
    ensures l == Bisect(IndexEnds(ii), 0, n - 1, qs)
    ensures n <= 0 ==> l == 0
    ensures 0 < n && NonDecreasing(IndexEnds(ii), n) ==>
      && 0 <= l < n
      && (forall k :: 0 <= k < l ==> IndexEnd(ii[k]) <= qs)
      && (l == n - 1 || IndexEnd(ii[l]) > qs)
  {
    l := 0;
    var hi := n - 1;
    while l < hi
      invariant 0 <= l && (l < hi ==> hi < n)
      invariant Bisect(IndexEnds(ii), l, hi, qs) == Bisect(IndexEnds(ii), 0, n - 1, qs)
      decreases hi - l
    {
      var mid := (l + hi) / 2;
      if IndexEnd(ii[mid]) <= qs {
        l := mid + 1;
      } else {
        hi := mid;
      }
    }
    if 0 < n && NonDecreasing(IndexEnds(ii), n) {
      BisectFromStart(IndexEnds(ii), n, qs);
    }
  }

  /** A sublist header that names a block inside the record array. */
  predicate HeaderFits(h: SublistHeader, size: int) {
    0 <= h.start && 0 <= h.len && h.start + h.len <= size
  }

  /** find_suboverlap_start as a function: the overlap start inside sublist isub, or -1. */
  function SubOverlapStart(qs: int, qe: int, isub: int, im: seq<IntervalMap>, headers: seq<SublistHeader>): (r: int)
    requires isub < |headers| && (isub >= 0 ==> HeaderFits(headers[isub], |im|))
    ensures r == -1 || (0 <= isub && headers[isub].start <= r < headers[isub].start + headers[isub].len)
  {
    if isub >= 0 then
      var h := headers[isub];
      var i := OverlapStart(qs, qe, im[h.start..], h.len);
      if i >= 0 then i + h.start else -1
    else -1
  }

  /**
   * On a sorted sublist, find_suboverlap_start answers -1 exactly when no
   * record of the block overlaps; otherwise it is the first record of the
   * block ending after qs, and that record overlaps.
   */
  lemma SubOverlapStartMeaning(qs: int, qe: int, isub: int, im: seq<IntervalMap>, headers: seq<SublistHeader>)
    requires 0 <= isub < |headers| && HeaderFits(headers[isub], |im|)
    requires SortedList(im, headers[isub].start, headers[isub].start + headers[isub].len)
    ensures var r := SubOverlapStart(qs, qe, isub, im, headers);
      var lo, hi := headers[isub].start, headers[isub].start + headers[isub].len;
      && (r == -1 <==> forall k :: lo <= k < hi ==> !HasOverlap(im[k], qs, qe))
      && (r >= 0 ==> HasOverlap(im[r], qs, qe) && forall k :: lo <= k < r ==> PosEnd(im[k]) <= qs)
  {
    var h := headers[isub];
    var run := im[h.start..];
    assert SortedList(run, 0, h.len) by {
      forall x, y | 0 <= x <= y < h.len && y < |run|
        ensures PosStart(run[x]) <= PosStart(run[y]) && PosEnd(run[x]) <= PosEnd(run[y])
      {
        assert run[x] == im[h.start + x] && run[y] == im[h.start + y];
      }
    }
    OverlapStartMeaning(qs, qe, run, h.len);
    var lo, hi := h.start, h.start + h.len;
    forall k | lo <= k < hi ensures im[k] == run[k - lo] {
    }
  }

  method FindSubOverlapStart(qs: int, qe: int, isub: int, im: seq<IntervalMap>, headers: seq<SublistHeader>, nlists: int)
    returns (r: int)
    requires isub < |headers| && (isub >= 0 ==> HeaderFits(headers[isub], |im|))
    ensures r == SubOverlapStart(qs, qe, isub, im, headers)
  {
    if isub >= 0 {
      var i := FindOverlapStart(qs, qe, im[headers[isub].start..], headers[isub].len);
      if i >= 0 {
        return i + headers[isub].start;
      }
    }
    return -1;
  }
}
