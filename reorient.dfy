/**
 * reorient_intervals: hits are stored in positive form and handed back in the
 * orientation of the query.  A record whose orientation (the sign of its
 * start) differs from the query's is flipped to (-end, -start), and so is its
 * target interval.
 */
module Reorient {
  import opened Records

  /** The orientation of a stored record: 1 forward, -1 reverse. */
  function Orientation(r: IntervalMap): int {
    if r.start >= 0 then 1 else -1
  }

  function Reoriented(r: IntervalMap, oriSign: int): IntervalMap {
    if Orientation(r) != oriSign then
      r.(start := -r.end, end := -r.start, targetStart := -r.targetEnd, targetEnd := -r.targetStart)
    else r
  }

  function ReorientAll(s: seq<IntervalMap>, oriSign: int): (r: seq<IntervalMap>)
    ensures |r| == |s| && forall k :: 0 <= k < |s| ==> r[k] == Reoriented(s[k], oriSign)
  {
    seq(|s|, k requires 0 <= k < |s| => Reoriented(s[k], oriSign))
  }

  /** A stored interval that is non-empty and lies on the non-negative axis. */
  predicate Proper(r: IntervalMap) {
    0 <= PosStart(r) < PosEnd(r)
  }

  /**
   * Reorientation keeps the interval's length, its target's length, its
   * target id and its sublist link; a record already in the query's
   * orientation is untouched.  On a proper interval it keeps the positive form,
   * so the hit still overlaps the same query, and leaves it in the query's
   * orientation.
   */
  lemma ReorientedMeaning(r: IntervalMap, oriSign: int)
    ensures var o := Reoriented(r, oriSign);
      && o.end - o.start == r.end - r.start
      && o.targetEnd - o.targetStart == r.targetEnd - r.targetStart
      && o.targetId == r.targetId && o.sublist == r.sublist
      && (Orientation(r) == oriSign ==> o == r)
      && (Proper(r) ==> PosStart(o) == PosStart(r) && PosEnd(o) == PosEnd(r))
      && (Proper(r) && (oriSign == 1 || oriSign == -1) ==> Orientation(o) == oriSign)
  {
  }

  /** Reorienting twice to the same orientation is reorienting once. */
  lemma ReorientIdempotent(r: IntervalMap, oriSign: int)
    requires Proper(r) && (oriSign == 1 || oriSign == -1)
    ensures Reoriented(Reoriented(r, oriSign), oriSign) == Reoriented(r, oriSign)
  {
    ReorientedMeaning(r, oriSign);
  }

  /** reorient_intervals over the first n records of the buffer; the rest is untouched. */
  method ReorientIntervals(n: int, im: array<IntervalMap>, oriSign: int)
    requires n <= im.Length
    modifies im
    ensures forall k :: 0 <= k < im.Length ==>
      im[k] == (if k < n then Reoriented(old(im[k]), oriSign) else old(im[k]))
  {
    var i := 0;
    while i < n
      invariant 0 <= i && (0 <= n ==> i <= n) && (n < 0 ==> i == 0)
      invariant forall k :: 0 <= k < im.Length ==>
        im[k] == (if k < i then Reoriented(old(im[k]), oriSign) else old(im[k]))
    {
      if (if im[i].start >= 0 then 1 else -1) != oriSign {
        var tmp := im[i].start;
        im[i] := im[i].(start := -im[i].end);
        im[i] := im[i].(end := -tmp);
        tmp := im[i].targetStart;
        im[i] := im[i].(targetStart := -im[i].targetEnd);
        im[i] := im[i].(targetEnd := -tmp);
      }
      i := i + 1;
    }
  }
}
