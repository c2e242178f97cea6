/**
 * Records of the nested containment list (NCList) interval database.
 *
 * An interval is stored in one of two orientations: forward as (start, end)
 * with 0 <= start, or reverse as (-end, -start).  All comparisons of the
 * index happen on the "positive form" of a record, which undoes the second
 * encoding.  The target fields are an opaque payload (the aligned interval
 * in another sequence) that only reorientation touches.
 */
module Records {

  /** One stored interval; `sublist` is the header index of its children, or negative. */
  datatype IntervalMap = IntervalMap(
    start: int, end: int,
    targetId: int, targetStart: int, targetEnd: int,
    sublist: int)

  /** A contiguous block of the record array holding one parent's children. */
  datatype SublistHeader = SublistHeader(start: int, len: int)

  /** One entry of the on-disk block index: first start and last end of a block. */
  datatype IntervalIndex = IntervalIndex(start: int, end: int)

  /** Positive form of a stored (start, end) pair. */
  function PositiveStart(start: int, end: int): int {
    if start >= 0 then start else -end
  }

  function PositiveEnd(start: int, end: int): int {
    if start >= 0 then end else -start
  }

  function PosStart(r: IntervalMap): int { PositiveStart(r.start, r.end) }

  function PosEnd(r: IntervalMap): int { PositiveEnd(r.start, r.end) }

  function IndexEnd(ii: IntervalIndex): int { PositiveEnd(ii.start, ii.end) }

  /** The positive ends of a run of records: what the build and the searches compare. */
  function Ends(s: seq<IntervalMap>): (e: seq<int>)
    ensures |e| == |s| && forall k :: 0 <= k < |s| ==> e[k] == PosEnd(s[k])
  {
    seq(|s|, k requires 0 <= k < |s| => PosEnd(s[k]))
  }

  /** Half-open overlap of a record, in positive form, with the query [qs, qe). */
  predicate HasOverlap(r: IntervalMap, qs: int, qe: int) {
    PosStart(r) < qe && PosEnd(r) > qs
  }

  /** The brute-force reference query: every record overlapping [qs, qe), in order. */
  function Filter(s: seq<IntervalMap>, qs: int, qe: int): (r: seq<IntervalMap>)
    ensures |r| <= |s|
    ensures forall x :: x in r <==> x in s && HasOverlap(x, qs, qe)
  {
    if s == [] then []
    else (if HasOverlap(s[0], qs, qe) then [s[0]] else []) + Filter(s[1..], qs, qe)
  }

  lemma {:induction false} FilterAppend(a: seq<IntervalMap>, b: seq<IntervalMap>, qs: int, qe: int)
    ensures Filter(a + b, qs, qe) == Filter(a, qs, qe) + Filter(b, qs, qe)
  {
    if a == [] {
      assert a + b == b;
    } else {
      assert (a + b)[1..] == a[1..] + b;
      FilterAppend(a[1..], b, qs, qe);
    }
  }

  /** Filtering commutes with taking out the element at position k. */
  lemma FilterRemove(b: seq<IntervalMap>, k: int, qs: int, qe: int)
    requires 0 <= k < |b|
    ensures multiset(b[..k] + b[k + 1..]) == multiset(b) - multiset{b[k]}
    ensures multiset(Filter(b, qs, qe)) ==
      multiset(Filter([b[k]], qs, qe)) + multiset(Filter(b[..k] + b[k + 1..], qs, qe))
  {
    assert b == b[..k] + [b[k]] + b[k + 1..];
    FilterAppend(b[..k] + [b[k]], b[k + 1..], qs, qe);
    FilterAppend(b[..k], [b[k]], qs, qe);
    FilterAppend(b[..k], b[k + 1..], qs, qe);
  }

  lemma {:induction false} FilterMultiset(a: seq<IntervalMap>, b: seq<IntervalMap>, qs: int, qe: int)
    requires multiset(a) == multiset(b)
    ensures multiset(Filter(a, qs, qe)) == multiset(Filter(b, qs, qe))
    decreases |a|
  {
    if a != [] {
      var x := a[0];
      assert x in multiset(b);
      var k :| 0 <= k < |b| && b[k] == x;
      FilterRemove(b, k, qs, qe);
      assert a == [x] + a[1..];
      assert multiset(a[1..]) == multiset(a) - multiset{x};
      FilterMultiset(a[1..], b[..k] + b[k + 1..], qs, qe);
      FilterAppend([x], a[1..], qs, qe);
    }
  }

  /** A record with its child-list link cleared, i.e. as it was handed to the build. */
  function Strip(r: IntervalMap): IntervalMap { r.(sublist := -1) }

  function StripAll(s: seq<IntervalMap>): (r: seq<IntervalMap>)
    ensures |r| == |s| && forall k :: 0 <= k < |s| ==> r[k] == Strip(s[k])
  {
    seq(|s|, k requires 0 <= k < |s| => Strip(s[k]))
  }

  lemma StripAllAppend(a: seq<IntervalMap>, b: seq<IntervalMap>)
    ensures StripAll(a + b) == StripAll(a) + StripAll(b)
  {
  }

  lemma StripFilter(s: seq<IntervalMap>, qs: int, qe: int)
    ensures StripAll(Filter(s, qs, qe)) == Filter(StripAll(s), qs, qe)
  {
    if s != [] {
      StripFilter(s[1..], qs, qe);
      assert StripAll(s)[1..] == StripAll(s[1..]);
      StripAllAppend(if HasOverlap(s[0], qs, qe) then [s[0]] else [], Filter(s[1..], qs, qe));
    }
  }
}
