/**
 * find_intervals: the nested-list query with a resumable iterator.
 *
 * The iterator is a stack of frames (i, n): the next record to look at and
 * the end of the list it belongs to; the current frame is the last one.
 * `Walk` is what one frame still has to emit, `Pending` what the whole stack
 * still has to emit.  The theorem at the end says that, on a well-formed
 * nested list, a fresh search emits exactly the records of the list's preorder
 * that overlap the query, in that order.
 */
module Query {
  import opened Records
  import opened Search
  import opened Reorient

  /** Every record's sublist header lies inside the array and after the record. */
  ghost predicate ValidLinks(im: seq<IntervalMap>, headers: seq<SublistHeader>) {
    forall x :: 0 <= x < |im| && im[x].sublist >= 0 ==>
      im[x].sublist < |headers| && HeaderFits(headers[im[x].sublist], |im|) && x < headers[im[x].sublist].start
  }

  /**
   * The hits one frame (i, n) produces: while record i overlaps, emit it,
   * then the hits of its sublist from its overlap start, then go on with i + 1.
   */
  function Walk(im: seq<IntervalMap>, headers: seq<SublistHeader>, qs: int, qe: int, i: int, n: int): seq<IntervalMap>
    requires ValidLinks(im, headers) && n <= |im|
    decreases |im| - i, 1
  {
    if i < 0 || i >= n || !HasOverlap(im[i], qs, qe) then []
    else [im[i]] + WalkBelow(im, headers, qs, qe, i) + Walk(im, headers, qs, qe, i + 1, n)
  }

  /** The hits in the sublist of record x, from its overlap start (the frame the query pushes). */
  function WalkBelow(im: seq<IntervalMap>, headers: seq<SublistHeader>, qs: int, qe: int, x: int): seq<IntervalMap>
    requires ValidLinks(im, headers) && 0 <= x < |im|
    decreases |im| - x, 0
  {
    var k := im[x].sublist;
    var j := if k >= 0 then SubOverlapStart(qs, qe, k, im, headers) else -1;
    if j >= 0 then Walk(im, headers, qs, qe, j, headers[k].start + headers[k].len) else []
  }

  datatype Frame = Frame(i: int, n: int)

  ghost predicate ValidFrames(frames: seq<Frame>, size: int) {
    forall k :: 0 <= k < |frames| ==> frames[k].n <= size
  }

  /** What a stack of frames still has to emit: the current frame first, then the ones below. */
  function Pending(im: seq<IntervalMap>, headers: seq<SublistHeader>, qs: int, qe: int, frames: seq<Frame>): seq<IntervalMap>
    requires ValidLinks(im, headers) && ValidFrames(frames, |im|)
    decreases |frames|
  {
    if frames == [] then []
    else
      var f := frames[|frames| - 1];
      Walk(im, headers, qs, qe, f.i, f.n) + Pending(im, headers, qs, qe, frames[..|frames| - 1])
  }

  /** A current frame with n == 0 is a fresh iterator: it is pointed at the top-level list. */
  function Started(frames: seq<Frame>, qs: int, qe: int, im: seq<IntervalMap>, n: int): (r: seq<Frame>)
    requires frames != [] && n <= |im|
    ensures |r| == |frames| && r[..|r| - 1] == frames[..|frames| - 1]
  {
    if frames[|frames| - 1].n == 0 then frames[..|frames| - 1] + [Frame(OverlapStart(qs, qe, im, n), n)]
    else frames
  }

  /** The query in positive form: a reverse query (start < 0) is flipped. */
  function QueryStart(start: int, end: int): int { if start < 0 then -end else start }

  function QueryEnd(start: int, end: int): int { if start < 0 then -start else end }

  function QuerySign(start: int): int { if start < 0 then -1 else 1 }

  /** The iterator object: its frame stack, bottom first. */
  class IntervalIterator {
    var frames: seq<Frame>

    /** A zero-filled iterator: one frame with i = n = 0. */
    constructor ()
      ensures frames == [Frame(0, 0)]
    {
      frames := [Frame(0, 0)];
    }
  }

  lemma PendingTop(im: seq<IntervalMap>, headers: seq<SublistHeader>, qs: int, qe: int, frames: seq<Frame>)
    requires ValidLinks(im, headers) && ValidFrames(frames, |im|) && frames != []
    ensures Pending(im, headers, qs, qe, frames) ==
      Walk(im, headers, qs, qe, frames[|frames| - 1].i, frames[|frames| - 1].n)
      + Pending(im, headers, qs, qe, frames[..|frames| - 1])
  {
  }

  /** The stack after emitting the current record: advance it, and push the frame (j, m) when j >= 0. */
  function Advance(frames: seq<Frame>, j: int, m: int): (r: seq<Frame>)
    requires frames != []
    ensures r != []
  {
    var f := frames[|frames| - 1];
    var advanced := frames[..|frames| - 1] + [Frame(f.i + 1, f.n)];
    if j >= 0 then advanced + [Frame(j, m)] else advanced
  }

  /** Pushing a frame puts its hits in front of what the stack had pending. */
  lemma PushPending(im: seq<IntervalMap>, headers: seq<SublistHeader>, qs: int, qe: int, frames: seq<Frame>, f: Frame)
    requires ValidLinks(im, headers) && ValidFrames(frames, |im|) && f.n <= |im|
    ensures ValidFrames(frames + [f], |im|)
    ensures Pending(im, headers, qs, qe, frames + [f]) == Walk(im, headers, qs, qe, f.i, f.n) + Pending(im, headers, qs, qe, frames)
  {
    var next := frames + [f];
    assert next[..|next| - 1] == frames;
  }

  /** Emitting the current record and then going on from the advanced stack produces the same hits. */
  lemma PendingEmit(im: seq<IntervalMap>, headers: seq<SublistHeader>, qs: int, qe: int, frames: seq<Frame>, j: int, m: int)
    requires ValidLinks(im, headers) && ValidFrames(frames, |im|) && frames != []
    requires var f := frames[|frames| - 1]; 0 <= f.i < f.n && HasOverlap(im[f.i], qs, qe)
    requires var f := frames[|frames| - 1]; var k := im[f.i].sublist;
      j == (if k >= 0 then SubOverlapStart(qs, qe, k, im, headers) else -1)
      && m == (if j >= 0 then headers[k].start + headers[k].len else 0)
    ensures var next := Advance(frames, j, m);
      && ValidFrames(next, |im|)
      && next[|next| - 1].n > 0
      && Pending(im, headers, qs, qe, frames) == [im[frames[|frames| - 1].i]] + Pending(im, headers, qs, qe, next)
  {
    var f := frames[|frames| - 1];
    var below := frames[..|frames| - 1];
    var rest := Pending(im, headers, qs, qe, below);
    var tail := Walk(im, headers, qs, qe, f.i + 1, f.n);
    var sub := WalkBelow(im, headers, qs, qe, f.i);
    PendingTop(im, headers, qs, qe, frames);
    PushPending(im, headers, qs, qe, below, Frame(f.i + 1, f.n));
    var advanced := below + [Frame(f.i + 1, f.n)];
    WalkHit(im, headers, qs, qe, f.i, f.n);
    BelowFrame(im, headers, qs, qe, f.i, j, m);
    if j >= 0 {
      PushPending(im, headers, qs, qe, advanced, Frame(j, m));
      assert Advance(frames, j, m) == advanced + [Frame(j, m)];
    } else {
      assert Advance(frames, j, m) == advanced;
    }
    AppendFour([im[f.i]], sub, tail, rest);
  }

  /** A frame whose record overlaps emits it, then its sublist's hits, then goes on. */
  lemma WalkHit(im: seq<IntervalMap>, headers: seq<SublistHeader>, qs: int, qe: int, i: int, n: int)
    requires ValidLinks(im, headers) && 0 <= i < n <= |im| && HasOverlap(im[i], qs, qe)
    ensures Walk(im, headers, qs, qe, i, n)
      == [im[i]] + WalkBelow(im, headers, qs, qe, i) + Walk(im, headers, qs, qe, i + 1, n)
  {
  }

  /** The sublist hits of record x are those of the frame (j, m) the query pushes for it, if any. */
  lemma BelowFrame(im: seq<IntervalMap>, headers: seq<SublistHeader>, qs: int, qe: int, x: int, j: int, m: int)
    requires ValidLinks(im, headers) && 0 <= x < |im|
    requires var k := im[x].sublist;
      j == (if k >= 0 then SubOverlapStart(qs, qe, k, im, headers) else -1)
      && m == (if j >= 0 then headers[k].start + headers[k].len else 0)
    ensures j >= 0 ==> m <= |im| && WalkBelow(im, headers, qs, qe, x) == Walk(im, headers, qs, qe, j, m)
    ensures j < 0 ==> WalkBelow(im, headers, qs, qe, x) == []
  {
  }

  lemma AppendFour(a: seq<IntervalMap>, b: seq<IntervalMap>, c: seq<IntervalMap>, d: seq<IntervalMap>)
    ensures a + b + c + d == a + (b + (c + d))
  {
  }

  /**
   * One hit of find_intervals: copy the current record into buf[ibuf],
   * advance the current frame and, when the record's sublist has an overlap
   * start, push a frame for it.  all[ibuf..] is what the stack had pending.
   */
  method Emit(qs: int, qe: int, im: seq<IntervalMap>, headers: seq<SublistHeader>, nlists: int,
              st: seq<Frame>, buf: array<IntervalMap>, ibuf: int, ghost all: seq<IntervalMap>)
    returns (st': seq<Frame>)
    requires ValidLinks(im, headers) && ValidFrames(st, |im|) && st != []
    requires var f := st[|st| - 1]; 0 <= f.i < f.n && HasOverlap(im[f.i], qs, qe)
    requires 0 <= ibuf < buf.Length && ibuf <= |all| && Pending(im, headers, qs, qe, st) == all[ibuf..]
    modifies buf
    ensures st' != [] && ValidFrames(st', |im|) && st'[|st'| - 1].n > 0
    ensures ibuf < |all| && Pending(im, headers, qs, qe, st') == all[ibuf + 1..]
    ensures buf[ibuf] == all[ibuf] && forall k :: 0 <= k < buf.Length && k != ibuf ==> buf[k] == old(buf[k])
  {
    var f := st[|st| - 1];
    var k := im[f.i].sublist;
    var j := FindSubOverlapStart(qs, qe, k, im, headers, nlists);
    var m := if j >= 0 then headers[k].start + headers[k].len else 0;
    PendingEmit(im, headers, qs, qe, st, j, m);
    ghost var next := Advance(st, j, m);
    SplitFirst(all, ibuf, im[f.i], Pending(im, headers, qs, qe, next));
    buf[ibuf] := im[f.i];
    st' := st[..|st| - 1] + [Frame(f.i + 1, f.n)];
    if j >= 0 {
      st' := st' + [Frame(j, m)];
    }
    assert st' == next;
  }

  /** A sequence whose suffix from i is x followed by rest has x at i and rest after it. */
  lemma SplitFirst(all: seq<IntervalMap>, i: int, x: IntervalMap, rest: seq<IntervalMap>)
    requires 0 <= i <= |all| && all[i..] == [x] + rest
    ensures i < |all| && all[i] == x && all[i + 1..] == rest
  {
    assert all[i..][0] == all[i] && all[i..][1..] == all[i + 1..];
  }

  /**
   * The inner loop of find_intervals: copy hits while the current frame's
   * record overlaps, stopping early when the buffer is full.  all[ibuf0..] is
   * what the stack st0 had pending.
   */
  method Scan(qs: int, qe: int, im: seq<IntervalMap>, headers: seq<SublistHeader>, nlists: int,
              st0: seq<Frame>, buf: array<IntervalMap>, ibuf0: int, nbuf: int, ghost all: seq<IntervalMap>)
    returns (st: seq<Frame>, ibuf: int)
    requires ValidLinks(im, headers) && st0 != [] && ValidFrames(st0, |im|)
    requires 0 <= ibuf0 < nbuf <= buf.Length && ibuf0 <= |all|
    requires Pending(im, headers, qs, qe, st0) == all[ibuf0..]
    modifies buf
    ensures ibuf0 <= ibuf <= nbuf && ibuf <= |all|
    ensures forall k :: ibuf0 <= k < ibuf ==> buf[k] == all[k]
    ensures forall k :: 0 <= k < buf.Length && !(ibuf0 <= k < ibuf) ==> buf[k] == old(buf[k])
    ensures st != [] && ValidFrames(st, |im|) && Pending(im, headers, qs, qe, st) == all[ibuf..]
    ensures ibuf == nbuf ==> st[|st| - 1].n > 0
    ensures ibuf < nbuf ==> Walk(im, headers, qs, qe, st[|st| - 1].i, st[|st| - 1].n) == []
    ensures ibuf == ibuf0 ==> st == st0
  {
    st, ibuf := st0, ibuf0;
    while 0 <= st[|st| - 1].i < st[|st| - 1].n && HasOverlap(im[st[|st| - 1].i], qs, qe)
      invariant st != [] && ValidFrames(st, |im|)
      invariant ibuf0 <= ibuf < nbuf && ibuf <= |all|
      invariant forall k :: ibuf0 <= k < ibuf ==> buf[k] == all[k]
      invariant forall k :: 0 <= k < buf.Length && !(ibuf0 <= k < ibuf) ==> buf[k] == old(buf[k])
      invariant Pending(im, headers, qs, qe, st) == all[ibuf..]
      invariant ibuf == ibuf0 ==> st == st0
      decreases |all| - ibuf
    {
      st := Emit(qs, qe, im, headers, nlists, st, buf, ibuf, all);
      ibuf := ibuf + 1;
      if ibuf >= nbuf {
        return;
      }
    }
  }

  /**
   * The copying loop of find_intervals: from the stack st0, copy hits into buf
   * until nbuf of them are found (full) or the stack is exhausted.  The hits
   * copied are the first ones st0 had pending, and st has pending the rest.
   */
  method Collect(qs: int, qe: int, im: seq<IntervalMap>, headers: seq<SublistHeader>, nlists: int,
                 st0: seq<Frame>, buf: array<IntervalMap>, nbuf: int)
    returns (st: seq<Frame>, ibuf: int, full: bool)
    requires ValidLinks(im, headers) && st0 != [] && ValidFrames(st0, |im|)
    requires 1 <= nbuf <= buf.Length
    modifies buf
    ensures var all := Pending(im, headers, qs, qe, st0);
      && 0 <= ibuf <= nbuf && ibuf <= |all|
      && (forall k :: 0 <= k < ibuf ==> buf[k] == all[k])
      && (forall k :: ibuf <= k < buf.Length ==> buf[k] == old(buf[k]))
      && st != [] && ValidFrames(st, |im|)
      && Pending(im, headers, qs, qe, st) == all[ibuf..]
      && (full ==> ibuf == nbuf && st[|st| - 1].n > 0)
      && (!full ==> ibuf == |all|)
  {
    ghost var all := Pending(im, headers, qs, qe, st0);
    st, ibuf, full := st0, 0, false;
    var more := true;
    while more
      invariant st != [] && ValidFrames(st, |im|)
      invariant 0 <= ibuf < nbuf && ibuf <= |all|
      invariant forall k :: 0 <= k < ibuf ==> buf[k] == all[k]
      invariant forall k :: ibuf <= k < buf.Length ==> buf[k] == old(buf[k])
      invariant Pending(im, headers, qs, qe, st) == all[ibuf..]
      invariant !more ==> Pending(im, headers, qs, qe, st) == []
      decreases |all| - ibuf, |st|, if more then 1 else 0
    {
      ghost var stIn, ibIn := st, ibuf;
      st, ibuf := Scan(qs, qe, im, headers, nlists, st, buf, ibuf, nbuf, all);
      if ibuf >= nbuf {
        return st, ibuf, true;
      }
      PendingTop(im, headers, qs, qe, st);
      if |st| > 1 {
        st := st[..|st| - 1];
      } else {
        more := false;
      }
    }
  }

  /**
   * The copying loop followed by reorient_intervals: the first hits the stack
   * st0 has pending, turned to the query's orientation.
   */
  method CopyHits(qs: int, qe: int, oriSign: int, im: seq<IntervalMap>, headers: seq<SublistHeader>, nlists: int,
                  st0: seq<Frame>, buf: array<IntervalMap>, nbuf: int)
    returns (st: seq<Frame>, nreturn: int, full: bool)
    requires ValidLinks(im, headers) && st0 != [] && ValidFrames(st0, |im|)
    requires 1 <= nbuf <= buf.Length
    modifies buf
    ensures var all := Pending(im, headers, qs, qe, st0);
      && 0 <= nreturn <= nbuf && nreturn <= |all|
      && (forall k :: 0 <= k < nreturn ==> buf[k] == Reoriented(all[k], oriSign))
      && (forall k :: nreturn <= k < buf.Length ==> buf[k] == old(buf[k]))
      && st != [] && ValidFrames(st, |im|)
      && Pending(im, headers, qs, qe, st) == all[nreturn..]
      && (full ==> nreturn == nbuf && st[|st| - 1].n > 0)
      && (!full ==> nreturn == |all|)
  {
    st, nreturn, full := Collect(qs, qe, im, headers, nlists, st0, buf, nbuf);
    ReorientIntervals(nreturn, buf, oriSign);
  }

  /**
   * The start of find_intervals: the query in positive form and its
   * orientation, and the iterator's stack with a fresh iterator pointed at the
   * top-level list.
   */
  method StartPass(frames: seq<Frame>, start: int, end: int, im: seq<IntervalMap>, n: int)
    returns (qs: int, qe: int, oriSign: int, st: seq<Frame>)
    requires frames != [] && n <= |im|
    ensures qs == QueryStart(start, end) && qe == QueryEnd(start, end) && oriSign == QuerySign(start)
    ensures st == Started(frames, qs, qe, im, n)
  {
    qs, qe, oriSign := start, end, 1;
    if start < 0 {
      qs, qe, oriSign := -end, -start, -1;
    }
    st := frames;
    if st[|st| - 1].n == 0 {
      var i := FindOverlapStart(qs, qe, im, n);
      st := st[..|st| - 1] + [Frame(i, n)];
    }
  }

  /**
   * find_intervals, one pass.  The query is put in positive form; a fresh
   * iterator is pointed at the top-level list; hits are copied into buf until
   * nbuf of them are found or the stack is exhausted, and are then reoriented
   * to the query's orientation.  The pass returns exactly the next hits the
   * iterator had pending; an iterator comes back only when the buffer filled,
   * and what it still has pending is the rest.
   */
  method FindIntervals(it0: IntervalIterator?, start: int, end: int, im: seq<IntervalMap>, n: int,
                       headers: seq<SublistHeader>, nlists: int, buf: array<IntervalMap>, nbuf: int)
    returns (it: IntervalIterator?, nreturn: int)
    requires ValidLinks(im, headers) && n <= |im|
    requires it0 != null ==> it0.frames != [] && ValidFrames(it0.frames, |im|)
    requires 1 <= nbuf <= buf.Length
    modifies it0, buf
    ensures var frames0 := if it0 == null then [Frame(0, 0)] else old(it0.frames);
      var qs, qe := QueryStart(start, end), QueryEnd(start, end);
      var all := Pending(im, headers, qs, qe, Started(frames0, qs, qe, im, n));
      && 0 <= nreturn <= nbuf && nreturn <= |all|
      && (forall k :: 0 <= k < nreturn ==> buf[k] == Reoriented(all[k], QuerySign(start)))
      && (forall k :: nreturn <= k < buf.Length ==> buf[k] == old(buf[k]))
      && (it == null ==> nreturn == |all|)
      && (it != null ==>
            && nreturn == nbuf && it.frames != [] && ValidFrames(it.frames, |im|)
            && it.frames[|it.frames| - 1].n > 0
            && Pending(im, headers, qs, qe, it.frames) == all[nreturn..])
      && (it0 != null ==>
            && it0.frames != [] && ValidFrames(it0.frames, |im|)
            && Pending(im, headers, qs, qe, it0.frames) == all[nreturn..])
    ensures it0 != null ==> it == null || it == it0
    ensures it0 == null && it != null ==> fresh(it)
  {
    var cur: IntervalIterator;
    if it0 == null {
      cur := new IntervalIterator();
    } else {
      cur := it0;
    }
    var qs, qe, oriSign, st := StartPass(cur.frames, start, end, im, n);
    ghost var all := Pending(im, headers, qs, qe, st);
    var full;
    st, nreturn, full := CopyHits(qs, qe, oriSign, im, headers, nlists, st, buf, nbuf);
    cur.frames := st;
    if full {
      it := cur;
    } else {
      it := null;
    }
  }

  /** The resumed iterator goes on where the pass stopped: it is not restarted. */
  lemma ResumeDoesNotRestart(frames: seq<Frame>, qs: int, qe: int, im: seq<IntervalMap>, n: int)
    requires frames != [] && n <= |im| && frames[|frames| - 1].n > 0
    ensures Started(frames, qs, qe, im, n) == frames
  {
  }

  // ---------------------------------------------------------------------
  // Correctness of the walk on a well-formed nested list.

  /** The records of the list [lo, hi) in preorder: each record, then its sublist's preorder. */
  ghost function Pre(im: seq<IntervalMap>, headers: seq<SublistHeader>, lo: int, hi: int): seq<IntervalMap>
    requires ValidLinks(im, headers) && 0 <= lo && hi <= |im|
    decreases |im| - lo, 1
  {
    if lo >= hi then [] else [im[lo]] + Below(im, headers, lo) + Pre(im, headers, lo + 1, hi)
  }

  /** The preorder of the sublist of record x. */
  ghost function Below(im: seq<IntervalMap>, headers: seq<SublistHeader>, x: int): seq<IntervalMap>
    requires ValidLinks(im, headers) && 0 <= x < |im|
    decreases |im| - x, 0
  {
    var k := im[x].sublist;
    if k >= 0 then Pre(im, headers, headers[k].start, headers[k].start + headers[k].len) else []
  }

  /** Record b lies inside record a (in positive form). */
  predicate Contains(a: IntervalMap, b: IntervalMap) {
    PosStart(a) <= PosStart(b) && PosEnd(b) <= PosEnd(a)
  }

  predicate InBlock(h: SublistHeader, y: int) {
    h.start <= y < h.start + h.len
  }

  /**
   * What the query relies on: the links are valid; the top-level list and every
   * sublist are sorted; every record contains each record of its sublist.
   */
  ghost predicate Invariant(im: seq<IntervalMap>, ntop: int, headers: seq<SublistHeader>) {
    && ValidLinks(im, headers)
    && 0 <= ntop <= |im|
    && SortedList(im, 0, ntop)
    && (forall k :: 0 <= k < |headers| ==>
          HeaderFits(headers[k], |im|) && SortedList(im, headers[k].start, headers[k].start + headers[k].len))
    && (forall x, y ::
          (0 <= x < |im| && 0 <= im[x].sublist < |headers| && 0 <= y < |im| && InBlock(headers[im[x].sublist], y))
          ==> Contains(im[x], im[y]))
  }

  lemma {:induction false} PreSplit(im: seq<IntervalMap>, headers: seq<SublistHeader>, lo: int, mid: int, hi: int)
    requires ValidLinks(im, headers) && 0 <= lo <= mid <= hi <= |im|
    ensures Pre(im, headers, lo, hi) == Pre(im, headers, lo, mid) + Pre(im, headers, mid, hi)
    decreases mid - lo
  {
    if lo < mid {
      PreSplit(im, headers, lo + 1, mid, hi);
      var b := [im[lo]] + Below(im, headers, lo);
      assert Pre(im, headers, lo, hi) == b + Pre(im, headers, lo + 1, hi);
      assert Pre(im, headers, lo, mid) == b + Pre(im, headers, lo + 1, mid);
    } else {
      assert Pre(im, headers, lo, mid) == [];
    }
  }

  /** Everything in the preorder of a list inside record a lies inside a. */
  lemma {:induction false} PreContained(im: seq<IntervalMap>, ntop: int, headers: seq<SublistHeader>, lo: int, hi: int, a: IntervalMap)
    requires Invariant(im, ntop, headers) && 0 <= lo <= hi <= |im|
    requires forall y :: lo <= y < hi ==> Contains(a, im[y])
    ensures forall z :: z in Pre(im, headers, lo, hi) ==> Contains(a, z)
    decreases |im| - lo
  {
    if lo < hi {
      BelowContained(im, ntop, headers, lo);
      PreContained(im, ntop, headers, lo + 1, hi, a);
      assert Pre(im, headers, lo, hi) == [im[lo]] + Below(im, headers, lo) + Pre(im, headers, lo + 1, hi);
    }
  }

  /** Everything below record x lies inside x. */
  lemma {:induction false} BelowContained(im: seq<IntervalMap>, ntop: int, headers: seq<SublistHeader>, x: int)
    requires Invariant(im, ntop, headers) && 0 <= x < |im|
    ensures forall z :: z in Below(im, headers, x) ==> Contains(im[x], z)
    decreases |im| - x, 0
  {
    var k := im[x].sublist;
    if k >= 0 {
      var h := headers[k];
      assert forall y :: h.start <= y < h.start + h.len ==> InBlock(h, y);
      PreContained(im, ntop, headers, h.start, h.start + h.len, im[x]);
    }
  }

  lemma FilterNone(s: seq<IntervalMap>, qs: int, qe: int)
    requires forall z :: z in s ==> !HasOverlap(z, qs, qe)
    ensures Filter(s, qs, qe) == []
  {
  }

  /** Records inside a record that misses the query miss it too. */
  lemma MissInside(a: IntervalMap, zs: seq<IntervalMap>, qs: int, qe: int)
    requires !HasOverlap(a, qs, qe) && forall z :: z in zs ==> Contains(a, z)
    ensures Filter(zs, qs, qe) == []
  {
    FilterNone(zs, qs, qe);
  }

  /** The brute-force query of one record, then its sublist, then the rest of the list. */
  lemma FilterStep(im: seq<IntervalMap>, headers: seq<SublistHeader>, qs: int, qe: int, lo: int, hi: int)
    requires ValidLinks(im, headers) && 0 <= lo < hi <= |im|
    ensures Filter(Pre(im, headers, lo, hi), qs, qe) ==
      (if HasOverlap(im[lo], qs, qe) then [im[lo]] else [])
      + Filter(Below(im, headers, lo), qs, qe) + Filter(Pre(im, headers, lo + 1, hi), qs, qe)
  {
    var b := Below(im, headers, lo);
    var r := Pre(im, headers, lo + 1, hi);
    assert Pre(im, headers, lo, hi) == [im[lo]] + b + r;
    FilterAppend([im[lo]] + b, r, qs, qe);
    FilterAppend([im[lo]], b, qs, qe);
    assert [im[lo]][1..] == [];
  }

  /** A list none of whose records overlaps has no hits in its whole preorder. */
  lemma {:induction false} NoHits(im: seq<IntervalMap>, ntop: int, headers: seq<SublistHeader>, qs: int, qe: int, lo: int, hi: int)
    requires Invariant(im, ntop, headers) && 0 <= lo <= hi <= |im|
    requires forall y :: lo <= y < hi ==> !HasOverlap(im[y], qs, qe)
    ensures Filter(Pre(im, headers, lo, hi), qs, qe) == []
    decreases hi - lo
  {
    if lo < hi {
      BelowContained(im, ntop, headers, lo);
      MissInside(im[lo], Below(im, headers, lo), qs, qe);
      NoHits(im, ntop, headers, qs, qe, lo + 1, hi);
      FilterStep(im, headers, qs, qe, lo, hi);
    } else {
      assert Pre(im, headers, lo, hi) == [];
    }
  }

  /** The hits the query finds below record i are the hits of i's sublist's preorder. */
  lemma {:induction false} SubWalkFrom(im: seq<IntervalMap>, ntop: int, headers: seq<SublistHeader>, qs: int, qe: int, i: int)
    requires Invariant(im, ntop, headers) && 0 <= i < |im|
    ensures WalkBelow(im, headers, qs, qe, i) == Filter(Below(im, headers, i), qs, qe)
    decreases |im| - i, 1
  {
    var k := im[i].sublist;
    if k >= 0 {
      var h := headers[k];
      var lo, hi := h.start, h.start + h.len;
      var j := SubOverlapStart(qs, qe, k, im, headers);
      SubOverlapStartMeaning(qs, qe, k, im, headers);
      if j < 0 {
        NoHits(im, ntop, headers, qs, qe, lo, hi);
        BelowGlueMiss(im, headers, qs, qe, i);
      } else {
        SubWalkHit(im, ntop, headers, qs, qe, i, lo, j, hi);
      }
    } else {
      BelowGlueMiss(im, headers, qs, qe, i);
    }
  }

  /** SubWalkFrom when the sublist lo..hi of record i has the overlap start j. */
  lemma {:induction false} SubWalkHit(im: seq<IntervalMap>, ntop: int, headers: seq<SublistHeader>, qs: int, qe: int,
                                      i: int, lo: int, j: int, hi: int)
    requires Invariant(im, ntop, headers) && 0 <= i < |im| && im[i].sublist >= 0
    requires var k := im[i].sublist;
      lo == headers[k].start && hi == lo + headers[k].len && j == SubOverlapStart(qs, qe, k, im, headers)
    requires 0 <= lo <= j < hi <= |im| && SortedList(im, lo, hi) && HasOverlap(im[j], qs, qe)
    requires forall k :: lo <= k < j ==> PosEnd(im[k]) <= qs
    ensures WalkBelow(im, headers, qs, qe, i) == Filter(Below(im, headers, i), qs, qe)
    decreases |im| - i, 0
  {
    HitsFrom(im, qs, qe, lo, j, hi);
    NoHits(im, ntop, headers, qs, qe, lo, j);
    WalkFrom(im, ntop, headers, qs, qe, j, hi);
    BelowGlue(im, headers, qs, qe, i, lo, j, hi);
  }

  /** Below a record whose sublist has an overlap start j, the walk agrees with the filter once it does from j on. */
  lemma BelowGlue(im: seq<IntervalMap>, headers: seq<SublistHeader>, qs: int, qe: int, i: int, lo: int, j: int, hi: int)
    requires ValidLinks(im, headers) && 0 <= i < |im| && im[i].sublist >= 0
    requires var k := im[i].sublist;
      lo == headers[k].start && hi == lo + headers[k].len && j == SubOverlapStart(qs, qe, k, im, headers)
    requires 0 <= j && Filter(Pre(im, headers, lo, j), qs, qe) == []
    requires Walk(im, headers, qs, qe, j, hi) == Filter(Pre(im, headers, j, hi), qs, qe)
    ensures WalkBelow(im, headers, qs, qe, i) == Filter(Below(im, headers, i), qs, qe)
  {
    BelowFrame(im, headers, qs, qe, i, j, hi);
    BelowPre(im, headers, i);
    PreSplit(im, headers, lo, j, hi);
    FilterAppend(Pre(im, headers, lo, j), Pre(im, headers, j, hi), qs, qe);
    ghost var w := Filter(Pre(im, headers, j, hi), qs, qe);
    assert [] + w == w;
  }

  /** Below a record whose sublist has no overlap start, neither the walk nor the filter finds anything. */
  lemma BelowGlueMiss(im: seq<IntervalMap>, headers: seq<SublistHeader>, qs: int, qe: int, i: int)
    requires ValidLinks(im, headers) && 0 <= i < |im|
    requires var k := im[i].sublist;
      k >= 0 ==> (SubOverlapStart(qs, qe, k, im, headers) < 0
        && Filter(Pre(im, headers, headers[k].start, headers[k].start + headers[k].len), qs, qe) == [])
    ensures WalkBelow(im, headers, qs, qe, i) == Filter(Below(im, headers, i), qs, qe)
  {
    var k := im[i].sublist;
    BelowFrame(im, headers, qs, qe, i, if k >= 0 then SubOverlapStart(qs, qe, k, im, headers) else -1, 0);
    BelowPre(im, headers, i);
  }

  /** The preorder below record x is that of its sublist, or nothing. */
  lemma BelowPre(im: seq<IntervalMap>, headers: seq<SublistHeader>, x: int)
    requires ValidLinks(im, headers) && 0 <= x < |im|
    ensures var k := im[x].sublist;
      Below(im, headers, x) == if k >= 0 then Pre(im, headers, headers[k].start, headers[k].start + headers[k].len) else []
  {
  }

  /** Before the overlap start j of a sorted list nothing overlaps, and from j on the list is sorted. */
  lemma HitsFrom(im: seq<IntervalMap>, qs: int, qe: int, lo: int, j: int, hi: int)
    requires 0 <= lo <= j <= |im| && SortedList(im, lo, hi)
    requires forall k :: lo <= k < j ==> PosEnd(im[k]) <= qs
    ensures SortedList(im, j, hi) && forall y :: lo <= y < j ==> !HasOverlap(im[y], qs, qe)
  {
  }

  /** In a sorted list, once a record ending after qs misses, every later one misses too. */
  lemma MissesAfter(im: seq<IntervalMap>, qs: int, qe: int, i: int, hi: int)
    requires 0 <= i < hi <= |im| && SortedList(im, i, hi)
    requires PosEnd(im[i]) > qs && !HasOverlap(im[i], qs, qe)
    ensures forall y :: i <= y < hi ==> !HasOverlap(im[y], qs, qe)
  {
    forall y | i <= y < hi ensures !HasOverlap(im[y], qs, qe) {
      assert PosStart(im[i]) <= PosStart(im[y]);
    }
  }

  /**
   * From a position i of a sorted list at or past the first record ending
   * after qs, the walk emits exactly the overlapping records of the preorder
   * of the rest of the list.
   */
  lemma {:induction false} WalkFrom(im: seq<IntervalMap>, ntop: int, headers: seq<SublistHeader>, qs: int, qe: int, i: int, hi: int)
    requires Invariant(im, ntop, headers) && 0 <= i <= hi <= |im| && SortedList(im, i, hi)
    requires i == hi || PosEnd(im[i]) > qs
    ensures Walk(im, headers, qs, qe, i, hi) == Filter(Pre(im, headers, i, hi), qs, qe)
    decreases |im| - i, 3
  {
    if i == hi {
      assert Pre(im, headers, i, hi) == [];
    } else if !HasOverlap(im[i], qs, qe) {
      MissesAfter(im, qs, qe, i, hi);
      NoHits(im, ntop, headers, qs, qe, i, hi);
    } else {
      WalkFromHit(im, ntop, headers, qs, qe, i, hi);
    }
  }

  /** WalkFrom when record i overlaps: i is emitted, then its sublist's hits, then the rest. */
  lemma {:induction false} WalkFromHit(im: seq<IntervalMap>, ntop: int, headers: seq<SublistHeader>, qs: int, qe: int, i: int, hi: int)
    requires Invariant(im, ntop, headers) && 0 <= i < hi <= |im| && SortedList(im, i, hi)
    requires HasOverlap(im[i], qs, qe)
    ensures Walk(im, headers, qs, qe, i, hi) == Filter(Pre(im, headers, i, hi), qs, qe)
    decreases |im| - i, 2
  {
    SubWalkFrom(im, ntop, headers, qs, qe, i);
    SortedTail(im, i, hi);
    WalkFrom(im, ntop, headers, qs, qe, i + 1, hi);
    HitGlue(im, headers, qs, qe, i, hi);
  }

  /** If the walk agrees with the filter below record i and after it, it agrees from i on. */
  lemma HitGlue(im: seq<IntervalMap>, headers: seq<SublistHeader>, qs: int, qe: int, i: int, hi: int)
    requires ValidLinks(im, headers) && 0 <= i < hi <= |im| && HasOverlap(im[i], qs, qe)
    requires WalkBelow(im, headers, qs, qe, i) == Filter(Below(im, headers, i), qs, qe)
    requires Walk(im, headers, qs, qe, i + 1, hi) == Filter(Pre(im, headers, i + 1, hi), qs, qe)
    ensures Walk(im, headers, qs, qe, i, hi) == Filter(Pre(im, headers, i, hi), qs, qe)
  {
    FilterStep(im, headers, qs, qe, i, hi);
    WalkHit(im, headers, qs, qe, i, hi);
  }

  /** The rest of a sorted list is sorted, and its first record ends no earlier. */
  lemma SortedTail(im: seq<IntervalMap>, i: int, hi: int)
    requires 0 <= i < hi <= |im| && SortedList(im, i, hi)
    ensures SortedList(im, i + 1, hi) && (i + 1 < hi ==> PosEnd(im[i]) <= PosEnd(im[i + 1]))
  {
  }

  /**
   * The query theorem: on a well-formed nested list a fresh iterator has
   * pending exactly the records of the preorder that overlap [qs, qe), in
   * preorder.
   */
  lemma FreshSearchIsFilter(im: seq<IntervalMap>, ntop: int, headers: seq<SublistHeader>, qs: int, qe: int)
    requires Invariant(im, ntop, headers)
    ensures Pending(im, headers, qs, qe, Started([Frame(0, 0)], qs, qe, im, ntop))
      == Filter(Pre(im, headers, 0, ntop), qs, qe)
  {
    var r := OverlapStart(qs, qe, im, ntop);
    var frames := Started([Frame(0, 0)], qs, qe, im, ntop);
    assert frames == [Frame(r, ntop)];
    assert Pending(im, headers, qs, qe, frames) == Walk(im, headers, qs, qe, r, ntop);
    OverlapStartMeaning(qs, qe, im, ntop);
    if r < 0 {
      NoHits(im, ntop, headers, qs, qe, 0, ntop);
    } else {
      NoHits(im, ntop, headers, qs, qe, 0, r);
      PreSplit(im, headers, 0, r, ntop);
      WalkFrom(im, ntop, headers, qs, qe, r, ntop);
      FilterAppend(Pre(im, headers, 0, r), Pre(im, headers, r, ntop), qs, qe);
    }
  }
}
