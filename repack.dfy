/**
 * repack_subheaders: before the database is written, the headers of sublists
 * longer than div move to the front (so that they, and only they, get block
 * indexes), short ones follow, both in their old order; every record's
 * sublist number is remapped to its header's new place.
 */
module Repacking {
  import opened Records

  /** A header of a sublist too long to be read in one piece: it gets a block index on disk. */
  predicate Big(h: SublistHeader, div: int) {
    h.len > div
  }

  /** The headers of h that are big (big = true) or small (big = false), in their order. */
  function Part(h: seq<SublistHeader>, div: int, big: bool): (r: seq<SublistHeader>)
    ensures |r| <= |h|
    decreases |h|
  {
    if h == [] then []
    else Part(h[..|h| - 1], div, big) + (if Big(h[|h| - 1], div) == big then [h[|h| - 1]] else [])
  }

  /** The repacked header list: the big headers, then the small ones. */
  function BigFirst(h: seq<SublistHeader>, div: int): (r: seq<SublistHeader>)
    ensures |r| == |h|
  {
    PartSizes(h, div);
    Part(h, div, true) + Part(h, div, false)
  }

  /** Where header i goes: after the earlier headers of its own kind, the small ones after all the big ones. */
  function NewIndex(h: seq<SublistHeader>, div: int, i: int): int
    requires 0 <= i < |h|
  {
    if Big(h[i], div) then |Part(h[..i], div, true)|
    else |Part(h, div, true)| + |Part(h[..i], div, false)|
  }

  /** repack_subheaders' sub_map: the new number of every old sublist number. */
  function SubMap(h: seq<SublistHeader>, div: int): (m: seq<int>)
    ensures |m| == |h| && forall i :: 0 <= i < |h| ==> m[i] == NewIndex(h, div, i)
  {
    seq(|h|, i requires 0 <= i < |h| => NewIndex(h, div, i))
  }

  /** The records after the remapping: the first n have their sublist numbers mapped through m, the rest are as they were. */
  function Remapped(im: seq<IntervalMap>, m: seq<int>, n: int): (r: seq<IntervalMap>)
    requires 0 <= n <= |im| && forall k :: 0 <= k < n ==> im[k].sublist < |m|
    ensures |r| == |im|
    ensures forall k :: 0 <= k < |im| ==> r[k] == (if k < n then Remap(im[k], m) else im[k])
  {
    seq(|im|, k requires 0 <= k < |im| => if k < n then Remap(im[k], m) else im[k])
  }

  function Remap(r: IntervalMap, m: seq<int>): IntervalMap
    requires r.sublist < |m|
  {
    if r.sublist >= 0 then r.(sublist := m[r.sublist]) else r
  }

  // ---------------------------------------------------------------------------
  // Facts about the partition

  lemma PartStep(h: seq<SublistHeader>, div: int, big: bool, i: int)
    requires 0 <= i < |h|
    ensures Part(h[..i + 1], div, big)
         == Part(h[..i], div, big) + (if Big(h[i], div) == big then [h[i]] else [])
  {
    assert h[..i + 1][..i] == h[..i];
  }

  /** The part of a prefix is a prefix of the part. */
  lemma {:induction false} PartPrefix(h: seq<SublistHeader>, div: int, big: bool, j: int)
    requires 0 <= j <= |h|
    ensures var p, q := Part(h[..j], div, big), Part(h, div, big); |p| <= |q| && q[..|p|] == p
    decreases |h| - j
  {
    if j == |h| {
      assert h[..j] == h;
    } else {
      PartPrefix(h, div, big, j + 1);
      PartStep(h, div, big, j);
    }
  }

  lemma {:induction false} PartSizes(h: seq<SublistHeader>, div: int)
    ensures |Part(h, div, true)| + |Part(h, div, false)| == |h|
    decreases |h|
  {
    if h != [] {
      PartSizes(h[..|h| - 1], div);
    }
  }

  lemma {:induction false} PartMultiset(h: seq<SublistHeader>, div: int)
    ensures multiset(Part(h, div, true)) + multiset(Part(h, div, false)) == multiset(h)
    decreases |h|
  {
    if h != [] {
      var t, x := h[..|h| - 1], h[|h| - 1];
      PartMultiset(t, div);
      assert h == t + [x];
      assert multiset(h) == multiset(t) + multiset{x};
    }
  }

  /** Every header of a part is of that part's kind. */
  lemma {:induction false} PartKind(h: seq<SublistHeader>, div: int, big: bool)
    ensures forall k :: 0 <= k < |Part(h, div, big)| ==> Big(Part(h, div, big)[k], div) == big
    decreases |h|
  {
    if h != [] {
      PartKind(h[..|h| - 1], div, big);
    }
  }

  /** Header i sits at its new index in the repacked list. */
  lemma NewIndexHolds(h: seq<SublistHeader>, div: int, i: int)
    requires 0 <= i < |h|
    ensures 0 <= NewIndex(h, div, i) < |h| && BigFirst(h, div)[NewIndex(h, div, i)] == h[i]
  {
    var big := Big(h[i], div);
    PartPrefix(h, div, big, i + 1);
    PartStep(h, div, big, i);
    PartSizes(h, div);
  }

  /** Two headers of the same kind keep their order; a big one lands before every small one. */
  lemma NewIndexOrder(h: seq<SublistHeader>, div: int, i: int, j: int)
    requires 0 <= i < j < |h|
    ensures Big(h[i], div) == Big(h[j], div) ==> NewIndex(h, div, i) < NewIndex(h, div, j)
    ensures Big(h[i], div) != Big(h[j], div) ==>
      (NewIndex(h, div, i) < |Part(h, div, true)| <==> Big(h[i], div))
  {
    var big := Big(h[i], div);
    PartPrefix(h[..j], div, big, i + 1);
    assert h[..j][..i + 1] == h[..i + 1];
    PartStep(h, div, big, i);
    PartPrefix(h, div, true, i);
    PartPrefix(h, div, true, j);
    PartPrefix(h, div, true, j + 1);
    PartStep(h, div, true, j);
    PartStep(h, div, true, i);
    PartPrefix(h, div, true, i + 1);
  }

  /**
   * The repacking is a stable partition: the new list holds the same headers,
   * the big ones exactly in front, and the sublist map is a one-to-one map
   * onto it that sends every old number to the same header and keeps the
   * order within each kind.
   */
  lemma RepackIsStablePartition(h: seq<SublistHeader>, div: int)
    ensures var r, m := BigFirst(h, div), SubMap(h, div);
      && |r| == |h| && multiset(r) == multiset(h)
      && (forall k :: 0 <= k < |r| ==> (Big(r[k], div) <==> k < |Part(h, div, true)|))
      && (forall i :: 0 <= i < |h| ==> 0 <= m[i] < |r| && r[m[i]] == h[i])
      && (forall i, j :: 0 <= i < j < |h| ==> m[i] != m[j])
      && (forall i, j :: 0 <= i < j < |h| && Big(h[i], div) == Big(h[j], div) ==> m[i] < m[j])
  {
    var r, m := BigFirst(h, div), SubMap(h, div);
    PartSizes(h, div);
    PartMultiset(h, div);
    PartKind(h, div, true);
    PartKind(h, div, false);
    forall k | 0 <= k < |r| ensures Big(r[k], div) <==> k < |Part(h, div, true)| {
      if k >= |Part(h, div, true)| {
        assert r[k] == Part(h, div, false)[k - |Part(h, div, true)|];
      }
    }
    forall i | 0 <= i < |h| ensures 0 <= m[i] < |r| && r[m[i]] == h[i] {
      NewIndexHolds(h, div, i);
    }
    forall i, j | 0 <= i < j < |h| ensures m[i] != m[j] && (Big(h[i], div) == Big(h[j], div) ==> m[i] < m[j]) {
      NewIndexOrder(h, div, i, j);
    }
  }

  /**
   * After repacking, every record with a sublist still names a header with
   * the same start and length, and nothing else about any record changes.
   */
  lemma RemapKeepsHeaders(im: seq<IntervalMap>, h: seq<SublistHeader>, div: int, n: int)
    requires 0 <= n <= |im| && forall k :: 0 <= k < n ==> im[k].sublist < |h|
    ensures var im', h' := Remapped(im, SubMap(h, div), n), BigFirst(h, div);
      forall k :: 0 <= k < |im| ==>
        && im'[k].(sublist := im[k].sublist) == im[k]
        && (im'[k].sublist < 0 <==> im[k].sublist < 0)
        && (k < n && im[k].sublist >= 0 ==> im'[k].sublist < |h'| && h'[im'[k].sublist] == h[im[k].sublist])
        && (k >= n ==> im'[k] == im[k])
  {
    var m := SubMap(h, div);
    forall i | 0 <= i < |h| ensures 0 <= m[i] < |BigFirst(h, div)| && BigFirst(h, div)[m[i]] == h[i] {
      NewIndexHolds(h, div, i);
    }
  }

  // ---------------------------------------------------------------------------
  // The procedure

  /** repack_subheaders (lines 474-506), on the record and header arrays. */
  method RepackSubheaders(im: array<IntervalMap>, n: int, div: int, subheader: array<SublistHeader>, nlists: int)
    requires 0 <= n <= im.Length && nlists == subheader.Length
    requires forall k :: 0 <= k < n ==> im[k].sublist < nlists
    modifies im, subheader
    ensures subheader[..] == BigFirst(old(subheader[..]), div)
    ensures im[..] == Remapped(old(im[..]), SubMap(old(subheader[..]), div), n)
  {
    var subMap, subPack := PackHeaders(subheader[..], div);
    RemapSublists(im, n, subMap);
    forall k | 0 <= k < nlists {
      subheader[k] := subPack[k];
    }
    assert subheader[..] == subPack;
  }

  /** The two packing loops: sub_pack gets the big headers, then the small ones, and sub_map their new places. */
  method PackHeaders(h: seq<SublistHeader>, div: int) returns (subMap: seq<int>, subPack: seq<SublistHeader>)
    ensures subMap == SubMap(h, div) && subPack == BigFirst(h, div)
  {
    subMap, subPack := PackBig(h, div);
    subMap, subPack := PackSmall(h, div, subMap, subPack);
  }

  /** The first loop: the big headers, in order, at the front. */
  method PackBig(h: seq<SublistHeader>, div: int) returns (subMap: seq<int>, subPack: seq<SublistHeader>)
    ensures |subMap| == |h| && subPack == Part(h, div, true)
    ensures forall k :: 0 <= k < |h| && Big(h[k], div) ==> subMap[k] == NewIndex(h, div, k)
  {
    subMap := seq(|h|, _ => 0);
    subPack := [];
    var i, j := 0, 0;
    while i < |h|
      invariant 0 <= i <= |h| && |subMap| == |h|
      invariant subPack == Part(h[..i], div, true) && j == |subPack|
      invariant forall k :: 0 <= k < i && Big(h[k], div) ==> subMap[k] == NewIndex(h, div, k)
    {
      PartStep(h, div, true, i);
      if h[i].len > div {
        subPack := subPack + [h[i]];
        subMap := subMap[i := j];
        j := j + 1;
      }
      i := i + 1;
    }
    assert h[..i] == h;
  }

  /** The second loop: the small headers, in order, after the big ones. */
  method PackSmall(h: seq<SublistHeader>, div: int, subMap0: seq<int>, subPack0: seq<SublistHeader>)
      returns (subMap: seq<int>, subPack: seq<SublistHeader>)
    requires |subMap0| == |h| && subPack0 == Part(h, div, true)
    requires forall k :: 0 <= k < |h| && Big(h[k], div) ==> subMap0[k] == NewIndex(h, div, k)
    ensures subMap == SubMap(h, div) && subPack == BigFirst(h, div)
  {
    subMap, subPack := subMap0, subPack0;
    var i, j := 0, |subPack0|;
    while i < |h|
      invariant 0 <= i <= |h| && |subMap| == |h|
      invariant subPack == Part(h, div, true) + Part(h[..i], div, false) && j == |subPack|
      invariant forall k :: 0 <= k < |h| && Big(h[k], div) ==> subMap[k] == NewIndex(h, div, k)
      invariant forall k :: 0 <= k < i && !Big(h[k], div) ==> subMap[k] == NewIndex(h, div, k)
    {
      PartStep(h, div, false, i);
      if h[i].len <= div {
        subPack := subPack + [h[i]];
        subMap := subMap[i := j];
        j := j + 1;
      }
      i := i + 1;
    }
    assert h[..i] == h;
  }

  /** The third loop: every record of the first n with a sublist gets that sublist's new number. */
  method RemapSublists(im: array<IntervalMap>, n: int, subMap: seq<int>)
    requires 0 <= n <= im.Length && forall k :: 0 <= k < n ==> im[k].sublist < |subMap|
    modifies im
    ensures im[..] == Remapped(old(im[..]), subMap, n)
  {
    ghost var im0 := im[..];
    var i := 0;
    while i < n
      invariant 0 <= i <= n && im[..] == Remapped(im0, subMap, i)
    {
      if im[i].sublist >= 0 {
        im[i] := im[i].(sublist := subMap[im[i].sublist]);
      }
      i := i + 1;
    }
  }
}
