/**
 * write_binary_files without the file system: the .idb file is the padded
 * top-level list followed by every sublist (big ones padded to whole
 * blocks), the .subhead file gives each sublist's start in the .idb file, and
 * the .index file holds the block index of the top level, then that of every
 * big sublist.  Once the headers are repacked big-first, every big sublist
 * starts on a block boundary, at the block whose number is its first index
 * entry: the guarantee the file query relies on at line 355.
 */
module BinaryFiles {
  import opened Records
  import opened Search
  import opened DiskLayout
  import opened Repacking
  import opened Query

  /** Every header names a run of the record array. */
  predicate AllFit(hs: seq<SublistHeader>, size: int) {
    forall k :: 0 <= k < |hs| ==> HeaderFits(hs[k], size)
  }

  /** The records of sublist h. */
  function Members(im: seq<IntervalMap>, h: SublistHeader): (r: seq<IntervalMap>)
    requires HeaderFits(h, |im|)
    ensures |r| == h.len
  {
    im[h.start .. h.start + h.len]
  }

  /** How many records a sublist takes in the .idb file: whole blocks when big, its length when small. */
  function StoredSize(h: SublistHeader, div: int): int
    requires div > 0
  {
    if Big(h, div) then PaddedSize(h.len, div) else h.len
  }

  /** What write_binary_files stores for a sublist (lines 571-576). */
  function Stored(im: seq<IntervalMap>, h: SublistHeader, div: int): (r: seq<IntervalMap>)
    requires div > 0 && HeaderFits(h, |im|)
    ensures |r| == StoredSize(h, div)
  {
    if Big(h, div) then Padded(Members(im, h), h.len, div) else Members(im, h)
  }

  /** The block index write_binary_files writes for a sublist: one for a big sublist, none for a small one. */
  function SubIndex(im: seq<IntervalMap>, h: SublistHeader, div: int): (r: seq<IntervalIndex>)
    requires div > 0 && HeaderFits(h, |im|)
    ensures |r| == if Big(h, div) then Blocks(h.len, div) else 0
  {
    if Big(h, div) then IndexOf(Members(im, h), h.len, div) else []
  }

  /** The .idb position write_binary_files records for sublist i: the running count npad of lines 566-576. */
  function FileStart(ntop: int, div: int, hs: seq<SublistHeader>, i: int): int
    requires div > 0 && 0 <= i <= |hs|
  {
    if i == 0 then PaddedSize(ntop, div) else FileStart(ntop, div, hs, i - 1) + StoredSize(hs[i - 1], div)
  }

  /** The .index position where the entries of sublist i begin: the running count nii of lines 587-590. */
  function IndexStart(ntop: int, div: int, hs: seq<SublistHeader>, i: int): nat
    requires div > 0 && 0 <= i <= |hs|
  {
    if i == 0 then Blocks(ntop, div)
    else IndexStart(ntop, div, hs, i - 1) + (if Big(hs[i - 1], div) then Blocks(hs[i - 1].len, div) else 0)
  }

  /** The .idb file once the top level and the first i sublists are written. */
  function IdbUpTo(im: seq<IntervalMap>, ntop: int, div: int, hs: seq<SublistHeader>, i: int): (r: seq<IntervalMap>)
    requires div > 0 && 0 <= ntop <= |im| && AllFit(hs, |im|) && 0 <= i <= |hs|
    ensures |r| == FileStart(ntop, div, hs, i)
  {
    if i == 0 then Padded(im, ntop, div) else IdbUpTo(im, ntop, div, hs, i - 1) + Stored(im, hs[i - 1], div)
  }

  /** The .index file once the top level and the first i sublists are indexed. */
  function IndexUpTo(im: seq<IntervalMap>, ntop: int, div: int, hs: seq<SublistHeader>, i: int): (r: seq<IntervalIndex>)
    requires div > 0 && 0 <= ntop <= |im| && AllFit(hs, |im|) && 0 <= i <= |hs|
    ensures |r| == IndexStart(ntop, div, hs, i)
  {
    if i == 0 then IndexOf(im, ntop, div) else IndexUpTo(im, ntop, div, hs, i - 1) + SubIndex(im, hs[i - 1], div)
  }

  /** The .idb file: the padded top level, then the sublists. */
  function IdbFile(im: seq<IntervalMap>, ntop: int, div: int, hs: seq<SublistHeader>): seq<IntervalMap>
    requires div > 0 && 0 <= ntop <= |im| && AllFit(hs, |im|)
  {
    IdbUpTo(im, ntop, div, hs, |hs|)
  }

  /** The .index file: the top-level index, then those of the big sublists. */
  function IndexFile(im: seq<IntervalMap>, ntop: int, div: int, hs: seq<SublistHeader>): seq<IntervalIndex>
    requires div > 0 && 0 <= ntop <= |im| && AllFit(hs, |im|)
  {
    IndexUpTo(im, ntop, div, hs, |hs|)
  }

  /** The .subhead file once the headers of the first i sublists are written. */
  function SubheadUpTo(ntop: int, div: int, hs: seq<SublistHeader>, i: int): (r: seq<SublistHeader>)
    requires div > 0 && 0 <= i <= |hs|
    ensures |r| == i
  {
    if i == 0 then [] else SubheadUpTo(ntop, div, hs, i - 1) + [SublistHeader(FileStart(ntop, div, hs, i - 1), hs[i - 1].len)]
  }

  /** The .subhead file: for every sublist its .idb start and its true, unpadded length. */
  function SubheadFile(ntop: int, div: int, hs: seq<SublistHeader>): (r: seq<SublistHeader>)
    requires div > 0
    ensures |r| == |hs|
  {
    SubheadUpTo(ntop, div, hs, |hs|)
  }

  /** Exactly the first nb headers are big. */
  predicate BigBelow(hs: seq<SublistHeader>, div: int, nb: int) {
    forall j :: 0 <= j < |hs| ==> (Big(hs[j], div) <==> j < nb)
  }

  /** Every big header comes before every small one. */
  predicate BigInFront(hs: seq<SublistHeader>, div: int) {
    exists nb :: 0 <= nb <= |hs| && BigBelow(hs, div, nb)
  }

  // ---------------------------------------------------------------------------
  // Prefixes and slices

  /** q begins with p. */
  ghost predicate IsPrefix<T>(p: seq<T>, q: seq<T>) {
    |p| <= |q| && q[..|p|] == p
  }

  lemma PrefixSelf<T>(q: seq<T>)
    ensures q[..|q|] == q && IsPrefix(q, q)
  {
  }

  /** A prefix p of a is a prefix of q == a + b. */
  lemma PrefixGrows<T>(p: seq<T>, a: seq<T>, b: seq<T>, q: seq<T>)
    requires IsPrefix(p, a) && q == a + b
    ensures IsPrefix(p, q)
  {
    assert q[..|p|] == a[..|p|];
  }

  /** If q begins with p == a + b, then b lies in q from s == |a| on. */
  lemma SliceOfPrefix<T>(q: seq<T>, p: seq<T>, a: seq<T>, b: seq<T>, s: int, z: int)
    requires IsPrefix(p, q) && p == a + b && s == |a| && z == |b|
    ensures 0 <= s && s + z <= |q| && q[s .. s + z] == b
  {
    assert q[s .. s + z] == p[s..];
  }

  lemma SliceHead<T>(q: seq<T>, s: int, z: int, l: int)
    requires 0 <= s && 0 <= l <= z && s + z <= |q|
    ensures q[s .. s + l] == q[s .. s + z][..l]
  {
  }

  // ---------------------------------------------------------------------------
  // The layout of the written files

  /** What is written first stays at the front of the .idb file. */
  lemma {:induction false} IdbGrows(im: seq<IntervalMap>, ntop: int, div: int, hs: seq<SublistHeader>, k: int, i: int)
    requires div > 0 && 0 <= ntop <= |im| && AllFit(hs, |im|) && 0 <= k <= i <= |hs|
    ensures IsPrefix(IdbUpTo(im, ntop, div, hs, k), IdbUpTo(im, ntop, div, hs, i))
    decreases i
  {
    if i == k {
      PrefixSelf(IdbUpTo(im, ntop, div, hs, k));
    } else {
      IdbGrows(im, ntop, div, hs, k, i - 1);
      PrefixGrows(IdbUpTo(im, ntop, div, hs, k), IdbUpTo(im, ntop, div, hs, i - 1), Stored(im, hs[i - 1], div),
                  IdbUpTo(im, ntop, div, hs, i));
    }
  }

  /** What is indexed first stays at the front of the .index file. */
  lemma {:induction false} IndexGrows(im: seq<IntervalMap>, ntop: int, div: int, hs: seq<SublistHeader>, k: int, i: int)
    requires div > 0 && 0 <= ntop <= |im| && AllFit(hs, |im|) && 0 <= k <= i <= |hs|
    ensures IsPrefix(IndexUpTo(im, ntop, div, hs, k), IndexUpTo(im, ntop, div, hs, i))
    decreases i
  {
    if i == k {
      PrefixSelf(IndexUpTo(im, ntop, div, hs, k));
    } else {
      IndexGrows(im, ntop, div, hs, k, i - 1);
      PrefixGrows(IndexUpTo(im, ntop, div, hs, k), IndexUpTo(im, ntop, div, hs, i - 1), SubIndex(im, hs[i - 1], div),
                  IndexUpTo(im, ntop, div, hs, i));
    }
  }

  /** When the first i sublists are all big, they take div records per index entry. */
  lemma {:induction false} AlignedStarts(ntop: int, div: int, hs: seq<SublistHeader>, i: int)
    requires div > 0 && 0 <= i <= |hs| && forall k :: 0 <= k < i ==> Big(hs[k], div)
    ensures FileStart(ntop, div, hs, i) == div * IndexStart(ntop, div, hs, i)
  {
    if i == 0 {
      PaddedBlocks(ntop, div);
    } else {
      var h := hs[i - 1];
      AlignedStarts(ntop, div, hs, i - 1);
      PaddedBlocks(h.len, div);
      Distrib(div, IndexStart(ntop, div, hs, i - 1), Blocks(h.len, div), IndexStart(ntop, div, hs, i));
    }
  }

  lemma Distrib(d: int, a: int, b: int, s: int)
    requires s == a + b
    ensures d * s == d * a + d * b
  {
  }

  /**
   * With the big headers in front, the .idb start of every big sublist is
   * div times the position of its first entry in the .index file (lines
   * 566-576 and 587-590, relied on at line 355).
   */
  lemma AlignedSublists(ntop: int, div: int, hs: seq<SublistHeader>, i: int)
    requires div > 0 && BigInFront(hs, div)
    requires 0 <= i < |hs| && Big(hs[i], div)
    ensures FileStart(ntop, div, hs, i) == div * IndexStart(ntop, div, hs, i)
  {
    var nb :| 0 <= nb <= |hs| && BigBelow(hs, div, nb);
    AlignedStarts(ntop, div, hs, i);
  }

  /** The stored form of a sublist begins with its records. */
  lemma StoredHead(im: seq<IntervalMap>, h: SublistHeader, div: int)
    requires div > 0 && HeaderFits(h, |im|)
    ensures h.len <= StoredSize(h, div) && Stored(im, h, div)[..h.len] == Members(im, h)
  {
    PaddedSizeLeast(h.len, div);
  }

  /** Each sublist lies in the .idb file, in its stored form, at the start the .subhead file gives it. */
  lemma FileHoldsStored(im: seq<IntervalMap>, ntop: int, div: int, hs: seq<SublistHeader>, i: int)
    requires div > 0 && 0 <= ntop <= |im| && AllFit(hs, |im|) && 0 <= i < |hs|
    ensures var idb, s := IdbFile(im, ntop, div, hs), FileStart(ntop, div, hs, i);
      && 0 <= s && s + StoredSize(hs[i], div) <= |idb|
      && idb[s .. s + StoredSize(hs[i], div)] == Stored(im, hs[i], div)
  {
    IdbGrows(im, ntop, div, hs, i + 1, |hs|);
    SliceOfPrefix(IdbFile(im, ntop, div, hs), IdbUpTo(im, ntop, div, hs, i + 1), IdbUpTo(im, ntop, div, hs, i), Stored(im, hs[i], div),
                  FileStart(ntop, div, hs, i), StoredSize(hs[i], div));
  }

  /** Each sublist's records lie in the .idb file from the start the .subhead file gives it. */
  lemma FileHoldsSublist(im: seq<IntervalMap>, ntop: int, div: int, hs: seq<SublistHeader>, i: int)
    requires div > 0 && 0 <= ntop <= |im| && AllFit(hs, |im|) && 0 <= i < |hs|
    ensures var idb, s := IdbFile(im, ntop, div, hs), FileStart(ntop, div, hs, i);
      && 0 <= s && s + hs[i].len <= |idb| && idb[s .. s + hs[i].len] == Members(im, hs[i])
  {
    FileHoldsStored(im, ntop, div, hs, i);
    StoredHead(im, hs[i], div);
    SliceHead(IdbFile(im, ntop, div, hs), FileStart(ntop, div, hs, i), StoredSize(hs[i], div), hs[i].len);
  }

  /** The entries of each big sublist lie in the .index file from the sublist's index start on. */
  lemma FileHoldsIndex(im: seq<IntervalMap>, ntop: int, div: int, hs: seq<SublistHeader>, i: int)
    requires div > 0 && 0 <= ntop <= |im| && AllFit(hs, |im|) && 0 <= i < |hs| && Big(hs[i], div)
    ensures var index, t, h := IndexFile(im, ntop, div, hs), IndexStart(ntop, div, hs, i), hs[i];
      && t + Blocks(h.len, div) <= |index|
      && index[t .. t + Blocks(h.len, div)] == IndexOf(Members(im, h), h.len, div)
  {
    IndexGrows(im, ntop, div, hs, i + 1, |hs|);
    SliceOfPrefix(IndexFile(im, ntop, div, hs), IndexUpTo(im, ntop, div, hs, i + 1), IndexUpTo(im, ntop, div, hs, i), SubIndex(im, hs[i], div),
                  IndexStart(ntop, div, hs, i), Blocks(hs[i].len, div));
  }

  /** read_imdiv only looks at the list's own records. */
  lemma ReadImdivPrefix(a: seq<IntervalMap>, b: seq<IntervalMap>, div: int, iDiv: int, ntop: int)
    requires div > 0 && 0 <= iDiv < Blocks(ntop, div) && ntop <= |a| && ntop <= |b| && a[..ntop] == b[..ntop]
    ensures div * iDiv < ntop
    ensures ReadImdiv(a, div, iDiv, ntop) == ReadImdiv(b, div, iDiv, ntop)
  {
    BlockSizes(div, iDiv, ntop);
    BlockStarts(ntop, div, iDiv);
    var lo, hi := div * iDiv, div * iDiv + BlockSize(div, iDiv, ntop);
    assert a[lo..hi] == a[..ntop][lo..hi];
    assert b[lo..hi] == b[..ntop][lo..hi];
  }

  /**
   * The .subhead file gives a big sublist i, once the headers are big-first,
   * the start div * t, t whole blocks into the .idb file (t being where its
   * entries begin in the .index file), and its true length.
   */
  lemma SubheadAligned(ntop: int, div: int, hs: seq<SublistHeader>, i: int)
    requires div > 0 && BigInFront(hs, div) && 0 <= i < |hs| && Big(hs[i], div)
    ensures SubheadFile(ntop, div, hs)[i] == SublistHeader(div * IndexStart(ntop, div, hs, i), hs[i].len)
  {
    SubheadEntry(ntop, div, hs, |hs|, i);
    AlignedSublists(ntop, div, hs, i);
  }

  /** Entry i of the .subhead file is sublist i's .idb start and its length. */
  lemma {:induction false} SubheadEntry(ntop: int, div: int, hs: seq<SublistHeader>, k: int, i: int)
    requires div > 0 && 0 <= i < k <= |hs|
    ensures SubheadUpTo(ntop, div, hs, k)[i] == SublistHeader(FileStart(ntop, div, hs, i), hs[i].len)
    decreases k
  {
    if i < k - 1 {
      SubheadEntry(ntop, div, hs, k - 1, i);
    }
  }

  /**
   * The block find_file_start reads for a big sublist i of the written files:
   * block iDiv + t of the .idb file, read with the list end moved by the
   * start div * t, is the sublist's own block iDiv.
   */
  lemma BigSublistBlocks(im: seq<IntervalMap>, ntop: int, div: int, hs: seq<SublistHeader>, i: int, iDiv: int)
    requires div > 0 && 0 <= ntop <= |im| && AllFit(hs, |im|) && BigInFront(hs, div)
    requires 0 <= i < |hs| && Big(hs[i], div) && 0 <= iDiv < Blocks(hs[i].len, div)
    ensures var idb, t, len := IdbFile(im, ntop, div, hs), IndexStart(ntop, div, hs, i), hs[i].len;
      && div * t + len <= |idb| && iDiv + t < Blocks(len + div * t, div)
      && div * (iDiv + t) < len + div * t
      && ReadImdiv(idb, div, iDiv + t, len + div * t) == ReadImdiv(Members(im, hs[i]), div, iDiv, len)
  {
    var t := IndexStart(ntop, div, hs, i);
    AlignedSublists(ntop, div, hs, i);
    FileHoldsSublist(im, ntop, div, hs, i);
    ReadShiftedList(IdbFile(im, ntop, div, hs), Members(im, hs[i]), hs[i].len, div, iDiv, t);
  }

  /**
   * find_file_start's arithmetic for a big sublist (lines 353-359): from a
   * start of t whole blocks it recovers offset_div == t, and its index size
   * nii is the number of blocks of the sublist.
   */
  lemma FindFileStartArith(offset: int, len: int, div: int, t: int)
    requires div > 0 && len >= 0 && offset == div * t
    ensures offset / div == t && IndexSize(len, div) == Blocks(len, div)
  {
    DivUnique(offset, div, t, 0);
    IndexSizeBlocks(len, div);
  }

  /**
   * A list stored in a file from offsetDiv whole blocks on: block iDiv + offsetDiv
   * of the file, read with the list end moved by the offset, is the list's own block iDiv.
   */
  lemma ReadShiftedList(file: seq<IntervalMap>, members: seq<IntervalMap>, len: int, div: int, iDiv: int, offsetDiv: int)
    requires div > 0 && 0 <= offsetDiv && len == |members| && 0 <= iDiv < Blocks(len, div)
    requires div * offsetDiv + len <= |file| && file[div * offsetDiv .. div * offsetDiv + len] == members
    ensures iDiv + offsetDiv < Blocks(len + div * offsetDiv, div)
    ensures div * iDiv < len && div * (iDiv + offsetDiv) < len + div * offsetDiv
    ensures ReadImdiv(file, div, iDiv + offsetDiv, len + div * offsetDiv) == ReadImdiv(members, div, iDiv, len)
  {
    var o := div * offsetDiv;
    MulMono(div, 0, offsetDiv);
    ShiftedBlock(file, div, iDiv, len, offsetDiv);
    assert file[o..][..len] == file[o .. o + len];
    ReadImdivPrefix(file[o..], members, div, iDiv, len);
  }

  // ---------------------------------------------------------------------------
  // The procedure

  /** Lines 571-576: a big sublist is written padded, a small one as it is; saved is the count written. */
  method WriteSublist(im: seq<IntervalMap>, h: SublistHeader, div: int, idb: seq<IntervalMap>)
      returns (idb': seq<IntervalMap>, saved: int)
    requires div > 0 && HeaderFits(h, |im|)
    ensures idb' == idb + Stored(im, h, div)
    ensures saved == StoredSize(h, div)
  {
    var members := im[h.start .. h.start + h.len];
    if h.len > div {
      idb', saved := WritePaddedBinary(members, h.len, div, idb);
    } else {
      idb' := idb + members;
      saved := h.len;
    }
  }

  /** Lines 566-577: the .idb file and the .subhead file. */
  method WriteData(im: seq<IntervalMap>, ntop: int, div: int, hs: seq<SublistHeader>)
      returns (idb: seq<IntervalMap>, subhead: seq<SublistHeader>)
    requires div > 0 && 0 <= ntop <= |im| && AllFit(hs, |im|)
    ensures idb == IdbFile(im, ntop, div, hs)
    ensures subhead == SubheadFile(ntop, div, hs)
  {
    var npad;
    idb, npad := WritePaddedBinary(im, ntop, div, []);
    assert idb == IdbUpTo(im, ntop, div, hs, 0) by {
      assert [] + Padded(im, ntop, div) == Padded(im, ntop, div);
    }
    subhead := [];
    var i := 0;
    while i < |hs|
      invariant 0 <= i <= |hs|
      invariant idb == IdbUpTo(im, ntop, div, hs, i)
      invariant npad == FileStart(ntop, div, hs, i)
      invariant subhead == SubheadUpTo(ntop, div, hs, i)
    {
      DataStep(im, ntop, div, hs, i);
      subhead := subhead + [SublistHeader(npad, hs[i].len)];
      var saved;
      idb, saved := WriteSublist(im, hs[i], div, idb);
      npad := npad + saved;
      i := i + 1;
    }
  }

  /** One turn of the loop of lines 566-577: sublist i is appended, and its header. */
  lemma DataStep(im: seq<IntervalMap>, ntop: int, div: int, hs: seq<SublistHeader>, i: int)
    requires div > 0 && 0 <= ntop <= |im| && AllFit(hs, |im|) && 0 <= i < |hs|
    ensures IdbUpTo(im, ntop, div, hs, i + 1) == IdbUpTo(im, ntop, div, hs, i) + Stored(im, hs[i], div)
    ensures FileStart(ntop, div, hs, i + 1) == FileStart(ntop, div, hs, i) + StoredSize(hs[i], div)
    ensures SubheadUpTo(ntop, div, hs, i + 1) == SubheadUpTo(ntop, div, hs, i) + [SublistHeader(FileStart(ntop, div, hs, i), hs[i].len)]
  {
  }

  /** Lines 587-590: the .index file, and its entry count. */
  method WriteIndex(im: seq<IntervalMap>, ntop: int, div: int, hs: seq<SublistHeader>)
      returns (index: seq<IntervalIndex>, nii: int)
    requires div > 0 && 0 <= ntop <= |im| && AllFit(hs, |im|)
    ensures index == IndexFile(im, ntop, div, hs)
    ensures nii == |index|
  {
    index, nii := WriteBinaryIndex(im, ntop, div, []);
    var i := 0;
    while i < |hs|
      invariant 0 <= i <= |hs|
      invariant index == IndexUpTo(im, ntop, div, hs, i) && nii == |index|
    {
      if hs[i].len > div {
        var nsave;
        index, nsave := WriteBinaryIndex(im[hs[i].start .. hs[i].start + hs[i].len], hs[i].len, div, index);
        nii := nii + nsave;
      } else {
        assert index + [] == index;
      }
      i := i + 1;
    }
  }

  /**
   * write_binary_files (lines 543-603) with each file as the sequence written
   * to it; sizes is the line of the .size file.  The repacked layout it
   * writes out is one the query can still rely on.
   */
  method WriteBinaryFiles(im: array<IntervalMap>, n: int, ntop: int, div: int,
                          subheader: array<SublistHeader>, nlists: int)
      returns (idb: seq<IntervalMap>, subhead: seq<SublistHeader>, index: seq<IntervalIndex>, sizes: seq<int>)
    requires div > 0 && 0 <= ntop <= n == im.Length && nlists == subheader.Length
    requires forall k :: 0 <= k < n ==> im[k].sublist < nlists
    requires AllFit(subheader[..], n)
    modifies im, subheader
    ensures subheader[..] == BigFirst(old(subheader[..]), div)
    ensures im[..] == Remapped(old(im[..]), SubMap(old(subheader[..]), div), n)
    ensures BigInFront(subheader[..], div) && AllFit(subheader[..], n)
    ensures idb == IdbFile(im[..], ntop, div, subheader[..])
    ensures subhead == SubheadFile(ntop, div, subheader[..])
    ensures index == IndexFile(im[..], ntop, div, subheader[..])
    ensures sizes == [n, ntop, div, nlists, |index|]
    ensures Invariant(old(im[..]), ntop, old(subheader[..])) ==> Invariant(im[..], ntop, subheader[..])
  {
    ghost var h, im0 := subheader[..], im[..];
    if nlists > 0 {
      RepackSubheaders(im, n, div, subheader, nlists);
    } else {
      // no sublists: line 552 skips the repacking, and no record has a sublist to renumber
      assert forall k :: 0 <= k < n ==> im[..][k].sublist < 0;
      assert im[..] == Remapped(im[..], SubMap(h, div), n);
      assert subheader[..] == BigFirst(h, div);
    }
    RepackedInFront(h, div);
    RepackedFits(h, div, n);
    if Invariant(im0, ntop, h) {
      RepackKeepsInvariant(im0, ntop, h, div);
    }
    var nii;
    idb, subhead := WriteData(im[..], ntop, div, subheader[..]);
    index, nii := WriteIndex(im[..], ntop, div, subheader[..]);
    sizes := [n, ntop, div, nlists, nii];
  }

  /** repack_subheaders leaves the big headers in front. */
  lemma RepackedInFront(h: seq<SublistHeader>, div: int)
    ensures BigInFront(BigFirst(h, div), div)
  {
    RepackIsStablePartition(h, div);
    assert BigBelow(BigFirst(h, div), div, |Part(h, div, true)|);
  }

  /** Repacked headers still name runs of the record array. */
  lemma RepackedFits(h: seq<SublistHeader>, div: int, size: int)
    requires AllFit(h, size)
    ensures AllFit(BigFirst(h, div), size)
  {
    RepackIsStablePartition(h, div);
    var r := BigFirst(h, div);
    forall k | 0 <= k < |r| ensures HeaderFits(r[k], size) {
      assert r[k] in multiset(h);
    }
  }

  /** Two runs of records with the same intervals at every position. */
  predicate SameIntervals(a: seq<IntervalMap>, b: seq<IntervalMap>) {
    |a| == |b| && forall k :: 0 <= k < |a| ==> PosStart(a[k]) == PosStart(b[k]) && PosEnd(a[k]) == PosEnd(b[k])
  }

  lemma SortedKeepsIntervals(a: seq<IntervalMap>, b: seq<IntervalMap>, lo: int, hi: int)
    requires SameIntervals(a, b) && SortedList(a, lo, hi)
    ensures SortedList(b, lo, hi)
  {
  }

  /** Repacking moves no record and changes no interval. */
  lemma RepackKeepsIntervals(im: seq<IntervalMap>, h: seq<SublistHeader>, div: int)
    requires ValidLinks(im, h)
    ensures SameIntervals(im, Remapped(im, SubMap(h, div), |im|))
  {
    var im' := Remapped(im, SubMap(h, div), |im|);
    RemapKeepsHeaders(im, h, div, |im|);
    forall k | 0 <= k < |im| ensures PosStart(im[k]) == PosStart(im'[k]) && PosEnd(im[k]) == PosEnd(im'[k]) {
      assert im'[k].(sublist := im[k].sublist) == im[k];
    }
  }

  /** A renumbered link names a header with the same block, so the links stay valid. */
  lemma RepackKeepsLinks(im: seq<IntervalMap>, h: seq<SublistHeader>, div: int)
    requires ValidLinks(im, h)
    ensures ValidLinks(Remapped(im, SubMap(h, div), |im|), BigFirst(h, div))
  {
    RemapKeepsHeaders(im, h, div, |im|);
  }

  /** Every repacked header is one of the old ones, and its block stays sorted. */
  lemma RepackKeepsSorted(im: seq<IntervalMap>, ntop: int, h: seq<SublistHeader>, div: int)
    requires Invariant(im, ntop, h)
    ensures var im', h' := Remapped(im, SubMap(h, div), |im|), BigFirst(h, div);
      forall k :: 0 <= k < |h'| ==>
        HeaderFits(h'[k], |im'|) && SortedList(im', h'[k].start, h'[k].start + h'[k].len)
  {
    var im', h' := Remapped(im, SubMap(h, div), |im|), BigFirst(h, div);
    RepackKeepsIntervals(im, h, div);
    RepackIsStablePartition(h, div);
    forall k | 0 <= k < |h'|
      ensures HeaderFits(h'[k], |im'|) && SortedList(im', h'[k].start, h'[k].start + h'[k].len)
    {
      assert h'[k] in multiset(h);
      var i :| 0 <= i < |h| && h[i] == h'[k];
      SortedKeepsIntervals(im, im', h[i].start, h[i].start + h[i].len);
    }
  }

  /** Every record's renumbered link names the same block, so it still contains its sublist. */
  lemma RepackKeepsContainment(im: seq<IntervalMap>, ntop: int, h: seq<SublistHeader>, div: int)
    requires Invariant(im, ntop, h)
    ensures var im', h' := Remapped(im, SubMap(h, div), |im|), BigFirst(h, div);
      forall x, y ::
        (0 <= x < |im'| && 0 <= im'[x].sublist < |h'| && 0 <= y < |im'| && InBlock(h'[im'[x].sublist], y))
        ==> Contains(im'[x], im'[y])
  {
    var im', h' := Remapped(im, SubMap(h, div), |im|), BigFirst(h, div);
    RemapKeepsHeaders(im, h, div, |im|);
    RepackKeepsIntervals(im, h, div);
    forall x, y | 0 <= x < |im'| && 0 <= im'[x].sublist < |h'| && 0 <= y < |im'| && InBlock(h'[im'[x].sublist], y)
      ensures Contains(im'[x], im'[y])
    {
      assert h'[im'[x].sublist] == h[im[x].sublist];
      assert Contains(im[x], im[y]);
    }
  }

  /**
   * Repacking keeps the layout one the query can rely on: each record keeps
   * its place and interval, and its renumbered link names a header with the
   * same block, so the links stay valid, every list stays sorted and every
   * record still contains its sublist.
   */
  lemma RepackKeepsInvariant(im: seq<IntervalMap>, ntop: int, h: seq<SublistHeader>, div: int)
    requires Invariant(im, ntop, h)
    ensures Invariant(Remapped(im, SubMap(h, div), |im|), ntop, BigFirst(h, div))
  {
    var im' := Remapped(im, SubMap(h, div), |im|);
    RepackKeepsIntervals(im, h, div);
    RepackKeepsLinks(im, h, div);
    SortedKeepsIntervals(im, im', 0, ntop);
    RepackKeepsSorted(im, ntop, h, div);
    RepackKeepsContainment(im, ntop, h, div);
  }
}
