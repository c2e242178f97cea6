/**
 * The arithmetic of the on-disk database that write_binary_files lays out and
 * the file query reads back: the .idb file of records, the .subhead file of
 * sublist headers and the .index file of block summaries.  Each file is the
 * sequence of entries written to it, in order.
 */
module DiskLayout {
  import opened Records
  import opened Search

  /** How many blocks of div records it takes to hold n records. */
  function Blocks(n: int, div: int): (r: nat)
    requires div > 0
    decreases n
  {
    if n <= 0 then 0 else 1 + Blocks(n - div, div)
  }

  /** n rounded up to whole blocks of div records: the count write_padded_binary returns. */
  function PaddedSize(n: int, div: int): (r: int)
    requires div > 0
    ensures 0 <= r && n <= r
    decreases n
  {
    if n <= 0 then 0 else div + PaddedSize(n - div, div)
  }

  /** Quotient and remainder are unique: x == div * q + r with 0 <= r < div fixes both. */
  lemma DivUnique(x: int, div: int, q: int, r: int)
    requires div > 0 && 0 <= r < div && x == div * q + r
    ensures x / div == q && x % div == r
  {
    var p := x / div;
    MulGap(div, p, q);
    MulGap(div, q, p);
  }

  lemma MulGap(d: int, p: int, q: int)
    ensures d > 0 && p < q ==> d * p + d <= d * q
  {
    if d > 0 && p < q {
      MulAtLeast(d, q - p);
      assert d * q == d * p + d * (q - p);
    }
  }

  lemma MulAtLeast(d: int, t: int)
    ensures d > 0 && t > 0 ==> d * t >= d
  {
  }

  /** Adding div * k does not change the remainder. */
  lemma ModShift(x: int, div: int, k: int)
    requires div > 0
    ensures (x + div * k) % div == x % div && (x + div * k) / div == x / div + k
  {
    assert x + div * k == div * (x / div + k) + x % div;
    DivUnique(x + div * k, div, x / div + k, x % div);
  }

  /** The padded size is div times the number of blocks. */
  lemma {:induction false} PaddedBlocks(n: int, div: int)
    requires div > 0
    ensures PaddedSize(n, div) == div * Blocks(n, div)
    decreases n
  {
    if n > 0 {
      PaddedBlocks(n - div, div);
      assert div * Blocks(n, div) == div + div * Blocks(n - div, div);
    }
  }

  /** The number of blocks is the quotient, plus one for a partial block. */
  lemma {:induction false} BlocksFormula(n: int, div: int)
    requires div > 0 && n >= 0
    ensures Blocks(n, div) == n / div + (if n % div == 0 then 0 else 1)
    decreases n
  {
    if n == 0 {
      DivUnique(0, div, 0, 0);
    } else if n < div {
      DivUnique(n, div, 0, n);
    } else if n == div {
      DivUnique(n, div, 1, 0);
    } else {
      BlocksFormula(n - div, div);
      ModShift(n - div, div, 1);
    }
  }

  /** write_padded_binary's own formula (lines 464-470): n, plus div - n % div when n is not a multiple of div. */
  lemma PaddedSizeFormula(n: int, div: int)
    requires div > 0 && n >= 0
    ensures PaddedSize(n, div) == if n % div == 0 then n else n + (div - n % div)
  {
    PaddedBlocks(n, div);
    BlocksFormula(n, div);
    var q := n / div;
    assert div * (q + 1) == div * q + div;
  }

  /** The padded size is a multiple of div, holds the n records, and is short of n + div. */
  lemma PaddedSizeLeast(n: int, div: int)
    requires div > 0 && n >= 0
    ensures var r := PaddedSize(n, div); r % div == 0 && n <= r < n + div
  {
    PaddedBlocks(n, div);
    DivUnique(PaddedSize(n, div), div, Blocks(n, div), 0);
    PaddedSizeBelow(n, div);
  }

  lemma {:induction false} PaddedSizeBelow(n: int, div: int)
    requires div > 0
    ensures PaddedSize(n, div) < n + div || n < 0
    decreases n
  {
    if n > 0 {
      PaddedSizeBelow(n - div, div);
    }
  }

  /** k copies of the record r. */
  function Copies(r: IntervalMap, k: nat): (c: seq<IntervalMap>)
    ensures |c| == k && forall j :: 0 <= j < k ==> c[j] == r
  {
    seq(k, _ => r)
  }

  /**
   * The records write_padded_binary appends: im[0..n), then copies of im[0]
   * up to the padded size (an empty list needs no padding, so there is
   * always a first record to copy).
   */
  function Padded(im: seq<IntervalMap>, n: int, div: int): (r: seq<IntervalMap>)
    requires div > 0 && 0 <= n <= |im|
    ensures |r| == PaddedSize(n, div) && r[..n] == im[..n]
    ensures forall j :: n <= j < |r| ==> r[j] == im[0]
  {
    if n == 0 then [] else im[..n] + Copies(im[0], PaddedSize(n, div) - n)
  }

  /** write_padded_binary (lines 460-471): append the padded list to the file, and count it. */
  method WritePaddedBinary(im: seq<IntervalMap>, n: int, div: int, file: seq<IntervalMap>)
      returns (file': seq<IntervalMap>, saved: int)
    requires div > 0 && 0 <= n <= |im|
    ensures file' == file + Padded(im, n, div)
    ensures saved == PaddedSize(n, div) == |file'| - |file|
  {
    file' := file + im[..n];
    var npad := n % div;
    if npad != 0 {
      npad := div - npad;
      var i := 0;
      while i < npad
        invariant 0 <= i <= npad
        invariant file' == file + im[..n] + Copies(im[0], i)
      {
        assert Copies(im[0], i + 1) == Copies(im[0], i) + [im[0]];
        file' := file' + [im[0]];
        i := i + 1;
      }
    }
    saved := n + npad;
    PaddedSizeFormula(n, div);
  }

  /** The index entry of the block from position i: its first start and its last end, in positive form. */
  function Summary(im: seq<IntervalMap>, n: int, div: int, i: int): IntervalIndex
    requires div > 0 && 0 <= i < n <= |im|
  {
    var j := if i + div - 1 >= n then n - 1 else i + div - 1;
    IntervalIndex(PosStart(im[i]), PosEnd(im[j]))
  }

  /** The index entries of the blocks from position i on, as the loop of write_binary_index emits them. */
  function IndexFrom(im: seq<IntervalMap>, n: int, div: int, i: int): seq<IntervalIndex>
    requires div > 0 && 0 <= i && n <= |im|
    decreases n - i
  {
    if i >= n then [] else [Summary(im, n, div, i)] + IndexFrom(im, n, div, i + div)
  }

  /** The index of the list im[0..n). */
  function IndexOf(im: seq<IntervalMap>, n: int, div: int): (r: seq<IntervalIndex>)
    requires div > 0 && 0 <= n <= |im|
    ensures |r| == Blocks(n, div)
  {
    IndexFromShape(im, n, div, 0);
    IndexFrom(im, n, div, 0)
  }

  /** Block b of the index summarises the records b * div, ..., up to the end of the list. */
  lemma {:induction false} IndexFromShape(im: seq<IntervalMap>, n: int, div: int, i: int)
    requires div > 0 && 0 <= i && n <= |im|
    ensures var r := IndexFrom(im, n, div, i);
      && |r| == Blocks(n - i, div)
      && forall b :: 0 <= b < |r| ==> i + b * div < n && r[b] == Summary(im, n, div, i + b * div)
    decreases n - i
  {
    if i < n {
      IndexFromShape(im, n, div, i + div);
      var r := IndexFrom(im, n, div, i);
      var rest := IndexFrom(im, n, div, i + div);
      forall b | 0 <= b < |r| ensures i + b * div < n && r[b] == Summary(im, n, div, i + b * div) {
        if b > 0 {
          assert r[b] == rest[b - 1];
          assert i + div + (b - 1) * div == i + b * div;
        }
      }
    }
  }

  /**
   * write_binary_index (lines 509-539): append one entry per block of div
   * records, and count them.
   */
  method WriteBinaryIndex(im: seq<IntervalMap>, n: int, div: int, file: seq<IntervalIndex>)
      returns (file': seq<IntervalIndex>, nsave: int)
    requires div > 0 && 0 <= n <= |im|
    ensures file' == file + IndexOf(im, n, div)
    ensures nsave == |file'| - |file| == Blocks(n, div)
  {
    file' := file;
    nsave := 0;
    var i := 0;
    while i < n
      invariant 0 <= i
      invariant file' + IndexFrom(im, n, div, i) == file + IndexOf(im, n, div)
      invariant |file'| == |file| + nsave && nsave + Blocks(n - i, div) == Blocks(n, div)
      decreases n - i
    {
      var j := i + div - 1;
      if j >= n {
        j := n - 1;
      }
      file' := file' + [IntervalIndex(PosStart(im[i]), PosEnd(im[j]))];
      nsave := nsave + 1;
      i := i + div;
    }
    IndexFromShape(im, n, div, i);
  }

  /**
   * On a sorted list with non-negative positive starts, index entry b bounds
   * its block (no record of the block starts before the entry's start or ends
   * after its end), and the entry ends never decrease: the index is a list
   * find_index_start can search.
   */
  lemma IndexSummarises(im: seq<IntervalMap>, n: int, div: int)
    requires div > 0 && 0 <= n <= |im| && SortedList(im, 0, n)
    requires forall k :: 0 <= k < n ==> PosStart(im[k]) >= 0
    ensures var r := IndexOf(im, n, div);
      && |r| == Blocks(n, div)
      && (forall b, k :: 0 <= b < |r| && b * div <= k < n && k < b * div + div ==>
            r[b].start <= PosStart(im[k]) && PosEnd(im[k]) <= IndexEnd(r[b]))
      && NonDecreasing(IndexEnds(r), |r|)
  {
    IndexBounds(im, n, div);
    IndexOrdered(im, n, div);
  }

  lemma IndexBounds(im: seq<IntervalMap>, n: int, div: int)
    requires div > 0 && 0 <= n <= |im| && SortedList(im, 0, n)
    requires forall k :: 0 <= k < n ==> PosStart(im[k]) >= 0
    ensures var r := IndexOf(im, n, div);
      forall b, k :: 0 <= b < |r| && b * div <= k < n && k < b * div + div ==>
        r[b].start <= PosStart(im[k]) && PosEnd(im[k]) <= IndexEnd(r[b])
  {
    var r := IndexOf(im, n, div);
    forall b, k | 0 <= b < |r| && b * div <= k < n && k < b * div + div
      ensures r[b].start <= PosStart(im[k]) && PosEnd(im[k]) <= IndexEnd(r[b])
    {
      EntryIs(im, n, div, b);
      SummaryBounds(im, n, div, b * div, k);
    }
  }

  lemma IndexOrdered(im: seq<IntervalMap>, n: int, div: int)
    requires div > 0 && 0 <= n <= |im| && SortedList(im, 0, n)
    requires forall k :: 0 <= k < n ==> PosStart(im[k]) >= 0
    ensures var r := IndexOf(im, n, div); NonDecreasing(IndexEnds(r), |r|)
  {
    var r := IndexOf(im, n, div);
    forall b, c | 0 <= b <= c < |r| ensures IndexEnds(r)[b] <= IndexEnds(r)[c] {
      EntryIs(im, n, div, b);
      EntryIs(im, n, div, c);
      MulMono(div, b, c);
      SummaryOrdered(im, n, div, b * div, c * div);
    }
  }

  /** Entry b of the index is the summary of the block from b * div. */
  lemma EntryIs(im: seq<IntervalMap>, n: int, div: int, b: int)
    requires div > 0 && 0 <= n <= |im| && 0 <= b < Blocks(n, div)
    ensures b * div < n && IndexOf(im, n, div)[b] == Summary(im, n, div, b * div)
  {
    IndexFromShape(im, n, div, 0);
  }

  /** A block's entry bounds each record of the block. */
  lemma SummaryBounds(im: seq<IntervalMap>, n: int, div: int, i: int, k: int)
    requires div > 0 && n <= |im| && SortedList(im, 0, n)
    requires 0 <= i <= k < n && k < i + div && PosStart(im[i]) >= 0
    ensures var e := Summary(im, n, div, i);
      e.start <= PosStart(im[k]) && PosEnd(im[k]) <= IndexEnd(e)
  {
  }

  /** Entries of later blocks end no earlier. */
  lemma SummaryOrdered(im: seq<IntervalMap>, n: int, div: int, i: int, j: int)
    requires div > 0 && n <= |im| && SortedList(im, 0, n)
    requires 0 <= i <= j < n && PosStart(im[i]) >= 0 && PosStart(im[j]) >= 0
    ensures IndexEnd(Summary(im, n, div, i)) <= IndexEnd(Summary(im, n, div, j))
  {
  }

  /** The last record of the block that starts at i. */
  function LastOf(n: int, div: int, i: int): int {
    if i + div - 1 >= n then n - 1 else i + div - 1
  }

  lemma MulMono(d: int, p: int, q: int)
    ensures d > 0 && p <= q ==> d * p <= d * q
  {
    MulGap(d, p, q);
  }

  /**
   * The index size the reader computes from a list length (lines 357-359 for
   * a big sublist, lines 655-657 for the top level): ntop / div, plus one for
   * a partial block.
   */
  function IndexSize(len: int, div: int): int
    requires div > 0
  {
    if len % div != 0 then len / div + 1 else len / div
  }

  /** The reader's index size is the number of entries write_binary_index wrote. */
  lemma IndexSizeBlocks(len: int, div: int)
    requires len >= 0 && div > 0
    ensures IndexSize(len, div) == Blocks(len, div)
  {
    BlocksFormula(len, div);
  }

  /** read_imdiv's count (lines 311-324): a whole block of div records, or the ntop % div left at the end. */
  function BlockSize(div: int, iDiv: int, ntop: int): int
    requires div > 0
  {
    if div * iDiv + div <= ntop then div else ntop % div
  }

  /**
   * Every block of a list of ntop records holds div records but the last,
   * which holds the rest; it is never empty, and the last one ends the list.
   */
  lemma BlockSizes(div: int, iDiv: int, ntop: int)
    requires div > 0 && 0 <= iDiv < Blocks(ntop, div)
    ensures var block := BlockSize(div, iDiv, ntop);
      && 0 < block <= div
      && div * iDiv + block == (if div * iDiv + div <= ntop then div * iDiv + div else ntop)
      && (iDiv < Blocks(ntop, div) - 1 ==> block == div)
  {
    BlockStarts(ntop, div, iDiv);
    if div * iDiv + div > ntop {
      DivUnique(ntop, div, iDiv, ntop - div * iDiv);
    }
    if iDiv < Blocks(ntop, div) - 1 {
      BlockStarts(ntop, div, iDiv + 1);
      assert div * (iDiv + 1) == div * iDiv + div;
    }
  }

  /** Block b of n records starts inside the list. */
  lemma {:induction false} BlockStarts(n: int, div: int, b: int)
    requires div > 0 && 0 <= b < Blocks(n, div)
    ensures div * b < n
    decreases b
  {
    if b > 0 {
      BlockStarts(n - div, div, b - 1);
      assert div * b == div * (b - 1) + div;
    }
  }

  /**
   * A block that starts inside the list or at its end runs to the next block
   * boundary or to the end of the list, whichever comes first: the
   * remainder ntop % div is what is left from the block's start.  It is
   * empty exactly when it starts at the end of the list.
   */
  lemma BlockBounds(div: int, iDiv: int, ntop: int)
    requires div > 0 && 0 <= iDiv && div * iDiv <= ntop
    ensures var block := BlockSize(div, iDiv, ntop);
      && 0 <= block <= div
      && div * iDiv + block == (if div * iDiv + div <= ntop then div * iDiv + div else ntop)
      && (block == 0 <==> div * iDiv == ntop)
      && (iDiv < Blocks(ntop, div) ==> 0 < block)
  {
    if iDiv < Blocks(ntop, div) {
      BlockStarts(ntop, div, iDiv);
    }
    if div * iDiv + div > ntop {
      DivUnique(ntop, div, iDiv, ntop - div * iDiv);
    }
  }

  /**
   * read_imdiv's result: the records of block iDiv of the list that ends at
   * ntop in the file, from the block's start to the next block boundary or
   * the list's end.  A block inside the list is never empty; one that starts
   * at the list's end (block 0 of an empty list) holds nothing.
   */
  function ReadImdiv(file: seq<IntervalMap>, div: int, iDiv: int, ntop: int): (block: seq<IntervalMap>)
    requires div > 0 && 0 <= iDiv && div * iDiv <= ntop <= |file|
    ensures |block| == BlockSize(div, iDiv, ntop) && |block| <= div
    ensures div * iDiv + |block| == (if div * iDiv + div <= ntop then div * iDiv + div else ntop)
    ensures block == file[div * iDiv .. div * iDiv + |block|]
    ensures iDiv < Blocks(ntop, div) ==> 0 < |block|
    ensures div * iDiv == ntop ==> block == []
  {
    BlockBounds(div, iDiv, ntop);
    file[div * iDiv .. div * iDiv + BlockSize(div, iDiv, ntop)]
  }

  /** An empty list is read as one empty block, the block find_file_start asks for. */
  lemma EmptyListRead(file: seq<IntervalMap>, div: int)
    requires div > 0
    ensures Blocks(0, div) == 0 && ReadImdiv(file, div, 0, 0) == []
  {
  }

  /**
   * The block read_imdiv returns is the one index entry iDiv summarises: its
   * first record gives the entry's start, its last record the entry's end.
   */
  lemma BlockMatchesIndex(im: seq<IntervalMap>, n: int, div: int, iDiv: int)
    requires div > 0 && 0 <= n <= |im| && 0 <= iDiv < Blocks(n, div)
    ensures div * iDiv < n
    ensures var block := ReadImdiv(im, div, iDiv, n);
      && 0 < |block| <= div
      && IndexOf(im, n, div)[iDiv] == IntervalIndex(PosStart(block[0]), PosEnd(block[|block| - 1]))
  {
    BlockSizes(div, iDiv, n);
    BlockStarts(n, div, iDiv);
    EntryIs(im, n, div, iDiv);
    assert iDiv * div == div * iDiv;
  }

  /** A list that starts offsetDiv whole blocks into the file has offsetDiv more blocks counted from the file's start. */
  lemma {:induction false} BlocksShift(n: int, div: int, k: int)
    requires div > 0 && n > 0 && k >= 0
    ensures Blocks(n + div * k, div) == Blocks(n, div) + k
    decreases k
  {
    if k > 0 {
      BlocksShift(n, div, k - 1);
      assert n + div * k - div == n + div * (k - 1);
    }
  }

  /**
   * A list stored from an offset that is a multiple of div (offsetDiv blocks
   * in): reading its block iDiv as block iDiv + offsetDiv of the file, with
   * the list end moved by the offset (lines 355 and 368), reads the list's
   * own block iDiv.
   */
  lemma ShiftedBlock(file: seq<IntervalMap>, div: int, iDiv: int, ntop: int, offsetDiv: int)
    requires div > 0 && 0 <= offsetDiv && 0 <= iDiv < Blocks(ntop, div)
    requires div * offsetDiv + ntop <= |file|
    ensures Blocks(ntop + div * offsetDiv, div) == Blocks(ntop, div) + offsetDiv
    ensures div * iDiv < ntop && div * (iDiv + offsetDiv) == div * iDiv + div * offsetDiv
    ensures ReadImdiv(file, div, iDiv + offsetDiv, ntop + div * offsetDiv)
         == ReadImdiv(file[div * offsetDiv..], div, iDiv, ntop)
  {
    BlocksShift(ntop, div, offsetDiv);
    BlockStarts(ntop, div, iDiv);
    BlockShiftSize(div, iDiv, ntop, offsetDiv);
    BlockSizes(div, iDiv, ntop);
    MulMono(div, 0, offsetDiv);
    MulMono(div, 0, iDiv);
    var o, p := div * offsetDiv, div * iDiv;
    assert div * (iDiv + offsetDiv) == o + p;
    SliceShift(file, o, p, BlockSize(div, iDiv, ntop));
  }

  lemma SliceShift(file: seq<IntervalMap>, o: int, p: int, m: int)
    requires 0 <= o && 0 <= p && 0 <= m && o + p + m <= |file|
    ensures file[o..][p..p + m] == file[o + p..o + p + m]
  {
  }

  lemma BlockShiftSize(div: int, iDiv: int, ntop: int, offsetDiv: int)
    requires div > 0
    ensures BlockSize(div, iDiv + offsetDiv, ntop + div * offsetDiv) == BlockSize(div, iDiv, ntop)
  {
    assert div * (iDiv + offsetDiv) == div * iDiv + div * offsetDiv;
    ModShift(ntop, div, offsetDiv);
  }
}
