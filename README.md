# NCList interval database (pygr `intervaldb.c`), modelled in Dafny

pygr stores alignments of interval maps (an interval of one sequence mapped
to an interval of a target sequence) in a **nested containment list**
(NCList). The construction is credited to Alex Alekseyenko. The records are
sorted by start, with the longer interval first on equal starts. Every record
that lies inside another goes into a sublist that belongs to its innermost
container. The array is then repacked:

- the top-level records come first;
- each container's children follow as one contiguous block, which a
  `SublistHeader {start, len}` describes;
- the record's `sublist` field names its header (or is -1).

A query `[start, end)` works as follows:

1. A binary search finds the first top-level record whose end lies past
   `start`.
2. The query walks forward while records overlap. For every hit it descends
   into the hit's sublist, again from a binary-searched start.
3. It keeps its position on an explicit iterator stack, so a caller can fetch
   the hits `nbuf` at a time and resume.

Intervals in reverse orientation are stored as `(-end, -start)`. Every
comparison uses the *positive form*. Hits are handed back in the query's
orientation.

For paged access on disk, the database is written as three files:

- `.idb`: the top-level list, then every sublist. Lists longer than `div`
  records ("big" lists) are padded to a multiple of `div`.
- `.index`: one (first start, last end) summary per `div`-sized block of the
  top level and of every big sublist.
- `.subhead`: the headers, with each header's file position.

Big sublists are first moved ahead of small ones. This gives every big sublist
a file position that is an exact multiple of `div`, and that position divided
by `div` is where the sublist's blocks sit in the index.

The model has one module per part of the C file:

| module | file | models |
|---|---|---|
| `Records` | records.dfy | `IntervalMap`, `SublistHeader`, `IntervalIndex`; the positive form; the overlap test; the reference filter |
| `Ordering` | ordering.dfy | the two `qsort` comparators and a sort that stands in for `qsort` |
| `Search` | search.dfy | `find_overlap_start`, `find_index_start`, `find_suboverlap_start` |
| `Reorient` | reorient.dfy | `reorient_intervals` |
| `Query` | query.dfy | the iterator, `find_intervals`, and its correctness on any list that meets the query's invariant |
| `Nesting`, `Subtrees` | nesting.dfy, subtrees.dfy | the parent-pointer scan of `build_nested_list` and the tree shape it gives |
| `Layout`, `LayoutFacts` | layout.dfy, layout_facts.dfy | the repacked layout as a function of the sorted records; the headers tile the sublist area |
| `Positions` | positions.dfy | records picked by a list of positions: picking a permutation of the positions picks a permutation of the records |
| `LayoutQuery` | layout_query.dfy | the built layout meets the query's invariant; a query over it is the brute-force filter |
| `Build` | build.dfy | `build_nested_list` itself, as methods over arrays that follow its phases |
| `DiskLayout` | diskfile.dfy | `write_padded_binary`, `write_binary_index`, the block arithmetic of `read_imdiv`, `find_file_start` and `read_binary_files` |
| `Repacking` | repack.dfy | `repack_subheaders` |
| `BinaryFiles` | writefiles.dfy | `write_binary_files`, over files modelled as sequences of records |

The macros of `intervaldb.h` are not part of this model. It defines them as
follows:

- The positive form of `(s, e)` is `(s, e)` when `s >= 0` and `(-e, -s)`
  otherwise. This is `PositiveStart`/`PositiveEnd`, and it agrees with the
  flip at pygr/intervaldb.c:233-236.
- `HAS_OVERLAP_POSITIVE(r, qs, qe)` holds when the positive start is below
  `qe` and the positive end is above `qs`. This is `HasOverlap`.
- The iterator stack is a sequence of `(i, n)` frames with the current frame
  last. `PUSH`/`POP` append and drop the last frame.
- `MERGE_INTERVAL_ORIENTATIONS` is taken as defined: queries are put in
  positive form; index entries store positive coordinates.

The model's central results:

- `Build.BuildNestedList` sorts the records in place. It leaves exactly the
  layout `Layout.LayoutOf` describes. That layout meets the query's invariant,
  and its preorder is the sorted input. The array holds the records it was
  given, moved, with only their `sublist` fields changed.
- `Query.FreshSearchIsFilter`: on any list that meets the invariant, a fresh
  search has pending exactly the records of the list's preorder that overlap
  the query, in that order.
- `Query.FindIntervals`: one pass returns the next `nreturn <= nbuf` of those
  hits, reoriented. It hands back an iterator only when the buffer filled, and
  that iterator has pending exactly the rest. `Query.ResumeDoesNotRestart`
  shows that resuming continues from there. So the passes together return the
  filter, each hit once.
- `LayoutQuery.BuiltSearchIsFilter`: over the built layout, the hits are the
  brute-force filter of the sorted input.
- `BinaryFiles.WriteBinaryFiles` repacks the headers and writes the three
  files. `BinaryFiles.SubheadAligned` and `BinaryFiles.BigSublistBlocks` prove
  what `find_file_start` assumes at pygr/intervaldb.c:355: a big sublist's
  stored position is `div` times its position in the index, and the block
  read there is the sublist's own block.

## Model

| member | source | states |
|---|---|---|
| Records.Filter | pygr/intervaldb.c:271 | the brute-force reference query: a record is in the result exactly when it is in the input and overlaps `[qs, qe)` by the positive-form test; the result is no longer than the input |
| Records.FilterAppend | pygr/intervaldb.c:271 | filtering distributes over concatenation |
| Records.FilterMultiset | pygr/intervaldb.c:271 | permuting the input permutes the filter's result |
| Records.StripFilter | pygr/intervaldb.c:271 | dropping the header links commutes with filtering |
| Ordering.ImCmpIsComparator | pygr/intervaldb.c:30-46 | `im_qsort_cmp` obeys the sign laws `qsort` needs: `cmp(a, b)` and `cmp(b, a)` have opposite signs (zero together), and `<= 0` is transitive |
| Ordering.ImCmpMeaning | pygr/intervaldb.c:30-46 | negative exactly when `a` starts earlier, or at the same start with a larger end; zero exactly when both positive coordinates are equal |
| Ordering.ImCmpIsKeyOrder | pygr/intervaldb.c:30-46 | `im_qsort_cmp(a, b) <= 0` exactly when `(start, -end)` of `a` is lexicographically at most that of `b` |
| Ordering.SublistCmpIsComparator | pygr/intervaldb.c:49-62 | `sublist_qsort_cmp` obeys the same sign laws (opposite signs, transitive `<= 0`) |
| Ordering.SublistCmpMeaning | pygr/intervaldb.c:49-62 | orders by parent first, then by original position; ties exactly on equal parent and position |
| Ordering.SublistCmpIsKeyOrder | pygr/intervaldb.c:49-62 | `sublist_qsort_cmp(a, b) <= 0` exactly when `(sublist, start)` of `a` is lexicographically at most that of `b` |
| Ordering.Sort | pygr/intervaldb.c:73 | the sort result is ordered by the key and is a permutation of the input |
| Ordering.SortedUnique | pygr/intervaldb.c:102 | when no two entries share a key, two sorted permutations are equal, so the unstable `qsort` at line 102 has one outcome |
| Build.SortRecords | pygr/intervaldb.c:73 | the in-place sort leaves the array ordered by the key and a permutation of what it held |
| Search.BisectFindsFirst | pygr/intervaldb.c:156-163 | on non-decreasing ends, the bisection loop ends at the first end past `qs`, or at `n - 1` when there is none |
| Search.OverlapStartMeaning | pygr/intervaldb.c:152-168 | on a sorted list: -1 exactly when no record overlaps; otherwise the result overlaps and every earlier record ends at or before `qs` |
| Search.FindOverlapStart | pygr/intervaldb.c:152-168 | the loop computes `OverlapStart`, with the meaning above on a sorted list (n = 0 gives -1) |
| Search.FindIndexStart | pygr/intervaldb.c:173-186 | 0 when `n <= 0`; on non-decreasing ends, the first entry whose end is past `qs`, clamped to `n - 1` |
| Search.SubOverlapStartMeaning | pygr/intervaldb.c:190-201 | inside one sorted sublist: -1 exactly when nothing in the block overlaps; otherwise an index in the block that overlaps, with every earlier block record ending at or before `qs` |
| Search.FindSubOverlapStart | pygr/intervaldb.c:190-201 | -1 for a negative header index; otherwise the overlap start of the block, shifted to an array index |
| Reorient.ReorientedMeaning | pygr/intervaldb.c:233-240 | a flip keeps `end - start`, `target_end - target_start`, `target_id` and `sublist`; a record already in the query's orientation is unchanged; a proper interval keeps its positive form and ends in the query's orientation |
| Reorient.ReorientIdempotent | pygr/intervaldb.c:233-240 | reorienting a proper interval twice to the same orientation is the same as once |
| Reorient.ReorientIntervals | pygr/intervaldb.c:229-242 | the first `n` records are reoriented; the rest of the buffer is unchanged |
| Query.IntervalIterator.constructor | pygr/intervaldb.c:252-253 | a fresh iterator has one frame `(0, 0)`, which means "not started" |
| Query.PendingEmit | pygr/intervaldb.c:271-281 | emitting the current hit, advancing the frame and pushing the sublist's frame (when it has an overlap start) leaves pending exactly the hits after it |
| Query.Emit | pygr/intervaldb.c:272-281 | copies the next pending hit into `buf[ibuf]`, changes no other slot, and leaves the rest pending |
| Query.Scan | pygr/intervaldb.c:271-284 | copies pending hits in order until the buffer is full or the current frame stops overlapping; what is left pending is the rest |
| Query.Collect | pygr/intervaldb.c:270-285 | the buffer receives the first pending hits, in order; when full, the stack still has a started frame and the rest pending; otherwise every pending hit was copied |
| Query.CopyHits | pygr/intervaldb.c:270-292 | as `Collect`, with each copied hit turned to the query's orientation |
| Query.StartPass | pygr/intervaldb.c:258-269 | the query in positive form with its orientation sign; an unstarted top frame is pointed at the overlap start of the top-level list |
| Query.ResumeDoesNotRestart | pygr/intervaldb.c:266-269 | a stack whose top frame has started is not re-pointed |
| Query.FindIntervals | pygr/intervaldb.c:244-298 | the buffer receives the next `nreturn <= nbuf` pending hits, reoriented; no iterator comes back unless the buffer filled; a returned iterator has pending exactly the remaining hits; the caller's iterator is reused and is left with exactly the remaining hits pending (none once the pass ran out) |
| Query.PreSplit | pygr/intervaldb.c:270-285 | the preorder of a list splits at any position |
| Query.FreshSearchIsFilter | pygr/intervaldb.c:244-298 | on a list meeting the invariant, a fresh search has pending exactly the overlapping records of the preorder, in preorder |
| Nesting.ParentsNested | pygr/intervaldb.c:74-87 | the parent scan makes every parent come earlier and contain its child; between a parent and its child every record descends from the parent; siblings have strictly increasing ends |
| Nesting.ParentsUpToPrefix | pygr/intervaldb.c:74-87 | the scan of a prefix computes the prefix of the parents |
| Nesting.FirstChildFollows | pygr/intervaldb.c:74-87 | a record with a child has the next record as its first child |
| Subtrees.KidsChain | pygr/intervaldb.c:74-87 | the children of a parent follow one another: first the record after it, then each at the end of the previous child's subtree; the last subtree ends where the parent's does |
| Build.ScanParents | pygr/intervaldb.c:74-87 | leaves every record's `sublist` at its parent from `Parents`; `nsub` is the number of contained records |
| Build.NumberParents | pygr/intervaldb.c:89-101 | `imsub` holds one (position, parent) entry per contained record, in order; parents get header numbers in order of position; all other links are reset to -1 |
| LayoutFacts.SubUnique | pygr/intervaldb.c:102 | any order of the entries sorted by `sublist_qsort_cmp` is the one `Sub` order |
| LayoutFacts.FoldAll | pygr/intervaldb.c:104-115 | the headers the fill loop builds lie end to end over the sublist area, each non-empty; every entry lies in its own parent's block |
| LayoutFacts.Block | pygr/intervaldb.c:104-115 | the header of parent `q` names a block that holds exactly `q`'s children, in order |
| LayoutFacts.TopPlusSub | pygr/intervaldb.c:117-128 | the top-level count plus the contained count is `n`, so `*p_n` is `n` minus the contained records |
| Build.FillSublists | pygr/intervaldb.c:104-115 | copies the contained records into `imsub` in sublist order, builds the headers, and marks the copied records for deletion |
| Build.Compact | pygr/intervaldb.c:117-122 | moves the unmarked (top-level) records to the front, in order |
| Build.CopyBlocks | pygr/intervaldb.c:124 | appends the sublist blocks after the top level |
| Build.ShiftHeaders | pygr/intervaldb.c:125-126 | every header start is shifted by the top-level count |
| Build.Repack | pygr/intervaldb.c:88-131 | the arrays end up as `LayoutOf` the sorted records |
| Build.BuildNestedList | pygr/intervaldb.c:66-138 | the records are sorted (a permutation of the input) and end up as the layout `LayoutOf` describes; that layout meets the query's invariant and its preorder, links stripped, is the sorted input; with links stripped the final array is a permutation of the input, so only `sublist` fields change |
| LayoutQuery.OrderPermutes | pygr/intervaldb.c:103-127 | the positions the compacted top-level records and the sorted sublist entries are copied from list every record exactly once |
| LayoutQuery.LayoutPermutes | pygr/intervaldb.c:103-127 | with links stripped, the built array is a permutation of the unlinked input |
| LayoutQuery.LayoutInvariant | pygr/intervaldb.c:89-131 | the layout of sorted, unlinked records has sorted lists, every record containing its sublist's records, valid links, and a preorder equal to the input |
| LayoutQuery.BuiltSearchIsFilter | pygr/intervaldb.c:244-298 | over a built layout a fresh search yields the brute-force filter of the sorted records |
| DiskLayout.PaddedSizeLeast | pygr/intervaldb.c:464-470 | the number of records saved is a multiple of `div`, at least `n` and below `n + div` |
| DiskLayout.PaddedSizeFormula | pygr/intervaldb.c:464-470 | the number saved is `n` when `div` divides `n`, else `n + (div - n % div)` |
| DiskLayout.PaddedBlocks | pygr/intervaldb.c:464-470 | the padded size is `div` times the number of blocks |
| DiskLayout.WritePaddedBinary | pygr/intervaldb.c:460-471 | appends the records, then copies of the first record up to the padded size, and returns that size |
| DiskLayout.BlocksFormula | pygr/intervaldb.c:655-657 | the block count is `n / div` plus one for a partial block |
| DiskLayout.IndexSizeBlocks | pygr/intervaldb.c:655-657 | the index size computed when reading the files is the block count |
| DiskLayout.WriteBinaryIndex | pygr/intervaldb.c:509-539 | appends one entry per block and returns their number, `ceil(n / div)` |
| DiskLayout.EntryIs | pygr/intervaldb.c:512-536 | entry `b` holds the positive start of record `b * div` and the positive end of record `min(b * div + div - 1, n - 1)` |
| DiskLayout.IndexSummarises | pygr/intervaldb.c:509-539 | on a sorted list, every record of block `b` lies within the start and end in entry `b` |
| DiskLayout.IndexOrdered | pygr/intervaldb.c:509-539 | on a sorted list the entries' ends are non-decreasing, as `find_index_start` requires |
| DiskLayout.ReadImdiv | pygr/intervaldb.c:311-324 | for any block starting inside the list or at its end: the records from `div * i_div` to the next block boundary or to `ntop`, whichever comes first, at most `div` of them; never empty inside the list; empty when the block starts at `ntop` |
| DiskLayout.BlockBounds | pygr/intervaldb.c:316-319 | the count `div` or `ntop % div` ends the block at the next boundary or at `ntop`, whichever comes first; it is 0 exactly when the block starts at `ntop`, and positive for every block of the list |
| DiskLayout.EmptyListRead | pygr/intervaldb.c:316-319 | an empty list has no index entries, and its block 0, the one `find_file_start` reads for it, is empty |
| DiskLayout.BlockSizes | pygr/intervaldb.c:316-319 | each block holds between 1 and `div` records and ends at `div * i_div + div` or at `ntop`, whichever comes first; every block but the last holds `div` |
| DiskLayout.BlockMatchesIndex | pygr/intervaldb.c:311-324 | the block read is the block the index entry summarises |
| DiskLayout.ShiftedBlock | pygr/intervaldb.c:355-368 | reading block `i_div + offset_div` of a list at offset `div * offset_div` reads block `i_div` of the list |
| Repacking.RepackIsStablePartition | pygr/intervaldb.c:474-506 | the new headers are the big headers, then the small ones, each group in the old order; the map is a permutation that sends each header to its new place |
| Repacking.NewIndexOrder | pygr/intervaldb.c:482-495 | headers of the same kind keep their relative order; every big header goes before every small one |
| Repacking.RemapKeepsHeaders | pygr/intervaldb.c:496-498 | after the remap every record's header index names a header with the same `(start, len)` |
| Repacking.PackBig | pygr/intervaldb.c:482-488 | the first loop emits the big headers in order and maps each to its new place |
| Repacking.PackSmall | pygr/intervaldb.c:489-495 | the second loop completes this with the small headers |
| Repacking.RemapSublists | pygr/intervaldb.c:496-498 | every link of the first `n` records goes through the map |
| Repacking.RepackSubheaders | pygr/intervaldb.c:474-506 | the headers become the stable big-first partition; the links are remapped to match |
| BinaryFiles.WriteSublist | pygr/intervaldb.c:571-576 | a big list is written padded, a small one as is; the count of records saved is added |
| BinaryFiles.WriteData | pygr/intervaldb.c:566-577 | the `.idb` file is the padded top level followed by every stored sublist; each file header records the list's file position and true length |
| BinaryFiles.WriteIndex | pygr/intervaldb.c:587-590 | the `.index` file is the top level's index followed by the index of every big sublist; `nii` is its length |
| BinaryFiles.WriteBinaryFiles | pygr/intervaldb.c:543-603 | repacks (when there are headers), then writes the three files as above; the size line is `n, ntop, div, nlists, nii`; a layout that met the query's invariant still meets it after the repacking |
| BinaryFiles.RepackKeepsInvariant | pygr/intervaldb.c:474-506 | repacking keeps the query's invariant: links stay valid, every list stays sorted, every record still contains its sublist |
| BinaryFiles.RepackedInFront | pygr/intervaldb.c:552-553 | after repacking, every big header comes before every small one |
| BinaryFiles.AlignedSublists | pygr/intervaldb.c:566-590 | with big headers in front, each big sublist's file position is `div` times the number of index entries written before its own |
| BinaryFiles.SubheadAligned | pygr/intervaldb.c:568-569 | the file header of a big sublist has start `div * t`, with `t` its index position, and its true length |
| BinaryFiles.FileHoldsSublist | pygr/intervaldb.c:571-576 | the `.idb` file holds the sublist's records at its file position |
| BinaryFiles.FileHoldsIndex | pygr/intervaldb.c:587-590 | the `.index` file holds the big sublist's index at its index position |
| BinaryFiles.FindFileStartArith | pygr/intervaldb.c:355-359 | with offset `div * t`, `offset / div` is `t` and the computed index size is the sublist's block count |
| BinaryFiles.BigSublistBlocks | pygr/intervaldb.c:353-368 | the block `find_file_start` reads for a big sublist, at `i_div + offset_div` with end `len + offset`, is the sublist's own block `i_div` |

## Left out

- File I/O is modelled as appending to and slicing from sequences of records. No file-open failures, `fseek`/`fread`/`fwrite` or error-message returns are modelled.
- The text parsing of `read_intervals` (lines 4-22) is left out. Its records enter the model with `sublist == -1`, which `build_nested_list` requires (`Unlinked`).
- Memory management is left out: the `CALLOC`/`FREE` failure paths, `repack_subheaders`' `-1` return, and the iterator free/reset functions.
- When no record is contained in another, the C code returns a NULL header array. The model returns an empty one.
- `qsort` is modelled as an insertion sort specified by order and permutation. For line 102, `SortedUnique` shows that any sort gives the same result.
- C `int` is modelled as unbounded integers. Overflow, and negating `INT_MIN`, are not modelled.
- Input records must not be literally `(-1, -1)`, because lines 114-118 use that value as a deletion mark (`NoneErased`).
- Query.FindIntervals: requires `nbuf >= 1`, a buffer of that size, and links that point forward to headers inside the array (`ValidLinks`). The C code copies one hit before checking for a full buffer, and it relies on the same links to terminate. Built layouts have such links (`LayoutQuery.LayoutInvariant`), and repacking keeps them (`BinaryFiles.RepackKeepsInvariant`).
- Query.FindIntervals: the iterator comes back as one object whose stack is a sequence. The C linked list of stack frames is not modelled.
- The guarantee that all passes together return the filter follows from `FindIntervals` and `FreshSearchIsFilter`. It is not stated as a single lemma over a sequence of passes.
- `find_file_start` and `find_file_intervals` (lines 344-451) are modelled only through their block arithmetic (`FindFileStartArith`, `ShiftedBlock`, `BigSublistBlocks`). The paged search loop itself is not modelled.
- The allocation test at line 364 is not modelled. It reads as though `||` was meant, but it only concerns a buffer's allocation.
- `read_sublist` (lines 328-340) is file reading alone and is not modelled.
- Of `read_binary_files` (lines 607-672), only its index-size formula is modelled.
- DiskLayout.IndexSummarises: assumes non-negative positive starts, which every stored interval has.
- The `target_id`, `target_start` and `target_end` fields are an opaque payload. Only reorientation touches them.
- `setup.py` and the Python tests are not part of this model.
