# Verified models of the H.264 codec core

Dafny models of six parts of the codec library, with proofs of what they are for.

* **Decoded picture buffer** (`common/ih264_dpb_mgr.c`): classes with the fields of
  the C structures; two lists threaded through one array of 64 nodes, sorted by
  exchanging pictures between nodes, relinked to alternate field parities, cut and
  trimmed. The methods are proved against functions on the sequence of fields a list
  shows, and theorems about those functions give the orderings and marking rules of
  sections 8.2.4 and 8.2.5 of H.264. The shape of the lists is kept over every run.
* **Luma interpolation** (`common/ih264_inter_pred_filters.c`): loops over flat
  buffers with strides and 16-bit scratch sums, proved against pictures, which give a
  value at every row and column. Each fused kernel is proved equal to the simple
  kernels followed by averaging.
* **Deblocking** (`common/ih264_deblk_edge_filters.c`): in-place line filters inside
  edge loops, proved against filters of one line of eight samples; functions that
  repeat one another are proved to compute the same planes.
* **Buffer pool** and **display queue** (`common/ih264_buf_mgr.c`,
  `common/ih264_disp_mgr.c`): each method is one atomic step; theorems are about
  every sequence of steps.
* **Run coding** (`common/ih264_cavlc_tables.c`): the encoder's tables and its
  writing of total_zeros and run_before, the decoder's tables and its reading, and
  the round trip between the two.

Samples are integers in 0..255; narrow C types (8, 16 and 32 bits) are subset types,
so that every store is proved not to lose bits. A shift right by n is division by 2^n
rounding down, which is Dafny's division by a positive number. A pointer into a plane
is an array and an index.

What does not hold as the code stands is stated with a failing input and the exact
condition under which it holds:

* deleting long-term fields above a maximum index steps over a field after each
  unlinking (line 1016), so fields above the maximum can survive
  (`Marking.TrimComplete`, `Marking.TrimLeavesOne`); in the ascending order the
  long-term sort produces this happens as soon as two fields are above the maximum
  and one is not (`Marking.TrimAscending`);
* the frame count compares frame_num on the long-term list as well, so neighbouring
  long-term frames that share a frame_num count once, a frame whose fields differ in
  frame_num counts twice, and when an index has two fields of one parity a second
  count of the same list can differ (`LongTermCount.LongCountExact`,
  `LongTermCount.PairedCountExact`, `LongTermCount.LongCountMisses`,
  `LongTermCount.LongCountExceeds`, `LongTermCount.LongCountUnstable`);
* inserting a frame is not atomic (`DpbManager.DpbMgr.InsertRefFrame`,
  `DpbInserts.InsertFrameIntoLastNode`, `DpbInserts.InsertFrameAfterBottom`);
* one picture can be on both lists, and twice on one (`DpbInserts.InsertThreeTimes`);
  pictures stay distinct iff none is inserted that a node holds already
  (`DpbInserts.InsertDistinct`);
* the decoder's map of a block without DC loses the highest of two or more
  coefficients, without an error, when the bits give it one zero too many
  (`RunCoding.MapExact`, `RunCoding.HighestLost`);
* the normal deblocking filter is not symmetric (`Deblocking.NormalMirrorExact`,
  `Deblocking.NormalLopsided`);
* a display buffer added with the sentinel POC blocks its slot for ever, and one added
  with a NULL pointer can be replaced before it is returned
  (`DisplayManager.StuckExact`, `DisplayManager.StuckForRun`,
  `DisplayManager.AddLosesExact`);
* adding a buffer to the pool again inflates the count of active buffers
  (`BufferManager.AddingAgainInflates`).

## Files

| file | contents |
|---|---|
| Pictures, FieldOrder, ExchangeSort, Pairing, Alternation, Marking, Counting, Orderings, LongTermCount | sequences of fields: orders, passes, deletions, counts |
| DpbLists, DpbDeletion, DpbMgr | the linked lists and the manager |
| DpbInserts, DpbRuns, DpbTraces | what insertions leave; several calls; any run as a run of a machine on two sequences |
| Pixels, Interpolation, InterpKernels, InterpCross, InterpFusion | interpolation |
| InterpQuarters | the interpolated samples in numbers: positions, rounding, smooth pictures, mirroring |
| Deblocking, DeblockEdges, DeblockEquivalences | deblocking |
| DeblockWeights | the filtered samples in numbers: weights, steps, pulls; which line gets which filter |
| BufMgr, DispMgr | buffer pool, display queue |
| BitWords, CavlcTables, CavlcWords, RunCoding | run coding |

`dafny verify dfyconfig.toml` checks the whole project.

## Model

| member | source | states |
|---|---|---|
| DpbManager.DpbMgr.Init | common/ih264_dpb_mgr.c:95-115 | From any contents: both lists empty, all 64 nodes free and unlinked, every field picture invalid; the list invariant holds. |
| DpbManager.DpbMgr.Capacity | common/ih264_dpb_mgr.h:93 | The two lists together hold at most 64 nodes, and hold exactly 64 iff no node is free. |
| DpbManager.DpbMgr.SortShortByFrameNum | common/ih264_dpb_mgr.c:146-206 | Returns -1 iff the list is empty; the fields are permuted among the same nodes, FrameNumWrap is non-increasing, and with all frame_nums and the current one in [0, max) the fields stand in the order of their age, (current - frame_num) mod max; the long-term list is untouched; with at most one field of each parity per frame_num every complementary pair has first_field_type first. |
| DpbManager.DpbMgr.SortShortByPocL0 | common/ih264_dpb_mgr.c:233-293 | When no POC equals the current one, the exchange loops leave the fields before the current picture in descending POC order and then those after it in ascending order; the rest is the pairing pass on that list. |
| DpbManager.DpbMgr.SortShortByPocL1 | common/ih264_dpb_mgr.c:321-381 | The mirrored order: after the current picture ascending, then before it descending; then the pairing pass. |
| DpbManager.DpbMgr.SortLongByFrameIdx | common/ih264_dpb_mgr.c:405-459 | The result is a function of the list; it is a permutation whose long-term indices do not decrease, pairs in the requested order when every index has one field of each parity, the short-term list untouched. |
| DpbManager.DpbMgr.AlternateRefFields | common/ih264_dpb_mgr.c:486-553 | The relinked list has the same nodes, shows the alternation of the old field sequence, and the other list and its head are unchanged; both nested loops end. |
| DpbManager.DpbMgr.InsertRefField | common/ih264_dpb_mgr.c:589-656 | Fails iff the picture is present with this reference type or all 64 nodes are in use, and then changes nothing; otherwise one free node becomes the head of the selected list, no other node changes, and the picture gets its type, frame_num and index (-1 when short-term). |
| DpbManager.DpbMgr.InsertRefFrame | common/ih264_dpb_mgr.c:690-730 | The second field is the bottom field picture with the buffer id of the first. Which of the two get in, in terms of the state before the call: the bottom field can fail after the top field was added, and then the top field stays although -1 is returned; the type, frame_num and long-term index each inserted field gets; a field not inserted is unchanged. |
| DpbManager.DpbMgr.CountShortFrames | common/ih264_dpb_mgr.c:771-795 | For any initial order: the number of distinct frame_nums on the short-term list, when all are in [0, max); the list is left sorted, top fields first. |
| DpbManager.DpbMgr.CountLongFrames | common/ih264_dpb_mgr.c:801-822 | The value is a function of the list before the call and exceeds the number of long-term frames by the frames it splits (fields of one index, two frame_nums) less those it merges (neighbouring frames, one frame_num), for every list. With one field of each parity per index both numbers are given on the unsorted list; when the index determines frame_num the value is at most the number of frames, and equal iff frames that are neighbours in index order differ in frame_num. |
| DpbManager.DpbMgr.CountRefFrames | common/ih264_dpb_mgr.c:757-824 | With frame_nums of the short-term list in [0, max): distinct short-term frame_nums plus the long-term value above, with the same exact conditions for being the number of frames; the call only permutes pictures among the nodes of each list, into the order of the two sorts. |
| DpbManager.DpbMgr.DeleteRefFrame | common/ih264_dpb_mgr.c:849-957 | Removes from the end of the selected list one field, or two when the last two share frame_num; exactly their nodes are freed and their pictures marked unused, the rest of the list keeps nodes and fields, the other list is unchanged. |
| DpbManager.DpbMgr.DeleteLongAboveMaxIdx | common/ih264_dpb_mgr.c:980-1022 | The surviving fields are the survivor function of the two loops; every field within the maximum survives in order; the result is the intended one iff no two neighbours above the maximum follow a field within it; exactly the freed nodes had their pictures marked unused. |
| DpbManager.DpbMgr.DeleteShortRefFrame | common/ih264_dpb_mgr.c:1050-1071 | Sliding window: with frame_nums in [0, max) and one field per parity, exactly the fields of least FrameNumWrap, which are those of greatest age (current - frame_num) mod max, leave the list and are marked unused; all others stay and keep their marks, the long-term list is unchanged, and the number of distinct frames drops by one. For every list, the fields left and their order. |
| DpbManager.DpbMgr.DeleteAllRefFrames | common/ih264_dpb_mgr.c:1092-1106 | Both loops end; afterwards both lists are empty, every node is free and every picture that was on a list is marked unused, neither short-term nor long-term. |
| DpbLists.Exchange | common/ih264_dpb_mgr.c:160-179 | The double exchange loop computes the exchange function; it permutes the fields, and orders them whenever every pair can be compared (no POC equal to the current one). |
| DpbLists.PairUp | common/ih264_dpb_mgr.c:185-204 | The pass over neighbouring fields is the pairing pass; the assertion in it cannot fire when there is one field of each parity per frame. |
| DpbLists.AlternateNodes | common/ih264_dpb_mgr.c:500-550 | The relinking of nodes yields a null-terminated chain of the same nodes that shows the alternation. |
| DpbLists.CountChanges | common/ih264_dpb_mgr.c:779-794 | The walk counts the maximal runs of equal frame_num. |
| DpbDeletion.DeleteLast | common/ih264_dpb_mgr.c:860-956 | The cases of one, two and more nodes all cut the list at the same length function. |
| DpbDeletion.TrimNodes | common/ih264_dpb_mgr.c:989-1020 | The two trimming loops compute the survivor function on a chain of nodes and free exactly the other nodes. |
| ExchangeSort.Total | common/ih264_dpb_mgr.c:257-264 | The exchange tests of all four sorts agree with the intended order: not exchanging means the pair may stay, exchanging means it must turn, on comparable fields. |
| ExchangeSort.Step | common/ih264_dpb_mgr.c:160-179 | One turn of the inner loop keeps the permutation and the sorted prefix, for every order. |
| Pairing.PairPassPermutes | common/ih264_dpb_mgr.c:187-204 | The pairing pass permutes the fields. |
| Pairing.PairPassKeepsKeys | common/ih264_dpb_mgr.c:187-204 | At every position the frame (frame_num or long-term index) is the one before the pass, whatever the list. |
| Pairing.PairPassPointwise | common/ih264_dpb_mgr.c:187-204 | Position by position result of the pass on a list with one field per parity: each field stays or changes places with its partner. |
| Pairing.PairPassOrders | common/ih264_dpb_mgr.c:187-204 | After the pass every pair of neighbours of one frame has the requested parity first. |
| Pairing.PairPassExact | common/ih264_dpb_mgr.c:187-204 | On every list, assertion or not: among neighbouring fields of one frame the first one of the other parity goes behind the rest, which keep their order. |
| Alternation.AlternateStep | common/ih264_dpb_mgr.c:508-541 | One turn of the relinking loop moves the first field of the expected parity to the loop position without changing the final result. |
| Alternation.AlternatePermutes | common/ih264_dpb_mgr.c:508-541 | Alternation keeps exactly the same fields, for any field types. |
| Alternation.AlternateKeepsParityOrder | common/ih264_dpb_mgr.c:508-541 | Each parity keeps its relative order, for any field types. |
| Alternation.AlternateIsInterleave | common/ih264_dpb_mgr.c:507-541 | Section 8.2.4.2.5 of H.264: the result takes the two parities in turn starting with the requested one and appends what is left of the other. |
| Alternation.AlternateAt | common/ih264_dpb_mgr.c:507-541 | Position by position: while both parities last, even places hold the requested parity and odd ones the other, each in old order; then what is left of the longer one. |
| Marking.TrimKeepsWithin | common/ih264_dpb_mgr.c:989-1020 | No field within the maximum is lost or reordered by trimming. |
| Marking.TrimComplete | common/ih264_dpb_mgr.c:989-1020 | Trimming leaves exactly the fields within the maximum iff neighbours above it occur only in the run the list starts with. |
| Marking.TrimSurvivors | common/ih264_dpb_mgr.c:989-1020 | Exactly which fields survive on every list: those within the maximum, and above it those with an odd number of such fields between them and the last field within it. |
| Marking.TrimDescending | common/ih264_dpb_mgr.c:989-1020 | On a list non-increasing in index every field above the maximum is removed. |
| Marking.TrimAscending | common/ih264_dpb_mgr.c:1010-1019 | On the order the long-term sort produces it succeeds iff no field is within the maximum or at most one is above it. |
| Marking.TrimLeavesOne | common/ih264_dpb_mgr.c:1010-1016 | A failing input: indices 0, 5, 6 with maximum 1 keep index 6. |
| Counting.WrapInjective | common/ih264_dpb_mgr.c:167-170 | For frame_nums in [0, max) FrameNumWrap is equal iff frame_num is, whatever the current frame_num. |
| Orderings.WrapIsAge | common/ih264_dpb_mgr.c:167-170 | For frame_nums and the current one in [0, max), comparing FrameNumWrap is comparing age, (current - frame_num) mod max. |
| Counting.CountByFrameNum | common/ih264_dpb_mgr.c:787-794 | On a list in FrameNumWrap order the walk counts distinct frame_nums. |
| ExchangeSort.ExchangedSorts | common/ih264_dpb_mgr.c:160-179 | The double loop as a function permutes the fields and orders comparable ones, for every order. |
| ExchangeSort.InOrderStays | common/ih264_dpb_mgr.c:160-179 | The loops leave a list that is in FrameNumWrap or index order as it is. |
| ExchangeSort.EqualPocsTurn | common/ih264_dpb_mgr.c:253-270 | The POC loops exchange two fields of one POC. |
| LongTermCount.LongCountExact | common/ih264_dpb_mgr.c:801-822 | For every long-term list, whatever its fields: count plus merged steps is frames plus split steps in the sorted list, so the count is the number of frames iff these balance. |
| LongTermCount.PairedCountExact | common/ih264_dpb_mgr.c:801-822 | With one field of each parity per index (what the sort asserts), the same on the list before the call: the count is right iff as many frames have two frame_nums as have a last field whose frame_num is that of the first field of the next frame. |
| LongTermCount.FixedCountExact | common/ih264_dpb_mgr.c:801-822 | When the index determines frame_num: never too many, and all frames iff frames that are neighbours in index order differ in frame_num. |
| LongTermCount.LongIdxOrderUnique | common/ih264_dpb_mgr.c:405-459 | With one field of each parity per index there is only one long-term order of given fields, whatever their frame_nums. |
| LongTermCount.LongKeysUnique | common/ih264_dpb_mgr.c:801-822 | When the index determines frame_num, sorted lists of the same fields show one frame_num sequence. |
| LongTermCount.LongCountOrderFree | common/ih264_dpb_mgr.c:801-822 | With one field of each parity per index, or one frame_num per index, the count does not depend on the order the fields are in. |
| LongTermCount.LongCountStable | common/ih264_dpb_mgr.c:801-822 | Under either hypothesis a second count of an unchanged list gives the same value. |
| LongTermCount.LongCountMisses | common/ih264_dpb_mgr.c:814-821 | A failing input: two long-term frames that share frame_num 5 count as one. |
| LongTermCount.LongCountExceeds | common/ih264_dpb_mgr.c:814-821 | A failing input: one long-term frame whose fields have frame_nums 5 and 6 counts as two. |
| LongTermCount.LongCountUnstable | common/ih264_dpb_mgr.c:801-822 | A failing input without either hypothesis: two bottom fields and a top field of one index, frame_nums 1, 1, 2, count as 3 and, counted again, as 2. |
| Orderings.SortedPocL0 | common/ih264_dpb_mgr.c:248-270 | A list in the L0 relation splits at the current picture into descending smaller and ascending larger POCs. |
| Orderings.ListOneRotatesListZero | common/ih264_dpb_mgr.c:341-358 | With distinct POCs the L1 order of a list is its L0 order rotated at the split point. |
| Orderings.PairedFrameNumOrder | common/ih264_dpb_mgr.c:187-204 | The pairing pass after the frame_num sort keeps the order and puts pairs right. |
| Orderings.FrameNumOrderUnique | common/ih264_dpb_mgr.c:146-206 | There is only one such order of given fields, so the result of the sort does not depend on the initial order. |
| Orderings.OldestAtEnd | common/ih264_dpb_mgr.c:933-954 | In FrameNumWrap order the part cut off the end is exactly the fields no other field is older than. |
| Orderings.SlidingWindowFacts | common/ih264_dpb_mgr.c:1057-1063 | Sorting and then cutting the end removes exactly the oldest frame from the original list, and one frame only. |
| DpbRuns.SlideAndCount | common/ih264_dpb_mgr.c:1050-1071 | Counting, sliding the window and counting again, with short-term frame_nums in [0, max) and one field per parity per frame_num: the value drops by exactly one, or stays when the short-term list is empty, iff recounting the long-term list leaves its count; this is so whenever the long-term list has one field of each parity per index or one frame_num per index. For other lists the difference is given exactly. |
| DpbRuns.SortBothLists | common/ih264_dpb_mgr.c:321-381 | Sorting for list 1 after list 0 gives, before the pairing pass, the list 0 sequence rotated. |
| DpbRuns.ClearAndRefill | common/ih264_dpb_mgr.c:1092-1106 | After deleting everything, 64 distinct fields can be inserted again and stand on the list in reverse order of insertion. |
| DpbInserts.InsertWholeFrame | common/ih264_dpb_mgr.c:690-730 | Inserting top field k, with buffer id k, returns 0 iff neither field k is there with this type and two nodes are free; then bottom field k and top field k stand at the front of the list, in that order. |
| DpbInserts.InsertFirstFrame | common/ih264_dpb_mgr.c:690-730 | From a new manager, for every k: the call returns 0 and the list holds bottom field k and then top field k. |
| DpbInserts.InsertFrameIntoLastNode | common/ih264_dpb_mgr.c:690-730 | With 63 nodes in use the top field of a frame is added, the bottom field is unchanged and not added, and -1 is returned. |
| DpbInserts.InsertFrameAfterBottom | common/ih264_dpb_mgr.c:690-730 | From a new manager: with the bottom field already listed, inserting the frame returns -1 although both fields are then on the list. |
| DpbInserts.InsertDistinct | common/ih264_dpb_mgr.c:589-656 | When no two nodes hold one picture, this stays so iff the insertion fails or no node of either list held the picture. |
| DpbInserts.InsertThreeTimes | common/ih264_dpb_mgr.c:602-609 | From a new manager: inserted as short-term, long-term and short-term, one picture is on two nodes of the short-term list and one of the other. |
| DpbTraces.Step | common/ih264_dpb_mgr.c:95-1106 | Every call keeps the list invariant and turns the two field sequences the lists show into those the functions give: the sorts, alternation, cuts, trimming and counts exactly; an insertion adds its fields at the front, and leaves the lists alone only when all nodes are in use or the picture is listed. |
| DpbTraces.Run | common/ih264_dpb_mgr.c:95-1106 | Any sequence of calls is a run of that machine on two sequences, from what was shown to what is shown; both lists stay acyclic and disjoint, hold exactly the nodes with a picture, and are at most 64 long together at every point. |
| InterpKernels.SameFilter | common/ih264_inter_pred_filters.c:508-514 | The coefficient form and the shift-and-add form are both the filter (1, -5, 20, 20, -5, 1). |
| Interpolation.FiltersCommute | common/ih264_inter_pred_filters.c:411-436 | Filtering vertically and then horizontally gives the same unrounded sum as the other order. |
| Interpolation.SumRange | common/ih264_inter_pred_filters.c:413-432 | One-pass sums fit 16 bits and two-pass sums 32 bits, for all samples. |
| InterpKernels.Horz | common/ih264_inter_pred_filters.c:243-270 | Writes the horizontal half samples of the source picture to the block and nothing else; every narrowing store is exact. |
| InterpKernels.Vert | common/ih264_inter_pred_filters.c:313-340 | The same for vertical half samples. |
| InterpKernels.Bilinear | common/ih264_inter_pred_filters.c:1067-1091 | Writes the rounded mean of two blocks. |
| InterpKernels.HorzQpel | common/ih264_inter_pred_filters.c:488-525 | Writes the mean of the horizontal half sample and the whole sample at column offset x>>1. |
| InterpKernels.VertQpel | common/ih264_inter_pred_filters.c:576-620 | Writes the mean of the vertical half sample and the whole sample at row offset y>>1. |
| InterpKernels.HorzQpelVertQpel | common/ih264_inter_pred_filters.c:671-732 | Writes the mean of the vertical half sample at column offset x>>1 and the horizontal one at row offset y>>1. |
| InterpCross.VertPass | common/ih264_inter_pred_filters.c:805-821 | The first pass fills wd + 5 sums a row with the vertical sums from two columns left of the block, each exact in 16 bits. |
| InterpCross.HorzPass | common/ih264_inter_pred_filters.c:973-987 | The first pass of the other kernel fills ht + 5 rows of wd horizontal sums from two rows above the block. |
| InterpCross.CombineAcross | common/ih264_inter_pred_filters.c:823-840 | Filtering the vertical sums along rows writes the half-half samples. |
| InterpCross.CombineDown | common/ih264_inter_pred_filters.c:988-1002 | Filtering the horizontal sums along columns writes the half-half samples. |
| InterpCross.Blend | common/ih264_inter_pred_filters.c:842-858 | The last pass, which rounds each sum in place, writes the mean of what the block held and the rounded, clipped sum; each sum is rounded once. |
| InterpCross.HorzHpelVertHpel | common/ih264_inter_pred_filters.c:392-437 | Writes the half-half samples. |
| InterpCross.HorzQpelVertHpel | common/ih264_inter_pred_filters.c:784-859 | Writes the mean of the half-half sample and the vertical half sample at column offset x>>1. |
| InterpCross.HorzHpelVertQpel | common/ih264_inter_pred_filters.c:949-1021 | Writes the mean of the half-half sample and the horizontal half sample at row offset y>>1, with the filters in the opposite order. |
| InterpQuarters.HalfOfCubic | common/ih264_inter_pred_filters.c:243-340 | Where the samples of a row, or a column, are a cubic polynomial, the half sample is its exact value in the middle. |
| InterpQuarters.HalfBothOfCubic | common/ih264_inter_pred_filters.c:392-437 | The same for the half-half sample on six such rows. |
| InterpQuarters.HorzResponse | common/ih264_inter_pred_filters.c:258-266 | Raising the sample in one column raises the horizontal sum by that column's weight, (1, -5, 20, 20, -5, 1). |
| InterpQuarters.VertResponse | common/ih264_inter_pred_filters.c:328-336 | The same for rows and the vertical sum. |
| InterpQuarters.HalfNearest | common/ih264_inter_pred_filters.c:413-432 | The half samples are the samples nearest to a 32nd, or a 1024th, of the sums, the larger one on a tie. |
| InterpQuarters.HorzQuarter | common/ih264_inter_pred_filters.c:499-501 | For dydx = 4y + x: the horizontal half sample is averaged with the whole sample in its column when x = 1 and in the next when x = 3. |
| InterpQuarters.VertQuarter | common/ih264_inter_pred_filters.c:586-620 | The vertical half sample with the whole sample in its row when y = 1 and in the next when y = 3. |
| InterpQuarters.DiagonalQuarter | common/ih264_inter_pred_filters.c:681-732 | The vertical half sample of column 0 or 1 as x is 1 or 3, with the horizontal one of row 0 or 1 as y is 1 or 3. |
| InterpQuarters.CentreRowQuarter | common/ih264_inter_pred_filters.c:797-859 | The half-half sample with the vertical half sample of column 0 or 1 as x is 1 or 3. |
| InterpQuarters.CentreColQuarter | common/ih264_inter_pred_filters.c:961-1021 | The half-half sample with the horizontal half sample of row 0 or 1 as y is 1 or 3. |
| InterpQuarters.HorzMirrored | common/ih264_inter_pred_filters.c:488-525 | The kernel for x = 3 on the picture from right to left is the kernel for x = 1 on the picture, from right to left. |
| InterpQuarters.VertMirrored | common/ih264_inter_pred_filters.c:576-620 | The same from bottom to top for y = 3 and y = 1. |
| InterpFusion.HorzQpelByParts | common/ih264_inter_pred_filters.c:488-525 | For all images, strides and sizes: the fused kernel leaves the destination exactly as the horizontal kernel followed by the bilinear one. |
| InterpFusion.VertQpelByParts | common/ih264_inter_pred_filters.c:576-620 | The same with the vertical kernel. |
| InterpFusion.DiagonalByParts | common/ih264_inter_pred_filters.c:671-732 | The same with the vertical and the horizontal kernel at the offsets x>>1 and y>>1. |
| InterpFusion.QpelVertHpelByParts | common/ih264_inter_pred_filters.c:784-859 | The fused kernel equals the half-half kernel averaged with the vertical kernel at x>>1. |
| InterpFusion.HpelVertQpelByParts | common/ih264_inter_pred_filters.c:949-1021 | The fused kernel equals the half-half kernel, which filters in the other order, averaged with the horizontal kernel at y>>1. |
| Deblocking.PullStays | common/ih264_deblk_edge_filters.c:598-611 | The unclipped update of p1 (and q1) stays in 0..255, lies between p1 and the middle of p2 and the edge mean, and moves by at most tc0. |
| Deblocking.NormalBounded | common/ih264_deblk_edge_filters.c:582-611 | p0 and q0 move by at most tc, p1 and q1 by at most tc0, the outer samples do not move. |
| Deblocking.NormalLopsided | common/ih264_deblk_edge_filters.c:588-596 | The normal filter is not symmetric: an edge of height one is filtered from one side and left alone from the other. |
| Deblocking.NormalMirrorExact | common/ih264_deblk_edge_filters.c:573-611 | Reversing a line commutes with the normal filter iff the line is not filtered, the step is not a rounding tie, or the clipping hides it. |
| Deblocking.StrongBounded | common/ih264_deblk_edge_filters.c:136-189 | Every new sample of the strong filters lies between the least and the greatest sample of its line; constant lines are fixed. |
| Deblocking.StrongMirror | common/ih264_deblk_edge_filters.c:136-189 | Reversing a line commutes with the strong filters. |
| DeblockWeights.Unfiltered | common/ih264_deblk_edge_filters.c:131-189 | A line with a difference at or above its threshold keeps its samples, under each of the four filters. |
| DeblockWeights.StrongWeighted | common/ih264_deblk_edge_filters.c:136-189 | Each new sample of a line that passes the three tests is the mean of the eight with the weights of section 8.7.2.4 of H.264, rounded half up; which sides change three samples is decided by the two further tests. |
| DeblockWeights.PairStrongWeighted | common/ih264_deblk_edge_filters.c:379-387 | The chroma filter has the short weights on both sides. |
| DeblockWeights.StrongResponse | common/ih264_deblk_edge_filters.c:136-189 | Raising one of the eight samples by 8, decisions unchanged, raises every new sample by its weight. |
| DeblockWeights.StrongRamp | common/ih264_deblk_edge_filters.c:136-189 | p0 and q0 stay on a line of constant slope that is smooth on both sides. |
| DeblockWeights.NormalStep | common/ih264_deblk_edge_filters.c:582-611 | p0 and q0 move towards each other by the integer nearest to an eighth of 4(q0 - p0) + (p1 - q1) within the bound; p1 and q1 of a smooth side go to the middle of the third sample and the edge mean, or tc0 towards it; nothing else changes. |
| DeblockWeights.PairNormalStep | common/ih264_deblk_edge_filters.c:700-712 | The same step for chroma with bound tc0 + 1, and only p0 and q0 change. |
| DeblockWeights.NormalRamp | common/ih264_deblk_edge_filters.c:588-596 | On a line of constant slope p0 and q0 stay iff the slope is -4 to 3 or the bound is 0. |
| DeblockWeights.NormalResponse | common/ih264_deblk_edge_filters.c:588-596 | Away from the clips, 8 more at p1 or 2 more at q0 make the step one larger, as do 2 less at p0 or 8 less at q1. |
| DeblockEdges.ClipTableRows | common/ih264_deblk_tables.c:98-114 | Every row of the table clips to at most 25, strength 0 to 0, and a higher strength to no less. |
| DeblockEdges.StrongLine | common/ih264_deblk_edge_filters.c:131-189 | One line in place: the samples become those of the strong filter, and nothing else in the plane changes. |
| DeblockEdges.NormalLine | common/ih264_deblk_edge_filters.c:573-611 | The same for the normal filter, with every 8-bit and 16-bit store exact for tc0 up to 25. |
| DeblockEdges.StepWrite | common/ih264_deblk_edge_filters.c:588-596 | The clipped step of p0 and q0; the step fits a signed byte. |
| DeblockEdges.PullWrite | common/ih264_deblk_edge_filters.c:601-603 | The unclipped add to p1 stays a sample. |
| DeblockEdges.PairStrongLine | common/ih264_deblk_edge_filters.c:379-387 | One chroma line of the strong filter; only p0 and q0 change. |
| DeblockEdges.PairNormalLine | common/ih264_deblk_edge_filters.c:700-712 | One chroma line of the normal filter. |
| DeblockEdges.LumaVertBs4 | common/ih264_deblk_edge_filters.c:104-192 | All 16 rows across a vertical edge are filtered, each from its original samples; nothing else changes. |
| DeblockEdges.LumaHorzBs4 | common/ih264_deblk_edge_filters.c:222-313 | All 16 columns across a horizontal edge, reached through two pointers. |
| DeblockEdges.LumaVertBs4Mbaff | common/ih264_deblk_edge_filters.c:1008-1096 | Eight rows across a vertical edge. |
| DeblockEdges.LumaVertBslt4 | common/ih264_deblk_edge_filters.c:532-614 | 16 rows, each with the strength of its block of four; blocks of strength 0 are untouched. |
| DeblockEdges.LumaHorzBslt4 | common/ih264_deblk_edge_filters.c:766-851 | 16 columns, in blocks of four. |
| DeblockEdges.LumaVertBslt4Mbaff | common/ih264_deblk_edge_filters.c:1216-1297 | Eight rows, in blocks of two. |
| DeblockEdges.ChromaVertBs4Bp | common/ih264_deblk_edge_filters.c:343-401 | Eight U and eight V lines, interleaved, with common thresholds. |
| DeblockEdges.ChromaVertBs4 | common/ih264_deblk_edge_filters.c:1450-1510 | The same with thresholds of their own. |
| DeblockEdges.ChromaVertBslt4Bp | common/ih264_deblk_edge_filters.c:650-730 | Normal filter on both planes with common thresholds. |
| DeblockEdges.ChromaVertBslt4 | common/ih264_deblk_edge_filters.c:1656-1739 | Normal filter with thresholds and table row for each plane. |
| DeblockWeights.StrongRow | common/ih264_deblk_edge_filters.c:104-192 | Each row of a vertical edge, 16 rows or 8, holds the strong filter of the eight samples around the edge. |
| DeblockWeights.NormalRow | common/ih264_deblk_edge_filters.c:532-614 | Each row holds the normal filter of six samples with the table entry of the strength of its quarter of the edge, the strengths being the bytes of the word from the highest down; strength 0 leaves the row. |
| DeblockWeights.PairStrongRow | common/ih264_deblk_edge_filters.c:1450-1510 | U rows are filtered with the Cb thresholds and V rows with the Cr ones. |
| DeblockWeights.PairNormalRow | common/ih264_deblk_edge_filters.c:1656-1739 | The same with the table rows of each plane and a strength for every two rows. |
| DeblockEquivalences.StrongTransposed | common/ih264_deblk_edge_filters.c:222-313 | The horizontal-edge strong filter is the transpose of the vertical-edge one, on all planes and strides. |
| DeblockEquivalences.NormalTransposed | common/ih264_deblk_edge_filters.c:766-851 | The same for the normal filter. |
| DeblockEquivalences.StrongHalves | common/ih264_deblk_edge_filters.c:1008-1096 | Two calls on the upper and lower 8 rows leave the same plane as one call on 16. |
| DeblockEquivalences.NormalHalves | common/ih264_deblk_edge_filters.c:1216-1297 | The same for the normal filter, each strength given twice. |
| DeblockEquivalences.ChromaStrongAlike | common/ih264_deblk_edge_filters.c:1450-1510 | Given equal thresholds the two-threshold filter equals the common-threshold one. |
| DeblockEquivalences.ChromaNormalAlike | common/ih264_deblk_edge_filters.c:1656-1739 | The same for the normal filter with equal thresholds and table rows. |
| BufferManager.BufMgr.Init | common/ih264_buf_mgr.c:237-258 | No buffer, no id busy. |
| BufferManager.BufMgr.Reset | common/ih264_buf_mgr.c:277-291 | Every status becomes zero, buffers and count stay. |
| BufferManager.BufMgr.Add | common/ih264_buf_mgr.c:317-349 | Succeeds iff the id is in range and its slot is empty or holds this buffer; otherwise nothing changes. |
| BufferManager.BufMgr.GetNextFree | common/ih264_buf_mgr.c:373-398 | Hands out the lowest id with a buffer and status zero and marks bit 0; when there is none returns NULL, and neither the pool nor the id variable of the caller changes. |
| BufferManager.BufMgr.CheckFree | common/ih264_buf_mgr.c:418-440 | Succeeds iff get_next_free would hand a buffer out. |
| BufferManager.BufMgr.Release | common/ih264_buf_mgr.c:467-496 | Fails on an id not added; otherwise clears the mask, and the status becomes zero iff no bit other than bit 0 survives. |
| BufferManager.BufMgr.SetStatus | common/ih264_buf_mgr.c:522-550 | Fails on an id not added or a mask bit already set; otherwise sets the mask. |
| BufferManager.OrderlyAdds | common/ih264_buf_mgr.c:325-349 | A successful add keeps ids 0, 1, 2, ... with buffers iff it uses the next id and a real buffer; no other call disturbs them. |
| BufferManager.AddingAgainInflates | common/ih264_buf_mgr.c:334-343 | Adding a listed buffer again succeeds and only raises the count of active buffers. |
| BufferManager.HandedOutAgain | common/ih264_buf_mgr.c:373-396 | Over every interleaving: between two hand-outs of one id there is a reset, or a release of that id that left no other bit. |
| BufferManager.HeldIsBusy | common/ih264_buf_mgr.c:373-550 | Over every interleaving from an idle pool: every buffer that is out is busy, and if only buffers that are out get marked, the busy ids are exactly those. |
| BufferManager.ExclusiveHolder | common/ih264_buf_mgr.c:373-396 | No id is handed out while it is out. |
| BufferManager.BitHistory | common/ih264_buf_mgr.c:373-550 | Over every run from an idle pool: a bit of a status is set iff a call set it and no reset, no release with the bit in its mask, and for bit 0 no release of all the others, came after. |
| BufferManager.IdKeepsBuffer | common/ih264_buf_mgr.c:317-349 | Once a buffer is added under an id, the id means that buffer after every further call. |
| DisplayManager.DispMgr.Init | common/ih264_disp_mgr.c:76-87 | Every slot empty. |
| DisplayManager.DispMgr.Add | common/ih264_disp_mgr.c:116-135 | Fails iff the id is out of range or its slot holds a buffer, and then changes nothing; otherwise stores buffer and POC. |
| DisplayManager.DispMgr.Get | common/ih264_disp_mgr.c:158-189 | Returns -1 iff nothing is stored; otherwise takes out the stored buffer of least POC, the larger id on ties. |
| DisplayManager.StepRefines | common/ih264_disp_mgr.c:116-189 | Between clean states the arrays act as a set of entries; an add keeps the state clean iff sentinel POC and NULL pointer come together or not at all. |
| DisplayManager.SentinelSticks | common/ih264_disp_mgr.c:167-189 | A buffer added with the sentinel POC occupies its slot for ever: no event returns it and no add succeeds on its id. |
| DisplayManager.StuckExact | common/ih264_disp_mgr.c:116-189 | A slot becomes stuck exactly by an add of the sentinel POC with a pointer. |
| DisplayManager.StuckForRun | common/ih264_disp_mgr.c:116-189 | Over every later run a stuck slot takes part in no successful add and no get. |
| DisplayManager.AddLosesExact | common/ih264_disp_mgr.c:124-132 | An add drops a stored buffer iff it has its id and differs from it, and then that buffer was added with a NULL pointer. |
| DisplayManager.Conservation | common/ih264_disp_mgr.c:116-189 | Over every interleaving of adds and gets: the multiset of added buffers is that of the returned ones plus the stored ones. |
| DisplayManager.Drained | common/ih264_disp_mgr.c:158-189 | Gets until empty return exactly the stored buffers, each once, in queue order with non-decreasing POC. |
| DisplayManager.Drain | common/ih264_disp_mgr.c:158-189 | The loop of gets on a manager ends and its outputs are such a run. |
| CavlcTables.ZeroRowAt | common/ih264_cavlc_tables.c:222-225 | The index table finds the row of each total_coeff in the flat size and code tables. |
| CavlcTables.ChromaRowAt | encoder/ih264e_cavlc.c:507-513 | The encoder's chroma index {0, 4, 7} finds the rows of the chroma tables. |
| CavlcTables.RunRowAt | common/ih264_cavlc_tables.c:263-266 | The index table finds the row of each number of zeros left. |
| CavlcTables.RunBeforeRowAt | decoder/ih264d_tables.c:668-672 | The decoder's packed run table is eight entries for each number of zeros left. |
| CavlcWords.ReadsZeros | decoder/ih264d_parse_cavlc.c:597-607 | The decoder's table lookups and unary reading undo the encoder's total_zeros words, for every total_coeff and any bits that follow, and take exactly the bits of the word. |
| CavlcWords.ReadsChromaZeros | decoder/ih264d_parse_cavlc.c:1155-1162 | The same for chroma DC blocks. |
| CavlcWords.ReadsRun | decoder/ih264d_parse_cavlc.c:623-663 | The same for run_before, with the word selected by the zeros left, both below and above seven. |
| CavlcWords.ShortRunFits | decoder/ih264d_tables.c:668-672 | Whatever the bits, with at most six zeros left the run read does not exceed them. |
| RunCoding.RunsOfMap | encoder/ih264e_cavlc.c:149-203 | The runs the encoder computes from a coefficient map put every coefficient back in its place, and fit the block. |
| RunCoding.RunsRoundTrip | encoder/ih264e_cavlc.c:527-564 | Decoding the run_before words with the same evolving context rebuilds the positions and takes exactly the bits written. |
| RunCoding.BlockRoundTrip | encoder/ih264e_cavlc.c:500-565 | A block of any kind (16, 15 or 4 coefficients) is recovered from its total_zeros and run_before words without an error. |
| RunCoding.StreamRoundTrip | encoder/ih264e_cavlc.c:500-565 | For any sequence of blocks and whatever follows: every coefficient map is recovered and exactly the bits written are read. |
| RunCoding.MapRoundTrip | decoder/ih264d_parse_cavlc.c:612-686 | The recovered map is the positions of the coefficients: 0 to 15, 0 to 3 for chroma DC, and one more than the index for the 15 coefficients of a block without DC. |
| RunCoding.ExampleWords | encoder/ih264e_cavlc.c:500-565 | Coefficients at 1, 3, 4, 5 and 7 are written as 111 10 1 1 01. |
| CavlcWords.ZerosBound | decoder/ih264d_tables.c:563-664 | Whatever the bits, the zeros read for two coefficients or more leave room in 16 positions; for one coefficient there can be 16. |
| RunCoding.DecodedShape | decoder/ih264d_parse_cavlc.c:612-686 | Whatever the bits: a map decoded downwards from a top position has one position per coefficient in its 16-bit word, but loses the top one at position 16; only more than six zeros can lead to an error. |
| RunCoding.MapExact | decoder/ih264d_parse_cavlc.c:597-686 | Whatever the bits: a decoded map has one position of the block per coefficient iff coefficients and zeros read fit the block; otherwise a single coefficient of a 4x4 block is an error, and of several the highest is lost. |
| RunCoding.HighestLost | decoder/ih264d_parse_cavlc.c:602-686 | A failing input: a block without DC with two coefficients and the bits 000000 111 decodes without an error to a map with one position. |
| RunCoding.WordsPrefixFree | common/ih264_cavlc_tables.c:166-201 | No total_zeros word of a row is a prefix of another. |
| RunCoding.RunsPrefixFree | common/ih264_cavlc_tables.c:235-254 | No run_before word for a number of zeros left is a prefix of another. |

## Left out

- The counters `u1_num_short_term_ref_bufs` and `u1_num_long_term_ref_bufs`: most deletions do not decrement them, so they are not the list lengths and nothing reads them here.
- `u4_last_abs_poc` of the display manager: it is set once and not read.
- The assertions in the sorts are modelled as having no effect; that they hold is proved where the fields have one field of each parity per frame (`DpbLists.PairUp`) and no POC equal to the current one (`ExchangeSort.Total`). The assertion that follows the deletion in the sliding window is unreachable because the deletion always returns 0.
- frame_num is an `int` throughout; the conversion between its unsigned parameter and signed field is the identity on the 16-bit values the standard allows.
- A NULL picture given to an insertion, and NULL pointers to the managers themselves.
- `ih264_dpb_mgr_reset` and `ih264_dpb_mgr_release_pics`: both start with a failing assertion.
- Distinct pictures are not part of the list invariant: an insertion looks for the picture with the same reference type only, so one picture can be on both lists and twice on one (`DpbInserts.InsertThreeTimes`).
- `BufferManager.BufMgr`: the mutex, its failure codes, `yield` and memory sizes; each method is one atomic step. A status word is the set of its one bits. The functions that only read or return stored values are easy members.
- Negative buffer ids are not modelled in the pool and the display manager.
- `BufferManager.BufMgr.GetNextFree`: requires an active count of at most 64, since the loop reads that many slots; `BufferManager.OrderlyAdds` shows when this holds.
- The remark in the interpolation comments that source and destination may be one buffer: the kernels read samples that would already be overwritten, so the destination is required to be another array.
- `InterpCross.VertPass`, `InterpCross.HorzPass`: the scratch buffer is an array of 16-bit sums, where the source casts a byte pointer. The last pass counts its rows and columns upwards, the source downwards over the same samples.
- `InterpKernels.Horz` and the other kernels: heights and widths are not negative, and the rows of the destination do not overlap (its stride is at least the width). Source strides are arbitrary.
- `dydx` outside 0..15: a displacement has two fractions of two bits each.
- Luma copy and chroma interpolation: easy members.
- Horizontal-edge and MBAFF chroma deblocking: copies of the vertical-edge filters with other strides.
- `DeblockEdges.LumaVertBs4` and the other edge filters: the planes are required to give every line samples of its own (`DeblockEdges.VertSeparate`, `HorzSeparate`, `PairSeparate` show that a stride of 8, or of 16 for horizontal edges, does).
- Coding of coeff_token and of the levels, emulation prevention and the word buffers of the bit streams: a stream is a sequence of bits, followed by zero bits. The decoder is given the number of coefficients of each block, which it knows from coeff_token.
- `RunCoding.DecodeRuns`: the two loops of the decoder, for more than six zeros left and for fewer, are one recursion; the checks on the scan position follow from those on the zeros left.
- Scaling and transforms, intra prediction, CABAC, the SIMD versions and the applications.
