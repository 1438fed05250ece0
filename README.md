# TileDB-VCF ingestion and read-side state, modelled in Dafny

This project models five small stateful components of TileDB-VCF:

- **`RecordHeap`** is the priority queue of merge nodes used to k-way merge the per-sample VCF record streams during ingestion.
- **`ReadQueryResults`** is the snapshot a read query leaves after each step: the status, the cell count and one `(offsets, elements)` pair per attribute.
- **`AlleleCounter`** counts alternate alleles per locus during ingestion. It keeps an ordered `allele -> count` map and flattens it into three write buffers for the `allele_count` array.
- **`QCArrays`** is the per-locus variant statistics accumulator (`values_`) and the parallel write buffers of the `variant_qc` array.
- **`Logger`** covers the level handling: case-insensitive level names, the fallback for illegal names, `debug_enabled`, and the level part of `LOG_CONFIG`.

## Project layout

Each file is one module:

- `wrappers.dfy`: `Option` and `Result`.
- `storage_engine.dfy`: `uint32_t`/`int32_t`, the explicit wrap-around conversions, and `tiledb::Query::Status`.
- `text.dfy`: `std::string` ordering, the iteration order of a `std::map<std::string, _>` (`SortedKeys`), and decimal formatting.
- `var_columns.dfy`: a TileDB var-length column (a data buffer plus start offsets), with its decode round trip.
- `record_heap.dfy`, `read_query_results.dfy`, `allele_counter.dfy`, `qc_arrays.dfy`, `logger.dfy`: one class per component, with the specification functions and lemmas about it.

## How the model maps to the source

Every stateful component is a class whose fields are the C++ members. Each method states its new state in terms of a specification function of the old state. The lemmas beside the function state what the source promises: order, permutation, round trip, idempotence.

- **Storage-engine calls are parameters.** The write query becomes a function `submit` from the buffers to a query status. `query.result_buffer_elements()` becomes an input map; a name missing from it reads as `(0, 0)`, as `std::unordered_map::operator[]` gives.
- **htslib decoding is an input.** A record's genotype calls are a sequence of `Option<nat>` allele indices plus the record's allele strings.
- **`LOG_FATAL` is an outcome.** It is modelled as a `Fatal` flush outcome rather than as process exit.
- **The heap order is a parameter.** `RecordHeap`'s comparator lives in a header outside this model. The node order is therefore a parameter `le`, required to be a total preorder. The heap is abstracted to its contents kept in that order.
- **The `QCArrays` buffers are one field.** Its six write buffers (`contig_buffer_`, `contig_offsets_`, `pos_buffer_`, `allele_buffer_`, `allele_offsets_`, `attr_buffers_`) are held in one field `buffers` of type `QcBatch`, assigned together.
- **The `QCArrays` update rule is a parameter.** The rule by which a record changes the statistics of its locus is not part of this model. It is the function parameter `rule` of `Process`.

## Model

| member | source | states |
|---|---|---|
| StorageEngine.ToUint32 | libtiledbvcf/src/write/allele_counter.cc:105 | a count stored into the `uint32_t` buffer is kept when it fits in 32 bits |
| StorageEngine.ToUint32Congruent | libtiledbvcf/src/write/allele_counter.h:47-52 | the `int` to `uint32_t` conversion preserves the value modulo 2^32 |
| StorageEngine.Uint32ToInt32 | libtiledbvcf/src/write/qc_arrays.h:162-167 | a `uint32_t` position stored into the `int32_t` position buffer keeps its value modulo 2^32, and its exact value below 2^31 |
| Text.SortedKeys | libtiledbvcf/src/write/allele_counter.cc:102 | iterating a `std::map` visits one key per entry; `SortedKeysMembers` and `SortedKeysAscending` pin which keys and in what order |
| Text.SortedKeysMembers | libtiledbvcf/src/write/allele_counter.cc:102 | iterating a `std::map` visits exactly its keys |
| Text.SortedKeysAscending | libtiledbvcf/src/write/allele_counter.h:47 | a `std::map<std::string, _>` is iterated in strictly ascending key order, with no repeats |
| Text.SortedKeysFirst | libtiledbvcf/src/write/allele_counter.cc:102 | iteration starts at the least key and continues with the rest of the map |
| Text.LeastExists | libtiledbvcf/src/write/allele_counter.h:47 | every non-empty finite key set has a least key |
| Text.LeastUnique | libtiledbvcf/src/write/allele_counter.h:47 | that least key is unique |
| Text.LessTransitive | libtiledbvcf/src/write/allele_counter.h:47 | `std::string` ordering is transitive |
| Text.LessTrichotomous | libtiledbvcf/src/write/allele_counter.h:47 | `std::string` ordering is total |
| Text.NatToString | libtiledbvcf/src/write/allele_counter.cc:118 | `fmt::format("{}", pos)` is the decimal representation of `pos`: a non-empty run of digits whose value is `pos`, with no leading zero, one digit exactly for values below 10 |
| Text.NatToStringInjective | libtiledbvcf/src/write/allele_counter.cc:118 | distinct positions give distinct locus strings |
| VarColumns.AppendCell | libtiledbvcf/src/write/allele_counter.cc:103-104 | appending a cell pushes the old data length as its offset, then appends its characters |
| VarColumns.OffsetsValid | libtiledbvcf/src/write/allele_counter.cc:103-105 | the offsets are non-decreasing and within the data; they are strictly increasing and below its length when no cell is empty |
| VarColumns.DecodeConcat | libtiledbvcf/src/write/allele_counter.cc:103-104 | reading the data and offsets buffers back gives exactly the appended cells |
| IngestionHeap.InsertSorted | libtiledbvcf/src/write/record_heap.cc:69 | pushing a node keeps the contents in comparator order and adds exactly that node |
| IngestionHeap.PopSequenceSortedPermutation | libtiledbvcf/src/write/record_heap.cc:69-78 | popping until empty yields a permutation of the contents, in non-decreasing comparator order |
| IngestionHeap.SortedIsPopSequence | libtiledbvcf/src/write/record_heap.cc:72-78 | the heap's contents in comparator order are a valid sequence of top/pop results |
| IngestionHeap.RecordHeap.constructor | libtiledbvcf/src/write/record_heap.cc:32-39 | a new heap is empty, ordered by the given comparator |
| IngestionHeap.RecordHeap.Insert | libtiledbvcf/src/write/record_heap.cc:41-70 | fails exactly when `sort_start_pos < (uint32_t)record->pos`, leaving the heap unchanged; otherwise adds one node carrying exactly the arguments; every held node starts at or after its record |
| IngestionHeap.RecordHeap.Empty | libtiledbvcf/src/write/record_heap.cc:37-39 | true exactly when the heap holds no node |
| IngestionHeap.RecordHeap.Top | libtiledbvcf/src/write/record_heap.cc:72-74 | returns a held node that is minimal under the comparator, without changing the heap |
| IngestionHeap.RecordHeap.Pop | libtiledbvcf/src/write/record_heap.cc:76-78 | removes exactly one occurrence of the top node; every remaining node is at or after it |
| IngestionHeap.PopsToSnoc | libtiledbvcf/src/write/record_heap.cc:72-78 | one more top/pop extends the popped nodes by the minimal node of what is left |
| IngestionHeap.PopsToEmpty | libtiledbvcf/src/write/record_heap.cc:72-78 | popping down to nothing is a complete pop sequence |
| IngestionHeap.RecordHeap.Drain | libtiledbvcf/src/write/record_heap.cc:72-78 | taking top and pop until empty yields a pop sequence of the old contents, hence a sorted permutation of them, and leaves the heap empty |
| IngestionHeap.RecordHeap.Clear | libtiledbvcf/src/write/record_heap.cc:32-35 | the loop of pops terminates with the heap empty |
| ReadResults.CellCount | libtiledbvcf/src/read/read_query_results.cc:49-52 | the cell count: the offsets count of "sample" for V4, its data count otherwise |
| ReadResults.ExtraSizes | libtiledbvcf/src/read/read_query_results.cc:80-82 | the cleared extra-attribute map refilled with each extra attribute's reported size, `(0, 0)` when none is reported |
| ReadResults.AfterStep | libtiledbvcf/src/read/read_query_results.cc:44-87 | the snapshot after one `set_results` call, field by field |
| ReadResults.ExtraSizesExact | libtiledbvcf/src/read/read_query_results.cc:80-87 | after the clear-and-refill loop, the extra-attribute map has exactly the dataset's extra attributes as keys, each with its reported size |
| ReadResults.StaleExtraAttributesGone | libtiledbvcf/src/read/read_query_results.cc:80-82 | an attribute of an earlier step that is not an extra attribute now is gone |
| ReadResults.AfterStepIdempotent | libtiledbvcf/src/read/read_query_results.cc:40-101 | calling `set_results` twice with the same inputs leaves the same snapshot as calling it once |
| ReadResults.LatestStepWins | libtiledbvcf/src/read/read_query_results.cc:49-63 | sizes are overwritten, never accumulated; only the sample and contig sizes of a non-V4 step carry over from the previous step |
| ReadResults.ReadQueryResults.constructor | libtiledbvcf/src/read/read_query_results.cc:33-38 | no buffers, zero cells, every size pair `(0, 0)` (the sample and contig pairs from the initializer list, the others from `std::pair`'s default constructor), no extra attributes |
| ReadResults.ReadQueryResults.SetResults | libtiledbvcf/src/read/read_query_results.cc:40-101 | the snapshot the accessors read afterwards is the step function applied to the previous snapshot. It stores the buffer-set pointer as given, null included, and the status, sets the cell count from "sample" (offsets for V4, elements otherwise), refreshes the contig and sample sizes only for V4, and rebuilds the extra-attribute map |
| ReadResults.ReadQueryResults.SetSizes | libtiledbvcf/src/read/read_query_results.cc:49-63 | the cell count of the step, the sample and contig sizes refreshed only for V4, and the reported sizes of the fixed attributes |
| ReadResults.ReadQueryResults.RefillExtraSizes | libtiledbvcf/src/read/read_query_results.cc:80-82 | the clear-and-refill loop leaves the extra-attribute map equal to `ExtraSizes` of the dataset's extra attributes |
| ReadResults.ReadQueryResults.QueryStatusOf | libtiledbvcf/src/read/read_query_results.cc:103-105 | `query_status()` returns the status of the current snapshot |
| ReadResults.ReadQueryResults.Buffers | libtiledbvcf/src/read/read_query_results.cc:107-109 | `buffers()` returns the buffer-set pointer of the current snapshot |
| ReadResults.ReadQueryResults.NumCells | libtiledbvcf/src/read/read_query_results.cc:111-113 | `num_cells()` returns the cell count of the current snapshot |
| ReadResults.ReadQueryResults.SampleSize | libtiledbvcf/src/read/read_query_results.cc:115-117 | `sample_size()` returns the sample size pair of the current snapshot |
| ReadResults.ReadQueryResults.ContigSize | libtiledbvcf/src/read/read_query_results.cc:119-121 | `contig_size()` returns the contig size pair of the current snapshot |
| ReadResults.ReadQueryResults.AllelesSize | libtiledbvcf/src/read/read_query_results.cc:123-125 | `alleles_size()` returns the alleles size pair of the current snapshot |
| ReadResults.ReadQueryResults.IdSize | libtiledbvcf/src/read/read_query_results.cc:127-129 | `id_size()` returns the id size pair of the current snapshot |
| ReadResults.ReadQueryResults.FilterIdsSize | libtiledbvcf/src/read/read_query_results.cc:131-133 | `filter_ids_size()` returns the filter_ids size pair of the current snapshot |
| ReadResults.ReadQueryResults.InfoSize | libtiledbvcf/src/read/read_query_results.cc:135-137 | `info_size()` returns the info size pair of the current snapshot |
| ReadResults.ReadQueryResults.FmtSize | libtiledbvcf/src/read/read_query_results.cc:139-141 | `fmt_size()` returns the fmt size pair of the current snapshot |
| ReadResults.ReadQueryResults.ExtraAttrsSize | libtiledbvcf/src/read/read_query_results.cc:143-146 | `extra_attrs_size()` returns the extra-attribute size map of the current snapshot |
| ReadResults.AccessorsAfterStep | libtiledbvcf/src/read/read_query_results.cc:44-87 | after `set_results`, the accessors return the given buffers and status, the step's cell count, the reported sizes (sample and contig only for V4, otherwise the previous ones), and exactly the extra attributes with their reported sizes |
| AlleleCounting.Locus | libtiledbvcf/src/write/allele_counter.cc:118 | the locus string is the contig, a colon, and the decimal position |
| AlleleCounting.LocusChangesWithPosition | libtiledbvcf/src/write/allele_counter.cc:118-122 | on one contig the locus string changes exactly when the position does |
| AlleleCounting.CountCalls | libtiledbvcf/src/write/allele_counter.cc:125-133 | counting the record's calls one after another, never dropping an allele already counted |
| AlleleCounting.Key | libtiledbvcf/src/write/allele_counter.cc:104 | a buffered key is `locus + ":" + allele`, with the colon right after the locus |
| AlleleCounting.CountCallsTally | libtiledbvcf/src/write/allele_counter.cc:125-133 | after a record, each allele's count has grown by exactly the number of its non-missing, non-REF calls; the keys gained are exactly the alleles counted; every count stays at least 1 |
| AlleleCounting.RowKeys | libtiledbvcf/src/write/allele_counter.cc:102-104 | the cells appended for a locus, one per allele visited; `RowsAt` pins row i to `locus:allele` |
| AlleleCounting.RowCounts | libtiledbvcf/src/write/allele_counter.cc:102-105 | the counts appended for a locus, one per allele visited; `RowsAt` pins count i to the allele's count as `uint32_t` |
| AlleleCounting.RowsAt | libtiledbvcf/src/write/allele_counter.cc:102-105 | row i of a locus is the i-th allele's `locus:allele` key with its count converted to `uint32_t` |
| AlleleCounting.RowsSnoc | libtiledbvcf/src/write/allele_counter.cc:102-106 | visiting one more allele appends its key and its `uint32_t` count |
| AlleleCounting.CellsGiveConsistentBuffers | libtiledbvcf/src/write/allele_counter.cc:103-105 | the offsets and counts have equal length; the offsets are strictly increasing and lie within the allele string |
| AlleleCounting.ColumnAppend | libtiledbvcf/src/write/allele_counter.cc:103-104 | one push of offset and key keeps the allele string and offsets a column of the keys so far |
| AlleleCounting.RowStep | libtiledbvcf/src/write/allele_counter.cc:102-106 | one loop iteration extends the buffered keys and counts by the current allele's row |
| AlleleCounting.AppendRows | libtiledbvcf/src/write/allele_counter.cc:102-106 | the loop appends one row per map entry in ascending allele order: key `locus:allele`, offset at the old string length, and the count as `uint32_t` |
| AlleleCounting.AlleleCounter.constructor | libtiledbvcf/src/write/allele_counter.h:45-58 | empty map, empty locus, three empty buffers, no array open |
| AlleleCounting.AlleleCounter.Init | libtiledbvcf/src/write/allele_counter.cc:55-62 | opens the array; the counting state is unchanged |
| AlleleCounting.AlleleCounter.UpdateResults | libtiledbvcf/src/write/allele_counter.cc:100-109 | does nothing for an empty map; otherwise appends one row per entry in ascending allele order and empties the map; the buffer invariant is kept |
| AlleleCounting.AlleleCounter.Process | libtiledbvcf/src/write/allele_counter.cc:111-134 | the locus is `contig:pos`. On a locus change the previous locus is moved into the buffers first. Then each non-missing, non-REF call adds exactly 1 to its allele's count |
| AlleleCounting.AlleleCounter.CountRecord | libtiledbvcf/src/write/allele_counter.cc:125-133 | the genotype loop leaves the map equal to counting the calls one after another, every count still at least 1 |
| AlleleCounting.AlleleCounter.Submit | libtiledbvcf/src/write/allele_counter.cc:75-89 | hands the three buffers to the query. On COMPLETE it clears them; on any other status the outcome is fatal and they are kept |
| AlleleCounting.AlleleCounter.Flush | libtiledbvcf/src/write/allele_counter.cc:64-90 | skips, writing nothing and keeping the open locus, when no row is buffered. Otherwise it first moves the open locus into the buffers, then delivers exactly the buffered rows and counts |
| AlleleCounting.AlleleCounter.Finalize | libtiledbvcf/src/write/allele_counter.cc:92-98 | flushes, then closes the array if it is open; a second call closes nothing. With rows buffered it delivers them plus the open locus's rows and empties the map; the locus is kept |
| AlleleCounting.AlleleCounter.Destroy | libtiledbvcf/src/write/allele_counter.cc:10-15 | the destructor finalizes: with rows buffered it delivers them plus the open locus's rows and empties the map, as `finalize` does; unless the flush is fatal the array ends closed and the count buffer empty; the locus is kept |
| AlleleCounting.AlleleCounter.FlushIntended | libtiledbvcf/src/write/allele_counter.cc:64-90 | moves the open locus into the buffers before deciding whether anything is to be written; skips exactly when nothing is buffered or open |
| AlleleCounting.AlleleCounter.WriteOut | libtiledbvcf/src/write/allele_counter.cc:70-89 | moving the open locus into the buffers and submitting delivers the old rows plus the open locus's rows and empties the map |
| AlleleCounting.AlleleCounter.FinalizeIntended | libtiledbvcf/src/write/allele_counter.cc:92-98 | finalizing with the corrected flush delivers the open locus too |
| AlleleCounting.SingleAltRow | libtiledbvcf/src/write/allele_counter.cc:100-122 | one call of allele "T" at 1:100 becomes the single row `1:100:T` with count 1 |
| AlleleCounting.OpenLocusDroppedByFinalize | libtiledbvcf/src/write/allele_counter.cc:64-67 | with only one locus processed, `finalize` writes nothing, closes the array, and leaves that locus's counts unwritten |
| AlleleCounting.OpenLocusWrittenByIntendedFinalize | libtiledbvcf/src/write/allele_counter.cc:64-70 | with the corrected flush, the same scenario delivers the row `1:100:T` with count 1 |
| VariantQc.DimName | libtiledbvcf/src/write/qc_arrays.h:140-142 | each dimension's name is one of `contig`, `pos`, `allele` |
| VariantQc.AttrIndex | libtiledbvcf/src/write/qc_arrays.h:144 | each attribute's enumerator value is its position in declaration order, below `LAST_` |
| VariantQc.AttrName | libtiledbvcf/src/write/qc_arrays.h:145-146 | each attribute's name is one of `ac`, `n_hom`, `n_called`, `n_pass` |
| VariantQc.AttrNamesDistinct | libtiledbvcf/src/write/qc_arrays.h:144-146 | distinct attributes have distinct names |
| VariantQc.LocusRows | libtiledbvcf/src/write/qc_arrays.h:154-156 | a locus contributes one row per given allele |
| VariantQc.LocusRowsAt | libtiledbvcf/src/write/qc_arrays.h:154-156 | row i of a locus carries the locus, the i-th allele and that allele's statistics |
| VariantQc.LocusRowsStep | libtiledbvcf/src/write/qc_arrays.h:178-183 | visiting one more allele appends its row |
| VariantQc.PushStats | libtiledbvcf/src/write/qc_arrays.h:164-170 | one row pushes exactly one value onto every attribute's buffer (0 for a statistic never set), leaving the earlier values in place |
| VariantQc.PushRowEncodes | libtiledbvcf/src/write/qc_arrays.h:164-170 | pushing a row onto the buffers of some rows gives the buffers of those rows plus it |
| VariantQc.ColumnsAt | libtiledbvcf/src/write/qc_arrays.h:164-170 | cell i of every column comes from row i |
| VariantQc.BatchOfColumns | libtiledbvcf/src/write/qc_arrays.h:164-170 | the buffers are the columns of the rows: contig and allele as var-length columns, the positions, one vector per attribute |
| VariantQc.EncodesDecode | libtiledbvcf/src/write/qc_arrays.h:140-170 | every buffered row reads back as one cell keyed by (contig, pos, allele) with one `int32` per attribute |
| VariantQc.InOrderDistinctCells | libtiledbvcf/src/write/qc_arrays.h:114-115 | rows added in locus order, each once, never repeat a (contig, pos, allele) cell |
| VariantQc.AppendLocusInOrder | libtiledbvcf/src/write/qc_arrays.h:114-115 | a later locus's rows, in ascending allele order, keep the buffered rows ordered |
| VariantQc.LocusInOrder | libtiledbvcf/src/write/qc_arrays.h:154-156 | the same for the alleles of a `std::map` in iteration order |
| VariantQc.InOrderExtends | libtiledbvcf/src/write/qc_arrays.h:114-115 | ranking a newly seen contig after the others does not reorder the buffered rows |
| VariantQc.AppendLocus | libtiledbvcf/src/write/qc_arrays.h:178-183 | the loop pushes one row per allele of `values_`, in ascending allele order, onto the buffers |
| VariantQc.QcArrays.constructor | libtiledbvcf/src/write/qc_arrays.h:154-170 | no statistics and no buffered rows; the locus is ("", 0) and only contig "" has been seen, so any first record may follow |
| VariantQc.QcArrays.UpdateResults | libtiledbvcf/src/write/qc_arrays.h:178-183 | the statistics of the current locus become its rows, in ascending allele order, after every buffered row. `values_` is empty afterwards, and the buffered rows stay ordered by locus and allele |
| VariantQc.QcArrays.Store | libtiledbvcf/src/write/qc_arrays.h:178-183 | the buffers take the new batch and the statistics are emptied |
| VariantQc.QcArrays.MoveTo | libtiledbvcf/src/write/qc_arrays.h:114-115 | a following locus becomes current; every buffered row lies before it, and a newly seen contig ranks after every contig seen so far |
| VariantQc.QcArrays.Advance | libtiledbvcf/src/write/qc_arrays.h:180-183 | at a change of locus, the current locus's statistics become rows after every buffered row, `values_` is emptied, and the following locus becomes current |
| VariantQc.QcArrays.Fold | libtiledbvcf/src/write/qc_arrays.h:154-156 | a record at the current locus changes only the statistics |
| VariantQc.QcArrays.Process | libtiledbvcf/src/write/qc_arrays.h:111-128 | records must come in locus order. At a new locus the previous locus's statistics are moved into the buffers first, then the record is folded into the statistics. At the same locus only the statistics change. A newly seen contig ranks after every contig seen before, so a later record on yet another new contig can still follow |
| VariantQc.QcArrays.Flush | libtiledbvcf/src/write/qc_arrays.h:130-134 | hands exactly the buffered rows to the write query and resets every buffer to empty |
| VariantQc.SortedSingleton | libtiledbvcf/src/write/qc_arrays.h:154-156 | a map with one allele is iterated as just that allele |
| VariantQc.SingleAlleleLocus | libtiledbvcf/src/write/qc_arrays.h:178-183 | a locus whose statistics hold one allele becomes exactly one row, for that allele |
| VariantQc.StreamRowsDecode | libtiledbvcf/src/write/qc_arrays.h:164-170 | buffers holding the rows 1:100:T, 1:150:G, 2:10:C read back as contigs 1, 1, 2, alleles T, G, C and positions 100, 150, 10 |
| VariantQc.StreamAtFirstLocus | libtiledbvcf/src/write/qc_arrays.h:111-128 | two records at 1:100 after construction are accepted; they leave the locus at 1:100 with one allele's statistics and nothing buffered |
| VariantQc.StreamToSecondLocus | libtiledbvcf/src/write/qc_arrays.h:111-128 | a record at 1:150 moves the 1:100 statistics into the buffers as row 1:100:T |
| VariantQc.StreamToNewContig | libtiledbvcf/src/write/qc_arrays.h:111-128 | a record on contig 2, not seen before, is accepted and moves 1:150 into the buffers as row 1:150:G |
| VariantQc.LocusOrderedStream | libtiledbvcf/src/write/qc_arrays.h:111-134 | records at 1:100, 1:100, 1:150 and 2:10, then `update_results` and `flush`: the write query receives exactly the rows 1:100:T, 1:150:G, 2:10:C, in that order |
| Logging.ToLower | libtiledbvcf/src/utils/logger.cc:109 | `::tolower` maps 'A'..'Z' to 'a'..'z' and leaves every other character alone |
| Logging.Lowered | libtiledbvcf/src/utils/logger.cc:108-109 | every character of the name is lowered, and the length is kept |
| Logging.LevelFor | libtiledbvcf/src/utils/logger.cc:111-123 | the level the lowered name selects, by its first character in the order f, e, w, i, d, t; none for any other name |
| Logging.ChosenLevel | libtiledbvcf/src/utils/logger.cc:111-127 | the level `set_level` ends at: the selected one, or critical for an illegal name |
| Logging.LegalNames | libtiledbvcf/src/utils/logger.cc:111-123 | a name is legal exactly when it is non-empty and its first character, in either case, is one of f, e, w, i, d, t |
| Logging.FirstCharacterDecides | libtiledbvcf/src/utils/logger.cc:111-122 | two names with the same first character, in either case, select the same level |
| Logging.CaseInsensitive | libtiledbvcf/src/utils/logger.cc:108-109 | lowering the name beforehand changes nothing |
| Logging.LevelLetters | libtiledbvcf/src/utils/logger.cc:111-122 | f, e, w, i, d, t select critical, err, warn, info, debug, trace respectively |
| Logging.CriticalAlwaysEmitted | libtiledbvcf/src/utils/logger.cc:111-127 | no name turns logging off: critical messages always pass |
| Logging.Logger.Log | libtiledbvcf/src/utils/logger.cc:94-96 | a message is emitted exactly when its level passes the wrapped logger's level |
| Logging.Logger.constructor | libtiledbvcf/src/utils/logger.cc:62-73 | the level starts at critical and nothing has been emitted |
| Logging.Logger.SetLevel | libtiledbvcf/src/utils/logger.cc:106-129 | the level is the one the first lowered character selects. An illegal name, including the empty one, ends at critical after emitting exactly one warning naming the lowered input. The wrapped logger's level equals `level_` |
| Logging.Logger.DebugEnabled | libtiledbvcf/src/utils/logger.cc:154-156 | true exactly when debug messages pass the level filter |
| Logging.Config | libtiledbvcf/src/utils/logger.cc:167-171 | an empty level string leaves the logger unchanged; any other sets the level as `set_level` does and emits what it emits: nothing for a legal name, exactly one warning naming the lowered input for an illegal one |

## Left out

- Storage-engine calls are not modelled: array and schema creation, `init`'s array open, and query construction and submission. Submission is the parameter `submit`; the array is only an open/closed flag.
- htslib is not modelled: genotype decoding (`bcf_get_genotypes`, `bcf_gt_is_missing`, `bcf_gt_allele`), `bcf_seqname`, `VCF::get_end_pos`, and the reusable `dst_`/`ndst_` buffer. The calls come in already decoded.
- `IngestionHeap.RecordHeap.Drain` is the consumer's top/pop loop. The writer that runs it is not part of this model; the loop stands for it so that the pop-order lemmas apply to the class.
- `RecordHeap.Insert`'s error message text is not modelled. Its `to_string` of `record->pos + 1` and of the end position are formatting only.
- `IngestionHeap.RecordHeap.Top`: when several nodes tie under the comparator, which one `std::priority_queue` returns is not specified. The model returns one minimal node. The binary-heap array layout is not modelled.
- The `RecordHeap` comparator is declared in a header that is not part of this model, so the node order is a parameter.
- `ReadResults.ReadQueryResults.SetResults`: the `LOG_DEBUG` message and the `total_elements` tally are left out, because they only produce log output.
- `ReadResults.ReadQueryResults.constructor`: `query_status_` is not initialised by the constructor, so the model leaves it unspecified until the first `set_results`.
- Contigs, alleles and level names are sequences of characters, and offsets count characters. The source's offsets (`ac_allele_.size()`, the QC offsets) count bytes. The two agree only for ASCII contigs and alleles, which the model assumes.
- The `uint64_t` widths of the cell counts and offsets are not modelled. Natural numbers are used, since no wrap-around is reachable from sizes the storage engine reports.
- `AlleleCounting.AlleleCounter.Process`: the `int` counts in `allele_count_` are unbounded in the model. The source's signed overflow after 2^31 calls of one allele at one locus is undefined behaviour and is not modelled. The conversion to the `uint32_t` buffer is modelled modulo 2^32.
- `AlleleCounting.AlleleCounter.Process`: every counted call must name one of the record's alleles (`CallsInRange`). The source indexes `rec->d.allele` with `bcf_gt_allele` unchecked, so an out-of-range index is undefined behaviour that the model excludes.
- `AlleleCounting.AlleleCounter.Submit`: `LOG_FATAL` exits the process. Here it is the outcome `Fatal`, with the buffers kept.
- `AlleleCounting.AlleleCounter.Flush` (and `Finalize`, `Destroy`): requires `|acCount| > 0 ==> arrayOpen`, which excludes flushing buffered rows after `finalize` or before `init`. There the source builds its query on a null `array_` (allele_counter.cc:75 after :96), which is undefined behaviour.
- The `LOG_DEBUG` calls in `AlleleCounter::flush` are left out, because they only produce log output.
- The header/implementation drift of `AlleleCounter::init` (a `std::string` parameter and a `unique_ptr` context in the header, a `shared_ptr` context in the implementation) is an API mismatch with no behaviour to model.
- `qc_arrays.cc` is not part of this model. `QCArrays` models the declared state and documented contracts, and fixes a body for `update_results` that is a reconstruction, not the source's:
  - each string's start offset is pushed before the string is appended;
  - each row gets one value per attribute, 0 for a statistic never set;
  - `pos_` is stored into the `int32_t` buffer by two's-complement wrap-around (`Uint32ToInt32`).
- Other details of `qc_arrays.cc` are not captured:
  - how `ac`, `n_hom`, `n_called` and `n_pass` are computed; this is the parameter `rule`;
  - that a locus change is detected by comparing `(contig, pos)` with the current locus; this is inferred from the documentation and from `AlleleCounter::process`;
  - whether `flush` also moves the open locus into the buffers;
  - how `flush` reacts to the query status;
  - the constructor's initial locus; the model uses `("", 0)` and states it, together with the one contig `""` seen so far, so that any first record can follow.
- The static shared state of `QCArrays` (`array_`, `query_`, `query_lock_`, `enabled_`, `contig_records_`), the mutex, and `create`/`init`/`finalize`/`close` are not modelled. They belong to the concurrent storage-engine side.
- `VariantQc.QcArrays.Process`: "each record must be added exactly once" cannot be stated about a record the model does not see. The model requires only the locus order. It requires a new contig never to have been seen before, and the same contig never to go back in position.
- `VariantQc.QcArrays.Flush`: the source's `attr_buffers_` may hold an empty vector for an attribute after a reset. The model resets to no vectors; both read as empty through `operator[]`.
- Logger sinks are not modelled: spdlog's console and file sinks, the log pattern, the colour setting, `set_logfile`, the logfile part of `LOG_CONFIG`, `global_logger`, and the per-level wrappers `LOG_TRACE`…`LOG_ERROR`. They only route text to outputs.
- Logger filtering is modelled as spdlog's documented rule: a message passes when its level is at least the logger's level.
- `Logging.Logger.SetLevel`: the warning for an illegal name is sent through the global logger. The model sends it through the logger being set, which is the same object in the library's use through `LOG_CONFIG`/`LOG_SET_LEVEL`.
- `Logging.ToLower`: characters outside ASCII are left unchanged. Passing a negative `char` to `::tolower` is undefined behaviour in C++.
- `LOG_FATAL`'s `exit(1)` and `asc_timestamp` (libc `gmtime`/`asctime`) are not modelled. They involve process exit and the clock.

## Findings

| source | as written | input that shows it | evidently intended | confidence | as-written member | corrected member |
|---|---|---|---|---|---|---|
| libtiledbvcf/src/write/allele_counter.cc:64-70 | `flush` returns early when `ac_count_` is empty, before `update_results` moves the open locus into the buffers | a single record at locus 1:100 with one call of ALT allele "T", then `finalize`: nothing is written and the array is closed, so the count for `1:100:T` is lost | move the open locus into the buffers first, then skip only when nothing is buffered | medium, not executed | AlleleCounting.OpenLocusDroppedByFinalize | AlleleCounting.AlleleCounter.FlushIntended |
