/**
 * AlleleCounter: an ingestion task that counts, per locus, the non-REF,
 * non-missing genotype calls of each allele in an ordered allele -> count map,
 * and when the locus changes flattens that map into three append-only write
 * buffers (a concatenated "contig:pos:allele" string, its uint64 offsets and
 * the uint32 counts) that `flush` submits to the allele-count array.
 *
 * htslib decoding is left out: a record's genotype calls arrive as a sequence
 * of allele indices (None for a missing call) together with its allele strings.
 * The TileDB write query is an abstract sink `submit` that receives the three
 * buffers and answers with a query status.
 */
module AlleleCounting {
  import opened Wrappers
  import opened StorageEngine
  import Text
  import VarColumns

  /** One decoded genotype call: None when missing, otherwise the allele index (0 is REF). */
  type Call = Option<nat>

  /** A call that `process` counts: present and not the reference allele. */
  predicate Counted(c: Call) {
    c.Some? && c.value != 0
  }

  /**
   * Every counted call names one of the record's alleles. `process` indexes
   * `rec->d.allele` with the call's allele without checking it, so an
   * out-of-range index is undefined behaviour there; the model excludes it.
   */
  predicate CallsInRange(calls: seq<Call>, alleles: seq<string>) {
    forall i :: 0 <= i < |calls| && Counted(calls[i]) ==> calls[i].value < |alleles|
  }

  /** fmt::format("{}:{}", contig, pos) */
  function Locus(contig: string, pos: uint32): (l: string)
    ensures |l| > |contig| + 1 && l[..|contig|] == contig && l[|contig|] == ':'
    ensures l[|contig| + 1..] == Text.NatToString(pos)
  {
    contig + ":" + Text.NatToString(pos)
  }

  /**
   * On one contig the locus string changes exactly when the position does,
   * so `process` starts a new locus at every new position.
   */
  lemma LocusChangesWithPosition(contig: string, p: uint32, q: uint32)
    ensures Locus(contig, p) == Locus(contig, q) <==> p == q
  {
    if Locus(contig, p) == Locus(contig, q) {
      Text.NatToStringInjective(p, q);
    }
  }

  /** fmt::format("{}:{}", locus_, allele): the cell written to the "allele" dimension. */
  function Key(locus: string, allele: string): (k: string)
    ensures |k| == |locus| + 1 + |allele| && k[|locus|] == ':'
  {
    locus + ":" + allele
  }

  /** `allele_count_[a]` read as std::map::operator[] does: 0 for an absent allele. */
  function Get(m: map<string, int>, a: string): int {
    if a in m then m[a] else 0
  }

  /** The accumulator after counting `calls` on top of `m`, one call after another. */
  function CountCalls(m: map<string, int>, calls: seq<Call>, alleles: seq<string>): (r: map<string, int>)
    requires CallsInRange(calls, alleles)
    ensures m.Keys <= r.Keys
    decreases |calls|
  {
    if calls == [] then m
    else
      var before := CountCalls(m, calls[..|calls| - 1], alleles);
      var c := calls[|calls| - 1];
      if Counted(c) then before[alleles[c.value] := Get(before, alleles[c.value]) + 1] else before
  }

  /** How many of the calls are counted calls of allele `a`: the independent tally. */
  function Occurrences(calls: seq<Call>, alleles: seq<string>, a: string): nat
    requires CallsInRange(calls, alleles)
    decreases |calls|
  {
    if calls == [] then 0
    else
      var c := calls[|calls| - 1];
      Occurrences(calls[..|calls| - 1], alleles, a) +
        (if Counted(c) && alleles[c.value] == a then 1 else 0)
  }

  /** The allele strings that the counted calls name. */
  function CountedAlleles(calls: seq<Call>, alleles: seq<string>): set<string>
    requires CallsInRange(calls, alleles)
    decreases |calls|
  {
    if calls == [] then {}
    else
      var c := calls[|calls| - 1];
      CountedAlleles(calls[..|calls| - 1], alleles) + (if Counted(c) then {alleles[c.value]} else {})
  }

  /**
   * Counting adds exactly one per counted call of an allele: every allele's
   * count grows by the number of its counted calls, the alleles present are
   * the old ones plus those named by counted calls, and every count stays
   * positive.
   */
  lemma {:induction false} CountCallsTally(m: map<string, int>, calls: seq<Call>, alleles: seq<string>)
    requires CallsInRange(calls, alleles)
    ensures forall a :: Get(CountCalls(m, calls, alleles), a) == Get(m, a) + Occurrences(calls, alleles, a)
    ensures CountCalls(m, calls, alleles).Keys == m.Keys + CountedAlleles(calls, alleles)
    ensures (forall a :: a in m ==> m[a] >= 1) ==>
      forall a :: a in CountCalls(m, calls, alleles) ==> CountCalls(m, calls, alleles)[a] >= 1
    decreases |calls|
  {
    if calls != [] {
      var init := calls[..|calls| - 1];
      assert CallsInRange(init, alleles) by {
        forall i | 0 <= i < |init| && Counted(init[i])
          ensures init[i].value < |alleles|
        {
          assert init[i] == calls[i];
        }
      }
      CountCallsTally(m, init, alleles);
    }
  }

  /**
   * The cells update_results appends for the alleles of one locus, in map order.
   * The contract gives only the length; `RowsAt` states each cell, apart
   * from this function so that its quantifier is not in scope wherever
   * RowKeys and RowCounts are used.
   */
  function RowKeys(locus: string, alleles: seq<string>): (r: seq<string>)
    ensures |r| == |alleles|
    decreases |alleles|
  {
    if alleles == [] then []
    else RowKeys(locus, alleles[..|alleles| - 1]) + [Key(locus, alleles[|alleles| - 1])]
  }

  /** The counts update_results appends, each converted from int to uint32_t. */
  function RowCounts(m: map<string, int>, alleles: seq<string>): (r: seq<uint32>)
    ensures |r| == |alleles|
    decreases |alleles|
  {
    if alleles == [] then []
    else RowCounts(m, alleles[..|alleles| - 1]) + [ToUint32(Get(m, alleles[|alleles| - 1]))]
  }

  /** Row i of a locus is the i-th allele's key, with its count converted to uint32_t. */
  lemma {:induction false} RowsAt(locus: string, m: map<string, int>, alleles: seq<string>, i: nat)
    requires i < |alleles|
    ensures RowKeys(locus, alleles)[i] == Key(locus, alleles[i])
    ensures RowCounts(m, alleles)[i] == ToUint32(Get(m, alleles[i]))
    decreases |alleles|
  {
    if i < |alleles| - 1 {
      RowsAt(locus, m, alleles[..|alleles| - 1], i);
    }
  }

  lemma RowsSnoc(locus: string, m: map<string, int>, alleles: seq<string>, a: string)
    ensures RowKeys(locus, alleles + [a]) == RowKeys(locus, alleles) + [Key(locus, a)]
    ensures RowCounts(m, alleles + [a]) == RowCounts(m, alleles) + [ToUint32(Get(m, a))]
  {
    assert (alleles + [a])[..|alleles|] == alleles;
  }

  /**
   * The write buffers agree with each other: one offset per count, the offsets
   * strictly increasing from 0, and every offset inside the allele string.
   */
  ghost predicate BuffersConsistent(acAllele: string, offsets: seq<nat>, counts: seq<uint32>) {
    && |offsets| == |counts|
    && (|offsets| > 0 ==> offsets[0] == 0)
    && (forall i, j :: 0 <= i < j < |offsets| ==> offsets[i] < offsets[j])
    && (forall i :: 0 <= i < |offsets| ==> offsets[i] < |acAllele|)
  }

  /** Buffers built by appending non-empty cells, one count per cell, are consistent. */
  lemma CellsGiveConsistentBuffers(cells: seq<string>, counts: seq<uint32>)
    requires |counts| == |cells|
    requires forall c :: c in cells ==> c != ""
    ensures BuffersConsistent(VarColumns.Concat(cells), VarColumns.Offsets(cells), counts)
  {
    VarColumns.OffsetsValid(cells);
    if cells != [] {
      VarColumns.OffsetAt(cells, 0);
      assert cells[..0] == [];
    }
  }

  /** `data` and `offsets` are the column of the non-empty `cells`. */
  ghost predicate Column(data: string, offsets: seq<nat>, cells: seq<string>) {
    && data == VarColumns.Concat(cells)
    && offsets == VarColumns.Offsets(cells)
    && (forall c :: c in cells ==> c != "")
  }

  /** Pushing the data length as offset, then appending a non-empty cell, keeps the column. */
  lemma ColumnAppend(data: string, offsets: seq<nat>, cells: seq<string>, cell: string)
    requires Column(data, offsets, cells) && cell != ""
    ensures Column(data + cell, offsets + [|data|], cells + [cell])
  {
    VarColumns.AppendCell(cells, cell);
  }

  /** Appending the row of one more allele extends the rows of the alleles visited so far. */
  lemma RowStep(
    locus: string, counts: map<string, int>, cells: seq<string>, countColumn: seq<uint32>,
    done: seq<string>, allele: string, cellsNow: seq<string>, countsNow: seq<uint32>)
    requires cellsNow == cells + RowKeys(locus, done)
    requires countsNow == countColumn + RowCounts(counts, done)
    requires allele in counts
    ensures cellsNow + [Key(locus, allele)] == cells + RowKeys(locus, done + [allele])
    ensures countsNow + [ToUint32(counts[allele])] == countColumn + RowCounts(counts, done + [allele])
  {
    RowsSnoc(locus, counts, done, allele);
  }

  /**
   * The loop of update_results over the allele -> count map of one locus:
   * visits the alleles in std::map order and, for each, pushes the offset,
   * appends the "locus:allele" cell and pushes the count.
   */
  method AppendRows(
    locus: string, counts: map<string, int>,
    data: string, offsets: seq<nat>, countColumn: seq<uint32>, ghost cells: seq<string>)
    returns (data': string, offsets': seq<nat>, countColumn': seq<uint32>, ghost cells': seq<string>)
    requires Column(data, offsets, cells)
    ensures Column(data', offsets', cells')
    ensures var order := Text.SortedKeys(counts.Keys);
      && cells' == cells + RowKeys(locus, order)
      && countColumn' == countColumn + RowCounts(counts, order)
  {
    var remaining := counts.Keys;
    data', offsets', countColumn', cells' := data, offsets, countColumn, cells;
    ghost var done: seq<string> := [];
    while remaining != {}
      invariant remaining <= counts.Keys
      invariant Text.SortedKeys(counts.Keys) == done + Text.SortedKeys(remaining)
      invariant cells' == cells + RowKeys(locus, done)
      invariant countColumn' == countColumn + RowCounts(counts, done)
      invariant Column(data', offsets', cells')
      decreases |remaining|
    {
      Text.LeastExists(remaining);
      var allele :| Text.IsLeast(allele, remaining);
      Text.SortedKeysVisit(counts.Keys, done, remaining, allele);
      RowStep(locus, counts, cells, countColumn, done, allele, cells', countColumn');
      var key := Key(locus, allele);
      ColumnAppend(data', offsets', cells', key);
      offsets' := offsets' + [|data'|];
      data' := data' + key;
      countColumn' := countColumn' + [ToUint32(counts[allele])];
      cells' := cells' + [key];
      done := done + [allele];
      remaining := remaining - {allele};
    }
    assert Text.SortedKeys(remaining) == [];
    assert done + [] == done;
  }

  /** What one flush hands to the write query: the three buffers. */
  datatype Batch = Batch(alleles: string, offsets: seq<nat>, counts: seq<uint32>)

  /** Skipped: returned early. Written: submitted, COMPLETE. Fatal: not COMPLETE, LOG_FATAL exits. */
  datatype FlushOutcome = Skipped | Written(batch: Batch) | Fatal(batch: Batch)

  /**
   * `outcome` handed the write query a consistent batch whose cells decode to
   * `rows` and whose counts are `counts`; it is Written exactly when the query
   * reported COMPLETE.
   */
  ghost predicate Delivered(outcome: FlushOutcome, rows: seq<string>, counts: seq<uint32>, submit: Batch -> QueryStatus) {
    && !outcome.Skipped?
    && BuffersConsistent(outcome.batch.alleles, outcome.batch.offsets, outcome.batch.counts)
    && VarColumns.OffsetsWellFormed(outcome.batch.alleles, outcome.batch.offsets)
    && VarColumns.Decode(outcome.batch.alleles, outcome.batch.offsets) == rows
    && outcome.batch.counts == counts
    && (outcome.Written? <==> submit(outcome.batch) == Complete)
  }

  class AlleleCounter {
    var alleleCount: map<string, int>
    var locus: string
    var acAllele: string
    var acAlleleOffsets: seq<nat>
    var acCount: seq<uint32>
    /** `array_ != nullptr` */
    var arrayOpen: bool
    /** The cells of `acAllele`, in the order they were appended. */
    ghost var cells: seq<string>

    ghost predicate Valid()
      reads this
    {
      && Column(acAllele, acAlleleOffsets, cells)
      && |acCount| == |cells|
      && (forall a :: a in alleleCount ==> alleleCount[a] >= 1)
    }

    /** The three buffers as one batch. */
    function Pending(): Batch
      reads this
    {
      Batch(acAllele, acAlleleOffsets, acCount)
    }

    /** Nothing counted, nothing buffered, no array open, the reusable genotype buffer unallocated. */
    constructor ()
      ensures Valid()
      ensures alleleCount == map[] && locus == ""
      ensures cells == [] && acAllele == "" && acAlleleOffsets == [] && acCount == []
      ensures !arrayOpen
    {
      alleleCount := map[];
      locus := "";
      acAllele := "";
      acAlleleOffsets := [];
      acCount := [];
      arrayOpen := false;
      cells := [];
    }

    /** AlleleCounter::init, reduced to its effect on this object: the array is open for writing. */
    method Init()
      requires Valid()
      modifies this`arrayOpen
      ensures Valid() && arrayOpen
    {
      arrayOpen := true;
    }

    /**
     * AlleleCounter::update_results: when anything is counted, appends one row
     * per allele in ascending allele order, then empties the accumulator.
     */
    method UpdateResults()
      requires Valid()
      modifies this`alleleCount, this`acAllele, this`acAlleleOffsets, this`acCount, this`cells
      ensures Valid()
      ensures alleleCount == map[]
      ensures var order := Text.SortedKeys(old(alleleCount).Keys);
        && cells == old(cells) + RowKeys(locus, order)
        && acCount == old(acCount) + RowCounts(old(alleleCount), order)
    {
      if |alleleCount| > 0 {
        acAllele, acAlleleOffsets, acCount, cells :=
          AppendRows(locus, alleleCount, acAllele, acAlleleOffsets, acCount, cells);
        alleleCount := map[];
      } else {
        assert alleleCount.Keys == {};
      }
    }

    /**
     * AlleleCounter::process: on a new locus the previous one is moved into
     * the buffers first; then every counted call adds one to its allele.
     */
    method Process(contig: string, pos: uint32, calls: seq<Call>, alleles: seq<string>)
      requires Valid() && CallsInRange(calls, alleles)
      modifies this`alleleCount, this`locus, this`acAllele, this`acAlleleOffsets, this`acCount, this`cells
      ensures Valid()
      ensures locus == Locus(contig, pos)
      ensures Locus(contig, pos) == old(locus) ==>
        && alleleCount == CountCalls(old(alleleCount), calls, alleles)
        && cells == old(cells) && acCount == old(acCount)
      ensures Locus(contig, pos) != old(locus) ==>
        && alleleCount == CountCalls(map[], calls, alleles)
        && var order := Text.SortedKeys(old(alleleCount).Keys);
           && cells == old(cells) + RowKeys(old(locus), order)
           && acCount == old(acCount) + RowCounts(old(alleleCount), order)
    {
      var newLocus := Locus(contig, pos);
      if newLocus != locus {
        UpdateResults();
        locus := newLocus;
      }

      CountRecord(calls, alleles);
    }

    /** The genotype loop of `process`: each non-missing, non-REF call adds one to its allele. */
    method CountRecord(calls: seq<Call>, alleles: seq<string>)
      requires CallsInRange(calls, alleles)
      requires forall a :: a in alleleCount ==> alleleCount[a] >= 1
      modifies this`alleleCount
      ensures alleleCount == CountCalls(old(alleleCount), calls, alleles)
      ensures forall a :: a in alleleCount ==> alleleCount[a] >= 1
    {
      ghost var start := alleleCount;
      for i := 0 to |calls|
        invariant CallsInRange(calls[..i], alleles)
        invariant alleleCount == CountCalls(start, calls[..i], alleles)
        invariant forall a :: a in alleleCount ==> alleleCount[a] >= 1
      {
        assert calls[..i + 1][..i] == calls[..i];
        var c := calls[i];
        if c.None? || c.value == 0 {
          continue;
        }
        var allele := alleles[c.value];
        alleleCount := alleleCount[allele := Get(alleleCount, allele) + 1];
      }
      assert calls[..|calls|] == calls;
    }

    /**
     * The write step shared by both flushes: submit the three buffers; on
     * COMPLETE empty them, otherwise leave them (LOG_FATAL follows).
     */
    method Submit(submit: Batch -> QueryStatus) returns (outcome: FlushOutcome)
      requires Valid()
      modifies this`acAllele, this`acAlleleOffsets, this`acCount, this`cells
      ensures Valid()
      ensures Delivered(outcome, old(cells), old(acCount), submit) && outcome.batch == old(Pending())
      ensures outcome.Written? ==> cells == [] && Pending() == Batch("", [], [])
      ensures outcome.Fatal? ==> cells == old(cells) && Pending() == old(Pending())
    {
      var batch := Pending();
      VarColumns.DecodeConcat(cells);
      CellsGiveConsistentBuffers(cells, acCount);
      var st := submit(batch);
      if st != Complete {
        return Fatal(batch);
      }

      acAllele := "";
      acAlleleOffsets := [];
      acCount := [];
      cells := [];
      outcome := Written(batch);
    }

    /**
     * AlleleCounter::flush, as written: returns at once when no row is
     * buffered — even when the accumulator still holds the open locus —
     * otherwise moves the open locus into the buffers, submits all three, and
     * empties them once the query reports COMPLETE.
     */
    method Flush(submit: Batch -> QueryStatus) returns (outcome: FlushOutcome)
      requires Valid()
      requires |acCount| > 0 ==> arrayOpen
      modifies this`alleleCount, this`acAllele, this`acAlleleOffsets, this`acCount, this`cells
      ensures Valid()
      ensures old(|acCount|) == 0 ==>
        outcome == Skipped && alleleCount == old(alleleCount) && cells == old(cells) && acCount == old(acCount)
      ensures old(|acCount|) > 0 ==>
        var order := Text.SortedKeys(old(alleleCount).Keys);
        && Delivered(outcome, old(cells) + RowKeys(old(locus), order),
                     old(acCount) + RowCounts(old(alleleCount), order), submit)
        && alleleCount == map[]
      ensures outcome.Written? ==> cells == [] && Pending() == Batch("", [], [])
    {
      if |acCount| == 0 {
        return Skipped;
      }

      UpdateResults();

      outcome := Submit(submit);
    }

    /**
     * AlleleCounter::finalize: flushes, then closes the array if it is open.
     * `closed` tells whether this call closed it; a second finalize closes nothing.
     */
    method Finalize(submit: Batch -> QueryStatus) returns (outcome: FlushOutcome, closed: bool)
      requires Valid()
      requires |acCount| > 0 ==> arrayOpen
      modifies this`alleleCount, this`acAllele, this`acAlleleOffsets, this`acCount, this`cells, this`arrayOpen
      ensures Valid()
      ensures old(|acCount|) == 0 ==>
        outcome == Skipped && alleleCount == old(alleleCount) && cells == old(cells) && acCount == old(acCount)
      ensures old(|acCount|) > 0 ==>
        var order := Text.SortedKeys(old(alleleCount).Keys);
        && Delivered(outcome, old(cells) + RowKeys(old(locus), order),
                     old(acCount) + RowCounts(old(alleleCount), order), submit)
        && alleleCount == map[]
      ensures !outcome.Fatal? ==> !arrayOpen && (closed <==> old(arrayOpen)) && acCount == []
      ensures locus == old(locus)
    {
      outcome := Flush(submit);
      closed := false;
      if outcome.Fatal? {
        return;
      }
      if arrayOpen {
        arrayOpen := false;
        closed := true;
      }
    }

    /** AlleleCounter::~AlleleCounter: frees the genotype buffer (not modelled) and finalizes. */
    method Destroy(submit: Batch -> QueryStatus) returns (outcome: FlushOutcome, closed: bool)
      requires Valid()
      requires |acCount| > 0 ==> arrayOpen
      modifies this`alleleCount, this`acAllele, this`acAlleleOffsets, this`acCount, this`cells, this`arrayOpen
      ensures Valid()
      ensures old(|acCount|) == 0 ==>
        outcome == Skipped && alleleCount == old(alleleCount) && cells == old(cells) && acCount == old(acCount)
      ensures old(|acCount|) > 0 ==>
        var order := Text.SortedKeys(old(alleleCount).Keys);
        && Delivered(outcome, old(cells) + RowKeys(old(locus), order),
                     old(acCount) + RowCounts(old(alleleCount), order), submit)
        && alleleCount == map[]
      ensures !outcome.Fatal? ==> !arrayOpen && (closed <==> old(arrayOpen)) && acCount == []
      ensures locus == old(locus)
    {
      outcome, closed := Finalize(submit);
    }

    /**
     * The evidently intended flush: it skips only when nothing is buffered
     * and nothing is open; otherwise the open locus is moved into the buffers
     * before they are written, so nothing counted is ever left behind.
     */
    method FlushIntended(submit: Batch -> QueryStatus) returns (outcome: FlushOutcome)
      requires Valid()
      requires |acCount| > 0 || |alleleCount| > 0 ==> arrayOpen
      modifies this`alleleCount, this`acAllele, this`acAlleleOffsets, this`acCount, this`cells
      ensures Valid()
      ensures alleleCount == map[]
      ensures outcome.Skipped? <==> old(|acCount|) == 0 && old(|alleleCount|) == 0
      ensures !outcome.Skipped? ==>
        var order := Text.SortedKeys(old(alleleCount).Keys);
        Delivered(outcome, old(cells) + RowKeys(old(locus), order),
                  old(acCount) + RowCounts(old(alleleCount), order), submit)
      ensures !outcome.Fatal? ==> cells == [] && Pending() == Batch("", [], [])
    {
      if |acCount| == 0 && |alleleCount| == 0 {
        assert alleleCount.Keys == {};
        assert cells == [] && Pending() == Batch("", [], []) by {
          assert cells == [];
          assert VarColumns.Concat([]) == "" && VarColumns.Offsets([]) == [];
        }
        return Skipped;
      }

      outcome := WriteOut(submit);
    }

    /**
     * The part both flushes share once they go ahead: move the open locus
     * into the buffers, then submit them.
     */
    method WriteOut(submit: Batch -> QueryStatus) returns (outcome: FlushOutcome)
      requires Valid()
      modifies this`alleleCount, this`acAllele, this`acAlleleOffsets, this`acCount, this`cells
      ensures Valid()
      ensures alleleCount == map[]
      ensures var order := Text.SortedKeys(old(alleleCount).Keys);
        Delivered(outcome, old(cells) + RowKeys(old(locus), order),
                  old(acCount) + RowCounts(old(alleleCount), order), submit)
      ensures outcome.Written? ==> cells == [] && Pending() == Batch("", [], [])
    {
      UpdateResults();
      outcome := Submit(submit);
    }

    /** finalize over the intended flush. */
    method FinalizeIntended(submit: Batch -> QueryStatus) returns (outcome: FlushOutcome, closed: bool)
      requires Valid()
      requires |acCount| > 0 || |alleleCount| > 0 ==> arrayOpen
      modifies this
      ensures Valid()
      ensures alleleCount == map[]
      ensures outcome.Skipped? <==> old(|acCount|) == 0 && old(|alleleCount|) == 0
      ensures !outcome.Skipped? ==>
        var order := Text.SortedKeys(old(alleleCount).Keys);
        Delivered(outcome, old(cells) + RowKeys(old(locus), order),
                  old(acCount) + RowCounts(old(alleleCount), order), submit)
      ensures !outcome.Fatal? ==> !arrayOpen && (closed <==> old(arrayOpen)) && acCount == []
    {
      outcome := FlushIntended(submit);
      closed := false;
      if outcome.Fatal? {
        return;
      }
      if arrayOpen {
        arrayOpen := false;
        closed := true;
      }
    }
  }

  /** The rows that locus 1:100 with one ALT call of "T" becomes. */
  lemma SingleAltRow()
    ensures Locus("1", 100) == "1:100"
    ensures RowKeys("1:100", Text.SortedKeys({"T"})) == ["1:100:T"]
    ensures RowCounts(map["T" := 1], Text.SortedKeys({"T"})) == [1]
  {
    assert Text.IsLeast("T", {"T"});
    Text.SortedKeysFirst("T", {"T"});
    assert Text.SortedKeys({"T"}) == ["T"];
    assert Text.NatToString(100) == "100";
    assert ["T"][..0] == [];
    assert Key("1:100", "T") == "1:100:T";
    assert RowKeys("1:100", ["T"]) == RowKeys("1:100", []) + [Key("1:100", "T")];
  }

  /**
   * Counterexample to the as-written flush: one record at one locus with an
   * ALT call, then finalize. Nothing is submitted, and the count of "T" is
   * still in the accumulator when the array is closed.
   */
  method OpenLocusDroppedByFinalize(submit: Batch -> QueryStatus)
    returns (outcome: FlushOutcome, closed: bool, leftOver: map<string, int>)
    ensures outcome == Skipped && closed
    ensures leftOver == map["T" := 1]
  {
    var counter := new AlleleCounter();
    counter.Init();
    counter.Process("1", 100, [Some(0), Some(1)], ["A", "T"]);
    outcome, closed := counter.Finalize(submit);
    leftOver := counter.alleleCount;
  }

  /** The same record under the intended flush: its row reaches the write query. */
  method OpenLocusWrittenByIntendedFinalize(submit: Batch -> QueryStatus)
    returns (outcome: FlushOutcome, closed: bool, leftOver: map<string, int>)
    ensures leftOver == map[]
    ensures Delivered(outcome, ["1:100:T"], [1], submit)
  {
    SingleAltRow();
    var counter := new AlleleCounter();
    counter.Init();
    counter.Process("1", 100, [Some(0), Some(1)], ["A", "T"]);
    assert counter.alleleCount == map["T" := 1];
    assert counter.locus == "1:100" && counter.cells == [] && counter.acCount == [];
    outcome, closed := counter.FinalizeIntended(submit);
    leftOver := counter.alleleCount;
  }
}
