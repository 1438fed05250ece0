/**
 * ReadQueryResults: the snapshot a read query leaves after each step — the
 * query status, the number of cells, and one (offset count, data element
 * count) pair per attribute, as reported by the storage engine.
 */
module ReadResults {
  import opened Wrappers
  import opened StorageEngine

  /** TileDBVCFDataset::Version */
  datatype Version = V2 | V3 | V4

  /** std::pair<uint64_t, uint64_t>: (offset elements, data elements) of one attribute. */
  datatype SizePair = SizePair(offsets: nat, elements: nat)

  /** The attribute names the snapshot reads by name. */
  const SAMPLE: string := "sample"
  const CONTIG: string := "contig"
  const ALLELES: string := "alleles"
  const ID: string := "id"
  const FILTER_IDS: string := "filter_ids"
  const INFO: string := "info"
  const FMT: string := "fmt"

  /**
   * `result_el[name]` on the result map of query.result_buffer_elements():
   * std::unordered_map::operator[] yields (0, 0) for a name the query did not report.
   */
  function SizeOf(resultEl: map<string, SizePair>, name: string): SizePair {
    if name in resultEl then resultEl[name] else SizePair(0, 0)
  }

  /** The number of cells: the offsets count of "sample" for V4, its data count otherwise. */
  function CellCount(version: Version, resultEl: map<string, SizePair>): nat {
    if version == V4 then SizeOf(resultEl, SAMPLE).offsets else SizeOf(resultEl, SAMPLE).elements
  }

  /** The extra-attribute map after one step: each extra attribute in turn set to its reported size. */
  function ExtraSizes(extraAttrs: seq<string>, resultEl: map<string, SizePair>): map<string, SizePair>
    decreases |extraAttrs|
  {
    if extraAttrs == [] then map[]
    else
      var last := extraAttrs[|extraAttrs| - 1];
      ExtraSizes(extraAttrs[..|extraAttrs| - 1], resultEl)[last := SizeOf(resultEl, last)]
  }

  /** The map holds every extra attribute and only those, each with its reported size. */
  lemma {:induction false} ExtraSizesExact(extraAttrs: seq<string>, resultEl: map<string, SizePair>)
    ensures ExtraSizes(extraAttrs, resultEl).Keys == set a | a in extraAttrs
    ensures forall a :: a in ExtraSizes(extraAttrs, resultEl) ==> ExtraSizes(extraAttrs, resultEl)[a] == SizeOf(resultEl, a)
    decreases |extraAttrs|
  {
    if extraAttrs != [] {
      var init := extraAttrs[..|extraAttrs| - 1];
      ExtraSizesExact(init, resultEl);
      assert extraAttrs == init + [extraAttrs[|extraAttrs| - 1]];
      assert forall x :: x in extraAttrs <==> x in init || x == extraAttrs[|extraAttrs| - 1];
    }
  }

  /** Everything the accessors of ReadQueryResults can return. */
  datatype Snapshot = Snapshot(
    buffers: Option<nat>,
    status: QueryStatus,
    numCells: nat,
    sampleSize: SizePair,
    contigSize: SizePair,
    allelesSize: SizePair,
    idSize: SizePair,
    filterIdsSize: SizePair,
    infoSize: SizePair,
    fmtSize: SizePair,
    extraAttrsSize: map<string, SizePair>)

  /** The inputs of one set_results call; `buffers` is the buffer-set pointer, None for nullptr. */
  datatype Step = Step(
    version: Version,
    extraAttrs: seq<string>,
    buffers: Option<nat>,
    status: QueryStatus,
    resultEl: map<string, SizePair>)

  /**
   * The snapshot after set_results: every field is overwritten from this
   * step, except that the sample and contig sizes keep their previous values
   * unless the dataset is V4.
   */
  function AfterStep(prev: Snapshot, step: Step): Snapshot {
    var r := step.resultEl;
    Snapshot(
      step.buffers,
      step.status,
      CellCount(step.version, r),
      if step.version == V4 then SizeOf(r, SAMPLE) else prev.sampleSize,
      if step.version == V4 then SizeOf(r, CONTIG) else prev.contigSize,
      SizeOf(r, ALLELES),
      SizeOf(r, ID),
      SizeOf(r, FILTER_IDS),
      SizeOf(r, INFO),
      SizeOf(r, FMT),
      ExtraSizes(step.extraAttrs, r))
  }

  /** Calling set_results twice with the same inputs is the same as calling it once. */
  lemma AfterStepIdempotent(prev: Snapshot, step: Step)
    ensures AfterStep(AfterStep(prev, step), step) == AfterStep(prev, step)
  {
  }

  /**
   * A new step overwrites, never accumulates: the snapshot after two steps
   * depends on the first only through the sample and contig sizes, and on
   * those only when the second step is not V4.
   */
  lemma LatestStepWins(prev: Snapshot, first: Step, second: Step)
    ensures var s := AfterStep(AfterStep(prev, first), second);
      var t := AfterStep(prev, second);
      && s.(sampleSize := t.sampleSize, contigSize := t.contigSize) == t
      && (second.version == V4 ==> s == t)
      && (second.version != V4 ==>
            s.sampleSize == AfterStep(prev, first).sampleSize &&
            s.contigSize == AfterStep(prev, first).contigSize)
  {
  }

  /**
   * After any step the extra-attribute sizes hold exactly the dataset's extra
   * attributes; an attribute of an earlier step that is not among them is gone.
   */
  lemma StaleExtraAttributesGone(prev: Snapshot, step: Step, name: string)
    requires name in prev.extraAttrsSize && name !in step.extraAttrs
    ensures name !in AfterStep(prev, step).extraAttrsSize
  {
    ExtraSizesExact(step.extraAttrs, step.resultEl);
  }

  class ReadQueryResults {
    var buffers: Option<nat>
    var queryStatus: QueryStatus
    var numCells: nat
    var sampleSize: SizePair
    var contigSize: SizePair
    var allelesSize: SizePair
    var idSize: SizePair
    var filterIdsSize: SizePair
    var infoSize: SizePair
    var fmtSize: SizePair
    var extraAttrsSize: map<string, SizePair>

    /** What the accessors return, as one snapshot. */
    function Current(): Snapshot
      reads this
    {
      Snapshot(buffers, queryStatus, numCells, sampleSize, contigSize, allelesSize, idSize,
               filterIdsSize, infoSize, fmtSize, extraAttrsSize)
    }

    /**
     * No buffers, no cells, every size pair (0, 0) (the pairs the
     * initializer list omits are value-initialised by std::pair's default
     * constructor) and no extra attributes. Only the status is left
     * indeterminate.
     */
    constructor ()
      ensures buffers == None && numCells == 0
      ensures sampleSize == SizePair(0, 0) && contigSize == SizePair(0, 0)
      ensures allelesSize == SizePair(0, 0) && idSize == SizePair(0, 0)
      ensures filterIdsSize == SizePair(0, 0) && infoSize == SizePair(0, 0)
      ensures fmtSize == SizePair(0, 0) && extraAttrsSize == map[]
    {
      buffers := None;
      numCells := 0;
      sampleSize := SizePair(0, 0);
      contigSize := SizePair(0, 0);
      allelesSize, idSize, filterIdsSize := SizePair(0, 0), SizePair(0, 0), SizePair(0, 0);
      infoSize, fmtSize := SizePair(0, 0), SizePair(0, 0);
      extraAttrsSize := map[];
    }

    /** ReadQueryResults::set_results */
    method SetResults(
      version: Version, extraAttrs: seq<string>, bufferSet: Option<nat>,
      status: QueryStatus, resultEl: map<string, SizePair>)
      modifies this
      ensures Current() == AfterStep(old(Current()), Step(version, extraAttrs, bufferSet, status, resultEl))
    {
      buffers, queryStatus := bufferSet, status;
      SetSizes(version, resultEl);
      RefillExtraSizes(extraAttrs, resultEl);
    }

    /**
     * The size part of set_results: the cell count, the contig and sample
     * sizes for V4 only, then the sizes of the fixed attributes.
     */
    method SetSizes(version: Version, resultEl: map<string, SizePair>)
      modifies this`numCells, this`sampleSize, this`contigSize, this`allelesSize
      modifies this`idSize, this`filterIdsSize, this`infoSize, this`fmtSize
      ensures numCells == CellCount(version, resultEl)
      ensures sampleSize == (if version == V4 then SizeOf(resultEl, SAMPLE) else old(sampleSize))
      ensures contigSize == (if version == V4 then SizeOf(resultEl, CONTIG) else old(contigSize))
      ensures allelesSize == SizeOf(resultEl, ALLELES) && idSize == SizeOf(resultEl, ID)
      ensures filterIdsSize == SizeOf(resultEl, FILTER_IDS)
      ensures infoSize == SizeOf(resultEl, INFO) && fmtSize == SizeOf(resultEl, FMT)
    {
      if version == V4 {
        numCells := SizeOf(resultEl, SAMPLE).offsets;
      } else {
        numCells := SizeOf(resultEl, SAMPLE).elements;
      }
      if version == V4 {
        contigSize, sampleSize := SizeOf(resultEl, CONTIG), SizeOf(resultEl, SAMPLE);
      }

      allelesSize, idSize, filterIdsSize := SizeOf(resultEl, ALLELES), SizeOf(resultEl, ID), SizeOf(resultEl, FILTER_IDS);
      infoSize, fmtSize := SizeOf(resultEl, INFO), SizeOf(resultEl, FMT);
    }

    /** The clear-and-refill loop of set_results over the dataset's extra attributes. */
    method RefillExtraSizes(extraAttrs: seq<string>, resultEl: map<string, SizePair>)
      modifies this`extraAttrsSize
      ensures extraAttrsSize == ExtraSizes(extraAttrs, resultEl)
    {
      extraAttrsSize := map[];
      for i := 0 to |extraAttrs|
        invariant extraAttrsSize == ExtraSizes(extraAttrs[..i], resultEl)
      {
        assert extraAttrs[..i + 1][..i] == extraAttrs[..i];
        extraAttrsSize := extraAttrsSize[extraAttrs[i] := SizeOf(resultEl, extraAttrs[i])];
      }
      assert extraAttrs[..|extraAttrs|] == extraAttrs;
    }

    // The accessors; AccessorsAfterStep states what they return after SetResults.

    /** ReadQueryResults::query_status */
    function QueryStatusOf(): (r: QueryStatus)
      reads this
    {
      queryStatus
    }

    /** ReadQueryResults::buffers */
    function Buffers(): (r: Option<nat>)
      reads this
    {
      buffers
    }

    /** ReadQueryResults::num_cells */
    function NumCells(): (r: nat)
      reads this
    {
      numCells
    }

    /** ReadQueryResults::sample_size */
    function SampleSize(): (r: SizePair)
      reads this
    {
      sampleSize
    }

    /** ReadQueryResults::contig_size */
    function ContigSize(): (r: SizePair)
      reads this
    {
      contigSize
    }

    /** ReadQueryResults::alleles_size */
    function AllelesSize(): (r: SizePair)
      reads this
    {
      allelesSize
    }

    /** ReadQueryResults::id_size */
    function IdSize(): (r: SizePair)
      reads this
    {
      idSize
    }

    /** ReadQueryResults::filter_ids_size */
    function FilterIdsSize(): (r: SizePair)
      reads this
    {
      filterIdsSize
    }

    /** ReadQueryResults::info_size */
    function InfoSize(): (r: SizePair)
      reads this
    {
      infoSize
    }

    /** ReadQueryResults::fmt_size */
    function FmtSize(): (r: SizePair)
      reads this
    {
      fmtSize
    }

    /** ReadQueryResults::extra_attrs_size */
    function ExtraAttrsSize(): (r: map<string, SizePair>)
      reads this
    {
      extraAttrsSize
    }
  }

  /**
   * What the accessors return after set_results: the buffers and status as
   * given, the cell count of the step, the V4-only sample and contig sizes,
   * the reported sizes of the fixed attributes and exactly the extra
   * attributes with their reported sizes.
   */
  lemma AccessorsAfterStep(results: ReadQueryResults, prev: Snapshot, step: Step)
    requires results.Current() == AfterStep(prev, step)
    ensures results.Buffers() == step.buffers && results.QueryStatusOf() == step.status
    ensures results.NumCells() == CellCount(step.version, step.resultEl)
    ensures step.version == V4 ==>
      results.SampleSize() == SizeOf(step.resultEl, SAMPLE) && results.ContigSize() == SizeOf(step.resultEl, CONTIG)
    ensures step.version != V4 ==> results.SampleSize() == prev.sampleSize && results.ContigSize() == prev.contigSize
    ensures results.AllelesSize() == SizeOf(step.resultEl, ALLELES) && results.IdSize() == SizeOf(step.resultEl, ID)
    ensures results.FilterIdsSize() == SizeOf(step.resultEl, FILTER_IDS)
    ensures results.InfoSize() == SizeOf(step.resultEl, INFO) && results.FmtSize() == SizeOf(step.resultEl, FMT)
    ensures results.ExtraAttrsSize().Keys == set a | a in step.extraAttrs
    ensures forall a :: a in results.ExtraAttrsSize() ==> results.ExtraAttrsSize()[a] == SizeOf(step.resultEl, a)
  {
    ExtraSizesExact(step.extraAttrs, step.resultEl);
  }
}
