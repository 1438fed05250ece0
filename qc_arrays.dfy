/**
 * QCArrays: the per-locus variant statistics collected at ingestion time and
 * the write buffers of the variant_qc array.
 *
 * The class declaration and its documented contracts are modelled; how a
 * record updates the statistics of its locus is a parameter `rule` of
 * `Process`. The flattening of a locus into the buffers (PushRow,
 * AppendLocus) is a reconstruction of an implementation that is not part of
 * this model. The write query is an abstract sink `submit` that receives the
 * buffers and answers with a query status.
 */
module VariantQc {
  import opened StorageEngine
  import Text
  import VarColumns

  /** QCArrays::Dim: the dimensions of the array, in declaration order. */
  datatype Dim = DimContig | DimPos | DimAllele
  const DIM_STR: seq<string> := ["contig", "pos", "allele"]

  /** QCArrays::Attr: the statistics kept per allele, in declaration order (AC = 0). */
  datatype Attr = Ac | NHom | NCalled | NPass
  const ATTRS: seq<Attr> := [Ac, NHom, NCalled, NPass]
  /** QCArrays::Attr::LAST_ */
  const LAST: nat := 4
  const ATTR_STR: seq<string> := ["ac", "n_hom", "n_called", "n_pass"]

  /** The name of a dimension in the array schema. */
  function DimName(d: Dim): (s: string)
    ensures s in DIM_STR
  {
    match d
    case DimContig => DIM_STR[0]
    case DimPos => DIM_STR[1]
    case DimAllele => DIM_STR[2]
  }

  /** The integer value of an Attr enumerator: its position in ATTRS, below LAST. */
  function AttrIndex(a: Attr): (i: nat)
    ensures i < LAST && i < |ATTRS| && ATTRS[i] == a
  {
    match a
    case Ac => 0
    case NHom => 1
    case NCalled => 2
    case NPass => 3
  }

  /** The name of an attribute in the array schema. */
  function AttrName(a: Attr): (s: string)
    ensures s in ATTR_STR
  {
    ATTR_STR[AttrIndex(a)]
  }

  /** Every attribute has its own name, so each gets its own column. */
  lemma AttrNamesDistinct(a: Attr, b: Attr)
    requires AttrName(a) == AttrName(b)
    ensures a == b
  {
  }

  /** std::unordered_map<int, int32_t>: the statistics of one allele. */
  type Stats = map<Attr, int32>

  /** `values_`: allele -> statistics, for the alleles seen at the current locus. */
  type Values = map<string, Stats>

  /** A statistic read through std::unordered_map::operator[]: 0 when never set. */
  function StatOf(s: Stats, a: Attr): int32 {
    if a in s then s[a] else 0
  }

  /** One row of the variant_qc array: its (contig, pos, allele) cell and the allele's statistics. */
  datatype Row = Row(contig: string, pos: uint32, allele: string, stats: Stats)

  /** `values_[allele]` read through std::map::operator[]: no statistics for an unseen allele. */
  function StatsOf(values: Values, allele: string): Stats {
    if allele in values then values[allele] else map[]
  }

  /** The rows of one locus for the given alleles, in that order. */
  function LocusRows(contig: string, pos: uint32, values: Values, alleles: seq<string>): (r: seq<Row>)
    ensures |r| == |alleles|
    decreases |alleles|
  {
    if alleles == [] then []
    else
      var last := alleles[|alleles| - 1];
      LocusRows(contig, pos, values, alleles[..|alleles| - 1]) + [Row(contig, pos, last, StatsOf(values, last))]
  }

  /** Visiting one more allele appends its row. */
  lemma LocusRowsStep(
    contig: string, pos: uint32, values: Values, rows: seq<Row>, done: seq<string>, allele: string, rowsNow: seq<Row>)
    requires rowsNow == rows + LocusRows(contig, pos, values, done)
    ensures rowsNow + [Row(contig, pos, allele, StatsOf(values, allele))]
      == rows + LocusRows(contig, pos, values, done + [allele])
  {
    assert (done + [allele])[..|done|] == done;
  }

  /** Row i of a locus is the row of its i-th allele. */
  lemma {:induction false} LocusRowsAt(contig: string, pos: uint32, values: Values, alleles: seq<string>, i: nat)
    requires i < |alleles|
    ensures LocusRows(contig, pos, values, alleles)[i] == Row(contig, pos, alleles[i], StatsOf(values, alleles[i]))
    decreases |alleles|
  {
    if i < |alleles| - 1 {
      LocusRowsAt(contig, pos, values, alleles[..|alleles| - 1], i);
    }
  }

  /** The "contig" cells of the rows. */
  function ContigCells(rows: seq<Row>): (r: seq<string>)
    ensures |r| == |rows|
    decreases |rows|
  {
    if rows == [] then [] else ContigCells(rows[..|rows| - 1]) + [rows[|rows| - 1].contig]
  }

  /** The "allele" cells of the rows. */
  function AlleleCells(rows: seq<Row>): (r: seq<string>)
    ensures |r| == |rows|
    decreases |rows|
  {
    if rows == [] then [] else AlleleCells(rows[..|rows| - 1]) + [rows[|rows| - 1].allele]
  }

  /** `pos_buffer_`: the positions, stored as int32_t. */
  function PosColumn(rows: seq<Row>): (r: seq<int32>)
    ensures |r| == |rows|
    decreases |rows|
  {
    if rows == [] then [] else PosColumn(rows[..|rows| - 1]) + [Uint32ToInt32(rows[|rows| - 1].pos)]
  }

  /** `attr_buffers_[a]`: one value of attribute `a` per row. */
  function AttrColumn(rows: seq<Row>, a: Attr): (r: seq<int32>)
    ensures |r| == |rows|
    decreases |rows|
  {
    if rows == [] then [] else AttrColumn(rows[..|rows| - 1], a) + [StatOf(rows[|rows| - 1].stats, a)]
  }

  /** Cell i of every column comes from row i. */
  lemma {:induction false} ColumnsAt(rows: seq<Row>, i: nat)
    requires i < |rows|
    ensures ContigCells(rows)[i] == rows[i].contig
    ensures AlleleCells(rows)[i] == rows[i].allele
    ensures PosColumn(rows)[i] == Uint32ToInt32(rows[i].pos)
    ensures forall a :: AttrColumn(rows, a)[i] == StatOf(rows[i].stats, a)
    decreases |rows|
  {
    if i < |rows| - 1 {
      ColumnsAt(rows[..|rows| - 1], i);
    }
  }

  /** All the write buffers: the var-length contig and allele columns, the positions, one column per attribute. */
  datatype QcBatch = QcBatch(
    contigs: string,
    contigOffsets: seq<nat>,
    positions: seq<int32>,
    alleles: string,
    alleleOffsets: seq<nat>,
    attrs: map<Attr, seq<int32>>)

  /** The buffers when nothing is buffered: empty strings and vectors, no attribute vector yet. */
  const EMPTY_BATCH: QcBatch := QcBatch("", [], [], "", [], map[])

  /** `attr_buffers_[a]` through std::unordered_map::operator[]: an empty vector until first used. */
  function Col(attrs: map<Attr, seq<int32>>, a: Attr): seq<int32> {
    if a in attrs then attrs[a] else []
  }

  /** Pushes one value of every attribute onto its vector. */
  function PushStats(attrs: map<Attr, seq<int32>>, stats: Stats): (r: map<Attr, seq<int32>>)
    ensures forall a :: Col(r, a) == Col(attrs, a) + [StatOf(stats, a)]
  {
    var r := map[
      Ac := Col(attrs, Ac) + [StatOf(stats, Ac)],
      NHom := Col(attrs, NHom) + [StatOf(stats, NHom)],
      NCalled := Col(attrs, NCalled) + [StatOf(stats, NCalled)],
      NPass := Col(attrs, NPass) + [StatOf(stats, NPass)]];
    assert forall a :: Col(r, a) == Col(attrs, a) + [StatOf(stats, a)] by {
      forall a ensures Col(r, a) == Col(attrs, a) + [StatOf(stats, a)] {
        if a.Ac? {
        } else if a.NHom? {
        } else if a.NCalled? {
        } else {
        }
      }
    }
    r
  }

  /** Appending one row: push both offsets, append both strings, push the position and each statistic. */
  function PushRow(b: QcBatch, r: Row): QcBatch {
    QcBatch(
      b.contigs + r.contig,
      b.contigOffsets + [|b.contigs|],
      b.positions + [Uint32ToInt32(r.pos)],
      b.alleles + r.allele,
      b.alleleOffsets + [|b.alleles|],
      PushStats(b.attrs, r.stats))
  }

  /** The buffers after pushing `rows`, one after another, onto empty buffers. */
  function BatchOf(rows: seq<Row>): QcBatch
    decreases |rows|
  {
    if rows == [] then EMPTY_BATCH else PushRow(BatchOf(rows[..|rows| - 1]), rows[|rows| - 1])
  }

  /** The buffers hold exactly `rows`. */
  ghost predicate Encodes(b: QcBatch, rows: seq<Row>) {
    b == BatchOf(rows)
  }

  /** Pushing a row onto the buffers of `rows` gives the buffers of `rows + [r]`. */
  lemma PushRowEncodes(b: QcBatch, rows: seq<Row>, r: Row)
    requires Encodes(b, rows)
    ensures Encodes(PushRow(b, r), rows + [r])
  {
    assert (rows + [r])[..|rows|] == rows;
  }

  /**
   * The buffers of `rows` are its columns: the contig and allele cells as
   * var-length columns, the positions, and one vector per attribute.
   */
  lemma {:induction false} BatchOfColumns(rows: seq<Row>)
    ensures BatchOf(rows).contigs == VarColumns.Concat(ContigCells(rows))
    ensures BatchOf(rows).contigOffsets == VarColumns.Offsets(ContigCells(rows))
    ensures BatchOf(rows).positions == PosColumn(rows)
    ensures BatchOf(rows).alleles == VarColumns.Concat(AlleleCells(rows))
    ensures BatchOf(rows).alleleOffsets == VarColumns.Offsets(AlleleCells(rows))
    ensures forall a :: Col(BatchOf(rows).attrs, a) == AttrColumn(rows, a)
    decreases |rows|
  {
    if rows != [] {
      var init := rows[..|rows| - 1];
      BatchOfColumns(init);
      VarColumns.AppendCell(ContigCells(init), rows[|rows| - 1].contig);
      VarColumns.AppendCell(AlleleCells(init), rows[|rows| - 1].allele);
    }
  }

  /**
   * What a reader of the array gets back: every buffered row is one cell of
   * each column, with its contig, allele, position and one int32 per
   * attribute, in buffer order.
   */
  lemma EncodesDecode(b: QcBatch, rows: seq<Row>)
    requires Encodes(b, rows)
    ensures VarColumns.OffsetsWellFormed(b.contigs, b.contigOffsets)
    ensures VarColumns.OffsetsWellFormed(b.alleles, b.alleleOffsets)
    ensures var contigs := VarColumns.Decode(b.contigs, b.contigOffsets);
      var alleles := VarColumns.Decode(b.alleles, b.alleleOffsets);
      && |contigs| == |alleles| == |b.positions| == |rows|
      && (forall a :: |Col(b.attrs, a)| == |rows|)
      && forall i :: 0 <= i < |rows| ==>
           && contigs[i] == rows[i].contig
           && alleles[i] == rows[i].allele
           && b.positions[i] == Uint32ToInt32(rows[i].pos)
           && (forall a :: Col(b.attrs, a)[i] == StatOf(rows[i].stats, a))
  {
    BatchOfColumns(rows);
    VarColumns.DecodeConcat(ContigCells(rows));
    VarColumns.DecodeConcat(AlleleCells(rows));
    forall i | 0 <= i < |rows| {
      ColumnsAt(rows, i);
    }
  }

  /** The visiting order of the loci: earlier contig, or the same contig at a smaller position. */
  ghost predicate LocusBefore(rank: map<string, nat>, c1: string, p1: int, c2: string, p2: int) {
    && c1 in rank && c2 in rank
    && (rank[c1] < rank[c2] || (c1 == c2 && p1 < p2))
  }

  /** Row order: by locus, then by allele within a locus. */
  ghost predicate RowBefore(rank: map<string, nat>, r1: Row, r2: Row) {
    || LocusBefore(rank, r1.contig, r1.pos, r2.contig, r2.pos)
    || (r1.contig == r2.contig && r1.pos == r2.pos && Text.Less(r1.allele, r2.allele))
  }

  /** The rows are strictly ordered by locus and allele. */
  ghost predicate InOrder(rank: map<string, nat>, rows: seq<Row>) {
    forall i, j :: 0 <= i < j < |rows| ==> RowBefore(rank, rows[i], rows[j])
  }

  /**
   * Rows in order never repeat a (contig, pos, allele) cell: the buffers can
   * be written in global order without duplicates.
   */
  lemma InOrderDistinctCells(rank: map<string, nat>, rows: seq<Row>, i: nat, j: nat)
    requires InOrder(rank, rows) && i < j < |rows|
    ensures (rows[i].contig, rows[i].pos, rows[i].allele) != (rows[j].contig, rows[j].pos, rows[j].allele)
  {
    Text.LessIrreflexive(rows[i].allele);
  }

  /**
   * The rows of a locus that comes after every buffered row, taken in
   * strictly ascending allele order, keep the buffer in order.
   */
  lemma AppendLocusInOrder(
    rank: map<string, nat>, rows: seq<Row>, contig: string, pos: uint32, values: Values, alleles: seq<string>)
    requires InOrder(rank, rows)
    requires forall r :: r in rows ==> LocusBefore(rank, r.contig, r.pos, contig, pos)
    requires Text.StrictlyAscending(alleles)
    ensures InOrder(rank, rows + LocusRows(contig, pos, values, alleles))
  {
    var added := LocusRows(contig, pos, values, alleles);
    var all := rows + added;
    forall i, j | 0 <= i < j < |all|
      ensures RowBefore(rank, all[i], all[j])
    {
      if j < |rows| {
        assert all[i] == rows[i] && all[j] == rows[j];
      } else if i < |rows| {
        assert all[i] in rows;
        LocusRowsAt(contig, pos, values, alleles, j - |rows|);
      } else {
        assert all[i] == added[i - |rows|] && all[j] == added[j - |rows|];
        LocusRowsAt(contig, pos, values, alleles, i - |rows|);
        LocusRowsAt(contig, pos, values, alleles, j - |rows|);
      }
    }
  }

  /** The rows of a locus after every buffered row, in std::map order, keep the buffer in order. */
  lemma LocusInOrder(rank: map<string, nat>, rows: seq<Row>, contig: string, pos: uint32, values: Values)
    requires InOrder(rank, rows)
    requires forall r :: r in rows ==> LocusBefore(rank, r.contig, r.pos, contig, pos)
    ensures InOrder(rank, rows + LocusRows(contig, pos, values, Text.SortedKeys(values.Keys)))
  {
    Text.SortedKeysAscending(values.Keys);
    AppendLocusInOrder(rank, rows, contig, pos, values, Text.SortedKeys(values.Keys));
  }

  /** `rank'` ranks every contig `rank` does, the same way. */
  ghost predicate Extends(rank: map<string, nat>, rank': map<string, nat>) {
    forall c :: c in rank ==> c in rank' && rank'[c] == rank[c]
  }

  /** Ranking contigs seen later does not reorder the rows. */
  lemma InOrderExtends(rank: map<string, nat>, rank': map<string, nat>, rows: seq<Row>)
    requires InOrder(rank, rows) && Extends(rank, rank')
    ensures InOrder(rank', rows)
  {
  }

  /**
   * The loop of update_results over the alleles of one locus: visits them in
   * std::map order and pushes one row per allele onto the buffers.
   */
  method AppendLocus(contig: string, pos: uint32, values: Values, b: QcBatch, ghost rows: seq<Row>)
    returns (b': QcBatch, ghost rows': seq<Row>)
    requires Encodes(b, rows)
    ensures Encodes(b', rows')
    ensures rows' == rows + LocusRows(contig, pos, values, Text.SortedKeys(values.Keys))
  {
    var remaining := values.Keys;
    b', rows' := b, rows;
    ghost var done: seq<string> := [];
    while remaining != {}
      invariant remaining <= values.Keys
      invariant Text.SortedKeys(values.Keys) == done + Text.SortedKeys(remaining)
      invariant rows' == rows + LocusRows(contig, pos, values, done)
      invariant Encodes(b', rows')
      decreases |remaining|
    {
      Text.LeastExists(remaining);
      var allele :| Text.IsLeast(allele, remaining);
      Text.SortedKeysVisit(values.Keys, done, remaining, allele);
      var row := Row(contig, pos, allele, values[allele]);
      PushRowEncodes(b', rows', row);
      LocusRowsStep(contig, pos, values, rows, done, allele, rows');
      b' := PushRow(b', row);
      rows' := rows' + [row];
      done := done + [allele];
      remaining := remaining - {allele};
    }
    assert Text.SortedKeys(remaining) == [];
    assert done + [] == done;
  }

  /** The contig ranks after moving from `current` to `next`: a contig not seen before ranks after every other. */
  ghost function Ranked(rank: map<string, nat>, current: string, next: string): map<string, nat>
    requires current in rank
  {
    if next == current then rank else rank[next := rank[current] + 1]
  }

  class QcArrays {
    /** `values_` */
    var values: Values
    /** `contig_` and `pos_`: the current locus. */
    var contig: string
    var pos: uint32
    /**
     * The write buffers `contig_buffer_`, `contig_offsets_`, `pos_buffer_`,
     * `allele_buffer_`, `allele_offsets_` and `attr_buffers_`, held together.
     */
    var buffers: QcBatch
    /** The rows the buffers hold, in the order they were appended. */
    ghost var rows: seq<Row>
    /** The order in which contigs were first seen: contig -> rank. */
    ghost var rank: map<string, nat>

    /**
     * The buffers hold the rows; the current contig is the latest one seen;
     * the rows are in order and none lies after the current locus.
     */
    ghost predicate Valid()
      reads this
    {
      && Encodes(buffers, rows)
      && contig in rank
      && (forall c :: c in rank ==> rank[c] <= rank[contig])
      && InOrder(rank, rows)
      && (forall r :: r in rows ==>
            LocusBefore(rank, r.contig, r.pos, contig, pos) || (r.contig == contig && r.pos == pos))
    }

    /** Every buffered row lies strictly before the current locus (true between records). */
    ghost predicate Settled()
      reads this
    {
      forall r :: r in rows ==> LocusBefore(rank, r.contig, r.pos, contig, pos)
    }

    /** The record order `process` demands: same contig at no smaller position, or a contig not seen before. */
    ghost predicate CanFollow(contig': string, pos': uint32)
      reads this
    {
      if contig' == contig then pos <= pos' else contig' !in rank
    }

    /**
     * No statistics, nothing buffered, locus ("", 0). Any first record can
     * follow it: one on contig "" at any position, or one on any other contig.
     */
    constructor ()
      ensures Valid() && Settled()
      ensures values == map[] && rows == [] && buffers == EMPTY_BATCH
      ensures contig == "" && pos == 0 && rank == map["" := 0]
    {
      values := map[];
      contig := "";
      pos := 0;
      buffers := EMPTY_BATCH;
      rows := [];
      rank := map["" := 0];
    }

    /**
     * QCArrays::update_results: moves the statistics of the current locus
     * into the buffers, one row per allele in ascending allele order, and
     * starts afresh for the next locus.
     */
    method UpdateResults()
      requires Valid() && Settled()
      modifies this`values, this`buffers, this`rows
      ensures Valid()
      ensures values == map[]
      ensures rows == old(rows) + LocusRows(old(contig), old(pos), old(values), Text.SortedKeys(old(values).Keys))
    {
      var b: QcBatch;
      ghost var rows': seq<Row>;
      b, rows' := AppendLocus(contig, pos, values, buffers, rows);
      assert InOrder(rank, rows') by {
        LocusInOrder(rank, rows, contig, pos, values);
      }
      assert forall r :: r in rows' ==>
          LocusBefore(rank, r.contig, r.pos, contig, pos) || (r.contig == contig && r.pos == pos) by {
        forall r | r in rows'
          ensures LocusBefore(rank, r.contig, r.pos, contig, pos) || (r.contig == contig && r.pos == pos)
        {
          var i :| 0 <= i < |rows'| && rows'[i] == r;
          if i >= |rows| {
            LocusRowsAt(contig, pos, values, Text.SortedKeys(values.Keys), i - |rows|);
          }
        }
      }
      Store(b, rows');
    }

    /** Replaces the buffers by `b`, which holds `rows'`, and clears the statistics. */
    method Store(b: QcBatch, ghost rows': seq<Row>)
      requires Valid() && Encodes(b, rows') && InOrder(rank, rows')
      requires forall r :: r in rows' ==>
        LocusBefore(rank, r.contig, r.pos, contig, pos) || (r.contig == contig && r.pos == pos)
      modifies this`values, this`buffers, this`rows
      ensures Valid()
      ensures values == map[] && rows == rows' && buffers == b
    {
      buffers, rows, values := b, rows', map[];
    }

    /**
     * QCArrays::process: records arrive in locus order. A record at a new
     * locus first moves the statistics of the previous locus into the
     * buffers; then `rule` folds the record into the statistics.
     */
    method Process(contig': string, pos': uint32, rule: Values -> Values)
      requires Valid() && Settled()
      requires CanFollow(contig', pos')
      modifies this`values, this`buffers, this`rows, this`contig, this`pos, this`rank
      ensures Valid() && Settled()
      ensures contig == contig' && pos == pos'
      ensures rank == Ranked(old(rank), old(contig), contig')
      ensures (contig', pos') == old((contig, pos)) ==>
        values == rule(old(values)) && rows == old(rows) && buffers == old(buffers)
      ensures (contig', pos') != old((contig, pos)) ==>
        && values == rule(map[])
        && rows == old(rows) + LocusRows(old(contig), old(pos), old(values), Text.SortedKeys(old(values).Keys))
    {
      if contig' != contig || pos' != pos {
        Advance(contig', pos');
      }
      Fold(rule);
    }

    /** Moves the current locus's statistics into the buffers and makes (contig', pos') current. */
    method Advance(contig': string, pos': uint32)
      requires Valid() && Settled()
      requires CanFollow(contig', pos') && (contig', pos') != (contig, pos)
      modifies this`values, this`buffers, this`rows, this`contig, this`pos, this`rank
      ensures Valid() && Settled()
      ensures contig == contig' && pos == pos'
      ensures rank == Ranked(old(rank), old(contig), contig')
      ensures values == map[]
      ensures rows == old(rows) + LocusRows(old(contig), old(pos), old(values), Text.SortedKeys(old(values).Keys))
    {
      UpdateResults();
      MoveTo(contig', pos');
    }

    /** Folds a record at the current locus into the statistics. */
    method Fold(rule: Values -> Values)
      requires Valid() && Settled()
      modifies this`values
      ensures Valid() && Settled()
      ensures values == rule(old(values))
    {
      values := rule(values);
    }

    /** Makes (contig', pos'), which follows the current locus, the current locus. */
    method MoveTo(contig': string, pos': uint32)
      requires Valid() && CanFollow(contig', pos') && (contig', pos') != (contig, pos)
      modifies this`contig, this`pos, this`rank
      ensures Valid() && Settled()
      ensures contig == contig' && pos == pos'
      ensures rank == Ranked(old(rank), old(contig), contig')
    {
      var rank' := Ranked(rank, contig, contig');
      InOrderExtends(rank, rank', rows);
      contig, pos, rank := contig', pos', rank';
    }

    /**
     * QCArrays::flush: hands the buffered rows to the write query and resets
     * every buffer; the statistics of the current locus stay collected.
     */
    method Flush(submit: QcBatch -> QueryStatus) returns (status: QueryStatus)
      requires Valid()
      modifies this`buffers, this`rows
      ensures Valid() && Settled()
      ensures Encodes(old(buffers), old(rows))
      ensures status == submit(old(buffers))
      ensures rows == [] && buffers == EMPTY_BATCH
    {
      status := submit(buffers);
      buffers := EMPTY_BATCH;
      rows := [];
    }
  }

  /** The statistics a stand-in update rule records for an allele: called once. */
  const CALLED_ONCE: Stats := map[NCalled := 1]

  /** A stand-in update rule: the record marks `allele` as called once at the current locus. */
  function Called(allele: string): (rule: Values -> Values)
    ensures forall v :: rule(v) == v[allele := CALLED_ONCE]
  {
    (v: Values) => v[allele := CALLED_ONCE]
  }

  /** A map with a single key is iterated as just that key. */
  lemma SortedSingleton(a: string)
    ensures Text.SortedKeys({a}) == [a]
  {
    Text.SortedKeysMembers({a});
    assert Text.SortedKeys({a})[0] in {a};
  }

  /** A locus whose statistics hold one allele writes one row, for that allele. */
  lemma SingleAlleleLocus(contig: string, pos: uint32, allele: string, stats: Stats)
    ensures LocusRows(contig, pos, map[allele := stats], Text.SortedKeys(map[allele := stats].Keys))
      == [Row(contig, pos, allele, stats)]
  {
    assert map[allele := stats].Keys == {allele};
    SortedSingleton(allele);
  }

  /** The rows of the stream below: one per locus, in locus order. */
  const STREAM_ROWS: seq<Row> :=
    [Row("1", 100, "T", CALLED_ONCE), Row("1", 150, "G", CALLED_ONCE), Row("2", 10, "C", CALLED_ONCE)]

  /** Reading back buffers that hold STREAM_ROWS gives their contigs, alleles and positions. */
  lemma StreamRowsDecode(b: QcBatch)
    requires Encodes(b, STREAM_ROWS)
    ensures VarColumns.OffsetsWellFormed(b.contigs, b.contigOffsets)
    ensures VarColumns.OffsetsWellFormed(b.alleles, b.alleleOffsets)
    ensures VarColumns.Decode(b.contigs, b.contigOffsets) == ["1", "1", "2"]
    ensures VarColumns.Decode(b.alleles, b.alleleOffsets) == ["T", "G", "C"]
    ensures b.positions == [100, 150, 10]
  {
    EncodesDecode(b, STREAM_ROWS);
    assert Uint32ToInt32(100) == 100 && Uint32ToInt32(150) == 150 && Uint32ToInt32(10) == 10;
  }

  /** The first two records of the stream below: both at 1:100, both called T. */
  method StreamAtFirstLocus() returns (q: QcArrays)
    ensures fresh(q) && q.Valid() && q.Settled()
    ensures q.contig == "1" && q.pos == 100 && q.rank == map["" := 0, "1" := 1]
    ensures q.values == map["T" := CALLED_ONCE] && q.rows == []
  {
    q := new QcArrays();
    q.Process("1", 100, Called("T"));
    q.Process("1", 100, Called("T"));
  }

  /** The third record, at 1:150, writes the first locus's row. */
  method StreamToSecondLocus(q: QcArrays)
    requires q.Valid() && q.Settled()
    requires q.contig == "1" && q.pos == 100 && q.rank == map["" := 0, "1" := 1]
    requires q.values == map["T" := CALLED_ONCE] && q.rows == []
    modifies q
    ensures q.Valid() && q.Settled()
    ensures q.contig == "1" && q.pos == 150 && q.rank == map["" := 0, "1" := 1]
    ensures q.values == map["G" := CALLED_ONCE] && q.rows == STREAM_ROWS[..1]
  {
    SingleAlleleLocus("1", 100, "T", CALLED_ONCE);
    q.Process("1", 150, Called("G"));
  }

  /** The fourth record, on contig 2 not seen before, writes the second locus's row. */
  method StreamToNewContig(q: QcArrays)
    requires q.Valid() && q.Settled()
    requires q.contig == "1" && q.pos == 150 && q.rank == map["" := 0, "1" := 1]
    requires q.values == map["G" := CALLED_ONCE] && q.rows == STREAM_ROWS[..1]
    modifies q
    ensures q.Valid() && q.Settled()
    ensures q.contig == "2" && q.pos == 10
    ensures q.values == map["C" := CALLED_ONCE] && q.rows == STREAM_ROWS[..2]
  {
    SingleAlleleLocus("1", 150, "G", CALLED_ONCE);
    q.Process("2", 10, Called("C"));
  }

  /**
   * A record stream in locus order: two records at 1:100, one at 1:150,
   * then one on a contig not seen before, 2:10; then update_results and
   * flush. The write query receives exactly the three loci's rows, in that
   * order.
   */
  method LocusOrderedStream(submit: QcBatch -> QueryStatus) returns (status: QueryStatus, sent: QcBatch)
    ensures Encodes(sent, STREAM_ROWS)
    ensures status == submit(sent)
  {
    var q := StreamAtFirstLocus();
    StreamToSecondLocus(q);
    StreamToNewContig(q);
    SingleAlleleLocus("2", 10, "C", CALLED_ONCE);
    q.UpdateResults();
    sent := q.buffers;
    status := q.Flush(submit);
  }
}
