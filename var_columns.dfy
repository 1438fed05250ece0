/**
 * A variable-length string column as a TileDB write query takes it: one
 * concatenated data buffer plus one uint64 start offset per cell. Both the
 * allele-count and the variant-QC write buffers are columns of this shape.
 */
module VarColumns {

  /** The data buffer: the cells one after another. */
  function Concat(cells: seq<string>): (r: string)
    decreases |cells|
  {
    if cells == [] then "" else Concat(cells[..|cells| - 1]) + cells[|cells| - 1]
  }

  /** The offsets buffer: where each cell starts in the data buffer. */
  function Offsets(cells: seq<string>): (r: seq<nat>)
    decreases |cells|
  {
    if cells == [] then [] else Offsets(cells[..|cells| - 1]) + [|Concat(cells[..|cells| - 1])|]
  }

  /** Appending one cell pushes the old data length as its offset and then the cell's characters. */
  lemma AppendCell(cells: seq<string>, cell: string)
    ensures Concat(cells + [cell]) == Concat(cells) + cell
    ensures Offsets(cells + [cell]) == Offsets(cells) + [|Concat(cells)|]
  {
    assert (cells + [cell])[..|cells|] == cells;
  }

  /** Offsets are increasing and every one lies within the data buffer. */
  ghost predicate OffsetsWellFormed(data: string, offsets: seq<nat>) {
    (forall i, j :: 0 <= i < j < |offsets| ==> offsets[i] <= offsets[j]) &&
    (forall i :: 0 <= i < |offsets| ==> offsets[i] <= |data|)
  }

  /** How a reader of the column recovers cell i: from its offset to the next one (or the end). */
  function Decode(data: string, offsets: seq<nat>): (r: seq<string>)
    requires OffsetsWellFormed(data, offsets)
    ensures |r| == |offsets|
  {
    seq(|offsets|, i requires 0 <= i < |offsets| =>
      data[offsets[i]..if i + 1 < |offsets| then offsets[i + 1] else |data|])
  }

  lemma {:induction false} OffsetsLength(cells: seq<string>)
    ensures |Offsets(cells)| == |cells|
    decreases |cells|
  {
    if cells != [] {
      OffsetsLength(cells[..|cells| - 1]);
    }
  }

  /** The offset of cell i is the length of everything before it. */
  lemma {:induction false} OffsetAt(cells: seq<string>, i: nat)
    requires i < |cells|
    ensures |Offsets(cells)| == |cells|
    ensures Offsets(cells)[i] == |Concat(cells[..i])|
    decreases |cells|
  {
    OffsetsLength(cells);
    var init := cells[..|cells| - 1];
    if i < |cells| - 1 {
      OffsetAt(init, i);
      assert init[..i] == cells[..i];
    } else {
      assert init == cells[..i];
    }
  }

  /** The data of a prefix of the cells is a prefix of the data. */
  lemma {:induction false} ConcatPrefix(cells: seq<string>, i: nat)
    requires i <= |cells|
    ensures Concat(cells) == Concat(cells[..i]) + Concat(cells[i..])
    decreases |cells|
  {
    if i < |cells| {
      var init := cells[..|cells| - 1];
      ConcatPrefix(init, i);
      assert init[..i] == cells[..i];
      assert cells[i..][..|cells[i..]| - 1] == init[i..];
    } else {
      assert cells[..i] == cells;
    }
  }

  lemma ConcatTwo(cells: seq<string>, i: nat)
    requires i < |cells|
    ensures Concat(cells[..i + 1]) == Concat(cells[..i]) + cells[i]
  {
    assert cells[..i + 1][..i] == cells[..i];
  }

  /**
   * The offsets are well formed, and strictly increasing with every offset
   * inside the data when no cell is empty.
   */
  lemma {:induction false} OffsetsValid(cells: seq<string>)
    ensures |Offsets(cells)| == |cells|
    ensures OffsetsWellFormed(Concat(cells), Offsets(cells))
    ensures (forall c :: c in cells ==> c != "") ==>
      (forall i, j :: 0 <= i < j < |cells| ==> Offsets(cells)[i] < Offsets(cells)[j]) &&
      (forall i :: 0 <= i < |cells| ==> Offsets(cells)[i] < |Concat(cells)|)
    decreases |cells|
  {
    OffsetsLength(cells);
    if cells != [] {
      var init := cells[..|cells| - 1];
      OffsetsValid(init);
      assert Offsets(cells) == Offsets(init) + [|Concat(init)|];
      assert Concat(cells) == Concat(init) + cells[|cells| - 1];
      if forall c :: c in cells ==> c != "" {
        assert cells[|cells| - 1] in cells;
        forall c | c in init ensures c != "" {
          assert c in cells;
        }
      }
    }
  }

  /** Round trip: decoding the two buffers gives back exactly the cells that were appended. */
  lemma DecodeConcat(cells: seq<string>)
    ensures OffsetsWellFormed(Concat(cells), Offsets(cells))
    ensures Decode(Concat(cells), Offsets(cells)) == cells
  {
    OffsetsValid(cells);
    var data, offsets := Concat(cells), Offsets(cells);
    var r := Decode(data, offsets);
    forall i | 0 <= i < |cells|
      ensures r[i] == cells[i]
    {
      OffsetAt(cells, i);
      ConcatPrefix(cells, i + 1);
      ConcatTwo(cells, i);
      var before := Concat(cells[..i]);
      var upTo := Concat(cells[..i + 1]);
      assert data == upTo + Concat(cells[i + 1..]);
      if i + 1 < |cells| {
        OffsetAt(cells, i + 1);
      }
      assert data[|before|..|upTo|] == cells[i];
    }
  }
}
