/**
 * The parts of the TileDB storage engine and of htslib that the core sees:
 * fixed-width integer ranges and the status a query reports.
 */
module StorageEngine {

  const TWO_TO_32: int := 0x1_0000_0000

  /** uint32_t */
  type uint32 = x: int | 0 <= x < TWO_TO_32

  /** int32_t */
  type int32 = x: int | -0x8000_0000 <= x < 0x8000_0000

  /**
   * Conversion of any integer to uint32_t: reduction modulo 2^32, written as
   * repeated steps of 2^32 so that it stays cheap for the solver.
   */
  function ToUint32(x: int): (r: uint32)
    ensures 0 <= x < TWO_TO_32 ==> r == x
    decreases if x < 0 then 2 * TWO_TO_32 - x else x
  {
    if x < 0 then ToUint32(x + TWO_TO_32)
    else if x >= TWO_TO_32 then ToUint32(x - TWO_TO_32)
    else x
  }

  /** The conversion keeps the value modulo 2^32. */
  lemma {:induction false} ToUint32Congruent(x: int)
    ensures (ToUint32(x) - x) % TWO_TO_32 == 0
    decreases if x < 0 then 2 * TWO_TO_32 - x else x
  {
    if x < 0 {
      ToUint32Congruent(x + TWO_TO_32);
    } else if x >= TWO_TO_32 {
      ToUint32Congruent(x - TWO_TO_32);
    }
  }

  /**
   * Conversion of a uint32_t to int32_t: the same 32 bits read as two's
   * complement, so values from 2^31 on wrap to negative.
   */
  function Uint32ToInt32(u: uint32): (r: int32)
    ensures (r - u) % TWO_TO_32 == 0
    ensures u < 0x8000_0000 ==> r == u
  {
    if u < 0x8000_0000 then u else u - TWO_TO_32
  }

  /** tiledb::Query::Status */
  datatype QueryStatus = Failed | Complete | InProgress | Incomplete | Uninitialized
}
