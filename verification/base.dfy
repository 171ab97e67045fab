/**
 * Shared vocabulary of the network-status monitor model: the fixed-width
 * integer ranges of the Windows ABI the monitor talks to, an Option type for
 * the results of OS queries that may fail, and the 16-bit field split used
 * by the threshold configuration word.
 */
module Base {

  const U32_LIMIT: int := 0x1_0000_0000
  const I32_MIN: int := -0x8000_0000
  const I32_LIMIT: int := 0x8000_0000
  /** Pointer-sized integers on the 64-bit targets the monitor is built for. */
  const USIZE_LIMIT: int := 0x1_0000_0000_0000_0000
  const ISIZE_MIN: int := -0x8000_0000_0000_0000
  const ISIZE_LIMIT: int := 0x8000_0000_0000_0000

  type u32 = x: int | 0 <= x < U32_LIMIT
  type i32 = x: int | I32_MIN <= x < I32_LIMIT
  type usize = x: int | 0 <= x < USIZE_LIMIT
  type isize = x: int | ISIZE_MIN <= x < ISIZE_LIMIT

  /** The Win32 status code for success. */
  const ERROR_SUCCESS: u32 := 0

  /** A value that an OS query may or may not have produced. */
  datatype Option<+T> = None | Some(value: T)

  /** `x & 0xFFFF` for an unsigned word, stated arithmetically. */
  function Low16(x: u32): (r: nat)
    ensures r < 0x10000
  {
    x % 0x10000
  }

  /** `(x >> 16) & 0xFFFF` for an unsigned 32-bit word, stated arithmetically. */
  function High16(x: u32): (r: nat)
    ensures r < 0x10000
  {
    (x / 0x10000) % 0x10000
  }

  /** The word whose low half is `lo` and whose high half is `hi`. */
  function Pack16(lo: nat, hi: nat): (r: u32)
    requires lo < 0x10000 && hi < 0x10000
  {
    hi * 0x10000 + lo
  }

  /** Splitting a packed word gives back both halves. */
  lemma SplitPack(lo: nat, hi: nat)
    requires lo < 0x10000 && hi < 0x10000
    ensures Low16(Pack16(lo, hi)) == lo
    ensures High16(Pack16(lo, hi)) == hi
  {
    var w := Pack16(lo, hi);
    assert w / 0x10000 == hi;
  }

  /** Every 32-bit word is the packing of its two halves. */
  lemma PackSplit(x: u32)
    ensures Pack16(Low16(x), High16(x)) == x
  {
    assert x / 0x10000 < 0x10000;
  }
}
