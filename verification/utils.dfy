/**
 * Leaf helpers of the native monitor (native/Utils.cpp): the empirical
 * quality-to-RSSI conversion and the null case of the wide-string
 * conversion.
 */
module Utils {
  import opened Base

  type u8 = x: int | 0 <= x < 256

  /**
   * `QualityToRSSI`: 0 maps to -100 dBm, 100 and above to -50 dBm, and
   * 1..99 to `quality / 2.0 - 100` with the double truncated toward zero,
   * which for a non-negative quotient is the floor.
   */
  function QualityToRssi(quality: u32): (r: int)
    ensures -100 <= r <= -50
    ensures quality == 0 ==> r == -100
    ensures quality >= 100 ==> r == -50
    ensures 0 < quality < 100 ==>
      (r + 100) as real <= quality as real / 2.0 < (r + 101) as real
  {
    if quality == 0 then -100
    else if quality >= 100 then -50
    else quality / 2 - 100
  }

  /** A better signal quality never gives a lower RSSI. */
  lemma QualityToRssiMonotone(a: u32, b: u32)
    requires a <= b
    ensures QualityToRssi(a) <= QualityToRssi(b)
  {
  }

  /**
   * `WcharToUtf8`, with `WideCharToMultiByte` as a parameter: `converted` is
   * the buffer it fills, terminating NUL included, or empty when it reports
   * size 0. A null input gives the empty string without converting; one
   * trailing NUL is removed from the result.
   */
  function WcharToUtf8(wstr: Option<seq<char>>, converted: seq<u8>): (r: seq<u8>)
    ensures wstr.None? ==> r == []
    ensures wstr.Some? && |converted| > 0 && converted[|converted| - 1] == 0 ==> r + [0] == converted
    ensures wstr.Some? && |converted| > 0 && converted[|converted| - 1] != 0 ==> r == converted
    ensures |converted| == 0 ==> r == []
  {
    if wstr.None? then []
    else if |converted| == 0 then []
    else if converted[|converted| - 1] == 0 then converted[..|converted| - 1]
    else converted
  }
}
