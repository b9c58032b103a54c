/**
 * Frame-rate reporting of the streaming loop (showFps): the time since the
 * previous call, in whole milliseconds, turned into frames per second with
 * a guard against a zero interval. Clock readings are steady-clock time
 * points in nanoseconds, passed in by the caller.
 */
module Fps {
  /** 2^32: the elapsed milliseconds are stored in a uint32_t. */
  const U32: nat := 0x1_0000_0000

  const NanosPerMilli: nat := 1_000_000

  /** Integer division truncating toward zero, as duration_cast does. */
  function TruncDiv(a: int, d: nat): (q: int)
    requires d > 0
    ensures a >= 0 ==> q * d <= a < (q + 1) * d
    ensures a < 0 ==> (q - 1) * d < a <= q * d
  {
    if a >= 0 then a / d else -((-a) / d)
  }

  /**
   * duration_cast<milliseconds>(end - begin).count() converted to uint32_t:
   * truncated to whole milliseconds, then reduced modulo 2^32.
   */
  function DiffMs(begin: int, end: int): (ms: nat)
    ensures ms < U32
    ensures 0 <= end - begin < NanosPerMilli * U32 ==> ms == (end - begin) / NanosPerMilli
  {
    TruncDiv(end - begin, NanosPerMilli) % U32
  }

  /**
   * Frames per second for one interval of ms milliseconds: 1000 / ms with
   * integer division, and 0 for an empty interval instead of a division by zero.
   */
  function FpsFor(ms: nat): (fps: nat)
    ensures fps <= 1000
    ensures fps == 0 <==> ms == 0 || ms > 1000
    ensures ms > 0 ==> fps * ms <= 1000 < (fps + 1) * ms
  {
    if ms == 0 then 0 else 1000 / ms
  }

  /** The previous time point that showFps keeps in its function-local static. */
  class FpsMeter {
    var begin: int

    /** The static is initialised from the clock on the first call of showFps. */
    constructor (start: int)
      ensures begin == start
    {
      begin := start;
    }

    /** One call of showFps at clock reading end: the value printed, and begin moved to end. */
    method ShowFps(end: int) returns (fps: nat)
      modifies this
      ensures fps == FpsFor(DiffMs(old(begin), end))
      ensures fps <= 1000
      ensures begin == end
    {
      fps := FpsFor(DiffMs(begin, end));
      begin := end;
    }
  }

  /** Two readings less than a millisecond apart on a steady clock report 0, not a division by zero. */
  lemma SubMillisecondIsZero(begin: int, end: int)
    requires begin <= end < begin + NanosPerMilli
    ensures FpsFor(DiffMs(begin, end)) == 0
  {
    assert DiffMs(begin, end) == (end - begin) / NanosPerMilli;
  }

  /** An interval of ms whole milliseconds is reported as 1000 / ms. */
  lemma FpsOfInterval(begin: int, ms: nat)
    requires 0 < ms < U32
    ensures FpsFor(DiffMs(begin, begin + ms * NanosPerMilli)) == 1000 / ms
  {
    assert (ms * NanosPerMilli) / NanosPerMilli == ms;
  }
}
