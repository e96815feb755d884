/** Time as the reporter sees it: whole seconds supplied by the caller. */
module Clock {

  /** How far the clock moves during `asyncio.sleep(seconds)`: a non-positive delay
      returns at once. */
  function Pause(seconds: int): nat
  {
    if seconds > 0 then seconds else 0
  }

  /** `divmod(elapsed, 60)`. Python's divmod floors, which for the positive divisor 60
      agrees with Dafny's Euclidean division on every integer, negative ones included. */
  function MinutesSeconds(elapsed: int): (r: (int, int))
    ensures r.0 * 60 + r.1 == elapsed
    ensures 0 <= r.1 < 60
  {
    (elapsed / 60, elapsed % 60)
  }

  /** The two properties above pin the result down: no other pair satisfies them. */
  lemma MinutesSecondsUnique(elapsed: int, minutes: int, seconds: int)
    requires minutes * 60 + seconds == elapsed
    requires 0 <= seconds < 60
    ensures MinutesSeconds(elapsed) == (minutes, seconds)
  {
  }

  /** More elapsed time never reads as less: the (minutes, seconds) pair grows
      lexicographically with the elapsed time. */
  lemma MinutesSecondsMonotone(e1: int, e2: int)
    requires e1 <= e2
    ensures var (m1, s1) := MinutesSeconds(e1);
            var (m2, s2) := MinutesSeconds(e2);
            m1 < m2 || (m1 == m2 && s1 <= s2)
  {
  }
}
