/** The 32-bit millisecond clock of src/sched.c.  Real time is an unbounded integer; `Ms` is what
    getmstime returns for it, an `unsigned int`. */
module Clock {

  const WINDOW: int := 0x1_0000_0000

  function Ms(now: int): int {
    now % WINDOW
  }

  /** `getmstime() + 1000*seconds` stored into an `unsigned int`. */
  function WakeupTime(now: int, seconds: int): int {
    (Ms(now) + 1000 * seconds) % WINDOW
  }

  lemma WakeupTimeIsDeadline(now: int, seconds: int)
    ensures WakeupTime(now, seconds) == Ms(now + 1000 * seconds)
  {
    assert now == WINDOW * (now / WINDOW) + Ms(now);
  }

  /** Exactly when `getmstime() > wakeuptime` tells the truth about real time: as long as the
      sample is less than one window (about 49.7 days) away from the deadline on either side,
      the comparison agrees with real time if and only if the 32-bit clock does not wrap between
      the two. */
  lemma ComparisonAgreesIff(sample: int, deadline: int)
    requires -WINDOW < sample - deadline < WINDOW
    ensures (Ms(sample) > Ms(deadline) <==> sample > deadline)
            <==> sample / WINDOW == deadline / WINDOW
  {
    assert sample == WINDOW * (sample / WINDOW) + Ms(sample);
    assert deadline == WINDOW * (deadline / WINDOW) + Ms(deadline);
  }

  /** What a caller of co_sleep can know: a sample between the call and the deadline can compare
      greater than the deadline if and only if the clock wraps between the two and the deadline is
      not the last value of its window. */
  lemma {:induction false} EarlyWakeIff(start: int, deadline: int)
    requires start <= deadline
    ensures (exists sample :: start <= sample <= deadline && Ms(sample) > Ms(deadline))
            <==> MayWakeEarly(start, deadline)
  {
    if MayWakeEarly(start, deadline) {
      var last := WINDOW * (deadline / WINDOW) - 1;
      assert deadline == WINDOW * (deadline / WINDOW) + Ms(deadline);
      assert start == WINDOW * (start / WINDOW) + Ms(start);
      assert last == WINDOW * (deadline / WINDOW - 1) + (WINDOW - 1);
      assert start <= last <= deadline && Ms(last) == WINDOW - 1 > Ms(deadline);
    }
    if sample :| start <= sample <= deadline && Ms(sample) > Ms(deadline) {
      assert deadline == WINDOW * (deadline / WINDOW) + Ms(deadline);
      assert sample == WINDOW * (sample / WINDOW) + Ms(sample);
      assert start == WINDOW * (start / WINDOW) + Ms(start);
    }
  }

  predicate MayWakeEarly(start: int, deadline: int) {
    start / WINDOW != deadline / WINDOW && Ms(deadline) != WINDOW - 1
  }

  /** A deadline whose 32-bit image is the last value of the window is never passed: no sample
      whatever compares greater.  Every other deadline is passed by some sample. */
  lemma NeverPassedIff(deadline: int)
    ensures (forall sample :: Ms(sample) <= Ms(deadline)) <==> Ms(deadline) == WINDOW - 1
  {
    if Ms(deadline) != WINDOW - 1 {
      assert Ms(WINDOW - 1) > Ms(deadline);
    }
  }

  /** The failing case, concretely: a one-second sleep begun 500 ms before the clock wraps is
      over at once, although its deadline is 900 ms away. */
  lemma EarlyWakeExample()
    ensures var start, sample := WINDOW - 500, WINDOW - 400;
            Ms(sample) > WakeupTime(start, 1) && sample < start + 1000
  {
  }
}
