/**
  The flush counter: once a minute of ticks the manager forces the primary
  storage's pending writes to disk, on the I/O executor.
 */
module FlushTimer {

  /** `20 * 60`: ticks per minute at twenty ticks a second. */
  const FlushThreshold := 20 * 60

  /** The counter after one update, and whether that update dispatched a flush. */
  datatype Step = Step(counter: int, flush: bool)

  /** The counter goes up by one; once it passes 1200 a flush is dispatched and the counter resets to 0. */
  function FlushStep(ticks: int): Step
  {
    var next := ticks + 1;
    if next > FlushThreshold then Step(0, true) else Step(next, false)
  }

  /** From a counter in [0, 1200] the step stays there, and flushes exactly when it was at 1200. */
  lemma FlushStepBounded(ticks: int)
    requires 0 <= ticks <= FlushThreshold
    ensures 0 <= FlushStep(ticks).counter <= FlushThreshold
    ensures FlushStep(ticks).flush <==> ticks == FlushThreshold
    ensures FlushStep(ticks).flush ==> FlushStep(ticks).counter == 0
    ensures !FlushStep(ticks).flush ==> FlushStep(ticks).counter == ticks + 1
  {
  }

  /** The counter after `n` updates of a fresh manager. */
  function CounterAfter(n: nat): int
  {
    if n == 0 then 0 else FlushStep(CounterAfter(n - 1)).counter
  }

  /** The flushes dispatched during the first `n` updates of a fresh manager. */
  function FlushesAfter(n: nat): nat
  {
    if n == 0 then 0
    else FlushesAfter(n - 1) + (if FlushStep(CounterAfter(n - 1)).flush then 1 else 0)
  }

  /**
    The cadence: a flush every 1201 updates (the counter runs from 0 to 1200
    and flushes on the update that would take it to 1201).
   */
  lemma {:induction false} FlushCadence(n: nat)
    ensures CounterAfter(n) == n % (FlushThreshold + 1)
    ensures FlushesAfter(n) == n / (FlushThreshold + 1)
  {
    if n > 0 {
      FlushCadence(n - 1);
      var q, r := (n - 1) / (FlushThreshold + 1), (n - 1) % (FlushThreshold + 1);
      assert n == q * (FlushThreshold + 1) + r + 1 && 0 <= r <= FlushThreshold;
      if r == FlushThreshold {
        DivModUnique(n, q + 1, 0);
      } else {
        DivModUnique(n, q, r + 1);
      }
    }
  }

  /** The quotient and remainder by 1201 are the only ones that rebuild `n`. */
  lemma DivModUnique(n: int, q: int, r: int)
    requires n == q * (FlushThreshold + 1) + r && 0 <= r <= FlushThreshold
    ensures n / (FlushThreshold + 1) == q && n % (FlushThreshold + 1) == r
  {
  }
}
