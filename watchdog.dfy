/**
 * One tick of the browser-engine watchdog, which runs every second while the browser
 * engine is speaking and not paused. Speech that has stalled (speaking, with no speech
 * event for more than 5 seconds) or a queue that has run dry before the last chunk
 * counts as trouble. The first troubled tick in a row nudges the engine, and the second
 * cancels and restarts from the current chunk. The clock is the parameter `now`.
 */
module Watchdog {

  /** Milliseconds without a speech event after which speaking counts as stalled. */
  const StallMillis: int := 5000

  datatype Recovery = NoRecovery | GentleResume | HardRestart

  /** What a tick does: the new counter, whether it resumes a paused engine, and its recovery. */
  datatype TickResult = TickResult(counter: nat, forceResume: bool, recovery: Recovery)

  /** `timeSinceLastEvent`: 0 when no event has been seen yet. */
  function SinceLastEvent(last: int, now: int): int {
    if last > 0 then now - last else 0
  }

  /** `isStuck || queueEmpty`. */
  predicate Troubled(speaking: bool, pending: bool, last: int, now: int, cursor: int, n: int) {
    (speaking && SinceLastEvent(last, now) > StallMillis)
    || (!speaking && !pending && cursor < n - 1)
  }

  /**
   * The body of the watchdog interval: `counter` is `consecutiveStuckChecks`, and the engine's
   * state is observed through `synthPaused`, `speaking` and `pending`.
   */
  function Tick(counter: nat, synthPaused: bool, speaking: bool, pending: bool,
                last: int, now: int, cursor: int, n: int): (r: TickResult)
    ensures r.forceResume == synthPaused
    ensures !Troubled(speaking, pending, last, now, cursor, n) ==>
              r.counter == 0 && r.recovery == NoRecovery
    ensures Troubled(speaking, pending, last, now, cursor, n) && counter == 0 ==>
              r.counter == 1 && r.recovery == GentleResume
    ensures Troubled(speaking, pending, last, now, cursor, n) && counter >= 1 ==>
              r.counter == 0 && r.recovery == HardRestart
  {
    if Troubled(speaking, pending, last, now, cursor, n) then
      var c := counter + 1;
      // c is at least 1, so the `>= 2` test is the only other case
      if c == 1 then TickResult(c, synthPaused, GentleResume)
      else TickResult(0, synthPaused, HardRestart)
    else TickResult(0, synthPaused, NoRecovery)
  }

  /** Started from 0, the counter only ever holds 0 or 1. */
  lemma {:induction false} CounterBounded(counter: nat, synthPaused: bool, speaking: bool, pending: bool,
                       last: int, now: int, cursor: int, n: int)
    requires counter <= 1
    ensures Tick(counter, synthPaused, speaking, pending, last, now, cursor, n).counter <= 1
  {
  }

  /** Before any speech event, a speaking engine is never taken as stalled however late it is. */
  lemma {:induction false} NoEventNeverStalls(speaking: bool, pending: bool, now: int, cursor: int, n: int)
    ensures Troubled(speaking, pending, 0, now, cursor, n) <==> !speaking && !pending && cursor < n - 1
  {
  }

  /** The result of `k` troubled ticks in a row, starting from a counter of 0. */
  function RunTroubled(k: nat, speaking: bool, pending: bool, last: int, now: int,
                       cursor: int, n: int): nat
    requires Troubled(speaking, pending, last, now, cursor, n)
  {
    if k == 0 then 0
    else Tick(RunTroubled(k - 1, speaking, pending, last, now, cursor, n), false, speaking,
              pending, last, now, cursor, n).counter
  }

  /**
   * Persistent trouble is met by a gentle resume, then a hard restart, in turn: after `k`
   * troubled ticks the counter is `k % 2`, so every second tick restarts the engine.
   */
  lemma {:induction false} TroubleAlternates(k: nat, speaking: bool, pending: bool, last: int,
                                             now: int, cursor: int, n: int)
    requires Troubled(speaking, pending, last, now, cursor, n)
    ensures RunTroubled(k, speaking, pending, last, now, cursor, n) == k % 2
  {
    if k > 0 {
      TroubleAlternates(k - 1, speaking, pending, last, now, cursor, n);
    }
  }
}
