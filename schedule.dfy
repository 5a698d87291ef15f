/**
  The drift-corrected cadence shared by the sampling loop and the delivery
  loop: the deadline starts one interval after the loop's start time and
  advances by exactly one interval per cycle, whatever the clock said; a
  cycle sleeps only when its deadline still lies ahead.
 */
module Schedule {

  /** The deadline cycle `k` (counting from 0) waits for:
      `started_at + interval`, then `+= interval` once per cycle. */
  function TickAt(start: real, interval: int, k: nat): real
  {
    if k == 0 then start + interval as real else TickAt(start, interval, k - 1) + interval as real
  }

  /** The deadline of cycle `k` is `k + 1` whole intervals after the start:
      adding the interval step by step accumulates no drift. */
  lemma {:induction false} TickClosedForm(start: real, interval: int, k: nat)
    ensures TickAt(start, interval, k) == start + ((k + 1) * interval) as real
  {
    if k > 0 {
      TickClosedForm(start, interval, k - 1);
      assert (k * interval) + interval == (k + 1) * interval;
    }
  }

  /** What a loop does at the end of a cycle: `exit.wait(wait_for)` or nothing. */
  datatype Pause = NoSleep | Sleep(seconds: real)

  /** `wait_for = next - now; if wait_for > 0: exit.wait(wait_for)`. */
  function PauseUntil(next: real, now: real): (p: Pause)
    ensures p.Sleep? <==> now < next
    ensures p.Sleep? ==> 0.0 < p.seconds && now + p.seconds == next
  {
    var waitFor := next - now;
    if waitFor > 0.0 then Sleep(waitFor) else NoSleep
  }

  /** Consecutive deadlines are exactly one interval apart: `TickAt`'s
      recursive case, named as the step the loops' invariants take. */
  lemma TickAdvance(start: real, interval: int, k: nat)
    ensures TickAt(start, interval, k + 1) == TickAt(start, interval, k) + interval as real
  {
  }

  /** Deadlines stay anchored to the start: after any number of cycles, overrun
      or not, `j` further cycles move the deadline by exactly `j` intervals. */
  lemma {:induction false} TickAnchored(start: real, interval: int, k: nat, j: nat)
    ensures TickAt(start, interval, k + j) == TickAt(start, interval, k) + (j * interval) as real
    decreases j
  {
    if j > 0 {
      TickAnchored(start, interval, k, j - 1);
      TickAdvance(start, interval, k + j - 1);
    }
  }

  /** A corollary of `PauseUntil`'s contract at the schedule's deadlines: a
      cycle that overran its deadline skips the sleep; one that finished early
      wakes exactly at its deadline, never later. */
  lemma PauseWakesAtDeadline(start: real, interval: int, k: nat, now: real)
    ensures now >= TickAt(start, interval, k) ==> PauseUntil(TickAt(start, interval, k), now) == NoSleep
    ensures now < TickAt(start, interval, k) ==>
      now + PauseUntil(TickAt(start, interval, k), now).seconds == TickAt(start, interval, k)
  {
  }
}
