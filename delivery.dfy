/**
  The delivery loop (`main`): on its own drift-corrected cadence it waits,
  checks the exit flag, reads the shared list, takes the three window means
  and hands them to the publisher. Between two ticks the sampling thread runs
  whatever cycles it completed in the meantime; each cycle is one atomic step.
 */
module Delivery {
  import opened Wrappers
  import opened Samples
  import opened Schedule
  import opened Metrics
  import opened SampleBuffer
  import opened Sampling
  import opened Aggregation
  import opened Publisher

  /** When a termination signal sets the exit flag, relative to one tick:
      not at all, before the `while not exit.is_set()` test, or after that test
      and before the post-wait check. The flag is never cleared. */
  datatype Signal = Quiet | BeforeHead | DuringWait

  /** The inputs of one delivery tick: the sampling cycles completed before it
      reads the list, the signal, the clock before the wait and after it, and
      the outcome of each POST attempt. */
  datatype Tick = Tick(sampling: seq<Cycle>, signal: Signal, waitAt: real, now: real, raises: seq<bool>)

  /** What one completed tick read, computed and sent. The body of each POST
      is `Payload(m, averages)`. */
  datatype Report = Report(seen: seq<Sample>, averages: Averages, attempts: nat, delivered: bool)

  /** Why the loop ended: the exit flag, the `ZeroDivisionError` of an empty
      window, or because the modelled ticks ran out. */
  datatype Stop = Exited | Crashed | Idle

  /** Whether the post-wait check leaves the loop. The disk agent checks the
      flag after every wait step; the RAM and CPU agents only after a sleep. */
  function LeavesAfterWait(m: Metric, pause: Pause, exiting: bool): (leave: bool)
    ensures m == Disk ==> (leave <==> exiting)
    ensures m != Disk ==> (leave <==> exiting && pause.Sleep?)
  {
    exiting && (ExitCheckOf(m) == EveryTick || pause.Sleep?)
  }

  /** A corollary of `LeavesAfterWait`'s contract at the two cases that tell
      the agents apart: with the flag set and no sleep pending the disk agent
      exits, while the RAM and CPU agents run the tick to the end and leave at
      the next loop test; after a sleep all three leave. */
  lemma ExitChecksDiffer(m: Metric)
    ensures LeavesAfterWait(m, NoSleep, true) <==> m == Disk
    ensures LeavesAfterWait(m, Sleep(1.0), true)
  {
  }

  /** Every sampling cycle of the ticks, in order. */
  function Sampled(ticks: seq<Tick>): seq<Cycle>
  {
    if ticks == [] then [] else Sampled(ticks[..|ticks| - 1]) + ticks[|ticks| - 1].sampling
  }

  /** The exit flag as the loop test of tick `k` sees it. */
  ghost predicate FlagAtHead(ticks: seq<Tick>, k: nat)
  {
    k < |ticks| && (ticks[k].signal == BeforeHead || (k > 0 && ticks[k - 1].signal == DuringWait))
  }

  /** Tick `k` passes both exit checks. */
  ghost predicate Proceeds(m: Metric, start: real, post: int, ticks: seq<Tick>, k: nat)
  {
    && k < |ticks|
    && !FlagAtHead(ticks, k)
    && !LeavesAfterWait(m, PauseUntil(TickAt(start, post, k), ticks[k].waitAt), ticks[k].signal == DuringWait)
  }

  /** Report `r` is what tick `t` sends after reading `seen`: the three means of
      the list at the tick's clock, retried as the outcomes dictate. */
  ghost predicate Sends(t: Tick, r: Report)
  {
    && Aggregate(r.seen, t.now) == Some(r.averages)
    && |t.raises| >= MaxAttempts
    && Retried(t.raises, r.attempts, r.delivered)
  }

  /** Tick `k` passed both exit checks and sent report `r` after reading the
      list that the sampling cycles up to and including its own left behind. */
  ghost predicate Completed(m: Metric, start: real, post: int, ticks: seq<Tick>, initial: seq<Sample>, k: nat, r: Report)
  {
    && Proceeds(m, start, post, ticks, k)
    && Sends(ticks[k], r)
    && r.seen == Collect(initial, Sampled(ticks[..k + 1]))
  }

  /** The reports are those of the first `|reports|` ticks, in order. */
  ghost predicate Served(m: Metric, start: real, post: int, ticks: seq<Tick>, initial: seq<Sample>, reports: seq<Report>)
  {
    && |reports| <= |ticks|
    && forall j :: 0 <= j < |reports| ==> Completed(m, start, post, ticks, initial, j, reports[j])
  }

  lemma ServedExtend(m: Metric, start: real, post: int, ticks: seq<Tick>, initial: seq<Sample>, reports: seq<Report>, r: Report)
    requires Served(m, start, post, ticks, initial, reports)
    requires |reports| < |ticks|
    requires Completed(m, start, post, ticks, initial, |reports|, r)
    ensures Served(m, start, post, ticks, initial, reports + [r])
  {
    var rs := reports + [r];
    forall j | 0 <= j < |rs| ensures Completed(m, start, post, ticks, initial, j, rs[j]) {
      if j < |reports| {
        assert rs[j] == reports[j];
      }
    }
  }

  /** The sampling cycles of the ticks before `k`, then those of tick `k`. */
  lemma SampledNext(ticks: seq<Tick>, k: nat)
    requires k < |ticks|
    ensures Sampled(ticks[..k + 1]) == Sampled(ticks[..k]) + ticks[k].sampling
  {
    assert ticks[..k + 1][..k] == ticks[..k];
  }

  /** How one tick that passed the loop test ends. */
  datatype Outcome = Left | Failed | Sent(report: Report)

  /** Tick `k` after the loop test: the sampling cycles that complete
      meanwhile, the wait for deadline `next`, the post-wait exit check, the
      three means of the list and the retried POST. */
  method Serve(m: Metric, collector: Collector, start: real, post: int, ticks: seq<Tick>, k: nat, ghost initial: seq<Sample>, next: real)
    returns (outcome: Outcome)
    requires k < |ticks| && |ticks[k].raises| >= MaxAttempts
    requires !FlagAtHead(ticks, k)
    requires next == TickAt(start, post, k)
    requires collector.Valid()
    requires collector.buffer.samples == Collect(initial, Sampled(ticks[..k]))
    modifies collector, collector.buffer
    ensures collector.Valid()
    ensures collector.buffer.samples == Collect(initial, Sampled(ticks[..k + 1]))
    ensures collector.cycles == old(collector.cycles) + |ticks[k].sampling|
    ensures outcome.Left? <==> !Proceeds(m, start, post, ticks, k)
    ensures outcome.Failed? <==> Proceeds(m, start, post, ticks, k) && Aggregate(collector.buffer.samples, ticks[k].now) == None
    ensures outcome.Sent? ==> Completed(m, start, post, ticks, initial, k, outcome.report)
  {
    var t := ticks[k];
    SampledNext(ticks, k);
    CollectConcat(initial, Sampled(ticks[..k]), t.sampling);
    var _ := collector.Run(t.sampling);
    var pause := PauseUntil(next, t.waitAt);
    if LeavesAfterWait(m, pause, t.signal == DuringWait) {
      return Left;
    }
    var seen := collector.buffer.samples;
    var averages := Aggregate(seen, t.now);
    if averages.None? {
      return Failed;
    }
    var attempts, delivered, gaveUp := Send(t.raises);
    outcome := Sent(Report(seen, averages.value, attempts, delivered));
  }

  /** The loop of `main` over the ticks `ticks`, starting at `start` with
      period `post`, reading the list of `collector`. */
  method Deliver(m: Metric, collector: Collector, start: real, post: int, ticks: seq<Tick>)
    returns (reports: seq<Report>, stop: Stop, next: real)
    requires collector.Valid()
    requires forall k :: 0 <= k < |ticks| ==> |ticks[k].raises| >= MaxAttempts
    modifies collector, collector.buffer
    ensures collector.Valid()
    ensures Served(m, start, post, ticks, old(collector.buffer.samples), reports)
    ensures stop == Idle <==> |reports| == |ticks|
    ensures next == TickAt(start, post, |reports| + if stop == Crashed then 1 else 0)
    ensures stop == Exited ==> !Proceeds(m, start, post, ticks, |reports|)
    ensures stop == Crashed ==>
      var k := |reports|;
      Proceeds(m, start, post, ticks, k) &&
      Aggregate(Collect(old(collector.buffer.samples), Sampled(ticks[..k + 1])), ticks[k].now) == None
    ensures stop == Idle ==> collector.buffer.samples == Collect(old(collector.buffer.samples), Sampled(ticks))
    ensures
      var done := |reports| + if stop == Idle || FlagAtHead(ticks, |reports|) then 0 else 1;
      && done <= |ticks|
      && collector.buffer.samples == Collect(old(collector.buffer.samples), Sampled(ticks[..done]))
      && collector.cycles == old(collector.cycles) + |Sampled(ticks[..done])|
  {
    ghost var initial := collector.buffer.samples;
    next := start + post as real;
    reports := [];
    stop := Idle;
    var k := 0;
    while k < |ticks|
      invariant 0 <= k <= |ticks| && |reports| == k && stop == Idle
      invariant next == TickAt(start, post, k)
      invariant collector.Valid()
      invariant collector.buffer.samples == Collect(initial, Sampled(ticks[..k]))
      invariant collector.cycles == old(collector.cycles) + |Sampled(ticks[..k])|
      invariant Served(m, start, post, ticks, initial, reports)
    {
      if (k > 0 && ticks[k - 1].signal == DuringWait) || ticks[k].signal == BeforeHead {
        stop := Exited;
        break;
      }
      var outcome := Serve(m, collector, start, post, ticks, k, initial, next);
      SampledNext(ticks, k);
      if outcome.Left? {
        stop := Exited;
        break;
      }
      TickAdvance(start, post, k);
      next := next + post as real;
      if outcome.Failed? {
        stop := Crashed;
        break;
      }
      ServedExtend(m, start, post, ticks, initial, reports, outcome.report);
      reports := reports + [outcome.report];
      k := k + 1;
    }
    if stop == Idle {
      assert ticks[..k] == ticks;
    }
  }

  /** `main`: an empty list, the sampling thread started at `samplingStart`
      with period `samplingInterval`, and the delivery loop started at
      `postStart` with period `post`. */
  method Agent(m: Metric, samplingStart: real, samplingInterval: int, postStart: real, post: int, ticks: seq<Tick>)
    returns (reports: seq<Report>, stop: Stop)
    requires forall k :: 0 <= k < |ticks| ==> |ticks[k].raises| >= MaxAttempts
    ensures stop == Idle <==> |reports| == |ticks|
    ensures Served(m, postStart, post, ticks, [], reports)
    ensures stop == Exited ==> !Proceeds(m, postStart, post, ticks, |reports|)
    ensures stop == Crashed ==>
      var k := |reports|;
      Proceeds(m, postStart, post, ticks, k) &&
      Aggregate(Collect([], Sampled(ticks[..k + 1])), ticks[k].now) == None
  {
    var usage := new Buffer();
    var collector := new Collector(usage, samplingStart, samplingInterval);
    var next;
    reports, stop, next := Deliver(m, collector, postStart, post, ticks);
  }

  /** A tick that proceeds fails exactly when no sample it reads is newer than
      one minute; in particular the very first tick of an agent whose sampling
      thread has not yet completed a cycle always fails. */
  lemma FirstTickNeedsASample(t: Tick)
    requires t.sampling == []
    ensures Aggregate(Collect([], Sampled([t])), t.now) == None
  {
    assert Sampled([t]) == Sampled([]) + t.sampling;
    AggregateFails([], t.now);
  }

  /** A source that keeps reading `x`, by any probe, feeding a list that holds
      only `x`, is reported as `x` in all three windows by any tick whose last
      sampling cycle started within the minute and read its eviction clock
      less than 900 s after its start. */
  lemma ConstantSource(s: seq<Sample>, cs: seq<Cycle>, now: real, x: real)
    requires forall i :: 0 <= i < |s| ==> s[i].value == x
    requires cs != []
    requires forall i :: 0 <= i < |cs| ==> Reading(cs[i].probe) == x
    requires cs[|cs| - 1].startedAt > cs[|cs| - 1].evictAt - Horizon
    requires cs[|cs| - 1].startedAt > now - 60.0
    ensures Aggregate(Collect(s, cs), now) == Some(Averages(x, x, x))
  {
    var last := cs[|cs| - 1];
    StepKeepsFresh(Collect(s, cs[..|cs| - 1]), last);
    CollectValues(s, cs, x, x);
    var t := Collect(s, cs);
    AggregateConstant(t, now, x, |t| - 1);
  }

  /** The averages a tick reports do not depend on retention: with an eviction
      clock that never runs backwards and was last read no later than the
      tick's, the list the sampling cycles leave behind averages exactly like
      the initial list plus every sample ever appended, with nothing evicted. */
  lemma AveragesIgnoreRetention(s: seq<Sample>, cs: seq<Cycle>, now: real)
    requires cs != []
    requires MonotoneEviction(cs)
    requires cs[|cs| - 1].evictAt <= now
    ensures Aggregate(Collect(s, cs), now) == Aggregate(s + Appended(cs), now)
  {
    var all, evictAt := s + Appended(cs), cs[|cs| - 1].evictAt;
    CollectOneShot(s, cs);
    // Restated with the names bound above, so that the next call's
    // precondition matches without unfolding `Collect` again.
    assert Collect(s, cs) == Retained(all, evictAt - Horizon);
    AggregateIgnoresEviction(all, evictAt, now);
  }
}
