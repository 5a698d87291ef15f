# Heartbeat agents: sampling, windowed averages and delivery

The three heartbeat agents (`cpu/cpu.py`, `ram/ram.py`, `disk/disk.py`) share
one engine, copied once per metric. A background sampling loop reads one
value per cycle and appends `{date, value}` to a shared list. It then evicts
every sample that is not strictly newer than 900 seconds before the clock,
and sleeps until a drift-corrected deadline. The delivery loop (`main`) runs
on its own drift-corrected cadence. On each tick it filters the list into
trailing 60, 300 and 900-second windows and takes the mean of each. It then
hands the three means to `send_<metric>_usage`, which POSTs a three-key JSON
body and makes at most three attempts.

This project models that engine once and instantiates it per `Metric`
(`Cpu | Ram | Disk`). The three copies differ in three ways:

- the key prefix of the payload;
- the disk agent's percentage formula;
- where `main` checks the exit flag after its wait. The disk agent checks it
  after every wait step. The RAM and CPU agents check it only inside the
  `wait_for > 0` branch.

Time, probe readings and the outcome of each POST are inputs. The two loops
are interleaved at the granularity of whole sampling cycles: each delivery
tick carries the sampling cycles that completed before it reads the list.

Modules:

- `Samples`: the sample record, the strict `date > cutoff` filter, windows,
  sum and mean.
- `Schedule`: deadlines and the sleep decision.
- `Metrics`: metric names, payload keys, probes and the exit-check placement.
- `SampleBuffer`: the shared list as a class with `Append` and `Evict`.
- `Sampling`: one sampling cycle, as pure functions and as the `Collector`
  class.
- `Aggregation`: the three windows and their means.
- `Publisher`: the payload and the retry loop.
- `Delivery`: the `main` loop.

Three behaviours of the code are worth stating outright:

- Eviction keeps `date > now - 900`, with a strict comparison, so a sample
  exactly 900 s old is dropped.
- An empty window is not reported as "insufficient data". `sum(...) / len(...)`
  raises `ZeroDivisionError` in `main`, and the delivery loop ends. The model
  calls this outcome `Crashed`.
- Whether the post-wait exit check runs when no sleep happened differs
  between the agents, as listed above.

## Model

| member | source | states |
|---|---|---|
| `Samples.Retained` | disk/disk.py:38 | The strict in-place filter `x['date'] > cutoff`, in list order. `RetainedMembers`, `RetainedConcat` and `RetainedSubseq` pin it down as exactly that filter. |
| `Samples.Window` | disk/disk.py:108-110 | The values of the samples strictly newer than the cutoff, in list order. `WindowNested`, `WindowEmpty` and `WindowValues` state its nesting, emptiness and bounds. |
| `Samples.Sum` | disk/disk.py:111 | Python's `sum` over a window. `SumBounds` bounds it by the length times the value bounds, and `Samples.Mean` ties the mean to it. |
| `Samples.Mean` | disk/disk.py:111 | Defined only on a non-empty window. The mean times the window's length is the window's sum. |
| `Samples.RetainedMembers` | disk/disk.py:38 | A sample survives the filter exactly when it was in the list and its date is strictly after the cutoff. |
| `Samples.RetainedConcat` | disk/disk.py:38 | Filtering a concatenation filters each part and concatenates the results, so the kept samples stay in list order. |
| `Samples.RetainedSubseq` | ram/ram.py:38 | The filtered list is a subsequence of the original: samples are only dropped, never reordered. |
| `Samples.RetainedAllNewer` | cpu/cpu.py:37 | A list whose samples are all newer than the cutoff passes the filter unchanged. |
| `Samples.RetainedNested` | disk/disk.py:36-38 | Filtering at an earlier cutoff and then at a later one equals filtering at the later one. |
| `Samples.WindowNested` | disk/disk.py:107-124 | For two cutoffs, the later window is a subsequence of the earlier one. A window does not change when the list was first cut at an earlier time. |
| `Samples.WindowEmpty` | disk/disk.py:108-111 | A window is empty exactly when no sample is strictly newer than its cutoff. |
| `Samples.WindowValues` | disk/disk.py:108-110 | Every value in a window lies in any range that bounds all values of the list. |
| `Samples.SumBounds` | disk/disk.py:111 | The sum of `n` values in `[lo, hi]` lies in `[n*lo, n*hi]`. |
| `Samples.MeanBounds` | disk/disk.py:118 | The mean of a non-empty window of values in `[lo, hi]` lies in `[lo, hi]`. |
| `Samples.MeanConstant` | disk/disk.py:125 | A window of identical values averages to that value. |
| `Schedule.TickAt` | disk/disk.py:18-45 | The deadline of cycle `k`: `started_at + interval` (lines 18-19), then `+= interval` once per cycle (line 45). `TickClosedForm` gives it as `start + (k+1)*interval`, and `TickAnchored` shows it never drifts. |
| `Schedule.PauseUntil` | disk/disk.py:41-44 | The loop sleeps exactly when the deadline is still ahead. The sleep is positive and ends exactly at the deadline. |
| `Schedule.TickAdvance` | disk/disk.py:45 | Consecutive deadlines are exactly one interval apart. This is `TickAt`'s recursive case, named as the step the loop invariants take. |
| `Schedule.TickClosedForm` | disk/disk.py:18-19 | After `k` cycles the deadline is `start + (k+1)*interval`, whatever the clock said in between. |
| `Schedule.TickAnchored` | ram/ram.py:41-45 | `j` further cycles move any deadline by exactly `j` intervals, with or without overruns. |
| `Schedule.PauseWakesAtDeadline` | cpu/cpu.py:40-44 | A corollary of `PauseUntil` at the schedule's deadlines. A cycle that overran its deadline skips the sleep, and one that finished early wakes exactly at its deadline. |
| `Metrics.Key` | disk/disk.py:58-62 | The JSON key `<metric>_usage_<window>_avg`. `KeySpelling` gives all nine spellings, and `KeyInjective` and `KeysDistinct` show no two keys collide. |
| `Metrics.Reading` | disk/disk.py:24-25 | The value a probe contributes: the RAM/CPU percentage as read, or the disk agent's `100 - (free / total) * 100`, whose range `DiskPercent` states. |
| `Metrics.DiskPercent` | disk/disk.py:25 | The used percentage lies in `[0, 100]` when `0 <= free <= total`. It is 0 exactly when the disk is entirely free and 100 exactly when nothing is free. It times `total` equals `(total - free) * 100`. |
| `Metrics.KeySpelling` | cpu/cpu.py:57-61 | The nine payload keys are spelled `<metric>_usage_<1min/5min/15min>_avg`. |
| `Metrics.KeyInjective` | ram/ram.py:58-62 | Two keys are equal exactly when their metric and window are equal. |
| `Metrics.KeysDistinct` | disk/disk.py:58-62 | One metric's three keys are three distinct strings. |
| `SampleBuffer.Buffer.constructor` | disk/disk.py:82 | The shared list starts empty. |
| `SampleBuffer.Buffer.Append` | disk/disk.py:27-28 | Exactly one sample is added, at the tail. Earlier entries are unchanged. |
| `SampleBuffer.Buffer.Evict` | disk/disk.py:36-38 | The new list is the old list filtered at `now - 900`. It holds exactly the old samples strictly newer than that. |
| `Sampling.Fresh` | disk/disk.py:23-27 | The sample a cycle appends: its date is the loop start time and its value the probe's reading. |
| `Sampling.Step` | disk/disk.py:23-38 | One sampling cycle on the list: append `{date: loop start, value}`, then evict at 900 s before the eviction clock. `StepKeepsFresh` states what it leaves. |
| `Sampling.Collect` | disk/disk.py:21-45 | The list after a run of cycles. `CollectConcat`, `CollectRetention`, `CollectSubseq`, `CollectValues` and `CollectOneShot` state what it holds. |
| `Sampling.CollectConcat` | disk/disk.py:21-45 | Running two batches of cycles one after the other is running them as one batch. |
| `Sampling.StepKeepsFresh` | disk/disk.py:23-38 | When a cycle evicts within 900 s of its start, the list is the retained earlier entries followed by the cycle's own sample, at the tail. |
| `Sampling.CollectRetention` | ram/ram.py:36-38 | After any cycle, every sample in the list is strictly newer than 900 s before that cycle's eviction clock. |
| `Sampling.CollectSubseq` | ram/ram.py:21-45 | The list is always a subsequence of the initial list followed by every sample appended since. |
| `Sampling.CollectValues` | cpu/cpu.py:24-37 | If the initial list and every probe reading lie in `[lo, hi]`, so does every value the list holds. |
| `Sampling.CollectOneShot` | cpu/cpu.py:35-37 | With a clock that never runs backwards, evicting after every append leaves exactly what one eviction at the last cycle's clock would leave. |
| `Sampling.Collector.constructor` | disk/disk.py:18-19 | The first deadline is `started_at + interval`, and no cycle has run yet. |
| `Sampling.Collector.RunCycle` | disk/disk.py:23-45 | One cycle leaves the list appended-then-evicted and sleeps only if its deadline is ahead. The deadline advances by exactly one interval, and the deadline invariant is kept. |
| `Sampling.Collector.Run` | disk/disk.py:21-45 | After the cycles `cs`, the list is `Collect(old list, cs)` and the deadline is the `|cs|`-th next one. Cycle `j` slept exactly as its own deadline dictates. |
| `Aggregation.Aggregate` | disk/disk.py:107-125 | The three window means in the source's order, or `None` for the `ZeroDivisionError` of the first empty window. `AggregateFails` says when it fails, and `AggregateMeans` says what it returns otherwise. |
| `Aggregation.WindowsNested` | ram/ram.py:107-124 | The 1-minute window is a subsequence of the 5-minute window, which is a subsequence of the 15-minute window. |
| `Aggregation.AggregateFails` | disk/disk.py:107-111 | The tick's averaging fails (`ZeroDivisionError`) exactly when no sample is newer than one minute. The error therefore always comes from the 1-minute division: the 5- and 15-minute windows are never empty while the 1-minute window holds a sample. |
| `Aggregation.AggregateMeans` | disk/disk.py:111-125 | On success each window is non-empty, and each average times its window's length is the window's sum. |
| `Aggregation.AggregateBounds` | ram/ram.py:111-125 | If all values lie in `[lo, hi]`, so do all three averages. |
| `Aggregation.AggregateIgnoresEviction` | cpu/cpu.py:121-125 | Evicting at 900 s before any clock no later than the tick's clock changes none of the three averages. |
| `Aggregation.AggregateConstant` | cpu/cpu.py:111-125 | A constant list with a sample in the last minute averages to its value in all three windows. |
| `Aggregation.RisingSeries` | disk/disk.py:107-125 | Readings 10, 20, 30 and 40, delivered just after the last one, average to 25 in every window. |
| `Publisher.Payload` | disk/disk.py:58-62 | The body has exactly three keys. These are the metric's 1, 5 and 15-minute keys, bound to the matching averages. |
| `Publisher.PayloadRoundTrip` | ram/ram.py:58-62 | Reading the metric's three keys back from the body recovers the three averages. |
| `Publisher.PayloadForeign` | cpu/cpu.py:57-61 | One agent's body contains none of another agent's keys. |
| `Publisher.Retried` | disk/disk.py:56-69 | The retry loop's outcome as a relation: every attempt before the last raised, it stops at the first that does not, and it stops after three in any case. `RetriedUnique` shows the outcomes determine it, and `RetriedDelivers` when it succeeds. |
| `Publisher.Send` | disk/disk.py:56-69 | It makes 1 to 3 attempts. Every attempt before the last raised, and it stops at the first that does not raise. The failure message appears exactly when all three attempts raise. |
| `Publisher.RetriedUnique` | ram/ram.py:56-69 | The attempt outcomes determine the attempt count and the verdict. |
| `Publisher.RetriedDelivers` | cpu/cpu.py:55-68 | Delivery succeeds exactly when one of the first three attempts does not raise. Three POSTs are made exactly when the first two raise. |
| `Publisher.ThirdTimeLucky` | disk/disk.py:56-65 | An endpoint that fails twice and then accepts gets three attempts, and the send succeeds. |
| `Publisher.AllAttemptsFail` | disk/disk.py:66-69 | An endpoint that fails three times gets three attempts, and the send fails. |
| `Delivery.LeavesAfterWait` | disk/disk.py:97-101 | The disk agent leaves after its wait whenever the flag is set. The RAM and CPU agents leave only when they actually slept. |
| `Delivery.ExitChecksDiffer` | ram/ram.py:97-100 | A corollary of `LeavesAfterWait` at the cases that tell the agents apart. With the flag set and no sleep pending, only the disk agent leaves. After a sleep, every agent leaves. |
| `Delivery.FlagAtHead` | ram/ram.py:93 | The exit flag as the `while not exit.is_set()` test of tick `k` sees it: set before that test, or set during tick `k-1`'s wait. On the RAM and CPU agents, a flag set during a tick that did not sleep is first seen at the next tick's head. |
| `Delivery.Proceeds` | disk/disk.py:94-101 | Tick `k` passes both exit checks: the loop test at its head and the post-wait check, placed per agent as `LeavesAfterWait` states (ram/ram.py:93-100 for RAM and CPU). |
| `Delivery.Serve` | disk/disk.py:95-134 | One tick leaves after the wait exactly when its exit check says so. Otherwise it crashes exactly when the list it reads gives no averages, and sends otherwise. A sent report carries that list's averages and the retry outcome. The sampling thread has run exactly the tick's cycles more. |
| `Delivery.Deliver` | disk/disk.py:94-134 | Every report comes from a tick that passed both exit checks. It holds the means of the list left by all sampling cycles so far, and it was retried as the outcomes dictate. The loop stops on the exit flag or on an empty window, and the deadline advances exactly one post interval per completed tick. The list and the sampling thread's cycle count are those left by every tick the loop reached past its head test. |
| `Delivery.Agent` | ram/ram.py:82-134 | Starting from an empty list, every report is that of its tick. It exits only on a tick that fails an exit check. It crashes only on a tick that passed both exit checks and whose list had no sample within the minute. |
| `Delivery.FirstTickNeedsASample` | cpu/cpu.py:81-111 | A tick reached before the sampling thread completed any cycle fails on the empty 1-minute window. |
| `Delivery.ConstantSource` | cpu/cpu.py:17-125 | A source that keeps reading `x`, through any probe including the disk formula, is reported as `x` in all three windows. This holds for any tick whose last sampling cycle started within the minute and read its eviction clock less than 900 s after its start. |
| `Delivery.AveragesIgnoreRetention` | cpu/cpu.py:35-37 | With an eviction clock that never runs backwards and was last read no later than the tick's, the averages of the list the cycles leave equal those of every sample ever appended, with nothing evicted. |

## Left out

- Threads and the unsynchronised sharing of the list: a sampling cycle is one atomic step between delivery ticks. A cycle interrupted halfway by a delivery read is not modelled, and nothing is claimed about races.
- The sampling thread's own exit check: the model runs only the sampling cycles that complete before the delivery loop stops. The daemon thread is reaped at process exit.
- `threading.Event`, the signal handlers and `argparse`: they are process wiring. The exit flag is an input per tick (`Signal`).
- `time.time()` and the real sleeping in `exit.wait`: each clock reading is an input. Only the computed wait duration is modelled.
- `psutil.cpu_percent`, `psutil.virtual_memory` and `shutil.disk_usage`: their readings are inputs (`Probe`).
- `Metrics.DiskPercent`: the filesystem total is assumed positive. A zero total would raise in the sampling thread, which is not modelled.
- `requests.post` and the network: each attempt's outcome (raised or not) is an input. HTTP status codes are never looked at by the source either.
- `Delivery.Serve`: a report does not carry the JSON body. The body of every attempt is `Publisher.Payload(m, averages)`, whose contract is stated separately.
- A tick reads the list once (`seen`). The source reads it in three separate comprehensions (disk/disk.py:108-110, 115-117 and 122-124), and a sampling cycle could complete between them. That interleaving is not modelled.
- A probe that raises (`shutil.disk_usage` on a missing path, say) ends the sampling thread. The model shows this only as ticks that carry no further sampling cycles.
- `print`, the verbose output and the millisecond timestamp formatting: they are output only.
- IEEE floating point: timestamps and values are reals, and no claim is made about bit-exact averages.
