/**
  What distinguishes the three agents: the metric each one reports, the
  reading it takes from the operating system, the names of its payload keys
  and where its delivery loop checks the exit flag.
 */
module Metrics {

  datatype Metric = Cpu | Ram | Disk

  /** The prefix of the metric's payload keys. */
  function Name(m: Metric): string
  {
    match m
    case Cpu => "cpu"
    case Ram => "ram"
    case Disk => "disk"
  }

  /** The three trailing windows. */
  datatype Span = OneMin | FiveMin | FifteenMin

  /** Length of a window in seconds. */
  function Seconds(w: Span): real
  {
    match w
    case OneMin => 60.0
    case FiveMin => 300.0
    case FifteenMin => 900.0
  }

  function Label(w: Span): string
  {
    match w
    case OneMin => "1min"
    case FiveMin => "5min"
    case FifteenMin => "15min"
  }

  /** `'<metric>_usage_<window>_avg'`. */
  function Key(m: Metric, w: Span): string
  {
    Name(m) + "_usage_" + Label(w) + "_avg"
  }

  /** The nine keys as they appear in the three agents' JSON bodies. */
  lemma KeySpelling()
    ensures Key(Cpu, OneMin) == "cpu_usage_1min_avg"
    ensures Key(Cpu, FiveMin) == "cpu_usage_5min_avg"
    ensures Key(Cpu, FifteenMin) == "cpu_usage_15min_avg"
    ensures Key(Ram, OneMin) == "ram_usage_1min_avg"
    ensures Key(Ram, FiveMin) == "ram_usage_5min_avg"
    ensures Key(Ram, FifteenMin) == "ram_usage_15min_avg"
    ensures Key(Disk, OneMin) == "disk_usage_1min_avg"
    ensures Key(Disk, FiveMin) == "disk_usage_5min_avg"
    ensures Key(Disk, FifteenMin) == "disk_usage_15min_avg"
  {
  }

  /** Different metrics or windows never share a payload key. */
  lemma KeyInjective(m1: Metric, w1: Span, m2: Metric, w2: Span)
    ensures Key(m1, w1) == Key(m2, w2) <==> m1 == m2 && w1 == w2
  {
    var k1, k2 := Key(m1, w1), Key(m2, w2);
    var n1, n2 := |Name(m1)|, |Name(m2)|;
    assert k1[0] == Name(m1)[0] && k2[0] == Name(m2)[0];
    if m1 == m2 && w1 != w2 {
      assert k1[n1 + 7] == Label(w1)[0] && k2[n1 + 7] == Label(w2)[0];
      assert k1[n1 + 8] == Label(w1)[1] && k2[n1 + 8] == Label(w2)[1];
    }
  }

  /** The three keys of one metric are distinct. */
  lemma KeysDistinct(m: Metric)
    ensures |{Key(m, OneMin), Key(m, FiveMin), Key(m, FifteenMin)}| == 3
  {
    KeyInjective(m, OneMin, m, FiveMin);
    KeyInjective(m, OneMin, m, FifteenMin);
    KeyInjective(m, FiveMin, m, FifteenMin);
  }

  type Positive = n: int | n > 0 witness 1

  /** What one sampling cycle reads from the operating system: a percentage
      (`psutil.cpu_percent()`, `psutil.virtual_memory().percent`) or the free
      and total bytes of a filesystem (`shutil.disk_usage(path)`). */
  datatype Probe = Percent(percent: real) | DiskSpace(free: int, total: Positive)

  /** `100 - (free / total) * 100`: the used share of the filesystem. */
  function DiskPercent(free: int, total: Positive): (pct: real)
    ensures 0 <= free <= total ==> 0.0 <= pct <= 100.0
    ensures free == total <==> pct == 0.0
    ensures free == 0 <==> pct == 100.0
    ensures pct * (total as real) == ((total - free) * 100) as real
  {
    100.0 - ((free as real) / (total as real)) * 100.0
  }

  /** The sample value a probe yields. */
  function Reading(p: Probe): real
  {
    match p
    case Percent(v) => v
    case DiskSpace(free, total) => DiskPercent(free, total)
  }

  /** Whether the delivery loop's post-wait exit check also runs when it did not sleep. */
  datatype ExitCheck = EveryTick | AfterSleepOnly

  function ExitCheckOf(m: Metric): ExitCheck
  {
    if m == Disk then EveryTick else AfterSleepOnly
  }
}
