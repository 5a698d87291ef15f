/**
  The sampling loop (`collect_<metric>_usage`): each cycle reads the metric,
  appends `{date: loop start, value}` to the shared list, evicts everything
  900 seconds old or older, and sleeps until the next drift-corrected deadline.
 */
module Sampling {
  import opened Samples
  import opened Schedule
  import opened Metrics
  import opened SampleBuffer

  /** The inputs of one sampling cycle: the three clock readings it takes
      (loop start, eviction, before the sleep) and what the probe returned. */
  datatype Cycle = Cycle(startedAt: real, probe: Probe, evictAt: real, waitAt: real)

  /** The sample a cycle appends. */
  function Fresh(c: Cycle): Sample
  {
    Sample(c.startedAt, Reading(c.probe))
  }

  /** The list after one cycle: append, then evict. */
  function Step(s: seq<Sample>, c: Cycle): seq<Sample>
  {
    Retained(s + [Fresh(c)], c.evictAt - Horizon)
  }

  /** The list after running the cycles `cs` in order. */
  function Collect(s: seq<Sample>, cs: seq<Cycle>): seq<Sample>
  {
    if cs == [] then s else Step(Collect(s, cs[..|cs| - 1]), cs[|cs| - 1])
  }

  /** Every sample the cycles `cs` create, in creation order. */
  function Appended(cs: seq<Cycle>): (r: seq<Sample>)
    ensures |r| == |cs|
    ensures forall i :: 0 <= i < |cs| ==> r[i] == Fresh(cs[i])
  {
    seq(|cs|, i requires 0 <= i < |cs| => Fresh(cs[i]))
  }

  /** The cycles' eviction clock readings never go backwards. */
  ghost predicate MonotoneEviction(cs: seq<Cycle>)
  {
    forall i, j :: 0 <= i < j < |cs| ==> cs[i].evictAt <= cs[j].evictAt
  }

  /** Running two batches of cycles one after the other is running them together. */
  lemma {:induction false} CollectConcat(s: seq<Sample>, a: seq<Cycle>, b: seq<Cycle>)
    ensures Collect(s, a + b) == Collect(Collect(s, a), b)
    decreases |b|
  {
    if b == [] {
      assert a + b == a;
    } else {
      assert (a + b)[..|a + b| - 1] == a + b[..|b| - 1];
      assert (a + b)[|a + b| - 1] == b[|b| - 1];
      CollectConcat(s, a, b[..|b| - 1]);
    }
  }

  /** A cycle whose eviction happens within 900 s of its start keeps its own
      sample, at the tail, after the retained earlier entries. */
  lemma StepKeepsFresh(s: seq<Sample>, c: Cycle)
    requires c.startedAt > c.evictAt - Horizon
    ensures Step(s, c) == Retained(s, c.evictAt - Horizon) + [Fresh(c)]
    ensures Step(s, c)[|Step(s, c)| - 1] == Fresh(c)
  {
    RetainedConcat(s, [Fresh(c)], c.evictAt - Horizon);
  }

  /** After any cycle, every sample in the list is strictly less than 900 s
      older than that cycle's eviction clock reading. */
  lemma CollectRetention(s: seq<Sample>, cs: seq<Cycle>)
    requires cs != []
    ensures forall x :: x in Collect(s, cs) ==> x.date > cs[|cs| - 1].evictAt - Horizon
  {
    var c := cs[|cs| - 1];
    RetainedMembers(Collect(s, cs[..|cs| - 1]) + [Fresh(c)], c.evictAt - Horizon);
  }

  /** Eviction is the only way out and nothing is reordered: the list is
      always a subsequence of the initial list followed by every sample appended. */
  lemma {:induction false} CollectSubseq(s: seq<Sample>, cs: seq<Cycle>)
    ensures IsSubseq(Collect(s, cs), s + Appended(cs))
  {
    if cs == [] {
      assert Embeds(seq(|s|, i => i), s, s + Appended(cs));
    } else {
      var init, c := cs[..|cs| - 1], cs[|cs| - 1];
      CollectSubseq(s, init);
      SubseqAppend(Collect(s, init), s + Appended(init), Fresh(c));
      RetainedSubseq(Collect(s, init) + [Fresh(c)], c.evictAt - Horizon);
      assert s + Appended(cs) == (s + Appended(init)) + [Fresh(c)];
      SubseqTransitive(Collect(s, cs), Collect(s, init) + [Fresh(c)], s + Appended(cs));
    }
  }

  /** Every value in the list was read by a probe: if the initial list and
      every reading lie in `[lo, hi]`, so does every value the list holds. */
  lemma {:induction false} CollectValues(s: seq<Sample>, cs: seq<Cycle>, lo: real, hi: real)
    requires forall i :: 0 <= i < |s| ==> lo <= s[i].value <= hi
    requires forall i :: 0 <= i < |cs| ==> lo <= Reading(cs[i].probe) <= hi
    ensures forall i :: 0 <= i < |Collect(s, cs)| ==> lo <= Collect(s, cs)[i].value <= hi
  {
    if cs != [] {
      var init, c := cs[..|cs| - 1], cs[|cs| - 1];
      CollectValues(s, init, lo, hi);
      var t := Collect(s, init) + [Fresh(c)];
      RetainedMembers(t, c.evictAt - Horizon);
      forall i | 0 <= i < |Collect(s, cs)| ensures lo <= Collect(s, cs)[i].value <= hi {
        assert Collect(s, cs)[i] in t;
      }
    }
  }

  /** With a clock that does not run backwards, evicting after every append
      leaves exactly what one eviction at the last cycle's clock reading would:
      every sample ever held that is strictly newer than 900 s before it. */
  lemma {:induction false} CollectOneShot(s: seq<Sample>, cs: seq<Cycle>)
    requires cs != []
    requires MonotoneEviction(cs)
    ensures Collect(s, cs) == Retained(s + Appended(cs), cs[|cs| - 1].evictAt - Horizon)
  {
    var init, c := cs[..|cs| - 1], cs[|cs| - 1];
    var held := s + Appended(init);
    AppendedSnoc(s, cs);
    if init == [] {
      assert held == s;
    } else {
      MonotonePrefix(cs);
      CollectOneShot(s, init);
      EvictAgain(held, Fresh(c), init[|init| - 1].evictAt - Horizon, c.evictAt - Horizon);
    }
  }

  lemma AppendedSnoc(s: seq<Sample>, cs: seq<Cycle>)
    requires cs != []
    ensures s + Appended(cs) == (s + Appended(cs[..|cs| - 1])) + [Fresh(cs[|cs| - 1])]
  {
    assert Appended(cs) == Appended(cs[..|cs| - 1]) + [Fresh(cs[|cs| - 1])];
  }

  lemma MonotonePrefix(cs: seq<Cycle>)
    requires |cs| >= 2
    requires MonotoneEviction(cs)
    ensures MonotoneEviction(cs[..|cs| - 1])
    ensures cs[|cs| - 2].evictAt <= cs[|cs| - 1].evictAt
  {
  }

  /** Appending to a list already cut at `earlier` and cutting at `later`
      is appending to the uncut list and cutting at `later`. */
  lemma EvictAgain(held: seq<Sample>, x: Sample, earlier: real, later: real)
    requires earlier <= later
    ensures Retained(Retained(held, earlier) + [x], later) == Retained(held + [x], later)
  {
    RetainedConcat(Retained(held, earlier), [x], later);
    RetainedNested(held, earlier, later);
    RetainedConcat(held, [x], later);
  }

  /** The state of one sampling thread: its list, its cadence and its next deadline. */
  class Collector {
    const buffer: Buffer
    const startedAt: real
    const interval: int
    var next: real
    ghost var cycles: nat

    /** The deadline is `started_at + (cycles + 1) * interval`. */
    ghost predicate Valid()
      reads this
    {
      next == TickAt(startedAt, interval, cycles)
    }

    /** `started_at = time.time(); next = started_at + interval` */
    constructor (buffer: Buffer, startedAt: real, interval: int)
      ensures Valid() && cycles == 0
      ensures this.buffer == buffer && this.startedAt == startedAt && this.interval == interval
      ensures next == startedAt + interval as real
    {
      this.buffer := buffer;
      this.startedAt := startedAt;
      this.interval := interval;
      next := startedAt + interval as real;
      cycles := 0;
    }

    /** One pass of the `while not exit.is_set()` body. */
    method RunCycle(c: Cycle) returns (pause: Pause)
      requires Valid()
      modifies this, buffer
      ensures Valid() && cycles == old(cycles) + 1
      ensures next == old(next) + interval as real
      ensures buffer.samples == Step(old(buffer.samples), c)
      ensures pause == PauseUntil(TickAt(startedAt, interval, old(cycles)), c.waitAt)
    {
      var usage := Fresh(c);
      buffer.Append(usage);
      buffer.Evict(c.evictAt);
      pause := PauseUntil(next, c.waitAt);
      TickAdvance(startedAt, interval, cycles);
      next := next + interval as real;
      cycles := cycles + 1;
    }

    /** The loop run for the cycles `cs`, which happen before the exit flag is seen. */
    method Run(cs: seq<Cycle>) returns (pauses: seq<Pause>)
      requires Valid()
      modifies this, buffer
      ensures Valid() && cycles == old(cycles) + |cs|
      ensures next == TickAt(startedAt, interval, old(cycles) + |cs|)
      ensures buffer.samples == Collect(old(buffer.samples), cs)
      ensures |pauses| == |cs|
      ensures forall j :: 0 <= j < |cs| ==>
        pauses[j] == PauseUntil(TickAt(startedAt, interval, old(cycles) + j), cs[j].waitAt)
    {
      pauses := [];
      var k := 0;
      while k < |cs|
        invariant 0 <= k <= |cs|
        invariant Valid() && cycles == old(cycles) + k
        invariant buffer.samples == Collect(old(buffer.samples), cs[..k])
        invariant |pauses| == k
        invariant forall j :: 0 <= j < k ==>
          pauses[j] == PauseUntil(TickAt(startedAt, interval, old(cycles) + j), cs[j].waitAt)
      {
        var pause := RunCycle(cs[k]);
        assert cs[..k + 1][..k] == cs[..k];
        pauses := pauses + [pause];
        k := k + 1;
      }
      assert cs[..k] == cs;
    }
  }
}
