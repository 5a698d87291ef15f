/**
  What a delivery tick computes from the shared list: the values of the
  samples of the last 60, 300 and 900 seconds and the mean of each.
 */
module Aggregation {
  import opened Wrappers
  import opened Samples
  import opened Metrics
  import SampleBuffer

  /** The three means handed to `send_<metric>_usage`. */
  datatype Averages = Averages(oneMin: real, fiveMin: real, fifteenMin: real)
  {
    function Of(w: Span): real
    {
      match w
      case OneMin => oneMin
      case FiveMin => fiveMin
      case FifteenMin => fifteenMin
    }
  }

  /** `[x['<metric>_percent'] for x in usage if x['date'] > now - seconds]` */
  function WindowAt(s: seq<Sample>, now: real, w: Span): seq<real>
  {
    Window(s, now - Seconds(w))
  }

  /** The three means, computed in the order of the source. `None` is the
      `ZeroDivisionError` raised by the first empty window. */
  function Aggregate(s: seq<Sample>, now: real): Option<Averages>
  {
    var w1 := WindowAt(s, now, OneMin);
    if |w1| == 0 then None
    else
      var w5 := WindowAt(s, now, FiveMin);
      if |w5| == 0 then None
      else
        var w15 := WindowAt(s, now, FifteenMin);
        if |w15| == 0 then None
        else Some(Averages(Mean(w1), Mean(w5), Mean(w15)))
  }

  /** The 1-minute window is a subsequence of the 5-minute window, which is a
      subsequence of the 15-minute window. */
  lemma WindowsNested(s: seq<Sample>, now: real)
    ensures IsSubseq(WindowAt(s, now, OneMin), WindowAt(s, now, FiveMin))
    ensures IsSubseq(WindowAt(s, now, FiveMin), WindowAt(s, now, FifteenMin))
  {
    WindowNested(s, now - 300.0, now - 60.0);
    WindowNested(s, now - 900.0, now - 300.0);
  }

  /** A tick fails exactly when no sample is newer than one minute. The
      `ZeroDivisionError` therefore always comes from the 1-minute division:
      the windows are nested, so the 5- and 15-minute windows are never empty
      while the 1-minute window holds a sample. */
  lemma AggregateFails(s: seq<Sample>, now: real)
    ensures Aggregate(s, now).None? <==> forall i :: 0 <= i < |s| ==> s[i].date <= now - 60.0
  {
    WindowEmpty(s, now - 60.0);
    WindowEmpty(s, now - 300.0);
    WindowEmpty(s, now - 900.0);
  }

  /** When a tick succeeds, each average is the mean (sum over length) of its
      own non-empty window. */
  lemma AggregateMeans(s: seq<Sample>, now: real, w: Span)
    requires Aggregate(s, now).Some?
    ensures |WindowAt(s, now, w)| > 0
    ensures Aggregate(s, now).value.Of(w) * (|WindowAt(s, now, w)| as real) == Sum(WindowAt(s, now, w))
  {
  }

  /** Averages of samples whose values lie in `[lo, hi]` lie in `[lo, hi]`; for
      percentages, every reported average is a percentage. */
  lemma AggregateBounds(s: seq<Sample>, now: real, lo: real, hi: real)
    requires forall i :: 0 <= i < |s| ==> lo <= s[i].value <= hi
    requires Aggregate(s, now).Some?
    ensures forall w :: lo <= Aggregate(s, now).value.Of(w) <= hi
  {
    forall w: Span ensures lo <= Aggregate(s, now).value.Of(w) <= hi {
      WindowValues(s, now - Seconds(w), lo, hi);
      MeanBounds(WindowAt(s, now, w), lo, hi);
    }
  }

  /** Evicting at 900 s before any clock reading no later than `now` changes no
      average: each window depends only on the samples inside it. */
  lemma AggregateIgnoresEviction(s: seq<Sample>, evictAt: real, now: real)
    requires evictAt <= now
    ensures Aggregate(Retained(s, evictAt - SampleBuffer.Horizon), now) == Aggregate(s, now)
  {
    var cut := evictAt - SampleBuffer.Horizon;
    WindowNested(s, cut, now - 60.0);
    WindowNested(s, cut, now - 300.0);
    WindowNested(s, cut, now - 900.0);
  }

  /** A constant series averages to its value in every window, once the last
      minute holds a sample (the `i`-th). */
  lemma AggregateConstant(s: seq<Sample>, now: real, x: real, i: int)
    requires forall i :: 0 <= i < |s| ==> s[i].value == x
    requires 0 <= i < |s| && s[i].date > now - 60.0
    ensures Aggregate(s, now) == Some(Averages(x, x, x))
  {
    AggregateFails(s, now);
    assert Aggregate(s, now).Some?;
    AggregateBounds(s, now, x, x);
    var a := Aggregate(s, now).value;
    assert a.Of(OneMin) == x && a.Of(FiveMin) == x && a.Of(FifteenMin) == x;
  }

  /** Readings 10, 20, 30, 40 at one-second ticks, delivered right after the
      last: every average is 25. */
  lemma RisingSeries()
    ensures Aggregate([Sample(1.0, 10.0), Sample(2.0, 20.0), Sample(3.0, 30.0), Sample(4.0, 40.0)], 4.5)
         == Some(Averages(25.0, 25.0, 25.0))
  {
    var s := [Sample(1.0, 10.0), Sample(2.0, 20.0), Sample(3.0, 30.0), Sample(4.0, 40.0)];
    var v := [10.0, 20.0, 30.0, 40.0];
    forall w: Span ensures WindowAt(s, 4.5, w) == v {
      RetainedAllNewer(s, 4.5 - Seconds(w));
    }
    RisingSum();
    assert Mean(v) == 25.0;
  }

  lemma RisingSum()
    ensures Sum([10.0, 20.0, 30.0, 40.0]) == 100.0
  {
    var v1, v2, v3, v4 := [10.0], [10.0, 20.0], [10.0, 20.0, 30.0], [10.0, 20.0, 30.0, 40.0];
    assert v1[..0] == [] && v2[..1] == v1 && v3[..2] == v2 && v4[..3] == v3;
  }
}
