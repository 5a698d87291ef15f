/**
  Timestamped samples and the filters the agent applies to its shared list:
  the retention filter (`date > cutoff`), the value windows built from it,
  and the arithmetic mean taken of a window.
 */
module Samples {

  /** One entry of the shared list: `{'date': t, '<metric>_percent': v}`. */
  datatype Sample = Sample(date: real, value: real)

  /** The samples of `s` strictly newer than `cutoff`, in list order. */
  function Retained(s: seq<Sample>, cutoff: real): seq<Sample>
  {
    if s == [] then []
    else if s[|s| - 1].date > cutoff then Retained(s[..|s| - 1], cutoff) + [s[|s| - 1]]
    else Retained(s[..|s| - 1], cutoff)
  }

  /** The values of the samples, in order. */
  function Values(s: seq<Sample>): (v: seq<real>)
    ensures |v| == |s|
    ensures forall i :: 0 <= i < |s| ==> v[i] == s[i].value
  {
    seq(|s|, i requires 0 <= i < |s| => s[i].value)
  }

  /** The values of the samples strictly newer than `cutoff`. */
  function Window(s: seq<Sample>, cutoff: real): seq<real>
  {
    Values(Retained(s, cutoff))
  }

  function Sum(v: seq<real>): real
  {
    if v == [] then 0.0 else Sum(v[..|v| - 1]) + v[|v| - 1]
  }

  /** `sum(v) / len(v)`; division by zero when `v` is empty. */
  function Mean(v: seq<real>): (m: real)
    requires |v| > 0
    ensures m * (|v| as real) == Sum(v)
  {
    Sum(v) / (|v| as real)
  }

  /** `f` maps the positions of `a` to increasing positions of `b` holding the same elements. */
  ghost predicate Embeds<T>(f: seq<int>, a: seq<T>, b: seq<T>)
  {
    && |f| == |a|
    && (forall i :: 0 <= i < |f| ==> 0 <= f[i] < |b| && a[i] == b[f[i]])
    && (forall i, j :: 0 <= i < j < |f| ==> f[i] < f[j])
  }

  /** `a` is `b` with some elements left out and the rest in their original order. */
  ghost predicate IsSubseq<T>(a: seq<T>, b: seq<T>)
  {
    exists f :: Embeds(f, a, b)
  }

  // ---------------------------------------------------------------------
  // The retention filter

  /** Filtering a concatenation filters each part. With the singleton cases of
      `Retained`, this pins the filter down: it keeps exactly the newer samples,
      in their original order. */
  lemma {:induction false} RetainedConcat(a: seq<Sample>, b: seq<Sample>, cutoff: real)
    ensures Retained(a + b, cutoff) == Retained(a, cutoff) + Retained(b, cutoff)
    decreases |b|
  {
    if b == [] {
      assert a + b == a;
    } else {
      var b' := b[..|b| - 1];
      assert (a + b)[..|a + b| - 1] == a + b';
      assert (a + b)[|a + b| - 1] == b[|b| - 1];
      RetainedConcat(a, b', cutoff);
    }
  }

  /** A sample survives the filter exactly when it is in the list and newer than the cutoff. */
  lemma {:induction false} RetainedMembers(s: seq<Sample>, cutoff: real)
    ensures forall x :: x in Retained(s, cutoff) <==> x in s && x.date > cutoff
  {
    if s != [] {
      var s' := s[..|s| - 1];
      RetainedMembers(s', cutoff);
      assert s == s' + [s[|s| - 1]];
    }
  }

  /** A list whose samples are all newer than the cutoff passes the filter unchanged. */
  lemma {:induction false} RetainedAllNewer(s: seq<Sample>, cutoff: real)
    requires forall i :: 0 <= i < |s| ==> s[i].date > cutoff
    ensures Retained(s, cutoff) == s
  {
    if s != [] {
      RetainedAllNewer(s[..|s| - 1], cutoff);
    }
  }

  /** Filtering at an earlier cutoff and then at a later one is filtering at the
      later one: the narrower window is the wider window filtered further. */
  lemma {:induction false} RetainedNested(s: seq<Sample>, earlier: real, later: real)
    requires earlier <= later
    ensures Retained(Retained(s, earlier), later) == Retained(s, later)
  {
    if s != [] {
      var s' := s[..|s| - 1];
      var x := s[|s| - 1];
      RetainedNested(s', earlier, later);
      if x.date > earlier {
        RetainedConcat(Retained(s', earlier), [x], later);
      }
    }
  }

  /** The filter only leaves samples out; what it keeps stays in order. */
  lemma {:induction false} RetainedSubseq(s: seq<Sample>, cutoff: real)
    ensures IsSubseq(Retained(s, cutoff), s)
  {
    if s == [] {
      assert Embeds([], Retained(s, cutoff), s);
    } else {
      var s' := s[..|s| - 1];
      var x := s[|s| - 1];
      RetainedSubseq(s', cutoff);
      var f :| Embeds(f, Retained(s', cutoff), s');
      if x.date > cutoff {
        assert Embeds(f + [|s'|], Retained(s, cutoff), s);
      } else {
        assert Embeds(f, Retained(s, cutoff), s);
      }
    }
  }

  // ---------------------------------------------------------------------
  // Subsequences

  lemma SubseqTransitive<T>(a: seq<T>, b: seq<T>, c: seq<T>)
    requires IsSubseq(a, b) && IsSubseq(b, c)
    ensures IsSubseq(a, c)
  {
    var f :| Embeds(f, a, b);
    var g :| Embeds(g, b, c);
    var h := seq(|f|, i requires 0 <= i < |f| => g[f[i]]);
    assert Embeds(h, a, c);
  }

  lemma SubseqAppend<T>(a: seq<T>, b: seq<T>, x: T)
    requires IsSubseq(a, b)
    ensures IsSubseq(a + [x], b + [x])
  {
    var f :| Embeds(f, a, b);
    assert Embeds(f + [|b|], a + [x], b + [x]);
  }

  lemma SubseqValues(a: seq<Sample>, b: seq<Sample>)
    requires IsSubseq(a, b)
    ensures IsSubseq(Values(a), Values(b))
  {
    var f :| Embeds(f, a, b);
    assert Embeds(f, Values(a), Values(b));
  }

  // ---------------------------------------------------------------------
  // Windows

  /** For cutoffs `earlier <= later`, the later window is a subsequence of the
      earlier one, and it is the same whether or not the list was first cut at
      `earlier` (so eviction at 900 s never changes the 60 s or 300 s window). */
  lemma WindowNested(s: seq<Sample>, earlier: real, later: real)
    requires earlier <= later
    ensures Window(Retained(s, earlier), later) == Window(s, later)
    ensures IsSubseq(Window(s, later), Window(s, earlier))
  {
    RetainedNested(s, earlier, later);
    RetainedSubseq(Retained(s, earlier), later);
    SubseqValues(Retained(s, later), Retained(s, earlier));
  }

  /** A window holds a value exactly when some sample newer than the cutoff exists. */
  lemma WindowEmpty(s: seq<Sample>, cutoff: real)
    ensures Window(s, cutoff) == [] <==> forall i :: 0 <= i < |s| ==> s[i].date <= cutoff
  {
    RetainedMembers(s, cutoff);
    if Window(s, cutoff) != [] {
      var x := Retained(s, cutoff)[0];
      assert x in Retained(s, cutoff);
    } else {
      forall i | 0 <= i < |s| ensures s[i].date <= cutoff {
        assert s[i] in s;
      }
    }
  }

  /** Bounds on every value of the list carry over to every value of a window. */
  lemma WindowValues(s: seq<Sample>, cutoff: real, lo: real, hi: real)
    requires forall i :: 0 <= i < |s| ==> lo <= s[i].value <= hi
    ensures forall i :: 0 <= i < |Window(s, cutoff)| ==> lo <= Window(s, cutoff)[i] <= hi
  {
    RetainedMembers(s, cutoff);
    var r := Retained(s, cutoff);
    forall i | 0 <= i < |r| ensures lo <= r[i].value <= hi {
      assert r[i] in s;
    }
  }

  // ---------------------------------------------------------------------
  // The mean

  lemma {:induction false} SumBounds(v: seq<real>, lo: real, hi: real)
    requires forall i :: 0 <= i < |v| ==> lo <= v[i] <= hi
    ensures lo * (|v| as real) <= Sum(v) <= hi * (|v| as real)
  {
    if v != [] {
      var v' := v[..|v| - 1];
      SumBounds(v', lo, hi);
      assert lo * (|v| as real) == lo * (|v'| as real) + lo;
      assert hi * (|v| as real) == hi * (|v'| as real) + hi;
    }
  }

  /** The mean of values in `[lo, hi]` lies in `[lo, hi]`. */
  lemma MeanBounds(v: seq<real>, lo: real, hi: real)
    requires |v| > 0
    requires forall i :: 0 <= i < |v| ==> lo <= v[i] <= hi
    ensures lo <= Mean(v) <= hi
  {
    SumBounds(v, lo, hi);
  }

  /** A window of identical values averages to that value. */
  lemma MeanConstant(v: seq<real>, x: real)
    requires |v| > 0
    requires forall i :: 0 <= i < |v| ==> v[i] == x
    ensures Mean(v) == x
  {
    MeanBounds(v, x, x);
  }
}
