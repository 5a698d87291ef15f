/**
  `send_<metric>_usage`: the JSON body with the three averages, and the
  bounded retry around the POST. Each attempt's outcome is an input: whether
  `requests.post` raised. The HTTP status is never looked at.
 */
module Publisher {
  import opened Wrappers
  import opened Metrics
  import opened Aggregation

  /** `for i in range(3)` */
  const MaxAttempts: nat := 3

  /** The JSON body: the metric's three keys bound to the 1, 5 and 15-minute averages. */
  function Payload(m: Metric, a: Averages): (body: map<string, real>)
    ensures |body| == 3
    ensures forall w :: Key(m, w) in body && body[Key(m, w)] == a.Of(w)
    ensures forall k :: k in body ==> k == Key(m, OneMin) || k == Key(m, FiveMin) || k == Key(m, FifteenMin)
  {
    KeysDistinct(m);
    KeyInjective(m, OneMin, m, FiveMin);
    KeyInjective(m, OneMin, m, FifteenMin);
    KeyInjective(m, FiveMin, m, FifteenMin);
    map[Key(m, OneMin) := a.oneMin, Key(m, FiveMin) := a.fiveMin, Key(m, FifteenMin) := a.fifteenMin]
  }

  /** How the monitor reads a body back: the three keys of metric `m`, if all are present. */
  function Decode(m: Metric, body: map<string, real>): Option<Averages>
  {
    if Key(m, OneMin) in body && Key(m, FiveMin) in body && Key(m, FifteenMin) in body then
      Some(Averages(body[Key(m, OneMin)], body[Key(m, FiveMin)], body[Key(m, FifteenMin)]))
    else
      None
  }

  /** The body carries the three averages of its own metric without loss. */
  lemma PayloadRoundTrip(m: Metric, a: Averages)
    ensures Decode(m, Payload(m, a)) == Some(a)
  {
    var body := Payload(m, a);
    assert body[Key(m, OneMin)] == a.Of(OneMin);
    assert body[Key(m, FiveMin)] == a.Of(FiveMin);
    assert body[Key(m, FifteenMin)] == a.Of(FifteenMin);
  }

  /** A body of one agent carries none of another agent's keys. */
  lemma PayloadForeign(m: Metric, other: Metric, a: Averages, w: Span)
    requires m != other
    ensures Key(other, w) !in Payload(m, a)
    ensures Decode(other, Payload(m, a)) == None
  {
    KeyInjective(m, OneMin, other, w);
    KeyInjective(m, FiveMin, other, w);
    KeyInjective(m, FifteenMin, other, w);
    KeyInjective(m, OneMin, other, OneMin);
    KeyInjective(m, FiveMin, other, OneMin);
    KeyInjective(m, FifteenMin, other, OneMin);
  }

  /** What `send_<metric>_usage` did with the attempt outcomes `raises`
      (`raises[i]`: attempt `i` raised): it made `attempts` POSTs, every one
      but the last raised, it stopped at the first that did not raise, and it
      stopped after the third in any case. */
  ghost predicate Retried(raises: seq<bool>, attempts: nat, delivered: bool)
  {
    && 1 <= attempts <= MaxAttempts <= |raises|
    && (forall i :: 0 <= i < attempts - 1 ==> raises[i])
    && (delivered <==> !raises[attempts - 1])
    && (attempts < MaxAttempts ==> delivered)
  }

  /** The retry loop. `gaveUp` is the "Failed to send data" message, printed
      when attempt `i == 2` raises. */
  method Send(raises: seq<bool>) returns (attempts: nat, delivered: bool, gaveUp: bool)
    requires |raises| >= MaxAttempts
    ensures Retried(raises, attempts, delivered)
    ensures gaveUp <==> forall i :: 0 <= i < MaxAttempts ==> raises[i]
    ensures gaveUp <==> !delivered
  {
    attempts, delivered, gaveUp := 0, false, false;
    var i := 0;
    while i < MaxAttempts
      invariant 0 <= i <= MaxAttempts
      invariant attempts == i && !delivered
      invariant forall j :: 0 <= j < i ==> raises[j]
      invariant gaveUp <==> i == MaxAttempts
    {
      attempts := attempts + 1;
      if !raises[i] {
        delivered := true;
        break;
      }
      if i == 2 {
        gaveUp := true;
      }
      i := i + 1;
    }
  }

  /** The outcomes determine the attempt count and the verdict: there is one
      way to have retried. */
  lemma RetriedUnique(raises: seq<bool>, a1: nat, d1: bool, a2: nat, d2: bool)
    requires Retried(raises, a1, d1) && Retried(raises, a2, d2)
    ensures a1 == a2 && d1 == d2
  {
  }

  /** Delivery succeeds exactly when one of the first three attempts does not
      raise, and the POST is made three times exactly when the first two raise. */
  lemma RetriedDelivers(raises: seq<bool>, attempts: nat, delivered: bool)
    requires Retried(raises, attempts, delivered)
    ensures delivered <==> exists i :: 0 <= i < MaxAttempts && !raises[i]
    ensures attempts == MaxAttempts <==> raises[0] && raises[1]
  {
    if delivered {
      assert !raises[attempts - 1];
    }
  }

  /** The endpoint fails all three times: three attempts, then the failure message. */
  lemma AllAttemptsFail(attempts: nat, delivered: bool)
    requires Retried([true, true, true], attempts, delivered)
    ensures attempts == 3 && !delivered
  {
    RetriedUnique([true, true, true], attempts, delivered, 3, false);
  }

  /** The endpoint fails twice and accepts the third POST: three attempts, success. */
  lemma ThirdTimeLucky(attempts: nat, delivered: bool)
    requires Retried([true, true, false], attempts, delivered)
    ensures attempts == 3 && delivered
  {
    RetriedUnique([true, true, false], attempts, delivered, 3, true);
  }
}
