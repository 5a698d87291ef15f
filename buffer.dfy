/**
  The list shared between the sampling thread and the delivery loop. Samples
  enter only at the tail and leave only through the 900-second eviction;
  no entry is ever changed in place.
 */
module SampleBuffer {
  import opened Samples

  /** The retention horizon, in seconds. */
  const Horizon: real := 900.0

  class Buffer {
    var samples: seq<Sample>

    /** `usage = []` */
    constructor ()
      ensures samples == []
    {
      samples := [];
    }

    /** `usage.append(sample)`: one sample at the tail, earlier entries unchanged. */
    method Append(s: Sample)
      modifies this
      ensures samples == old(samples) + [s]
      ensures forall i :: 0 <= i < |old(samples)| ==> samples[i] == old(samples)[i]
      ensures samples[|samples| - 1] == s
    {
      samples := samples + [s];
    }

    /** `usage[:] = [x for x in usage if x['date'] > now - 900]`: keeps, in order,
        exactly the samples strictly newer than the horizon. */
    method Evict(now: real)
      modifies this
      ensures samples == Retained(old(samples), now - Horizon)
      ensures forall x :: x in samples <==> x in old(samples) && x.date > now - Horizon
    {
      RetainedMembers(samples, now - Horizon);
      samples := Retained(samples, now - Horizon);
    }
  }
}
