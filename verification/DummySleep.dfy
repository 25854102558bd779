/** WriteDummy: sleeping as long as writing the dummy bytes would have taken. Line numbers are those
    of src/consumer/consumer.cpp. */
module DummySleep {
  import opened Ratios

  const SLICE: nat := 10000

  function Target(ownerWritten: nat, ownerLatency: nat, ownWritten: nat, ownLatency: nat): (bw: real)
    requires 0 < ownerWritten && 0 < ownWritten && 0 < ownerLatency && 0 < ownLatency
    ensures 0.0 < bw
  {
    PositiveQuotient(ownerWritten as real, ownerLatency as real);
    PositiveQuotient(ownWritten as real, ownLatency as real);
    (ownerWritten as real / ownerLatency as real + ownWritten as real / ownLatency as real) / 2.0
  }

  lemma NonNegativeQuotient(a: real, b: real)
    requires 0.0 <= a && 0.0 < b
    ensures 0.0 <= a / b
  {}

  /** Lines 386-393. A latency of 0 makes the bandwidth infinite and the time 0. */
  function SleepRequest(extraBytes: nat, ownerWritten: nat, ownerLatency: nat,
                        ownWritten: nat, ownLatency: nat): (t: real)
    requires 0 < ownerWritten && 0 < ownWritten
    ensures 0.0 <= t
    ensures ownerLatency == 0 || ownLatency == 0 ==> t == 0.0
  {
    if ownerLatency == 0 || ownLatency == 0 then 0.0
    else
      var target := Target(ownerWritten, ownerLatency, ownWritten, ownLatency);
      NonNegativeQuotient(extraBytes as real, target);
      extraBytes as real / target
  }

  lemma Slower(bytes: real, t: real, m: real, b: real)
    requires 0.0 <= t && t * m == bytes && m <= b && 0.0 < b
    ensures bytes / b <= t
  {
    MulLe(m, b, t);
    DivLe(bytes, t, b);
  }

  lemma Faster(bytes: real, t: real, m: real, a: real)
    requires 0.0 <= t && t * m == bytes && a <= m && 0.0 < a
    ensures t <= bytes / a
  {
    MulLe(a, m, t);
    DivLe(bytes, t, a);
  }

  lemma MeanBetween(bytes: real, a: real, b: real)
    requires 0.0 <= bytes && 0.0 < a && 0.0 < b
    ensures var t := bytes / ((a + b) / 2.0);
            && t * (a + b) == 2.0 * bytes
            && (a <= b ==> bytes / b <= t <= bytes / a) && (b <= a ==> bytes / a <= t <= bytes / b)
  {
    var m := (a + b) / 2.0;
    var t := bytes / m;
    assert t * m == bytes && 0.0 <= t;
    assert t * (a + b) == 2.0 * (t * m);
    if a <= b {
      Slower(bytes, t, m, b);
      Faster(bytes, t, m, a);
    }
    if b <= a {
      Slower(bytes, t, m, a);
      Faster(bytes, t, m, b);
    }
  }

  /** The injected delay imitates writing at the mean of the two bandwidths, whichever is larger: it
      lies between the times at either of them. */
  lemma RequestBetweenBandwidths(extraBytes: nat, ow: nat, ol: nat, tw: nat, tl: nat)
    requires 0 < ow && 0 < tw && 0 < ol && 0 < tl
    ensures var t := SleepRequest(extraBytes, ow, ol, tw, tl);
            var owner, own := ow as real / ol as real, tw as real / tl as real;
            && t * (owner + own) == 2.0 * extraBytes as real
            && (owner <= own ==> extraBytes as real / own <= t <= extraBytes as real / owner)
            && (own <= owner ==> extraBytes as real / owner <= t <= extraBytes as real / own)
  {
    PositiveQuotient(ow as real, ol as real);
    PositiveQuotient(tw as real, tl as real);
    MeanBetween(extraBytes as real, ow as real / ol as real, tw as real / tl as real);
  }

  /** The stop flag is never taken back. */
  ghost predicate Stays(stop: nat -> bool) {
    forall j, k :: j <= k && stop(j) ==> stop(k)
  }

  /** Lines 396-416. The k-th sleep call takes oversleep(k) microseconds longer than asked, and
      the k-th reading of the stop flag gives stop(k). However many slices it takes, without a
      stop the sleep falls short of the request by less than a microsecond, and in no case does
      it exceed the request by more than the oversleep of its last call. All calls but the last ask
      for 10 ms and the last for no more; and if the flag is set for good at some reading, no sleep
      follows it. */
  method InjectSleep(request: real, start: nat, oversleep: nat -> nat, stop: nat -> bool)
    returns (elapsed: nat, calls: nat)
    requires 0.0 <= request
    ensures (forall k :: !stop(k)) ==> request - 1.0 < elapsed as real
    ensures calls == 0 ==> elapsed == 0
    ensures 0 < calls ==> elapsed as real <= request + oversleep(calls - 1) as real
    ensures 0 < calls ==> 10000 * (calls - 1) <= elapsed
    ensures Stays(stop) && (forall k :: oversleep(k) == 0) ==> elapsed <= 10000 * calls
    ensures Stays(stop) ==> forall k :: stop(k) ==> calls <= k
  {
    var remaining := request;
    var now, timer, polls := start, start, 0;
    calls := 0;
    while remaining > SLICE as real && !stop(polls)
      invariant timer == now && start <= now && calls == polls
      invariant remaining == request - (now - start) as real
      invariant calls == 0 ==> now == start
      invariant 0 < calls ==> -(oversleep(calls - 1) as real) <= remaining
      invariant 10000 * calls <= now - start
      invariant (forall k :: oversleep(k) == 0) ==> now - start == 10000 * calls
      invariant forall k :: 0 <= k < polls ==> !stop(k)
      decreases remaining.Floor
    {
      now := now + SLICE + oversleep(calls);
      calls := calls + 1;
      polls := polls + 1;
      var curr := now;
      remaining := remaining - (curr - timer) as real;
      timer := curr;
    }
    // a poll that ended the loop is followed by a new one
    polls := if remaining > SLICE as real then polls + 1 else polls;
    if remaining > 0.0 && !stop(polls) {
      now := now + remaining.Floor + oversleep(calls);
      calls := calls + 1;
    }
    elapsed := now - start;
  }
}
