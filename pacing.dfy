/** The drift-corrected sleep at the end of every poll: sleep until the next
    multiple of the poll interval counted from the moment the script started.
    Times are integers in milliseconds; for a positive interval the float
    remainder of the script and Dafny's `%` agree (both lie in [0, interval)). */
module Pacing {

  /** 300.0 seconds, in milliseconds. */
  const PollInterval: nat := 300_000

  /** `t` lies on the poll cadence that starts at `start`. */
  predicate OnCadence(start: int, interval: nat, t: int)
    requires interval > 0
  {
    (t - start) % interval == 0
  }

  /** A non-zero multiple of a positive interval is at least one interval away from zero. */
  lemma MultipleAtLeastInterval(n: nat, interval: nat)
    requires n >= 1
    ensures n * interval >= interval
  {
    if n > 1 {
      MultipleAtLeastInterval(n - 1, interval);
      assert n * interval == (n - 1) * interval + interval;
    }
  }

  /** `a + k` with `0 <= a` and `a + k < interval` leaves remainder `a + k`
      past any multiple of the interval. */
  lemma RemainderPastMultiple(interval: nat, q: int, a: int, k: int)
    requires interval > 0 && 0 <= a && 0 <= k && a + k < interval
    ensures (q * interval + a + k) % interval == a + k
  {
    var x := q * interval + a + k;
    var q', r' := x / interval, x % interval;
    assert q' * interval + r' == x;
    assert (q - q') * interval == r' - (a + k);
    if q' < q {
      MultipleAtLeastInterval(q - q', interval);
    } else if q' > q {
      MultipleAtLeastInterval(q' - q, interval);
    }
  }

  /** The sleep taken at clock reading `now`. */
  function SleepFor(interval: nat, start: int, now: int): (r: nat)
    requires interval > 0
    ensures 0 < r <= interval
    ensures OnCadence(start, interval, now + r)
    ensures forall t :: now < t < now + r ==> !OnCadence(start, interval, t)
  {
    var q, m := (now - start) / interval, (now - start) % interval;
    var r := interval - m;
    assert now - start == q * interval + m;
    assert OnCadence(start, interval, now + r) by {
      assert (q + 1) * interval == q * interval + interval;
      RemainderPastMultiple(interval, q + 1, 0, 0);
      assert now + r - start == (q + 1) * interval + 0 + 0;
    }
    forall t | now < t < now + r
      ensures !OnCadence(start, interval, t)
    {
      RemainderPastMultiple(interval, q, m, t - now);
      assert t - start == q * interval + m + (t - now);
    }
    r
  }

  /** Clock readings at which successive ticks wake, when the tick that
      starts at `t` works for `work[0]` before it sleeps, and so on. */
  function Wakes(interval: nat, start: int, t: int, work: seq<nat>): (w: seq<int>)
    requires interval > 0
    decreases |work|
    ensures |w| == |work|
  {
    if work == [] then []
    else
      var now := t + work[0];
      var wake := now + SleepFor(interval, start, now);
      [wake] + Wakes(interval, start, wake, work[1..])
  }

  /** Every wake-up lies on the cadence and is the first cadence point after
      the work of its tick ended, however long that work took. */
  lemma {:induction false} WakesOnCadence(interval: nat, start: int, t: int, work: seq<nat>)
    requires interval > 0
    decreases |work|
    ensures |Wakes(interval, start, t, work)| == |work|
    ensures forall i :: 0 <= i < |work| ==> OnCadence(start, interval, Wakes(interval, start, t, work)[i])
    ensures work != [] ==>
      t + work[0] < Wakes(interval, start, t, work)[0] <= t + work[0] + interval
    ensures forall i :: 0 < i < |work| ==>
      Wakes(interval, start, t, work)[i - 1] + work[i] < Wakes(interval, start, t, work)[i]
      <= Wakes(interval, start, t, work)[i - 1] + work[i] + interval
  {
    if work != [] {
      var now := t + work[0];
      var wake := now + SleepFor(interval, start, now);
      var rest := Wakes(interval, start, wake, work[1..]);
      WakesOnCadence(interval, start, wake, work[1..]);
      var w := Wakes(interval, start, t, work);
      assert w == [wake] + rest;
      forall i | 0 <= i < |work|
        ensures OnCadence(start, interval, w[i])
      {
        if i > 0 {
          assert w[i] == rest[i - 1];
        }
      }
      forall i | 0 < i < |work|
        ensures w[i - 1] + work[i] < w[i] <= w[i - 1] + work[i] + interval
      {
        assert work[i] == work[1..][i - 1];
        if i == 1 {
          var next := wake + work[1];
          assert w[1] == next + SleepFor(interval, start, next);
        } else {
          assert w[i] == rest[i - 1] && w[i - 1] == rest[i - 2];
        }
      }
    }
  }

  /** The wake-ups of the first `k` ticks do not depend on the ticks after
      them, so results about a whole run hold for each of its prefixes. */
  lemma {:induction false} WakesPrefix(interval: nat, start: int, t: int, work: seq<nat>, k: nat)
    requires interval > 0 && k <= |work|
    decreases k
    ensures Wakes(interval, start, t, work[..k]) == Wakes(interval, start, t, work)[..k]
  {
    if k > 0 {
      var now := t + work[0];
      var wake := now + SleepFor(interval, start, now);
      assert work[..k][0] == work[0];
      assert work[..k][1..] == work[1..][..k - 1];
      WakesPrefix(interval, start, wake, work[1..], k - 1);
      var rest := Wakes(interval, start, wake, work[1..]);
      assert ([wake] + rest)[..k] == [wake] + rest[..k - 1];
    }
  }

  /** Ticks that start on the cadence and finish their work within one
      interval wake exactly one interval apart: the work time does not
      accumulate as drift. */
  lemma {:induction false} FixedCadence(interval: nat, start: int, t: int, work: seq<nat>)
    requires interval > 0
    requires OnCadence(start, interval, t)
    requires forall i :: 0 <= i < |work| ==> work[i] < interval
    decreases |work|
    ensures |Wakes(interval, start, t, work)| == |work|
    ensures work != [] ==> Wakes(interval, start, t, work)[0] == t + interval
    ensures forall i :: 0 < i < |work| ==>
      Wakes(interval, start, t, work)[i] == Wakes(interval, start, t, work)[i - 1] + interval
  {
    if work != [] {
      var now := t + work[0];
      var wake := now + SleepFor(interval, start, now);
      OnCadenceStep(interval, start, t, work[0]);
      FixedCadence(interval, start, wake, work[1..]);
    }
  }

  /** From a point on the cadence, work shorter than one interval is followed
      by a sleep that ends exactly one interval later. */
  lemma OnCadenceStep(interval: nat, start: int, t: int, w: nat)
    requires interval > 0 && OnCadence(start, interval, t) && w < interval
    ensures w + SleepFor(interval, start, t + w) == interval
  {
    var q := (t - start) / interval;
    assert t - start == q * interval;
    RemainderPastMultiple(interval, q, w, 0);
    assert t + w - start == q * interval + w + 0;
  }
}
