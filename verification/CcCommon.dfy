/** Filters shared by the congestion controllers (cc_common.c). */
module CcCommon {

  const RTT_SCOPE := 7
  const LOSS_SCOPE := 32
  const KEPT: real := 15.0 / 16.0
  const FACTOR: real := 1.0 / 16.0
  const THRESHOLD: real := 0.2

  // ----- Minimum and maximum of the last seven round trip times -----

  function Latest(history: seq<nat>): seq<nat> {
    if |history| < RTT_SCOPE then history else history[|history| - RTT_SCOPE..]
  }

  ghost predicate IsMin(s: seq<nat>, m: nat) {
    m in s && forall x :: x in s ==> m <= x
  }

  ghost predicate IsMax(s: seq<nat>, m: nat) {
    m in s && forall x :: x in s ==> x <= m
  }

  /** The ring holds exactly the latest samples, at their numbers modulo seven. */
  ghost predicate Ring(samples: seq<nat>, history: seq<nat>) {
    |samples| == RTT_SCOPE
    && forall k :: |history| - RTT_SCOPE <= k < |history| && 0 <= k ==> samples[k % RTT_SCOPE] == history[k]
  }

  lemma RingAdds(samples: seq<nat>, history: seq<nat>, rtt: nat)
    requires Ring(samples, history)
    ensures Ring(samples[|history| % RTT_SCOPE := rtt], history + [rtt])
  {
  }

  /** A value stands in the used part of the ring exactly when it is one of the latest samples. */
  lemma RingHolds(samples: seq<nat>, history: seq<nat>, x: nat)
    requires Ring(samples, history)
    ensures x in samples[..|Latest(history)|] <==> x in Latest(history)
  {
    var n, s := |history|, Latest(history);
    if x in s {
      var i :| 0 <= i < |s| && s[i] == x;
      var k := n - |s| + i;
      assert samples[k % RTT_SCOPE] == history[k] == x;
      if n < RTT_SCOPE {
        assert samples[..|s|][k] == x;
      } else {
        assert samples[..|s|][k % RTT_SCOPE] == x;
      }
    }
    if x in samples[..|s|] {
      var j :| 0 <= j < |s| && samples[j] == x;
      if n < RTT_SCOPE {
        assert samples[j % RTT_SCOPE] == history[j];
        assert s[j] == x;
      } else {
        var k := n - 1 - (n - 1 - j) % RTT_SCOPE;
        assert k % RTT_SCOPE == j;
        assert samples[k % RTT_SCOPE] == history[k];
        assert s[k - (n - RTT_SCOPE)] == x;
      }
    }
  }

  class RttFilter {
    const samples: array<nat>
    var sampleCurrent: nat
    var isInit: bool
    var sampleMin: nat
    var sampleMax: nat
    ghost var history: seq<nat>

    ghost predicate Valid()
      reads this, samples
    {
      && samples.Length == RTT_SCOPE
      && Ring(samples[..], history)
      && sampleCurrent == |history| % RTT_SCOPE
      && isInit == (|history| >= RTT_SCOPE)
    }

    constructor ()
      ensures Valid() && history == [] && fresh(samples)
    {
      samples := new nat[RTT_SCOPE](_ => 0);
      sampleCurrent, isInit, sampleMin, sampleMax := 0, false, 0, 0;
      history := [];
    }

    /** The minimum and maximum of the first `count` samples of the ring. */
    method Scan(count: nat) returns (lo: nat, hi: nat)
      requires Valid() && 0 < count <= RTT_SCOPE
      ensures IsMin(samples[..count], lo) && IsMax(samples[..count], hi)
    {
      lo, hi := samples[0], samples[0];
      for i := 1 to count
        invariant IsMin(samples[..i], lo) && IsMax(samples[..i], hi)
      {
        assert samples[..i + 1] == samples[..i] + [samples[i]];
        if samples[i] < lo {
          lo := samples[i];
        } else if samples[i] > hi {
          hi := samples[i];
        }
      }
    }

    /** Puts a sample in the ring; `count` places of it are now in use. */
    method Push(rtt: nat) returns (count: nat)
      requires Valid()
      modifies this, samples
      ensures Valid() && history == old(history) + [rtt] && count == |Latest(history)|
    {
      var x := sampleCurrent;
      RingAdds(samples[..], history, rtt);
      samples[x] := rtt;
      NextPlace(|history|);
      history := history + [rtt];
      sampleCurrent := x + 1;
      if sampleCurrent >= RTT_SCOPE {
        isInit := true;
        sampleCurrent := 0;
      }
      count := if isInit then RTT_SCOPE else x + 1;
    }

    /** One more measurement: the tracked extremes are those of the last seven, or of all until there are seven. */
    method Filter(rtt: nat)
      requires Valid()
      modifies this, samples
      ensures Valid() && history == old(history) + [rtt]
      ensures IsMin(Latest(history), sampleMin) && IsMax(Latest(history), sampleMax)
    {
      var count := Push(rtt);
      sampleMin, sampleMax := Scan(count);
      assert samples[..][..count] == samples[..count];
      ExtremesAgree(samples[..], history, sampleMin, sampleMax);
    }
  }

  lemma NextPlace(n: nat)
    ensures (n + 1) % RTT_SCOPE == if n % RTT_SCOPE + 1 >= RTT_SCOPE then 0 else n % RTT_SCOPE + 1
    ensures n < RTT_SCOPE ==> n % RTT_SCOPE == n
    ensures n + 1 >= RTT_SCOPE <==> n >= RTT_SCOPE || n % RTT_SCOPE + 1 >= RTT_SCOPE
  {
  }

  lemma ExtremesAgree(samples: seq<nat>, history: seq<nat>, lo: nat, hi: nat)
    requires Ring(samples, history)
    ensures IsMin(samples[..|Latest(history)|], lo) ==> IsMin(Latest(history), lo)
    ensures IsMax(samples[..|Latest(history)|], hi) ==> IsMax(Latest(history), hi)
  {
    forall x: nat
      ensures x in samples[..|Latest(history)|] <==> x in Latest(history)
    {
      RingHolds(samples, history, x);
    }
  }

  // ----- The smoothed loss rate -----

  datatype LossTrack = LossTrack(rate: real, lastLost: nat)

  /** A rate after `n` packets without a loss: each takes away a sixteenth. */
  function Faded(rate: real, n: nat): real {
    if n == 0 then rate else Faded(rate, n - 1) * KEPT
  }

  /** Packets since the last loss that still count. */
  function Gap(t: LossTrack, lost: nat): nat
    requires lost > t.lastLost
  {
    if lost - t.lastLost > LOSS_SCOPE then LOSS_SCOPE else lost - t.lastLost
  }

  /** The track after one more loss report: a new loss fades the rate over the gap and once more, then adds to it. */
  function Reported(t: LossTrack, lost: nat): LossTrack {
    if lost > t.lastLost then LossTrack(Faded(t.rate, Gap(t, lost) + 1) + FACTOR, lost) else t
  }

  /** Whether a loss calls for a reaction: any new one that timed out, or a new repeat at a high loss rate. */
  method LossTest(t: LossTrack, timeout: bool, lost: nat) returns (t': LossTrack, high: bool)
    ensures t' == Reported(t, lost)
    ensures high <==> lost > t.lastLost && (timeout || t'.rate > THRESHOLD)
  {
    var next := t.lastLost;
    if lost <= next {
      return t, false;
    }
    if next + LOSS_SCOPE < lost {
      next := lost - LOSS_SCOPE;
    }
    var rate := t.rate;
    ghost var start := next;
    while next < lost
      invariant start <= next <= lost && rate == Faded(t.rate, next - start)
    {
      rate := rate * KEPT;
      next := next + 1;
    }
    rate := rate + (1.0 - rate) * FACTOR;
    return LossTrack(rate, lost), timeout || rate > THRESHOLD;
  }

  function LossRun(t: LossTrack, losses: seq<nat>): LossTrack {
    if losses == [] then t else Reported(LossRun(t, losses[..|losses| - 1]), losses[|losses| - 1])
  }

  function Last(first: nat, losses: seq<nat>): nat {
    if losses == [] then first else losses[|losses| - 1]
  }

  /** Every loss comes at least `lo` packets after the one before. */
  predicate Sparse(first: nat, losses: seq<nat>, lo: nat) {
    losses == []
    || var rest := losses[..|losses| - 1];
       Sparse(first, rest, lo) && Last(first, rest) + lo <= losses[|losses| - 1]
  }

  /** Every loss comes after the one before, at most `hi` packets later. */
  predicate Dense(first: nat, losses: seq<nat>, hi: nat) {
    losses == []
    || var rest := losses[..|losses| - 1];
       Dense(first, rest, hi) && Last(first, rest) < losses[|losses| - 1] <= Last(first, rest) + hi
  }

  lemma {:induction false} FadesOn(rate: real, m: nat, n: nat)
    requires rate >= 0.0 && m <= n
    ensures 0.0 <= Faded(rate, n) <= Faded(rate, m)
  {
    if m < n {
      FadesOn(rate, m, n - 1);
    } else if n > 0 {
      FadesOn(rate, m - 1, n - 1);
    }
  }

  lemma FadedBy(rate: real)
    requires rate >= 0.0
    ensures Faded(rate, 1) == rate * KEPT && Faded(rate, 5) >= 0.724 * rate && Faded(rate, 6) <= 0.679 * rate
  {
    assert Faded(rate, 2) == Faded(rate, 1) * KEPT;
    assert Faded(rate, 3) == Faded(rate, 2) * KEPT;
    assert Faded(rate, 4) == Faded(rate, 3) * KEPT;
    assert Faded(rate, 5) == Faded(rate, 4) * KEPT;
    assert Faded(rate, 6) == Faded(rate, 5) * KEPT;
  }

  /** The rate is always between zero and one. */
  lemma {:induction false} RateBounded(t: LossTrack, losses: seq<nat>)
    requires 0.0 <= t.rate <= 1.0
    ensures 0.0 <= LossRun(t, losses).rate <= 1.0
  {
    if losses != [] {
      var before, lost := LossRun(t, losses[..|losses| - 1]), losses[|losses| - 1];
      RateBounded(t, losses[..|losses| - 1]);
      if lost > before.lastLost {
        FadesOn(before.rate, 1, Gap(before, lost) + 1);
        FadedBy(before.rate);
      }
    }
  }

  /** Losses at least five packets apart never raise the rate to the threshold, however long they go on. */
  lemma {:induction false} SparseLossesIgnored(t: LossTrack, losses: seq<nat>)
    requires 0.0 <= t.rate <= 0.195 && Sparse(t.lastLost, losses, 5)
    ensures 0.0 <= LossRun(t, losses).rate <= 0.195 < THRESHOLD
    ensures LossRun(t, losses).lastLost == Last(t.lastLost, losses)
  {
    if losses != [] {
      var rest, lost := losses[..|losses| - 1], losses[|losses| - 1];
      SparseLossesIgnored(t, rest);
      var before := LossRun(t, rest);
      FadesOn(before.rate, 6, Gap(before, lost) + 1);
      FadedBy(before.rate);
    }
  }

  /** A lower bound on the rate after `n` losses at most four packets apart. */
  function Reached(n: nat): real {
    if n == 0 then 0.0 else 0.724 * Reached(n - 1) + FACTOR
  }

  lemma {:induction false} DenseLosses(t: LossTrack, losses: seq<nat>)
    requires t.rate >= 0.0 && Dense(t.lastLost, losses, 4)
    ensures LossRun(t, losses).rate >= Reached(|losses|) >= 0.0
    ensures LossRun(t, losses).lastLost == Last(t.lastLost, losses)
  {
    if losses != [] {
      var rest, lost := losses[..|losses| - 1], losses[|losses| - 1];
      DenseLosses(t, rest);
      var before := LossRun(t, rest);
      FadesOn(before.rate, Gap(before, lost) + 1, 5);
      FadedBy(before.rate);
    }
  }

  /** Seven losses in a row at most four packets apart always raise the rate above the threshold. */
  lemma DenseLossesDetected(t: LossTrack, losses: seq<nat>)
    requires t.rate >= 0.0 && Dense(t.lastLost, losses, 4) && |losses| == 7
    ensures LossRun(t, losses).rate > THRESHOLD
  {
    DenseLosses(t, losses);
    assert Reached(3) == 0.724 * (0.724 * (0.724 * Reached(0) + FACTOR) + FACTOR) + FACTOR;
    assert Reached(5) == 0.724 * (0.724 * Reached(3) + FACTOR) + FACTOR;
    assert Reached(7) == 0.724 * (0.724 * Reached(5) + FACTOR) + FACTOR;
  }
}
