/** The samples of one multi-packet diagnostic and the figures published from them
    (path_probe_runtime.c, linkg_path_probe_finish_diagnostic_locked). */
module ProbeSummary {

  const UINT32_MAX: nat := 0xFFFF_FFFF

  datatype SampleState = Unused | Reserved | Pending | Received | SendFailed | TimedOut | Canceled

  datatype Sample = Sample(state: SampleState, sequence: nat, sentUs: nat, rttUs: nat)

  datatype Summary = Summary(requested: nat, sent: nat, received: nat, lost: nat, failed: nat, lossPermille: nat,
                             minRtt: nat, maxRtt: nat, averageRtt: nat, jitter: nat)

  const UNUSED_SAMPLE := Sample(Unused, 0, 0, 0)
  const NO_SUMMARY := Summary(0, 0, 0, 0, 0, 0, 0, 0, 0, 0)

  // ------------------------------------------------------------------ what the figures mean

  function CountOf(samples: seq<Sample>, state: SampleState): (n: nat)
    ensures n <= |samples|
  {
    if samples == [] then 0
    else CountOf(samples[..|samples| - 1], state) + (if samples[|samples| - 1].state == state then 1 else 0)
  }

  /** Round-trip times of the received samples, in send order. */
  function Rtts(samples: seq<Sample>): seq<nat> {
    if samples == [] then []
    else Rtts(samples[..|samples| - 1]) +
         (if samples[|samples| - 1].state == Received then [samples[|samples| - 1].rttUs] else [])
  }

  function Sum(rtts: seq<nat>): nat {
    if rtts == [] then 0 else Sum(rtts[..|rtts| - 1]) + rtts[|rtts| - 1]
  }

  function Distance(a: nat, b: nat): nat { if a >= b then a - b else b - a }

  /** Sum of the absolute differences of neighbours. */
  function Variation(rtts: seq<nat>): nat {
    if |rtts| < 2 then 0
    else Variation(rtts[..|rtts| - 1]) + Distance(rtts[|rtts| - 1], rtts[|rtts| - 2])
  }

  function Smallest(rtts: seq<nat>): nat {
    if rtts == [] then 0
    else if |rtts| == 1 then rtts[0]
    else if rtts[|rtts| - 1] < Smallest(rtts[..|rtts| - 1]) then rtts[|rtts| - 1]
    else Smallest(rtts[..|rtts| - 1])
  }

  function Largest(rtts: seq<nat>): nat {
    if rtts == [] then 0
    else if |rtts| == 1 then rtts[0]
    else if rtts[|rtts| - 1] > Largest(rtts[..|rtts| - 1]) then rtts[|rtts| - 1]
    else Largest(rtts[..|rtts| - 1])
  }

  function Summarise(samples: seq<Sample>): Summary {
    var rtts := Rtts(samples);
    var lost := CountOf(samples, TimedOut);
    var sent := lost + |rtts|;
    Summary(|samples|, sent, |rtts|, lost, CountOf(samples, SendFailed),
            if sent == 0 then 0 else lost * 1000 / sent,
            Smallest(rtts), Largest(rtts),
            if rtts == [] then 0 else Sum(rtts) / |rtts|,
            if |rtts| < 2 then 0 else Variation(rtts) / (|rtts| - 1))
  }

  // ------------------------------------------------------------------ bounds

  lemma {:induction false} SmallestAndLargest(rtts: seq<nat>)
    ensures forall k :: 0 <= k < |rtts| ==> Smallest(rtts) <= rtts[k] <= Largest(rtts)
    ensures rtts != [] ==> Smallest(rtts) in rtts && Largest(rtts) in rtts
  {
    if |rtts| > 1 {
      var front := rtts[..|rtts| - 1];
      SmallestAndLargest(front);
      forall k | 0 <= k < |rtts| ensures Smallest(rtts) <= rtts[k] <= Largest(rtts) {
        assert k < |rtts| - 1 ==> front[k] == rtts[k];
      }
      assert forall x :: x in front ==> x in rtts;
    }
  }

  lemma {:induction false} SumWithin(rtts: seq<nat>, low: nat, high: nat)
    requires forall k :: 0 <= k < |rtts| ==> low <= rtts[k] <= high
    ensures low * |rtts| <= Sum(rtts) <= high * |rtts|
  {
    if rtts != [] {
      SumWithin(rtts[..|rtts| - 1], low, high);
      assert low * |rtts| == low * (|rtts| - 1) + low;
      assert high * |rtts| == high * (|rtts| - 1) + high;
    }
  }

  lemma {:induction false} VariationWithin(rtts: seq<nat>, low: nat, high: nat)
    requires forall k :: 0 <= k < |rtts| ==> low <= rtts[k] <= high
    requires |rtts| > 0
    ensures Variation(rtts) <= (high - low) * (|rtts| - 1)
  {
    if |rtts| > 1 {
      VariationWithin(rtts[..|rtts| - 1], low, high);
      assert (high - low) * (|rtts| - 1) == (high - low) * (|rtts| - 2) + (high - low);
    }
  }

  lemma DivideWithin(total: nat, count: nat, low: nat, high: nat)
    requires count > 0 && low * count <= total <= high * count
    ensures low <= total / count <= high
  {
    var q := total / count;
    assert total == q * count + total % count;
    if q < low {
      TimesMonotone(q + 1, low, count);
    } else if q > high {
      TimesMonotone(high + 1, q, count);
    }
  }

  lemma TimesMonotone(a: nat, b: nat, c: nat)
    requires a <= b
    ensures a * c <= b * c && a * c == (a - 1) * c + c
  {
  }

  /** No figure is out of range, whatever happened to the samples. */
  lemma SummaryInRange(samples: seq<Sample>)
    ensures var s := Summarise(samples);
            && s.requested == |samples|
            && s.sent == s.received + s.lost
            && s.lossPermille <= 1000
            && (s.received > 0 ==> s.minRtt <= s.averageRtt <= s.maxRtt && s.jitter <= s.maxRtt - s.minRtt)
  {
    var rtts := Rtts(samples);
    var lost := CountOf(samples, TimedOut);
    if lost + |rtts| > 0 {
      DivideWithin(lost * 1000, lost + |rtts|, 0, 1000);
    }
    if rtts != [] {
      SmallestAndLargest(rtts);
      SumWithin(rtts, Smallest(rtts), Largest(rtts));
      DivideWithin(Sum(rtts), |rtts|, Smallest(rtts), Largest(rtts));
      if |rtts| > 1 {
        VariationWithin(rtts, Smallest(rtts), Largest(rtts));
        DivideWithin(Variation(rtts), |rtts| - 1, 0, Largest(rtts) - Smallest(rtts));
      }
    }
  }

  predicate Ended(state: SampleState) { state == Received || state == SendFailed || state == TimedOut }

  /** Once every sample has ended, each one is counted exactly once. */
  lemma {:induction false} EverySampleCounted(samples: seq<Sample>)
    requires forall k :: 0 <= k < |samples| ==> Ended(samples[k].state)
    ensures |samples| == CountOf(samples, SendFailed) + CountOf(samples, TimedOut) + |Rtts(samples)|
  {
    if samples != [] {
      EverySampleCounted(samples[..|samples| - 1]);
    }
  }

  /** The converse: a sample that has not ended is in none of the counts. */
  lemma {:induction false} CountedMeansEnded(samples: seq<Sample>)
    ensures CountOf(samples, SendFailed) + CountOf(samples, TimedOut) + |Rtts(samples)| <= |samples|
    ensures CountOf(samples, SendFailed) + CountOf(samples, TimedOut) + |Rtts(samples)| == |samples| ==>
              forall k :: 0 <= k < |samples| ==> Ended(samples[k].state)
  {
    if samples != [] {
      CountedMeansEnded(samples[..|samples| - 1]);
    }
  }

  /** requested = sent + send failures holds exactly when no sample was left open. */
  lemma AddsUpIff(samples: seq<Sample>)
    ensures var s := Summarise(samples);
            s.requested == s.sent + s.failed <==> forall k :: 0 <= k < |samples| ==> Ended(samples[k].state)
  {
    CountedMeansEnded(samples);
    if forall k :: 0 <= k < |samples| ==> Ended(samples[k].state) {
      EverySampleCounted(samples);
    }
  }

  lemma {:induction false} RttsBounded(samples: seq<Sample>, bound: nat)
    requires forall k :: 0 <= k < |samples| ==> samples[k].rttUs <= bound
    ensures forall k :: 0 <= k < |Rtts(samples)| ==> Rtts(samples)[k] <= bound
  {
    if samples != [] {
      RttsBounded(samples[..|samples| - 1], bound);
    }
  }

  // ------------------------------------------------------------------ the accumulation loop

  /** The loop's accumulators over the received samples. */
  datatype Acc = Acc(received: nat, minRtt: nat, maxRtt: nat, rttSum: nat, jitterSum: nat, previous: nat)

  predicate AccOf(rtts: seq<nat>, a: Acc) {
    && a.received == |rtts|
    && a.minRtt == Smallest(rtts) && a.maxRtt == Largest(rtts)
    && a.rttSum == Sum(rtts) && a.jitterSum == Variation(rtts)
    && (rtts != [] ==> a.previous == rtts[|rtts| - 1])
  }

  predicate Accumulated(s: seq<Sample>, a: Acc, lost: nat, failed: nat) {
    AccOf(Rtts(s), a) && lost == CountOf(s, TimedOut) && failed == CountOf(s, SendFailed)
  }

  lemma OneMoreSample(samples: seq<Sample>, k: nat)
    requires k < |samples|
    ensures var front, s := samples[..k], samples[..k + 1];
            && CountOf(s, TimedOut) == CountOf(front, TimedOut) + (if samples[k].state == TimedOut then 1 else 0)
            && CountOf(s, SendFailed) == CountOf(front, SendFailed) + (if samples[k].state == SendFailed then 1 else 0)
            && Rtts(s) == if samples[k].state == Received then Rtts(front) + [samples[k].rttUs] else Rtts(front)
  {
    assert samples[..k + 1][..k] == samples[..k];
  }

  lemma OneMoreRtt(rtts: seq<nat>, x: nat)
    ensures var s := rtts + [x];
            && Sum(s) == Sum(rtts) + x
            && Variation(s) == (if rtts == [] then 0 else Variation(rtts) + Distance(x, rtts[|rtts| - 1]))
            && Smallest(s) == (if rtts == [] || x < Smallest(rtts) then x else Smallest(rtts))
            && Largest(s) == (if rtts == [] || x > Largest(rtts) then x else Largest(rtts))
  {
  }

  method Receive(ghost rtts: seq<nat>, a: Acc, rtt: nat) returns (a': Acc)
    requires AccOf(rtts, a)
    ensures AccOf(rtts + [rtt], a')
  {
    OneMoreRtt(rtts, rtt);
    a' := a;
    if a.received == 0 {
      a' := a'.(minRtt := rtt, maxRtt := rtt);
    } else {
      if rtt < a.minRtt {
        a' := a'.(minRtt := rtt);
      }
      if rtt > a.maxRtt {
        a' := a'.(maxRtt := rtt);
      }
      a' := a'.(jitterSum := a.jitterSum + Distance(rtt, a.previous));
    }
    a' := a'.(previous := rtt, rttSum := a.rttSum + rtt, received := a.received + 1);
  }

  method Figures(requested: nat, a: Acc, lost: nat, failed: nat) returns (r: Summary)
    ensures r == Summary(requested, lost + a.received, a.received, lost, failed,
                         if lost + a.received == 0 then 0 else lost * 1000 / (lost + a.received),
                         a.minRtt, a.maxRtt,
                         if a.received == 0 then 0 else a.rttSum / a.received,
                         if a.received < 2 then 0 else a.jitterSum / (a.received - 1))
  {
    r := Summary(requested, lost + a.received, a.received, lost, failed, 0, a.minRtt, a.maxRtt, 0, 0);
    if r.sent != 0 {
      r := r.(lossPermille := lost * 1000 / r.sent);
    }
    if a.received != 0 {
      r := r.(averageRtt := a.rttSum / a.received);
    }
    if a.received > 1 {
      r := r.(jitter := a.jitterSum / (a.received - 1));
    }
  }

  /** One pass over the samples computes the whole summary. */
  method ComputeSummary(samples: seq<Sample>) returns (r: Summary)
    ensures r == Summarise(samples)
  {
    var a, lost: nat, failed: nat := Acc(0, 0, 0, 0, 0, 0), 0, 0;
    for k := 0 to |samples|
      invariant Accumulated(samples[..k], a, lost, failed)
    {
      OneMoreSample(samples, k);
      if samples[k].state == SendFailed {
        failed := failed + 1;
      } else if samples[k].state == TimedOut {
        lost := lost + 1;
      } else if samples[k].state == Received {
        a := Receive(Rtts(samples[..k]), a, samples[k].rttUs);
      }
    }
    assert samples[..|samples|] == samples;
    r := Figures(|samples|, a, lost, failed);
  }

  /** The narrowing casts lose nothing: with 32-bit round-trip times every published
      figure fits in 32 bits again. */
  lemma FiguresFit(samples: seq<Sample>)
    requires forall k :: 0 <= k < |samples| ==> samples[k].rttUs <= UINT32_MAX
    ensures var s := Summarise(samples);
            s.averageRtt <= UINT32_MAX && s.jitter <= UINT32_MAX && s.maxRtt <= UINT32_MAX
  {
    SummaryInRange(samples);
    RttsBounded(samples, UINT32_MAX);
    SmallestAndLargest(Rtts(samples));
    if |Rtts(samples)| == 0 {
      assert Summarise(samples).jitter == 0;
    }
  }
}
