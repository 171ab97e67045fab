/**
 * The statistics of the quality prober (src/network_quality.rs): from the
 * outcomes of a round of echo probes to minimum, maximum and average
 * round-trip time, jitter and loss; the cumulative TCP retransmission
 * ratio; and the assembly of one quality sample. The ICMP and IP Helper
 * calls are parameters, and the `f32` percentages are exact rationals.
 */
module NetworkQuality {
  import opened Base

  const DEFAULT_PING_COUNT: nat := 4

  /** One `IcmpSendEcho` call: the number of replies, and the first reply's status and round-trip time. */
  datatype EchoOutcome = EchoOutcome(responseCount: u32, status: u32, roundTripTime: u32)

  /** A probe counts when a reply came back with status success. */
  predicate Succeeded(e: EchoOutcome) {
    e.responseCount > 0 && e.status == ERROR_SUCCESS
  }

  /** The round-trip times of the successful probes, in probe order. */
  function Rtts(echoes: seq<EchoOutcome>): (r: seq<u32>)
    ensures |r| <= |echoes|
    decreases |echoes|
  {
    if |echoes| == 0 then []
    else
      var last := echoes[|echoes| - 1];
      Rtts(echoes[..|echoes| - 1]) + (if Succeeded(last) then [last.roundTripTime] else [])
  }

  function Sum(s: seq<u32>): nat
    decreases |s|
  {
    if |s| == 0 then 0 else Sum(s[..|s| - 1]) + s[|s| - 1]
  }

  /** The least element. */
  function Min(s: seq<u32>): (r: u32)
    requires |s| > 0
    ensures r in s
    ensures forall i :: 0 <= i < |s| ==> r <= s[i]
    decreases |s|
  {
    if |s| == 1 then s[0]
    else
      var m := Min(s[..|s| - 1]);
      if s[|s| - 1] < m then s[|s| - 1] else m
  }

  /** The greatest element. */
  function Max(s: seq<u32>): (r: u32)
    requires |s| > 0
    ensures r in s
    ensures forall i :: 0 <= i < |s| ==> s[i] <= r
    decreases |s|
  {
    if |s| == 1 then s[0]
    else
      var m := Max(s[..|s| - 1]);
      if s[|s| - 1] > m then s[|s| - 1] else m
  }

  function AbsDiff(a: u32, b: u32): nat {
    if a >= b then a - b else b - a
  }

  /** The sum of the absolute differences of consecutive elements. */
  function DiffSum(s: seq<u32>): nat
    decreases |s|
  {
    if |s| < 2 then 0 else DiffSum(s[..|s| - 1]) + AbsDiff(s[|s| - 2], s[|s| - 1])
  }

  /** Mean absolute difference of consecutive round-trip times, rounded down; 0 below two samples. */
  function Jitter(s: seq<u32>): nat {
    if |s| < 2 then 0 else DiffSum(s) / (|s| - 1)
  }

  lemma {:induction false} SumBounds(s: seq<u32>)
    requires |s| > 0
    ensures |s| * Min(s) <= Sum(s) <= |s| * Max(s)
    decreases |s|
  {
    if |s| > 1 {
      var init := s[..|s| - 1];
      SumBounds(init);
      assert Min(s) <= Min(init) && Max(init) <= Max(s);
      SumStep(Sum(init), s[|s| - 1], |s|, Min(init), Max(init), Min(s), Max(s));
    }
  }

  /** Arithmetic of one induction step: bounds for n - 1 elements plus one more element. */
  lemma SumStep(sum: nat, last: nat, n: nat, innerLo: nat, innerHi: nat, lo: nat, hi: nat)
    requires n >= 2 && (n - 1) * innerLo <= sum <= (n - 1) * innerHi
    requires lo <= innerLo && innerHi <= hi && lo <= last <= hi
    ensures n * lo <= sum + last <= n * hi
  {
    MulMonotone(n - 1, lo, innerLo);
    MulMonotone(n - 1, innerHi, hi);
    assert (n - 1) * lo + lo == n * lo;
    assert (n - 1) * hi + hi == n * hi;
  }

  lemma {:induction false} DiffSumBound(s: seq<u32>)
    requires |s| > 0
    ensures DiffSum(s) <= (|s| - 1) * (Max(s) - Min(s))
    decreases |s|
  {
    if |s| > 1 {
      var init := s[..|s| - 1];
      DiffSumBound(init);
      assert init[|init| - 1] == s[|s| - 2];
      assert Min(s) <= Min(init) && Max(init) <= Max(s);
      StepBound(DiffSum(init), AbsDiff(s[|s| - 2], s[|s| - 1]), |s|, Max(init) - Min(init), Max(s) - Min(s));
    }
  }

  /** Arithmetic of one induction step: a bound for n - 1 elements plus one more difference. */
  lemma StepBound(sum: nat, diff: nat, n: nat, innerSpread: nat, spread: nat)
    requires n >= 2 && sum <= (n - 2) * innerSpread && innerSpread <= spread && diff <= spread
    ensures sum + diff <= (n - 1) * spread
  {
    MulMonotone(n - 2, innerSpread, spread);
    assert (n - 2) * spread + spread == (n - 1) * spread;
  }

  lemma MulMonotone(k: nat, a: int, b: int)
    requires a <= b
    ensures k * a <= k * b
  {
  }

  lemma QuotientBound(x: nat, k: nat, m: nat)
    requires k > 0 && x <= k * m
    ensures x / k <= m
  {
  }

  lemma QuotientBelow(x: nat, k: nat, m: nat)
    requires k > 0 && k * m <= x
    ensures m <= x / k
  {
    var q := x / k;
    assert x < k * (q + 1);
    if m > q {
      MulMonotone(k, q + 1, m);
    }
  }

  /** A ratio of a part to a positive whole lies between 0 and 1. */
  lemma RatioBound(part: nat, whole: nat)
    requires 0 < whole && part <= whole
    ensures 0.0 <= part as real / whole as real <= 1.0
  {
  }

  /** Jitter never exceeds the spread between the slowest and the fastest reply. */
  lemma {:induction false} JitterWithinSpread(s: seq<u32>)
    requires |s| > 0
    ensures Jitter(s) <= Max(s) - Min(s)
  {
    if |s| >= 2 {
      DiffSumBound(s);
      JitterBound(DiffSum(s), |s| - 1, Max(s) - Min(s), Jitter(s));
    } else {
      assert Min(s) <= s[0] <= Max(s);
    }
  }

  lemma JitterBound(sum: nat, k: nat, spread: nat, jitter: nat)
    requires k > 0 && sum <= k * spread && jitter == sum / k
    ensures jitter <= spread
  {
    QuotientBound(sum, k, spread);
  }

  /** The rounded-down average lies between the minimum and the maximum. */
  lemma {:induction false} AverageWithinRange(s: seq<u32>)
    requires |s| > 0
    ensures Min(s) <= Sum(s) / |s| <= Max(s)
  {
    SumBounds(s);
    QuotientBound(Sum(s), |s|, Max(s));
    QuotientBelow(Sum(s), |s|, Min(s));
  }

  /** The jitter is the floor of the mean: the largest j with j * (n - 1) <= the difference sum. */
  lemma {:induction false} JitterIsFloor(s: seq<u32>)
    requires |s| >= 2
    ensures Jitter(s) * (|s| - 1) <= DiffSum(s) < (Jitter(s) + 1) * (|s| - 1)
  {
    var k := |s| - 1;
    var x := DiffSum(s);
    var q := x / k;
    assert x == q * k + x % k;
    assert Jitter(s) == q;
  }

  /** Jitter of a steady pair is 0, of a 20 ms swing is 20, of a single reply is 0. */
  lemma JitterExamples()
    ensures Jitter([10, 10]) == 0
    ensures Jitter([10, 30]) == 20
    ensures Jitter([10]) == 0
  {
    assert [10, 30][..1] == [10];
  }

  /**
   * `compute_jitter`: sums the absolute differences over all windows of two
   * and divides by one less than the number of samples.
   */
  method ComputeJitter(rtts: seq<u32>) returns (j: nat)
    ensures j == Jitter(rtts)
    ensures |rtts| < 2 ==> j == 0
    ensures |rtts| > 0 ==> j <= Max(rtts) - Min(rtts)
  {
    if |rtts| < 2 {
      return 0;
    }
    var sum := 0;
    var i := 1;
    while i < |rtts|
      invariant 1 <= i <= |rtts|
      invariant sum == DiffSum(rtts[..i])
    {
      assert rtts[..i + 1][..i] == rtts[..i];
      sum := sum + AbsDiff(rtts[i - 1], rtts[i]);
      i := i + 1;
    }
    assert rtts[..i] == rtts;
    j := sum / (|rtts| - 1);
    JitterWithinSpread(rtts);
  }

  /**
   * The probe loop of `measure_latency_and_loss`: the round-trip time of
   * every successful probe, in order, and how many succeeded.
   */
  method CollectRtts(echoes: seq<EchoOutcome>) returns (rtts: seq<u32>, successCount: nat)
    ensures rtts == Rtts(echoes)
    ensures successCount == |rtts| <= |echoes|
  {
    rtts := [];
    successCount := 0;
    var i := 0;
    while i < |echoes|
      invariant 0 <= i <= |echoes|
      invariant rtts == Rtts(echoes[..i])
      invariant successCount == |rtts|
    {
      assert echoes[..i + 1][..i] == echoes[..i];
      var e := echoes[i];
      if e.responseCount > 0 && e.status == ERROR_SUCCESS {
        rtts := rtts + [e.roundTripTime];
        successCount := successCount + 1;
      }
      i := i + 1;
    }
    assert echoes[..i] == echoes;
  }

  /** `PingStats`: latencies and jitter in milliseconds, loss in percent. */
  datatype PingStats = PingStats(avgMs: nat, minMs: nat, maxMs: nat, jitterMs: nat, lossPercent: real)

  /** Loss over `count` probes of which `successes` answered, in percent. */
  function LossPercent(count: nat, successes: nat): (r: real)
    requires 0 < count && successes <= count
    ensures 0.0 <= r <= 100.0
    ensures r == 0.0 <==> successes == count
    ensures r == 100.0 <==> successes == 0
    ensures r * count as real == (count - successes) as real * 100.0
  {
    RatioBound(count - successes, count);
    (count - successes) as real / count as real * 100.0
  }

  /**
   * `measure_latency_and_loss` over the outcomes of its probes: None when no
   * ICMP handle could be created; with no successful probe all latencies
   * and the jitter are 0 and loss is 100; otherwise the statistics of the
   * successful round-trip times and the share of probes that failed.
   */
  method MeasureLatencyAndLoss(icmpOpened: bool, echoes: seq<EchoOutcome>) returns (r: Option<PingStats>)
    ensures r.Some? <==> icmpOpened
    ensures r.Some? && |Rtts(echoes)| == 0 ==> r.value == PingStats(0, 0, 0, 0, 100.0)
    ensures r.Some? && |Rtts(echoes)| > 0 ==>
      && r.value.minMs == Min(Rtts(echoes))
      && r.value.maxMs == Max(Rtts(echoes))
      && r.value.avgMs == Sum(Rtts(echoes)) / |Rtts(echoes)|
      && r.value.minMs <= r.value.avgMs <= r.value.maxMs
      && r.value.jitterMs == Jitter(Rtts(echoes))
      && r.value.jitterMs <= r.value.maxMs - r.value.minMs
      && r.value.lossPercent == LossPercent(|echoes|, |Rtts(echoes)|)
    ensures r.Some? ==> 0.0 <= r.value.lossPercent <= 100.0
    ensures r.Some? ==> (r.value.lossPercent == 100.0 <==> |Rtts(echoes)| == 0)
    ensures r.Some? && |echoes| > 0 ==> (r.value.lossPercent == 0.0 <==> |Rtts(echoes)| == |echoes|)
  {
    if !icmpOpened {
      return None;
    }
    var rtts, successCount := CollectRtts(echoes);
    if |rtts| == 0 {
      return Some(PingStats(0, 0, 0, 0, 100.0));
    }
    var minMs := Min(rtts);
    var maxMs := Max(rtts);
    var sum := Sum(rtts);
    var avgMs := sum / |rtts|;
    var jitterMs := ComputeJitter(rtts);
    var lossPercent := (|echoes| - successCount) as real / |echoes| as real * 100.0;
    AverageWithinRange(rtts);
    r := Some(PingStats(avgMs, minMs, maxMs, jitterMs, lossPercent));
  }

  /** `TcpStats`: the cumulative counters and the retransmitted share of all segments. */
  datatype TcpStats = TcpStats(retransmissionPercent: real, segmentsSent: nat, segmentsRetransmitted: nat)

  /**
   * `query_tcp_stats` over what `GetTcpStatisticsEx` returned: None on
   * failure; otherwise retransmitted / (sent + retransmitted) in percent of
   * the cumulative counters, 0 when both are 0. No earlier reading is used.
   */
  function QueryTcpStats(status: u32, outSegs: u32, retransSegs: u32): (r: Option<TcpStats>)
    ensures r.Some? <==> status == ERROR_SUCCESS
    ensures r.Some? ==> r.value.segmentsSent == outSegs && r.value.segmentsRetransmitted == retransSegs
    ensures r.Some? ==> 0.0 <= r.value.retransmissionPercent <= 100.0
    ensures r.Some? && outSegs + retransSegs == 0 ==> r.value.retransmissionPercent == 0.0
    ensures r.Some? ==> r.value.retransmissionPercent * (outSegs + retransSegs) as real == retransSegs as real * 100.0
  {
    if status != ERROR_SUCCESS then None
    else
      var total := outSegs + retransSegs;
      var percent :=
        if total == 0 then 0.0
        else (RatioBound(retransSegs, total); retransSegs as real / total as real * 100.0);
      Some(TcpStats(percent, outSegs, retransSegs))
  }

  /** One sample of the prober; every field is absent when its measurement failed. */
  datatype QualitySample = QualitySample(
    latencyAvgMs: Option<nat>,
    latencyMinMs: Option<nat>,
    latencyMaxMs: Option<nat>,
    jitterMs: Option<nat>,
    packetLossPercent: Option<real>,
    tcpRetransmissionPercent: Option<real>,
    tcpSegmentsSent: Option<nat>,
    tcpSegmentsRetransmitted: Option<nat>)

  /** The five echo fields are all present or all absent. */
  predicate PingFieldsTogether(s: QualitySample) {
    s.latencyAvgMs.Some? == s.latencyMinMs.Some? == s.latencyMaxMs.Some? == s.jitterMs.Some? == s.packetLossPercent.Some?
  }

  /** The three TCP fields are all present or all absent. */
  predicate TcpFieldsTogether(s: QualitySample) {
    s.tcpRetransmissionPercent.Some? == s.tcpSegmentsSent.Some? == s.tcpSegmentsRetransmitted.Some?
  }

  /** The field assembly of `probe_quality_once`. */
  function AssembleSample(ping: Option<PingStats>, tcp: Option<TcpStats>): (r: QualitySample)
    ensures PingFieldsTogether(r) && TcpFieldsTogether(r)
    ensures r.latencyAvgMs.Some? <==> ping.Some?
    ensures r.tcpSegmentsSent.Some? <==> tcp.Some?
    ensures ping.Some? ==>
      && r.latencyAvgMs.value == ping.value.avgMs && r.latencyMinMs.value == ping.value.minMs
      && r.latencyMaxMs.value == ping.value.maxMs && r.jitterMs.value == ping.value.jitterMs
      && r.packetLossPercent.value == ping.value.lossPercent
    ensures tcp.Some? ==>
      && r.tcpRetransmissionPercent.value == tcp.value.retransmissionPercent
      && r.tcpSegmentsSent.value == tcp.value.segmentsSent
      && r.tcpSegmentsRetransmitted.value == tcp.value.segmentsRetransmitted
  {
    QualitySample(
      if ping.Some? then Some(ping.value.avgMs) else None,
      if ping.Some? then Some(ping.value.minMs) else None,
      if ping.Some? then Some(ping.value.maxMs) else None,
      if ping.Some? then Some(ping.value.jitterMs) else None,
      if ping.Some? then Some(ping.value.lossPercent) else None,
      if tcp.Some? then Some(tcp.value.retransmissionPercent) else None,
      if tcp.Some? then Some(tcp.value.segmentsSent) else None,
      if tcp.Some? then Some(tcp.value.segmentsRetransmitted) else None)
  }

  /**
   * `probe_quality_once` for the fixed target 8.8.8.8 (which always parses):
   * four echo probes and one TCP statistics query, assembled into a sample
   * whose values keep the bounds of their measurements.
   */
  method ProbeQualityOnce(icmpOpened: bool, echoes: seq<EchoOutcome>, tcpStatus: u32, outSegs: u32, retransSegs: u32)
    returns (r: QualitySample)
    requires |echoes| == DEFAULT_PING_COUNT
    ensures PingFieldsTogether(r) && TcpFieldsTogether(r)
    ensures r.latencyAvgMs.Some? <==> icmpOpened
    ensures r.tcpSegmentsSent.Some? <==> tcpStatus == ERROR_SUCCESS
    ensures r.latencyAvgMs.Some? ==> r.latencyMinMs.value <= r.latencyAvgMs.value <= r.latencyMaxMs.value
    ensures r.jitterMs.Some? ==> r.jitterMs.value <= r.latencyMaxMs.value - r.latencyMinMs.value
    ensures r.packetLossPercent.Some? ==> 0.0 <= r.packetLossPercent.value <= 100.0
    ensures r.tcpRetransmissionPercent.Some? ==> 0.0 <= r.tcpRetransmissionPercent.value <= 100.0
    ensures icmpOpened && |Rtts(echoes)| == 0 ==>
      && r.latencyAvgMs == Some(0) && r.latencyMinMs == Some(0) && r.latencyMaxMs == Some(0)
      && r.jitterMs == Some(0) && r.packetLossPercent == Some(100.0)
    ensures icmpOpened && |Rtts(echoes)| > 0 ==>
      && r.latencyAvgMs == Some(Sum(Rtts(echoes)) / |Rtts(echoes)|)
      && r.latencyMinMs == Some(Min(Rtts(echoes)))
      && r.latencyMaxMs == Some(Max(Rtts(echoes)))
      && r.jitterMs == Some(Jitter(Rtts(echoes)))
      && r.packetLossPercent == Some(LossPercent(|echoes|, |Rtts(echoes)|))
    ensures QueryTcpStats(tcpStatus, outSegs, retransSegs).Some? ==>
      var tcp := QueryTcpStats(tcpStatus, outSegs, retransSegs).value;
      && r.tcpRetransmissionPercent == Some(tcp.retransmissionPercent)
      && r.tcpSegmentsSent == Some(outSegs) && r.tcpSegmentsRetransmitted == Some(retransSegs)
  {
    var ping := MeasureLatencyAndLoss(icmpOpened, echoes);
    var tcp := QueryTcpStats(tcpStatus, outSegs, retransSegs);
    r := AssembleSample(ping, tcp);
  }
}
