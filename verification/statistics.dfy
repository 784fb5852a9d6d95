/** The read-only queries of `MeasureLog` over one category's samples:
    minimum, maximum, mean, spread, latest sample, count, the interval
    between the last two samples and the offset from a target frequency.
    Values are exact decimals, so they are Dafny `real`s. */
module Statistics {
  import opened Wrappers
  import opened Numbers

  /** One `(value, timestamp)` pair of `frequencies` or `power`. */
  datatype Sample = Sample(value: real, timestamp: real)

  function Sum(data: seq<Sample>): real
    decreases |data|
  {
    if data == [] then 0.0 else Sum(data[..|data| - 1]) + data[|data| - 1].value
  }

  /** The least value of a non-empty sequence of samples. */
  function MinOf(data: seq<Sample>): (m: real)
    requires data != []
    ensures forall i :: 0 <= i < |data| ==> m <= data[i].value
    ensures exists i :: 0 <= i < |data| && m == data[i].value
    decreases |data|
  {
    if |data| == 1 then data[0].value
    else
      var rest := MinOf(data[..|data| - 1]);
      var last := data[|data| - 1].value;
      if last < rest then last else rest
  }

  /** The greatest value of a non-empty sequence of samples. */
  function MaxOf(data: seq<Sample>): (m: real)
    requires data != []
    ensures forall i :: 0 <= i < |data| ==> data[i].value <= m
    ensures exists i :: 0 <= i < |data| && m == data[i].value
    decreases |data|
  {
    if |data| == 1 then data[0].value
    else
      var rest := MaxOf(data[..|data| - 1]);
      var last := data[|data| - 1].value;
      if last > rest then last else rest
  }

  /** `min_value`: the least value, `0.0` when there is none. */
  function MinValue(data: seq<Sample>): (m: real)
    ensures data == [] ==> m == 0.0
    ensures data != [] ==> m == MinOf(data)
  {
    if data == [] then 0.0 else MinOf(data)
  }

  /** `max_value`: the greatest value, `0.0` when there is none. */
  function MaxValue(data: seq<Sample>): (m: real)
    ensures data == [] ==> m == 0.0
    ensures data != [] ==> m == MaxOf(data)
  {
    if data == [] then 0.0 else MaxOf(data)
  }

  /** `average_value`: the mean, `0.0` when there is no sample. */
  function Average(data: seq<Sample>): (a: real)
    ensures data == [] ==> a == 0.0
  {
    if data == [] then 0.0 else Sum(data) / |data| as real
  }

  /** The mean lies between the least and the greatest value. */
  lemma AverageBetween(data: seq<Sample>)
    requires data != []
    ensures MinValue(data) <= Average(data) <= MaxValue(data)
  {
    var lo, hi := MinOf(data), MaxOf(data);
    SumBounds(data, lo, hi);
    MeanBetween(Sum(data), |data| as real, lo, hi);
  }

  /** A sum of values that all lie in `[lo, hi]` lies in `[n * lo, n * hi]`. */
  lemma {:induction false} SumBounds(data: seq<Sample>, lo: real, hi: real)
    requires forall i :: 0 <= i < |data| ==> lo <= data[i].value <= hi
    ensures (|data| as real) * lo <= Sum(data) <= (|data| as real) * hi
    decreases |data|
  {
    if data != [] {
      var n := |data| - 1;
      SumBounds(data[..n], lo, hi);
      assert (n as real + 1.0) * lo == (n as real) * lo + lo;
      assert (n as real + 1.0) * hi == (n as real) * hi + hi;
    }
  }

  lemma MeanBetween(s: real, n: real, lo: real, hi: real)
    requires n > 0.0 && n * lo <= s <= n * hi
    ensures lo <= s / n <= hi
  {
    assert s / n * n == s;
  }

  /** The sum of squared deviations from `m`. */
  function SquaredDeviations(data: seq<Sample>, m: real): (q: real)
    ensures q >= 0.0
    decreases |data|
  {
    if data == [] then 0.0
    else
      var d := data[|data| - 1].value - m;
      SquareNonNegative(d);
      SquaredDeviations(data[..|data| - 1], m) + d * d
  }

  lemma SquareNonNegative(d: real)
    ensures d * d >= 0.0
  {
    if d < 0.0 {
      assert d * d == (-d) * (-d);
    }
  }

  /** The square of `std_dev_value`: the sample variance, `0.0` with fewer
      than two samples. */
  function Variance(data: seq<Sample>): (v: real)
    ensures v >= 0.0
    ensures |data| < 2 ==> v == 0.0
  {
    if |data| < 2 then 0.0
    else SquaredDeviations(data, Average(data)) / (|data| - 1) as real
  }

  /** Samples that all have the same value have no spread. */
  lemma {:induction false} ConstantDeviations(data: seq<Sample>, c: real)
    requires forall i :: 0 <= i < |data| ==> data[i].value == c
    ensures SquaredDeviations(data, c) == 0.0
    decreases |data|
  {
    if data != [] {
      ConstantDeviations(data[..|data| - 1], c);
    }
  }

  lemma ConstantVariance(data: seq<Sample>, c: real)
    requires forall i :: 0 <= i < |data| ==> data[i].value == c
    ensures Variance(data) == 0.0
  {
    if |data| >= 2 {
      assert MinOf(data) == c && MaxOf(data) == c;
      AverageBetween(data);
      ConstantDeviations(data, c);
    }
  }

  /** `peak_to_peak`: the maximum less the minimum, never negative. */
  function PeakToPeak(data: seq<Sample>): (p: real)
    ensures p >= 0.0
    ensures data == [] ==> p == 0.0
    ensures forall i, j :: 0 <= i < |data| && 0 <= j < |data| ==> data[i].value - data[j].value <= p
  {
    MaxValue(data) - MinValue(data)
  }

  /** `latest_value`: the last `(value, timestamp)` pair, `(0.0, 0.0)` when
      there is none. */
  function LatestValue(data: seq<Sample>): (r: (real, real))
    ensures data == [] ==> r == (0.0, 0.0)
  {
    if data == [] then (0.0, 0.0) else (data[|data| - 1].value, data[|data| - 1].timestamp)
  }

  /** The latest value is the one appended last. */
  lemma LatestAfterAppend(data: seq<Sample>, s: Sample)
    ensures LatestValue(data + [s]) == (s.value, s.timestamp)
  {
  }

  /** `count`: the number of samples. */
  function Count(data: seq<Sample>): (n: nat)
    ensures n == 0 <==> data == []
  {
    |data|
  }

  /** Python's `int(x)`: truncation toward zero. */
  function Truncate(x: real): (n: int)
    ensures x >= 0.0 ==> 0 <= n && n as real <= x < n as real + 1.0
    ensures x < 0.0 ==> n <= 0 && n as real - 1.0 < x <= n as real
  {
    if x >= 0.0 then x.Floor else -((-x).Floor)
  }

  /** `get_time_interval`: milliseconds between the last two timestamps,
      `int(round(interval, 3) * 1000)`; 0 with fewer than two samples. */
  function TimeInterval(data: seq<Sample>): (ms: int)
    ensures |data| < 2 ==> ms == 0
  {
    if |data| < 2 then 0
    else Truncate(RoundTo(data[|data| - 1].timestamp - data[|data| - 2].timestamp, 3) * 1000.0)
  }

  /** The interval is the time between the last two samples in whole
      milliseconds, off by at most half a millisecond. */
  lemma TimeIntervalNearest(data: seq<Sample>)
    requires |data| >= 2
    ensures var delta := data[|data| - 1].timestamp - data[|data| - 2].timestamp;
      && TimeInterval(data) == RoundHalfEven(delta * 1000.0)
      && (TimeInterval(data) as real) - 0.5 <= delta * 1000.0 <= (TimeInterval(data) as real) + 0.5
  {
    var delta := data[|data| - 1].timestamp - data[|data| - 2].timestamp;
    var n := RoundHalfEven(delta * 1000.0);
    assert Pow10R(3) == 1000.0 by {
      assert Pow10(3) == 1000;
    }
    assert RoundTo(delta, 3) * 1000.0 == n as real;
  }

  /** What `get_freq_difference` returns. */
  datatype FreqOffset = FreqOffset(target: real, difference: real, ppm: real)

  /** The frequency `get_freq_difference` judges: the mean of the samples
      when no frequency is given and there are samples, otherwise the one given. */
  function MeasuredFrequency(frequencies: seq<Sample>, freq: real): (f: real)
    ensures freq == 0.0 && frequencies != [] ==> f == Average(frequencies)
    ensures freq != 0.0 || frequencies == [] ==> f == freq
  {
    if freq == 0.0 && |frequencies| > 0 then Average(frequencies) else freq
  }

  /** The nominal frequency derived from `f` when no target is given: `f`
      rounded to three digits after its leading decimal digit,
      `round(f, -floor(log10(|f + 0.1|)) + 3)`. `None` is the domain error
      of `log10(0)`. */
  function AutoTarget(f: real): (t: Option<real>)
    ensures t.None? <==> f == -0.1
  {
    var y := if f + 0.1 < 0.0 then -(f + 0.1) else f + 0.1;
    if y == 0.0 then None else Some(RoundTo(f, -FloorLog10(y) + 3))
  }

  /** `get_freq_difference(freq, target_freq)`: the target, the difference
      from it, and that difference in parts per million of the target
      (0 when the target is not positive). */
  function FreqDifference(frequencies: seq<Sample>, freq: real, targetFreq: real): (r: Option<FreqOffset>)
    ensures targetFreq != 0.0 ==> r.Some? && r.value.target == targetFreq
    ensures targetFreq == 0.0 ==> (r.None? <==> MeasuredFrequency(frequencies, freq) == -0.1)
    ensures targetFreq == 0.0 && r.Some? ==> r.value.target == AutoTarget(MeasuredFrequency(frequencies, freq)).value
    ensures r.Some? ==> r.value == Offset(MeasuredFrequency(frequencies, freq), r.value.target)
  {
    var f := MeasuredFrequency(frequencies, freq);
    var target := if targetFreq == 0.0 then AutoTarget(f) else Some(targetFreq);
    match target
    case None => None
    case Some(t) => Some(Offset(f, t))
  }

  /** What `get_freq_difference` returns: the difference is the measured
      frequency minus the target, and the ppm figure is that difference in
      millionths of a positive target, 0 for any other target. */
  lemma FreqDifferenceMeaning(frequencies: seq<Sample>, freq: real, targetFreq: real)
    ensures var r, f := FreqDifference(frequencies, freq, targetFreq), MeasuredFrequency(frequencies, freq);
      r.Some? ==>
        && r.value.difference == f - r.value.target
        && (r.value.target > 0.0 ==> r.value.ppm * r.value.target == 1000000.0 * r.value.difference)
        && (r.value.target <= 0.0 ==> r.value.ppm == 0.0)
  {
    var r, f := FreqDifference(frequencies, freq, targetFreq), MeasuredFrequency(frequencies, freq);
    if r.Some? {
      OffsetFacts(r.value, f);
    }
  }

  lemma OffsetFacts(o: FreqOffset, f: real)
    requires o == Offset(f, o.target)
    ensures o.difference == f - o.target
    ensures o.target > 0.0 ==> o.ppm * o.target == 1000000.0 * o.difference
    ensures o.target <= 0.0 ==> o.ppm == 0.0
  {
    OffsetMeaning(f, o.target);
  }

  /** The offset of frequency `f` from target `t`. */
  function Offset(f: real, t: real): (o: FreqOffset)
    ensures o.target == t
  {
    var difference := f - t;
    FreqOffset(t, difference, if t > 0.0 then 1000000.0 * difference / t else 0.0)
  }

  /** The difference is what the frequency exceeds the target by, and the ppm
      figure is that difference in millionths of a positive target. */
  lemma OffsetMeaning(f: real, t: real)
    ensures Offset(f, t).target + Offset(f, t).difference == f
    ensures t > 0.0 ==> Offset(f, t).ppm * t == 1000000.0 * Offset(f, t).difference
    ensures t <= 0.0 ==> Offset(f, t).ppm == 0.0
  {
    if t > 0.0 {
      DivMul(1000000.0 * (f - t), t);
    }
  }

  lemma DivMul(a: real, p: real)
    requires p > 0.0
    ensures (a / p) * p == a
  {
  }

  /** A counter reading exactly 10 MHz with no target given is judged
      against 10 MHz and is off by nothing. */
  lemma TenMegahertzExample()
    ensures FreqDifference([Sample(10000000.0, 0.0)], 0.0, 0.0) == Some(FreqOffset(10000000.0, 0.0, 0.0))
  {
    var data := [Sample(10000000.0, 0.0)];
    assert Average(data) == 10000000.0 by {
      assert Sum(data) == Sum([]) + 10000000.0;
    }
    assert FloorLog10(10000000.1) == 7 by {
      assert Pow10(7) == 10000000 && Pow10(8) == 100000000;
      FloorLog10Unique(10000000.1, 7);
    }
    assert RoundTo(10000000.0, -4) == 10000000.0 by {
      assert Pow10(4) == 10000;
      assert Pow10R(-4) == 1.0 / 10000.0;
      assert RoundHalfEven(1000.0) == 1000;
    }
  }
}
