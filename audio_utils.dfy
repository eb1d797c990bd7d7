/**
 * Sample-buffer arithmetic of the audio utilities: peak normalisation,
 * silence detection and trimming, balanced splitting, and the window
 * schedules behind the per-window loudness and EQ generators.
 * Samples are exact reals; the library transforms are not part of this
 * module (statistics over a window are passed in as functions).
 */
module AudioUtils {
  import opened Results

  // ---------------------------------------------------------------------
  // Constants
  // ---------------------------------------------------------------------

  function Pow2(n: nat): nat {
    if n == 0 then 1 else 2 * Pow2(n - 1)
  }

  /** -80.8 dBFS as a linear amplitude. */
  const Neg80Point8Db: real := 0.00009120108393559096
  const BitDepth: nat := 16
  /** Full scale of a signed BitDepth-bit sample, 2^(BitDepth - 1). */
  const FullScale: real := Pow2(BitDepth - 1) as real
  /** The default silence threshold: -80.8 dBFS at 16-bit scale, times four. */
  const DefaultSilenceThreshold: real := Neg80Point8Db * FullScale * 4.0

  function Abs(x: real): real {
    if x < 0.0 then -x else x
  }

  function Max(a: int, b: int): int {
    if a >= b then a else b
  }

  function Min(a: int, b: int): int {
    if a <= b then a else b
  }

  // ---------------------------------------------------------------------
  // Normalisation
  // ---------------------------------------------------------------------

  /** numpy.amax(numpy.abs(data)): the largest magnitude, attained by some sample. */
  function Peak(data: seq<real>): (p: real)
    requires |data| > 0
    ensures forall i :: 0 <= i < |data| ==> Abs(data[i]) <= p
    ensures exists i :: 0 <= i < |data| && Abs(data[i]) == p
    decreases |data|
  {
    if |data| == 1 then Abs(data[0])
    else
      var rest := Peak(data[1..]);
      assert forall i :: 1 <= i < |data| ==> data[i] == data[1..][i - 1];
      var j :| 0 <= j < |data[1..]| && Abs(data[1..][j]) == rest;
      assert Abs(data[j + 1]) == rest;
      if Abs(data[0]) >= rest then Abs(data[0]) else rest
  }

  /**
   * numpy raises on an empty buffer and yields NaN for an all-zero one;
   * the model admits every buffer except the all-zero one.
   */
  predicate NormalizeDefined(data: seq<real>) {
    |data| == 0 || Peak(data) > 0.0
  }

  /** Every sample divided by the peak magnitude. */
  function Normalized(data: seq<real>): (r: Result<seq<real>>)
    requires NormalizeDefined(data)
    ensures r.Err? <==> |data| == 0
    ensures r.Err? ==> r.error == EmptyInput
    ensures r.Ok? ==> |r.value| == |data|
    ensures r.Ok? ==> forall i :: 0 <= i < |data| ==> r.value[i] == data[i] / Peak(data)
  {
    if |data| == 0 then Err(EmptyInput)
    else
      var peak := Peak(data);
      Ok(seq(|data|, i requires 0 <= i < |data| => data[i] / peak))
  }

  lemma AbsDiv(x: real, p: real)
    requires p > 0.0
    ensures Abs(x / p) == Abs(x) / p
    ensures Abs(x) <= p ==> Abs(x / p) <= 1.0
    ensures Abs(x) == p ==> Abs(x / p) == 1.0
  {
    if x < 0.0 {
      assert x / p < 0.0;
      assert -(x / p) == (-x) / p;
    } else {
      assert x / p >= 0.0;
    }
    var q := Abs(x) / p;
    assert q * p == Abs(x);
    if Abs(x) <= p && q > 1.0 {
      assert q * p > 1.0 * p;
    }
  }

  /** If some x has Abs(x) == m and none exceeds m, m is the peak. */
  lemma PeakIs(data: seq<real>, m: real)
    requires |data| > 0
    requires forall i :: 0 <= i < |data| ==> Abs(data[i]) <= m
    requires exists i :: 0 <= i < |data| && Abs(data[i]) == m
    ensures Peak(data) == m
  {
    var p := Peak(data);
    var i :| 0 <= i < |data| && Abs(data[i]) == m;
    var j :| 0 <= j < |data| && Abs(data[j]) == p;
    assert m <= p && p <= m;
  }

  /** A normalised non-silent buffer has peak magnitude exactly 1. */
  lemma NormalizedPeak(data: seq<real>)
    requires |data| > 0 && Peak(data) > 0.0
    ensures Peak(Normalized(data).value) == 1.0
    ensures forall i :: 0 <= i < |data| ==> Abs(Normalized(data).value[i]) <= 1.0
  {
    var p := Peak(data);
    var n := Normalized(data).value;
    forall i | 0 <= i < |data| ensures Abs(n[i]) <= 1.0 {
      assert n[i] == data[i] / p;
      AbsDiv(data[i], p);
    }
    var j :| 0 <= j < |data| && Abs(data[j]) == p;
    assert n[j] == data[j] / p;
    AbsDiv(data[j], p);
    PeakIs(n, 1.0);
  }

  // ---------------------------------------------------------------------
  // Thresholds
  // ---------------------------------------------------------------------

  /** Python's int() on a float: truncation toward zero. */
  function Truncate(x: real): int {
    if x >= 0.0 then x.Floor else -((-x).Floor)
  }

  /** A threshold that is not a whole number is rescaled by FullScale; a whole one is kept. */
  function EffectiveThreshold(threshold: real): real {
    if Truncate(threshold) as real != threshold then threshold * FullScale else threshold
  }

  lemma FullScaleValue()
    ensures FullScale == 32768.0
  {
    assert Pow2(15) == 32768;
  }

  /** The rescaling depends only on whether the threshold is a whole number. */
  lemma EffectiveThresholdRule(threshold: real)
    ensures threshold.Floor as real == threshold ==> EffectiveThreshold(threshold) == threshold
    ensures threshold.Floor as real != threshold ==> EffectiveThreshold(threshold) == threshold * 32768.0
  {
    FullScaleValue();
    if threshold < 0.0 {
      var n := (-threshold).Floor;
      assert (-threshold).Floor as real == -threshold <==> threshold.Floor as real == threshold by {
        if threshold.Floor as real == threshold {
          assert (-threshold).Floor == -threshold.Floor;
        }
        if (-threshold).Floor as real == -threshold {
          assert threshold.Floor == -n;
        }
      }
    }
  }

  /** The default threshold is not whole, so it is rescaled once more, far above full scale. */
  lemma DefaultThresholdRescaled()
    ensures DefaultSilenceThreshold.Floor == 11
    ensures EffectiveThreshold(DefaultSilenceThreshold) == DefaultSilenceThreshold * 32768.0
    ensures EffectiveThreshold(DefaultSilenceThreshold) > 391000.0
  {
    FullScaleValue();
    assert 11.0 < DefaultSilenceThreshold < 12.0;
    EffectiveThresholdRule(DefaultSilenceThreshold);
  }

  predicate Loud(x: real, threshold: real) {
    Abs(x) > threshold
  }

  // ---------------------------------------------------------------------
  // Silence boundaries
  // ---------------------------------------------------------------------

  /** Index of the first sample louder than threshold, or |data| if none is. */
  function FirstLoud(data: seq<real>, threshold: real): (k: nat)
    ensures k <= |data|
    ensures forall i :: 0 <= i < k ==> !Loud(data[i], threshold)
    ensures k < |data| ==> Loud(data[k], threshold)
    decreases |data|
  {
    if |data| == 0 then 0
    else if Loud(data[0], threshold) then 0
    else
      var k := FirstLoud(data[1..], threshold);
      assert forall i :: 1 <= i <= k ==> data[i] == data[1..][i - 1];
      1 + k
  }

  lemma FirstLoudIs(data: seq<real>, threshold: real, k: nat)
    requires k <= |data|
    requires forall i :: 0 <= i < k ==> !Loud(data[i], threshold)
    requires k < |data| ==> Loud(data[k], threshold)
    ensures FirstLoud(data, threshold) == k
  {
  }

  /** numpy.argmax(numpy.absolute(data) > threshold): the first True index, or 0 if all are False. */
  function ArgmaxLoud(data: seq<real>, threshold: real): nat {
    var k := FirstLoud(data, threshold);
    if k < |data| then k else 0
  }

  /** numpy.flipud. */
  function Reversed(data: seq<real>): seq<real> {
    seq(|data|, i requires 0 <= i < |data| => data[|data| - 1 - i])
  }

  /** start_of: the first loud sample, backed off by samplesBefore. */
  function StartOf(data: seq<real>, threshold: real, samplesBefore: int): (r: Result<int>)
    ensures r.Err? <==> |data| == 0
    ensures r.Err? ==> r.error == EmptyInput
    ensures r.Ok? ==> r.value == Max(0, ArgmaxLoud(data, EffectiveThreshold(threshold)) - samplesBefore)
    ensures r.Ok? && samplesBefore >= 0 ==>
      var k := FirstLoud(data, EffectiveThreshold(threshold));
      && 0 <= r.value < |data|
      && (forall i :: 0 <= i < |data| && Loud(data[i], EffectiveThreshold(threshold)) ==> r.value <= i)
      && (r.value > 0 ==> k == r.value + samplesBefore)
      && (r.value == 0 ==> k <= samplesBefore || k == |data|)
  {
    if |data| == 0 then Err(EmptyInput)
    else
      var index := ArgmaxLoud(data, EffectiveThreshold(threshold));
      if index > samplesBefore - 1 then Ok(index - samplesBefore) else Ok(0)
  }

  /** end_of: one past the last loud sample, pushed out by samplesAfter and clamped to the length. */
  function EndOf(data: seq<real>, threshold: real, samplesAfter: int): (r: Result<int>)
    ensures r.Err? <==> |data| == 0
    ensures r.Err? ==> r.error == EmptyInput
    ensures r.Ok? ==> r.value == Min(|data|, |data| - ArgmaxLoud(Reversed(data), EffectiveThreshold(threshold)) + samplesAfter)
    ensures r.Ok? && samplesAfter >= 0 ==>
      && 1 <= r.value <= |data|
      && (forall i :: 0 <= i < |data| && Loud(data[i], EffectiveThreshold(threshold)) ==> i < r.value)
      && (r.value < |data| ==>
            && samplesAfter < r.value
            && Loud(data[r.value - 1 - samplesAfter], EffectiveThreshold(threshold))
            && forall i :: r.value - 1 - samplesAfter < i < |data| ==> !Loud(data[i], EffectiveThreshold(threshold)))
  {
    if |data| == 0 then Err(EmptyInput)
    else
      var revIndex := ArgmaxLoud(Reversed(data), EffectiveThreshold(threshold));
      ghost var k := FirstLoud(Reversed(data), EffectiveThreshold(threshold));
      assert forall i :: 0 <= i < |data| ==> Reversed(data)[|data| - 1 - i] == data[i];
      if revIndex > samplesAfter - 1 then Ok(|data| - (revIndex - samplesAfter)) else Ok(|data|)
  }

  /**
   * With non-negative margins the trim bounds satisfy 0 <= start < end <= |data|,
   * every sample louder than the start threshold lies at or after start, every
   * sample louder than the end threshold lies before end, and the first sample
   * louder than the start threshold is kept.
   */
  lemma TrimBounds(data: seq<real>, startThreshold: real, endThreshold: real, samplesBefore: int, samplesAfter: int)
    requires |data| > 0 && samplesBefore >= 0 && samplesAfter >= 0
    ensures
      var s := StartOf(data, startThreshold, samplesBefore).value;
      var e := EndOf(data, endThreshold, samplesAfter).value;
      var k := FirstLoud(data, EffectiveThreshold(startThreshold));
      && 0 <= s < e <= |data|
      && (forall i :: 0 <= i < |data| && Loud(data[i], EffectiveThreshold(startThreshold)) ==> s <= i)
      && (forall i :: 0 <= i < |data| && Loud(data[i], EffectiveThreshold(endThreshold)) ==> i < e)
      && (k < |data| ==> k < e)
  {
    var s := StartOf(data, startThreshold, samplesBefore).value;
    var k := FirstLoud(data, EffectiveThreshold(startThreshold));
    if k == |data| {
      assert ArgmaxLoud(data, EffectiveThreshold(startThreshold)) == 0;
      assert s == 0;
    } else {
      FirstLoudBeforeEnd(data, startThreshold, endThreshold, samplesAfter);
    }
  }

  /** The first sample louder than the start threshold lies before end_of. */
  lemma FirstLoudBeforeEnd(data: seq<real>, startThreshold: real, endThreshold: real, samplesAfter: int)
    requires |data| > 0 && samplesAfter >= 0
    requires FirstLoud(data, EffectiveThreshold(startThreshold)) < |data|
    ensures FirstLoud(data, EffectiveThreshold(startThreshold)) < EndOf(data, endThreshold, samplesAfter).value
  {
    var e := EndOf(data, endThreshold, samplesAfter).value;
    var e1 := EffectiveThreshold(startThreshold);
    var e2 := EffectiveThreshold(endThreshold);
    var k := FirstLoud(data, e1);
    if e < |data| {
      var m := e - 1 - samplesAfter;
      if e1 >= e2 {
        assert Loud(data[k], e2);
      } else {
        assert Loud(data[m], e1);
      }
    }
  }

  /** trim_data: the samples between start_of and end_of, with one sample of margin on each side. */
  function TrimData(data: seq<real>, startThreshold: real, endThreshold: real): (r: Result<seq<real>>)
    ensures r.Err? <==> |data| == 0
    ensures r.Err? ==> r.error == EmptyInput
    ensures r.Ok? ==> 0 < |r.value| <= |data|
    ensures r.Ok? ==>
      && 0 <= StartOf(data, startThreshold, 1).value <= EndOf(data, endThreshold, 1).value <= |data|
      && r.value == data[StartOf(data, startThreshold, 1).value..EndOf(data, endThreshold, 1).value]
  {
    if |data| == 0 then Err(EmptyInput)
    else
      var start := StartOf(data, startThreshold, 1).value;
      var end := EndOf(data, endThreshold, 1).value;
      TrimBounds(data, startThreshold, endThreshold, 1, 1);
      Ok(data[start..end])
  }

  /**
   * The trimmed signal is the contiguous run data[s..e] that keeps every sample
   * louder than the start threshold from s on and every sample louder than the
   * end threshold up to e.
   */
  lemma TrimKeepsLoud(data: seq<real>, startThreshold: real, endThreshold: real)
    requires |data| > 0
    ensures exists s, e ::
      && 0 <= s < e <= |data|
      && TrimData(data, startThreshold, endThreshold) == Ok(data[s..e])
      && (forall i :: 0 <= i < |data| && Loud(data[i], EffectiveThreshold(startThreshold)) ==> s <= i)
      && (forall i :: 0 <= i < |data| && Loud(data[i], EffectiveThreshold(endThreshold)) ==> i < e)
  {
    TrimBounds(data, startThreshold, endThreshold, 1, 1);
    var s := StartOf(data, startThreshold, 1).value;
    var e := EndOf(data, endThreshold, 1).value;
    assert TrimData(data, startThreshold, endThreshold) == Ok(data[s..e]);
  }

  /**
   * With the default thresholds nothing of a signal whose samples all lie within
   * [-1, 1] is ever trimmed, because the default is rescaled to about 391706.
   */
  lemma TrimDefaultKeepsUnitSignal(data: seq<real>)
    requires |data| > 0
    requires forall i :: 0 <= i < |data| ==> Abs(data[i]) <= 1.0
    ensures TrimData(data, DefaultSilenceThreshold, DefaultSilenceThreshold) == Ok(data)
  {
    DefaultThresholdRescaled();
    var t := EffectiveThreshold(DefaultSilenceThreshold);
    FirstLoudIs(data, t, |data|);
    FirstLoudIs(Reversed(data), t, |data|);
    assert data[0..|data|] == data;
  }

  /** start_of on the trimmed signal is 0: its first loud sample is at index 0 or 1. */
  lemma TrimmedStartIsZero(data: seq<real>, startThreshold: real, endThreshold: real)
    requires |data| > 0
    ensures
      var s := StartOf(data, startThreshold, 1).value;
      var e := EndOf(data, endThreshold, 1).value;
      s < e && StartOf(data[s..e], startThreshold, 1) == Ok(0)
  {
    var e1 := EffectiveThreshold(startThreshold);
    TrimBounds(data, startThreshold, endThreshold, 1, 1);
    var s := StartOf(data, startThreshold, 1).value;
    var e := EndOf(data, endThreshold, 1).value;
    var t := data[s..e];
    var k := FirstLoud(data, e1);
    if k < |data| {
      assert s <= k <= s + 1;
      assert t[k - s] == data[k];
      assert Loud(t[k - s], e1);
    } else {
      forall i | 0 <= i < |t| ensures !Loud(t[i], e1) {
        assert t[i] == data[s + i];
      }
      FirstLoudIs(t, e1, |t|);
    }
  }

  /** The last sample of data louder than threshold, given that there is one. */
  lemma LastLoudOf(data: seq<real>, threshold: real)
    requires FirstLoud(Reversed(data), threshold) < |data|
    ensures
      var last := |data| - 1 - FirstLoud(Reversed(data), threshold);
      && Loud(data[last], threshold)
      && forall i :: last < i < |data| ==> !Loud(data[i], threshold)
  {
    var rd := Reversed(data);
    var m := FirstLoud(rd, threshold);
    var last := |data| - 1 - m;
    assert rd[m] == data[last];
    forall i | last < i < |data| ensures !Loud(data[i], threshold) {
      assert rd[|data| - 1 - i] == data[i];
    }
  }

  /** end_of with a margin of one is the full length when the last loud sample is among the last two. */
  lemma EndOfNearEnd(t: seq<real>, threshold: real, last: int)
    requires |t| > 0
    requires -1 <= last < |t| && (last == -1 || |t| - 2 <= last)
    requires last >= 0 ==> Loud(t[last], EffectiveThreshold(threshold))
    requires forall i :: last < i < |t| ==> !Loud(t[i], EffectiveThreshold(threshold))
    ensures EndOf(t, threshold, 1) == Ok(|t|)
  {
    var th := EffectiveThreshold(threshold);
    var rt := Reversed(t);
    forall i | 0 <= i < |t| - 1 - last ensures !Loud(rt[i], th) {
      assert rt[i] == t[|t| - 1 - i];
    }
    if last >= 0 {
      assert rt[|t| - 1 - last] == t[last];
      FirstLoudIs(rt, th, |t| - 1 - last);
    } else {
      FirstLoudIs(rt, th, |t|);
    }
  }

  /** The last sample louder than the end threshold survives the trim, one or two places from its end. */
  lemma TrimmedLastLoud(data: seq<real>, startThreshold: real, endThreshold: real)
    requires |data| > 0
    requires FirstLoud(Reversed(data), EffectiveThreshold(endThreshold)) < |data|
    ensures
      var s := StartOf(data, startThreshold, 1).value;
      var e := EndOf(data, endThreshold, 1).value;
      var last := |data| - 1 - FirstLoud(Reversed(data), EffectiveThreshold(endThreshold));
      s <= last < e <= last + 2
  {
    var e1 := EffectiveThreshold(startThreshold);
    var e2 := EffectiveThreshold(endThreshold);
    TrimBounds(data, startThreshold, endThreshold, 1, 1);
    var s := StartOf(data, startThreshold, 1).value;
    var m := FirstLoud(Reversed(data), e2);
    var last := |data| - 1 - m;
    LastLoudOf(data, e2);
    if s > 0 {
      var k := FirstLoud(data, e1);
      assert k == s + 1;
      if e1 >= e2 {
        assert Loud(data[k], e2);
      } else {
        assert Loud(data[last], e1);
      }
    }
  }

  /** end_of on a slice data[s..e] that keeps the last loud sample of data among its last two. */
  lemma SliceEndWithLoud(data: seq<real>, threshold: real, s: int, e: int)
    requires 0 <= s < e <= |data|
    requires FirstLoud(Reversed(data), EffectiveThreshold(threshold)) < |data|
    requires
      var last := |data| - 1 - FirstLoud(Reversed(data), EffectiveThreshold(threshold));
      s <= last < e <= last + 2
    ensures EndOf(data[s..e], threshold, 1) == Ok(e - s)
  {
    var th := EffectiveThreshold(threshold);
    var t := data[s..e];
    var last := |data| - 1 - FirstLoud(Reversed(data), th);
    LastLoudOf(data, th);
    forall i | last - s < i < |t| ensures !Loud(t[i], th) {
      assert t[i] == data[s + i];
    }
    assert t[last - s] == data[last];
    EndOfNearEnd(t, threshold, last - s);
  }

  /** end_of on a slice of a signal with no loud sample at all. */
  lemma SliceEndQuiet(data: seq<real>, threshold: real, s: int, e: int)
    requires 0 <= s < e <= |data|
    requires FirstLoud(Reversed(data), EffectiveThreshold(threshold)) == |data|
    ensures EndOf(data[s..e], threshold, 1) == Ok(e - s)
  {
    var th := EffectiveThreshold(threshold);
    var t := data[s..e];
    forall i | 0 <= i < |t| ensures !Loud(t[i], th) {
      assert t[i] == data[s + i];
      assert Reversed(data)[|data| - 1 - (s + i)] == data[s + i];
    }
    EndOfNearEnd(t, threshold, -1);
  }

  /** end_of on the trimmed signal is its length. */
  lemma TrimmedEndIsLength(data: seq<real>, startThreshold: real, endThreshold: real)
    requires |data| > 0
    ensures
      var s := StartOf(data, startThreshold, 1).value;
      var e := EndOf(data, endThreshold, 1).value;
      s < e && EndOf(data[s..e], endThreshold, 1) == Ok(e - s)
  {
    var s := StartOf(data, startThreshold, 1).value;
    var e := EndOf(data, endThreshold, 1).value;
    if FirstLoud(Reversed(data), EffectiveThreshold(endThreshold)) < |data| {
      TrimmedLastLoud(data, startThreshold, endThreshold);
      SliceEndWithLoud(data, endThreshold, s, e);
    } else {
      TrimOrdered(data, startThreshold, endThreshold);
      SliceEndQuiet(data, endThreshold, s, e);
    }
  }

  /** The trim bounds with one sample of margin are ordered. */
  lemma TrimOrdered(data: seq<real>, startThreshold: real, endThreshold: real)
    requires |data| > 0
    ensures StartOf(data, startThreshold, 1).value < EndOf(data, endThreshold, 1).value
  {
    TrimBounds(data, startThreshold, endThreshold, 1, 1);
  }

  /** Trimming an already-trimmed signal with the same thresholds changes nothing. */
  lemma TrimIdempotent(data: seq<real>, startThreshold: real, endThreshold: real)
    requires |data| > 0
    ensures TrimData(TrimData(data, startThreshold, endThreshold).value, startThreshold, endThreshold)
            == TrimData(data, startThreshold, endThreshold)
  {
    TrimmedStartIsZero(data, startThreshold, endThreshold);
    TrimmedEndIsLength(data, startThreshold, endThreshold);
    var s := StartOf(data, startThreshold, 1).value;
    var e := EndOf(data, endThreshold, 1).value;
    var t := data[s..e];
    assert TrimData(data, startThreshold, endThreshold) == Ok(t);
    assert t[0..|t|] == t;
  }

  // ---------------------------------------------------------------------
  // Balanced split (numpy.array_split)
  // ---------------------------------------------------------------------

  /** The length of part i when n items are split into `sections` balanced parts. */
  function SectionLength(n: nat, sections: nat, i: nat): nat
    requires sections > 0
  {
    n / sections + (if i < n % sections then 1 else 0)
  }

  /** Where part i begins: the lengths of the parts before it, added up. */
  function SectionStart(n: nat, sections: nat, i: nat): nat
    requires sections > 0
  {
    if i == 0 then 0 else SectionStart(n, sections, i - 1) + SectionLength(n, sections, i - 1)
  }

  lemma MulMono(a: nat, b: nat, c: nat)
    requires a <= b
    ensures a * c <= b * c
  {
  }

  /** numpy's closed form of the part boundaries: i * (n / sections) + min(i, n % sections). */
  lemma {:induction false} SectionStartClosedForm(n: nat, sections: nat, i: nat)
    requires sections > 0
    ensures SectionStart(n, sections, i) == i * (n / sections) + Min(i, n % sections)
    decreases i
  {
    if i > 0 {
      SectionStartClosedForm(n, sections, i - 1);
      assert i * (n / sections) == (i - 1) * (n / sections) + n / sections;
    }
  }

  /** The parts end exactly at n, and no boundary before the last lies beyond it. */
  lemma SectionStartBounded(n: nat, sections: nat, i: nat)
    requires sections > 0 && i <= sections
    ensures SectionStart(n, sections, i) <= n
    ensures i == sections ==> SectionStart(n, sections, i) == n
  {
    SectionStartClosedForm(n, sections, i);
    MulMono(i, sections, n / sections);
    assert n == sections * (n / sections) + n % sections;
  }

  lemma AllSectionBounds(n: nat, sections: nat)
    requires sections > 0
    ensures forall i {:trigger SectionStart(n, sections, i)} :: 0 <= i <= sections ==> SectionStart(n, sections, i) <= n
  {
    forall i | 0 <= i <= sections ensures SectionStart(n, sections, i) <= n {
      SectionStartBounded(n, sections, i);
    }
  }

  /** split_into: num contiguous parts, the first |data| % num of them one longer than the rest. */
  function SplitInto(data: seq<real>, num: int): (r: Result<seq<seq<real>>>)
    ensures r.Err? <==> num <= 0
    ensures r.Err? ==> r.error == NonPositiveSections
    ensures r.Ok? ==> |r.value| == num
    ensures r.Ok? ==> forall i :: 0 <= i < num ==>
      |r.value[i]| == |data| / num + (if i < |data| % num then 1 else 0)
  {
    if num <= 0 then Err(NonPositiveSections)
    else
      AllSectionBounds(|data|, num);
      Ok(seq(num, i requires 0 <= i < num =>
        data[SectionStart(|data|, num, i)..SectionStart(|data|, num, i + 1)]))
  }

  function Concat(parts: seq<seq<real>>): seq<real> {
    if |parts| == 0 then [] else Concat(parts[..|parts| - 1]) + parts[|parts| - 1]
  }

  lemma {:induction false} SplitPrefixCovers(data: seq<real>, num: int, k: nat)
    requires 0 < num && k <= num
    ensures SectionStart(|data|, num, k) <= |data|
    ensures Concat(SplitInto(data, num).value[..k]) == data[..SectionStart(|data|, num, k)]
    decreases k
  {
    var parts := SplitInto(data, num).value;
    SectionStartBounded(|data|, num, k);
    if k > 0 {
      SplitPrefixCovers(data, num, k - 1);
      SectionStartBounded(|data|, num, k);
      var a := SectionStart(|data|, num, k - 1);
      var b := SectionStart(|data|, num, k);
      assert parts[..k][..k - 1] == parts[..k - 1];
      assert parts[k - 1] == data[a..b];
      assert data[..b] == data[..a] + data[a..b];
    }
  }

  /** The parts of split_into, joined in order, are the input. */
  lemma SplitIntoCovers(data: seq<real>, num: int)
    requires num > 0
    ensures Concat(SplitInto(data, num).value) == data
  {
    var parts := SplitInto(data, num).value;
    SplitPrefixCovers(data, num, num);
    assert parts[..num] == parts;
    SectionStartBounded(|data|, num, num);
    assert data[..|data|] == data;
  }

  // ---------------------------------------------------------------------
  // Windows
  // ---------------------------------------------------------------------

  /** A half-open range [start, end) of sample or frame indices. */
  datatype Window = Window(start: nat, end: nat)

  /**
   * loudness_at's window around pos: it never leaves [0, length), always spans
   * min(windowSize, length) samples, contains pos when pos is a valid index,
   * and is centred on pos when it fits; near either end it is shifted, not
   * shrunk, so that it starts at 0 or ends at length.
   */
  function LoudnessWindow(length: nat, pos: int, windowSize: nat): (w: Window)
    ensures w.start <= w.end <= length
    ensures w.end - w.start == Min(windowSize, length)
    ensures 0 <= pos < length && windowSize > 0 ==> w.start <= pos < w.end
    ensures windowSize / 2 <= pos && pos - windowSize / 2 + windowSize <= length ==>
      w.start == pos - windowSize / 2
    ensures pos < windowSize / 2 ==> w.start == 0
    ensures pos - windowSize / 2 + windowSize > length ==> w.end == length
  {
    var start0 := Max(0, pos - windowSize / 2);
    var end := Min(length, start0 + windowSize);
    var start := if end - start0 < windowSize then Max(0, end - windowSize) else start0;
    Window(start, end)
  }

  /**
   * loudness_at: the loudness of min(windowSize, |data|) consecutive samples
   * of data, a run that contains pos when pos is an index, starts
   * windowSize / 2 before pos when the whole window fits, and otherwise is
   * the first or the last run of that length.
   */
  function LoudnessAt(data: seq<real>, pos: int, windowSize: nat, loudness: seq<real> -> real): (r: real)
    ensures exists s :: LoudnessOfRun(data, s, Min(windowSize, |data|), loudness, r)
    ensures 0 <= pos < |data| && windowSize > 0 ==>
      exists s :: s <= pos < s + Min(windowSize, |data|) && LoudnessOfRun(data, s, Min(windowSize, |data|), loudness, r)
    ensures windowSize / 2 <= pos && pos - windowSize / 2 + windowSize <= |data| ==>
      LoudnessOfRun(data, pos - windowSize / 2, windowSize, loudness, r)
    ensures pos < windowSize / 2 ==> LoudnessOfRun(data, 0, Min(windowSize, |data|), loudness, r)
    ensures pos - windowSize / 2 + windowSize > |data| ==>
      LoudnessOfRun(data, |data| - Min(windowSize, |data|), Min(windowSize, |data|), loudness, r)
  {
    var w := LoudnessWindow(|data|, pos, windowSize);
    var r := loudness(data[w.start..w.end]);
    assert LoudnessOfRun(data, w.start, Min(windowSize, |data|), loudness, r);
    r
  }

  /** r is the loudness of the run of `length` samples of data that starts at s. */
  predicate LoudnessOfRun(data: seq<real>, s: int, length: int, loudness: seq<real> -> real, r: real) {
    0 <= s && 0 <= length && s + length <= |data| && r == loudness(data[s..s + length])
  }

  /** The range Python's seq[start:end] selects from a sequence of the given length. */
  function SliceRange(length: nat, start: nat, end: nat): (w: Window)
    ensures w.start <= w.end <= length
  {
    var s := Min(start, length);
    Window(s, Max(s, Min(end, length)))
  }

  /**
   * The windows the generators visit: count windows of total / count items each,
   * window i covering [i * size, i * size + size) with its end clamped to `clamp`,
   * then cut to the selected range of a sequence of `total` items.
   */
  function EqualWindows(total: nat, count: nat, clamp: nat): (ws: seq<Window>)
    requires count > 0
    ensures |ws| == count
    ensures forall i :: 0 <= i < count ==> ws[i].start <= ws[i].end <= total
  {
    var size := total / count;
    seq(count, i requires 0 <= i < count => SliceRange(total, i * size, Min(clamp, i * size + size)))
  }

  /** The loop shared by loudness_vector and eq_vector, window by window. */
  method WindowSchedule(total: nat, count: int, clamp: nat) returns (r: Result<seq<Window>>)
    ensures count == 0 ==> r == Err(ZeroDivision)
    ensures count < 0 ==> r == Ok([])
    ensures count > 0 ==> r == Ok(EqualWindows(total, count, clamp))
  {
    if count == 0 {
      return Err(ZeroDivision);
    }
    if count < 0 {
      return Ok([]);
    }
    var size := total / count;
    var windows: seq<Window> := [];
    for i := 0 to count
      invariant windows == EqualWindows(total, count, clamp)[..i]
    {
      var start := i * size;
      var end := Min(clamp, start + size);
      windows := windows + [SliceRange(total, start, end)];
    }
    assert EqualWindows(total, count, clamp)[..count] == EqualWindows(total, count, clamp);
    return Ok(windows);
  }

  lemma WindowInBounds(total: nat, count: nat, i: nat)
    requires count > 0 && i < count
    ensures (i + 1) * (total / count) == i * (total / count) + total / count
    ensures i * (total / count) + total / count <= total
  {
    var size := total / count;
    assert (i + 1) * size == i * size + size;
    MulMono(i + 1, count, size);
    assert total == count * size + total % count;
  }

  /**
   * Every window ends at or before count * (total / count), so exactly the
   * last total % count items lie outside all of them.
   */
  lemma RemainderUncovered(total: nat, count: nat, clamp: nat, i: nat)
    requires count > 0 && i < count
    ensures EqualWindows(total, count, clamp)[i].end <= count * (total / count)
    ensures total - count * (total / count) == total % count
  {
    WindowInBounds(total, count, i);
    MulMono(i + 1, count, total / count);
  }

  /** The window index of item x: the quotient by the window size, below count. */
  lemma WindowIndexOf(x: nat, size: nat, count: nat)
    requires x < count * size
    ensures size > 0
    ensures x / size < count
    ensures (x / size) * size <= x < (x / size) * size + size
  {
    var i := x / size;
    assert x == i * size + x % size;
    if i >= count {
      MulMono(count, i, size);
    }
  }

  /** Without a biting clamp, every item before count * (total / count) lies in some window. */
  lemma CoveredBeforeRemainder(total: nat, count: nat, clamp: nat, x: nat)
    requires count > 0 && clamp >= total && x < count * (total / count)
    ensures exists i :: 0 <= i < count && EqualWindows(total, count, clamp)[i].start <= x < EqualWindows(total, count, clamp)[i].end
  {
    var size := total / count;
    WindowIndexOf(x, size, count);
    var i := x / size;
    EqualWindowsUnclamped(total, count, clamp);
    assert EqualWindows(total, count, clamp)[i] == Window(i * size, i * size + size);
  }

  /**
   * When the clamp does not bite, window i is exactly [i * size, i * size + size)
   * with size = total / count, and each window ends where the next one starts.
   */
  lemma EqualWindowsUnclamped(total: nat, count: nat, clamp: nat)
    requires count > 0 && clamp >= total
    ensures
      var size := total / count;
      var ws := EqualWindows(total, count, clamp);
      && (forall i :: 0 <= i < count ==> ws[i] == Window(i * size, i * size + size))
      && (forall i :: 0 <= i < count - 1 ==> ws[i].end == ws[i + 1].start)
  {
    var size := total / count;
    var ws := EqualWindows(total, count, clamp);
    forall i | 0 <= i < count ensures ws[i] == Window(i * size, i * size + size) {
      WindowInBounds(total, count, i);
    }
    forall i | 0 <= i < count - 1 ensures ws[i].end == ws[i + 1].start {
      WindowInBounds(total, count, i);
    }
  }

  /** Fewer items than windows: every window is empty. */
  lemma EqualWindowsShortInput(total: nat, count: nat, clamp: nat)
    requires count > 0 && total < count
    ensures forall i :: 0 <= i < count ==> EqualWindows(total, count, clamp)[i] == Window(0, 0)
  {
    assert total / count == 0;
  }

  /**
   * loudness_vector: exactly numWindows values, value i being the loudness of
   * samples [i * size, (i + 1) * size) with size = |data| / numWindows.
   */
  method LoudnessVector(data: seq<real>, numWindows: int, loudness: seq<real> -> real)
    returns (r: Result<seq<real>>)
    ensures numWindows == 0 ==> r == Err(ZeroDivision)
    ensures numWindows < 0 ==> r == Ok([])
    ensures numWindows > 0 ==>
      var size := |data| / numWindows;
      && r.Ok? && |r.value| == numWindows
      && forall i :: 0 <= i < numWindows ==>
           i * size + size <= |data| && r.value[i] == loudness(data[i * size..i * size + size])
  {
    var schedule := WindowSchedule(|data|, numWindows, |data|);
    if schedule.Err? {
      return Err(schedule.error);
    }
    var ws := schedule.value;
    assert forall i :: 0 <= i < |ws| ==> ws[i].start <= ws[i].end <= |data|;
    var values := seq(|ws|, i requires 0 <= i < |ws| => loudness(data[ws[i].start..ws[i].end]));
    if numWindows > 0 {
      EqualWindowsUnclamped(|data|, numWindows, |data|);
      var size := |data| / numWindows;
      forall i | 0 <= i < numWindows
        ensures i * size + size <= |data| && values[i] == loudness(data[i * size..i * size + size])
      {
        assert ws[i] == Window(i * size, i * size + size);
      }
    }
    if numWindows < 0 {
      assert ws == [];
      assert values == [];
    }
    r := Ok(values);
  }

  /**
   * eq_vector's window schedule as the code has it: window ends are clamped with
   * len() of the spectrogram, which is its row count, not its frame count.
   */
  method EqVectorAsWritten(rows: nat, frames: nat, numWindows: int) returns (r: Result<seq<Window>>)
    ensures numWindows == 0 ==> r == Err(ZeroDivision)
    ensures numWindows < 0 ==> r == Ok([])
    ensures numWindows > 0 ==> r == Ok(EqualWindows(frames, numWindows, rows))
  {
    r := WindowSchedule(frames, numWindows, rows);
  }

  /** Under the row clamp every window that starts at or after the row count is empty. */
  lemma RowClampEmptiesWindows(rows: nat, frames: nat, numWindows: nat, i: nat)
    requires numWindows > 0 && i < numWindows && rows <= i * (frames / numWindows)
    ensures EqualWindows(frames, numWindows, rows)[i].start == EqualWindows(frames, numWindows, rows)[i].end
  {
  }

  /** Three rows (three bands), a hundred frames, ten windows: window 1 is empty instead of [10, 20). */
  lemma RowClampExample()
    ensures EqualWindows(100, 10, 3)[1] == Window(10, 10)
    ensures EqualWindows(100, 10, 100)[1] == Window(10, 20)
  {
  }

  /** eq_vector's window schedule with ends clamped by the frame count: consecutive equal windows. */
  method EqVector(frames: nat, numWindows: int) returns (r: Result<seq<Window>>)
    ensures numWindows == 0 ==> r == Err(ZeroDivision)
    ensures numWindows < 0 ==> r == Ok([])
    ensures numWindows > 0 ==>
      var size := frames / numWindows;
      && r.Ok? && |r.value| == numWindows
      && forall i :: 0 <= i < numWindows ==> r.value[i] == Window(i * size, i * size + size) && i * size + size <= frames
  {
    r := WindowSchedule(frames, numWindows, frames);
    if numWindows > 0 {
      EqualWindowsUnclamped(frames, numWindows, frames);
    }
  }
}
