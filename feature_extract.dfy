// Per-file feature extraction: every audio file is decoded, normalised and
// trimmed, cut into ten equal sections, and summarised as a flat map from
// feature names ("duration", "loudness_3", "average_eq_3_17", ...) to numbers.
// Decoding and the per-section signal analyses are library routines; the
// model receives them as functions.
module FeatureExtract {
  import opened Results
  import opened Text
  import AudioUtils

  type SampleRate = r: int | r > 0 witness 22050

  /** A decoded mono signal and its sample rate. */
  datatype Decoded = Decoded(samples: seq<real>, rate: SampleRate)

  /**
   * A decoded signal that normalisation can divide by its peak: empty, or with
   * at least one non-zero sample (an all-zero signal would turn into NaNs).
   */
  type Audible = d: Decoded | AudioUtils.NormalizeDefined(d.samples) witness Decoded([], 22050)

  /**
   * The library routines the extractor calls, as values: decoding a file,
   * loudness of a section, the (lowest pitch, pitch spread) estimate and the
   * average power of each equaliser band. A routine that can raise returns None.
   */
  datatype Library = Library(
    load: string -> Option<Audible>,
    loudness: seq<real> -> real,
    pitch: (seq<real>, SampleRate) -> Option<(real, real)>,
    eqBands: seq<real> -> Option<seq<real>>)

  /** The number of equal sections each file is cut into. */
  const SectionCount: nat := 10

  /** Normalise a decoded signal, then trim silence with the default thresholds. */
  function LoadAndTrim(decoded: Audible): (r: Result<(seq<real>, SampleRate)>)
    ensures r.Err? <==> |decoded.samples| == 0
    ensures r.Err? ==> r.error == EmptyInput
    ensures r.Ok? ==> r.value.1 == decoded.rate
    ensures r.Ok? ==> 0 < |r.value.0| <= |decoded.samples|
  {
    match AudioUtils.Normalized(decoded.samples)
    case Err(e) => Err(e)
    case Ok(y) =>
      match AudioUtils.TrimData(y, AudioUtils.DefaultSilenceThreshold, AudioUtils.DefaultSilenceThreshold)
      case Err(e) => Err(e)
      case Ok(trimmed) => Ok((trimmed, decoded.rate))
  }

  /**
   * Because the default thresholds are rescaled far above full scale, the
   * trimming step keeps a normalised signal whole.
   */
  lemma LoadAndTrimKeepsWholeSignal(decoded: Audible)
    requires |decoded.samples| > 0
    ensures LoadAndTrim(decoded) == Ok((AudioUtils.Normalized(decoded.samples).value, decoded.rate))
  {
    AudioUtils.NormalizedPeak(decoded.samples);
    AudioUtils.TrimDefaultKeepsUnitSignal(AudioUtils.Normalized(decoded.samples).value);
  }

  // ---------------------------------------------------------------------------
  // Feature names
  // ---------------------------------------------------------------------------

  datatype FeatureKey =
    | Duration
    | Loudness(section: nat)
    | Fundamental(section: nat)
    | FundamentalStddev(section: nat)
    | AverageEq(section: nat, band: nat)

  /** The name under which a feature is stored, formatted with %d. */
  function KeyName(k: FeatureKey): string {
    match k
    case Duration => "duration"
    case Loudness(i) => "loudness_" + Dec(i)
    case Fundamental(i) => "fundamental_" + Dec(i)
    case FundamentalStddev(i) => "fundamental_stddev_" + Dec(i)
    case AverageEq(i, j) => "average_eq_" + Dec(i) + "_" + Dec(j)
  }

  /** The section index of a key is a single decimal digit. */
  predicate SingleDigit(k: FeatureKey) {
    k.Duration? || k.section < 10
  }

  /** Reads a feature name back; the section index must be one digit. */
  function ParseKey(s: string): Option<FeatureKey> {
    if s == "duration" then Some(Duration)
    else if |s| == 10 && s[..9] == "loudness_" && IsDigits(s[9..]) then
      Some(Loudness(ParseDec(s[9..])))
    else if |s| == 13 && s[..12] == "fundamental_" && IsDigits(s[12..]) then
      Some(Fundamental(ParseDec(s[12..])))
    else if |s| == 20 && s[..19] == "fundamental_stddev_" && IsDigits(s[19..]) then
      Some(FundamentalStddev(ParseDec(s[19..])))
    else if |s| >= 14 && s[..11] == "average_eq_" && IsDigits(s[11..12]) && s[12] == '_'
      && IsDigits(s[13..]) then
      Some(AverageEq(ParseDec(s[11..12]), ParseDec(s[13..])))
    else None
  }

  lemma ParseKeyName(k: FeatureKey)
    requires SingleDigit(k)
    ensures ParseKey(KeyName(k)) == Some(k)
  {
    var s := KeyName(k);
    match k
    case Duration =>
    case Loudness(i) =>
      assert s[..9] == "loudness_" && s[9..] == Dec(i);
      ParseDecRoundTrip(i);
    case Fundamental(i) =>
      assert s[..12] == "fundamental_" && s[12..] == Dec(i);
      ParseDecRoundTrip(i);
    case FundamentalStddev(i) =>
      assert s[..19] == "fundamental_stddev_" && s[19..] == Dec(i);
      ParseDecRoundTrip(i);
    case AverageEq(i, j) =>
      assert s[0] == 'a';
      assert s[..11] == "average_eq_" && s[11..12] == Dec(i) && s[12] == '_' && s[13..] == Dec(j);
      assert s[..9] != "loudness_" by { assert s[..9][0] == 'a'; }
      assert s[..12] != "fundamental_" by { assert s[..12][0] == 'a'; }
      assert |s| != 20 || s[..19] != "fundamental_stddev_" by {
        if |s| == 20 { assert s[..19][0] == 'a'; }
      }
      ParseDecRoundTrip(i);
      ParseDecRoundTrip(j);
  }

  /** Distinct features never share a name. */
  lemma KeyNameInjective(k1: FeatureKey, k2: FeatureKey)
    requires SingleDigit(k1) && SingleDigit(k2)
    ensures KeyName(k1) == KeyName(k2) ==> k1 == k2
  {
    ParseKeyName(k1);
    ParseKeyName(k2);
  }

  // ---------------------------------------------------------------------------
  // The feature map of one file
  // ---------------------------------------------------------------------------

  /** What the library routines report for one section. */
  datatype SectionStats = SectionStats(
    loudness: real, fundamental: real, fundamentalStddev: real, eqBands: seq<real>)

  /** A trimmed signal, its rate and the statistics of its ten sections. */
  datatype Analyzed = Analyzed(audio: seq<real>, rate: SampleRate, stats: seq<SectionStats>)

  /** The length of a signal in seconds. */
  function DurationOf(audio: seq<real>, rate: SampleRate): real {
    |audio| as real / rate as real
  }

  /** The statistics of one section, or None when a routine raises. */
  function SectionStatsOf(section: seq<real>, rate: SampleRate, lib: Library): Option<SectionStats> {
    match lib.pitch(section, rate)
    case None => None
    case Some(p) =>
      match lib.eqBands(section)
      case None => None
      case Some(bands) => Some(SectionStats(lib.loudness(section), p.0, p.1, bands))
  }

  /** The statistics of the ten sections of a trimmed signal. */
  function AnalyzeSections(audio: seq<real>, rate: SampleRate, lib: Library): (r: Result<seq<SectionStats>>)
    ensures r.Ok? ==> |r.value| == SectionCount
  {
    var sections := AudioUtils.SplitInto(audio, SectionCount).value;
    if forall i :: 0 <= i < SectionCount ==> SectionStatsOf(sections[i], rate, lib).Some? then
      Ok(seq(SectionCount, i requires 0 <= i < SectionCount => SectionStatsOf(sections[i], rate, lib).value))
    else
      Err(AnalysisFailed)
  }

  /** Everything features_for computes about a file before it builds the map. */
  function Analyze(file: string, lib: Library): (r: Result<Analyzed>)
    ensures r.Ok? ==> |r.value.stats| == SectionCount
  {
    match lib.load(file)
    case None => Err(DecodeFailed)
    case Some(decoded) =>
      match LoadAndTrim(decoded)
      case Err(e) => Err(e)
      case Ok((audio, rate)) =>
        match AnalyzeSections(audio, rate, lib)
        case Err(e) => Err(e)
        case Ok(stats) => Ok(Analyzed(audio, rate, stats))
  }

  /** Inserting the first j band averages of a section, in band order. */
  function BandsInsert(m: map<string, real>, section: nat, bands: seq<real>, j: nat): map<string, real>
    requires j <= |bands|
  {
    if j == 0 then m
    else BandsInsert(m, section, bands, j - 1)[KeyName(AverageEq(section, j - 1)) := bands[j - 1]]
  }

  /** Inserting all features of one section, in the order the extractor does. */
  function SectionInsert(m: map<string, real>, section: nat, st: SectionStats): map<string, real> {
    var scalars := m[KeyName(Loudness(section)) := st.loudness]
                    [KeyName(Fundamental(section)) := st.fundamental]
                    [KeyName(FundamentalStddev(section)) := st.fundamentalStddev];
    BandsInsert(scalars, section, st.eqBands, |st.eqBands|)
  }

  /** The map built from a duration and the statistics of the first |stats| sections. */
  function FeatureMap(duration: real, stats: seq<SectionStats>): map<string, real>
    decreases |stats|
  {
    if |stats| == 0 then map[KeyName(Duration) := duration]
    else SectionInsert(FeatureMap(duration, stats[..|stats| - 1]), |stats| - 1, stats[|stats| - 1])
  }

  /** The features that exist for the given section statistics. */
  predicate ValidKey(k: FeatureKey, stats: seq<SectionStats>) {
    match k
    case Duration => true
    case Loudness(i) => i < |stats|
    case Fundamental(i) => i < |stats|
    case FundamentalStddev(i) => i < |stats|
    case AverageEq(i, j) => i < |stats| && j < |stats[i].eqBands|
  }

  /** The value a feature must have. */
  function KeyValue(k: FeatureKey, duration: real, stats: seq<SectionStats>): real
    requires ValidKey(k, stats)
  {
    match k
    case Duration => duration
    case Loudness(i) => stats[i].loudness
    case Fundamental(i) => stats[i].fundamental
    case FundamentalStddev(i) => stats[i].fundamentalStddev
    case AverageEq(i, j) => stats[i].eqBands[j]
  }

  /** One duration, three scalars per section and one entry per band. */
  function KeyCount(stats: seq<SectionStats>): nat
    decreases |stats|
  {
    if |stats| == 0 then 1
    else KeyCount(stats[..|stats| - 1]) + 3 + |stats[|stats| - 1].eqBands|
  }

  /** Every valid feature is in the map with its value. */
  ghost predicate HasFeatures(m: map<string, real>, duration: real, stats: seq<SectionStats>) {
    forall k :: ValidKey(k, stats) ==> KeyName(k) in m && m[KeyName(k)] == KeyValue(k, duration, stats)
  }

  /** Every key of the map names a valid feature. */
  ghost predicate OnlyFeatures(m: map<string, real>, stats: seq<SectionStats>) {
    forall s :: s in m ==> exists k :: ValidKey(k, stats) && KeyName(k) == s
  }

  /** The map holds exactly the valid features, each with its value. */
  ghost predicate IsFeatureMap(m: map<string, real>, duration: real, stats: seq<SectionStats>) {
    HasFeatures(m, duration, stats) && OnlyFeatures(m, stats)
  }

  /** The band names of one section are pairwise distinct. */
  lemma BandNamesDistinct(section: nat, b1: nat, b2: nat)
    requires section < 10 && b1 != b2
    ensures KeyName(AverageEq(section, b1)) != KeyName(AverageEq(section, b2))
  {
    KeyNameInjective(AverageEq(section, b1), AverageEq(section, b2));
  }

  lemma {:induction false} BandsInsertCount(m: map<string, real>, section: nat, bands: seq<real>, j: nat)
    requires j <= |bands| && section < 10
    requires forall b :: 0 <= b < |bands| ==> KeyName(AverageEq(section, b)) !in m
    ensures |BandsInsert(m, section, bands, j)| == |m| + j
    ensures forall b :: j <= b < |bands| ==> KeyName(AverageEq(section, b)) !in BandsInsert(m, section, bands, j)
    decreases j
  {
    if j > 0 {
      BandsInsertCount(m, section, bands, j - 1);
      forall b | j <= b < |bands| {
        BandNamesDistinct(section, b, j - 1);
      }
    }
  }

  /** After inserting j bands, band b < j is present with its value. */
  lemma {:induction false} BandsInsertValue(m: map<string, real>, section: nat, bands: seq<real>, j: nat, b: nat)
    requires b < j <= |bands| && section < 10
    ensures KeyName(AverageEq(section, b)) in BandsInsert(m, section, bands, j)
    ensures BandsInsert(m, section, bands, j)[KeyName(AverageEq(section, b))] == bands[b]
    decreases j
  {
    if b < j - 1 {
      BandsInsertValue(m, section, bands, j - 1, b);
      BandNamesDistinct(section, b, j - 1);
    }
  }

  /** Every key after inserting j bands was in m or is one of their names. */
  lemma {:induction false} BandsInsertOrigin(m: map<string, real>, section: nat, bands: seq<real>, j: nat, s: string)
    requires j <= |bands|
    requires s in BandsInsert(m, section, bands, j)
    ensures s in m || exists b :: 0 <= b < j && s == KeyName(AverageEq(section, b))
    decreases j
  {
    if j > 0 && s != KeyName(AverageEq(section, j - 1)) {
      BandsInsertOrigin(m, section, bands, j - 1, s);
    }
  }

  /** Keys inserted into m leave the values of other keys alone. */
  lemma {:induction false} BandsInsertKeeps(m: map<string, real>, section: nat, bands: seq<real>, j: nat, s: string)
    requires j <= |bands|
    requires s in m && forall b :: 0 <= b < j ==> s != KeyName(AverageEq(section, b))
    ensures s in BandsInsert(m, section, bands, j) && BandsInsert(m, section, bands, j)[s] == m[s]
    decreases j
  {
    if j > 0 {
      BandsInsertKeeps(m, section, bands, j - 1, s);
    }
  }

  /** A feature of a section not yet inserted is absent from the map. */
  lemma AbsentWhenInvalid(m: map<string, real>, stats: seq<SectionStats>, k: FeatureKey)
    requires OnlyFeatures(m, stats)
    requires SingleDigit(k) && !ValidKey(k, stats)
    requires |stats| <= SectionCount
    ensures KeyName(k) !in m
  {
    if KeyName(k) in m {
      var k' :| ValidKey(k', stats) && KeyName(k') == KeyName(k);
      KeyNameInjective(k', k);
    }
  }

  /** Three distinct new keys grow a map by three. */
  lemma ThreeInserts(m: map<string, real>, a: string, b: string, c: string, x: real, y: real, z: real)
    requires a !in m && b !in m && c !in m && a != b && a != c && b != c
    ensures |m[a := x][b := y][c := z]| == |m| + 3
  {
  }

  /** The number of keys after inserting one section. */
  lemma SectionInsertCount(m: map<string, real>, stats: seq<SectionStats>, st: SectionStats)
    requires OnlyFeatures(m, stats) && |stats| < SectionCount
    ensures |SectionInsert(m, |stats|, st)| == |m| + 3 + |st.eqBands|
  {
    var i := |stats|;
    var kl, kf, ks := Loudness(i), Fundamental(i), FundamentalStddev(i);
    AbsentWhenInvalid(m, stats, kl);
    AbsentWhenInvalid(m, stats, kf);
    AbsentWhenInvalid(m, stats, ks);
    KeyNameInjective(kl, kf);
    KeyNameInjective(kl, ks);
    KeyNameInjective(kf, ks);
    var scalars := m[KeyName(kl) := st.loudness][KeyName(kf) := st.fundamental][KeyName(ks) := st.fundamentalStddev];
    ThreeInserts(m, KeyName(kl), KeyName(kf), KeyName(ks), st.loudness, st.fundamental, st.fundamentalStddev);
    forall b | 0 <= b < |st.eqBands|
      ensures KeyName(AverageEq(i, b)) !in scalars
    {
      AbsentWhenInvalid(m, stats, AverageEq(i, b));
      KeyNameInjective(AverageEq(i, b), kl);
      KeyNameInjective(AverageEq(i, b), kf);
      KeyNameInjective(AverageEq(i, b), ks);
    }
    BandsInsertCount(scalars, i, st.eqBands, |st.eqBands|);
  }

  /** A key other than the band names of a section survives inserting its bands. */
  lemma SurvivesBands(scalars: map<string, real>, i: nat, bands: seq<real>, k: FeatureKey)
    requires i < SectionCount && SingleDigit(k) && !(k.AverageEq? && k.section == i)
    requires KeyName(k) in scalars
    ensures KeyName(k) in BandsInsert(scalars, i, bands, |bands|)
    ensures BandsInsert(scalars, i, bands, |bands|)[KeyName(k)] == scalars[KeyName(k)]
  {
    forall b | 0 <= b < |bands| ensures KeyName(k) != KeyName(AverageEq(i, b)) {
      KeyNameInjective(k, AverageEq(i, b));
    }
    BandsInsertKeeps(scalars, i, bands, |bands|, KeyName(k));
  }

  /** A feature of an earlier section keeps its entry and value. */
  lemma SectionInsertKeepsOld(m: map<string, real>, stats: seq<SectionStats>, st: SectionStats, k: FeatureKey)
    requires |stats| < SectionCount
    requires ValidKey(k, stats) && KeyName(k) in m
    ensures KeyName(k) in SectionInsert(m, |stats|, st)
    ensures SectionInsert(m, |stats|, st)[KeyName(k)] == m[KeyName(k)]
  {
    var i := |stats|;
    var kl, kf, ks := Loudness(i), Fundamental(i), FundamentalStddev(i);
    KeyNameInjective(k, kl);
    KeyNameInjective(k, kf);
    KeyNameInjective(k, ks);
    var scalars := m[KeyName(kl) := st.loudness][KeyName(kf) := st.fundamental][KeyName(ks) := st.fundamentalStddev];
    SurvivesBands(scalars, i, st.eqBands, k);
  }

  /** The three scalar features of the new section hold their values. */
  lemma SectionInsertScalars(m: map<string, real>, st: SectionStats, i: nat)
    requires i < SectionCount
    ensures KeyName(Loudness(i)) in SectionInsert(m, i, st)
    ensures SectionInsert(m, i, st)[KeyName(Loudness(i))] == st.loudness
    ensures KeyName(Fundamental(i)) in SectionInsert(m, i, st)
    ensures SectionInsert(m, i, st)[KeyName(Fundamental(i))] == st.fundamental
    ensures KeyName(FundamentalStddev(i)) in SectionInsert(m, i, st)
    ensures SectionInsert(m, i, st)[KeyName(FundamentalStddev(i))] == st.fundamentalStddev
  {
    var kl, kf, ks := Loudness(i), Fundamental(i), FundamentalStddev(i);
    KeyNameInjective(kl, kf);
    KeyNameInjective(kl, ks);
    KeyNameInjective(kf, ks);
    var scalars := m[KeyName(kl) := st.loudness][KeyName(kf) := st.fundamental][KeyName(ks) := st.fundamentalStddev];
    SurvivesBands(scalars, i, st.eqBands, kl);
    SurvivesBands(scalars, i, st.eqBands, kf);
    SurvivesBands(scalars, i, st.eqBands, ks);
  }

  /** Every feature of the extended statistics is present with its value. */
  lemma SectionInsertValues(m: map<string, real>, duration: real, stats: seq<SectionStats>, st: SectionStats, k: FeatureKey)
    requires |stats| < SectionCount
    requires ValidKey(k, stats + [st])
    requires ValidKey(k, stats) ==> KeyName(k) in m && m[KeyName(k)] == KeyValue(k, duration, stats)
    ensures KeyName(k) in SectionInsert(m, |stats|, st)
    ensures SectionInsert(m, |stats|, st)[KeyName(k)] == KeyValue(k, duration, stats + [st])
  {
    var i := |stats|;
    if k.Duration? || k.section < i {
      assert ValidKey(k, stats);
      SectionInsertKeepsOld(m, stats, st, k);
    } else if k.AverageEq? {
      var scalars := m[KeyName(Loudness(i)) := st.loudness][KeyName(Fundamental(i)) := st.fundamental]
                      [KeyName(FundamentalStddev(i)) := st.fundamentalStddev];
      BandsInsertValue(scalars, i, st.eqBands, |st.eqBands|, k.band);
    } else {
      SectionInsertScalars(m, st, i);
    }
  }

  /** Every key of the extended map names a feature of the extended statistics. */
  lemma SectionInsertNames(m: map<string, real>, stats: seq<SectionStats>, st: SectionStats, s: string)
    requires OnlyFeatures(m, stats) && |stats| < SectionCount
    requires s in SectionInsert(m, |stats|, st)
    ensures exists k :: ValidKey(k, stats + [st]) && KeyName(k) == s
  {
    var i := |stats|;
    var kl, kf, ks := Loudness(i), Fundamental(i), FundamentalStddev(i);
    var scalars := m[KeyName(kl) := st.loudness][KeyName(kf) := st.fundamental][KeyName(ks) := st.fundamentalStddev];
    BandsInsertOrigin(scalars, i, st.eqBands, |st.eqBands|, s);
    if s in m {
      var k :| ValidKey(k, stats) && KeyName(k) == s;
      assert ValidKey(k, stats + [st]);
    } else if s == KeyName(kl) {
      assert ValidKey(kl, stats + [st]);
    } else if s == KeyName(kf) {
      assert ValidKey(kf, stats + [st]);
    } else if s == KeyName(ks) {
      assert ValidKey(ks, stats + [st]);
    } else {
      var b :| 0 <= b < |st.eqBands| && s == KeyName(AverageEq(i, b));
      assert ValidKey(AverageEq(i, b), stats + [st]);
    }
  }

  /** Every feature of the first |stats| sections is in the map with its value. */
  lemma {:induction false} FeatureMapValues(duration: real, stats: seq<SectionStats>)
    requires |stats| <= SectionCount
    ensures HasFeatures(FeatureMap(duration, stats), duration, stats)
    decreases |stats|
  {
    if |stats| > 0 {
      var prefix, st := stats[..|stats| - 1], stats[|stats| - 1];
      assert prefix + [st] == stats;
      FeatureMapValues(duration, prefix);
      forall k | ValidKey(k, stats)
        ensures KeyName(k) in FeatureMap(duration, stats)
        ensures FeatureMap(duration, stats)[KeyName(k)] == KeyValue(k, duration, stats)
      {
        SectionInsertValues(FeatureMap(duration, prefix), duration, prefix, st, k);
      }
    }
  }

  /** Every key of the map names a feature of the first |stats| sections. */
  lemma {:induction false} FeatureMapNames(duration: real, stats: seq<SectionStats>)
    requires |stats| <= SectionCount
    ensures OnlyFeatures(FeatureMap(duration, stats), stats)
    decreases |stats|
  {
    if |stats| == 0 {
      assert ValidKey(Duration, stats);
    } else {
      var prefix, st := stats[..|stats| - 1], stats[|stats| - 1];
      assert prefix + [st] == stats;
      FeatureMapNames(duration, prefix);
      forall s | s in FeatureMap(duration, stats)
        ensures exists k :: ValidKey(k, stats) && KeyName(k) == s
      {
        SectionInsertNames(FeatureMap(duration, prefix), prefix, st, s);
      }
    }
  }

  /** The map has one entry for the duration and 3 + |bands| per section. */
  lemma {:induction false} FeatureMapCount(duration: real, stats: seq<SectionStats>)
    requires |stats| <= SectionCount
    ensures |FeatureMap(duration, stats)| == KeyCount(stats)
    decreases |stats|
  {
    if |stats| > 0 {
      var prefix, st := stats[..|stats| - 1], stats[|stats| - 1];
      FeatureMapCount(duration, prefix);
      FeatureMapNames(duration, prefix);
      SectionInsertCount(FeatureMap(duration, prefix), prefix, st);
    }
  }

  /**
   * For at most ten sections the map holds exactly one entry per feature,
   * with its value, and so KeyCount entries in all.
   */
  lemma FeatureMapContents(duration: real, stats: seq<SectionStats>)
    requires |stats| <= SectionCount
    ensures IsFeatureMap(FeatureMap(duration, stats), duration, stats)
    ensures |FeatureMap(duration, stats)| == KeyCount(stats)
  {
    FeatureMapValues(duration, stats);
    FeatureMapNames(duration, stats);
    FeatureMapCount(duration, stats);
  }

  /** Two maps that both hold exactly the features of an analysis are equal. */
  lemma FeatureMapUnique(m1: map<string, real>, m2: map<string, real>, duration: real, stats: seq<SectionStats>)
    requires IsFeatureMap(m1, duration, stats) && IsFeatureMap(m2, duration, stats)
    ensures m1 == m2
  {
    forall s | s in m1 ensures s in m2 && m1[s] == m2[s] {
      var k :| ValidKey(k, stats) && KeyName(k) == s;
    }
    forall s | s in m2 ensures s in m1 {
      var k :| ValidKey(k, stats) && KeyName(k) == s;
    }
    assert m1.Keys == m2.Keys;
  }

  // ---------------------------------------------------------------------------
  // Extraction
  // ---------------------------------------------------------------------------

  /** The reference map of an analysed file. */
  function FeatureMapOf(a: Analyzed): map<string, real> {
    FeatureMap(DurationOf(a.audio, a.rate), a.stats)
  }

  /** What features_for yields for a file: its reference map, or the error. */
  function Outcome(file: string, lib: Library): Result<map<string, real>> {
    match Analyze(file, lib)
    case Ok(a) => Ok(FeatureMapOf(a))
    case Err(e) => Err(e)
  }

  /**
   * The body of the section loop of features_for: insert the loudness, then
   * the pitch estimate and its spread, then the average of every band.
   */
  method InsertSection(features: map<string, real>, i: nat, section: seq<real>, rate: SampleRate, lib: Library)
    returns (r: Result<map<string, real>>)
    ensures r.Err? <==> SectionStatsOf(section, rate, lib).None?
    ensures r.Err? ==> r.error == AnalysisFailed
    ensures r.Ok? ==> r.value == SectionInsert(features, i, SectionStatsOf(section, rate, lib).value)
  {
    var m := features[KeyName(Loudness(i)) := lib.loudness(section)];
    var pitch := lib.pitch(section, rate);
    if pitch.None? {
      return Err(AnalysisFailed);
    }
    var (fundamental, spread) := pitch.value;
    m := m[KeyName(Fundamental(i)) := fundamental];
    m := m[KeyName(FundamentalStddev(i)) := spread];
    var bands := lib.eqBands(section);
    if bands.None? {
      return Err(AnalysisFailed);
    }
    ghost var scalars := m;
    for j := 0 to |bands.value|
      invariant m == BandsInsert(scalars, i, bands.value, j)
    {
      m := m[KeyName(AverageEq(i, j)) := bands.value[j]];
    }
    r := Ok(m);
  }

  lemma FeatureMapStep(duration: real, done: seq<SectionStats>, st: SectionStats)
    ensures FeatureMap(duration, done + [st]) == SectionInsert(FeatureMap(duration, done), |done|, st)
  {
    assert (done + [st])[..|done|] == done;
  }

  /** One section whose routines raise makes the whole analysis fail. */
  lemma SectionFails(audio: seq<real>, rate: SampleRate, lib: Library, i: nat)
    requires i < SectionCount
    requires SectionStatsOf(AudioUtils.SplitInto(audio, SectionCount).value[i], rate, lib).None?
    ensures AnalyzeSections(audio, rate, lib) == Err(AnalysisFailed)
  {
  }

  /** When every section yields statistics, the analysis lists them in order. */
  lemma SectionsSucceed(audio: seq<real>, rate: SampleRate, lib: Library, stats: seq<SectionStats>)
    requires |stats| == SectionCount
    requires forall t :: 0 <= t < SectionCount ==>
      SectionStatsOf(AudioUtils.SplitInto(audio, SectionCount).value[t], rate, lib) == Some(stats[t])
    ensures AnalyzeSections(audio, rate, lib) == Ok(stats)
  {
    var sections := AudioUtils.SplitInto(audio, SectionCount).value;
    var listed := seq(SectionCount, i requires 0 <= i < SectionCount => SectionStatsOf(sections[i], rate, lib).value);
    assert listed == stats;
  }

  /**
   * The map features_for builds from a trimmed signal: the duration, then the
   * section loop. A routine that raises in any section aborts it.
   */
  method SectionFeatures(audio: seq<real>, rate: SampleRate, lib: Library) returns (r: Result<map<string, real>>)
    ensures r.Ok? <==> AnalyzeSections(audio, rate, lib).Ok?
    ensures r.Err? ==> r.error == AnalysisFailed
    ensures r.Ok? ==> r.value == FeatureMap(DurationOf(audio, rate), AnalyzeSections(audio, rate, lib).value)
  {
    var features := map[KeyName(Duration) := DurationOf(audio, rate)];
    var sections := AudioUtils.SplitInto(audio, SectionCount).value;
    ghost var done: seq<SectionStats> := [];
    for i := 0 to SectionCount
      invariant |done| == i
      invariant forall t :: 0 <= t < i ==> SectionStatsOf(sections[t], rate, lib) == Some(done[t])
      invariant features == FeatureMap(DurationOf(audio, rate), done)
    {
      var inserted := InsertSection(features, i, sections[i], rate, lib);
      if inserted.Err? {
        SectionFails(audio, rate, lib, i);
        return Err(AnalysisFailed);
      }
      ghost var st := SectionStatsOf(sections[i], rate, lib).value;
      FeatureMapStep(DurationOf(audio, rate), done, st);
      done := done + [st];
      features := inserted.value;
    }
    SectionsSucceed(audio, rate, lib, done);
    r := Ok(features);
  }

  /** features_for: load, normalise and trim the file, then build its map. */
  method FeaturesFor(file: string, lib: Library) returns (r: Result<map<string, real>>)
    ensures r == Outcome(file, lib)
  {
    var loaded := lib.load(file);
    if loaded.None? {
      return Err(DecodeFailed);
    }
    var trimmed := LoadAndTrim(loaded.value);
    if trimmed.Err? {
      return Err(trimmed.error);
    }
    r := SectionFeatures(trimmed.value.0, trimmed.value.1, lib);
  }

  /** The maps of the files that succeed, each under its path, later files last. */
  function ExtractAll(files: seq<string>, lib: Library): map<string, map<string, real>>
    decreases |files|
  {
    if |files| == 0 then map[]
    else
      var earlier := ExtractAll(files[..|files| - 1], lib);
      match Outcome(files[|files| - 1], lib)
      case Ok(m) => earlier[files[|files| - 1] := m]
      case Err(_) => earlier
  }

  /** A path is kept exactly when its extraction succeeds, with the map it yields. */
  lemma {:induction false} ExtractAllContents(files: seq<string>, lib: Library, f: string)
    ensures f in ExtractAll(files, lib) <==> f in files && Outcome(f, lib).Ok?
    ensures f in ExtractAll(files, lib) ==> Outcome(f, lib) == Ok(ExtractAll(files, lib)[f])
    decreases |files|
  {
    if |files| > 0 {
      var prefix := files[..|files| - 1];
      ExtractAllContents(prefix, lib, f);
      assert files == prefix + [files[|files| - 1]];
    }
  }

  /**
   * extract_features: the map of every file whose extraction succeeds, keyed
   * by its path; files that fail are skipped.
   */
  method ExtractFeatures(files: seq<string>, lib: Library) returns (features: map<string, map<string, real>>)
    ensures features == ExtractAll(files, lib)
  {
    features := map[];
    for n := 0 to |files|
      invariant features == ExtractAll(files[..n], lib)
    {
      var r := FeaturesFor(files[n], lib);
      if r.Ok? {
        features := features[files[n] := r.value];
      }
      assert files[..n + 1][..n] == files[..n];
    }
    assert files[..|files|] == files;
  }
}
