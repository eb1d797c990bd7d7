# Machine learning for drummers — a verified model of the feature pipeline

The repository classifies drum samples in four steps:

1. Each audio file is cut into ten sections and turned into a flat map of named numeric features.
2. The maps of all files are collected under their paths.
3. The collection is flattened into the arrays a decision-tree classifier takes.
4. Three quarters of the samples train the tree and the rest test it.

A small web front end accepts uploads with an audio extension.

This project models the index arithmetic and the list, map and string handling around the signal processing. The signal processing itself comes from audio and machine-learning libraries; the model treats it as opaque functions passed in as parameters. Samples and feature values are exact `real`s.

| file | module | models |
|---|---|---|
| `results.dfy` | `Results` | `Option`, `Result` and the kinds of exception the code can raise |
| `text.dfy` | `Text` | the string built-ins the scripts use: `"%d"`, `str` ordering and `sorted()`, `str.split`, ASCII `str.lower`; `Join` is not called by the scripts and serves only as the inverse that pins down `Split` |
| `audio_utils.dfy` | `AudioUtils` | `normalized`; the threshold constants; `start_of`, `end_of` and `trim_data`; `split_into`; `loudness_at`; the window schedules of `loudness_vector` and `eq_vector` |
| `feature_extract.dfy` | `FeatureExtract` | `load_and_trim`, `features_for` and `extract_features` |
| `json_utils.dfy` | `JsonUtils` | `read_data` from the point where the JSON document is decoded |
| `web_app.dfy` | `WebApp` | `ALLOWED_EXTENSIONS` and `allowed_file` |
| `classifier.dfy` | `Classifier` | the train/test split of `train_and_evaluate_model` |

How the model represents the source:

- A library routine that can raise is a function returning `Option`:
  - the audio decoder (`Library.load`)
  - the pitch estimate
  - the EQ band averages
- The loudness of a section (root mean square) is a plain function parameter.
- Dictionaries are `map`s.
- The decoded JSON object is a sequence of `(path, features)` pairs in iteration order.
- Generators and `for` loops that fill a list or dict are `method`s with loops. Each is proved equal to a specification function, or characterised pointwise by its ensures. Properties of a specification function are lemmas about it.

`start_of` and `end_of` (audio_utils.py:89-90, 100-101) rescale a threshold that is not a whole number by 2^15, and keep a whole one as it is. The model follows that rule. As a consequence, the default threshold (about 11.95, already on the 16-bit scale) is rescaled again, to about 391706. So `trim_data` with its defaults never trims a normalised signal (`AudioUtils.TrimDefaultKeepsUnitSignal`, `FeatureExtract.LoadAndTrimKeepsWholeSignal`).

## Model

| member | source | states |
|---|---|---|
| Text.Dec | feature_extract.py:45 | `"%d" % n` is a non-empty digit string, one digit long exactly when n < 10 |
| Text.ParseDecRoundTrip | feature_extract.py:45 | reading back a formatted number gives the number |
| Text.DecInjective | feature_extract.py:45 | distinct numbers format differently |
| Text.Less | json_utils.py:15 | defines Python's `str` ordering: lexicographic by code point, a proper prefix sorting first; its laws are the four lemmas below |
| Text.LessIrreflexive | json_utils.py:15 | no string sorts before itself |
| Text.LessAsymmetric | json_utils.py:15 | str ordering is asymmetric |
| Text.LessTransitive | json_utils.py:15 | str ordering is transitive |
| Text.LessTotal | json_utils.py:15 | any two distinct strings are ordered one way or the other |
| Text.Insert | json_utils.py:21 | inserting into a strictly sorted list keeps it strictly sorted and adds exactly that element |
| Text.SortedUnique | json_utils.py:15 | a set of strings has exactly one strictly sorted listing |
| Text.SortedList | json_utils.py:21 | `sorted()` of a set: a strictly ascending list of exactly its elements |
| Text.Split | json_utils.py:20 | `str.split(sep)` yields at least one piece, and no piece contains the separator |
| Text.JoinSplit | json_utils.py:20 | joining the pieces of a split with the separator gives back the string |
| Text.SplitJoin | json_utils.py:20 | splitting a join of separator-free pieces gives back the pieces |
| Text.Lower | web_app.py:15 | defines `str.lower` character by character, mapping each ASCII capital to its small letter and keeping every other character; its laws are LowerIdempotent, LowerAfterLast and DotSurvivesLower |
| AudioUtils.Peak | audio_utils.py:84 | `amax(abs(data))` bounds every magnitude and is attained by some sample |
| AudioUtils.Normalized | audio_utils.py:82-84 | an empty buffer raises; otherwise the length is kept and sample i becomes data[i] / peak |
| AudioUtils.PeakIs | audio_utils.py:84 | a magnitude that is attained and bounds all others is the peak |
| AudioUtils.NormalizedPeak | audio_utils.py:82-84 | a normalised buffer with a non-zero sample has peak magnitude exactly 1, and every sample lies in [-1, 1] |
| AudioUtils.FullScaleValue | audio_utils.py:9 | 2^(bit_depth - 1) is 32768 |
| AudioUtils.EffectiveThreshold | audio_utils.py:89-90 | defines the threshold start_of and end_of compare with: a whole-number threshold as given, any other multiplied by 2^(bit_depth - 1); EffectiveThresholdRule states it |
| AudioUtils.EffectiveThresholdRule | audio_utils.py:89-90 | a whole-number threshold is kept; any other threshold is multiplied by 32768 |
| AudioUtils.DefaultThresholdRescaled | audio_utils.py:8-10 | the default threshold is not whole (its floor is 11), so it is rescaled to more than 391000 |
| AudioUtils.FirstLoud | audio_utils.py:91 | the first index whose magnitude exceeds the threshold, or the length: nothing before it is loud and it is loud |
| AudioUtils.FirstLoudIs | audio_utils.py:91 | any index with those properties is the first loud index |
| AudioUtils.ArgmaxLoud | audio_utils.py:91 | defines `argmax(abs(data) > threshold)`: the first loud index, or 0 when no sample is loud, as numpy returns for an all-False array |
| AudioUtils.Reversed | audio_utils.py:102-103 | defines `flipud`: element i of the result is element len - 1 - i of the input; LastLoudOf relates its argmax to the last loud sample |
| AudioUtils.StartOf | audio_utils.py:87-95 | empty data raises; otherwise max(0, argmax - samples_before), which is in range and at or before every loud sample, and is 0 only when the first loud sample is within the margin or there is none |
| AudioUtils.EndOf | audio_utils.py:98-108 | empty data raises; otherwise min(len, len - reversed argmax + samples_after), which lies in [1, len] and after every loud sample; below len it sits exactly samples_after past the last loud sample |
| AudioUtils.TrimBounds | audio_utils.py:111-120 | with non-negative margins 0 <= start < end <= len, every sample loud under the start threshold is at or after start, every sample loud under the end threshold is before end, and the first sample loud under the start threshold is kept |
| AudioUtils.FirstLoudBeforeEnd | audio_utils.py:98-108 | the first sample loud under the start threshold lies before end_of, whatever the end threshold |
| AudioUtils.TrimData | audio_utils.py:111-120 | empty data raises; otherwise exactly `data[start_of:end_of]` with margins of 1, where 0 <= start_of <= end_of <= len, a non-empty slice no longer than the input |
| AudioUtils.TrimKeepsLoud | audio_utils.py:111-120 | the trimmed signal is one contiguous slice `data[s:e]`; every sample loud under the start threshold is at or after s, and every sample loud under the end threshold is before e |
| AudioUtils.TrimDefaultKeepsUnitSignal | audio_utils.py:8-10 | with the default thresholds a signal within [-1, 1] comes back whole |
| AudioUtils.TrimmedStartIsZero | audio_utils.py:87-95 | start_of of a trimmed signal is 0 |
| AudioUtils.LastLoudOf | audio_utils.py:102-104 | the reversed argmax locates the last loud sample |
| AudioUtils.EndOfNearEnd | audio_utils.py:105-108 | end_of with margin 1 is the length when the last loud sample is among the last two or there is none |
| AudioUtils.TrimmedLastLoud | audio_utils.py:111-120 | the last loud sample is kept, one or two places before the end of the slice |
| AudioUtils.SliceEndWithLoud | audio_utils.py:98-108 | end_of of a slice that keeps the last loud sample near its end is the slice length |
| AudioUtils.SliceEndQuiet | audio_utils.py:98-108 | end_of of any slice of a signal with no loud sample is the slice length |
| AudioUtils.TrimmedEndIsLength | audio_utils.py:98-108 | end_of of a trimmed signal is its length |
| AudioUtils.TrimOrdered | audio_utils.py:117-118 | start_of lies before end_of with margins of 1 |
| AudioUtils.TrimIdempotent | audio_utils.py:111-120 | trimming a trimmed signal with the same thresholds changes nothing |
| AudioUtils.SectionStartClosedForm | audio_utils.py:18-20 | part i of a balanced split starts at i * (n / k) + min(i, n % k) |
| AudioUtils.SectionStartBounded | audio_utils.py:18-20 | every part boundary lies within the input, and the last one is its length |
| AudioUtils.AllSectionBounds | audio_utils.py:18-20 | all k + 1 boundaries lie within the input |
| AudioUtils.SplitInto | audio_utils.py:18-20 | zero or fewer sections raise; otherwise exactly num parts, the first len % num of them one longer than len / num and the rest len / num long |
| AudioUtils.SplitPrefixCovers | audio_utils.py:18-20 | the first k parts joined are the prefix of the input up to boundary k |
| AudioUtils.SplitIntoCovers | audio_utils.py:18-20 | the parts joined in order are the input |
| AudioUtils.LoudnessWindow | audio_utils.py:60-65 | the window stays inside the data and always spans min(window_size, len) samples; it contains pos when pos is an index, starts window_size / 2 before pos when it fits, starts at 0 when pos is nearer the start than window_size / 2, and ends at len when the centred window would pass the end |
| AudioUtils.LoudnessAt | audio_utils.py:60-66 | the value is the loudness of min(window_size, len) consecutive samples; that run contains pos when pos is an index, starts window_size / 2 before pos when the whole window fits, is the first such run when pos is within window_size / 2 of the start, and the last one when the centred window would pass the end |
| AudioUtils.SliceRange | audio_utils.py:57 | Python's `[start:end]` selects a range within the sequence |
| AudioUtils.EqualWindows | audio_utils.py:52-57 | count windows, each within the sequence |
| AudioUtils.WindowSchedule | audio_utils.py:52-55 | a window count of zero raises ZeroDivisionError, a negative one yields nothing, a positive one yields the equal-window schedule |
| AudioUtils.WindowInBounds | audio_utils.py:75-78 | boundary arithmetic of the schedule: (i + 1) * (total / count) is i * (total / count) + total / count, and for i < count it is at most total |
| AudioUtils.RemainderUncovered | audio_utils.py:75-78 | every window ends at or before n * (len / n), so the last len % n items lie outside all windows |
| AudioUtils.CoveredBeforeRemainder | audio_utils.py:75-78 | when the clamp does not bite, every item before n * (len / n) lies in some window |
| AudioUtils.EqualWindowsUnclamped | audio_utils.py:75-78 | without a biting clamp, window i is [i * w, i * w + w) and consecutive windows abut |
| AudioUtils.EqualWindowsShortInput | audio_utils.py:75-78 | with fewer items than windows every window is empty |
| AudioUtils.LoudnessVector | audio_utils.py:74-79 | exactly n values, value i being the loudness of samples [i * w, (i + 1) * w) with w = len / n; n = 0 raises |
| AudioUtils.EqVectorAsWritten | audio_utils.py:50-57 | the window schedule with ends clamped by the spectrogram's row count, as written |
| AudioUtils.RowClampEmptiesWindows | audio_utils.py:55 | under the row clamp every window starting at or after the row count is empty |
| AudioUtils.RowClampExample | audio_utils.py:51-55 | with 3 rows, 100 frames and 10 windows, window 1 is empty instead of frames [10, 20) |
| AudioUtils.EqVector | audio_utils.py:50-57 | with ends clamped by the frame count, exactly n consecutive in-bounds windows [i * w, i * w + w) |
| FeatureExtract.LoadAndTrim | feature_extract.py:28-32 | an empty decoded signal raises; otherwise a non-empty trimmed signal no longer than the input, with the decoder's rate |
| FeatureExtract.LoadAndTrimKeepsWholeSignal | feature_extract.py:28-32 | with the default thresholds load_and_trim returns the whole normalised signal |
| FeatureExtract.DurationOf | feature_extract.py:39 | defines the `duration` feature as the number of samples divided by the sample rate |
| FeatureExtract.KeyName | feature_extract.py:39-57 | defines the feature names `duration`, `loudness_%d`, `fundamental_%d`, `fundamental_stddev_%d` and `average_eq_%d_%d`; ParseKeyName and KeyNameInjective state that they identify their features |
| FeatureExtract.ParseKeyName | feature_extract.py:39-57 | every feature name with a one-digit section reads back as its feature |
| FeatureExtract.KeyNameInjective | feature_extract.py:45-57 | distinct features with one-digit sections get distinct names |
| FeatureExtract.BandNamesDistinct | feature_extract.py:57 | the band names of one section are pairwise distinct |
| FeatureExtract.BandsInsert | feature_extract.py:56-57 | defines the band loop: the first j band averages stored in order under their names; the four BandsInsert lemmas below state its effect |
| FeatureExtract.BandsInsertCount | feature_extract.py:56-57 | inserting j fresh band names grows the map by j |
| FeatureExtract.BandsInsertValue | feature_extract.py:56-57 | every inserted band holds its average |
| FeatureExtract.BandsInsertOrigin | feature_extract.py:56-57 | after the band loop every key was there before or is a band name |
| FeatureExtract.BandsInsertKeeps | feature_extract.py:56-57 | the band loop leaves other keys and their values alone |
| FeatureExtract.AbsentWhenInvalid | feature_extract.py:42-57 | a feature of a section not yet visited is not in the map |
| FeatureExtract.SectionInsert | feature_extract.py:45-57 | defines one pass of the section loop: loudness, fundamental and spread stored, then the band loop; the SectionInsert lemmas below state its effect |
| FeatureExtract.SectionInsertCount | feature_extract.py:45-57 | one section adds exactly 3 + its band count keys |
| FeatureExtract.SurvivesBands | feature_extract.py:56-57 | keys other than the section's band names survive its band loop |
| FeatureExtract.SectionInsertKeepsOld | feature_extract.py:42-57 | features of earlier sections keep their values |
| FeatureExtract.SectionInsertScalars | feature_extract.py:45-53 | the loudness, fundamental and fundamental spread of the section are stored |
| FeatureExtract.SectionInsertValues | feature_extract.py:42-57 | after a section every feature so far is present with its value |
| FeatureExtract.SectionInsertNames | feature_extract.py:42-57 | after a section every key names a feature so far |
| FeatureExtract.FeatureMap | feature_extract.py:39-57 | defines the dict features_for builds: the duration, then the section passes in order; FeatureMapContents states its contents |
| FeatureExtract.FeatureMapValues | feature_extract.py:39-57 | the duration and every feature of every section are in the map with their values |
| FeatureExtract.FeatureMapNames | feature_extract.py:39-57 | every key of the map names a feature |
| FeatureExtract.FeatureMapCount | feature_extract.py:39-57 | the map has 1 + sum over sections of (3 + band count) keys |
| FeatureExtract.FeatureMapContents | feature_extract.py:39-57 | the map holds exactly the features, each with its value, KeyCount in all |
| FeatureExtract.FeatureMapUnique | feature_extract.py:39-57 | two maps holding exactly the features with their values are equal |
| FeatureExtract.AnalyzeSections | feature_extract.py:42-57 | a successful analysis has one statistics record per section, ten in all |
| FeatureExtract.Analyze | feature_extract.py:35-57 | a successful analysis of a file has ten section records |
| FeatureExtract.InsertSection | feature_extract.py:43-57 | one pass of the section loop fails exactly when the pitch or EQ routine raises, and otherwise adds the section's features |
| FeatureExtract.SectionFails | feature_extract.py:42-57 | one section whose routines raise makes the whole file fail |
| FeatureExtract.SectionsSucceed | feature_extract.py:42-57 | when every section succeeds, the statistics are listed in section order |
| FeatureExtract.SectionFeatures | feature_extract.py:39-59 | the section loop succeeds exactly when every section does, and then yields the feature map of the duration and the section statistics |
| FeatureExtract.Outcome | feature_extract.py:35-59 | defines the outcome of features_for on one file: the analysis error, or the feature map of the analysis; FeaturesFor is proved to return it |
| FeatureExtract.FeaturesFor | feature_extract.py:35-59 | features_for gives the decoding error, the empty-signal error or the analysis error, or else the feature map of the analysed file, whose contents FeatureMapContents states |
| FeatureExtract.ExtractAll | feature_extract.py:62-70 | defines the dict extract_features builds: each file in order, stored under its path when its outcome succeeds and skipped otherwise; ExtractAllContents states its contents and ExtractFeatures is proved equal to it |
| FeatureExtract.ExtractAllContents | feature_extract.py:62-70 | a path is in the result exactly when it is among the files and its extraction succeeds, and then with its feature map |
| FeatureExtract.ExtractFeatures | feature_extract.py:62-70 | extract_features skips failing files and keeps the map of every other file under its path |
| JsonUtils.Parent | json_utils.py:20 | the folder holding a sample is a path component without a separator |
| JsonUtils.Basename | json_utils.py:27 | the file name is a path component without a separator |
| JsonUtils.PathParts | json_utils.py:20-31 | a path assembled from folders, a class folder and a file name gives back that class folder and that file name |
| JsonUtils.Clamp | json_utils.py:37-40 | the value lies in [-1e6, 1e6] |
| JsonUtils.ClampKeepsInRange | json_utils.py:37-40 | values within [-1e6, 1e6] are unchanged |
| JsonUtils.ClampIdempotent | json_utils.py:37-40 | clamping twice equals clamping once |
| JsonUtils.ClampOutOfRange | json_utils.py:37-40 | values beyond a bound become that bound |
| JsonUtils.ClampMonotone | json_utils.py:37-40 | clamping preserves order |
| JsonUtils.IndexOf | json_utils.py:31 | `list.index`: the first position holding the element |
| JsonUtils.SortedDistinct | json_utils.py:21-31 | in a sorted, duplicate-free list each name has one position, so the class index is determined |
| JsonUtils.Flattens | json_utils.py:15-44 | defines what read_data returns: sorted, distinct feature names (those of the first entry) and class names (the parent folders), and per entry its file name, its folder's index among the class names and its clamped values in feature-name order; FlattensUnique shows it fixes the result |
| JsonUtils.FlattensUnique | json_utils.py:15-44 | the required properties determine read_data's result completely |
| JsonUtils.FlattenedValuesBounded | json_utils.py:33-41 | every value in the feature rows lies in [-1e6, 1e6] |
| JsonUtils.CollectClasses | json_utils.py:17-21 | the class loop fails exactly when some path has no folder, and otherwise collects exactly the parent folders |
| JsonUtils.FeatureRow | json_utils.py:33-41 | the row fails exactly when a listed feature is missing, and otherwise holds the clamped value of each listed feature, in order |
| JsonUtils.FlattenEntries | json_utils.py:23-43 | per entry in order: its file name, the index of its folder among the class names and its feature row; or the entry that misses a feature |
| JsonUtils.ReadData | json_utils.py:15-44 | an empty input or a path without a folder raises IndexError; an entry missing a feature of the first raises KeyError; otherwise the result is the dataset with sorted feature and class names, one aligned row, class index and name per entry |
| JsonUtils.MissingFeatureFound | json_utils.py:35 | a row that cannot be built shows an entry missing a feature of the first entry |
| JsonUtils.AllKeysPresent | json_utils.py:34-35 | when every row is built, every entry has every feature of the first |
| WebApp.AfterLast | web_app.py:15 | `rsplit('.', 1)[1]` is the separator-free suffix that follows the last separator |
| WebApp.AllowedFile | web_app.py:13-15 | defines allowed_file: the name contains '.' and the lower-cased text after its last '.' is an allowed extension; AllowedFileByExtension and the example lemmas state its decisions |
| WebApp.NoDotRejected | web_app.py:14 | a name without '.' is rejected |
| WebApp.AfterLastAppend | web_app.py:15 | the text after the last separator of p + sep + e is e, whatever p holds |
| WebApp.AllowedFileByExtension | web_app.py:7-15 | a name is accepted exactly when its last extension, lower-cased, is mp3, mp4, wav or aiff |
| WebApp.LowerAfterLast | web_app.py:15 | lower-casing commutes with taking the last extension |
| WebApp.LowerIdempotent | web_app.py:15 | lower-casing twice equals lower-casing once |
| WebApp.DotSurvivesLower | web_app.py:14-15 | a name contains '.' exactly when its lower-cased form does |
| WebApp.AllowedFileIgnoresCase | web_app.py:13-15 | names that differ only in letter case get the same decision |
| WebApp.AcceptsLastExtension | web_app.py:15 | "a.tar.wav" is accepted |
| WebApp.AcceptsEmptyStem | web_app.py:14-15 | ".wav" is accepted |
| WebApp.AcceptsUpperCase | web_app.py:15 | "X.WAV" is accepted |
| WebApp.AcceptsMixedCase | web_app.py:15 | "x.Mp3" is accepted |
| WebApp.RejectsInnerExtension | web_app.py:15 | "a.wav.txt" is rejected |
| WebApp.RejectsEmptyExtension | web_app.py:15 | "song." is rejected |
| Classifier.TrainCount | classifier.py:30-31 | `int(len * 0.75)` is a count no larger than the length |
| Classifier.TrainCountIsThreeQuarters | classifier.py:30-31 | the training count is floor(3 * len / 4) |
| Classifier.TestCount | classifier.py:63 | defines `len(features) - num_training_samples`; PortionPartitions and TestNonEmpty state its value |
| Classifier.Prefix | classifier.py:35-36 | `s[:k]` is the first min(k, len) elements |
| Classifier.NegativeSuffix | classifier.py:63-65 | `s[-k:]` is the last k elements for 0 < k <= len, and the whole list for k = 0 |
| Classifier.Portion | classifier.py:35-36 | defines the slices of one column: its prefix of TrainCount elements and its suffix `[-TestCount:]`; PortionPartitions states that they partition the column |
| Classifier.PortionPartitions | classifier.py:31-36 | the training part has floor(3L / 4) elements, the test part the other L - floor(3L / 4), and the two in order are the column |
| Classifier.SplitData | classifier.py:35-36 | defines the slices of features, classes and sample names, all with bounds from `len(features)`; SplitAligned and TestFollowsTraining state their properties |
| Classifier.TestNonEmpty | classifier.py:63 | with at least one sample there is at least one test sample |
| Classifier.ZeroTestOnlyWhenEmpty | classifier.py:63-65 | the test count is 0 only for an empty dataset, where `features[-0:]` is the empty list |
| Classifier.SplitAligned | classifier.py:35-36 | features, classes and sample names are cut at the same places, so each slice pair holds equally many entries and the parts rebuild each column |
| Classifier.TestFollowsTraining | classifier.py:63-65 | test position i holds sample TrainCount + i, so the parts do not overlap |

## Left out

- The library signal processing is not modelled: decoding, `piptrack`, `stft`, `magphase`, `amplitude_to_db`. Their results arrive as function parameters. This covers the pitch estimate (`poorly_estimate_fundamental`) and the band averages (`average_eq_bands`), including how many bands there are.
- `get_duration` is computed as the number of samples divided by the sample rate (`FeatureExtract.DurationOf`).
- `root_mean_square` is a function parameter. Exact reals have no square root, and its test is about float rounding.
- Samples are exact reals:
  - The float32 cast in `normalized` is not modelled.
  - An all-zero buffer gives `nan` in numpy. The model excludes it with the `Audible` subtype; `normalized` requires a non-zero sample or an empty buffer.
- `eq_vector` yields band means of frame windows. The model gives the window schedule only; the means are library numerics.
- AudioUtils.LoudnessVector, AudioUtils.EqVectorAsWritten, AudioUtils.EqVector: the generators' laziness is not modelled; all values are computed at once, so a division by zero raises at the call and not at the first `next()`.
- AudioUtils.StartOf: the location facts are stated only for a non-negative margin, the only kind the code passes; for a negative one only the returned value is stated.
- AudioUtils.EndOf: the same holds for its margin.
- Classifier.TrainCount: `int(len * 0.75)` is computed exactly. A 64-bit float product `len * 0.75` rounds to floor(3 * len / 4) for every length below 2^51. Beyond that, rounding can differ: for len = 2^52 + 1 the float result is one larger.
- The training of the decision tree is not modelled, nor `model_utils.py` (evaluation printing and tree rendering).
- I/O is not modelled:
  - `read_data`'s choice between a file and standard input, and JSON parsing. The decoded object is a sequence of `(path, features)` pairs.
  - `glob`, `tqdm`, the error messages on standard error and the JSON output of `feature_extract.py`. The file list is a parameter.
- Python 2 dictionary order is left out. The model uses the order of the given sequence.
- JSON values other than numbers are left out, as are NaN or infinite comparisons in the clamps.
- The path separator is fixed to '/', the POSIX `os.sep`.
- `extract_features` at feature_extract.py:69 refers to `sys`, which is imported only when the file runs as a script. When imported, a failing file raises `NameError` instead of being skipped. The model skips it, as the script does.
- `str.lower` is modelled on ASCII letters only.
- The Flask routes of `web_app.py` and the upload folder are not modelled.

## Findings

| source | as written | input that shows it | evidently intended | confidence | as-written member | corrected member |
|---|---|---|---|---|---|---|
| audio_utils.py:55 | window ends are clamped with `len()` of the spectrogram, which counts its rows (3 frequency bins for 3 bands), not its frames | 3 rows, 100 frames, 10 windows: window 0 is frames [0, 3) and window 1 is [10, 10), empty, instead of [10, 20) | clamp with the frame count, `shape[1]`, giving windows [i * w, (i + 1) * w) | not executed | AudioUtils.EqVectorAsWritten, AudioUtils.RowClampExample | AudioUtils.EqVector |
