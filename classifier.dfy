// The train/test split of the classifier script: the first three quarters of
// the samples (rounded down) train the model and the rest test it. The model
// itself, its training and its evaluation are library code and left out.
module Classifier {

  /** The share of the samples used for training. */
  const TrainingPercentage: real := 0.75

  /** int(length * 0.75): the product is non-negative, so truncation is the floor. */
  function TrainCount(length: nat): (n: nat)
    ensures n <= length
  {
    assert (length as real * TrainingPercentage).Floor >= 0 by {
      assert length as real * TrainingPercentage >= 0.0;
    }
    (length as real * TrainingPercentage).Floor
  }

  /** The training count is three quarters of the length, rounded down. */
  lemma TrainCountIsThreeQuarters(length: nat)
    ensures TrainCount(length) == (3 * length) / 4
  {
    var n := (3 * length) / 4;
    var x := length as real * TrainingPercentage;
    assert x == (3 * length) as real / 4.0;
    assert 4 * n <= 3 * length < 4 * n + 4;
    assert n as real <= x < n as real + 1.0;
  }

  /** len(features) - num_training_samples. */
  function TestCount(length: nat): nat {
    length - TrainCount(length)
  }

  /** s[:k] with Python's clamping of a too-large bound. */
  function Prefix<T>(s: seq<T>, k: nat): (p: seq<T>)
    ensures |p| == if k <= |s| then k else |s|
    ensures forall i :: 0 <= i < |p| ==> p[i] == s[i]
  {
    if k <= |s| then s[..k] else s
  }

  /** s[-k:]: the last k elements; -0 is 0, so s[-0:] is the whole of s. */
  function NegativeSuffix<T>(s: seq<T>, k: nat): (p: seq<T>)
    ensures k == 0 ==> p == s
    ensures 0 < k <= |s| ==> p == s[|s| - k..]
    ensures k > |s| ==> p == s
  {
    if k == 0 then s else if k <= |s| then s[|s| - k..] else s
  }

  /** The slices of one column of the dataset. */
  datatype Portions<T> = Portions(training: seq<T>, test: seq<T>)

  /** Both slices of a column, with the bounds computed from the number of feature rows. */
  function Portion<T>(column: seq<T>, rows: nat): Portions<T> {
    Portions(Prefix(column, TrainCount(rows)), NegativeSuffix(column, TestCount(rows)))
  }

  /** The three columns of the split, sliced with the same bounds. */
  datatype TrainTest = TrainTest(
    features: Portions<seq<real>>,
    classes: Portions<nat>,
    sampleNames: Portions<string>)

  /** The slices of train_and_evaluate_model (the bounds come from len(features)). */
  function SplitData(features: seq<seq<real>>, classes: seq<nat>, sampleNames: seq<string>): TrainTest {
    var rows := |features|;
    TrainTest(Portion(features, rows), Portion(classes, rows), Portion(sampleNames, rows))
  }

  /** A column as long as the feature list splits into a training prefix and test suffix that partition it. */
  lemma PortionPartitions<T>(column: seq<T>)
    ensures var p := Portion(column, |column|);
      && |p.training| == (3 * |column|) / 4
      && |p.test| == |column| - (3 * |column|) / 4
      && p.training + p.test == column
  {
    TrainCountIsThreeQuarters(|column|);
    var n := TrainCount(|column|);
    if n < |column| {
      assert column[..n] + column[n..] == column;
    } else {
      assert n == 0;
    }
  }

  /** With at least one sample there is at least one test sample. */
  lemma TestNonEmpty(length: nat)
    requires length >= 1
    ensures TestCount(length) >= 1
  {
    TrainCountIsThreeQuarters(length);
  }

  /** Only an empty dataset has a test count of zero; there s[-0:] is the empty list. */
  lemma ZeroTestOnlyWhenEmpty(features: seq<seq<real>>)
    requires TestCount(|features|) == 0
    ensures features == [] && NegativeSuffix(features, 0) == []
  {
    TrainCountIsThreeQuarters(|features|);
  }

  /**
   * When the columns are equally long, every training and test position holds
   * the features, class and name of the same sample, and the two parts
   * together give back each column.
   */
  lemma SplitAligned(features: seq<seq<real>>, classes: seq<nat>, sampleNames: seq<string>)
    requires |classes| == |features| && |sampleNames| == |features|
    ensures var t := SplitData(features, classes, sampleNames);
      && |t.features.training| == |t.classes.training| == |t.sampleNames.training| == (3 * |features|) / 4
      && |t.features.test| == |t.classes.test| == |t.sampleNames.test| == |features| - (3 * |features|) / 4
      && t.features.training + t.features.test == features
      && t.classes.training + t.classes.test == classes
      && t.sampleNames.training + t.sampleNames.test == sampleNames
  {
    PortionPartitions(features);
    PortionPartitions(classes);
    PortionPartitions(sampleNames);
  }

  /** Test position i holds sample TrainCount + i: the two parts do not overlap. */
  lemma TestFollowsTraining<T>(column: seq<T>, i: nat)
    requires i < |Portion(column, |column|).test|
    ensures TrainCount(|column|) + i < |column|
    ensures Portion(column, |column|).test[i] == column[TrainCount(|column|) + i]
  {
    PortionPartitions(column);
    TrainCountIsThreeQuarters(|column|);
  }
}
