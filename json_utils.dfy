// Flattening the extracted features into the arrays a classifier takes: one
// row of clamped feature values per sample, the index of its class (the name
// of the folder that holds it), and the sorted feature and class names.
// Reading the JSON document is left out; the model receives the decoded
// object as a sequence of (path, features) pairs in iteration order.
module JsonUtils {
  import opened Results
  import opened Text

  /** The path separator (POSIX os.sep). */
  const Separator: char := '/'

  /** Values beyond this magnitude are replaced by it. */
  const Limit: real := 1000000.0

  type Entry = (string, map<string, real>)

  datatype Dataset = Dataset(
    features: seq<seq<real>>,
    classes: seq<nat>,
    sampleNames: seq<string>,
    featureNames: seq<string>,
    classNames: seq<string>)

  // ---------------------------------------------------------------------------
  // Paths
  // ---------------------------------------------------------------------------

  /** path.split(os.sep) has a second-to-last element. */
  predicate HasParent(path: string) {
    |Split(path, Separator)| >= 2
  }

  /** path.split(os.sep)[-2]: the folder that holds the sample. */
  function Parent(path: string): (c: string)
    requires HasParent(path)
    ensures Separator !in c
  {
    var parts := Split(path, Separator);
    parts[|parts| - 2]
  }

  /** path.split(os.sep)[-1]: the file name of the sample. */
  function Basename(path: string): (b: string)
    ensures Separator !in b
  {
    var parts := Split(path, Separator);
    parts[|parts| - 1]
  }

  /** A path assembled from a folder path, a class folder and a file name splits back into them. */
  lemma PathParts(folders: seq<string>, cls: string, name: string)
    requires forall i :: 0 <= i < |folders| ==> Separator !in folders[i]
    requires Separator !in cls && Separator !in name
    ensures HasParent(Join(folders + [cls, name], Separator))
    ensures Parent(Join(folders + [cls, name], Separator)) == cls
    ensures Basename(Join(folders + [cls, name], Separator)) == name
  {
    var parts := folders + [cls, name];
    assert forall i :: 0 <= i < |parts| ==> Separator !in parts[i];
    SplitJoin(parts, Separator);
    var s := Join(parts, Separator);
    assert Split(s, Separator) == parts;
    assert parts[|parts| - 2] == cls && parts[|parts| - 1] == name;
  }

  // ---------------------------------------------------------------------------
  // Clamping
  // ---------------------------------------------------------------------------

  /** The two comparisons of the feature loop: cap at Limit, then floor at -Limit. */
  function Clamp(v: real): (c: real)
    ensures -Limit <= c <= Limit
  {
    var capped := if v > Limit then Limit else v;
    if capped < -Limit then -Limit else capped
  }

  lemma ClampKeepsInRange(v: real)
    requires -Limit <= v <= Limit
    ensures Clamp(v) == v
  {
  }

  lemma ClampIdempotent(v: real)
    ensures Clamp(Clamp(v)) == Clamp(v)
  {
    ClampKeepsInRange(Clamp(v));
  }

  /** Out-of-range values go to the nearer bound. */
  lemma ClampOutOfRange(v: real)
    ensures v > Limit ==> Clamp(v) == Limit
    ensures v < -Limit ==> Clamp(v) == -Limit
  {
  }

  lemma ClampMonotone(u: real, v: real)
    requires u <= v
    ensures Clamp(u) <= Clamp(v)
  {
  }

  // ---------------------------------------------------------------------------
  // Class indices
  // ---------------------------------------------------------------------------

  /** list.index: the first position of x. */
  function IndexOf(s: seq<string>, x: string): (i: nat)
    requires x in s
    ensures i < |s| && s[i] == x
    ensures forall j :: 0 <= j < i ==> s[j] != x
  {
    if s[0] == x then 0 else 1 + IndexOf(s[1..], x)
  }

  /** In a strictly sorted list a name occurs at one position only. */
  lemma SortedDistinct(s: seq<string>, i: nat, j: nat)
    requires StrictlySorted(s) && i < |s| && j < |s| && s[i] == s[j]
    ensures i == j
  {
    if i < j {
      LessIrreflexive(s[i]);
    } else if j < i {
      LessIrreflexive(s[j]);
    }
  }

  // ---------------------------------------------------------------------------
  // The flattened dataset
  // ---------------------------------------------------------------------------

  predicate AllHaveParent(data: seq<Entry>) {
    forall i :: 0 <= i < |data| ==> HasParent(data[i].0)
  }

  /** The set of class folders. */
  function ClassesOf(data: seq<Entry>): set<string>
    requires AllHaveParent(data)
  {
    set i | 0 <= i < |data| :: Parent(data[i].0)
  }

  /** Some entry lacks a feature of the first entry. */
  predicate MissesFeature(data: seq<Entry>) {
    |data| > 0 && exists i :: 0 <= i < |data| && !(data[0].1.Keys <= data[i].1.Keys)
  }

  /** A feature row: the clamped value of every listed feature, in order. */
  predicate IsRow(row: seq<real>, values: map<string, real>, names: seq<string>) {
    && |row| == |names|
    && forall j :: 0 <= j < |names| ==> names[j] in values && row[j] == Clamp(values[names[j]])
  }

  /** What read_data returns for a well-formed input. */
  ghost predicate Flattens(data: seq<Entry>, d: Dataset)
    requires AllHaveParent(data)
  {
    && |data| > 0
    && StrictlySorted(d.featureNames) && Elems(d.featureNames) == data[0].1.Keys
    && StrictlySorted(d.classNames) && Elems(d.classNames) == ClassesOf(data)
    && |d.features| == |data| && |d.classes| == |data| && |d.sampleNames| == |data|
    && (forall i :: 0 <= i < |data| ==> d.sampleNames[i] == Basename(data[i].0))
    && (forall i :: 0 <= i < |data| ==>
          d.classes[i] < |d.classNames| && d.classNames[d.classes[i]] == Parent(data[i].0))
    && (forall i :: 0 <= i < |data| ==> IsRow(d.features[i], data[i].1, d.featureNames))
  }

  /** The conditions fix the dataset: read_data has one answer per input. */
  lemma FlattensUnique(data: seq<Entry>, d1: Dataset, d2: Dataset)
    requires AllHaveParent(data)
    requires Flattens(data, d1) && Flattens(data, d2)
    ensures d1 == d2
  {
    SortedUnique(d1.featureNames, d2.featureNames);
    SortedUnique(d1.classNames, d2.classNames);
    forall i | 0 <= i < |data| ensures d1.classes[i] == d2.classes[i] {
      SortedDistinct(d1.classNames, d1.classes[i], d2.classes[i]);
    }
    forall i | 0 <= i < |data| ensures d1.features[i] == d2.features[i] {
    }
    assert d1.classes == d2.classes;
    assert d1.features == d2.features;
    assert d1.sampleNames == d2.sampleNames;
  }

  /** Every value of the dataset lies within [-Limit, Limit]. */
  lemma FlattenedValuesBounded(data: seq<Entry>, d: Dataset, i: nat, j: nat)
    requires AllHaveParent(data) && Flattens(data, d)
    requires i < |d.features| && j < |d.features[i]|
    ensures -Limit <= d.features[i][j] <= Limit
  {
  }

  /**
   * The first loop of read_data: the class folder of every path, or None when
   * a path has no folder (IndexError).
   */
  method CollectClasses(data: seq<Entry>) returns (r: Option<set<string>>)
    ensures r.None? <==> !AllHaveParent(data)
    ensures r.Some? ==> AllHaveParent(data) && r.value == ClassesOf(data)
  {
    var classSet: set<string> := {};
    for i := 0 to |data|
      invariant AllHaveParent(data[..i])
      invariant classSet == ClassesOf(data[..i])
    {
      var path := data[i].0;
      if !HasParent(path) {
        return None;
      }
      assert data[..i + 1] == data[..i] + [data[i]];
      classSet := classSet + {Parent(path)};
    }
    assert data[..|data|] == data;
    r := Some(classSet);
  }

  /**
   * The inner loop of read_data: the clamped value of every listed feature, or
   * None when one is missing (KeyError).
   */
  method FeatureRow(values: map<string, real>, names: seq<string>) returns (r: Option<seq<real>>)
    ensures r.None? <==> exists j :: 0 <= j < |names| && names[j] !in values
    ensures r.Some? ==> IsRow(r.value, values, names)
  {
    var row: seq<real> := [];
    for j := 0 to |names|
      invariant |row| == j
      invariant forall u :: 0 <= u < j ==> names[u] in values && row[u] == Clamp(values[names[u]])
    {
      var key := names[j];
      if key !in values {
        return None;
      }
      var value := values[key];
      if value > Limit {
        value := Limit;
      }
      if value < -Limit {
        value := -Limit;
      }
      row := row + [value];
    }
    r := Some(row);
  }

  /**
   * The second loop of read_data: per entry its file name, the index of its
   * class folder among the sorted names and its feature row, or None when an
   * entry misses one of the features (KeyError).
   */
  method FlattenEntries(data: seq<Entry>, featureNames: seq<string>, classNames: seq<string>)
    returns (r: Option<(seq<seq<real>>, seq<nat>, seq<string>)>)
    requires AllHaveParent(data) && Elems(classNames) == ClassesOf(data)
    ensures r.None? ==> exists i :: 0 <= i < |data| && exists j :: 0 <= j < |featureNames| && featureNames[j] !in data[i].1
    ensures r.Some? ==>
      var (features, classes, sampleNames) := r.value;
      && |sampleNames| == |data| && |classes| == |data| && |features| == |data|
      && (forall t :: 0 <= t < |data| ==> sampleNames[t] == Basename(data[t].0))
      && (forall t :: 0 <= t < |data| ==>
            classes[t] < |classNames| && classNames[classes[t]] == Parent(data[t].0))
      && (forall t :: 0 <= t < |data| ==> IsRow(features[t], data[t].1, featureNames))
  {
    var sampleNames: seq<string> := [];
    var classes: seq<nat> := [];
    var features: seq<seq<real>> := [];
    for i := 0 to |data|
      invariant |sampleNames| == i && |classes| == i && |features| == i
      invariant forall t :: 0 <= t < i ==> sampleNames[t] == Basename(data[t].0)
      invariant forall t :: 0 <= t < i ==>
        classes[t] < |classNames| && classNames[classes[t]] == Parent(data[t].0)
      invariant forall t :: 0 <= t < i ==> IsRow(features[t], data[t].1, featureNames)
    {
      var path := data[i].0;
      sampleNames := sampleNames + [Basename(path)];
      assert Parent(path) in Elems(classNames);
      classes := classes + [IndexOf(classNames, Parent(path))];
      var row := FeatureRow(data[i].1, featureNames);
      if row.None? {
        return None;
      }
      features := features + [row.value];
    }
    r := Some((features, classes, sampleNames));
  }

  /**
   * read_data after the input is decoded: the sorted feature names of the
   * first entry, the sorted class folders, and per entry its file name, its
   * class index and its clamped feature row. An empty input or a path with no
   * folder raises IndexError; an entry missing one of the features raises
   * KeyError.
   */
  method ReadData(data: seq<Entry>) returns (r: Result<Dataset>)
    ensures r.Err? <==> |data| == 0 || !AllHaveParent(data) || MissesFeature(data)
    ensures r.Err? ==> (r.error == IndexOutOfRange <==> |data| == 0 || !AllHaveParent(data))
    ensures r.Err? ==> r.error == IndexOutOfRange || r.error == MissingKey
    ensures r.Ok? ==> AllHaveParent(data) && Flattens(data, r.value)
  {
    if |data| == 0 {
      return Err(IndexOutOfRange);
    }
    var featureNames := SortedList(data[0].1.Keys);
    var classSet := CollectClasses(data);
    if classSet.None? {
      return Err(IndexOutOfRange);
    }
    var classNames := SortedList(classSet.value);
    var rows := FlattenEntries(data, featureNames, classNames);
    if rows.None? {
      var i :| 0 <= i < |data| && exists j :: 0 <= j < |featureNames| && featureNames[j] !in data[i].1;
      MissingFeatureFound(data, featureNames, i);
      return Err(MissingKey);
    }
    var (features, classes, sampleNames) := rows.value;
    AllKeysPresent(data, featureNames, features);
    r := Ok(Dataset(features, classes, sampleNames, featureNames, classNames));
  }

  /** A row that cannot be built shows an entry missing a feature of the first. */
  lemma MissingFeatureFound(data: seq<Entry>, names: seq<string>, i: nat)
    requires i < |data| && Elems(names) == data[0].1.Keys
    requires exists j :: 0 <= j < |names| && names[j] !in data[i].1
    ensures MissesFeature(data)
  {
    var j :| 0 <= j < |names| && names[j] !in data[i].1;
    assert names[j] in Elems(names);
  }

  /** When every row could be built, no entry misses a feature of the first. */
  lemma AllKeysPresent(data: seq<Entry>, names: seq<string>, rows: seq<seq<real>>)
    requires |data| > 0 && Elems(names) == data[0].1.Keys && |rows| == |data|
    requires forall t :: 0 <= t < |data| ==> IsRow(rows[t], data[t].1, names)
    ensures !MissesFeature(data)
  {
    forall i, k | 0 <= i < |data| && k in data[0].1.Keys
      ensures k in data[i].1
    {
      var u :| 0 <= u < |names| && names[u] == k;
      assert IsRow(rows[i], data[i].1, names);
    }
  }
}
