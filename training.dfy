/** The trainer's data preparation: the features are every column but Close,
    the target of a row is the Close of the row after it, and the samples are
    split in time order into a leading training part and a trailing test part
    of one fifth, rounded up. */
module Training {
  import opened Common
  import opened Datasets
  import opened Pipeline
  import opened Frames

  datatype LoadError =
    | KeyError(column: string)   // the frame has no Close column
    | SplitError(samples: nat)   // too few samples to leave one for training

  datatype Split = Split(xTrain: seq<seq<real>>, xTest: seq<seq<real>>, yTrain: seq<real>, yTest: seq<real>)

  /** Number of test samples for a test fraction of 0.2: the fewest samples
      that make up at least a fifth of `m`. */
  function TestSize(m: nat): (t: nat)
    ensures t <= m
    ensures m <= 5 * t < m + 5
  {
    (m + 4) / 5
  }

  /** Number of samples of an `n`-row table: the last row has no next Close. */
  function Samples(n: nat): nat
  {
    if n == 0 then 0 else n - 1
  }

  /** Drop Close for the features, shift Close up one row for the target,
      drop the last feature row, and split without shuffling. */
  function LoadData(df: Frame): (r: Result<Split, LoadError>)
    requires Valid(df)
    ensures r.Failure? <==> "Close" !in df.columns || |df.rows| <= 2
    ensures "Close" !in df.columns ==> r == Failure(KeyError("Close"))
    ensures r.Success? ==>
              var s, m := r.value, |df.rows| - 1;
              |s.xTrain| == |s.yTrain| == m - TestSize(m) >= 1 &&
              |s.xTest| == |s.yTest| == TestSize(m)
  {
    match IndexOf(df.columns, "Close")
    case None => Failure(KeyError("Close"))
    case Some(ci) =>
      var m := Samples(|df.rows|);
      var x := seq(m, i requires 0 <= i < m => Without(df.rows[i], ci));
      var y := seq(m, i requires 0 <= i < m => df.rows[i + 1][ci]);
      var t := TestSize(m);
      if m - t == 0 then Failure(SplitError(m))
      else Success(Split(x[..m - t], x[m - t..], y[..m - t], y[m - t..]))
  }

  /** The split keeps time order and loses nothing: training and test
      together are all samples, the features of sample `i` are row `i`
      without its Close, and its target is the Close of row `i + 1`. */
  lemma LoadDataAligned(df: Frame)
    requires Valid(df) && LoadData(df).Success?
    ensures var s, ci := LoadData(df).value, IndexOf(df.columns, "Close").value;
            |s.xTrain + s.xTest| == |s.yTrain + s.yTest| == |df.rows| - 1 &&
            forall i :: 0 <= i < |df.rows| - 1 ==>
              (s.xTrain + s.xTest)[i] == Without(df.rows[i], ci) &&
              (s.yTrain + s.yTest)[i] == df.rows[i + 1][ci]
  {
    var s, ci := LoadData(df).value, IndexOf(df.columns, "Close").value;
    var m := |df.rows| - 1;
    var x := seq(m, i requires 0 <= i < m => Without(df.rows[i], ci));
    var y := seq(m, i requires 0 <= i < m => df.rows[i + 1][ci]);
    var t := TestSize(m);
    assert Samples(|df.rows|) == m;
    assert s == Split(x[..m - t], x[m - t..], y[..m - t], y[m - t..]);
    assert x[..m - t] + x[m - t..] == x;
    assert y[..m - t] + y[m - t..] == y;
  }

  /** The training part is the leading samples and the test part the trailing
      ones, so every training sample precedes every test sample. */
  lemma SplitChronological(df: Frame)
    requires Valid(df) && LoadData(df).Success?
    ensures var s, ci := LoadData(df).value, IndexOf(df.columns, "Close").value;
            var k := |s.yTrain|;
            (forall i :: 0 <= i < k ==> s.yTrain[i] == df.rows[i + 1][ci]) &&
            (forall i :: 0 <= i < |s.yTest| ==> s.yTest[i] == df.rows[k + i + 1][ci])
  {
    LoadDataAligned(df);
    var s := LoadData(df).value;
    var k := |s.yTrain|;
    assert forall i :: 0 <= i < k ==> s.yTrain[i] == (s.yTrain + s.yTest)[i];
    assert forall i :: 0 <= i < |s.yTest| ==> s.yTest[i] == (s.yTrain + s.yTest)[k + i];
  }

  /** The feature columns are every column but Close, in their order. */
  lemma FeatureColumns(df: Frame)
    requires Valid(df) && "Close" in df.columns
    ensures var ci := IndexOf(df.columns, "Close").value;
            var names := Without(df.columns, ci);
            "Close" !in names &&
            (forall c :: c in names <==> c in df.columns && c != "Close") &&
            forall i :: 0 <= i < |df.rows| ==> |Without(df.rows[i], ci)| == |names|
  {
    DropColumnNames(df.columns, "Close");
  }

  /** On a frame whose fourth of 14 columns is Close, the targets are the
      following rows' fourth values and each feature vector has 13 values. */
  lemma FourthColumnTargets(f: Frame)
    requires Valid(f) && |f.columns| == 14 && IndexOf(f.columns, "Close") == Some(3)
    requires |f.rows| >= 3
    ensures var r := LoadData(f);
            r.Success? &&
            forall i :: 0 <= i < |f.rows| - 1 ==>
              (r.value.yTrain + r.value.yTest)[i] == f.rows[i + 1][3] &&
              |(r.value.xTrain + r.value.xTest)[i]| == 13
  {
    LoadDataAligned(f);
  }

  /** Trained on the pipeline's output, the targets are the Closes of the
      following bars and each feature vector holds the other 13 values. */
  lemma TrainOnProcessed(rows: seq<Row>)
    requires forall i :: 0 <= i < |rows| ==> Complete(rows[i])
    requires |rows| >= 3
    ensures var r := LoadData(ToFrame(rows));
            r.Success? &&
            forall i :: 0 <= i < |rows| - 1 ==>
              (r.value.yTrain + r.value.yTest)[i] == rows[i + 1].bar.close &&
              |(r.value.xTrain + r.value.xTest)[i]| == 13
  {
    ToFrameShape(rows);
    FourthColumnTargets(ToFrame(rows));
  }

  /** The trainer's entry: an unknown dataset name trains nothing; a known one
      loads the file with the name the pipeline saves under for it. `load`
      reads a processed file by name. */
  function TrainingData(choice: string, load: string -> Frame): (r: Option<Result<Split, LoadError>>)
    requires choice in FileMap ==> Valid(load(FileMap[choice]))
    ensures r.None? <==> !IsChoice(choice)
    ensures r.Some? ==> choice in FileMap && FileMap[choice] == OutputName(choice) &&
                        r.value == LoadData(load(FileMap[choice]))
  {
    ChoicesAgree(choice);
    if choice !in FileMap then None else Some(LoadData(load(FileMap[choice])))
  }
}
