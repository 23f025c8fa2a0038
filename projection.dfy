/** The forward projection: starting from the processed table of a dataset,
    predict the next Close from the features of the last row, label it one
    period after the last date, append a copy of the last row carrying the
    prediction as its Close, and repeat. The fitted model and the calendar
    offset are parameters. */
module Projection {
  import opened Common
  import opened Datasets
  import opened Frames

  datatype Prediction = Prediction(date: int, close: real)

  datatype ProjectionError =
    | KeyError(column: string)   // the table has no Close column
    | IndexError                 // the table has no row

  datatype Outcome =
    | InvalidDataset             // unknown name: a message and no result
    | Raised(error: ProjectionError)
    | Projected(preds: seq<Prediction>)

  function Last<T>(xs: seq<T>): T
    requires |xs| > 0
  {
    xs[|xs| - 1]
  }

  /** A copy of a row with its Close value replaced; every other value is
      kept. */
  function WithClose(row: seq<real>, ci: nat, v: real): (r: seq<real>)
    requires ci < |row|
    ensures |r| == |row| && r[ci] == v && Without(r, ci) == Without(row, ci)
  {
    assert row[ci := v][..ci] == row[..ci];
    assert row[ci := v][ci + 1..] == row[ci + 1..];
    row[ci := v]
  }

  /** Two rows that agree outside Close agree after Close is replaced. */
  lemma WithCloseFeatures(a: seq<real>, b: seq<real>, ci: nat, v: real)
    requires ci < |a| == |b| && Without(a, ci) == Without(b, ci)
    ensures WithClose(a, ci, v) == WithClose(b, ci, v)
  {
    WithoutElements(a, ci);
    WithoutElements(b, ci);
    forall k | 0 <= k < |a| && k != ci
      ensures a[k] == b[k]
    {
      if k < ci {
        assert a[k] == Without(a, ci)[k];
      } else {
        assert a[k] == Without(a, ci)[k - 1] && b[k] == Without(b, ci)[k - 1];
      }
    }
  }

  /** `d` advanced by `k` periods. */
  function Advanced(advance: int -> int, d: int, k: nat): int
  {
    if k == 0 then d else advance(Advanced(advance, d, k - 1))
  }

  /** The offset moves every date strictly forward. */
  ghost predicate Forward(advance: int -> int)
  {
    forall d :: d < advance(d)
  }

  predicate StrictlyIncreasing(ds: seq<int>)
  {
    forall i, j :: 0 <= i < j < |ds| ==> ds[i] < ds[j]
  }

  /** Advancing a forward offset `k` periods moves a date past it. */
  lemma {:induction false} AdvancedForward(advance: int -> int, d: int, k: nat)
    requires Forward(advance)
    ensures k > 0 ==> d < Advanced(advance, d, k)
    ensures Advanced(advance, d, k) < Advanced(advance, d, k + 1)
  {
    if k > 0 {
      AdvancedForward(advance, d, k - 1);
    }
  }

  /** The monthly projection starts inside the last monthly bar's bin: the
      pipeline labels months by their start and the projector advances to the
      month end. On a calendar where the month end of a month start lies in
      that month and after it, the first projected date from a monthly label
      `d` is a new date, yet the pipeline's monthly rule puts it in bin `d`. */
  lemma MonthlyFirstProjection(bucketOf: string -> (int -> int), offsetOf: string -> (int -> int), d: int)
    requires var monthStart, monthEnd := bucketOf(FreqMap["monthly"]), offsetOf(OffsetMap["monthly"]);
             forall x :: monthStart(x) == x ==> monthStart(monthEnd(x)) == x && x < monthEnd(x)
    requires bucketOf(FreqMap["monthly"])(d) == d
    ensures var first := Advanced(offsetOf(OffsetMap["monthly"]), d, 1);
            first != d && bucketOf(FreqMap["monthly"])(first) == d
  {
    assert Advanced(offsetOf(OffsetMap["monthly"]), d, 1) == offsetOf(OffsetMap["monthly"])(d);
  }

  /** The working copy `temp_df`: a table grown in place. */
  class Table {
    var columns: seq<string>
    var dates: seq<int>
    var rows: seq<seq<real>>

    /** One date per row and one value per column in every row. */
    predicate Valid()
      reads this
    {
      |dates| == |rows| && forall i :: 0 <= i < |rows| ==> |rows[i]| == |columns|
    }

    /** `df.copy()`. */
    constructor Copy(f: Frame)
      requires Frames.Valid(f)
      ensures Valid()
      ensures columns == f.columns && dates == f.dates && rows == f.rows
    {
      columns, dates, rows := f.columns, f.dates, f.rows;
    }

    /** `loc[d] = row`: overwrite every row labelled `d`, or append `row`
        under `d` when no row is. */
    method SetRow(d: int, row: seq<real>)
      requires Valid() && |row| == |columns|
      modifies this
      ensures Valid() && columns == old(columns)
      ensures d in old(dates) ==>
                dates == old(dates) && |rows| == |old(rows)| &&
                forall i :: 0 <= i < |rows| ==> rows[i] == if dates[i] == d then row else old(rows)[i]
      ensures d !in old(dates) ==> dates == old(dates) + [d] && rows == old(rows) + [row]
      ensures |rows| > 0 && (Last(rows) == row || (|old(rows)| > 0 && Last(rows) == Last(old(rows))))
    {
      if d in dates {
        var ds, rs := dates, rows;
        rows := seq(|rs|, i requires 0 <= i < |rs| => if ds[i] == d then row else rs[i]);
      } else {
        dates := dates + [d];
        rows := rows + [row];
      }
    }
  }

  /** After `|preds|` steps from a table with dates `dates0` and rows `rows0`,
      the table is the original one followed by one row per prediction: the
      last input row with its Close replaced by the prediction, labelled
      `advance` applied once more than the row before it. */
  ghost predicate Grown(dates: seq<int>, rows: seq<seq<real>>, preds: seq<Prediction>,
                        dates0: seq<int>, rows0: seq<seq<real>>, advance: int -> int, ci: nat)
  {
    var n := |rows0|;
    n > 0 && |dates0| == n && ci < |rows0[n - 1]| &&
    |rows| == |dates| == n + |preds| &&
    dates[..n] == dates0 && rows[..n] == rows0 &&
    StrictlyIncreasing(dates) && dates[|dates| - 1] == Advanced(advance, dates0[n - 1], |preds|) &&
    forall j :: 0 <= j < |preds| ==>
      preds[j].date == Advanced(advance, dates0[n - 1], j + 1) == dates[n + j] &&
      rows[n + j] == WithClose(rows0[n - 1], ci, preds[j].close)
  }

  /** One forward step appends a fresh date and keeps the table grown. */
  lemma GrownStep(dates: seq<int>, rows: seq<seq<real>>, preds: seq<Prediction>,
                  dates0: seq<int>, rows0: seq<seq<real>>, advance: int -> int, ci: nat, p: real)
    requires Forward(advance) && Grown(dates, rows, preds, dates0, rows0, advance, ci)
    requires |rows[|rows| - 1]| == |rows0[|rows0| - 1]|
    requires Without(rows[|rows| - 1], ci) == Without(rows0[|rows0| - 1], ci)
    ensures var next := advance(dates[|dates| - 1]);
            next !in dates &&
            Grown(dates + [next], rows + [WithClose(rows[|rows| - 1], ci, p)], preds + [Prediction(next, p)],
                  dates0, rows0, advance, ci)
  {
    var n, k := |rows0|, |preds|;
    var next := advance(dates[|dates| - 1]);
    AdvancedForward(advance, dates0[n - 1], k);
    assert next == Advanced(advance, dates0[n - 1], k + 1);
    WithCloseFeatures(rows[|rows| - 1], rows0[n - 1], ci, p);
    var dates', rows', preds' := dates + [next], rows + [WithClose(rows[|rows| - 1], ci, p)], preds + [Prediction(next, p)];
    assert dates'[..n] == dates[..n];
    assert rows'[..n] == rows[..n];
    forall j | 0 <= j < k + 1
      ensures preds'[j].date == Advanced(advance, dates0[n - 1], j + 1) == dates'[n + j] &&
              rows'[n + j] == WithClose(rows0[n - 1], ci, preds'[j].close)
    {
      if j < k {
        assert preds'[j] == preds[j] && dates'[n + j] == dates[n + j] && rows'[n + j] == rows[n + j];
      }
    }
  }

  /** The dates of a grown table's predictions strictly increase. */
  lemma GrownDates(dates: seq<int>, rows: seq<seq<real>>, preds: seq<Prediction>,
                   dates0: seq<int>, rows0: seq<seq<real>>, advance: int -> int, ci: nat)
    requires Grown(dates, rows, preds, dates0, rows0, advance, ci)
    ensures StrictlyIncreasing(Dates(preds))
  {
    var n := |rows0|;
    forall i, j | 0 <= i < j < |preds|
      ensures preds[i].date < preds[j].date
    {
      assert preds[i].date == dates[n + i] && preds[j].date == dates[n + j];
    }
  }

  /** The step loop on the working copy. Whatever the dates, every
      prediction is made from the features of the last input row, because the
      appended rows copy them. When the dates strictly increase and the
      offset moves forward, each step appends one row, one period after the
      previous one, and leaves the earlier rows alone. */
  method Project(t: Table, steps: nat, ci: nat, predict: seq<real> -> real, advance: int -> int)
    returns (preds: seq<Prediction>)
    requires t.Valid() && |t.rows| > 0 && ci < |t.columns|
    modifies t
    ensures t.Valid() && t.columns == old(t.columns)
    ensures |preds| == steps
    ensures steps >= 1 ==> |old(t.dates)| > 0 && preds[0].date == advance(Last(old(t.dates)))
    ensures forall j :: 0 <= j < steps ==> preds[j].close == predict(Without(Last(old(t.rows)), ci))
    ensures |t.rows| > 0 && Without(Last(t.rows), ci) == Without(Last(old(t.rows)), ci)
    ensures StrictlyIncreasing(old(t.dates)) && Forward(advance) ==>
              Grown(t.dates, t.rows, preds, old(t.dates), old(t.rows), advance, ci)
  {
    ghost var dates0, rows0 := t.dates, t.rows;
    ghost var features0 := Without(Last(t.rows), ci);
    ghost var forward := StrictlyIncreasing(dates0) && Forward(advance);
    preds := [];
    var i := 0;
    assert t.dates[..|dates0|] == dates0 && t.rows[..|rows0|] == rows0;
    while i < steps
      invariant 0 <= i <= steps
      invariant t.Valid() && t.columns == old(t.columns) && |t.rows| > 0
      invariant |preds| == i
      invariant i == 0 ==> t.dates == dates0
      invariant i >= 1 ==> |dates0| > 0 && preds[0].date == advance(Last(dates0))
      invariant forall j :: 0 <= j < i ==> preds[j].close == predict(features0)
      invariant Without(Last(t.rows), ci) == features0
      invariant forward ==> Grown(t.dates, t.rows, preds, dates0, rows0, advance, ci)
    {
      var last := Last(t.rows);
      var p := predict(Without(last, ci));
      var next := advance(Last(t.dates));
      var newRow := WithClose(last, ci, p);
      if forward {
        GrownStep(t.dates, t.rows, preds, dates0, rows0, advance, ci, p);
      }
      ghost var oldDates, oldRows := t.dates, t.rows;
      t.SetRow(next, newRow);
      if forward {
        assert t.dates == oldDates + [next] && t.rows == oldRows + [newRow];
      }
      preds := preds + [Prediction(next, p)];
      i := i + 1;
    }
  }

  /** `predict_future`: validate the dataset, load its processed table, copy
      it and run the step loop on the copy. `load` reads a processed file,
      `predict` is the fitted model and `offsetOf` turns a pandas offset into
      its date advance. */
  method PredictFuture(dataset: string, steps: int, load: string -> Frame,
                       predict: seq<real> -> real, offsetOf: string -> (int -> int))
    returns (r: Outcome)
    requires dataset in FileMap ==> Frames.Valid(load(FileMap[dataset]))
    ensures r == InvalidDataset <==> !IsChoice(dataset)
    ensures dataset in FileMap ==>
              var df := load(FileMap[dataset]);
              (r.Raised? <==> steps >= 1 && ("Close" !in df.columns || |df.rows| == 0)) &&
              (r.Raised? ==> r.error == if "Close" !in df.columns then KeyError("Close") else IndexError)
    ensures dataset in FileMap && r.Projected? ==>
              |r.preds| == (if steps < 0 then 0 else steps)
    ensures dataset in FileMap && r.Projected? && steps >= 1 ==>
              var df := load(FileMap[dataset]);
              |df.dates| > 0 && r.preds[0].date == offsetOf(OffsetMap[dataset])(Last(df.dates))
    ensures dataset in FileMap && r.Projected? && steps >= 1 ==>
              var df, advance := load(FileMap[dataset]), offsetOf(OffsetMap[dataset]);
              var ci := IndexOf(df.columns, "Close");
              ci.Some? && |df.rows| > 0 &&
              (forall j :: 0 <= j < |r.preds| ==> r.preds[j].close == predict(Without(Last(df.rows), ci.value))) &&
              (StrictlyIncreasing(df.dates) && Forward(advance) ==>
                 StrictlyIncreasing(Dates(r.preds)) &&
                 forall j :: 0 <= j < |r.preds| ==> r.preds[j].date == Advanced(advance, Last(df.dates), j + 1))
  {
    ChoicesAgree(dataset);
    if dataset !in FileMap {
      return InvalidDataset;
    }
    var df := load(FileMap[dataset]);
    if steps < 1 {
      return Projected([]);
    }
    var ci := IndexOf(df.columns, "Close");
    if ci.None? {
      return Raised(KeyError("Close"));
    }
    if |df.rows| == 0 {
      return Raised(IndexError);
    }
    var temp := new Table.Copy(df);
    var preds := Project(temp, steps, ci.value, predict, offsetOf(OffsetMap[dataset]));
    r := Projected(preds);
  }

  /** The dates of a projection. */
  function Dates(preds: seq<Prediction>): (ds: seq<int>)
    ensures |ds| == |preds|
  {
    seq(|preds|, j requires 0 <= j < |preds| => preds[j].date)
  }
}
