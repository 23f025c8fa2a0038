/** A data frame as the trainer and the projector read it back from a processed
    CSV file: named columns, a Date index and one row of values per date. */
module Frames {
  import opened Common
  import opened Pipeline

  datatype Frame = Frame(columns: seq<string>, dates: seq<int>, rows: seq<seq<real>>)

  /** `name` labels at most one column (the CSV reader renames a repeated
      header). */
  predicate AtMostOnce(names: seq<string>, name: string)
  {
    forall i, j :: 0 <= i < j < |names| && names[i] == name ==> names[j] != name
  }

  /** One date per row, one value per column in every row, and at most one
      Close column. */
  predicate Valid(f: Frame)
  {
    |f.dates| == |f.rows| && AtMostOnce(f.columns, "Close") &&
    forall i :: 0 <= i < |f.rows| ==> |f.rows[i]| == |f.columns|
  }

  /** Position of a column, or None when the frame has no such column. */
  function IndexOf(names: seq<string>, name: string): (k: Option<nat>)
    ensures k.None? <==> name !in names
    ensures k.Some? ==> k.value < |names| && names[k.value] == name && name !in names[..k.value]
  {
    if |names| == 0 then None
    else if names[0] == name then Some(0)
    else
      var k := IndexOf(names[1..], name);
      assert names[1..] + [] == names[1..];
      if k.None? then None
      else
        assert names[..k.value + 1] == [names[0]] + names[1..][..k.value];
        Some(k.value + 1)
  }

  /** A sequence with its k-th element removed. */
  function Without<T>(xs: seq<T>, k: nat): (r: seq<T>)
    requires k < |xs|
    ensures |r| == |xs| - 1
  {
    xs[..k] + xs[k + 1..]
  }

  /** Removing position k keeps every other element, in order. */
  lemma WithoutElements<T>(xs: seq<T>, k: nat)
    requires k < |xs|
    ensures forall i :: 0 <= i < k ==> Without(xs, k)[i] == xs[i]
    ensures forall i :: k <= i < |xs| - 1 ==> Without(xs, k)[i] == xs[i + 1]
  {
  }

  /** Dropping a column whose name is not repeated leaves exactly the other
      names, in their order. */
  lemma DropColumnNames(names: seq<string>, name: string)
    requires AtMostOnce(names, name) && name in names
    ensures var rest := Without(names, IndexOf(names, name).value);
            name !in rest && |rest| == |names| - 1 &&
            forall c :: c in rest <==> c in names && c != name
  {
    var k := IndexOf(names, name).value;
    var rest := Without(names, k);
    WithoutElements(names, k);
    forall c | c in rest
      ensures c in names && c != name
    {
      var i :| 0 <= i < |rest| && rest[i] == c;
      if i < k { assert names[i] == c; } else { assert names[i + 1] == c; }
    }
    forall c | c in names && c != name
      ensures c in rest
    {
      var i :| 0 <= i < |names| && names[i] == c;
      if i < k { assert rest[i] == c; } else { assert rest[i - 1] == c; }
    }
  }

  // ---------------------------------------------------------------------
  // The processed table as a frame

  /** The columns the pipeline saves, after the Date index. */
  const ProcessedColumns: seq<string> :=
    ["Open", "High", "Low", "Close", "Volume", "SMA_10", "SMA_20", "EMA_10", "EMA_20",
     "RSI_14", "MACD", "MACD_Signal", "Bollinger_Upper", "Bollinger_Lower"]

  /** Close is the fourth saved column and no other. */
  lemma ProcessedColumnsShape()
    ensures |ProcessedColumns| == 14
    ensures AtMostOnce(ProcessedColumns, "Close")
    ensures IndexOf(ProcessedColumns, "Close") == Some(3)
  {
    var cs := ProcessedColumns;
    assert "Close" !in cs[4..];
    assert "Close" !in cs[..3];
    forall i | 0 <= i < |cs| && i != 3
      ensures cs[i] != "Close"
    {
      if i < 3 {
        assert cs[i] == cs[..3][i];
      } else {
        assert cs[i] == cs[4..][i - 4];
      }
    }
  }

  /** The values of a row without NaN, in column order. */
  function RowValues(r: Row): (v: seq<real>)
    requires Complete(r)
    ensures |v| == 14 && v[3] == r.bar.close
  {
    [r.bar.open, r.bar.high, r.bar.low, r.bar.close, r.bar.volume,
     r.sma10.value, r.sma20.value, r.ema10.value, r.ema20.value, r.rsi14.value,
     r.macd.value, r.macdSignal.value, r.bbUpper.value, r.bbLower.value]
  }

  /** The processed table as written to and read back from its CSV file: the
      saved columns, the bin labels as the Date index and each row's values.
      Its ensures only unfold the body for the verifier; what the frame
      promises is stated by `ToFrameShape`. */
  function ToFrame(rows: seq<Row>): (f: Frame)
    requires forall i :: 0 <= i < |rows| ==> Complete(rows[i])
    ensures f.columns == ProcessedColumns
    ensures |f.dates| == |f.rows| == |rows|
    ensures forall i :: 0 <= i < |rows| ==> f.dates[i] == rows[i].bar.bin && f.rows[i] == RowValues(rows[i])
  {
    Frame(ProcessedColumns,
          seq(|rows|, i requires 0 <= i < |rows| => rows[i].bar.bin),
          seq(|rows|, i requires 0 <= i < |rows| => RowValues(rows[i])))
  }

  /** The saved table reads back as a well-formed frame whose fourth of 14
      columns is Close, holding each bar's Close. */
  lemma ToFrameShape(rows: seq<Row>)
    requires forall i :: 0 <= i < |rows| ==> Complete(rows[i])
    ensures var f := ToFrame(rows);
            Valid(f) && |f.columns| == 14 && IndexOf(f.columns, "Close") == Some(3) &&
            forall i :: 0 <= i < |rows| ==> f.rows[i][3] == rows[i].bar.close
  {
    var f := ToFrame(rows);
    ProcessedColumnsShape();
    forall i | 0 <= i < |f.rows|
      ensures |f.rows[i]| == 14 && f.rows[i][3] == rows[i].bar.close
    {
      assert f.rows[i] == RowValues(rows[i]);
    }
  }
}
