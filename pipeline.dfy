/** The feature pipeline: resample the minute ticks with the rule of the chosen
    dataset, add the nine indicator columns to the bars, then drop every row
    that still holds a NaN. */
module Pipeline {
  import opened Common
  import opened Datasets
  import opened Resampling
  import opened Indicators

  /** One row of the processed table: the bar and its indicator cells, in the
      column order Open, High, Low, Close, Volume, SMA_10, SMA_20, EMA_10,
      EMA_20, RSI_14, MACD, MACD_Signal, Bollinger_Upper, Bollinger_Lower. */
  datatype Row = Row(bar: Bar,
                     sma10: Option<real>, sma20: Option<real>,
                     ema10: Option<real>, ema20: Option<real>,
                     rsi14: Option<real>,
                     macd: Option<real>, macdSignal: Option<real>,
                     bbUpper: Option<real>, bbLower: Option<real>)

  /** A row before the indicators are added: no indicator cell yet. */
  function Bare(b: Bar): Row
  {
    Row(b, None, None, None, None, None, None, None, None, None)
  }

  /** The Close column of the bars. */
  function Closes(bars: seq<Bar>): (c: seq<real>)
    ensures |c| == |bars|
  {
    seq(|bars|, i requires 0 <= i < |bars| => bars[i].close)
  }

  /** The bars underneath a table's rows. */
  function BarsOf(rows: seq<Row>): (bars: seq<Bar>)
    ensures |bars| == |rows|
  {
    seq(|rows|, i requires 0 <= i < |rows| => rows[i].bar)
  }

  /** The nine indicator columns, all computed from the Close column; `root` is
      the square root inside the rolling standard deviation. */
  function AddIndicators(bars: seq<Bar>, root: real -> real): (rows: seq<Row>)
    ensures |rows| == |bars|
    ensures forall i :: 0 <= i < |rows| ==> rows[i].bar == bars[i]
  {
    var c := Closes(bars);
    var sma10, sma20 := RollingMean(c, 10), RollingMean(c, 20);
    var ema10, ema20 := Ema(c, 10), Ema(c, 20);
    var rsi := Rsi(c);
    var macd, signal := Macd(c), MacdSignal(c);
    var upper, lower := BollingerUpper(c, root), BollingerLower(c, root);
    seq(|bars|, i requires 0 <= i < |bars| =>
      Row(bars[i], sma10[i], sma20[i], ema10[i], ema20[i], rsi[i], macd[i], signal[i], upper[i], lower[i]))
  }

  /** A row with no NaN cell. */
  predicate Complete(r: Row)
  {
    r.sma10.Some? && r.sma20.Some? && r.ema10.Some? && r.ema20.Some? && r.rsi14.Some? &&
    r.macd.Some? && r.macdSignal.Some? && r.bbUpper.Some? && r.bbLower.Some?
  }

  /** `dropna()`: keep the rows without NaN, in their order. */
  function DropNa(rows: seq<Row>): (kept: seq<Row>)
    ensures |kept| <= |rows|
    ensures forall i :: 0 <= i < |kept| ==> Complete(kept[i])
  {
    if |rows| == 0 then []
    else if Complete(rows[0]) then [rows[0]] + DropNa(rows[1..])
    else DropNa(rows[1..])
  }

  /** A row is kept exactly when it was in the table and has no NaN cell. */
  lemma {:induction false} DropNaMembers(rows: seq<Row>)
    ensures forall r :: r in DropNa(rows) <==> r in rows && Complete(r)
  {
    if |rows| > 0 {
      DropNaMembers(rows[1..]);
      assert rows == [rows[0]] + rows[1..];
    }
  }

  /** Dropping distributes over concatenation; with the one-row case this
      pins the kept rows down in their original order. */
  lemma {:induction false} DropNaAppend(a: seq<Row>, b: seq<Row>)
    ensures DropNa(a + b) == DropNa(a) + DropNa(b)
  {
    if |a| > 0 {
      assert (a + b)[1..] == a[1..] + b;
      DropNaAppend(a[1..], b);
    } else {
      assert a + b == b;
    }
  }

  lemma DropNaSingle(r: Row)
    ensures DropNa([r]) == if Complete(r) then [r] else []
  {
    assert [r][1..] == [];
  }

  /** A table without NaN is left as it is. */
  lemma {:induction false} DropNaKeepsComplete(rows: seq<Row>)
    requires forall i :: 0 <= i < |rows| ==> Complete(rows[i])
    ensures DropNa(rows) == rows
  {
    if |rows| > 0 {
      assert forall i :: 0 <= i < |rows| - 1 ==> rows[1..][i] == rows[i + 1];
      DropNaKeepsComplete(rows[1..]);
      assert [rows[0]] + rows[1..] == rows;
    }
  }

  /** A table with a NaN in every row empties. */
  lemma {:induction false} DropNaEmptiesIncomplete(rows: seq<Row>)
    requires forall i :: 0 <= i < |rows| ==> !Complete(rows[i])
    ensures DropNa(rows) == []
  {
    if |rows| > 0 {
      assert forall i :: 0 <= i < |rows| - 1 ==> rows[1..][i] == rows[i + 1];
      DropNaEmptiesIncomplete(rows[1..]);
    }
  }

  /** Labels in strictly ascending order. */
  predicate Ascending(rows: seq<Row>)
  {
    forall i, j :: 0 <= i < j < |rows| ==> rows[i].bar.bin < rows[j].bar.bin
  }

  /** Dropping rows keeps the remaining labels in ascending order. */
  lemma {:induction false} DropNaAscending(rows: seq<Row>)
    requires Ascending(rows)
    ensures Ascending(DropNa(rows))
  {
    if |rows| > 0 {
      var rest := DropNa(rows[1..]);
      DropNaAscending(rows[1..]);
      DropNaMembers(rows[1..]);
      if Complete(rows[0]) {
        var kept := [rows[0]] + rest;
        forall i, j | 0 <= i < j < |kept|
          ensures kept[i].bar.bin < kept[j].bar.bin
        {
          if i == 0 {
            assert kept[j] in rows[1..];
          }
        }
      }
    }
  }

  /** A row gets all nine cells exactly from row 19 on (the 20-row windows),
      unless its RSI window saw no price move (RSI 0/0). */
  lemma CompleteRows(bars: seq<Bar>, root: real -> real, i: nat)
    requires i < |bars|
    ensures Complete(AddIndicators(bars, root)[i]) <==> i >= 19 && !FlatWindow(Closes(bars), i)
  {
    var c := Closes(bars);
    RollingMeanBounds(c, 10, i);
    RollingMeanBounds(c, 20, i);
    BollingerBands(c, root, i);
    RsiAt(c, i);
    if i >= 13 {
      RsiUndefinedIffFlat(c, i);
    }
  }

  /** When exactly the rows from `w` on are complete, dropping removes the
      first `w` rows. */
  lemma {:induction false} DropNaPrefix(rows: seq<Row>, w: nat)
    requires forall i :: 0 <= i < |rows| ==> (Complete(rows[i]) <==> i >= w)
    ensures DropNa(rows) == if |rows| <= w then [] else rows[w..]
  {
    if |rows| <= w {
      DropNaEmptiesIncomplete(rows);
    } else {
      var head, tail := rows[..w], rows[w..];
      assert rows == head + tail;
      DropNaAppend(head, tail);
      assert forall i :: 0 <= i < |head| ==> head[i] == rows[i];
      DropNaEmptiesIncomplete(head);
      assert forall i :: 0 <= i < |tail| ==> tail[i] == rows[w + i];
      DropNaKeepsComplete(tail);
    }
  }

  /** With no flat RSI window from row 19 on, finalisation removes exactly
      the first 19 rows. */
  lemma FinalizeDropsWarmup(bars: seq<Bar>, root: real -> real)
    requires forall i :: 19 <= i < |bars| ==> !FlatWindow(Closes(bars), i)
    ensures DropNa(AddIndicators(bars, root)) == if |bars| <= 19 then [] else AddIndicators(bars, root)[19..]
  {
    var rows := AddIndicators(bars, root);
    forall i | 0 <= i < |rows|
      ensures Complete(rows[i]) <==> i >= 19
    {
      CompleteRows(bars, root, i);
    }
    DropNaPrefix(rows, 19);
  }

  /** On a constant Close column every indicator takes its constant value
      from row 19 on (MACD and signal 0, bands at the constant when the root
      of 0 is 0), while RSI stays 0/0. */
  lemma ConstantCloseIndicators(bars: seq<Bar>, root: real -> real, c: real, i: nat)
    requires root(0.0) == 0.0
    requires forall j :: 0 <= j < |bars| ==> bars[j].close == c
    requires 19 <= i < |bars|
    ensures var r := AddIndicators(bars, root)[i];
            r.sma10 == r.sma20 == r.ema10 == r.ema20 == r.bbUpper == r.bbLower == Some(c) &&
            r.macd == r.macdSignal == Some(0.0) && r.rsi14 == None
  {
    var cl := Closes(bars);
    RollingMeanConstant(cl, 10, c);
    RollingMeanConstant(cl, 20, c);
    EmaConstant(cl, Alpha(10), c);
    EmaConstant(cl, Alpha(20), c);
    MacdConstant(cl, c);
    BollingerConstant(cl, root, c);
    RsiUndefinedIffFlat(cl, i);
  }

  /** A constant Close column leaves nothing after finalisation. */
  lemma ConstantCloseDropsAll(bars: seq<Bar>, root: real -> real, c: real)
    requires forall j :: 0 <= j < |bars| ==> bars[j].close == c
    ensures DropNa(AddIndicators(bars, root)) == []
  {
    var rows := AddIndicators(bars, root);
    forall i | 0 <= i < |rows|
      ensures !Complete(rows[i])
    {
      CompleteRows(bars, root, i);
    }
    DropNaEmptiesIncomplete(rows);
  }

  // ---------------------------------------------------------------------
  // The whole pipeline

  datatype PipelineError = InvalidChoice(choice: string)

  /** The processed table and the file it is saved under. */
  datatype Processed = Processed(fileName: string, rows: seq<Row>)

  /** Resample with the rule of the choice, add the indicators, drop the NaN
      rows. `bucketOf` gives the calendar bucketing of a pandas rule. */
  function Preprocess(ticks: seq<Tick>, choice: string, bucketOf: string -> (int -> int),
                      root: real -> real): (r: Result<Processed, PipelineError>)
    ensures r.Failure? <==> !IsChoice(choice)
    ensures r.Failure? ==> r.error == InvalidChoice(choice)
    ensures r.Success? ==> r.value.fileName == FileMap[choice] &&
                           forall i :: 0 <= i < |r.value.rows| ==> Complete(r.value.rows[i])
  {
    ChoicesAgree(choice);
    if choice !in FreqMap then Failure(InvalidChoice(choice))
    else
      var rows := DropNa(AddIndicators(Resample(ticks, bucketOf(FreqMap[choice])), root));
      Success(Processed(OutputName(choice), rows))
  }

  /** The finalised rows carry bars of the input, and bars in strictly
      ascending label order give rows in strictly ascending label order. */
  lemma FinalRowsFromBars(bars: seq<Bar>, root: real -> real)
    ensures forall row :: row in DropNa(AddIndicators(bars, root)) ==> row.bar in bars
    ensures (forall i, j :: 0 <= i < j < |bars| ==> bars[i].bin < bars[j].bin) ==>
              Ascending(DropNa(AddIndicators(bars, root)))
  {
    var rows := AddIndicators(bars, root);
    DropNaMembers(rows);
    forall row | row in DropNa(rows)
      ensures row.bar in bars
    {
      var i :| 0 <= i < |rows| && rows[i] == row;
      assert row.bar == bars[i];
    }
    if forall i, j :: 0 <= i < j < |bars| ==> bars[i].bin < bars[j].bin {
      assert Ascending(rows);
      DropNaAscending(rows);
    }
  }

  /** On time-ordered ticks and a monotone calendar rule, the processed rows
      come in strictly ascending bin order, and each holds the aggregate of
      all ticks of its bin. */
  lemma PreprocessRows(ticks: seq<Tick>, choice: string, bucketOf: string -> (int -> int), root: real -> real)
    requires IsChoice(choice)
    requires TimeOrdered(ticks) && Monotone(bucketOf(FreqMap[choice]))
    ensures var r := Preprocess(ticks, choice, bucketOf, root);
            var bucket := bucketOf(FreqMap[choice]);
            r.Success? && Ascending(r.value.rows) &&
            forall row :: row in r.value.rows ==>
              |InBucket(ticks, bucket, row.bar.bin)| > 0 &&
              row.bar == Aggregate(row.bar.bin, InBucket(ticks, bucket, row.bar.bin))
  {
    var bucket := bucketOf(FreqMap[choice]);
    OrderedTicksOrderedKeys(ticks, bucket);
    var bars := Resample(ticks, bucket);
    ResampleAscending(ticks, bucket);
    ResampleAggregates(ticks, bucket);
    FinalRowsFromBars(bars, root);
    var rows := DropNa(AddIndicators(bars, root));
    assert Preprocess(ticks, choice, bucketOf, root).value.rows == rows;
    forall row | row in rows
      ensures |InBucket(ticks, bucket, row.bar.bin)| > 0 &&
              row.bar == Aggregate(row.bar.bin, InBucket(ticks, bucket, row.bar.bin))
    {
      var i :| 0 <= i < |bars| && bars[i] == row.bar;
    }
  }

  // ---------------------------------------------------------------------
  // The same steps on a table updated in place

  /** The resampled frame that the indicator step and `dropna(inplace=True)`
      update in place. */
  class BarTable {
    var rows: seq<Row>

    constructor FromBars(bars: seq<Bar>)
      ensures rows == seq(|bars|, i requires 0 <= i < |bars| => Bare(bars[i]))
    {
      rows := seq(|bars|, i requires 0 <= i < |bars| => Bare(bars[i]));
    }

    /** Assign the nine indicator columns. */
    method AddTechnicalIndicators(root: real -> real)
      modifies this
      ensures rows == AddIndicators(BarsOf(old(rows)), root)
    {
      rows := AddIndicators(BarsOf(rows), root);
    }

    /** Drop the rows holding a NaN. */
    method DropNaInPlace()
      modifies this
      ensures rows == DropNa(old(rows))
    {
      rows := DropNa(rows);
    }
  }

  /** Validate the choice, resample, add the indicators and finalise in
      place; the result is the table the pipeline saves. */
  method PreprocessBitcoinData(ticks: seq<Tick>, choice: string, bucketOf: string -> (int -> int),
                               root: real -> real)
    returns (r: Result<Processed, PipelineError>)
    ensures r == Preprocess(ticks, choice, bucketOf, root)
  {
    if choice !in FreqMap {
      return Failure(InvalidChoice(choice));
    }
    var bars := Resample(ticks, bucketOf(FreqMap[choice]));
    var table := new BarTable.FromBars(bars);
    assert BarsOf(table.rows) == bars;
    table.AddTechnicalIndicators(root);
    table.DropNaInPlace();
    r := Success(Processed(OutputName(choice), table.rows));
  }
}
