/** The technical indicators computed over the resampled Close column. Each
    is a function from the column to a column of the same length whose cells
    are `None` where pandas would produce NaN. */
module Indicators {
  import opened Common

  // ---------------------------------------------------------------------
  // Rolling mean: `s.rolling(window=w).mean()`

  /** Cell `i` is the mean of the `w` values ending at `i`, or NaN while fewer
      than `w` values have been seen. */
  function RollingMean(xs: seq<real>, w: nat): (r: seq<Option<real>>)
    requires w >= 1
    ensures |r| == |xs|
  {
    seq(|xs|, i requires 0 <= i < |xs| => if i + 1 < w then None else Some(Mean(xs[i + 1 - w .. i + 1])))
  }

  /** The rolling mean is defined exactly from row `w - 1` on, and there lies
      between the smallest and the largest value of its window. */
  lemma RollingMeanBounds(xs: seq<real>, w: nat, i: nat)
    requires w >= 1 && i < |xs|
    ensures RollingMean(xs, w)[i].Some? <==> i >= w - 1
    ensures i >= w - 1 ==>
              Min(xs[i + 1 - w .. i + 1]) <= RollingMean(xs, w)[i].value <= Max(xs[i + 1 - w .. i + 1])
  {
    if i >= w - 1 {
      var win := xs[i + 1 - w .. i + 1];
      assert RollingMean(xs, w)[i] == Some(Mean(win));
      MeanBounds(win, Min(win), Max(win));
    }
  }

  /** On a constant column the rolling mean is that constant wherever defined. */
  lemma RollingMeanConstant(xs: seq<real>, w: nat, c: real)
    requires w >= 1
    requires forall j :: 0 <= j < |xs| ==> xs[j] == c
    ensures forall i :: 0 <= i < |xs| && i >= w - 1 ==> RollingMean(xs, w)[i] == Some(c)
  {
    forall i | 0 <= i < |xs| && i >= w - 1
      ensures RollingMean(xs, w)[i] == Some(c)
    {
      MeanBounds(xs[i + 1 - w .. i + 1], c, c);
    }
  }

  // ---------------------------------------------------------------------
  // Exponential moving average: `s.ewm(span=s, adjust=False).mean()`

  /** Smoothing factor of a span. */
  function Alpha(span: nat): (a: real)
    requires span >= 1
    ensures 0.0 < a <= 1.0
  {
    2.0 / (span as real + 1.0)
  }

  /** The recursive form seeded by the first value. */
  function EmaAt(xs: seq<real>, alpha: real, i: nat): real
    requires i < |xs|
  {
    if i == 0 then xs[0] else alpha * xs[i] + (1.0 - alpha) * EmaAt(xs, alpha, i - 1)
  }

  /** The EMA column: defined at every row, with no warm-up. */
  function Ema(xs: seq<real>, span: nat): (r: seq<Option<real>>)
    requires span >= 1
    ensures |r| == |xs|
    ensures forall i :: 0 <= i < |r| ==> r[i].Some?
  {
    seq(|xs|, i requires 0 <= i < |xs| => Some(EmaAt(xs, Alpha(span), i)))
  }

  /** A convex combination of two values within bounds is within them. */
  lemma ConvexStep(alpha: real, x: real, y: real, lo: real, hi: real)
    requires 0.0 < alpha <= 1.0
    requires lo <= x <= hi && lo <= y <= hi
    ensures lo <= alpha * x + (1.0 - alpha) * y <= hi
  {
    var v := alpha * x + (1.0 - alpha) * y;
    MulNonneg(alpha, hi - x);
    MulNonneg(1.0 - alpha, hi - y);
    MulNonneg(alpha, x - lo);
    MulNonneg(1.0 - alpha, y - lo);
    assert hi - v == alpha * (hi - x) + (1.0 - alpha) * (hi - y);
    assert v - lo == alpha * (x - lo) + (1.0 - alpha) * (y - lo);
  }

  lemma MulNonneg(a: real, b: real)
    requires 0.0 <= a && 0.0 <= b
    ensures 0.0 <= a * b
  {
  }

  /** Any bounds on the values seen so far bound the EMA. */
  lemma {:induction false} EmaBetween(xs: seq<real>, alpha: real, i: nat, lo: real, hi: real)
    requires 0.0 < alpha <= 1.0 && i < |xs|
    requires forall j :: 0 <= j <= i ==> lo <= xs[j] <= hi
    ensures lo <= EmaAt(xs, alpha, i) <= hi
  {
    if i > 0 {
      EmaBetween(xs, alpha, i - 1, lo, hi);
      ConvexStep(alpha, xs[i], EmaAt(xs, alpha, i - 1), lo, hi);
    }
  }

  /** Each EMA value lies between the smallest and the largest value seen so
      far. */
  lemma EmaWithinSeen(xs: seq<real>, span: nat, i: nat)
    requires span >= 1 && i < |xs|
    ensures Min(xs[..i + 1]) <= Ema(xs, span)[i].value <= Max(xs[..i + 1])
  {
    var seen := xs[..i + 1];
    assert forall j :: 0 <= j <= i ==> xs[j] == seen[j];
    EmaBetween(xs, Alpha(span), i, Min(seen), Max(seen));
  }

  /** On a constant column the EMA is that constant at every row. */
  lemma EmaConstant(xs: seq<real>, alpha: real, c: real)
    requires 0.0 < alpha <= 1.0
    requires forall j :: 0 <= j < |xs| ==> xs[j] == c
    ensures forall i :: 0 <= i < |xs| ==> EmaAt(xs, alpha, i) == c
  {
    forall i | 0 <= i < |xs|
      ensures EmaAt(xs, alpha, i) == c
    {
      EmaBetween(xs, alpha, i, c, c);
    }
  }

  /** An EMA value depends on the rows up to its own only. */
  lemma {:induction false} EmaCausal(xs: seq<real>, alpha: real, i: nat, n: nat)
    requires i < n <= |xs|
    ensures EmaAt(xs[..n], alpha, i) == EmaAt(xs, alpha, i)
  {
    if i > 0 {
      EmaCausal(xs, alpha, i - 1, n);
    }
  }

  // ---------------------------------------------------------------------
  // MACD: EMA(12) - EMA(26), and its own EMA(9) as the signal line

  function MacdLine(xs: seq<real>): (m: seq<real>)
    ensures |m| == |xs|
  {
    seq(|xs|, i requires 0 <= i < |xs| => EmaAt(xs, Alpha(12), i) - EmaAt(xs, Alpha(26), i))
  }

  /** The MACD column: defined at every row. */
  function Macd(xs: seq<real>): (r: seq<Option<real>>)
    ensures |r| == |xs|
    ensures forall i :: 0 <= i < |r| ==> r[i].Some?
  {
    seq(|xs|, i requires 0 <= i < |xs| => Some(MacdLine(xs)[i]))
  }

  /** The signal column: defined at every row. */
  function MacdSignal(xs: seq<real>): (r: seq<Option<real>>)
    ensures |r| == |xs|
    ensures forall i :: 0 <= i < |r| ==> r[i].Some?
  {
    Ema(MacdLine(xs), 9)
  }

  /** On a constant column there is no trend: MACD and its signal are 0. */
  lemma MacdConstant(xs: seq<real>, c: real)
    requires forall j :: 0 <= j < |xs| ==> xs[j] == c
    ensures forall i :: 0 <= i < |xs| ==> Macd(xs)[i] == Some(0.0) && MacdSignal(xs)[i] == Some(0.0)
  {
    EmaConstant(xs, Alpha(12), c);
    EmaConstant(xs, Alpha(26), c);
    EmaConstant(MacdLine(xs), Alpha(9), 0.0);
  }

  /** The signal line stays within the range of the MACD values seen so far. */
  lemma MacdSignalWithinSeen(xs: seq<real>, i: nat)
    requires i < |xs|
    ensures Min(MacdLine(xs)[..i + 1]) <= MacdSignal(xs)[i].value <= Max(MacdLine(xs)[..i + 1])
  {
    EmaWithinSeen(MacdLine(xs), 9, i);
  }

  // ---------------------------------------------------------------------
  // RSI(14) from simple rolling means of gains and losses

  /** `s.diff()`: NaN in the first row. */
  function Delta(xs: seq<real>): (d: seq<Option<real>>)
    ensures |d| == |xs|
  {
    seq(|xs|, i requires 0 <= i < |xs| => if i == 0 then None else Some(xs[i] - xs[i - 1]))
  }

  /** `delta.where(delta > 0, 0.0)`: NaN fails the test and becomes 0. */
  function GainOf(d: Option<real>): real
  {
    match d
    case Some(v) => if v > 0.0 then v else 0.0
    case None => 0.0
  }

  /** `-delta.where(delta < 0, 0.0)`. */
  function LossOf(d: Option<real>): real
  {
    match d
    case Some(v) => -(if v < 0.0 then v else 0.0)
    case None => -0.0
  }

  function Gains(xs: seq<real>): (g: seq<real>)
    ensures |g| == |xs|
  {
    seq(|xs|, i requires 0 <= i < |xs| => GainOf(Delta(xs)[i]))
  }

  function Losses(xs: seq<real>): (l: seq<real>)
    ensures |l| == |xs|
  {
    seq(|xs|, i requires 0 <= i < |xs| => LossOf(Delta(xs)[i]))
  }

  /** Gains and losses are defined and non-negative from row 0 (0 there), at
      most one of them is non-zero in a row, and their difference is the
      change of the column. */
  lemma GainsLosses(xs: seq<real>, i: nat)
    requires i < |xs|
    ensures 0.0 <= Gains(xs)[i] && 0.0 <= Losses(xs)[i]
    ensures Gains(xs)[i] == 0.0 || Losses(xs)[i] == 0.0
    ensures i == 0 ==> Gains(xs)[i] == 0.0 && Losses(xs)[i] == 0.0
    ensures i > 0 ==> Gains(xs)[i] - Losses(xs)[i] == xs[i] - xs[i - 1]
  {
  }

  /** `100 - 100 / (1 + avg_gain / avg_loss)` in IEEE arithmetic on
      non-negative averages: a zero loss with a positive gain divides to
      infinity and gives 100; zero over zero gives NaN. */
  function RsiOf(g: real, l: real): Option<real>
    requires 0.0 <= g && 0.0 <= l
  {
    if l > 0.0 then Some(100.0 - 100.0 / (1.0 + g / l))
    else if g > 0.0 then Some(100.0)
    else None
  }

  /** Where it is defined, the oscillator is the share of gains in all moves,
      scaled to 100: it lies in [0, 100], is 100 exactly when there was no
      loss, and is undefined exactly when there was neither gain nor loss. */
  lemma RsiClosedForm(g: real, l: real)
    requires 0.0 <= g && 0.0 <= l
    ensures RsiOf(g, l).None? <==> g + l == 0.0
    ensures g + l > 0.0 ==> RsiOf(g, l) == Some(100.0 * g / (g + l))
    ensures g + l > 0.0 ==> 0.0 <= RsiOf(g, l).value <= 100.0
    ensures g + l > 0.0 ==> (RsiOf(g, l).value == 100.0 <==> l == 0.0)
  {
    if l > 0.0 {
      var s := g + l;
      var q := 1.0 + g / l;
      assert (g / l) * l == g;
      assert q * l == s;
      MulNonneg(g, 1.0 / l);
      assert g / l >= 0.0;
      var r := 100.0 / q;
      assert r * q == 100.0;
      assert r * s == r * q * l == 100.0 * l;
      assert r == 100.0 * l / s;
      assert 100.0 - r == (100.0 * s - 100.0 * l) / s;
      assert 100.0 - r == 100.0 * g / s;
      DivideBounds(100.0 * g, s, 0.0, 100.0);
      assert 100.0 * g / s < 100.0 by {
        assert (100.0 * g / s) * s == 100.0 * g < 100.0 * s;
      }
    } else if g > 0.0 {
      assert 100.0 * g / (g + l) == 100.0 * g / g == 100.0;
    }
  }

  function AvgGain(xs: seq<real>): (r: seq<Option<real>>)
    ensures |r| == |xs|
  {
    RollingMean(Gains(xs), 14)
  }

  function AvgLoss(xs: seq<real>): (r: seq<Option<real>>)
    ensures |r| == |xs|
  {
    RollingMean(Losses(xs), 14)
  }

  /** A rolling mean of non-negative values is non-negative. */
  lemma RollingMeanNonneg(xs: seq<real>, w: nat, i: nat)
    requires w >= 1 && i < |xs| && i >= w - 1
    requires forall j :: 0 <= j < |xs| ==> 0.0 <= xs[j]
    ensures 0.0 <= RollingMean(xs, w)[i].value
  {
    var win := xs[i + 1 - w .. i + 1];
    MeanBounds(win, 0.0, Max(win));
  }

  /** The RSI column. */
  function Rsi(xs: seq<real>): (r: seq<Option<real>>)
    ensures |r| == |xs|
  {
    seq(|xs|, i requires 0 <= i < |xs| =>
      if i < 13 then None
      else
        (forall j | 0 <= j < |xs| ensures 0.0 <= Gains(xs)[j] && 0.0 <= Losses(xs)[j] { GainsLosses(xs, j); }
         RollingMeanNonneg(Gains(xs), 14, i);
         RollingMeanNonneg(Losses(xs), 14, i);
         RsiOf(AvgGain(xs)[i].value, AvgLoss(xs)[i].value)))
  }

  /** Row `i` saw no price change in the moves its 14-row window covers. */
  ghost predicate FlatWindow(xs: seq<real>, i: nat)
    requires 13 <= i < |xs|
  {
    forall j :: i - 13 <= j <= i && 1 <= j ==> xs[j] == xs[j - 1]
  }

  /** Before row 13 the rolling means lack 14 values and RSI is NaN; from row
      13 on it is the oscillator of the two averages. */
  lemma RsiAt(xs: seq<real>, i: nat)
    requires i < |xs|
    ensures i < 13 ==> Rsi(xs)[i].None?
    ensures i >= 13 ==> AvgGain(xs)[i].Some? && AvgLoss(xs)[i].Some? &&
                        0.0 <= AvgGain(xs)[i].value && 0.0 <= AvgLoss(xs)[i].value &&
                        Rsi(xs)[i] == RsiOf(AvgGain(xs)[i].value, AvgLoss(xs)[i].value)
  {
    if i >= 13 {
      forall j | 0 <= j < |xs|
        ensures 0.0 <= Gains(xs)[j] && 0.0 <= Losses(xs)[j]
      {
        GainsLosses(xs, j);
      }
      RollingMeanNonneg(Gains(xs), 14, i);
      RollingMeanNonneg(Losses(xs), 14, i);
    }
  }

  /** Where RSI is defined it lies in [0, 100]; it is below 100 exactly when
      the window saw a loss. */
  lemma RsiBounded(xs: seq<real>, i: nat)
    requires i < |xs| && Rsi(xs)[i].Some?
    ensures 0.0 <= Rsi(xs)[i].value <= 100.0
    ensures Rsi(xs)[i].value < 100.0 <==> AvgLoss(xs)[i].value > 0.0
  {
    RsiAt(xs, i);
    RsiClosedForm(AvgGain(xs)[i].value, AvgLoss(xs)[i].value);
  }

  /** A 14-row window saw no move exactly when its gains and its losses both
      sum to zero; both sums are non-negative. */
  lemma FlatIffNoMoves(xs: seq<real>, i: nat)
    requires 13 <= i < |xs|
    ensures 0.0 <= Sum(Gains(xs)[i - 13 .. i + 1]) && 0.0 <= Sum(Losses(xs)[i - 13 .. i + 1])
    ensures FlatWindow(xs, i) <==>
              Sum(Gains(xs)[i - 13 .. i + 1]) == 0.0 && Sum(Losses(xs)[i - 13 .. i + 1]) == 0.0
  {
    var gw := Gains(xs)[i - 13 .. i + 1];
    var lw := Losses(xs)[i - 13 .. i + 1];
    forall k | 0 <= k < 14
      ensures 0.0 <= gw[k] && 0.0 <= lw[k]
      ensures gw[k] == 0.0 && lw[k] == 0.0 <==> (i - 13 + k == 0 || xs[i - 13 + k] == xs[i - 13 + k - 1])
    {
      GainsLosses(xs, i - 13 + k);
    }
    SumPositive(gw);
    SumPositive(lw);
    if FlatWindow(xs, i) {
      SumConstant(gw, 0.0);
      SumConstant(lw, 0.0);
    } else {
      var j :| i - 13 <= j <= i && 1 <= j && xs[j] != xs[j - 1];
      assert gw[j - (i - 13)] > 0.0 || lw[j - (i - 13)] > 0.0;
    }
  }

  /** From row 13 on, RSI is undefined (0/0) exactly when the closes did not
      move at all over the moves its window covers, e.g. on a constant
      column. */
  lemma RsiUndefinedIffFlat(xs: seq<real>, i: nat)
    requires 13 <= i < |xs|
    ensures Rsi(xs)[i].None? <==> FlatWindow(xs, i)
  {
    var sg, sl := Sum(Gains(xs)[i - 13 .. i + 1]), Sum(Losses(xs)[i - 13 .. i + 1]);
    RsiAt(xs, i);
    var g, l := AvgGain(xs)[i].value, AvgLoss(xs)[i].value;
    assert g == sg / 14.0 && l == sl / 14.0;
    RsiClosedForm(g, l);
    FlatIffNoMoves(xs, i);
  }

  // ---------------------------------------------------------------------
  // Bollinger bands: SMA(20) +/- 2 sample standard deviations

  /** Squared deviations of a window from `m`. */
  function SquaredDeviations(w: seq<real>, m: real): (r: seq<real>)
    ensures |r| == |w|
  {
    seq(|w|, k requires 0 <= k < |w| => (w[k] - m) * (w[k] - m))
  }

  /** Every squared deviation is non-negative. */
  lemma DeviationsNonneg(w: seq<real>, m: real)
    ensures forall k :: 0 <= k < |w| ==> 0.0 <= SquaredDeviations(w, m)[k]
  {
    forall k | 0 <= k < |w|
      ensures 0.0 <= SquaredDeviations(w, m)[k]
    {
      var e := w[k] - m;
      if e >= 0.0 {
        MulNonneg(e, e);
      } else {
        MulNonneg(-e, -e);
      }
    }
  }

  /** Sample variance (one degree of freedom removed); never negative. */
  function SampleVariance(w: seq<real>): (v: real)
    requires |w| >= 2
    ensures 0.0 <= v
  {
    var d := SquaredDeviations(w, Mean(w));
    DeviationsNonneg(w, Mean(w));
    SumPositive(d);
    Sum(d) / ((|w| - 1) as real)
  }

  /** `s.rolling(window=w).std()`, with the square root left abstract. */
  function RollingStd(xs: seq<real>, w: nat, root: real -> real): (r: seq<Option<real>>)
    requires w >= 2
    ensures |r| == |xs|
  {
    seq(|xs|, i requires 0 <= i < |xs| =>
      if i + 1 < w then None else Some(root(SampleVariance(xs[i + 1 - w .. i + 1]))))
  }

  /** `root` gives a non-negative result for every non-negative argument. */
  ghost predicate NonnegRoot(root: real -> real)
  {
    forall v :: 0.0 <= v ==> 0.0 <= root(v)
  }

  function BollingerUpper(xs: seq<real>, root: real -> real): (r: seq<Option<real>>)
    ensures |r| == |xs|
  {
    seq(|xs|, i requires 0 <= i < |xs| =>
      var m, sd := RollingMean(xs, 20)[i], RollingStd(xs, 20, root)[i];
      if m.Some? && sd.Some? then Some(m.value + sd.value * 2.0) else None)
  }

  function BollingerLower(xs: seq<real>, root: real -> real): (r: seq<Option<real>>)
    ensures |r| == |xs|
  {
    seq(|xs|, i requires 0 <= i < |xs| =>
      var m, sd := RollingMean(xs, 20)[i], RollingStd(xs, 20, root)[i];
      if m.Some? && sd.Some? then Some(m.value - sd.value * 2.0) else None)
  }

  /** The bands are undefined before row 19; from there they are symmetric
      around SMA(20), four standard deviations apart, so with a non-negative
      root Lower <= SMA(20) <= Upper. */
  lemma BollingerBands(xs: seq<real>, root: real -> real, i: nat)
    requires i < |xs|
    ensures BollingerUpper(xs, root)[i].Some? <==> i >= 19
    ensures BollingerLower(xs, root)[i].Some? <==> i >= 19
    ensures i >= 19 ==>
              var u, l, m := BollingerUpper(xs, root)[i].value, BollingerLower(xs, root)[i].value,
                             RollingMean(xs, 20)[i].value;
              u + l == 2.0 * m && u - l == 4.0 * root(SampleVariance(xs[i - 19 .. i + 1])) &&
              (NonnegRoot(root) ==> l <= m <= u)
  {
    if i >= 19 {
      var win := xs[i - 19 .. i + 1];
      var v := SampleVariance(win);
      assert RollingMean(xs, 20)[i] == Some(Mean(win));
      assert RollingStd(xs, 20, root)[i] == Some(root(v));
      assert NonnegRoot(root) ==> 0.0 <= root(v);
    } else {
      assert RollingMean(xs, 20)[i] == None;
    }
  }

  /** On a constant column the variance is 0 and both bands equal the
      constant. */
  lemma BollingerConstant(xs: seq<real>, root: real -> real, c: real)
    requires root(0.0) == 0.0
    requires forall j :: 0 <= j < |xs| ==> xs[j] == c
    ensures forall i :: 19 <= i < |xs| ==>
              BollingerUpper(xs, root)[i] == Some(c) && BollingerLower(xs, root)[i] == Some(c)
  {
    RollingMeanConstant(xs, 20, c);
    forall i | 19 <= i < |xs|
      ensures BollingerUpper(xs, root)[i] == Some(c) && BollingerLower(xs, root)[i] == Some(c)
    {
      var win := xs[i - 19 .. i + 1];
      MeanBounds(win, c, c);
      var d := SquaredDeviations(win, Mean(win));
      SumConstant(d, 0.0);
      assert SampleVariance(win) == 0.0;
      assert RollingStd(xs, 20, root)[i] == Some(root(0.0));
    }
  }
}
