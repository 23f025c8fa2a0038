/** OHLCV resampling of minute ticks into calendar buckets.

    pandas assigns every tick to the bin its timestamp falls in, aggregates
    each bin (Open first, High max, Low min, Close last, Volume sum) and then
    drops the bins that received no tick. Here the calendar rule is an
    abstract `bucket` function from a timestamp to the label of its bin, and
    the model groups runs of consecutive ticks with the same label; the
    lemmas show that on time-ordered ticks this is exactly one bar per
    non-empty bin, in ascending label order, aggregated from all of that
    bin's ticks. */
module Resampling {
  import opened Common

  /** A raw record: epoch seconds and the five price fields. */
  datatype Tick = Tick(time: int, open: real, high: real, low: real, close: real, volume: real)

  /** A resampled record, keyed by the label of its bin. */
  datatype Bar = Bar(bin: int, open: real, high: real, low: real, close: real, volume: real)

  /** Bar of a bin whose only tick is `t`. */
  function Single(t: Tick, k: int): Bar
  {
    Bar(k, t.open, t.high, t.low, t.close, t.volume)
  }

  /** Bar of a bin after tick `t` is put in front of the ticks that made `b`. */
  function Absorb(t: Tick, b: Bar): Bar
  {
    Bar(b.bin, t.open,
        if t.high >= b.high then t.high else b.high,
        if t.low <= b.low then t.low else b.low,
        b.close, t.volume + b.volume)
  }

  /** `df.resample(freq).agg({...}).dropna()`: one bar per run of consecutive
      ticks that share a bin label. */
  function Resample(ticks: seq<Tick>, bucket: int -> int): (bars: seq<Bar>)
    ensures |bars| <= |ticks|
    ensures |ticks| > 0 ==> |bars| > 0 && bars[0].bin == bucket(ticks[0].time)
  {
    if |ticks| == 0 then []
    else
      var t := ticks[0];
      var k := bucket(t.time);
      var rest := Resample(ticks[1..], bucket);
      if |rest| > 0 && rest[0].bin == k then [Absorb(t, rest[0])] + rest[1..]
      else [Single(t, k)] + rest
  }

  // ---------------------------------------------------------------------
  // Reference definition: a bin's ticks, and what pandas computes from them

  /** The ticks whose timestamps fall in the bin labelled `k`, in input order. */
  function InBucket(ticks: seq<Tick>, bucket: int -> int, k: int): seq<Tick>
  {
    if |ticks| == 0 then []
    else (if bucket(ticks[0].time) == k then [ticks[0]] else []) + InBucket(ticks[1..], bucket, k)
  }

  function Highs(g: seq<Tick>): seq<real>
  {
    seq(|g|, i requires 0 <= i < |g| => g[i].high)
  }

  function Lows(g: seq<Tick>): seq<real>
  {
    seq(|g|, i requires 0 <= i < |g| => g[i].low)
  }

  function Volumes(g: seq<Tick>): seq<real>
  {
    seq(|g|, i requires 0 <= i < |g| => g[i].volume)
  }

  /** The aggregation rule applied to all ticks of one non-empty bin. */
  function Aggregate(k: int, g: seq<Tick>): Bar
    requires |g| > 0
  {
    Bar(k, g[0].open, Max(Highs(g)), Min(Lows(g)), g[|g| - 1].close, Sum(Volumes(g)))
  }

  /** Labels of all ticks. */
  function Keys(ticks: seq<Tick>, bucket: int -> int): set<int>
  {
    if |ticks| == 0 then {} else {bucket(ticks[0].time)} + Keys(ticks[1..], bucket)
  }

  /** Labels of all bars. */
  function Labels(bars: seq<Bar>): set<int>
  {
    if |bars| == 0 then {} else {bars[0].bin} + Labels(bars[1..])
  }

  predicate TimeOrdered(ticks: seq<Tick>)
  {
    forall i, j :: 0 <= i < j < |ticks| ==> ticks[i].time <= ticks[j].time
  }

  ghost predicate Monotone(bucket: int -> int)
  {
    forall a, b :: a <= b ==> bucket(a) <= bucket(b)
  }

  /** Bin labels never decrease along the tick sequence. */
  predicate KeysOrdered(ticks: seq<Tick>, bucket: int -> int)
  {
    forall i, j :: 0 <= i < j < |ticks| ==> bucket(ticks[i].time) <= bucket(ticks[j].time)
  }

  /** A tick or bar whose Open and Close lie between its Low and its High. */
  predicate SaneTick(t: Tick)
  {
    t.low <= t.open <= t.high && t.low <= t.close <= t.high
  }

  predicate SaneBar(b: Bar)
  {
    b.low <= b.open <= b.high && b.low <= b.close <= b.high
  }

  /** A calendar rule that never moves a later timestamp to an earlier bin
      keeps the labels of time-ordered ticks in order. */
  lemma OrderedTicksOrderedKeys(ticks: seq<Tick>, bucket: int -> int)
    requires TimeOrdered(ticks) && Monotone(bucket)
    ensures KeysOrdered(ticks, bucket)
  {
  }

  // ---------------------------------------------------------------------
  // Properties

  /** Every bar of sane ticks is sane; in particular High >= Low. */
  lemma {:induction false} ResamplePreservesSanity(ticks: seq<Tick>, bucket: int -> int)
    requires forall i :: 0 <= i < |ticks| ==> SaneTick(ticks[i])
    ensures forall i :: 0 <= i < |Resample(ticks, bucket)| ==> SaneBar(Resample(ticks, bucket)[i])
  {
    if |ticks| > 0 {
      ResamplePreservesSanity(ticks[1..], bucket);
      assert forall i :: 0 <= i < |ticks[1..]| ==> ticks[1..][i] == ticks[i + 1];
    }
  }

  /** Exactly the labels of the ticks appear as bar labels. */
  lemma {:induction false} ResampleCoversKeys(ticks: seq<Tick>, bucket: int -> int)
    ensures Labels(Resample(ticks, bucket)) == Keys(ticks, bucket)
  {
    if |ticks| > 0 {
      var rest := Resample(ticks[1..], bucket);
      ResampleCoversKeys(ticks[1..], bucket);
      if |rest| > 0 {
        assert rest == [rest[0]] + rest[1..];
        LabelsCons(rest[0], rest[1..]);
      }
      var bars := Resample(ticks, bucket);
      LabelsCons(bars[0], bars[1..]);
      assert bars == [bars[0]] + bars[1..];
    }
  }

  lemma LabelsCons(b: Bar, bars: seq<Bar>)
    ensures Labels([b] + bars) == {b.bin} + Labels(bars)
  {
    assert ([b] + bars)[1..] == bars;
  }

  /** On labels that never decrease, bar labels strictly increase: no bin is
      reported twice and the bars come in ascending label order. */
  lemma {:induction false} ResampleAscending(ticks: seq<Tick>, bucket: int -> int)
    requires KeysOrdered(ticks, bucket)
    ensures forall i, j :: 0 <= i < j < |Resample(ticks, bucket)| ==>
              Resample(ticks, bucket)[i].bin < Resample(ticks, bucket)[j].bin
    ensures forall i :: 0 <= i < |Resample(ticks, bucket)| ==>
              bucket(ticks[0].time) <= Resample(ticks, bucket)[i].bin
  {
    if |ticks| > 0 {
      var k := bucket(ticks[0].time);
      var rest := Resample(ticks[1..], bucket);
      assert KeysOrdered(ticks[1..], bucket);
      ResampleAscending(ticks[1..], bucket);
      if |rest| > 0 {
        assert bucket(ticks[1].time) == rest[0].bin;
        assert k <= rest[0].bin;
      }
    }
  }

  /** Labels differ from `k` everywhere: the bin labelled `k` is empty. */
  lemma {:induction false} InBucketNone(ticks: seq<Tick>, bucket: int -> int, k: int)
    requires forall i :: 0 <= i < |ticks| ==> bucket(ticks[i].time) != k
    ensures InBucket(ticks, bucket, k) == []
  {
    if |ticks| > 0 {
      InBucketNone(ticks[1..], bucket, k);
    }
  }

  /** Putting one more tick in front of a bin's ticks is what Absorb does. */
  lemma AggregateCons(t: Tick, k: int, g: seq<Tick>)
    requires |g| > 0
    ensures Aggregate(k, [t] + g) == Absorb(t, Aggregate(k, g))
  {
    var tg := [t] + g;
    assert Highs(tg) == [t.high] + Highs(g);
    assert Lows(tg) == [t.low] + Lows(g);
    assert Volumes(tg) == [t.volume] + Volumes(g);
    assert Highs(tg)[1..] == Highs(g);
    assert Lows(tg)[1..] == Lows(g);
    assert Volumes(tg)[1..] == Volumes(g);
  }

  /** The same aggregation, one tick at a time from the back of the bin. */
  function Fold(k: int, g: seq<Tick>): Bar
    requires |g| > 0
  {
    if |g| == 1 then Single(g[0], k) else Absorb(g[0], Fold(k, g[1..]))
  }

  /** Folding the bin's ticks gives Open of the first, High the maximum, Low
      the minimum, Close of the last and Volume the sum. */
  lemma {:induction false} FoldIsAggregate(k: int, g: seq<Tick>)
    requires |g| > 0
    ensures Fold(k, g) == Aggregate(k, g)
  {
    if |g| == 1 {
      assert g == [g[0]];
      AggregateSingle(g[0], k);
    } else {
      FoldIsAggregate(k, g[1..]);
      assert g == [g[0]] + g[1..];
      AggregateCons(g[0], k, g[1..]);
    }
  }

  /** Bar `b` is the fold of all ticks of its bin. */
  predicate Folded(ticks: seq<Tick>, bucket: int -> int, b: Bar)
  {
    |InBucket(ticks, bucket, b.bin)| > 0 && b == Fold(b.bin, InBucket(ticks, bucket, b.bin))
  }

  /** Each bar is the aggregation of ALL ticks of its bin: Open of the first,
      High the maximum, Low the minimum, Close of the last, Volume the sum. */
  lemma ResampleAggregates(ticks: seq<Tick>, bucket: int -> int)
    requires KeysOrdered(ticks, bucket)
    ensures forall i :: 0 <= i < |Resample(ticks, bucket)| ==>
              var b := Resample(ticks, bucket)[i];
              |InBucket(ticks, bucket, b.bin)| > 0 &&
              b == Aggregate(b.bin, InBucket(ticks, bucket, b.bin))
  {
    var bars := Resample(ticks, bucket);
    ResampleFolds(ticks, bucket);
    forall i | 0 <= i < |bars|
      ensures |InBucket(ticks, bucket, bars[i].bin)| > 0 &&
              bars[i] == Aggregate(bars[i].bin, InBucket(ticks, bucket, bars[i].bin))
    {
      assert Folded(ticks, bucket, bars[i]);
      FoldIsAggregate(bars[i].bin, InBucket(ticks, bucket, bars[i].bin));
    }
  }

  lemma {:induction false} ResampleFolds(ticks: seq<Tick>, bucket: int -> int)
    requires KeysOrdered(ticks, bucket)
    ensures forall i :: 0 <= i < |Resample(ticks, bucket)| ==> Folded(ticks, bucket, Resample(ticks, bucket)[i])
  {
    if |ticks| > 0 {
      var tail := ticks[1..];
      var rest := Resample(tail, bucket);
      assert KeysOrdered(tail, bucket);
      ResampleFolds(tail, bucket);
      ResampleAscending(tail, bucket);
      if |rest| > 0 && rest[0].bin == bucket(ticks[0].time) {
        FoldsMerged(ticks, bucket);
      } else {
        FoldsFresh(ticks, bucket);
      }
    }
  }

  /** A bin other than the first tick's has the same ticks with or without it. */
  lemma InBucketOther(ticks: seq<Tick>, bucket: int -> int, s: int)
    requires |ticks| > 0 && bucket(ticks[0].time) != s
    ensures InBucket(ticks, bucket, s) == InBucket(ticks[1..], bucket, s)
  {
  }

  /** A bar aggregated from the later ticks stays so when a tick of another
      bin is put in front. */
  lemma FoldedTail(ticks: seq<Tick>, bucket: int -> int, b: Bar)
    requires |ticks| > 0 && bucket(ticks[0].time) != b.bin
    requires Folded(ticks[1..], bucket, b)
    ensures Folded(ticks, bucket, b)
  {
    InBucketOther(ticks, bucket, b.bin);
  }

  /** The first bar, when the first tick joins it. */
  lemma MergedHead(ticks: seq<Tick>, bucket: int -> int)
    requires |ticks| > 0
    requires var rest := Resample(ticks[1..], bucket);
      |rest| > 0 && rest[0].bin == bucket(ticks[0].time) && Folded(ticks[1..], bucket, rest[0])
    ensures Folded(ticks, bucket, Resample(ticks, bucket)[0])
  {
    var t, tail := ticks[0], ticks[1..];
    var k := bucket(t.time);
    var g := InBucket(tail, bucket, k);
    assert InBucket(ticks, bucket, k) == [t] + g;
    assert ([t] + g)[1..] == g;
  }

  /** A bin of one tick makes the bar of that tick. */
  lemma AggregateSingle(t: Tick, k: int)
    ensures Aggregate(k, [t]) == Single(t, k)
  {
    assert Highs([t]) == [t.high];
    assert Lows([t]) == [t.low];
    assert Volumes([t]) == [t.volume];
    assert Sum([t.volume]) == t.volume + Sum([]);
  }

  /** A later bar of the rest, unchanged when the first tick joins the first
      bar, keeps its bin's ticks. */
  lemma MergedLater(ticks: seq<Tick>, bucket: int -> int, i: nat)
    requires |ticks| > 0
    requires var rest := Resample(ticks[1..], bucket);
      0 < i < |rest| && rest[0].bin == bucket(ticks[0].time) &&
      rest[0].bin < rest[i].bin && Folded(ticks[1..], bucket, rest[i])
    ensures i < |Resample(ticks, bucket)| && Folded(ticks, bucket, Resample(ticks, bucket)[i])
  {
    var rest := Resample(ticks[1..], bucket);
    assert Resample(ticks, bucket)[i] == rest[i];
    FoldedTail(ticks, bucket, rest[i]);
  }

  /** Induction step when the first tick joins the first bar of the rest. */
  lemma {:induction false} FoldsMerged(ticks: seq<Tick>, bucket: int -> int)
    requires |ticks| > 0
    requires var rest := Resample(ticks[1..], bucket);
      |rest| > 0 && rest[0].bin == bucket(ticks[0].time) &&
      (forall i :: 0 <= i < |rest| ==> Folded(ticks[1..], bucket, rest[i])) &&
      (forall i, j :: 0 <= i < j < |rest| ==> rest[i].bin < rest[j].bin)
    ensures forall i :: 0 <= i < |Resample(ticks, bucket)| ==> Folded(ticks, bucket, Resample(ticks, bucket)[i])
  {
    var rest := Resample(ticks[1..], bucket);
    var bars := Resample(ticks, bucket);
    MergedHead(ticks, bucket);
    assert |bars| == |rest|;
    forall i | 1 <= i < |bars|
      ensures Folded(ticks, bucket, bars[i])
    {
      MergedLater(ticks, bucket, i);
    }
  }

  /** Induction step when the first tick opens a bin of its own. */
  lemma {:induction false} FoldsFresh(ticks: seq<Tick>, bucket: int -> int)
    requires |ticks| > 0 && KeysOrdered(ticks, bucket)
    requires var rest := Resample(ticks[1..], bucket);
      !(|rest| > 0 && rest[0].bin == bucket(ticks[0].time)) &&
      (forall i :: 0 <= i < |rest| ==> Folded(ticks[1..], bucket, rest[i]))
    ensures forall i :: 0 <= i < |Resample(ticks, bucket)| ==> Folded(ticks, bucket, Resample(ticks, bucket)[i])
  {
    var t, tail := ticks[0], ticks[1..];
    var k := bucket(t.time);
    var rest := Resample(tail, bucket);
    var bars := Resample(ticks, bucket);
    FirstBinAlone(ticks, bucket);
    assert bars == [Single(t, k)] + rest;
    assert InBucket(ticks, bucket, k) == [t] + [];
    assert Folded(ticks, bucket, bars[0]);
    forall i | 1 <= i < |bars|
      ensures Folded(ticks, bucket, bars[i])
    {
      assert bars[i] == rest[i - 1];
      assert Folded(tail, bucket, rest[i - 1]);
      assert rest[i - 1].bin != k;
      FoldedTail(ticks, bucket, rest[i - 1]);
    }
  }

  /** When the first tick does not join the first bar of the rest, no later
      tick shares its bin. */
  lemma {:induction false} FirstBinAlone(ticks: seq<Tick>, bucket: int -> int)
    requires |ticks| > 0 && KeysOrdered(ticks, bucket)
    requires var rest := Resample(ticks[1..], bucket);
      !(|rest| > 0 && rest[0].bin == bucket(ticks[0].time))
    ensures InBucket(ticks[1..], bucket, bucket(ticks[0].time)) == []
  {
    var tail := ticks[1..];
    var k := bucket(ticks[0].time);
    if |tail| > 0 {
      assert bucket(tail[0].time) != k;
      assert forall i :: 0 <= i < |tail| ==> k <= bucket(tail[0].time) <= bucket(tail[i].time);
    }
    InBucketNone(tail, bucket, k);
  }

  /** Bars turned back into ticks at their own labels. */
  function AsTicks(bars: seq<Bar>): (ticks: seq<Tick>)
    ensures |ticks| == |bars|
  {
    seq(|bars|, i requires 0 <= i < |bars| =>
      Tick(bars[i].bin, bars[i].open, bars[i].high, bars[i].low, bars[i].close, bars[i].volume))
  }

  /** With strictly increasing labels every tick is a bin of its own. */
  lemma {:induction false} ResampleSingletons(ticks: seq<Tick>, bucket: int -> int)
    requires forall i, j :: 0 <= i < j < |ticks| ==> bucket(ticks[i].time) < bucket(ticks[j].time)
    ensures Resample(ticks, bucket) == seq(|ticks|, i requires 0 <= i < |ticks| => Single(ticks[i], bucket(ticks[i].time)))
  {
    if |ticks| > 0 {
      ResampleSingletons(ticks[1..], bucket);
    }
  }

  /** Resampling is idempotent: resampling the bars again, at the same rule,
      changes nothing, provided a bin's label falls in that bin. */
  lemma ResampleIdempotent(ticks: seq<Tick>, bucket: int -> int)
    requires KeysOrdered(ticks, bucket)
    requires forall i :: 0 <= i < |ticks| ==> bucket(bucket(ticks[i].time)) == bucket(ticks[i].time)
    ensures Resample(AsTicks(Resample(ticks, bucket)), bucket) == Resample(ticks, bucket)
  {
    var bars := Resample(ticks, bucket);
    var again := AsTicks(bars);
    ResampleAscending(ticks, bucket);
    ResampleCoversKeys(ticks, bucket);
    forall i | 0 <= i < |bars|
      ensures bucket(bars[i].bin) == bars[i].bin
    {
      LabelsMember(bars, i);
      KeysMember(ticks, bucket, bars[i].bin);
    }
    ResampleSingletons(again, bucket);
  }

  lemma {:induction false} LabelsMember(bars: seq<Bar>, i: nat)
    requires i < |bars|
    ensures bars[i].bin in Labels(bars)
  {
    if i > 0 {
      LabelsMember(bars[1..], i - 1);
    }
  }

  lemma {:induction false} KeysMember(ticks: seq<Tick>, bucket: int -> int, k: int)
    requires k in Keys(ticks, bucket)
    ensures exists i :: 0 <= i < |ticks| && bucket(ticks[i].time) == k
  {
    if bucket(ticks[0].time) != k {
      KeysMember(ticks[1..], bucket, k);
      var i :| 0 <= i < |ticks[1..]| && bucket(ticks[1..][i].time) == k;
      assert ticks[i + 1] == ticks[1..][i];
    }
  }
}
