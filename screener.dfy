/** The signal columns of screener.py: the candle body ratio COR, the volume
    ratio vrate, the moving-average deviations ma20pct/ma60pct/ma200pct, and
    the candle-signal pick of one date. */
module Screener {
  import opened Wrappers
  import opened Numeric
  import opened Seqs
  import opened Market

  /** Window of the volume mean in `vrate`. */
  const VolumeWindow: nat := 60
  /** `df_vrate > 8` */
  const VrateThreshold: real := 8.0
  /** `df_cor > 0.03` */
  const CorThreshold: real := 0.03
  /** `[:30]` */
  const MaxPicks: nat := 30

  function Volumes(bars: seq<Bar>): (r: seq<real>)
    ensures |r| == |bars| && forall i :: 0 <= i < |bars| ==> r[i] == bars[i].volume
  {
    seq(|bars|, i requires 0 <= i < |bars| => bars[i].volume)
  }

  function Closes(bars: seq<Bar>): (r: seq<real>)
    ensures |r| == |bars| && forall i :: 0 <= i < |bars| ==> r[i] == bars[i].close
  {
    seq(|bars|, i requires 0 <= i < |bars| => bars[i].close)
  }

  /** `xs.rolling(n).mean()` at row `i`: the mean of the `n` values ending at
      row `i`, NaN while fewer than `n` rows exist. */
  function RollingMean(xs: seq<real>, i: nat, n: nat): (r: Value)
    requires i < |xs| && n > 0
    ensures r.NaN? <==> i + 1 < n
    ensures r.Finite? ==> r.x * (n as real) == Sum(xs[i + 1 - n .. i + 1])
    ensures r.NaN? || r.Finite?
  {
    if i + 1 < n then NaN else Finite(Mean(xs[i + 1 - n .. i + 1]))
  }

  /** `a / m` for a finite `a` and a possibly undefined `m`. */
  function Over(a: real, m: Value): Value
  {
    if m.Finite? then Div(a, m.x) else NaN
  }

  /** `(x - m) / m` for a possibly undefined `m`. */
  function Deviation(x: real, m: Value): Value
  {
    if m.Finite? then Div(x - m.x, m.x) else NaN
  }

  /** The two columns `set_signal` adds. */
  datatype SignalColumns = SignalColumns(cor: seq<Value>, vrate: seq<Value>)

  /** `set_signal`: COR = (Close - Open) / Open and vrate = Volume divided by
      the mean of the last 60 volumes. */
  function SetSignal(bars: seq<Bar>): (r: SignalColumns)
    ensures |r.cor| == |bars| && |r.vrate| == |bars|
  {
    var volumes := Volumes(bars);
    SignalColumns(
      seq(|bars|, i requires 0 <= i < |bars| => Div(bars[i].close - bars[i].open, bars[i].open)),
      seq(|bars|, i requires 0 <= i < |bars| => Over(bars[i].volume, RollingMean(volumes, i, VolumeWindow))))
  }

  /** The three columns `set_moving_average` adds. */
  datatype MaColumns = MaColumns(ma20pct: seq<Value>, ma60pct: seq<Value>, ma200pct: seq<Value>)

  /** One `ma{n}pct` column: (Close - ma) / ma with ma the rolling mean of n closes. */
  function MaPct(bars: seq<Bar>, n: nat): (r: seq<Value>)
    requires n > 0
    ensures |r| == |bars|
  {
    var closes := Closes(bars);
    seq(|bars|, i requires 0 <= i < |bars| => Deviation(bars[i].close, RollingMean(closes, i, n)))
  }

  /** `set_moving_average`: the loop over the windows 20, 60 and 200. */
  function SetMovingAverage(bars: seq<Bar>): (r: MaColumns)
    ensures |r.ma20pct| == |r.ma60pct| == |r.ma200pct| == |bars|
    ensures r.ma20pct == MaPct(bars, 20) && r.ma60pct == MaPct(bars, 60) && r.ma200pct == MaPct(bars, 200)
  {
    MaColumns(MaPct(bars, 20), MaPct(bars, 60), MaPct(bars, 200))
  }

  /** COR is the body of the candle relative to its open; vrate is undefined
      on the first 59 rows and afterwards is the volume relative to the mean
      of the 60 volumes ending at that row. */
  lemma SetSignalColumns(bars: seq<Bar>, i: nat)
    requires i < |bars|
    ensures var r := SetSignal(bars);
      && (bars[i].open != 0.0 ==> r.cor[i] == Finite((bars[i].close - bars[i].open) / bars[i].open))
      && (i < VolumeWindow - 1 ==> r.vrate[i] == NaN)
      && (i >= VolumeWindow - 1 ==>
            var m := Mean(Volumes(bars)[i + 1 - VolumeWindow .. i + 1]);
            m != 0.0 ==> r.vrate[i] == Finite(bars[i].volume / m))
  {
  }

  /** Scaling numerator and denominator by the same non-zero factor leaves a
      ratio unchanged. */
  lemma RatioScale(v: real, m: real, c: real)
    requires c != 0.0 && m != 0.0
    ensures (c * v) / (c * m) == v / m
  {
    calc {
      (c * v) / (c * m);
      { assert c * v == (v / m) * (c * m); }
      v / m;
    }
  }

  /** vrate on row `i` is unchanged when every volume is scaled by `c > 0`. */
  lemma VrateScaleAt(bars: seq<Bar>, scaled: seq<Bar>, c: real, i: nat)
    requires c > 0.0 && |scaled| == |bars| && i < |bars|
    requires forall k :: 0 <= k < |bars| ==> scaled[k].volume == c * bars[k].volume
    ensures SetSignal(scaled).vrate[i] == SetSignal(bars).vrate[i]
  {
    if i + 1 >= VolumeWindow {
      var v, w := Volumes(bars), Volumes(scaled);
      var lo := i + 1 - VolumeWindow;
      SumScale(v[lo .. i + 1], w[lo .. i + 1], c);
      var m := Mean(v[lo .. i + 1]);
      assert Mean(w[lo .. i + 1]) == c * m;
      if m != 0.0 {
        RatioScale(bars[i].volume, m, c);
      }
    }
  }

  /** vrate does not depend on the unit of volume: scaling every volume by a
      positive factor leaves the column unchanged. */
  lemma VrateScaleInvariant(bars: seq<Bar>, scaled: seq<Bar>, c: real)
    requires c > 0.0 && |scaled| == |bars|
    requires forall i :: 0 <= i < |bars| ==> scaled[i].volume == c * bars[i].volume
    ensures SetSignal(scaled).vrate == SetSignal(bars).vrate
  {
    forall i | 0 <= i < |bars| ensures SetSignal(scaled).vrate[i] == SetSignal(bars).vrate[i] {
      VrateScaleAt(bars, scaled, c, i);
    }
  }

  /** ma{n}pct on row i: NaN while fewer than n rows exist, afterwards the
      deviation of the close from the mean of the n closes ending at row i
      (for a non-zero mean). */
  lemma MaPctColumns(bars: seq<Bar>, n: nat, i: nat)
    requires n > 0 && i < |bars|
    ensures i + 1 < n ==> MaPct(bars, n)[i] == NaN
    ensures i + 1 >= n ==> var ma := Mean(Closes(bars)[i + 1 - n .. i + 1]);
      ma != 0.0 ==> MaPct(bars, n)[i] == Finite((bars[i].close - ma) / ma)
  {
  }

  /** A defined ma{n}pct is above zero exactly when the close is above its
      moving average (for a positive average). */
  lemma MaPctSign(bars: seq<Bar>, n: nat, i: nat)
    requires n > 0 && i < |bars| && i + 1 >= n
    requires Mean(Closes(bars)[i + 1 - n .. i + 1]) > 0.0
    ensures var ma := Mean(Closes(bars)[i + 1 - n .. i + 1]);
      MaPct(bars, n)[i].Finite? && (MaPct(bars, n)[i].x > 0.0 <==> bars[i].close > ma)
  {
  }

  /** On a flat stretch of positive closes the deviation from every full
      moving average is zero, and before the window fills it is NaN. */
  lemma {:induction false} MaPctFlat(bars: seq<Bar>, n: nat, c: real, i: nat)
    requires n > 0 && c > 0.0 && i < |bars|
    requires forall k :: 0 <= k < |bars| ==> bars[k].close == c
    ensures i + 1 < n ==> MaPct(bars, n)[i] == NaN
    ensures i + 1 >= n ==> MaPct(bars, n)[i] == Finite(0.0)
  {
    if i + 1 >= n {
      var w := Closes(bars)[i + 1 - n .. i + 1];
      SumConstant(w, c);
      assert Mean(w) == c;
    }
  }

  /** The tickers of one date with vrate > 8 and COR > 0.03. */
  function Picks(dfCor: map<string, Value>, dfVrate: map<string, Value>): set<string>
  {
    set t | t in dfVrate && t in dfCor && Gt(dfVrate[t], VrateThreshold) && Gt(dfCor[t], CorThreshold)
  }

  /** `identify_candle_signal` on the COR and vrate rows of one date. The
      iteration order of the Python set is an input (`setOrder`), since string
      hashing is salted per process. `None` is the function returning
      nothing. */
  function IdentifyCandleSignal(dfCor: map<string, Value>, dfVrate: map<string, Value>, setOrder: seq<string>)
    : (r: Option<seq<string>>)
    requires forall t :: t in dfVrate && Gt(dfVrate[t], VrateThreshold) ==> t in dfCor
    requires NoDup(setOrder)
    requires forall t :: t in Picks(dfCor, dfVrate) ==> t in setOrder
    ensures r.None? <==> Picks(dfCor, dfVrate) == {}
    ensures r.Some? ==>
      && NoDup(r.value)
      && (forall t :: t in r.value ==> t in Picks(dfCor, dfVrate))
      && |r.value| == (if |Picks(dfCor, dfVrate)| < MaxPicks then |Picks(dfCor, dfVrate)| else MaxPicks)
      && (|Picks(dfCor, dfVrate)| <= MaxPicks ==> forall t :: t in Picks(dfCor, dfVrate) ==> t in r.value)
  {
    var tickers1 := set t | t in dfVrate && Gt(dfVrate[t], VrateThreshold);
    if |tickers1| == 0 then None
    else
      var tickers2 := set t | t in tickers1 && Gt(dfCor[t], CorThreshold);
      if |tickers2| == 0 then
        assert Picks(dfCor, dfVrate) <= tickers2 == {};
        None
      else
        var both := tickers1 * tickers2;
        assert both == Picks(dfCor, dfVrate);
        assert both != {} by {
          var w :| w in tickers2;
          assert w in both;
        }
        var listed := ListIn(setOrder, both);
        ListInCardinality(setOrder, both);
        var picked := if |listed| <= MaxPicks then listed else listed[..MaxPicks];
        assert forall t :: t in picked ==> t in listed;
        Some(picked)
  }
}
