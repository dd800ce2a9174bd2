/** The screening loop of kjs_trade.py's main block: for every date of the
    mapct table, the tickers with mapct < 0, vrate > 8 and cor > 0.03 on that
    date become signals. */
module SignalFilter {
  import opened Wrappers
  import opened Numeric
  import Backtest

  const MapctThreshold: real := 0.0
  const VrateThreshold: real := 8.0
  const CorThreshold: real := 0.03

  /** One date's row of a screener table: ticker to value. */
  type ScreenRow = map<string, Value>

  /** A screener table: date to row. */
  type ScreenTable = map<int, ScreenRow>

  /** `vrate_screener.loc[date]` or `cor_screener.loc[date]` raising KeyError. */
  datatype Missing = MissingVrate(day: int) | MissingCor(day: int)

  /** A ticker passes all three thresholds on a date. */
  predicate Qualifies(t: string, mapct: ScreenRow, vrate: ScreenRow, cor: ScreenRow)
  {
    && t in mapct && t in vrate && t in cor
    && Lt(mapct[t], MapctThreshold) && Gt(vrate[t], VrateThreshold) && Gt(cor[t], CorThreshold)
  }

  /** The signal of a qualifying ticker: [date, ticker, cor, vrate, mapct]. */
  function SignalOf(day: int, t: string, mapct: ScreenRow, vrate: ScreenRow, cor: ScreenRow): Backtest.Signal
    requires Qualifies(t, mapct, vrate, cor)
  {
    Backtest.Signal(day, t, cor[t], vrate[t], mapct[t])
  }

  /** The body of `for date, mapct in mapct_screener.iterrows()`: the three
      threshold sets, each empty set ending the date early, then their
      intersection. */
  function ScreenDate(day: int, mapct: ScreenRow, vrateTable: ScreenTable, corTable: ScreenTable)
    : (r: Result<set<Backtest.Signal>, Missing>)
    ensures r.Err? <==>
      && (exists t :: t in mapct && Lt(mapct[t], MapctThreshold))
      && (day !in vrateTable
          || ((exists t :: t in vrateTable[day] && Gt(vrateTable[day][t], VrateThreshold)) && day !in corTable))
    ensures r.Ok? && day in vrateTable && day in corTable ==>
      forall s :: s in r.value <==>
        Qualifies(s.ticker, mapct, vrateTable[day], corTable[day])
        && s == SignalOf(day, s.ticker, mapct, vrateTable[day], corTable[day])
    ensures r.Ok? && (day !in vrateTable || day !in corTable) ==> r.value == {}
  {
    var ticker1 := set t | t in mapct && Lt(mapct[t], MapctThreshold);
    if |ticker1| == 0 then
      assert forall t :: t in mapct && Lt(mapct[t], MapctThreshold) ==> t in ticker1;
      Ok({})
    else if day !in vrateTable then
      assert exists t :: t in mapct && Lt(mapct[t], MapctThreshold) by { var w :| w in ticker1; }
      Err(MissingVrate(day))
    else
      var vrate := vrateTable[day];
      var ticker2 := set t | t in vrate && Gt(vrate[t], VrateThreshold);
      if |ticker2| == 0 then
        assert forall t :: t in vrate && Gt(vrate[t], VrateThreshold) ==> t in ticker2;
        Ok({})
      else if day !in corTable then
        assert exists t :: t in mapct && Lt(mapct[t], MapctThreshold) by { var w :| w in ticker1; }
        assert exists t :: t in vrate && Gt(vrate[t], VrateThreshold) by { var u :| u in ticker2; }
        Err(MissingCor(day))
      else
        var cor := corTable[day];
        var ticker3 := set t | t in cor && Gt(cor[t], CorThreshold);
        if |ticker3| == 0 then
          assert forall t :: Qualifies(t, mapct, vrate, cor) ==> t in ticker3;
          Ok({})
        else
          assert exists t :: t in mapct && Lt(mapct[t], MapctThreshold) by { var w :| w in ticker1; }
          var tickers := ticker1 * ticker2 * ticker3;
          Ok(set t | t in tickers :: SignalOf(day, t, mapct, vrate, cor))
  }

  /** The union of the signals of several dates, or the first error. */
  function Collect(days: seq<Result<set<Backtest.Signal>, Missing>>): (r: Result<set<Backtest.Signal>, Missing>)
    ensures r.Err? <==> exists k :: 0 <= k < |days| && days[k].Err?
    ensures r.Err? ==> exists k :: 0 <= k < |days| && r == days[k] && forall j :: 0 <= j < k ==> days[j].Ok?
    ensures r.Ok? ==> forall k :: 0 <= k < |days| ==> days[k].value <= r.value
    ensures r.Ok? ==> forall s :: s in r.value ==> exists k :: 0 <= k < |days| && s in days[k].value
  {
    if days == [] then Ok({})
    else
      var rest := Collect(days[1..]);
      assert forall k :: 1 <= k < |days| ==> days[k] == days[1..][k - 1];
      match days[0]
      case Err(e) => Err(e)
      case Ok(first) =>
        match rest
        case Err(e) =>
          assert exists k :: 0 <= k < |days| && rest == days[k] && forall j :: 0 <= j < k ==> days[j].Ok? by {
            var k :| 0 <= k < |days[1..]| && rest == days[1..][k] && forall j :: 0 <= j < k ==> days[1..][j].Ok?;
            assert rest == days[k + 1];
          }
          Err(e)
        case Ok(later) =>
          assert forall s :: s in later ==> (exists k :: 1 <= k < |days| && s in days[k].value) by {
            forall s | s in later ensures exists k :: 1 <= k < |days| && s in days[k].value {
              var j :| 0 <= j < |days[1..]| && s in days[1..][j].value;
              assert days[1..][j] == days[j + 1];
            }
          }
          Ok(first + later)
  }

  /** The whole loop over the rows of the mapct table, in table order: the
      signals of all dates together (`contents`), or the first KeyError. */
  function Screen(mapctRows: seq<(int, ScreenRow)>, vrateTable: ScreenTable, corTable: ScreenTable)
    : Result<set<Backtest.Signal>, Missing>
  {
    Collect(seq(|mapctRows|, k requires 0 <= k < |mapctRows| =>
      ScreenDate(mapctRows[k].0, mapctRows[k].1, vrateTable, corTable)))
  }

  /** Each element of the list `Screen` collects is that date's result. */
  lemma ScreenDays(mapctRows: seq<(int, ScreenRow)>, vrateTable: ScreenTable, corTable: ScreenTable)
    ensures var r := Screen(mapctRows, vrateTable, corTable);
      && (r.Err? <==> exists k :: 0 <= k < |mapctRows| && ScreenDate(mapctRows[k].0, mapctRows[k].1, vrateTable, corTable).Err?)
      && (r.Ok? ==> forall s :: s in r.value ==>
            (exists k :: 0 <= k < |mapctRows| &&
               ScreenDate(mapctRows[k].0, mapctRows[k].1, vrateTable, corTable).Ok? &&
               s in ScreenDate(mapctRows[k].0, mapctRows[k].1, vrateTable, corTable).value))
      && (r.Ok? ==> forall k :: 0 <= k < |mapctRows| ==>
                      ScreenDate(mapctRows[k].0, mapctRows[k].1, vrateTable, corTable).Ok? &&
                      ScreenDate(mapctRows[k].0, mapctRows[k].1, vrateTable, corTable).value <= r.value)
  {
    var days := seq(|mapctRows|, k requires 0 <= k < |mapctRows| =>
      ScreenDate(mapctRows[k].0, mapctRows[k].1, vrateTable, corTable));
    assert forall k :: 0 <= k < |mapctRows| ==> days[k] == ScreenDate(mapctRows[k].0, mapctRows[k].1, vrateTable, corTable);
  }

  /** Every signal of a screening run passes the three thresholds on its
      date and carries that date's values. */
  lemma ScreenSound(mapctRows: seq<(int, ScreenRow)>, vrateTable: ScreenTable, corTable: ScreenTable,
                    s: Backtest.Signal)
    requires Screen(mapctRows, vrateTable, corTable).Ok?
    requires s in Screen(mapctRows, vrateTable, corTable).value
    ensures s.day in vrateTable && s.day in corTable
    ensures exists k :: 0 <= k < |mapctRows| && mapctRows[k].0 == s.day
                 && Qualifies(s.ticker, mapctRows[k].1, vrateTable[s.day], corTable[s.day])
                 && s == SignalOf(s.day, s.ticker, mapctRows[k].1, vrateTable[s.day], corTable[s.day])
  {
    ScreenDays(mapctRows, vrateTable, corTable);
    var k :| 0 <= k < |mapctRows| && ScreenDate(mapctRows[k].0, mapctRows[k].1, vrateTable, corTable).Ok?
             && s in ScreenDate(mapctRows[k].0, mapctRows[k].1, vrateTable, corTable).value;
    var day := mapctRows[k].0;
    assert day in vrateTable && day in corTable;
  }

  /** Every ticker that passes the three thresholds on a date of the table
      yields a signal. */
  lemma ScreenComplete(mapctRows: seq<(int, ScreenRow)>, vrateTable: ScreenTable, corTable: ScreenTable,
                       k: nat, t: string)
    requires Screen(mapctRows, vrateTable, corTable).Ok?
    requires k < |mapctRows| && mapctRows[k].0 in vrateTable && mapctRows[k].0 in corTable
    requires Qualifies(t, mapctRows[k].1, vrateTable[mapctRows[k].0], corTable[mapctRows[k].0])
    ensures SignalOf(mapctRows[k].0, t, mapctRows[k].1, vrateTable[mapctRows[k].0], corTable[mapctRows[k].0])
              in Screen(mapctRows, vrateTable, corTable).value
  {
    ScreenDays(mapctRows, vrateTable, corTable);
  }
}
