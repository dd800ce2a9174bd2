/** `run_backtest` of kjs_trade.py: signals are taken date by date in
    ascending order; a signal whose ticker is not held, has a price table and
    finds fewer than 200 tickers held opens a position at that day's close,
    appends one ledger row, and the position is then simulated to its end over
    the later bars before the next signal is looked at. */
module Backtest {
  import opened Wrappers
  import opened Numeric
  import opened Market
  import opened Strategy
  import opened Position
  import opened Seqs

  /** At most this many tickers are held (`len(hold_list) < 200`). */
  const Capacity: nat := 200

  /** One row of the screener table: (Date, ticker, cor, vrate, mapct). */
  datatype Signal = Signal(day: int, ticker: string, cor: Value, vrate: Value, mapct: Value)

  /** A row of a fundamentals table: column name to value (`None` is NaN). */
  type FundRow = map<string, Option<real>>

  /** The fundamentals table of one date, indexed by local symbol (티커). */
  datatype FundTable = FundTable(columns: set<string>, rows: map<string, FundRow>)

  /** A ledger row (one dict of `results`). */
  datatype Row = Row(
    ticker: string,
    buyDate: int,
    buyPrice: real,
    sellDate: Option<int>,
    sellPrice: Option<real>,
    profitPct: Option<real>,
    cor: Value,
    vrate: Value,
    mapct: Value,
    order: nat,
    turnover: real,
    mcap: real,
    duration: Option<int>,
    fundamental: FundRow
  )

  /** The two lists `run_backtest` mutates. */
  datatype Ledger = Ledger(hold: seq<string>, rows: seq<Row>)

  /** The exceptions that abort a run. */
  datatype Error =
    | MissingFundamentals(day: int)            // no fundamentals table for a date
    | MissingEntryBar(ticker: string, day: int) // `prices.loc[date]` raises KeyError

  /** `dfs`: ticker to price table. */
  type Prices = map<string, seq<Bar>>

  predicate ValidPrices(dfs: Prices)
  {
    forall t :: t in dfs ==> ValidSeries(dfs[t])
  }

  /** `ticker.split('.')[0]`: the part of the ticker before the first dot. */
  function Symbol(ticker: string): (r: string)
    ensures r <= ticker
    ensures '.' !in r
    ensures |r| < |ticker| ==> ticker[|r|] == '.'
  {
    if ticker == [] || ticker[0] == '.' then [] else [ticker[0]] + Symbol(ticker[1..])
  }

  /** The fundamentals of a symbol, or a row of NaNs over the table's columns
      when the symbol is not in the table. */
  function Fundamental(table: FundTable, symbol: string): (r: FundRow)
    ensures symbol in table.rows ==> r == table.rows[symbol]
    ensures symbol !in table.rows ==> r.Keys == table.columns && forall c :: c in r ==> r[c] == None
  {
    if symbol in table.rows then table.rows[symbol] else map c | c in table.columns :: None
  }

  /** `list.remove`: drop the first occurrence of `x`. */
  function RemoveFirst(s: seq<string>, x: string): (r: seq<string>)
    requires x in s
    ensures |r| == |s| - 1 && multiset(r) == multiset(s) - multiset{x}
  {
    assert s == [s[0]] + s[1..];
    if s[0] == x then s[1..] else [s[0]] + RemoveFirst(s[1..], x)
  }

  /** Removing a just-appended element that was not there before restores the list. */
  lemma {:induction false} RemoveFirstAppended(s: seq<string>, x: string)
    requires x !in s
    ensures RemoveFirst(s + [x], x) == s
  {
    if s != [] {
      assert (s + [x])[1..] == s[1..] + [x];
      RemoveFirstAppended(s[1..], x);
    }
  }

  /** All four exit fields unset. */
  predicate ExitOpen(row: Row)
  {
    row.sellDate.None? && row.sellPrice.None? && row.profitPct.None? && row.duration.None?
  }

  /** All four exit fields set. */
  predicate ExitClosed(row: Row)
  {
    row.sellDate.Some? && row.sellPrice.Some? && row.profitPct.Some? && row.duration.Some?
  }

  /** The tickers of the rows still open, in ledger order. */
  function OpenTickers(rows: seq<Row>): seq<string>
  {
    if rows == [] then []
    else
      var last := rows[|rows| - 1];
      OpenTickers(rows[..|rows| - 1]) + (if ExitOpen(last) then [last.ticker] else [])
  }

  /** A ticker is among the open tickers iff some open row has it. */
  lemma {:induction false} OpenTickersMembers(rows: seq<Row>, t: string)
    ensures t in OpenTickers(rows) <==> exists i :: 0 <= i < |rows| && ExitOpen(rows[i]) && rows[i].ticker == t
  {
    if rows != [] {
      var init := rows[..|rows| - 1];
      OpenTickersMembers(init, t);
      if t in OpenTickers(init) {
        var i :| 0 <= i < |init| && ExitOpen(init[i]) && init[i].ticker == t;
        assert rows[i] == init[i];
      }
      if exists i :: 0 <= i < |rows| && ExitOpen(rows[i]) && rows[i].ticker == t {
        var i :| 0 <= i < |rows| && ExitOpen(rows[i]) && rows[i].ticker == t;
        if i < |init| {
          assert init[i] == rows[i];
        }
      }
    }
  }

  /** Appending a row adds its ticker to the open tickers exactly when the
      row is open. */
  lemma OpenTickersAppend(rows: seq<Row>, r: Row)
    ensures OpenTickers(rows + [r]) == OpenTickers(rows) + (if ExitOpen(r) then [r.ticker] else [])
  {
    assert (rows + [r])[..|rows|] == rows;
  }

  /** The invariant of the two lists between signals: `hold_list` is exactly
      the tickers of the open rows, without duplicates and within capacity,
      and every row has its exit fields all set or all unset. */
  predicate LedgerInv(l: Ledger)
  {
    && l.hold == OpenTickers(l.rows)
    && NoDup(l.hold)
    && |l.hold| <= Capacity
    && forall i :: 0 <= i < |l.rows| ==>
         (ExitOpen(l.rows[i]) || ExitClosed(l.rows[i])) && 1 <= l.rows[i].order <= NSplit
  }

  /** The row appended when a position opens. */
  function OpenRow(sig: Signal, entry: Bar, fundamental: FundRow): (r: Row)
    ensures ExitOpen(r) && r.order == 1 && r.buyPrice == entry.close
  {
    Row(sig.ticker, sig.day, entry.close, None, None, None, sig.cor, sig.vrate, sig.mapct,
        1, entry.turnover, entry.mcap, None, fundamental)
  }

  /** The row after its forward simulation: average and order of the final
      state, and the exit fields when the position closed. */
  function Settle(row: Row, out: Outcome): (r: Row)
    ensures ExitOpen(row) ==> (ExitOpen(r) <==> out.exit.None?) && (ExitOpen(r) || ExitClosed(r))
  {
    var r := row.(buyPrice := out.pos.avg, order := out.pos.order);
    match out.exit
    case None => r
    case Some(e) =>
      r.(sellDate := Some(e.day), sellPrice := Some(e.price), profitPct := Some(e.profitPct),
         duration := Some(e.duration))
  }

  /** The three reasons to skip a signal. */
  predicate Skipped(st: Ledger, sig: Signal, dfs: Prices)
  {
    sig.ticker in st.hold || sig.ticker !in dfs || |st.hold| >= Capacity
  }

  /** The outcome of the simulation of an admitted signal. */
  function Simulated(sig: Signal, entry: Bar, prices: seq<Bar>): Outcome
    requires entry.close > 0.0
  {
    Forward(entry.close, sig.day, Opening(entry.close), After(prices, sig.day))
  }

  /** One signal: skipped with no change, aborted when the entry date is not
      in the ticker's table, or opened, simulated to its end and recorded. */
  function Admit(st: Ledger, sig: Signal, dfs: Prices, table: FundTable): (r: Result<Ledger, Error>)
    requires ValidPrices(dfs)
    ensures Skipped(st, sig, dfs) ==> r == Ok(st)
    ensures r.Err? <==> !Skipped(st, sig, dfs) && BarAt(dfs[sig.ticker], sig.day).None?
    ensures r.Ok? && !Skipped(st, sig, dfs) ==>
      && |r.value.rows| == |st.rows| + 1
      && r.value.rows[..|st.rows|] == st.rows
      && r.value.rows[|st.rows|].ticker == sig.ticker
      && r.value.rows[|st.rows|].buyDate == sig.day
      && (sig.ticker in r.value.hold <==> ExitOpen(r.value.rows[|st.rows|]))
  {
    if Skipped(st, sig, dfs) then Ok(st)
    else
      var prices := dfs[sig.ticker];
      match BarAt(prices, sig.day)
      case None => Err(MissingEntryBar(sig.ticker, sig.day))
      case Some(entry) =>
        var out := Simulated(sig, entry, prices);
        var row := Settle(OpenRow(sig, entry, Fundamental(table, Symbol(sig.ticker))), out);
        var hold := st.hold + [sig.ticker];
        RemoveFirstAppended(st.hold, sig.ticker);
        Ok(Ledger(if out.exit.Some? then RemoveFirst(hold, sig.ticker) else hold, st.rows + [row]))
  }

  /** A row after its simulation: the buy price is the mean of the rungs
      bought, the exit fields are all set exactly when the position closed,
      and a closed row's profit and duration are measured from that average
      and the entry date. */
  lemma SettledRow(row: Row, first: real, bars: seq<Bar>)
    requires first > 0.0 && ExitOpen(row)
    requires forall b :: b in bars ==> b.day > row.buyDate
    ensures var out := Forward(first, row.buyDate, Opening(first), bars);
      var r := Settle(row, out);
      && (ExitOpen(r) <==> out.exit.None?)
      && (ExitOpen(r) || ExitClosed(r))
      && 1 <= r.order <= NSplit
      && r.buyPrice == AveragePrice(first, r.order)
      && (ExitClosed(r) ==>
            && r.sellDate.value > r.buyDate
            && r.duration.value == r.sellDate.value - r.buyDate
            && r.profitPct.value == (r.sellPrice.value - r.buyPrice) / r.buyPrice
            && (r.sellPrice.value == SellPoint(r.buyPrice) ==> r.profitPct.value == 0.1))
  {
    var out := Forward(first, row.buyDate, Opening(first), bars);
    if out.exit.Some? {
      ForwardExit(first, row.buyDate, Opening(first), bars);
      var i :| 0 <= i < |bars| && bars[i].day == out.exit.value.day;
      assert bars[i] in bars;
    }
  }

  /** The row of an admitted signal: its entry fields come from the signal and
      the entry bar, and it is settled as `SettledRow` describes. */
  lemma AdmitRow(st: Ledger, sig: Signal, dfs: Prices, table: FundTable)
    requires ValidPrices(dfs)
    requires !Skipped(st, sig, dfs) && Admit(st, sig, dfs, table).Ok?
    ensures var row := Admit(st, sig, dfs, table).value.rows[|st.rows|];
      var entry := BarAt(dfs[sig.ticker], sig.day).value;
      && RowSignal(row) == sig
      && row.turnover == entry.turnover && row.mcap == entry.mcap
      && row.fundamental == Fundamental(table, Symbol(sig.ticker))
      && 1 <= row.order <= NSplit
      && row.buyPrice == AveragePrice(entry.close, row.order)
      && (ExitOpen(row) <==> Simulated(sig, entry, dfs[sig.ticker]).exit.None?)
      && (ExitOpen(row) || ExitClosed(row))
      && (ExitClosed(row) ==>
            && row.sellDate.value > row.buyDate
            && row.duration.value == row.sellDate.value - row.buyDate
            && row.profitPct.value == (row.sellPrice.value - row.buyPrice) / row.buyPrice
            && (row.sellPrice.value == SellPoint(row.buyPrice) ==> row.profitPct.value == 0.1))
  {
    var prices := dfs[sig.ticker];
    var entry := BarAt(prices, sig.day).value;
    AdmitAppended(st, sig, dfs, table);
    OpenedRow(sig, entry, prices, table);
  }

  /** The opening row of a signal, settled by its simulation: the facts
      `AdmitRow` states, for a given entry bar and price table. */
  lemma OpenedRow(sig: Signal, entry: Bar, prices: seq<Bar>, table: FundTable)
    requires entry.close > 0.0
    ensures var row := Settle(OpenRow(sig, entry, Fundamental(table, Symbol(sig.ticker))), Simulated(sig, entry, prices));
      && RowSignal(row) == sig
      && row.turnover == entry.turnover && row.mcap == entry.mcap
      && row.fundamental == Fundamental(table, Symbol(sig.ticker))
      && 1 <= row.order <= NSplit
      && row.buyPrice == AveragePrice(entry.close, row.order)
      && (ExitOpen(row) <==> Simulated(sig, entry, prices).exit.None?)
      && (ExitOpen(row) || ExitClosed(row))
      && (ExitClosed(row) ==>
            && row.sellDate.value > row.buyDate
            && row.duration.value == row.sellDate.value - row.buyDate
            && row.profitPct.value == (row.sellPrice.value - row.buyPrice) / row.buyPrice
            && (row.sellPrice.value == SellPoint(row.buyPrice) ==> row.profitPct.value == 0.1))
  {
    SettledRow(OpenRow(sig, entry, Fundamental(table, Symbol(sig.ticker))), entry.close, After(prices, sig.day));
  }

  /** The row `Admit` appends is the opening row settled by the simulation. */
  lemma AdmitAppended(st: Ledger, sig: Signal, dfs: Prices, table: FundTable)
    requires ValidPrices(dfs)
    requires !Skipped(st, sig, dfs) && Admit(st, sig, dfs, table).Ok?
    ensures var entry := BarAt(dfs[sig.ticker], sig.day).value;
      Admit(st, sig, dfs, table).value.rows[|st.rows|]
        == Settle(OpenRow(sig, entry, Fundamental(table, Symbol(sig.ticker))), Simulated(sig, entry, dfs[sig.ticker]))
  {
  }

  /** Appending a settled row for a ticker not held, with the hold list
      extended exactly when the row stays open, keeps the ledger invariant. */
  lemma LedgerAppend(st: Ledger, row: Row, hold: seq<string>)
    requires LedgerInv(st) && row.ticker !in st.hold && |st.hold| < Capacity
    requires (ExitOpen(row) || ExitClosed(row)) && 1 <= row.order <= NSplit
    requires hold == if ExitOpen(row) then st.hold + [row.ticker] else st.hold
    ensures LedgerInv(Ledger(hold, st.rows + [row]))
  {
    OpenTickersAppend(st.rows, row);
    var rows := st.rows + [row];
    assert forall i :: 0 <= i < |st.rows| ==> rows[i] == st.rows[i];
  }

  /** Admitting a signal keeps the ledger invariant. */
  lemma AdmitKeepsInv(st: Ledger, sig: Signal, dfs: Prices, table: FundTable)
    requires ValidPrices(dfs) && LedgerInv(st)
    requires Admit(st, sig, dfs, table).Ok?
    ensures LedgerInv(Admit(st, sig, dfs, table).value)
  {
    if !Skipped(st, sig, dfs) {
      var l := Admit(st, sig, dfs, table).value;
      var row := l.rows[|st.rows|];
      AdmitRow(st, sig, dfs, table);
      assert l.rows == st.rows + [row];
      RemoveFirstAppended(st.hold, sig.ticker);
      assert l.hold == if ExitOpen(row) then st.hold + [row.ticker] else st.hold;
      LedgerAppend(st, row, l.hold);
    }
  }

  /** The signals of one date, in table order (one `groupby` group). */
  function OnDay(signals: seq<Signal>, day: int): (r: seq<Signal>)
    ensures forall s :: s in r <==> s in signals && s.day == day
  {
    if signals == [] then []
    else (if signals[0].day == day then [signals[0]] else []) + OnDay(signals[1..], day)
  }

  /** The signals not on a date. */
  function Without(signals: seq<Signal>, day: int): (r: seq<Signal>)
    ensures forall s :: s in r <==> s in signals && s.day != day
    ensures |r| <= |signals|
    ensures (exists i :: 0 <= i < |signals| && signals[i].day == day) ==> |r| < |signals|
  {
    if signals == [] then []
    else
      var rest := Without(signals[1..], day);
      if signals[0].day == day then rest
      else
        assert forall i :: 1 <= i < |signals| ==> signals[i] == signals[1..][i - 1];
        [signals[0]] + rest
  }

  /** The earliest date of a non-empty signal table. */
  function MinDay(signals: seq<Signal>): (d: int)
    requires |signals| > 0
    ensures exists i :: 0 <= i < |signals| && signals[i].day == d
    ensures forall s :: s in signals ==> d <= s.day
  {
    if |signals| == 1 then signals[0].day
    else
      var m := MinDay(signals[1..]);
      assert forall i :: 1 <= i < |signals| ==> signals[i] == signals[1..][i - 1];
      if signals[0].day <= m then signals[0].day else m
  }

  /** The `groupby('Date')` keys: the dates of the signals, ascending, each once. */
  function Days(signals: seq<Signal>): (r: seq<int>)
    ensures forall i, j :: 0 <= i < j < |r| ==> r[i] < r[j]
    ensures forall d :: d in r <==> exists s :: s in signals && s.day == d
    decreases |signals|
  {
    if signals == [] then []
    else
      var m := MinDay(signals);
      var rest := Without(signals, m);
      var later := Days(rest);
      assert forall k :: 0 <= k < |later| ==> later[k] > m by {
        forall k | 0 <= k < |later| ensures later[k] > m {
          assert later[k] in later;
        }
      }
      [m] + later
  }

  /** The signals of one date, in order. */
  function ProcessSignals(st: Ledger, group: seq<Signal>, dfs: Prices, table: FundTable): (r: Result<Ledger, Error>)
    requires ValidPrices(dfs)
    ensures r.Ok? ==> |st.rows| <= |r.value.rows| && r.value.rows[..|st.rows|] == st.rows
    decreases |group|
  {
    if group == [] then Ok(st)
    else
      match Admit(st, group[0], dfs, table)
      case Err(e) => Err(e)
      case Ok(next) => ProcessSignals(next, group[1..], dfs, table)
  }

  /** The dates in order: each reads its fundamentals table (absent: abort)
      and then processes its signals. */
  function RunDays(st: Ledger, days: seq<int>, signals: seq<Signal>, dfs: Prices,
                   funds: map<int, FundTable>): (r: Result<Ledger, Error>)
    requires ValidPrices(dfs)
    ensures r.Ok? ==> forall d :: d in days ==> d in funds
    ensures r.Ok? ==> |st.rows| <= |r.value.rows| && r.value.rows[..|st.rows|] == st.rows
    decreases |days|
  {
    if days == [] then Ok(st)
    else if days[0] !in funds then Err(MissingFundamentals(days[0]))
    else
      match ProcessSignals(st, OnDay(signals, days[0]), dfs, funds[days[0]])
      case Err(e) => Err(e)
      case Ok(next) => RunDays(next, days[1..], signals, dfs, funds)
  }

  /** The whole back test, from empty lists. */
  function RunSpec(signals: seq<Signal>, dfs: Prices, funds: map<int, FundTable>): (r: Result<Ledger, Error>)
    requires ValidPrices(dfs)
    ensures r.Ok? ==> forall s :: s in signals ==> s.day in funds
  {
    RunDays(Ledger([], []), Days(signals), signals, dfs, funds)
  }

  /** The signal a row was opened from. */
  function RowSignal(row: Row): Signal
  {
    Signal(row.buyDate, row.ticker, row.cor, row.vrate, row.mapct)
  }

  /** What holds of the ledger at every point of a run over `signals`. */
  predicate Good(l: Ledger, signals: seq<Signal>)
  {
    && LedgerInv(l)
    && (forall i :: 0 <= i < |l.rows| ==> RowSignal(l.rows[i]) in signals)
    && (forall i, j :: 0 <= i < j < |l.rows| ==> l.rows[i].buyDate <= l.rows[j].buyDate)
  }

  /** Processing the signals of date `day` keeps `Good`, only appends rows,
      and every row is dated no later than `day`. */
  lemma {:induction false} ProcessSignalsKeeps(st: Ledger, group: seq<Signal>, dfs: Prices, table: FundTable,
                                               signals: seq<Signal>, day: int)
    requires ValidPrices(dfs) && Good(st, signals)
    requires forall i :: 0 <= i < |st.rows| ==> st.rows[i].buyDate <= day
    requires forall s :: s in group ==> s in signals && s.day == day
    requires ProcessSignals(st, group, dfs, table).Ok?
    ensures var l := ProcessSignals(st, group, dfs, table).value;
      && Good(l, signals)
      && |st.rows| <= |l.rows| && l.rows[..|st.rows|] == st.rows
      && forall i :: 0 <= i < |l.rows| ==> l.rows[i].buyDate <= day
    decreases |group|
  {
    if group != [] {
      var sig := group[0];
      var next := Admit(st, sig, dfs, table).value;
      AdmitGood(st, sig, dfs, table, signals, day);
      assert forall s :: s in group[1..] ==> s in group;
      ProcessSignalsKeeps(next, group[1..], dfs, table, signals, day);
    }
  }

  /** Admitting one signal of date `day` keeps `Good`, only appends rows, and
      every row stays dated no later than `day`. */
  lemma AdmitGood(st: Ledger, sig: Signal, dfs: Prices, table: FundTable, signals: seq<Signal>, day: int)
    requires ValidPrices(dfs) && Good(st, signals)
    requires forall i :: 0 <= i < |st.rows| ==> st.rows[i].buyDate <= day
    requires sig in signals && sig.day == day
    requires Admit(st, sig, dfs, table).Ok?
    ensures var l := Admit(st, sig, dfs, table).value;
      && Good(l, signals)
      && |st.rows| <= |l.rows| && l.rows[..|st.rows|] == st.rows
      && forall i :: 0 <= i < |l.rows| ==> l.rows[i].buyDate <= day
  {
    var next := Admit(st, sig, dfs, table).value;
    AdmitKeepsInv(st, sig, dfs, table);
    if !Skipped(st, sig, dfs) {
      AdmitRow(st, sig, dfs, table);
      assert next.rows == st.rows + [next.rows[|st.rows|]];
    }
  }

  /** Running the remaining dates keeps `Good` and only appends rows. */
  lemma {:induction false} RunDaysKeeps(st: Ledger, days: seq<int>, signals: seq<Signal>, dfs: Prices,
                                        funds: map<int, FundTable>)
    requires ValidPrices(dfs) && Good(st, signals)
    requires forall i, j :: 0 <= i < j < |days| ==> days[i] < days[j]
    requires |days| > 0 ==> forall i :: 0 <= i < |st.rows| ==> st.rows[i].buyDate <= days[0]
    requires RunDays(st, days, signals, dfs, funds).Ok?
    ensures var l := RunDays(st, days, signals, dfs, funds).value;
      Good(l, signals) && |st.rows| <= |l.rows| && l.rows[..|st.rows|] == st.rows
    decreases |days|
  {
    if days != [] {
      var next := ProcessSignals(st, OnDay(signals, days[0]), dfs, funds[days[0]]).value;
      ProcessSignalsKeeps(st, OnDay(signals, days[0]), dfs, funds[days[0]], signals, days[0]);
      if |days| > 1 {
        assert days[0] < days[1];
      }
      RunDaysKeeps(next, days[1..], signals, dfs, funds);
    }
  }

  /** The ledger of a completed run: `hold_list` is exactly the tickers whose
      positions never closed (no duplicates, at most 200); a ticker is held
      iff one of its rows has all exit fields unset; every row has its exit
      fields all set or all unset; every row comes from an input signal; and
      the rows are in ascending entry-date order. */
  lemma RunLedger(signals: seq<Signal>, dfs: Prices, funds: map<int, FundTable>)
    requires ValidPrices(dfs)
    requires RunSpec(signals, dfs, funds).Ok?
    ensures var l := RunSpec(signals, dfs, funds).value;
      && l.hold == OpenTickers(l.rows)
      && NoDup(l.hold) && |l.hold| <= Capacity
      && (forall t :: t in l.hold <==> exists i :: 0 <= i < |l.rows| && ExitOpen(l.rows[i]) && l.rows[i].ticker == t)
      && (forall i :: 0 <= i < |l.rows| ==> ExitOpen(l.rows[i]) || ExitClosed(l.rows[i]))
      && (forall i :: 0 <= i < |l.rows| ==> RowSignal(l.rows[i]) in signals)
      && (forall i, j :: 0 <= i < j < |l.rows| ==> l.rows[i].buyDate <= l.rows[j].buyDate)
  {
    var l := RunSpec(signals, dfs, funds).value;
    RunDaysKeeps(Ledger([], []), Days(signals), signals, dfs, funds);
    forall t ensures t in l.hold <==> exists i :: 0 <= i < |l.rows| && ExitOpen(l.rows[i]) && l.rows[i].ticker == t {
      OpenTickersMembers(l.rows, t);
    }
  }

  /** The rows of a run's result. */
  function RowsOf(r: Result<Ledger, Error>): Result<seq<Row>, Error>
  {
    match r
    case Ok(l) => Ok(l.rows)
    case Err(e) => Err(e)
  }

  /** The `for sell_date, each in next_prices.iterrows()` loop, updating the
      last row in place on every fill and closing it on an exit. */
  method SimulateForward(ticker: string, date: int, firstPrice: real, buyPoints: seq<real>,
                         nextPrices: seq<Bar>, holdIn: seq<string>, resultsIn: seq<Row>)
    returns (holdList: seq<string>, results: seq<Row>)
    requires firstPrice > 0.0 && buyPoints == Ladder(firstPrice)
    requires ticker in holdIn
    requires |resultsIn| > 0
    requires resultsIn[|resultsIn| - 1].buyPrice == firstPrice && resultsIn[|resultsIn| - 1].order == 1
    ensures var out := Forward(firstPrice, date, Opening(firstPrice), nextPrices);
      && results == resultsIn[..|resultsIn| - 1] + [Settle(resultsIn[|resultsIn| - 1], out)]
      && holdList == (if out.exit.Some? then RemoveFirst(holdIn, ticker) else holdIn)
  {
    ghost var init := Opening(firstPrice);
    var last := |resultsIn| - 1;  // `results[-1]`
    holdList, results := holdIn, resultsIn;
    var order: nat := 1;
    var buyPrice := firstPrice;
    var sellPrice := SellPoint(buyPrice);
    var k := 0;
    while k < |nextPrices|
      invariant 0 <= k <= |nextPrices|
      invariant PosInv(firstPrice, Pos(order, buyPrice, sellPrice))
      invariant |results| == |resultsIn| && results[..last] == resultsIn[..last]
      invariant results[last] == resultsIn[last].(buyPrice := buyPrice, order := order)
      invariant holdList == holdIn
      invariant Forward(firstPrice, date, init, nextPrices)
             == Forward(firstPrice, date, Pos(order, buyPrice, sellPrice), nextPrices[k..])
    {
      var each := nextPrices[k];
      var duration := each.day - date;
      ghost var pos := Pos(order, buyPrice, sellPrice);
      assert nextPrices[k..][0] == each && nextPrices[k..][1..] == nextPrices[k + 1..];
      if order < NSplit && each.low < buyPoints[order] {
        order := order + 1;
        buyPrice := Sum(buyPoints[..order]) / (order as real);
        sellPrice := SellPoint(buyPrice);
        results := results[last := results[last].(buyPrice := buyPrice, order := order)];
      } else if each.high > sellPrice {
        var profitPct := (sellPrice - buyPrice) / buyPrice;
        holdList := RemoveFirst(holdList, ticker);
        results := results[last := results[last].(sellDate := Some(each.day), sellPrice := Some(sellPrice),
                                                   profitPct := Some(profitPct), duration := Some(duration))];
        assert results == resultsIn[..last] + [results[last]];
        break;
      } else if duration >= TimeStopDays {
        sellPrice := each.close;
        var profitPct := (sellPrice - buyPrice) / buyPrice;
        holdList := RemoveFirst(holdList, ticker);
        results := results[last := results[last].(sellDate := Some(each.day), sellPrice := Some(sellPrice),
                                                   profitPct := Some(profitPct), duration := Some(duration))];
        assert results == resultsIn[..last] + [results[last]];
        break;
      }
      k := k + 1;
    }
    if k == |nextPrices| {
      assert results == resultsIn[..last] + [results[last]];
    }
  }

  /** The `for _, row in each.iterrows()` loop over the signals of one date. */
  method ProcessDay(each: seq<Signal>, dfs: Prices, dfFund: FundTable, holdIn: seq<string>, resultsIn: seq<Row>)
    returns (r: Result<Ledger, Error>)
    requires ValidPrices(dfs)
    ensures r == ProcessSignals(Ledger(holdIn, resultsIn), each, dfs, dfFund)
  {
    var holdList, results := holdIn, resultsIn;
    for j := 0 to |each|
      invariant ProcessSignals(Ledger(holdIn, resultsIn), each, dfs, dfFund)
             == ProcessSignals(Ledger(holdList, results), each[j..], dfs, dfFund)
    {
      var row := each[j];
      assert each[j..][0] == row && each[j..][1..] == each[j + 1..];
      var ticker := row.ticker;
      if ticker in holdList {
        continue;
      }
      if ticker !in dfs {
        continue;
      }
      if |holdList| < Capacity {
        var prices := dfs[ticker];
        var nextPrices := After(prices, row.day);
        var entry := BarAt(prices, row.day);
        if entry.None? {
          return Err(MissingEntryBar(ticker, row.day));
        }
        var buyPrice := entry.value.close;
        var pv := entry.value.turnover;
        var amount := entry.value.mcap;
        var buyPoints := CalculateBuyPoints(buyPrice);
        holdList := holdList + [ticker];
        var symbol := Symbol(ticker);
        var fundamental := Fundamental(dfFund, symbol);
        var order := 1;
        results := results + [Row(ticker, row.day, buyPrice, None, None, None, row.cor, row.vrate, row.mapct,
                                  order, pv, amount, None, fundamental)];
        holdList, results := SimulateForward(ticker, row.day, buyPrice, buyPoints, nextPrices, holdList, results);
      }
    }
    r := Ok(Ledger(holdList, results));
  }

  /** `run_backtest`: the dates in ascending order, each with its
      fundamentals table and its signals. */
  method RunBacktest(screenerData: seq<Signal>, dfs: Prices, funds: map<int, FundTable>)
    returns (r: Result<seq<Row>, Error>)
    requires ValidPrices(dfs)
    ensures r == RowsOf(RunSpec(screenerData, dfs, funds))
  {
    var results: seq<Row> := [];
    var holdList: seq<string> := [];
    var dates := Days(screenerData);
    for i := 0 to |dates|
      invariant RunSpec(screenerData, dfs, funds) == RunDays(Ledger(holdList, results), dates[i..], screenerData, dfs, funds)
    {
      var date := dates[i];
      assert dates[i..][0] == date && dates[i..][1..] == dates[i + 1..];
      if date !in funds {
        return Err(MissingFundamentals(date));
      }
      var dfFund := funds[date];
      var day := ProcessDay(OnDay(screenerData, date), dfs, dfFund, holdList, results);
      if day.Err? {
        return Err(day.error);
      }
      holdList, results := day.value.hold, day.value.rows;
    }
    r := Ok(results);
  }
}
