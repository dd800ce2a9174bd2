/** The per-position state machine of `run_backtest`: after a buy, every later
    bar of the ticker either fills the next ladder rung, takes profit at the
    target, stops out on time, or leaves the position open. */
module Position {
  import opened Wrappers
  import opened Numeric
  import opened Market
  import opened Strategy

  /** Calendar days after which a position is closed at the bar's close. */
  const TimeStopDays: int := 600

  /** The running state of an open position: rungs bought so far (`order`),
      the average price (`buy_price`) and the target (`sell_price`). */
  datatype Pos = Pos(order: nat, avg: real, target: real)

  /** How a position was closed: the exit fields of a ledger row. */
  datatype Exit = Exit(day: int, price: real, profitPct: real, duration: int)

  /** What one bar does to an open position (one branch of the elif chain). */
  datatype Event = AverageDown(next: Pos) | TakeProfit(exit: Exit) | TimeStop(exit: Exit) | Hold

  /** The state after the forward bars, and the exit if one happened. */
  datatype Outcome = Outcome(pos: Pos, exit: Option<Exit>)

  /** The position invariant: `order` rungs of the ladder starting at `first`
      are bought, the average is their mean and the target is 1.1 times it. */
  predicate PosInv(first: real, pos: Pos)
  {
    && first > 0.0
    && 1 <= pos.order <= NSplit
    && pos.avg == AveragePrice(first, pos.order)
    && pos.avg > 0.0
    && pos.target == SellPoint(pos.avg)
  }

  /** The state right after the first buy at the entry close. */
  function Opening(first: real): (pos: Pos)
    requires first > 0.0
    ensures PosInv(first, pos) && pos.order == 1 && pos.avg == first
  {
    AveragePriceValues(first);
    Pos(1, first, SellPoint(first))
  }

  /** One forward bar. Averaging down is tried first, then the take-profit,
      then the time stop; the first that applies decides the bar. */
  function Step(first: real, entryDay: int, pos: Pos, bar: Bar): (e: Event)
    requires PosInv(first, pos)
    ensures e.AverageDown? <==> pos.order < NSplit && bar.low < Ladder(first)[pos.order]
    ensures e.AverageDown? ==> e.next.order == pos.order + 1 && PosInv(first, e.next)
    ensures e.AverageDown? ==> e.next.avg < pos.avg
    ensures e.TakeProfit? <==>
      !(pos.order < NSplit && bar.low < Ladder(first)[pos.order]) && bar.high > pos.target
    ensures e.TimeStop? <==>
      && !(pos.order < NSplit && bar.low < Ladder(first)[pos.order])
      && bar.high <= pos.target
      && bar.day - entryDay >= TimeStopDays
    ensures e.TakeProfit? ==> e.exit.price == pos.target && e.exit.profitPct == 0.1
    ensures e.TimeStop? ==> e.exit.price == bar.close
    ensures (e.TakeProfit? || e.TimeStop?) ==>
      && e.exit.day == bar.day
      && e.exit.duration == bar.day - entryDay
      && e.exit.profitPct == (e.exit.price - pos.avg) / pos.avg
  {
    var duration := bar.day - entryDay;
    if pos.order < NSplit && bar.low < Ladder(first)[pos.order] then
      var order := pos.order + 1;
      var avg := AveragePrice(first, order);
      AveragePriceFalls(first, pos.order);
      AverageDown(Pos(order, avg, SellPoint(avg)))
    else if bar.high > pos.target then
      ProfitAtTarget(pos.avg);
      TakeProfit(Exit(bar.day, pos.target, ProfitPct(pos.target, pos.avg), duration))
    else if duration >= TimeStopDays then
      TimeStop(Exit(bar.day, bar.close, ProfitPct(bar.close, pos.avg), duration))
    else
      Hold
  }

  /** The `for sell_date, each in next_prices.iterrows()` loop: run `Step` over
      the bars in order and stop at the first exit. */
  function Forward(first: real, entryDay: int, pos: Pos, bars: seq<Bar>): (out: Outcome)
    requires PosInv(first, pos)
    ensures PosInv(first, out.pos)
    ensures pos.order <= out.pos.order <= pos.order + |bars|
    ensures out.pos.avg <= pos.avg
    decreases |bars|
  {
    if bars == [] then Outcome(pos, None)
    else
      match Step(first, entryDay, pos, bars[0])
      case AverageDown(next) => Forward(first, entryDay, next, bars[1..])
      case TakeProfit(e) => Outcome(pos, Some(e))
      case TimeStop(e) => Outcome(pos, Some(e))
      case Hold => Forward(first, entryDay, pos, bars[1..])
  }

  /** Every exit happens on one of the forward bars, `duration` is the number
      of calendar days since entry, `profit_pct` is measured against the final
      average, and the exit is either a take-profit at the target (a 10% gain)
      or a time stop at that bar's close after at least 600 days. */
  lemma {:induction false} ForwardExit(first: real, entryDay: int, pos: Pos, bars: seq<Bar>)
    requires PosInv(first, pos)
    requires Forward(first, entryDay, pos, bars).exit.Some?
    ensures var out := Forward(first, entryDay, pos, bars);
      var e := out.exit.value;
      && (exists i :: 0 <= i < |bars| && bars[i].day == e.day
                      && (e.price == out.pos.target || (e.price == bars[i].close && e.duration >= TimeStopDays)))
      && e.duration == e.day - entryDay
      && e.profitPct == (e.price - out.pos.avg) / out.pos.avg
      && (e.price == out.pos.target ==> e.profitPct == 0.1)
    decreases |bars|
  {
    var out := Forward(first, entryDay, pos, bars);
    var e := out.exit.value;
    match Step(first, entryDay, pos, bars[0])
    case AverageDown(next) =>
      ForwardExit(first, entryDay, next, bars[1..]);
      var i :| 0 <= i < |bars[1..]| && bars[1..][i].day == e.day
               && (e.price == out.pos.target || (e.price == bars[1..][i].close && e.duration >= TimeStopDays));
      assert bars[i + 1] == bars[1..][i];
    case TakeProfit(_) =>
      assert bars[0].day == e.day;
    case TimeStop(_) =>
      ProfitAtTarget(pos.avg);
      assert bars[0].day == e.day;
    case Hold =>
      ForwardExit(first, entryDay, pos, bars[1..]);
      var i :| 0 <= i < |bars[1..]| && bars[1..][i].day == e.day
               && (e.price == out.pos.target || (e.price == bars[1..][i].close && e.duration >= TimeStopDays));
      assert bars[i + 1] == bars[1..][i];
  }

  /** Running over `a + b` is running over `a` and, if no exit happened there,
      continuing over `b` from the state reached. In particular the bars after
      an exit never matter (the simulation does not look ahead). */
  lemma {:induction false} ForwardConcat(first: real, entryDay: int, pos: Pos, a: seq<Bar>, b: seq<Bar>)
    requires PosInv(first, pos)
    ensures var mid := Forward(first, entryDay, pos, a);
      Forward(first, entryDay, pos, a + b) ==
        if mid.exit.Some? then mid else Forward(first, entryDay, mid.pos, b)
    decreases |a|
  {
    if a == [] {
      assert a + b == b;
    } else {
      assert (a + b)[0] == a[0];
      assert (a + b)[1..] == a[1..] + b;
      match Step(first, entryDay, pos, a[0])
      case AverageDown(next) => ForwardConcat(first, entryDay, next, a[1..], b);
      case TakeProfit(_) =>
      case TimeStop(_) =>
      case Hold => ForwardConcat(first, entryDay, pos, a[1..], b);
    }
  }

  /** An exit found on some bars stays the exit however many bars follow. */
  lemma NoLookahead(first: real, entryDay: int, pos: Pos, bars: seq<Bar>, more: seq<Bar>)
    requires PosInv(first, pos)
    requires Forward(first, entryDay, pos, bars).exit.Some?
    ensures Forward(first, entryDay, pos, bars + more) == Forward(first, entryDay, pos, bars)
  {
    ForwardConcat(first, entryDay, pos, bars, more);
  }

  /** A bar that would both fill the next rung and reach the target is an
      averaging event: the position stays open and the exit is deferred. */
  lemma TieBreakFavoursAveraging(first: real, entryDay: int, pos: Pos, bar: Bar)
    requires PosInv(first, pos)
    requires pos.order < NSplit && bar.low < Ladder(first)[pos.order]
    requires bar.high > pos.target
    ensures Forward(first, entryDay, pos, [bar]).exit == None
    ensures Forward(first, entryDay, pos, [bar]).pos.order == pos.order + 1
  {
    assert [bar][1..] == [];
  }

  /** Entry at 1000: a low of 850 fills the 900 rung (average 950, target
      1045); a high of 1050 on the next bar closes at 1045 for a 10% gain. */
  lemma ScenarioAverageThenTarget()
    ensures var bars := [Bar(1, 990.0, 1000.0, 850.0, 870.0, 1.0, 1.0, 1.0),
                         Bar(2, 900.0, 1050.0, 890.0, 1000.0, 1.0, 1.0, 1.0)];
      Forward(1000.0, 0, Opening(1000.0), bars)
        == Outcome(Pos(2, 950.0, 1045.0), Some(Exit(2, 1045.0, 0.1, 2)))
  {
    var bars := [Bar(1, 990.0, 1000.0, 850.0, 870.0, 1.0, 1.0, 1.0),
                 Bar(2, 900.0, 1050.0, 890.0, 1000.0, 1.0, 1.0, 1.0)];
    LadderShape(1000.0);
    AveragePriceValues(1000.0);
    var p1 := Pos(2, 950.0, 1045.0);
    assert Step(1000.0, 0, Opening(1000.0), bars[0]) == AverageDown(p1);
    assert bars[1..][0] == bars[1];
    assert Step(1000.0, 0, p1, bars[1]) == TakeProfit(Exit(2, 1045.0, 0.1, 2));
  }

  /** Entry at 1000, no rung filled and the target never reached: the first
      bar 600 or more days after entry closes the position at its close. */
  lemma ScenarioTimeStop()
    ensures var bars := [Bar(300, 1000.0, 1050.0, 950.0, 1000.0, 1.0, 1.0, 1.0),
                         Bar(600, 990.0, 1000.0, 960.0, 980.0, 1.0, 1.0, 1.0),
                         Bar(601, 990.0, 1200.0, 960.0, 1150.0, 1.0, 1.0, 1.0)];
      Forward(1000.0, 0, Opening(1000.0), bars)
        == Outcome(Pos(1, 1000.0, 1100.0), Some(Exit(600, 980.0, -0.02, 600)))
  {
    var bars := [Bar(300, 1000.0, 1050.0, 950.0, 1000.0, 1.0, 1.0, 1.0),
                 Bar(600, 990.0, 1000.0, 960.0, 980.0, 1.0, 1.0, 1.0),
                 Bar(601, 990.0, 1200.0, 960.0, 1150.0, 1.0, 1.0, 1.0)];
    var p := Opening(1000.0);
    LadderShape(1000.0);
    assert p == Pos(1, 1000.0, 1100.0);
    assert Step(1000.0, 0, p, bars[0]) == Hold;
    assert bars[1..][0] == bars[1];
    assert Step(1000.0, 0, p, bars[1]) == TimeStop(Exit(600, 980.0, -0.02, 600));
  }

  /** A price history that ends 30 days after entry without any trigger leaves
      the position open, with no exit. */
  lemma ScenarioUnterminated()
    ensures var bars := [Bar(10, 1000.0, 1050.0, 950.0, 1000.0, 1.0, 1.0, 1.0),
                         Bar(30, 1000.0, 1090.0, 920.0, 1010.0, 1.0, 1.0, 1.0)];
      Forward(1000.0, 0, Opening(1000.0), bars) == Outcome(Pos(1, 1000.0, 1100.0), None)
  {
    var bars := [Bar(10, 1000.0, 1050.0, 950.0, 1000.0, 1.0, 1.0, 1.0),
                 Bar(30, 1000.0, 1090.0, 920.0, 1010.0, 1.0, 1.0, 1.0)];
    var p := Opening(1000.0);
    LadderShape(1000.0);
    assert Step(1000.0, 0, p, bars[0]) == Hold;
    assert bars[1..][0] == bars[1] && bars[1..][1..] == [];
    assert Step(1000.0, 0, p, bars[1]) == Hold;
  }
}
