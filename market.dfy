/** The market data the engine and the screener read. */
module Market {
  import opened Wrappers

  /** One trading day of one ticker. `day` is a calendar-day ordinal, so that
      the difference of two days is the number of calendar days between them. */
  datatype Bar = Bar(
    day: int,
    open: real,
    high: real,
    low: real,
    close: real,
    volume: real,
    turnover: real,   // traded value (the 거래대금 column)
    mcap: real        // market capitalisation (the 시가총액 column)
  )

  /** A price table indexed by date: days strictly ascending, closing prices
      positive. */
  predicate ValidSeries(bars: seq<Bar>)
  {
    && (forall i, j :: 0 <= i < j < |bars| ==> bars[i].day < bars[j].day)
    && (forall i :: 0 <= i < |bars| ==> bars[i].close > 0.0)
  }

  /** `prices.loc[day]`: the bar dated `day`, if there is one. */
  function BarAt(bars: seq<Bar>, day: int): (r: Option<Bar>)
    ensures r.Some? <==> exists i :: 0 <= i < |bars| && bars[i].day == day
    ensures r.Some? ==> r.value in bars && r.value.day == day
  {
    if bars == [] then None
    else if bars[0].day == day then Some(bars[0])
    else BarAt(bars[1..], day)
  }

  /** `prices[prices.index > day]`: the bars strictly after `day`, in table
      order. */
  function After(bars: seq<Bar>, day: int): (r: seq<Bar>)
    ensures forall b :: b in r <==> b in bars && b.day > day
    ensures |r| <= |bars|
  {
    if bars == [] then []
    else if bars[0].day > day then [bars[0]] + After(bars[1..], day)
    else After(bars[1..], day)
  }

  /** A table whose bars all follow `day` is kept whole, in order. */
  lemma {:induction false} AfterAll(bars: seq<Bar>, day: int)
    requires forall i :: 0 <= i < |bars| ==> bars[i].day > day
    ensures After(bars, day) == bars
  {
    if bars != [] {
      assert forall i :: 0 <= i < |bars[1..]| ==> bars[1..][i] == bars[i + 1];
      AfterAll(bars[1..], day);
    }
  }

  /** Of a date-ascending table `After` keeps exactly the suffix that follows
      `day`, so the forward loop walks the later bars in date order. */
  lemma {:induction false} AfterInOrder(bars: seq<Bar>, day: int)
    requires ValidSeries(bars)
    ensures After(bars, day) == bars[|bars| - |After(bars, day)|..]
  {
    if bars != [] {
      var tail := bars[1..];
      assert forall i :: 0 <= i < |tail| ==> tail[i] == bars[i + 1];
      if bars[0].day > day {
        assert bars[0].day > day && forall i :: 1 <= i < |bars| ==> bars[0].day < bars[i].day;
        AfterAll(bars, day);
      } else {
        assert ValidSeries(tail);
        AfterInOrder(tail, day);
        var r := After(tail, day);
        assert tail[|tail| - |r|..] == bars[|bars| - |r|..];
      }
    }
  }
}
