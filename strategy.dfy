/** The buy ladder and the sell target of kjs_trade.py: four equal-size buys,
    each 10% below the previous one, and a target 10% above the running
    average buy price. */
module Strategy {
  import opened Numeric

  /** Number of ladder rungs (`n_split`, the first buy plus three averaging buys). */
  const NSplit: nat := 4
  /** Each rung is this fraction of the one before it. */
  const RungStep: real := 0.9
  /** The sell target is this multiple of the average buy price. */
  const Markup: real := 1.1

  /** Rung `k` of the ladder that starts at `first`: the previous rung times 0.9. */
  function Rung(first: real, k: nat): real
  {
    if k == 0 then first else Rung(first, k - 1) * RungStep
  }

  /** The list `calculate_buy_points` returns. */
  function Ladder(first: real): (r: seq<real>)
    ensures |r| == NSplit
  {
    seq(NSplit, k requires 0 <= k < NSplit => Rung(first, k))
  }

  /** `calculate_buy_points`: start with the first price and append 0.9 times
      the last element three times. */
  method CalculateBuyPoints(firstPrice: real) returns (positions: seq<real>)
    ensures positions == Ladder(firstPrice)
  {
    positions := [firstPrice];
    for i := 1 to NSplit
      invariant |positions| == i
      invariant forall k :: 0 <= k < i ==> positions[k] == Rung(firstPrice, k)
    {
      var nextPrice := positions[|positions| - 1] * RungStep;
      positions := positions + [nextPrice];
    }
  }

  /** `calculate_sell_point`: the target price for a given average buy price. */
  function SellPoint(buyPrice: real): (r: real)
    ensures buyPrice > 0.0 ==> r > buyPrice
  {
    buyPrice * Markup
  }

  /** `sum(buy_points[:order]) / order`: the average price once `order` rungs
      have been bought in equal sizes. */
  function AveragePrice(first: real, order: nat): real
    requires 1 <= order <= NSplit
  {
    Sum(Ladder(first)[..order]) / (order as real)
  }

  /** The return realised when selling at `exitPrice` after buying at an
      average of `avg` (`profit_pct`). */
  function ProfitPct(exitPrice: real, avg: real): (r: real)
    requires avg != 0.0
    ensures avg > 0.0 ==> (r > 0.0 <==> exitPrice > avg) && (r == 0.0 <==> exitPrice == avg)
  {
    (exitPrice - avg) / avg
  }

  /** `x^k`. */
  function Pow(x: real, k: nat): real
  {
    if k == 0 then 1.0 else x * Pow(x, k - 1)
  }

  /** Rung k equals first × 0.9^k. */
  lemma {:induction false} RungClosedForm(first: real, k: nat)
    ensures Rung(first, k) == first * Pow(RungStep, k)
  {
    if k > 0 {
      RungClosedForm(first, k - 1);
      calc {
        Rung(first, k);
        Rung(first, k - 1) * RungStep;
        (first * Pow(RungStep, k - 1)) * RungStep;
        first * (RungStep * Pow(RungStep, k - 1));
        first * Pow(RungStep, k);
      }
    }
  }

  /** The ladder is [p, 0.9p, 0.81p, 0.729p]: rung 0 is the first price and
      every later rung is 0.9 times the previous one. */
  lemma LadderShape(first: real)
    ensures Ladder(first) == [first, 0.9 * first, 0.81 * first, 0.729 * first]
    ensures Ladder(first)[0] == first
    ensures forall k :: 1 <= k < NSplit ==> Ladder(first)[k] == Ladder(first)[k - 1] * RungStep
  {
    var l := Ladder(first);
    assert l[1] == Rung(first, 1) == first * 0.9;
    assert l[2] == Rung(first, 2) == first * 0.9 * 0.9;
    assert l[3] == Rung(first, 3) == first * 0.9 * 0.9 * 0.9;
  }

  /** For a positive first price the ladder is strictly decreasing and positive. */
  lemma LadderStrictlyDecreasing(first: real)
    requires first > 0.0
    ensures forall i, j :: 0 <= i < j < NSplit ==> Ladder(first)[i] > Ladder(first)[j] > 0.0
  {
    LadderShape(first);
  }

  /** The average after 1, 2, 3 and 4 fills. */
  lemma AveragePriceValues(first: real)
    ensures AveragePrice(first, 1) == first
    ensures AveragePrice(first, 2) == 0.95 * first
    ensures AveragePrice(first, 3) == 2.71 * first / 3.0
    ensures AveragePrice(first, 4) == 0.85975 * first
  {
    var l := Ladder(first);
    LadderShape(first);
    assert l[..1] == [first];
    assert l[..2] == l[..1] + [0.9 * first];
    assert l[..3] == l[..2] + [0.81 * first];
    assert l[..4] == l[..3] + [0.729 * first];
    assert Sum(l[..1]) == first by { assert l[..1][..0] == []; }
    assert Sum(l[..2]) == 1.9 * first by { assert l[..2][..1] == l[..1]; }
    assert Sum(l[..3]) == 2.71 * first by { assert l[..3][..2] == l[..2]; }
    assert Sum(l[..4]) == 3.439 * first by { assert l[..4][..3] == l[..3]; }
  }

  /** For a positive first price every average is positive, the next rung lies
      strictly below the current average, and each fill strictly lowers the
      average. */
  lemma AveragePriceFalls(first: real, order: nat)
    requires first > 0.0
    requires 1 <= order < NSplit
    ensures Ladder(first)[order] < AveragePrice(first, order)
    ensures 0.0 < AveragePrice(first, order + 1) < AveragePrice(first, order)
  {
    AveragePriceValues(first);
    LadderShape(first);
  }

  /** For a positive first price the average after `order` fills lies between
      the last rung bought and the first price. */
  lemma AveragePriceBounds(first: real, order: nat)
    requires first > 0.0
    requires 1 <= order <= NSplit
    ensures Ladder(first)[order - 1] <= AveragePrice(first, order) <= first
  {
    AveragePriceValues(first);
    LadderShape(first);
  }

  /** Selling at the target always realises exactly 10%. */
  lemma ProfitAtTarget(avg: real)
    requires avg > 0.0
    ensures ProfitPct(SellPoint(avg), avg) == 0.1
  {
    calc {
      ProfitPct(SellPoint(avg), avg);
      (avg * 1.1 - avg) / avg;
      (avg * 0.1) / avg;
      0.1;
    }
  }
}
