/**
 * The figures the on-page widget shows for a tracked product: the current,
 * lowest, highest and average price, the trend of the last two points,
 * and the sparkline's scaling of the prices into its 280 by 60 box.
 */
module Statistics {
  import opened Wrappers
  import opened History

  /** `history.map(h => h.price)`. */
  function Prices(h: seq<PricePoint>): (r: seq<real>)
    ensures |r| == |h|
    ensures forall i | 0 <= i < |h| :: r[i] == h[i].price
  {
    seq(|h|, i requires 0 <= i < |h| => h[i].price)
  }

  /** `Math.min(...s)`: a price of `s` no larger than any other. */
  function MinOf(s: seq<real>): (m: real)
    requires |s| > 0
    ensures m in s
    ensures forall i | 0 <= i < |s| :: m <= s[i]
  {
    if |s| == 1 then s[0]
    else
      var rest := MinOf(s[1..]);
      assert forall i | 1 <= i < |s| :: s[i] == s[1..][i - 1];
      if s[0] <= rest then s[0] else rest
  }

  /** `Math.max(...s)`: a price of `s` no smaller than any other. */
  function MaxOf(s: seq<real>): (m: real)
    requires |s| > 0
    ensures m in s
    ensures forall i | 0 <= i < |s| :: s[i] <= m
  {
    if |s| == 1 then s[0]
    else
      var rest := MaxOf(s[1..]);
      assert forall i | 1 <= i < |s| :: s[i] == s[1..][i - 1];
      if s[0] >= rest then s[0] else rest
  }

  /** `s.reduce((a, b) => a + b, 0)`, folding from the left. */
  function Sum(s: seq<real>): real {
    if s == [] then 0.0 else Sum(s[..|s| - 1]) + s[|s| - 1]
  }

  /** `x` added up `n` times. */
  function Scale(n: nat, x: real): real {
    if n == 0 then 0.0 else Scale(n - 1, x) + x
  }

  lemma {:induction false} ScaleIsProduct(n: nat, x: real)
    ensures Scale(n, x) == (n as real) * x
  {
    if n > 0 {
      ScaleIsProduct(n - 1, x);
      assert (n as real) * x == ((n - 1) as real) * x + x;
    }
  }

  /** A sum of `n` values between `lo` and `hi` lies between `n` times `lo` and `n` times `hi`. */
  lemma {:induction false} SumBounds(s: seq<real>, lo: real, hi: real)
    requires forall i | 0 <= i < |s| :: lo <= s[i] <= hi
    ensures Scale(|s|, lo) <= Sum(s) <= Scale(|s|, hi)
  {
    if s != [] {
      var init := s[..|s| - 1];
      assert forall i | 0 <= i < |init| :: init[i] == s[i];
      SumBounds(init, lo, hi);
    }
  }

  /** Dividing by a positive count keeps a lower bound: `n * lo <= x` gives `lo <= x / n`. */
  lemma DivideLower(x: real, n: real, lo: real)
    requires n > 0.0 && n * lo <= x
    ensures lo <= x / n
  {
    assert x / n * n == x;
  }

  lemma DivideUpper(x: real, n: real, hi: real)
    requires n > 0.0 && x <= n * hi
    ensures x / n <= hi
  {
    assert x / n * n == x;
  }

  /** `reduce(…) / prices.length`: the arithmetic mean. */
  function Mean(s: seq<real>): real
    requires |s| > 0
  {
    Sum(s) / (|s| as real)
  }

  /** A total between `count` times `lo` and `count` times `hi`, shared out over `count`. */
  lemma ShareOut(total: real, count: nat, lo: real, hi: real)
    requires count > 0 && Scale(count, lo) <= total <= Scale(count, hi)
    ensures lo <= total / (count as real) <= hi
  {
    ScaleIsProduct(count, lo);
    ScaleIsProduct(count, hi);
    DivideLower(total, count as real, lo);
    DivideUpper(total, count as real, hi);
  }

  /** The mean of some prices lies between their minimum and their maximum. */
  lemma MeanBounds(s: seq<real>)
    requires |s| > 0
    ensures MinOf(s) <= Mean(s) <= MaxOf(s)
  {
    SumBounds(s, MinOf(s), MaxOf(s));
    ShareOut(Sum(s), |s|, MinOf(s), MaxOf(s));
  }

  /** What the widget's price trend says. */
  datatype Trend = Down | Up | Stable | NowTracking

  /** The widget's figures; `daysTracked` is the "Tracking N days" card, the number of points. */
  datatype Stats = Stats(current: real, lowest: real, highest: real, average: real, trend: Trend, daysTracked: nat)

  /**
   * `diff = current - previous` against the point before the last: negative
   * is down, positive is up, zero is stable; a single point is "now tracking".
   */
  function TrendOf(h: seq<PricePoint>): (t: Trend)
    requires |h| > 0
    ensures t == NowTracking <==> |h| < 2
    ensures t == Down <==> |h| >= 2 && h[|h| - 1].price < h[|h| - 2].price
    ensures t == Up <==> |h| >= 2 && h[|h| - 1].price > h[|h| - 2].price
    ensures t == Stable <==> |h| >= 2 && h[|h| - 1].price == h[|h| - 2].price
  {
    if |h| >= 2 then
      var diff := h[|h| - 1].price - h[|h| - 2].price;
      if diff < 0.0 then Down else if diff > 0.0 then Up else Stable
    else NowTracking
  }

  /**
   * The widget's statistics: none for an empty history (the widget is not
   * shown); otherwise the current price is the last point's, the lowest and
   * highest are prices of the history bounding all of them, and the average
   * lies between the lowest and the highest.
   */
  function ComputeStats(h: seq<PricePoint>): (r: Option<Stats>)
    ensures r.None? <==> |h| == 0
    ensures r.Some? ==> r.value.current == h[|h| - 1].price
    ensures r.Some? ==> r.value.lowest in Prices(h) && r.value.highest in Prices(h)
    ensures r.Some? ==> forall i | 0 <= i < |h| :: r.value.lowest <= h[i].price <= r.value.highest
    ensures r.Some? ==> r.value.lowest <= r.value.current <= r.value.highest
    ensures r.Some? ==> r.value.lowest <= r.value.average <= r.value.highest
    ensures r.Some? ==> r.value.average == Mean(Prices(h))
    ensures r.Some? ==> r.value.trend == TrendOf(h)
    ensures r.Some? ==> r.value.daysTracked == |h|
  {
    if |h| == 0 then None
    else
      var prices := Prices(h);
      MeanBounds(prices);
      Some(Stats(prices[|prices| - 1], MinOf(prices), MaxOf(prices), Mean(prices), TrendOf(h), |h|))
  }

  // ----- Sparkline -----

  const Width: real := 280.0
  const Height: real := 60.0
  const Padding: real := 5.0

  datatype Point = Point(x: real, y: real)

  /** The sparkline: the fixed flat path for fewer than two prices, otherwise one scaled point per price. */
  datatype SparklineShape = Flat(line: string, area: string) | Scaled(points: seq<Point>)

  /** `max - min || 1`: the spread of the prices, or 1 when they are all equal. */
  function Range(prices: seq<real>): (r: real)
    requires |prices| > 0
    ensures r > 0.0
    ensures MaxOf(prices) > MinOf(prices) ==> r == MaxOf(prices) - MinOf(prices)
    ensures MaxOf(prices) == MinOf(prices) ==> r == 1.0
  {
    var spread := MaxOf(prices) - MinOf(prices);
    if spread == 0.0 then 1.0 else spread
  }

  /** `(i / (n - 1)) * width`. */
  function XAt(i: nat, n: nat): real
    requires n >= 2
  {
    (i as real / (n - 1) as real) * Width
  }

  /** `height - padding - ((price - min) / range) * (height - padding * 2)`. */
  function YAt(price: real, lo: real, range: real): real
    requires range > 0.0
  {
    Height - Padding - ((price - lo) / range) * (Height - Padding * 2.0)
  }

  /** `generateSparkline`, up to the conversion of the points to path text. */
  function GenerateSparkline(prices: seq<real>): (s: SparklineShape)
    ensures s.Flat? <==> |prices| < 2
    ensures s.Flat? ==> s.line == "M0 30 L280 30" && s.area == "M0 60 L0 30 L280 30 L280 60 Z"
    ensures s.Scaled? ==> |s.points| == |prices|
  {
    if |prices| < 2 then Flat("M0 30 L280 30", "M0 60 L0 30 L280 30 L280 60 Z")
    else
      var lo, range := MinOf(prices), Range(prices);
      Scaled(seq(|prices|, i requires 0 <= i < |prices| => Point(XAt(i, |prices|), YAt(prices[i], lo, range))))
  }

  /** A share `a / r` of a positive whole `r` with `0 <= a <= r` lies in [0, 1]. */
  lemma ShareBounds(a: real, r: real)
    requires r > 0.0 && 0.0 <= a <= r
    ensures 0.0 <= a / r <= 1.0
  {
    DivideLower(a, r, 0.0);
    DivideUpper(a, r, 1.0);
  }

  lemma ShareStrictlyMonotone(a: real, b: real, r: real)
    requires r > 0.0 && a < b
    ensures a / r < b / r
  {
    assert a / r * r == a && b / r * r == b;
  }

  /** The first point is at the left edge, the last at the right edge. */
  lemma XEnds(n: nat)
    requires n >= 2
    ensures XAt(0, n) == 0.0 && XAt(n - 1, n) == Width
  {
    var last := (n - 1) as real;
    assert last / last == 1.0;
  }

  /** One point of the sparkline lies in the drawing box. */
  lemma PointInBox(prices: seq<real>, i: nat)
    requires |prices| >= 2 && i < |prices|
    ensures GenerateSparkline(prices).Scaled?
    ensures var p := GenerateSparkline(prices).points[i];
            0.0 <= p.x <= Width && Padding <= p.y <= Height - Padding
  {
    var n := |prices|;
    ShareBounds(i as real, (n - 1) as real);
    ShareBounds(prices[i] - MinOf(prices), Range(prices));
  }

  /**
   * Every point lies in the drawing box: x spreads the points evenly from 0
   * to 280, y stays within the 5-pixel padding of the 60-pixel height.
   */
  lemma SparklineInBox(prices: seq<real>)
    requires |prices| >= 2
    ensures GenerateSparkline(prices).Scaled?
    ensures var pts := GenerateSparkline(prices).points;
            && pts[0].x == 0.0 && pts[|pts| - 1].x == Width
            && forall i | 0 <= i < |pts| ::
                 0.0 <= pts[i].x <= Width && Padding <= pts[i].y <= Height - Padding
  {
    var pts := GenerateSparkline(prices).points;
    var n := |prices|;
    forall i | 0 <= i < n ensures 0.0 <= pts[i].x <= Width && Padding <= pts[i].y <= Height - Padding {
      PointInBox(prices, i);
    }
    XEnds(n);
  }

  /**
   * Later points are further right, and a higher price is drawn higher (a
   * smaller y): the sparkline's order is the prices' order, inverted on the
   * y axis.
   */
  lemma SparklineOrder(prices: seq<real>, i: nat, j: nat)
    requires |prices| >= 2 && i < |prices| && j < |prices|
    ensures GenerateSparkline(prices).Scaled?
    ensures i < j ==> GenerateSparkline(prices).points[i].x < GenerateSparkline(prices).points[j].x
    ensures prices[i] < prices[j] <==> GenerateSparkline(prices).points[i].y > GenerateSparkline(prices).points[j].y
  {
    var pts := GenerateSparkline(prices).points;
    var n := |prices|;
    var lo, range := MinOf(prices), Range(prices);
    if i < j {
      ShareStrictlyMonotone(i as real, j as real, (n - 1) as real);
    }
    if prices[i] < prices[j] {
      ShareStrictlyMonotone(prices[i] - lo, prices[j] - lo, range);
    } else {
      if prices[j] < prices[i] {
        ShareStrictlyMonotone(prices[j] - lo, prices[i] - lo, range);
      }
    }
  }

  /** When every price is the same, the line runs flat along the bottom of the box. */
  lemma SparklineConstant(prices: seq<real>)
    requires |prices| >= 2
    requires forall i | 0 <= i < |prices| :: prices[i] == prices[0]
    ensures GenerateSparkline(prices).Scaled?
    ensures forall i | 0 <= i < |prices| :: GenerateSparkline(prices).points[i].y == Height - Padding
  {
    var lo := MinOf(prices);
    assert lo == prices[0];
    assert MaxOf(prices) == prices[0];
  }
}
