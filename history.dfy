/**
 * A product's price history: the points `saveProduct` appends, the
 * 60-entry retention window, and the price-change classification made
 * against the last point read before the append.
 */
module History {
  import opened Wrappers

  /** One observation: the price, `Date.now()` and its ISO-8601 text. */
  datatype PricePoint = PricePoint(price: real, timestamp: int, date: string)

  /** At most this many points are kept ("2 months of daily checks"). */
  const MaxHistory: nat := 60

  function Min(a: int, b: int): int {
    if a <= b then a else b
  }

  /** `history.slice(-60)`, applied only when the history is longer than that. */
  function Retain(h: seq<PricePoint>): (r: seq<PricePoint>)
    ensures |r| == Min(|h|, MaxHistory)
    ensures r == h[|h| - |r|..]
  {
    if |h| > MaxHistory then h[|h| - MaxHistory..] else h
  }

  /**
   * `history.push(point)` followed by the trim: the new point is last, the
   * length is the old length plus one capped at 60, and what is kept is the
   * most recent points in their original order.
   */
  function Appended(h: seq<PricePoint>, p: PricePoint): (r: seq<PricePoint>)
    ensures |r| == Min(|h| + 1, MaxHistory)
    ensures r[|r| - 1] == p
    ensures forall i | 0 <= i < |r| - 1 :: r[i] == h[|h| + 1 - |r| + i]
  {
    Retain(h + [p])
  }

  /** Trimming early changes nothing: only the most recent 60 ever survive. */
  lemma RetainConcat(s: seq<PricePoint>, t: seq<PricePoint>)
    ensures Retain(Retain(s) + t) == Retain(s + t)
  {
    var a, b := Retain(Retain(s) + t), Retain(s + t);
    assert |a| == |b|;
    forall i | 0 <= i < |a| ensures a[i] == b[i] {
      var k := |Retain(s) + t| - |a| + i;
      var m := |s + t| - |b| + i;
      if k < |Retain(s)| {
        assert a[i] == Retain(s)[k] == s[|s| - |Retain(s)| + k];
        assert m == |s| - |Retain(s)| + k;
      } else {
        assert a[i] == t[k - |Retain(s)|];
      }
    }
  }

  lemma SplitFirst(h: seq<PricePoint>, ps: seq<PricePoint>)
    requires ps != []
    ensures h + [ps[0]] + ps[1..] == h + ps
  {
    assert ps == [ps[0]] + ps[1..];
  }

  /** The history after observing `ps` in order, one upsert at a time. */
  function AppendAll(h: seq<PricePoint>, ps: seq<PricePoint>): seq<PricePoint>
    decreases |ps|
  {
    if ps == [] then h else AppendAll(Appended(h, ps[0]), ps[1..])
  }

  /**
   * Retention: after any sequence of upserts to one product, starting from
   * a history within the bound, the history is exactly the most recent
   * `min(n, 60)` points of everything observed, in observation order.
   */
  lemma {:induction false} AppendAllRetains(h: seq<PricePoint>, ps: seq<PricePoint>)
    requires |h| <= MaxHistory
    ensures AppendAll(h, ps) == Retain(h + ps)
    decreases |ps|
  {
    if ps == [] {
      assert h + ps == h;
    } else {
      var h' := Appended(h, ps[0]);
      assert h' == Retain(h + [ps[0]]);
      AppendAllRetains(h', ps[1..]);
      RetainConcat(h + [ps[0]], ps[1..]);
      SplitFirst(h, ps);
      calc {
        AppendAll(h, ps);
        AppendAll(h', ps[1..]);
        Retain(Retain(h + [ps[0]]) + ps[1..]);
        Retain(h + ps);
      }
    }
  }

  /** Starting from a new record, `n` upserts leave `min(n, 60)` points, the latest ones. */
  lemma RetentionFromEmpty(ps: seq<PricePoint>)
    ensures |AppendAll([], ps)| == Min(|ps|, MaxHistory)
    ensures AppendAll([], ps) == ps[|ps| - Min(|ps|, MaxHistory)..]
  {
    AppendAllRetains([], ps);
    assert [] + ps == ps;
    assert AppendAll([], ps) == Retain(ps);
  }

  /** Timestamps never decrease along the history. */
  ghost predicate Chronological(h: seq<PricePoint>) {
    forall i, j | 0 <= i < j < |h| :: h[i].timestamp <= h[j].timestamp
  }

  /**
   * Appending a point no older than the last one keeps the history in
   * timestamp order. The premise is the clock's, not the tracker's: nothing
   * in the tracker enforces it.
   */
  lemma AppendedChronological(h: seq<PricePoint>, p: PricePoint)
    requires Chronological(h)
    requires h != [] ==> h[|h| - 1].timestamp <= p.timestamp
    ensures Chronological(Appended(h, p))
  {
    var r := Appended(h, p);
    forall i, j | 0 <= i < j < |r| ensures r[i].timestamp <= r[j].timestamp {
      var off := |h| + 1 - |r|;
      if j < |r| - 1 {
        assert r[i] == h[off + i] && r[j] == h[off + j];
      } else {
        assert r[i] == h[off + i];
        assert h[off + i].timestamp <= h[|h| - 1].timestamp;
      }
    }
  }

  predicate AllPositive(h: seq<PricePoint>) {
    forall i | 0 <= i < |h| :: h[i].price > 0.0
  }

  /** `history[history.length - 1].price`, or null for an empty history. */
  function LastPrice(h: seq<PricePoint>): (r: Option<real>)
    ensures r.Some? <==> |h| > 0
  {
    if |h| > 0 then Some(h[|h| - 1].price) else None
  }

  datatype Direction = Dropped | Increased

  /**
   * The `PRICE_CHANGED` message's numbers: the previous and new price, their
   * difference `diff` and `percent`, the difference relative to the previous
   * price times 100 (before its rounding to one decimal).
   */
  datatype ChangeEvent = ChangeEvent(previous: real, current: real, diff: real, percent: real, direction: Direction)

  /**
   * The `PRICE_CHANGED` numbers once the last price is known: a change when
   * there was a last price and `price` differs from it.
   */
  function ChangeFrom(lastPrice: Option<real>, price: real): Option<ChangeEvent>
    requires lastPrice.Some? ==> lastPrice.value > 0.0
  {
    var priceChanged := lastPrice.Some? && lastPrice.value != price;
    if priceChanged then
      var diff := price - lastPrice.value;
      var percent := (diff / lastPrice.value) * 100.0;
      Some(ChangeEvent(lastPrice.value, price, diff, percent, if diff < 0.0 then Dropped else Increased))
    else
      None
  }

  /**
   * The change reported when `price` is observed on top of history `h`
   * (the history as read before the append): a change exists exactly when
   * there was a previous point and its price differs; it is `Dropped`
   * exactly when the difference is negative.
   */
  function DetectChange(h: seq<PricePoint>, price: real): (r: Option<ChangeEvent>)
    requires AllPositive(h)
    ensures r.Some? <==> |h| > 0 && h[|h| - 1].price != price
    ensures r.Some? ==> r.value.previous == h[|h| - 1].price && r.value.current == price
    ensures r.Some? ==> r.value.diff == price - r.value.previous
    ensures r.Some? ==> (r.value.direction == Dropped <==> price < r.value.previous)
  {
    ChangeFrom(LastPrice(h), price)
  }

  /**
   * The reported percentage is the difference relative to the previous
   * price, times 100, and it is negative exactly for a drop.
   */
  lemma ChangePercent(h: seq<PricePoint>, price: real)
    requires AllPositive(h)
    ensures var r := DetectChange(h, price);
            r.Some? ==> && r.value.percent * r.value.previous == r.value.diff * 100.0
                        && (r.value.percent < 0.0 <==> r.value.direction == Dropped)
  {
    var r := DetectChange(h, price);
    if r.Some? {
      var previous, diff := r.value.previous, r.value.diff;
      assert previous > 0.0;
      assert diff / previous * previous == diff;
      assert diff < 0.0 <==> diff / previous < 0.0;
    }
  }
}
