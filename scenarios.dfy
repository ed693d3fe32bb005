/**
 * How the pieces meet: the widget shown right after a save, and worked
 * examples of classification, cleaning, change detection and statistics.
 */
module Scenarios {
  import opened Wrappers
  import opened Text
  import opened Sites
  import opened PriceText
  import opened History
  import opened Extractors
  import opened Store
  import opened Statistics

  /**
   * The widget `saveProduct` shows after saving a positive price: there are
   * always statistics, the current price is the one just saved, it lies
   * between the lowest and the highest, and the number of points is the
   * prior count plus one, capped at 60.
   */
  lemma StatsAfterSave(existing: Option<ProductRecord>, obs: Observation)
    requires obs.price > 0.0
    ensures var stats := ComputeStats(Upserted(existing, obs).history);
            && stats.Some?
            && stats.value.current == obs.price
            && stats.value.lowest <= obs.price <= stats.value.highest
            && stats.value.daysTracked == Min(|PriorHistory(existing)| + 1, MaxHistory)
            && (PriorHistory(existing) == [] ==> stats.value.trend == NowTracking)
  {
    var h := Upserted(existing, obs).history;
    assert h == Appended(PriorHistory(existing), PointOf(obs));
    assert |h| == Min(|PriorHistory(existing)| + 1, MaxHistory);
    assert h[|h| - 1].price == obs.price;
    var stats := ComputeStats(h);
    assert stats.Some? && stats.value.current == obs.price;
    if PriorHistory(existing) == [] {
      assert |h| == 1;
    }
  }

  /** One earlier point at 10: a drop to 8 is reported as a 20 percent drop; 10 again is no change. */
  lemma ChangeExamples(t: int, d: string)
    ensures DetectChange([PricePoint(10.0, t, d)], 8.0) == Some(ChangeEvent(10.0, 8.0, -2.0, -20.0, Dropped))
    ensures DetectChange([PricePoint(10.0, t, d)], 10.0) == None
    ensures DetectChange([], 10.0) == None
  {
  }

  /** Prices 10, 8, 12: lowest 8, highest 12, average 10, current 12, trending up. */
  lemma StatsExample(t: int, d: string)
    ensures ComputeStats([PricePoint(10.0, t, d), PricePoint(8.0, t, d), PricePoint(12.0, t, d)])
         == Some(Stats(12.0, 8.0, 12.0, 10.0, Up, 3))
  {
    var h := [PricePoint(10.0, t, d), PricePoint(8.0, t, d), PricePoint(12.0, t, d)];
    var prices := Prices(h);
    assert prices == [10.0, 8.0, 12.0];
    assert prices[1..] == [8.0, 12.0] && prices[1..][1..] == [12.0];
    assert MinOf(prices) == 8.0;
    assert MaxOf(prices) == 12.0;
    assert prices[..2] == [10.0, 8.0] && prices[..2][..1] == [10.0] && prices[..2][..1][..0] == [];
    assert Sum(prices[..2][..1]) == 10.0;
    assert Sum(prices[..2]) == 18.0;
    assert Sum(prices) == 30.0;
  }

  /**
   * A product first seen at 49.99 and three days later at 39.99: the second
   * save reports a drop of 10, and the widget shows lowest 39.99, highest
   * 49.99, average 44.99, a downward trend over two points.
   */
  lemma RevisitExample(first: Observation, second: Observation)
    requires first.price == 49.99 && second.price == 39.99
    requires Key(first) == Key(second)
    ensures var r1 := Upserted(None, first);
            var r2 := Upserted(Some(r1), second);
            && r1.history == [PointOf(first)]
            && r2.history == [PointOf(first), PointOf(second)]
            && DetectChange(r1.history, second.price).Some?
            && DetectChange(r1.history, second.price).value.direction == Dropped
            && DetectChange(r1.history, second.price).value.diff == -10.0
            && ComputeStats(r2.history) == Some(Stats(39.99, 39.99, 49.99, 44.99, Down, 2))
  {
    var r1 := Upserted(None, first);
    var r2 := Upserted(Some(r1), second);
    assert r1.history == [PointOf(first)];
    assert r2.history == [PointOf(first), PointOf(second)];
    var prices := Prices(r2.history);
    assert prices == [49.99, 39.99];
    assert prices[1..] == [39.99];
    assert prices[..1] == [49.99] && prices[..1][..0] == [];
    assert Sum(prices[..1]) == 49.99;
    assert Sum(prices) == 89.98;
  }

  /** `www.amazon.com/dp/B000123456` is an Amazon US product page. */
  lemma AmazonPageExample()
    ensures Detect("www.amazon.com") == Some(AmazonUs)
    ensures IsProductPage("www.amazon.com", "https://www.amazon.com/dp/B000123456")
  {
    var host := "www.amazon.com";
    assert OccursAt(host, "amazon.com", 4);
    var url := "https://www.amazon.com/dp/B000123456";
    assert OccursAt(url, "/dp/", 22);
  }

  /** A typical listed price: the symbol and the thousands comma go, leaving "1234.56". */
  lemma CleaningExample()
    ensures Clean("$1,234.56") == "1234.56"
  {
    CleanThousands("$", "1", "234.56");
    assert "$" + ("1" + "," + "234.56") == "$1,234.56";
    assert "1" + "234.56" == "1234.56";
  }

  /** "$1,234.56" is read as 1234.56. */
  lemma ListedPriceExample()
    ensures PriceAbove("$1,234.56", 0.0) == Some(1234.56)
  {
    CleaningExample();
    DecimalExample();
  }

  /** "1234.56" parses to 1234.56. */
  lemma DecimalExample()
    ensures ParseFloat("1234.56") == Some(1234.56)
  {
    assert "1234.56" == "1234" + "." + "56";
    ParseDecimalFraction("1234", "56");
    DigitValuesExample();
  }

  /** The digit strings of the examples read as the numbers they write. */
  lemma DigitValuesExample()
    ensures DigitsValue("1234") == 1234
    ensures DigitsValue("1299") == 1299
    ensures FractionValue("56") == 0.56
  {
    assert "1234"[..3] == "123" && "123"[..2] == "12" && "12"[..1] == "1" && "1"[..0] == [];
    assert "1299"[..3] == "129" && "129"[..2] == "12";
    assert "56"[1..] == "6" && "6"[1..] == [];
  }

  /** Text without a digit, such as "N/A", gives no price. */
  lemma NoDigitsExample()
    ensures Clean("N/A") == ""
    ensures PriceAbove("N/A", 0.0) == None
  {
    assert "N/A"[1..] == "/A" && "/A"[1..] == "A" && "A"[1..] == [];
  }

  /** Only the first comma is removed: "1,299,999.00" cleans to "1299,999.00". */
  lemma FirstCommaOnlyExample()
    ensures Clean("1,299,999.00") == "1299,999.00"
  {
    CleanThousands("", "1", "299,999.00");
    assert "" + ("1" + "," + "299,999.00") == "1,299,999.00";
    assert "1" + "299,999.00" == "1299,999.00";
  }

  /** Parsing "1299,999.00" stops at the remaining comma, so "1,299,999.00" reads as 1299. */
  lemma SecondCommaExample()
    ensures PriceAbove("1,299,999.00", 0.0) == Some(1299.0)
  {
    FirstCommaOnlyExample();
    WholePrefixExample();
  }

  /** "1299,999.00" parses to 1299. */
  lemma WholePrefixExample()
    ensures ParseFloat("1299,999.00") == Some(1299.0)
  {
    assert "1299,999.00" == "1299" + ",999.00";
    ParseWholePrefix("1299", ",999.00");
    DigitValuesExample();
  }
}
