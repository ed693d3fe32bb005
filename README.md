# ShopWise price tracking, modelled in Dafny

ShopWise Collective is a browser extension. Its content script runs on Amazon
(US and South Africa) and Takealot product pages. It reads the product's id,
price, title and image, appends the price to the product's history in extension
storage, reports a price change, and shows a widget with statistics about the
history. This project models that pipeline and proves what it promises:

- **Sites** (`sites.dfy`) — the supported site is chosen from the hostname,
  where the first rule that matches wins. A product page is recognised by `/dp/`
  or `/gp/product/` on Amazon, and on Takealot by `/<name>-PLID<digits>`
  occurring somewhere in the URL. The Takealot check is proved equal to the regular expression it
  implements.
- **Price text** (`price_text.dfy`, `text.dfy`) — cleaning keeps digits, dots
  and commas, then removes the *first* comma only. `parseFloat` is modelled on
  the cleaned text as an exact `real`, with an acceptance floor: 0 for selector
  prices, 10 for the Takealot text scan. Trimming, `indexOf` and
  `split(c)[0]` are modelled too.
- **Search** (`search.dfy`) — every extractor tries its candidates in order,
  and the first that yields a value wins. The two loop shapes in the source are
  one loop over candidates and a nested loop over every element of every
  selector. Each is a generic method proved equal to "the first value of the
  mapped candidates".
- **Extractors** (`extractors.dfy`) — price, product id, title and image for
  each site. The page's elements come in as a `Dom` value. Each lists, for each
  selector in priority order, what the selector matched.
- **History** (`history.dfy`) — the 60-point retention window and
  chronological order. Change detection gives the previous price, the new price,
  the difference, the percentage and the direction.
- **Store** (`store.dfy`) — the `products` dictionary is the `map` field of
  class `ProductStore`. `Upsert` is the storage callback of `saveProduct`, and
  `SaveProduct` is the whole method. Records are keyed by `site_productId`; a
  new record takes the page's title, URL and image, and later saves keep them.
  Every stored record stays valid:
  - a non-empty history of at most 60 positive prices;
  - `lastChecked` is the timestamp of the last point.
- **Statistics** (`statistics.dfy`) — the widget's figures: current, lowest,
  highest, average, trend and the number of points. The sparkline covers the
  degenerate flat case, the zero-range guard and the point geometry.
- **Scenarios** (`scenarios.dfy`) — the widget shown right after a save, and
  worked examples: a 10 → 8 drop, statistics of 10, 8, 12, a product seen
  at 49.99 and later at 39.99, and the cleaning of "$1,234.56", "N/A" and
  "1,299,999.00".

Some behaviour of the code that is easy to get wrong:
- `content.js` has no operation that clears the store, so none is modelled.
- `diff` is signed (`price - lastPrice`, negative for a drop), and so is the
  modelled `ChangeEvent.diff`.
- A single point shows "Now tracking", modelled as `Trend.NowTracking`.
- The "days" figure is `history.length`: the number of stored points, not a
  count of calendar days. `Stats.daysTracked` is that length.

## Model

| member | source | states |
|---|---|---|
| Sites.Detect | content.js:6-12 | The first rule that matches wins: amazon.com, then amazon.co.za, then takealot.com. The result's marker occurs in the hostname, no earlier marker does, and there is no site exactly when no marker occurs. |
| Sites.PlidScanMatchesPattern | content.js:22 | The left-to-right scan for `-PLID<digit>` after a slash and a non-empty slash-free name is true exactly when the regular expression `/[^/]+-PLID\d+` matches somewhere in the URL. |
| Sites.IsProductPage | content.js:14-25 | False for an unsupported host. For Amazon, true iff the URL contains `/dp/` or `/gp/product/`. For Takealot, true iff the URL matches `/[^/]+-PLID\d+`. |
| Text.TrimIsSlice | content.js:79 | `trim()` returns a slice `s[i..j]` of its input. Everything before `i` and from `j` on is whitespace, and the result neither starts nor ends with whitespace. |
| Text.IndexOf | content.js:231 | The index of the first occurrence of the character, or the length when it is absent; the character occurs nowhere before it. |
| Text.BeforeFirst | content.js:231 | `split('?')[0]`: the longest prefix without the separator. When it is shorter than the input, the separator comes next. |
| Text.DigitRunEnd | content.js:149 | The end of the run of digits that `\d+` consumes: every character in the run is a digit, and the one after it is not. |
| PriceText.KeepPriceChars | content.js:46 | `replace(/[^\d.,]/g, '')` keeps only digits, dots and commas, and is never longer than its input. |
| PriceText.KeepPriceCharsAppend | content.js:46 | Filtering distributes over concatenation, so the characters kept stay in their original order. |
| PriceText.KeepPriceCharsIdentity | content.js:46 | Filtering leaves a string unchanged exactly when all its characters are digits, dots or commas. |
| PriceText.RemoveFirstComma | content.js:46 | `replace(',', '')` with a string pattern leaves a comma-free string unchanged. |
| PriceText.RemoveFirstCommaSplices | content.js:46 | With a comma present, the result is the input with exactly its first comma cut out; later commas stay. |
| PriceText.CleanKeepsPriceChars | content.js:46 | The cleaned text, after both replacements, holds only digits, dots and commas. |
| PriceText.FractionBelowOne | content.js:47 | The digits after the decimal point contribute less than one whole unit. |
| PriceText.ParseFloat | content.js:47 | `parseFloat` on cleaned text is a number exactly when the text starts with a digit, or with a dot followed by a digit; the number is never negative. |
| PriceText.ParseDecimalString | content.js:47 | Parsing reads back every whole number written in decimal. |
| PriceText.ParseDecimalFraction | content.js:47 | Parsing `whole.frac`, both runs of digits and not both empty, gives the whole part plus the fraction of its digits. |
| PriceText.ParseDecimalPrefix | content.js:47 | `parseFloat` reads only its numeric prefix: `whole.frac` followed by anything that does not begin with a digit (a comma, a second dot, anything else) parses to the same value as `whole.frac` alone. |
| PriceText.ParseWholePrefix | content.js:47 | A run of digits followed by anything that begins with neither a digit nor a dot (a later comma, say) parses to the run's value. |
| PriceText.CleanThousands | content.js:46 | Text without digits, dots or commas, then digits, a comma and price characters cleans to the digits and what follows, with only that first comma removed. |
| PriceText.PriceAbove | content.js:46-48 | `!isNaN(price) && price > floor` on the cleaned text: a price exactly when the parse succeeds and exceeds the floor, and the price is then the parsed value. |
| Search.FirstMapLeftmost | content.js:42-56 | A candidate loop finds a value exactly when some candidate passes. The value comes from the first candidate that passes, and every earlier one fails. |
| Search.FirstMatch | content.js:115-126 | The loop over selectors with an early return yields the first candidate's value in list order, or none after the last candidate. |
| Search.FirstMatchNested | content.js:42-53 | The nested loop, with every element of every selector and an early return, yields the first value over the selectors' elements in visiting order. |
| Extractors.PositivePrice | content.js:119-121 | A selector text's price exists only when its cleaned value is above 0. |
| Extractors.ElementPrice | content.js:45-48 | An Amazon element's text (`textContent`, else the `content` attribute, else empty) yields a price above 0 or nothing. |
| Extractors.AmazonPrice | content.js:30-57 | The Amazon price is over 0, and comes from the first element, in selector order, whose cleaned text parses above 0. |
| Extractors.StructuredPrice | content.js:116-121 | A Takealot selector with no match offers nothing; its first match's text yields a price above 0 or nothing. |
| Extractors.ScanPrice | content.js:131-136 | The text scan accepts a leaf element whose trimmed text starts with "R ", is shorter than 15 characters, and parses above 10. |
| Extractors.TakealotPrice | content.js:105-146 | The Takealot price is over 0: the structured selectors are tried first, then the text scan. |
| Extractors.TakealotScanIsLastResort | content.js:115-142 | If any structured selector yields a price, the first one that does decides. A scan price appears only when every selector failed, and then comes from the first leaf that passes all the scan's conditions. With both failing there is no price. |
| Extractors.FindAsin | content.js:60 | The leftmost index where `/dp/` is followed by ten of `[A-Z0-9]`, or none when there is no such index. |
| Extractors.AmazonProductId | content.js:59-67 | With an ASIN in the URL, the id is the ten characters after the leftmost match. Otherwise it is the `ASIN` input's value, or none. |
| Extractors.FindPlid | content.js:149 | The leftmost index where `PLID` is followed by a digit, or none when there is no such index. |
| Extractors.TakealotProductId | content.js:148-151 | There is an id exactly when `PLID<digit>` occurs. The id is the whole digit run after the leftmost match: non-empty and all digits. |
| Extractors.PagePrice | content.js:203-210 | The price the site's extractor reads is always above 0 when present. |
| Extractors.GetPrice | content.js:203-210 | The extractor's loops return exactly `PagePrice`. For Amazon that is the nested selector and element loop; for Takealot, the selector loop and then the text scan. |
| Extractors.CandidateTitle | content.js:78-80 | A present element's trimmed text is a title only when it is non-empty. |
| Extractors.SelectorTitle | content.js:76-82 | The first usable selector title is never empty. |
| Extractors.AmazonTitle | content.js:69-85 | The Amazon title is never empty; it falls back to "Unknown Product". |
| Extractors.TakealotTitle | content.js:153-170 | The Takealot title is never empty. The document-title fallback keeps only the text before the first `\|`, trimmed, so it contains no `\|`. |
| Extractors.GetTitle | content.js:76-84 | The title loop returns exactly `PageTitle`. |
| Extractors.PageTitle | content.js:211 | The title the site's extractor reads is never empty. |
| Extractors.FirstFound | content.js:94-97 | The first selector that matched at all decides: every earlier selector matched nothing. |
| Extractors.GetImage | content.js:87-100 | No matching selector gives no image. Otherwise the first matching selector's image decides: for Amazon, `src`, then `data-old-hires`, then `data-a-dynamic-image`; for Takealot, `src` (lines 172-185). |
| History.Retain | content.js:266-268 | `slice(-60)` when longer than 60 keeps the last `min(n, 60)` points, as a suffix. |
| History.Appended | content.js:260-268 | After push and trim, the new point is last and the length is `min(old + 1, 60)`. The other points are the most recent old ones, in order. |
| History.RetainConcat | content.js:266-268 | Trimming early changes nothing: trimming, appending and trimming again is the same as appending and trimming once. |
| History.AppendAllRetains | content.js:260-268 | Saving points one at a time onto a history within the window is the same as appending them all and keeping the last 60. |
| History.RetentionFromEmpty | content.js:260-268 | From an empty history, any sequence of saves leaves exactly the last `min(n, 60)` observations. |
| History.AppendedChronological | content.js:260-268 | When timestamps do not go backwards, push-and-trim keeps the history in chronological order. |
| History.LastPrice | content.js:256 | `lastPrice` exists exactly when the history is non-empty. |
| History.DetectChange | content.js:255-282 | A change is reported iff there was a previous point and its price differs. It carries the previous and the new price and the signed difference `new - previous`, and is `Dropped` iff the new price is lower. |
| History.ChangePercent | content.js:280-282 | The percentage times the previous price equals the difference times 100, and it is negative exactly for a drop. |
| Store.StoreKeyInjective | content.js:225 | Two saves share a storage key exactly when they are for the same site and the same product id. |
| Store.Upserted | content.js:242-270 | The saved record:<br>- a new record takes the page's site, title, URL and image;<br>- an existing record keeps all fields except history and `lastChecked`;<br>- the history is the prior one with the point pushed and trimmed;<br>- `lastChecked` is the new timestamp;<br>- it is valid when the new price is positive and every price of the prior history is positive. |
| Store.UpsertKeepsValid | content.js:239-270 | Saving a positive price keeps every record of the store valid: history non-empty, at most 60 points, all positive, `lastChecked` the timestamp of the last point. |
| Store.PushPoint | content.js:260-268 | `push` followed by `slice(-60)` computes `Appended`. |
| Store.UpdateRecord | content.js:242-270 | The callback's work on `products[key]` gives the `Upserted` record, and reads `lastPrice` before the push. |
| Store.ProductStore.constructor | content.js:240 | Storage without products (`result.products \|\| {}`) is empty and valid. |
| Store.ProductStore.Upsert | content.js:239-283 | The store stays valid and only the observation's key changes, to the `Upserted` record. The reported change is `DetectChange` of the history read before the push. |
| Store.ProductStore.SaveProduct | content.js:190-272 | A page that is skipped (unsupported site, not a product page, no product id, no price) leaves storage untouched. Otherwise the page's observation is upserted under `site_productId`, and the change is reported. |
| Store.ReadPage | content.js:191-231 | The checks run in source order, each skip reason holding iff its check is the first to fail. A page that passes yields a price above 0, a non-empty product id and title, and the URL before the first `?`, which contains no `?`. |
| Statistics.Prices | content.js:309 | `history.map(h => h.price)`: one price per point, in order. |
| Statistics.MinOf | content.js:310 | `Math.min` is one of the prices and no larger than any. |
| Statistics.MaxOf | content.js:311 | `Math.max` is one of the prices and no smaller than any. |
| Statistics.SumBounds | content.js:312 | A sum of n prices between `lo` and `hi` lies between n·lo and n·hi. |
| Statistics.MeanBounds | content.js:312 | The average lies between the lowest and the highest price. |
| Statistics.TrendOf | content.js:318-356 | "Now tracking" iff there are fewer than 2 points. Otherwise the trend is down, up or stable exactly as the last price is below, above or equal to the one before. |
| Statistics.ComputeStats | content.js:304-356 | Statistics exist iff the history is non-empty. Current is the last price; lowest and highest are prices of the history and bound every point. `lowest ≤ current ≤ highest` and `lowest ≤ average ≤ highest`; the average is the mean. The trend is `TrendOf`, and the count of points is shown as days at line 439. |
| Statistics.Range | content.js:484 | The scaling range is `max - min`, or 1 when that is 0, so it is always positive. |
| Statistics.GenerateSparkline | content.js:473-490 | Fewer than 2 prices give the fixed flat line and area. Otherwise there is one point per price. |
| Statistics.XEnds | content.js:487 | The first point is at x = 0 and the last at x = 280. |
| Statistics.PointInBox | content.js:486-490 | Every point lies within the 280 × 60 box, with y inside the 5-pixel padding. |
| Statistics.SparklineInBox | content.js:486-490 | The sparkline starts at x = 0 and ends at x = 280, and every point has `0 ≤ x ≤ 280` and `5 ≤ y ≤ 55`. |
| Statistics.SparklineOrder | content.js:486-490 | x increases with the index, and a higher price is drawn strictly higher (smaller y), in both directions. |
| Statistics.SparklineConstant | content.js:484-490 | A constant price series is drawn on the bottom line y = 55, thanks to the zero-range guard. |
| Scenarios.StatsAfterSave | content.js:293 | The widget shown after saving a positive price always has statistics. Its current price is the saved one, between lowest and highest, and its point count is the prior count plus one, capped at 60; a first save shows "Now tracking". |
| Scenarios.ChangeExamples | content.js:255-282 | 10 then 8 reports a drop of -2, that is -20 percent; 10 then 10, or a first save, reports nothing. |
| Scenarios.StatsExample | content.js:304-347 | Prices 10, 8, 12 show lowest 8, highest 12, average 10, current 12, trending up, over 3 points. |
| Scenarios.RevisitExample | content.js:239-356 | A product saved at 49.99 and then at 39.99 reports a drop of 10. The widget shows lowest 39.99, highest 49.99, average 44.99, trend down, over 2 points. |
| Scenarios.AmazonPageExample | content.js:5-25 | `www.amazon.com` is Amazon US, and `/dp/B000123456` on it is a product page. |
| Scenarios.CleaningExample | content.js:46 | "$1,234.56" cleans to "1234.56": the symbol and the thousands comma go. |
| Scenarios.ListedPriceExample | content.js:46-48 | "$1,234.56" is accepted as the price 1234.56. |
| Scenarios.DecimalExample | content.js:47 | "1234.56" parses to 1234.56. |
| Scenarios.NoDigitsExample | content.js:46-48 | "N/A" cleans to the empty string and gives no price. |
| Scenarios.FirstCommaOnlyExample | content.js:46 | "1,299,999.00" cleans to "1299,999.00": only the first comma is removed. |
| Scenarios.WholePrefixExample | content.js:47 | "1299,999.00" parses to 1299: the number ends at the remaining comma. |
| Scenarios.SecondCommaExample | content.js:46-48 | "1,299,999.00" is accepted as the price 1299, not 1299999. |

## Left out

- The DOM is not modelled: `querySelector(All)`, `textContent`, `getAttribute`, `img.src`, `children` and `document.title`. What the selectors match arrives as the `Dom` value, per selector in priority order.
- `chrome.storage.local.get/set` is not modelled. The read-modify-write is one `Upsert` call on the in-memory `products` map. Asynchrony and the race between two tabs saving at once are left out.
- `chrome.runtime.sendMessage` is not modelled. The `PRICE_CHANGED` payload is the returned `ChangeEvent`; the record it carries is not repeated.
- `Date.now()` and `toISOString()` are not modelled. The timestamp and the date string are parameters of `SaveProduct`.
- `console` logging, the `init` wiring and `setTimeout`, the widget and modal markup, event listeners and `showHistoryModal` are presentation and I/O.
- `formatCurrency` and `toFixed` are not modelled: decimal rendering of numbers. `History.ChangePercent` states the exact percentage, before rounding to one decimal.
- `Math.abs` on the widget's trend percentage is display only, and is not modelled.
- `Statistics.GenerateSparkline` returns the points, not the joined `M`/`L` path strings. Turning JavaScript numbers into text is not modelled.
- `PriceText.ParseFloat`: prices are exact `real` numbers, not IEEE doubles, so floating-point rounding of parsed values, sums and quotients is not modelled. The parse covers cleaned text only, which never holds a sign, an exponent, `Infinity` or whitespace.
- `Text.IsJsWhitespace`: strings are sequences of Unicode code points, not UTF-16 code units. The whitespace set is ECMAScript's WhiteSpace and LineTerminator code points.
- The image URL is modelled as what the attribute or `src` returns. The browser's resolution of relative URLs in `img.src` is not modelled.
- background.js (install, notification and alarm listeners) and popup.js (the list renderer) are not part of this model.
