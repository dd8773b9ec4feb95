# Scrape123 in Dafny

Scrape123 collects the price lists of Slovenian building-material web shops. Six scrapers each walk one shop:

| scraper | shop |
|---|---|
| `MerkurV1.py` | Merkur |
| `1ZagozenV1.py` | Zagožen |
| `KalcerV1.py` | Kalcer |
| `SlovenijalesV1.py` | Slovenijales |
| `ObiV1.py` | OBI |
| `TehnolesV1.py` | Tehnoles |

Each scraper goes over the shop's subcategories. It follows the listing pages of each subcategory and reads the product tiles or product pages. It turns every product into a record of 17 columns (`Skupina`, `Zap`, prices with and without VAT, `URL`, `SLIKA URL`, ...). The records go into a JSON file and an Excel sheet that survive between runs.

A run resumes its item counter `Zap` from what is already stored. It writes its records in batches that are merged into the store by key. The supervisor `run_all.py` runs the scrapers one after another as child processes under a time limit. It rewrites a progress file after every script, writes a summary, and exits with 1 when any script failed or timed out.

The model has these modules:

- `Values`: records as maps from column names to values.
- `Text`, `Price`: the text and price handling the scrapers share. This includes the VAT conversion, done on exact decimals.
- `Merge`, `Ordering`: merging and ordering over generic keys.
- `Store`: the two files and `save_data`/`save_to_excel`.
- `Checkpoint`: where the counter resumes.
- `Walker`: walking the listing pages until a stop condition holds.
- `SpecTable`: the specification table of a product page.
- `Session`: the counter, the buffer, and when the buffer is written.
- One module per scraper: `MerkurScraper`, `ZagozenScraper`, `KalcerScraper`, `SlovenijalesScraper`, `ObiScraper`, `TehnolesScraper`.
- `Supervisor`: `run_all.py`.

The network becomes data:

- A shop is a finite map from URL to an already-parsed page. A URL that is not in the map is a failed request.
- The environment and the child processes of `run_all.py` are parameters.

The code behaves in ways worth knowing:

- **`save_data` replaces the whole record.** When a stored key comes back, the new record replaces the old one entirely, including `Zap`. The old sequence number is not kept.
- **Merkur renumbers `Zap` on export.** `save_to_excel` renumbers `Zap` to 1..n on every export. The JSON file keeps the numbers the run handed out.
- **Four scrapers lose an unflushed remainder.** Kalcer, Slovenijales, OBI and Tehnoles call `save_data([])` in their `finally` block. That call returns at once, so records left in the buffer by an interrupted run are not written. Only Zagožen writes its remainder there.
- **Merkur writes twice at the end.** It writes the sheet once after the loops and again in `finally`, so the final sheet is the export applied twice.
- **A timeout after output crashes `run_all.py`.** On the time limit `subprocess.run` hands over what the child printed as `bytes`, even with `text=True`. The result then holds a `bytes` tail, and the next `write_progress` raises `TypeError` inside `json.dump`. The run ends with status 1, the progress file is left broken off, no later script runs and no summary is written. A scraper whose output has already reached the pipe ends the run this way. Piped stdout is block-buffered and `log_and_print` does not flush it, so the last `print()` lines may not have reached it; a child none of whose output has reached either pipe gives `None` for both streams, which is recorded as `""`, and the run goes on.
- **`run_all.py` runs one script that is not here.** Its list names `ZagozenV1.py` for the file shipped as `1ZagozenV1.py`, and also `PilihBetonV1.py`. The model keeps the list exactly as written.

## Model

| member | source | states |
|---|---|---|
| Text.Strip | MerkurV1.py:185 | `str.strip()`: the result has no leading or trailing whitespace and is a slice of the input; text already without outer whitespace is unchanged |
| Text.StripCutsSpace | MerkurV1.py:185 | everything `strip()` cuts off at either end is whitespace |
| Text.StripKeepsNonSpace | MerkurV1.py:185 | `strip()` keeps every character that is not whitespace |
| Text.StripKeepsMembers | MerkurV1.py:185 | `strip()` adds no character |
| Text.StripSubsequence | MerkurV1.py:185 | `strip()` keeps the order of what it leaves |
| Text.StripIdempotent | KalcerV1.py:189-191 | stripping twice is stripping once |
| Text.IndexOf | MerkurV1.py:166-167 | `str.find`, as the float parse looks for the decimal point: finds a pattern exactly when the text contains it, at its first occurrence |
| Text.BeforeFirst | TehnolesV1.py:219 | `s.split('-c-')[0]`: the text before the first occurrence of a pattern is a prefix, with the pattern right after it, and holds no earlier occurrence; all of a text without the pattern |
| Text.LastSegment | TehnolesV1.py:219 | `u.split('/')[-1]`: the part after the last separator, with no separator in it, and all of a text without one |
| Text.DecRoundTrip | MerkurV1.py:270 | the decimal numeral of a page number reads back as that number |
| Text.DecInjective | KalcerV1.py:158 | different page numbers give different numerals, so different page URLs |
| Text.UpperChar | 1ZagozenV1.py:311 | `upper()` on one character: no letter it maps is left lower case, every other character stays, and only '.' gives '.' |
| Text.LowerChar | 1ZagozenV1.py:200 | `lower()` on one character: no letter it maps is left upper case, every other character stays, and only '.' gives '.' |
| Values.SetIf | ObiV1.py:214-223 | `if value: data[k] = value`: sets the column when there is a value; every other column is unchanged |
| Values.IntTextRoundTrip | run_all.py:28 | `int(str(n)) == n` for every integer: the numeral of a number parses back to it |
| Price.CleanDigitsCommasSpec | MerkurV1.py:174-176 | Merkur's `clean_price_string`, which no scraper calls: keeping only digits and commas keeps every digit and comma of the input, in order and with their counts, and nothing else |
| Price.CleanDigitsCommasIdempotent | MerkurV1.py:174-176 | cleaning a cleaned price changes nothing |
| Price.CleanZagozen | 1ZagozenV1.py:237-239 | the cleaned Zagožen price has no euro sign, no non-breaking space, no thousands dot and no outer whitespace |
| Price.CleanZagozenSpec | 1ZagozenV1.py:237-239 | the cleaned price is the input with characters deleted, in order; it keeps exactly the characters other than the euro sign, the non-breaking space and the dot, except whitespace at the ends |
| Price.CleanZagozenIdempotent | 1ZagozenV1.py:237-239 | cleaning twice is cleaning once |
| Price.TokensCoverFilter | MerkurV1.py:189 | the `re.findall` tokens of a class, joined, are exactly the characters of that class in the text |
| Price.TokensEmpty | MerkurV1.py:189-190 | `re.findall` finds nothing exactly when no character of the class occurs |
| Price.FirstToken | ObiV1.py:216-217 | the first `re.findall` token is the maximal run starting at the first character of the class; there is none exactly when the class does not occur |
| Price.FirstRunUnique | ObiV1.py:216-217 | the first maximal run of a class is unique |
| Price.ConvertWithoutVat | KalcerV1.py:146-152 | the converter gives "" exactly for a missing, empty or unparsable price; otherwise a number with a decimal comma and two decimals, without a dot |
| Price.RenderedPriceParses | MerkurV1.py:163-171 | a rendered price, with its comma turned back into a point, parses as the same number of cents |
| Price.ConvertWithinOneCent | KalcerV1.py:146-152 | the VAT-exclusive price, multiplied back by `1 + rate`, is within one cent of the parsed gross price, for every rate up to 100 % |
| Merge.MergeByKey | 1ZagozenV1.py:120-124 | the loop that merges stored records with a batch computes the merge function |
| Merge.MergedDistinct | KalcerV1.py:113-115 | the merged list has no key twice |
| Merge.MergedSize | KalcerV1.py:113-115 | the merged list has one record per distinct key |
| Merge.MergedContent | KalcerV1.py:113-115 | the merge binds each key to its last record |
| Merge.MergedKeys | KalcerV1.py:113-115 | the merged records come in the order of each key's first appearance |
| Merge.MergedOfDistinct | 1ZagozenV1.py:120-124 | merging a list without repeated keys leaves it unchanged |
| Merge.MergeHoldsOnlyLast | 1ZagozenV1.py:120-124 | every merged record is the last record of its key |
| Merge.LastKeptInMerge | 1ZagozenV1.py:120-124 | the last record of each key is kept |
| Merge.LastMapAppend | KalcerV1.py:113-115 | the last record per key of two lists in a row is that of the second list, over that of the first |
| Merge.KeepLastSpec | MerkurV1.py:131 | `drop_duplicates(subset=['URL'], keep='last')` keeps one row per URL, the last one, and nothing that was not there |
| Merge.KeepLastOrder | MerkurV1.py:131 | `drop_duplicates(keep='last')` keeps the surviving rows in their original relative order: the result is a subsequence of the input |
| Merge.DistinctIffSize | MerkurV1.py:131 | a list has no repeated key exactly when it has as many distinct keys as records |
| Ordering.SortBySorted | KalcerV1.py:118-119 | the sort by `Zap` gives a sorted permutation of its input |
| Ordering.SortByStable | KalcerV1.py:118-119 | the sort is stable: the records of each rank keep their order |
| Store.MakeKeySame | 1ZagozenV1.py:114-118 | two records share a Zagožen key exactly when they have the same non-empty code, or neither has a code and their URLs agree |
| Store.SortByZapSpec | 1ZagozenV1.py:129-132 | the ordering step permutes the records; when every `Zap` converts, the result is sorted and stable; otherwise the merge order stays, as when the sort raises |
| Store.ProjectSpec | KalcerV1.py:127-134 | each sheet row has exactly the 17 columns: the record's value, NaN where only other records have the column, '' where none has it |
| Store.SaveData | KalcerV1.py:99-136 | `save_data` writes nothing for an empty batch; otherwise it writes the loaded, merged and ordered list to both files |
| Store.SavedFilesAgree | KalcerV1.py:121-134 | after a write the sheet is the JSON list cut to the 17 columns |
| Store.SavedUpsert | KalcerV1.py:99-136 | the upsert law: afterwards the store binds every key to the batch's last record for it, or to the stored record; one record per distinct key; the keys are the old ones plus the batch's |
| Store.SavedOrdered | KalcerV1.py:118-119 | the saved list is ordered by `Zap` whenever every `Zap` converts |
| Store.SaveTwiceSameContent | 1ZagozenV1.py:91-161 | saving the same batch again changes no binding |
| Store.ArrangeByZap | MerkurV1.py:140 | `sort_values(by='Zap')` with NaN last: a permutation with the numeric `Zap`s ascending and every NaN row after them |
| Store.Renumber | MerkurV1.py:141 | `Zap` becomes the position 1..n and each row is otherwise unchanged |
| Store.RenumberedRows | MerkurV1.py:140-141 | each exported row is a table row with its new number |
| Store.ExportedSheetSpec | MerkurV1.py:117-149 | Merkur's export: one row per distinct URL of old sheet and new data, exactly the 17 columns, `Zap` = 1..n, each row otherwise a de-duplicated table row |
| Store.ExportedSheetOrder | MerkurV1.py:140-141 | the exported rows are the de-duplicated table rearranged by old `Zap`, numeric ones ascending and NaN ones after them, the i-th renumbered i + 1 |
| Store.ExportedUrls | MerkurV1.py:125-131 | when every record has a URL, the exported URLs are those of old sheet and data, each once |
| Checkpoint.Max | KalcerV1.py:227-232 | `max`: bounds every element and is one of them |
| Checkpoint.ResumeCounter | KalcerV1.py:227-232 | the resumed counter is 0 for a missing, unreadable or empty JSON file and when some `Zap` does not convert; otherwise it is the largest stored `Zap` |
| Checkpoint.NumericZapsMembers | MerkurV1.py:244-246 | the numeric `Zap` cells are exactly the numbers some row's `Zap` converts to |
| Checkpoint.MerkurResumeSpec | MerkurV1.py:238-250 | Merkur resumes from the sheet: counter 0 without a numeric `Zap`; otherwise the largest numeric `Zap`, which bounds all of them and is some row's |
| Walker.PageUrlInjective | KalcerV1.py:158 | different page numbers give different page URLs |
| Walker.WalkAccepted | KalcerV1.py:156-172 | every page the walk takes was fetched at consecutive page numbers, passes the page test, and (except the last) shows a next-page link |
| Walker.WalkNoRepeat | SlovenijalesV1.py:169-175 | where the site compares pages, no page of the walk has the same first product as the page before it (the first page taken after page 1 differs from the given previous one) |
| Walker.WalkStopped | KalcerV1.py:161-172 | the walk ends for one of the loop's reasons: its last page has no next-page link, or the page after it does not load or fails the page test |
| Walker.CollectLinks | KalcerV1.py:154-176 | the page loop collects the links of the walked pages in order, asking for page 1, 2, ... in turn |
| Walker.VisitPage | KalcerV1.py:160-172 | one loop step: the page is taken exactly when it is there and passes the tests; it goes on exactly when it also has a next-page link |
| Walker.Distinct | KalcerV1.py:176 | `list(set(links))`: the same links, each once |
| Walker.SortedDistinctSpec | 1ZagozenV1.py:360 | `sorted(set(links))`: strictly sorted, the same links |
| SpecTable.StartRecord | KalcerV1.py:186-187 | a fresh record has exactly the eleven starting columns: `Zap`, `URL`, `Skupina`, the date, EUR, 22 % VAT, an empty code, unit `KOS`, and empty name, image and price |
| SpecTable.ReadRows | KalcerV1.py:193-200 | the row loop over the specification table computes the row function |
| SpecTable.ApplyRowsFrame | TehnolesV1.py:169-176 | the table fills only the code and unit columns and changes no other |
| SpecTable.ApplyRowsFields | KalcerV1.py:193-200 | code and unit are those of the last two-cell row naming them, else unchanged |
| SpecTable.LastValueSpec | TehnolesV1.py:169-176 | there is no value exactly when no two-cell row matches; otherwise it is the second cell of the last matching row |
| Session.AcceptedNumbered | KalcerV1.py:185 | with every lookup counting as the scrapers' lookups do, the accepted records are numbered `c+1, c+2, ...` without gaps, and the counter ends advanced by their number |
| Session.SavedBinding | KalcerV1.py:99-136 | a write makes the store bind what store and batch stood for together |
| Session.Offer | KalcerV1.py:247-249 | append to the buffer; at five records write it and empty it; store and buffer together still stand for every accepted record |
| Session.EndSubcategory | KalcerV1.py:251-253 | `if buffer: save_data(buffer)`; afterwards the store alone binds every accepted record |
| Session.Finish | KalcerV1.py:256-257 | the `finally` block: Zagožen writes the remainder; the others' `save_data([])` leaves the store unchanged |
| Session.GatherSub | KalcerV1.py:241-249 | the inner loop over one subcategory's items keeps the store-and-buffer invariant and the counter as the lookups thread it |
| Session.Gather | KalcerV1.py:219-258 | the loops of `main`: at the end every record accepted from the whole work, in order, is written over the store, and the counter ends where the lookups leave it |
| KalcerScraper.GetProductLinks | KalcerV1.py:154-176 | the subcategory's product links are the distinct, non-empty links of its walked pages |
| KalcerScraper.DetailsSpec | KalcerV1.py:178-217 | a product page gives a numbered record and advances the counter by one; a page that does not load gives nothing and leaves the counter |
| KalcerScraper.DescribedFields | KalcerV1.py:186-203 | before the prices: `Zap`, URL, group, date, currency and VAT; the name is the title or ""; code and unit come from the last matching table rows, else "" and `KOS`; no image and no brand yet |
| KalcerScraper.FilledFields | KalcerV1.py:205-215 | the finished record keeps `Zap`, URL and group; the brand is the page's or missing; the image is the page's image link or ""; every column but brand, the two prices and the image is as before the prices |
| KalcerScraper.FilledPrices | KalcerV1.py:205-212 | the VAT-exclusive price is the gross price converted at 22 % |
| KalcerScraper.ProductDetails | KalcerV1.py:178-217 | the method computes the lookup function |
| KalcerScraper.FetchNumbers | KalcerV1.py:185 | every Kalcer lookup counts as the session expects |
| KalcerScraper.Run | KalcerV1.py:219-258 | a Kalcer run: records numbered on from the resumed counter, every accepted record written over the store |
| TehnolesScraper.GetProductLinks | TehnolesV1.py:131-153 | the distinct links of the walked pages, each the base URL followed by a non-empty path |
| TehnolesScraper.SubName | TehnolesV1.py:219 | the group name is built from the URL's last path segment |
| TehnolesScraper.DetailsSpec | TehnolesV1.py:155-190 | a product page gives a numbered record and advances the counter by one; a missing page gives nothing |
| TehnolesScraper.DescribedFields | TehnolesV1.py:163-176 | before the prices: `Zap`, URL, group, date, currency and VAT; the name is the product text or ""; code and unit from the last matching table rows, else "" and `KOS`; no image yet |
| TehnolesScraper.FilledFields | TehnolesV1.py:178-188 | the finished record keeps `Zap`, URL and group; the image is the lightbox link or ""; every column but the two prices and the image is as before the prices |
| TehnolesScraper.FilledPrices | TehnolesV1.py:178-188 | the gross price is the page's, the VAT-exclusive price is it converted at 22 %, and a lightbox image is the base URL followed by its source |
| TehnolesScraper.ProductDetails | TehnolesV1.py:155-190 | the method computes the lookup function |
| TehnolesScraper.FetchNumbers | TehnolesV1.py:162 | every Tehnoles lookup counts as the session expects |
| TehnolesScraper.Run | TehnolesV1.py:192-238 | a Tehnoles run: records numbered on from the resumed counter, every accepted record written over the store |
| SlovenijalesScraper.Absolute | SlovenijalesV1.py:177-182 | a link becomes absolute, and an absolute link is kept |
| SlovenijalesScraper.GetProductLinks | SlovenijalesV1.py:155-189 | the distinct absolute links of the walked pages |
| SlovenijalesScraper.PricesSpec | SlovenijalesV1.py:212-224 | no current price means no prices; an old price makes the current one the promotion and the old one the regular price; otherwise the current price is the regular one |
| SlovenijalesScraper.PickPrices | SlovenijalesV1.py:212-224 | the method computes the price choice |
| SlovenijalesScraper.DetailsSpec | SlovenijalesV1.py:191-238 | a missing page or a page with neither name nor price gives nothing and leaves the counter; otherwise a numbered record, counter advanced by one |
| SlovenijalesScraper.BaseFields | SlovenijalesV1.py:198-200 | the fixed fields of a new record: URL, group, date, `Zap` 0, empty name, code, EAN, brand and image, unit `KOS`, EUR, 22 % VAT, delivery `N/A` |
| SlovenijalesScraper.DescribedFields | SlovenijalesV1.py:202-224 | name, code and EAN are the page's or ""; the two gross prices are the price choice; URL and group stay, no image yet, and no other column changes |
| SlovenijalesScraper.FilledFields | SlovenijalesV1.py:229-236 | the finished record has the counter as `Zap`, keeps URL, group and name, and the image is the page's or ""; every other column but the two VAT-exclusive prices is as described |
| SlovenijalesScraper.FilledPrices | SlovenijalesV1.py:232-233 | both VAT-exclusive prices are the gross prices converted at 22 % |
| SlovenijalesScraper.ProductDetails | SlovenijalesV1.py:191-238 | the method computes the lookup function |
| SlovenijalesScraper.FetchNumbers | SlovenijalesV1.py:229-230 | every Slovenijales lookup counts as the session expects |
| SlovenijalesScraper.Run | SlovenijalesV1.py:240-282 | a Slovenijales run: records numbered on from the resumed counter, every accepted record written over the store |
| ZagozenScraper.GetProductLinks | 1ZagozenV1.py:180-223 | the product links of the walked pages; page 1 is the listing URL and page n adds `?p=n` |
| ZagozenScraper.SortedLinksSpec | 1ZagozenV1.py:360 | the links a subcategory works on are strictly sorted and without duplicates: exactly its listing links |
| ZagozenScraper.UnitIndex | 1ZagozenV1.py:305-311 | the unit comes from the first "Cena je na" in the text: the upper-cased, stripped run up to the next dot |
| ZagozenScraper.UnitNone | 1ZagozenV1.py:305-311 | there is no unit exactly when "Cena je na" does not occur |
| ZagozenScraper.UnitShape | 1ZagozenV1.py:305-311 | a unit has no dot and no letter `upper()` would still change |
| ZagozenScraper.PricesSpec | 1ZagozenV1.py:281-298 | no price box means no prices; a special price makes it the promotion and the old price the regular one; otherwise the one price is regular |
| ZagozenScraper.PickPrices | 1ZagozenV1.py:281-298 | the method computes the price choice |
| ZagozenScraper.DetailsSpec | 1ZagozenV1.py:242-317 | a product page gives a numbered record and advances the counter by one; a missing page gives nothing |
| ZagozenScraper.BaseFields | 1ZagozenV1.py:251-258 | the fixed fields of a new record: URL, group, date, empty code, name, delivery, image and `Zap`, unit `KOS` |
| ZagozenScraper.DescribedFields | 1ZagozenV1.py:261-275 | name, code and delivery are the page's or ""; URL, group, date, unit `KOS` and the empty image stay, and no other column changes |
| ZagozenScraper.FilledFields | 1ZagozenV1.py:277-278 | the finished record has the counter as `Zap` and keeps URL, group, code and name |
| ZagozenScraper.FilledUnitImage | 1ZagozenV1.py:303-315 | the unit is the one read from the `em` text, else `KOS`; the image is the page's or ""; every other column but `Zap` and the four prices is as described |
| ZagozenScraper.FilledPrices | 1ZagozenV1.py:301-302 | both VAT-exclusive prices are the gross prices converted at 22 % |
| ZagozenScraper.ProductDetails | 1ZagozenV1.py:242-317 | the method computes the lookup function |
| ZagozenScraper.FetchNumbers | 1ZagozenV1.py:277-278 | every Zagožen lookup counts as the session expects |
| ZagozenScraper.Run | 1ZagozenV1.py:322-391 | a Zagožen run, keyed by code or URL, with the remainder written in `finally`: every accepted record written over the store |
| ObiScraper.PageTiles | ObiV1.py:184-207 | the tiles of the walked pages, all with a link, asking for `?p=1`, `?p=2`, ... |
| ObiScraper.SlashUnitIndex | ObiV1.py:219-221 | the unit is the text after the first slash that ends the line run, left-stripped, without a line break |
| ObiScraper.SlashUnitNone | ObiV1.py:219-221 | no slash, no unit |
| ObiScraper.SlashUnitOneLine | ObiV1.py:219-221 | on one stripped line there is a unit exactly when there is a slash |
| ObiScraper.ReadPriceSpan | ObiV1.py:214-221 | the price-span block sets the gross price and the unit when they are found |
| ObiScraper.ReadTile | ObiV1.py:212-228 | the tile's record: the fixed fields, the price span, the VAT-exclusive price and the image |
| ObiScraper.BaseFields | ObiV1.py:209-211 | the fixed fields of a new record, numbered with the counter |
| ObiScraper.TiledFields | ObiV1.py:209-211 | the tile record keeps `Zap`, URL, group, date, currency and VAT |
| ObiScraper.TileRecordFields | ObiV1.py:214-228 | the columns a tile fills |
| ObiScraper.TiledPrices | ObiV1.py:225 | the VAT-exclusive price is the tile's gross price converted at 22 % |
| ObiScraper.FilledFields | ObiV1.py:230-238 | the finished tile record keeps `Zap`, URL, group, date, currency and VAT, and only name and code can differ from the tile's record |
| ObiScraper.FilledDetail | ObiV1.py:214-238 | with a product page, name and code are its stripped title and id, "" when missing; without one they stay missing; the gross price and the unit are those of the tile |
| ObiScraper.DetailsSpec | ObiV1.py:209-243 | every tile with a link gives a record numbered with the next counter value |
| ObiScraper.ItemRecord | ObiV1.py:204-243 | the method computes the tile function |
| ObiScraper.AcceptedAll | ObiV1.py:204-243 | every linked tile is accepted |
| ObiScraper.FetchNumbers | ObiV1.py:209-211 | every OBI lookup counts as the session expects |
| ObiScraper.Run | ObiV1.py:152-256 | an OBI run: records numbered on from the resumed counter, every accepted record written over the store |
| MerkurScraper.ListPriceSpec | MerkurV1.py:186-191 | the list price is "" exactly when there is no token; the only token or else the second one; digits and commas only |
| MerkurScraper.DetailsSpec | MerkurV1.py:181-220 | a tile with neither name nor price, or a detail page that does not load, gives nothing and leaves the counter; otherwise a record numbered with the next value |
| MerkurScraper.BaseFields | MerkurV1.py:204-209 | the fixed fields of a new record: `Zap`, URL, group, name, unit `KOS`, gross price, date, EUR, 22 % VAT, and no code yet |
| MerkurScraper.FilledFields | MerkurV1.py:204-209 | the finished record keeps `Zap`, URL, group, name, unit, date, currency and VAT |
| MerkurScraper.FilledPrices | MerkurV1.py:211-218 | the gross price is the list price, the VAT-exclusive one its conversion at 22 %, the code the detail page's, the image the tile's source |
| MerkurScraper.ReadTileText | MerkurV1.py:185-191 | the tile's name and list price |
| MerkurScraper.FillRecord | MerkurV1.py:199-218 | the method computes the record function |
| MerkurScraper.ProductDetails | MerkurV1.py:181-220 | the method computes the lookup function |
| MerkurScraper.PageTiles | MerkurV1.py:263-289 | the linked tiles of the walked pages, asking for `?p=n#section-products` in turn |
| MerkurScraper.LookupIsOk | MerkurV1.py:204 | every Merkur lookup counts as the session expects |
| MerkurScraper.ScanSubcategory | MerkurV1.py:289-305 | the tile loop computes the scan function |
| MerkurScraper.VisitKeeps | MerkurV1.py:289-305 | one tile keeps the scan invariant: new records numbered on, under new and distinct URLs |
| MerkurScraper.ScanTilesKeeps | MerkurV1.py:289-305 | a subcategory's tiles keep the scan invariant |
| MerkurScraper.AddedUrlsNew | MerkurV1.py:294 | added records have URLs no loaded row has |
| MerkurScraper.AddedUrlsDistinct | MerkurV1.py:302 | added records have distinct URLs |
| MerkurScraper.AfterSubKeeps | MerkurV1.py:289-318 | a subcategory keeps the run invariant |
| MerkurScraper.AfterSubsKeeps | MerkurV1.py:256-318 | all subcategories keep the run invariant |
| MerkurScraper.Subcategory | MerkurV1.py:256-318 | the method computes the subcategory step |
| MerkurScraper.Subcategories | MerkurV1.py:256-318 | the loop over the subcategory URLs computes the subcategory steps in order, from the resumed start |
| MerkurScraper.RunKeeps | MerkurV1.py:238-318 | from the resumed rows and counter, the whole loop keeps the run invariant |
| MerkurScraper.FinalWrites | MerkurV1.py:319-331 | the sheet written after the loops and once more in `finally`, and the JSON file written in `finally` |
| MerkurScraper.Run | MerkurV1.py:225-335 | a Merkur run keeps the run invariant: the loaded rows followed by new records numbered on from the resumed counter, each under a URL no loaded row and no other new record has; the JSON file holds them; the sheet is the export applied twice |
| Supervisor.Tail | run_all.py:62-63 | `s[-4000:]`: the last 4000 characters, or all of a shorter string, and a suffix of it |
| Supervisor.TailIdempotent | run_all.py:62-63 | a tail is its own tail |
| Supervisor.ResultOfSpec | run_all.py:48-76 | "ok" exactly on exit code 0, "error" on any other code, "timeout" exactly at the limit, with no return code; tails of what was printed, the empty text for missing output, `bytes` for partial output |
| Supervisor.WritableSpec | run_all.py:74-81 | a result can be written to the progress file exactly when its child did not time out after printing |
| Supervisor.TailsBounded | run_all.py:62-75 | every tail keeps at most 4000 characters |
| Supervisor.TimeoutMinutesSpec | run_all.py:28 | the limit is 45 minutes without the variable and `m` when it holds the numeral of `m` |
| Supervisor.AnyBadSpec | run_all.py:96 | `any(...)` holds exactly when some result is "error" or "timeout" |
| Supervisor.ExitCodeSpec | run_all.py:96-97 | the exit status is 0 or 1, and 0 exactly when every script is "ok" |
| Supervisor.Results | run_all.py:43-81 | one result per script |
| Supervisor.Snapshots | run_all.py:41-81 | the progress file first holds no results, then one more each time |
| Supervisor.WritableRun | run_all.py:43-81 | the number of scripts before the first that times out after printing: none before it does, it does, or there is none |
| Supervisor.ResultsSnoc | run_all.py:79 | the results of one more script are those before it followed by its own |
| Supervisor.Supervise | run_all.py:41-97 | once the limit is known: either every result writes and the summary and exit status follow, or the run crashes at the first unwritable result with status 1 |
| Supervisor.RunOne | run_all.py:48-76 | one script's `try` computes its result |
| Supervisor.RunScripts | run_all.py:43-81 | the script loop gives the results in order, with a progress snapshot after each script, up to and including the first script that timed out after printing; the progress write for that one raises and ends the loop |
| Supervisor.RunAll | run_all.py:23-97 | `main`: a bad limit stops everything; a timeout after printing ends the run with status 1, no summary and the progress file broken off; otherwise the summary holds every result and the exit status is that of the results; children see `OUTPUT_DIR` |
| Supervisor.ExitCodeOfRun | run_all.py:43-97 | a run exits with 0 exactly when every script exited with code 0 within its time |

## Left out

- Fetching, HTML parsing, logging, printing, sleeps and random delays are not modelled. A shop is a map from URL to a page already parsed into the fields the scrapers read, so the selectors themselves are not modelled.
- Clock and duration fields (`started_at`, `finished_at`, `duration_s`, the scrape date) are left out. The date is a parameter.
- `KeyboardInterrupt` and other exceptions inside the loops are not modelled. They are the reason the `finally` blocks exist. The `finally` block itself is modelled.
- Python's `float()` is modelled on exact decimal numbers. The model covers an optional sign, ASCII digits and at most one point. `f"{v:.2f}"` is modelled as rounding half up. Binary floating point, which can round a halfway price the other way, is not modelled. Neither are exponents, `inf` and `nan`.
- Python's `int()` is modelled on stripped text with an optional sign and ASCII digits. Underscores and non-ASCII digits are not modelled.
- The class `\d` is modelled on ASCII digits only; Python's `\d` also matches other decimal digits. `\s` and `strip()` follow `str.isspace`.
- UnitIndex: `upper()` and `lower()` are modelled on Basic Latin, Latin-1 and Latin Extended-A letters, č, š, ž, ć and đ among them. Letters beyond U+017F are left as they are, and so are 'ß' and 'ŉ', which `upper()` turns into two characters, and 'İ', which `lower()` turns into two.
- Text.Strip: its own contract does not say that what it cuts off is whitespace; Text.StripCutsSpace states that as a separate lemma, which keeps the many callers of `Strip` cheap to verify.
- Price.CleanZagozen: its own contract states only what is gone; Price.CleanZagozenSpec states what is kept and in what order.
- `list(set(links))` has an unspecified order. The model keeps each link at its first appearance.
- `PilihBetonV1.py` is not part of this model. The supervisor treats it only as the name of a script to run.
- `OUTPUT_DIR` path construction, the log files and the JSON text of the progress and summary files are left out. So is which part of `run_progress.json` a write that raises leaves behind: the model records only what that write was writing.
- Supervisor.PartialTail: the `bytes` of a partial output are modelled by the characters they encode, and the tail keeps 4000 of them rather than 4000 bytes. Such a tail is never written.
- Store.ArrangeByZap: the model keeps rows with equal `Zap` in table order, because it sorts with a stable sort. `sort_values(by="Zap")` uses pandas' default quicksort, which leaves the order of tied rows unspecified, so which of two tied rows gets the lower new number is the model's choice. `MerkurScraper.Run` inherits that choice.
- Store.ExportedSheetSpec: assumes every `Zap` cell of the table is a number or missing. The model leaves the sheet unchanged for any non-numeric `Zap`. pandas sorts an all-text `Zap` column as text and raises only on text mixed with numbers.
- MerkurScraper.PageTiles, ObiScraper.PageTiles: the source handles each listing page's tiles before it fetches the next page. The model walks first and then handles the tiles. The pages are a fixed map, so the result is the same.
- Session.Gather: the counter is a value threaded through the lookups, not a module-level global.
- Walker.Fingerprint: on Slovenijales a first tile whose anchor has no `href` makes `noviprvi_tag['href']` raise `KeyError` at SlovenijalesV1.py:171, which ends the run through `main`'s `except`. The model gives no fingerprint there and walks on.
- Store.Project: for the Merkur export pandas keeps a column that only dropped duplicate rows had, filled with NaN; the model writes '' in it.
- Checkpoint.MerkurResumeSpec: `pd.to_numeric` also accepts decimal text such as "3.5", which the model does not count as a numeric `Zap`.
