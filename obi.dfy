/** The OBI scraper (obi.si): its `main` walks each subcategory's listing
    and builds a record from every tile as it goes, with the price and the
    unit read off the tile and the title and code off the product page. */
module ObiScraper {
  import opened Wrappers
  import opened Text
  import opened Values
  import opened Price
  import opened Store
  import opened Checkpoint
  import opened Walker
  import opened Session

  const Vat: nat := 22

  /** A product page as parsed: the text of the `h1` inside
      `div.product-basics-info` (None when the block or its `h1` is
      missing) and the text of `div.product-id` (None when missing). */
  datatype DetailPage = DetailPage(title: Option<string>, productId: Option<string>)

  /** One subcategory of the configuration: its category's name and its
      listing URL. */
  datatype Subcategory = Subcategory(category: string, url: string)

  // ---------------------------------------------------------------------
  // The page loop of `main`

  /** The tiles the item loop does not skip: those with an anchor. */
  function TileLink(t: Tile): seq<Tile> {
    if t.anchor then [t] else []
  }

  /** The tiles of the pages the walk of `url` takes, in page order: page n
      is `url?p=n`, and the walk stops at a page that fails, has no
      product list or no items, repeats the previous page's first `h4`, or
      has no `a.next`. */
  function ListingTiles(url: string, pages: Listing): seq<Tile> {
    UrlsInjective(Obi, url);
    LinksOf(TileLink, Walk(RulesOf(Obi), Urls(Obi, url), pages, 1, Some("star")))
  }

  /** The page loop, walking `url?p=1`, `url?p=2`, ... and keeping the
      anchored tiles in order. */
  method PageTiles(url: string, pages: Listing) returns (tiles: seq<Tile>, asked: seq<string>)
    ensures tiles == ListingTiles(url, pages)
    ensures forall t :: t in tiles ==> t.anchor
    ensures forall i :: 0 <= i < |asked| ==> asked[i] == url + "?p=" + Dec(i + 1)
  {
    UrlsInjective(Obi, url);
    tiles, asked := CollectLinks(RulesOf(Obi), TileLink, Urls(Obi, url), pages);
    LinksOfAll(TileLink, Walk(RulesOf(Obi), Urls(Obi, url), pages, 1, Some("star")), (t: Tile) => t.anchor);
  }

  // ---------------------------------------------------------------------
  // The unit after the slash

  /** `re.search(...).group(1)` with the pattern `\s*`, then a slash, then
      `\s*(.*)$`, on a stripped text `t`: at
      the first slash from which the rest, after its leading white space,
      holds no line break, that rest; None when there is none (the
      `except: pass`). */
  function SlashUnit(t: string): Option<string>
    decreases |t|
  {
    if SlashHere(t) then Some(LStrip(t[1..]))
    else if t == [] then None
    else SlashUnit(t[1..])
  }

  /** The text starts with a slash from which the pattern matches. */
  predicate SlashHere(s: string) {
    s != [] && s[0] == '/' && '\n' !in LStrip(s[1..])
  }

  /** A unit found is the rest after the first slash the pattern matches
      at, without its leading white space, and on one line. */
  lemma {:induction false} SlashUnitIndex(t: string) returns (k: nat)
    requires SlashUnit(t).Some?
    ensures k < |t| && SlashHere(t[k..])
    ensures forall j :: 0 <= j < k ==> !SlashHere(t[j..])
    ensures SlashUnit(t).value == LStrip(t[k + 1..]) && '\n' !in SlashUnit(t).value
    decreases |t|
  {
    if SlashHere(t) {
      k := 0;
      assert t[0..] == t;
    } else {
      var j := SlashUnitIndex(t[1..]);
      k := j + 1;
      assert t[k..] == t[1..][j..];
      assert t[k + 1..] == t[1..][j + 1..];
      forall i | 0 <= i < k ensures !SlashHere(t[i..]) {
        if i > 0 {
          assert t[i..] == t[1..][i - 1..];
        } else {
          assert t[0..] == t;
        }
      }
    }
  }

  /** No unit is found only where the pattern matches at no slash. */
  lemma {:induction false} SlashUnitNone(t: string)
    requires SlashUnit(t).None?
    ensures forall k :: 0 <= k < |t| ==> !SlashHere(t[k..])
    decreases |t|
  {
    if t != [] {
      assert t[0..] == t;
      SlashUnitNone(t[1..]);
      forall k | 1 <= k < |t| ensures !SlashHere(t[k..]) {
        assert t[k..] == t[1..][k - 1..];
      }
    }
  }

  /** On a single line the unit is there exactly when a slash is. */
  lemma SlashUnitOneLine(t: string)
    requires '\n' !in t
    ensures SlashUnit(t).Some? <==> '/' in t
  {
    if SlashUnit(t).Some? {
      var k := SlashUnitIndex(t);
      assert t[k..][0] == t[k];
    } else {
      SlashUnitNone(t);
      forall k | 0 <= k < |t| ensures t[k] != '/' {
        var rest := LStrip(t[k..][1..]);
        assert rest == t[k..][1..][|t[k..][1..]| - |rest|..];
        assert '\n' !in rest;
        assert t[k..][0] == t[k];
      }
    }
  }

  // ---------------------------------------------------------------------
  // The record of one item

  /** The price with VAT: the first run of digits, dots and commas of the
      `span.price` text; None when there is no span or no such run. */
  function GrossPrice(t: Tile): Option<string> {
    if t.price.Some? then FirstToken(DigitsDotsCommas, t.price.value.text) else None
  }

  /** The unit: whatever follows the slash in the stripped text of the
      price span's parent; None when there is no span or no slash. */
  function TileUnit(t: Tile): Option<string> {
    if t.price.Some? then SlashUnit(Strip(t.price.value.parentText)) else None
  }

  /** The record an anchored tile starts as, numbered `zap`. */
  function Base(group: string, date: string, t: Tile, zap: int): Record {
    map["Skupina" := Str(group), "Zap" := Int(zap), "Veljavnost od" := Str(date), "Valuta" := Str("EUR"),
        "DDV" := Str("22"), "EM" := Str("kos"), "URL" := ValueOf(t.href)]
  }

  /** The fields the tile gives, over `b`: the price with VAT when found,
      the unit when found, the price without VAT, and the image. */
  function TileRecord(b: Record, price: Option<string>, unit: Option<string>, image: Value): Record {
    var d := SetIf(SetIf(b, "Cena / EM (z DDV)", price), "EM", unit);
    d["Cena / EM (brez DDV)" := Str(ConvertWithoutVat(Get(d, "Cena / EM (z DDV)"), Vat))]["SLIKA URL" := image]
  }

  /** The record once the tile is read. */
  function Tiled(group: string, date: string, t: Tile, zap: int): Record {
    TileRecord(Base(group, date, t, zap), GrossPrice(t), TileUnit(t), SrcValue(t.image))
  }

  /** The stripped text of a tag, '' when the tag is missing. */
  function StrippedOr(o: Option<string>): string {
    if o.Some? then Strip(o.value) else ""
  }

  /** The whole record: with the title and code of the product page when
      it loads (`detail`), and without those keys when it does not. */
  function Filled(group: string, date: string, t: Tile, detail: Option<DetailPage>, zap: int): Record {
    WithDetail(Tiled(group, date, t, zap), detail)
  }

  /** The title and the code of the product page, when it loads, over `d`. */
  function WithDetail(d: Record, detail: Option<DetailPage>): Record {
    if detail.None? then d
    else d["Opis" := Str(StrippedOr(detail.value.title))]["Oznaka / naziv" := Str(StrippedOr(detail.value.productId))]
  }

  /** One anchored tile with the counter `c` before it: the counter moves
      first, and the record is kept whether or not the product page loads. */
  function Details(group: string, date: string, t: Tile, detail: Option<DetailPage>, c: int): Fetched {
    Fetched(Some(Filled(group, date, t, detail, c + 1)), c + 1)
  }

  /** The body of the item loop for an anchored tile. */
  method ItemRecord(group: string, date: string, t: Tile, detail: Option<DetailPage>, c: int)
    returns (f: Fetched)
    ensures f == Details(group, date, t, detail, c)
  {
    var counter := c + 1;
    var data := Base(group, date, t, counter);
    data := ReadTile(data, t);
    if detail.Some? {
      data := data["Opis" := Str(StrippedOr(detail.value.title))];
      data := data["Oznaka / naziv" := Str(StrippedOr(detail.value.productId))];
    }
    f := Fetched(Some(data), counter);
  }

  /** The part of the item loop that reads the tile into `b`. */
  method ReadTile(b: Record, t: Tile) returns (data: Record)
    ensures data == TileRecord(b, GrossPrice(t), TileUnit(t), SrcValue(t.image))
  {
    data := ReadPriceSpan(b, t);
    data := data["Cena / EM (brez DDV)" := Str(ConvertWithoutVat(Get(data, "Cena / EM (z DDV)"), Vat))];
    data := data["SLIKA URL" := SrcValue(t.image)];
  }

  /** `if price_el:`, the price with VAT and the unit when found. */
  method ReadPriceSpan(b: Record, t: Tile) returns (data: Record)
    ensures data == SetIf(SetIf(b, "Cena / EM (z DDV)", GrossPrice(t)), "EM", TileUnit(t))
  {
    data := b;
    if t.price.Some? {
      var found := FirstToken(DigitsDotsCommas, t.price.value.text);
      data := SetIf(data, "Cena / EM (z DDV)", found);
      data := SetIf(data, "EM", SlashUnit(Strip(t.price.value.parentText)));
    }
  }

  lemma BaseFields(group: string, date: string, t: Tile, zap: int)
    ensures var r := Base(group, date, t, zap);
      && Get(r, "Zap") == Int(zap) && Get(r, "URL") == ValueOf(t.href) && Get(r, "Skupina") == Str(group)
      && Get(r, "EM") == Str("kos") && Get(r, "Cena / EM (z DDV)") == Null
      && Get(r, "Opis") == Null && Get(r, "Oznaka / naziv") == Null
  {
  }

  /** What the tile's fields do to `b`: the price with VAT is set when
      found and stays as in `b` otherwise, likewise the unit; the price
      without VAT is the conversion of the price with VAT; every field the
      tile does not set stays. */
  lemma TileRecordFields(b: Record, price: Option<string>, unit: Option<string>, image: Value)
    ensures var r := TileRecord(b, price, unit, image);
      && Get(r, "Cena / EM (z DDV)") == (if price.Some? then Str(price.value) else Get(b, "Cena / EM (z DDV)"))
      && Get(r, "EM") == (if unit.Some? then Str(unit.value) else Get(b, "EM"))
      && Get(r, "Cena / EM (brez DDV)") == Str(ConvertWithoutVat(Get(r, "Cena / EM (z DDV)"), Vat))
      && Get(r, "SLIKA URL") == image
      && forall k :: k !in {"Cena / EM (z DDV)", "EM", "Cena / EM (brez DDV)", "SLIKA URL"} ==> Get(r, k) == Get(b, k)
  {
    var d0 := SetIf(b, "Cena / EM (z DDV)", price);
    var d := SetIf(d0, "EM", unit);
    assert Get(d, "Cena / EM (z DDV)") == Get(d0, "Cena / EM (z DDV)");
  }

  /** The record carries the number `zap`, the tile's link (None when the
      anchor has no `href`), the category and the date defaults; every
      column but the title and the code of the product page is as the tile
      left it. */
  lemma FilledFields(group: string, date: string, t: Tile, detail: Option<DetailPage>, zap: int)
    ensures var r := Filled(group, date, t, detail, zap);
      && Get(r, "Zap") == Int(zap) && Get(r, "URL") == ValueOf(t.href) && Get(r, "Skupina") == Str(group)
      && Get(r, "Veljavnost od") == Str(date) && Get(r, "Valuta") == Str("EUR") && Get(r, "DDV") == Str("22")
    ensures forall k :: k != "Opis" && k != "Oznaka / naziv" ==>
      Get(Filled(group, date, t, detail, zap), k) == Get(Tiled(group, date, t, zap), k)
  {
    TiledFields(group, date, t, zap);
    WithDetailFrame(Tiled(group, date, t, zap), detail);
  }

  /** The tile keeps the number, link, category and date defaults. */
  lemma TiledFields(group: string, date: string, t: Tile, zap: int)
    ensures var r := Tiled(group, date, t, zap);
      && Get(r, "Zap") == Int(zap) && Get(r, "URL") == ValueOf(t.href) && Get(r, "Skupina") == Str(group)
      && Get(r, "Veljavnost od") == Str(date) && Get(r, "Valuta") == Str("EUR") && Get(r, "DDV") == Str("22")
  {
    var b := Base(group, date, t, zap);
    assert Get(b, "Veljavnost od") == Str(date) && Get(b, "Valuta") == Str("EUR") && Get(b, "DDV") == Str("22");
    BaseFields(group, date, t, zap);
    TileRecordFields(b, GrossPrice(t), TileUnit(t), SrcValue(t.image));
  }

  /** The product page sets the title and the code and nothing else. */
  lemma WithDetailFrame(d: Record, detail: Option<DetailPage>)
    ensures forall k :: k != "Opis" && k != "Oznaka / naziv" ==> Get(WithDetail(d, detail), k) == Get(d, k)
  {
    if detail.Some? {
      var d1 := d["Opis" := Str(StrippedOr(detail.value.title))];
      forall k | k != "Opis" && k != "Oznaka / naziv" ensures Get(WithDetail(d, detail), k) == Get(d, k) {
        assert Get(WithDetail(d, detail), k) == Get(d1, k);
      }
    }
  }

  /** The price with VAT is the first number of the price span, absent when
      there is none; the price without VAT is its conversion, so "" when
      there is no price; the unit is the one after the slash, "kos" when
      there is none; the image is the tag's `src`, '' without a tag. */
  lemma TiledPrices(group: string, date: string, t: Tile, zap: int)
    ensures var r := Tiled(group, date, t, zap);
      && Get(r, "Cena / EM (z DDV)") == ValueOf(GrossPrice(t))
      && Get(r, "Cena / EM (brez DDV)") == Str(ConvertWithoutVat(Get(r, "Cena / EM (z DDV)"), Vat))
      && (GrossPrice(t).None? ==> Get(r, "Cena / EM (brez DDV)") == Str(""))
      && Get(r, "EM") == Str(TileUnit(t).GetOr("kos"))
      && Get(r, "SLIKA URL") == SrcValue(t.image)
      && Get(r, "Opis") == Null && Get(r, "Oznaka / naziv") == Null
  {
    BaseFields(group, date, t, zap);
    TileRecordFields(Base(group, date, t, zap), GrossPrice(t), TileUnit(t), SrcValue(t.image));
  }

  /** When the product page loads, the title and the code are its stripped
      texts, '' for a missing tag; when it does not, the record has
      neither key. The tile's fields stay as they were. */
  lemma FilledDetail(group: string, date: string, t: Tile, detail: Option<DetailPage>, zap: int)
    ensures var r := Filled(group, date, t, detail, zap);
      && (detail.Some? ==> Get(r, "Opis") == Str(StrippedOr(detail.value.title)))
      && (detail.Some? ==> Get(r, "Oznaka / naziv") == Str(StrippedOr(detail.value.productId)))
      && (detail.None? ==> Get(r, "Opis") == Null && Get(r, "Oznaka / naziv") == Null)
      && Get(r, "Cena / EM (z DDV)") == ValueOf(GrossPrice(t))
      && Get(r, "EM") == Str(TileUnit(t).GetOr("kos"))
  {
    TiledPrices(group, date, t, zap);
  }

  /** Every anchored tile gives a record, numbered with the next counter
      value, whether or not its product page loads. */
  lemma DetailsSpec(group: string, date: string, t: Tile, detail: Option<DetailPage>, c: int)
    ensures Numbers(c, Details(group, date, t, detail, c))
    ensures Details(group, date, t, detail, c).record == Some(Filled(group, date, t, detail, c + 1))
  {
    FilledFields(group, date, t, detail, c + 1);
  }

  // ---------------------------------------------------------------------
  // main

  /** The product page of a tile, when its link loads. */
  function DetailOf(t: Tile, products: map<string, DetailPage>): Option<DetailPage> {
    if t.href.Some? && t.href.value in products then Some(products[t.href.value]) else None
  }

  /** The item lookup of a run on `date` against the product pages that
      load. */
  function Fetch(date: string, products: map<string, DetailPage>): (Item<Tile>, int) -> Fetched {
    (x: Item<Tile>, c: int) => Details(x.group, date, x.link, DetailOf(x.link, products), c)
  }

  /** The work of one subcategory: its anchored tiles in page order, filed
      under its category's name. */
  function SubItems(s: Subcategory, pages: Listing): seq<Item<Tile>> {
    var tiles := ListingTiles(s.url, pages);
    seq(|tiles|, i requires 0 <= i < |tiles| => Item(s.category, tiles[i]))
  }

  lemma FetchNumbers(date: string, products: map<string, DetailPage>)
    ensures forall x, d :: Numbers(d, Fetch(date, products)(x, d))
  {
    forall x, d ensures Numbers(d, Fetch(date, products)(x, d)) {
      DetailsSpec(x.group, date, x.link, DetailOf(x.link, products), d);
    }
  }

  /** Every item gives a record: the run accepts one record per anchored
      tile of the work. */
  lemma {:induction false} AcceptedAll(date: string, products: map<string, DetailPage>, items: seq<Item<Tile>>, c: int)
    ensures |Accepted(Fetch(date, products), items, c).0| == |items|
  {
    if items != [] {
      AcceptedAll(date, products, items[..|items| - 1], c);
    }
  }

  /** `main`: resume the counter from the JSON file, then for every
      subcategory walk its pages and turn each anchored tile into a record,
      buffer the records and write them every `FlushAt` records and at the
      end of the subcategory; `finally` calls `save_data([])`. One record
      per anchored tile is accepted, numbered on from the resumed counter,
      and the store binds every link to the last accepted record with that
      link, over what it held before. */
  method Run(subs: seq<Subcategory>, pages: Listing, products: map<string, DetailPage>, date: string, files: Files)
    returns (stored: Files, counter: int)
    ensures var (rs, c) := Accepted(Fetch(date, products), Work(subs, s => SubItems(s, pages)), ResumeCounter(files.json));
      && counter == c
      && |rs| == |Work(subs, s => SubItems(s, pages))|
      && counter == ResumeCounter(files.json) + |rs|
      && NumberedFrom(ResumeCounter(files.json), rs)
      && Binding(ByUrl, stored, []) == Binding(ByUrl, files, rs)
  {
    var c0 := ResumeCounter(files.json);
    stored, counter := Gather(ByUrl, false, subs, s => SubItems(s, pages), Fetch(date, products), files, c0);
    FetchNumbers(date, products);
    AcceptedNumbered(Fetch(date, products), Work(subs, s => SubItems(s, pages)), c0);
    AcceptedAll(date, products, Work(subs, s => SubItems(s, pages)), c0);
  }
}
