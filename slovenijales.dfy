/** The Slovenijales scraper (trgovina.slovenijales.si): listing walk with
    repeat detection, product page, and the run over all subcategories. */
module SlovenijalesScraper {
  import opened Wrappers
  import opened Text
  import opened Values
  import opened Price
  import opened Store
  import opened Checkpoint
  import opened Walker
  import opened Session

  const Vat: nat := 22
  const BaseUrl := "https://trgovina.slovenijales.si"

  /** A product page as parsed: the `h1[itemprop="name"]` text, the
      `content` of the `sku` and `gtin13` meta tags, the texts of the new
      and the old price (`span.new`, `span.old`), and the `src` of the
      slider image. An attribute the tag lacks reads as ''; a tag that is
      missing leaves the default '', so both are `Some("")` or `None` alike. */
  datatype ProductPage = ProductPage(
    name: Option<string>,
    sku: Option<string>,
    ean: Option<string>,
    newPrice: Option<string>,
    oldPrice: Option<string>,
    image: Option<string>)

  /** One subcategory of the configuration: its category's name, under
      which its records are filed, and its listing URL. */
  datatype Subcategory = Subcategory(category: string, url: string)

  // ---------------------------------------------------------------------
  // get_product_links_from_category

  /** A link as the scraper keeps it: as it is when it starts with "http",
      otherwise after `BASE_URL`. */
  function Absolute(href: string): (r: string)
    ensures StartsWith(r, "http")
    ensures StartsWith(href, "http") ==> r == href
  {
    if StartsWith(href, "http") then href
    else
      assert (BaseUrl + href)[..4] == BaseUrl[..4];
      BaseUrl + href
  }

  /** A tile contributes its `.product-img a` link when the anchor has an
      `href`, even an empty one. */
  function TileLink(t: Tile): seq<string> {
    if t.anchor && t.href.Some? then [Absolute(t.href.value)] else []
  }

  /** The links of the pages the walk of `url` takes, in page order. */
  function ListingLinks(url: string, pages: Listing): seq<string> {
    UrlsInjective(Slovenijales, url);
    LinksOf(TileLink, Walk(RulesOf(Slovenijales), Urls(Slovenijales, url), pages, 1, Some("star")))
  }

  /** `list(set(all_links))`: each link once (the order of a Python set is
      replaced by first occurrence), all of them absolute. */
  method GetProductLinks(url: string, pages: Listing) returns (links: seq<string>)
    ensures links == Distinct(ListingLinks(url, pages))
    ensures NoDuplicates(links)
    ensures forall l :: l in links <==> l in ListingLinks(url, pages)
    ensures forall l :: l in links ==> StartsWith(l, "http")
  {
    UrlsInjective(Slovenijales, url);
    var all, _ := CollectLinks(RulesOf(Slovenijales), TileLink, Urls(Slovenijales, url), pages);
    LinksOfAll(TileLink, Walk(RulesOf(Slovenijales), Urls(Slovenijales, url), pages, 1, Some("star")),
               (l: string) => StartsWith(l, "http"));
    links := Distinct(all);
  }

  // ---------------------------------------------------------------------
  // get_product_details

  /** The first run of digits, dots and commas of a price tag's text. */
  function Token(tag: Option<string>): Option<string> {
    if tag.None? then None else FirstToken(DigitsDotsCommas, tag.value)
  }

  /** The regular and the promotional price with VAT: with a new price
      whose text holds a number and an old price tag, the promotional price
      is the new one and the regular price the old one ("" when its text
      holds no number); with a new price only, the regular price is the new
      one; "" otherwise. */
  datatype Prices = Prices(regular: string, promo: string)

  function PricesOf(p: ProductPage): Prices {
    match Token(p.newPrice)
    case None => Prices("", "")
    case Some(price) =>
      if p.oldPrice.Some? then Prices(Token(p.oldPrice).GetOr(""), price) else Prices(price, "")
  }

  /** `if not data['Opis'] and not data['Cena / EM (z DDV)']`: the page
      has neither a title nor a regular price. */
  predicate Blank(p: ProductPage) {
    p.name.GetOr("") == "" && PricesOf(p).regular == ""
  }

  /** The record the details start from. */
  function Base(group: string, date: string, url: string): Record {
    map["Skupina" := Str(group), "Zap" := Int(0), "Oznaka / naziv" := Str(""), "EAN" := Str(""),
        "Opis" := Str(""), "EM" := Str("KOS"), "Valuta" := Str("EUR"), "DDV" := Str("22"),
        "Proizvajalec" := Str(""), "Veljavnost od" := Str(date), "Dobava" := Str("N/A"),
        "Cena / EM (z DDV)" := Str(""), "Akcijska cena / EM (z DDV)" := Str(""), "URL" := Str(url),
        "SLIKA URL" := Str("")]
  }

  /** The record before the blank-page test: title, code, EAN and
      the two prices with VAT. */
  function Described(url: string, group: string, date: string, p: ProductPage): Record {
    Describe(Base(group, date, url), p)
  }

  /** Title, code, EAN and the two prices with VAT, set on top of `d`. */
  function Describe(d: Record, p: ProductPage): Record {
    var e := SetIf(SetIf(SetIf(d, "Opis", p.name), "Oznaka / naziv", p.sku), "EAN", p.ean);
    e["Cena / EM (z DDV)" := Str(PricesOf(p).regular)]["Akcijska cena / EM (z DDV)" := Str(PricesOf(p).promo)]
  }

  /** The number `zap`, the prices without VAT `net` and `netPromo`, and
      the image, set on top of `d`. */
  function Completed(d: Record, zap: int, net: string, netPromo: string, image: Option<string>): Record {
    SetIf(d["Zap" := Int(zap)]["Cena / EM (brez DDV)" := Str(net)]["Akcijska cena / EM (brez DDV)" := Str(netPromo)], "SLIKA URL", image)
  }

  /** The record of a page that passed the blank-page test, numbered `zap`. */
  function Filled(url: string, group: string, date: string, p: ProductPage, zap: int): Record {
    Completed(Described(url, group, date, p), zap, ConvertWithoutVat(Str(PricesOf(p).regular), Vat),
              ConvertWithoutVat(Str(PricesOf(p).promo), Vat), p.image)
  }

  /** The record of a product page fetched as `page` (None when it does not
      load), with the counter `c` before the call. */
  function Details(url: string, group: string, date: string, page: Option<ProductPage>, c: int): Fetched {
    if page.None? || Blank(page.value) then Fetched(None, c)
    else Fetched(Some(Filled(url, group, date, page.value, c + 1)), c + 1)
  }

  /** `get_product_details`. */
  method ProductDetails(url: string, group: string, date: string, page: Option<ProductPage>, c: int)
    returns (f: Fetched)
    ensures f == Details(url, group, date, page, c)
  {
    if page.None? {
      return Fetched(None, c);
    }
    var p := page.value;
    var data := Base(group, date, url);
    data := SetIf(data, "Opis", p.name);
    data := SetIf(data, "Oznaka / naziv", p.sku);
    data := SetIf(data, "EAN", p.ean);
    var regular, promo := PickPrices(p);
    data := data["Cena / EM (z DDV)" := Str(regular)]["Akcijska cena / EM (z DDV)" := Str(promo)];
    assert data == Described(url, group, date, p);
    if p.name.GetOr("") == "" && regular == "" {
      return Fetched(None, c);
    }
    data := data["Zap" := Int(c + 1)];
    data := data["Cena / EM (brez DDV)" := Str(ConvertWithoutVat(Str(regular), Vat))];
    data := data["Akcijska cena / EM (brez DDV)" := Str(ConvertWithoutVat(Str(promo), Vat))];
    if p.image.Some? {
      data := data["SLIKA URL" := Str(p.image.value)];
    }
    f := Fetched(Some(data), c + 1);
  }

  /** The price branch: the regular and the promotional price with VAT. */
  method PickPrices(p: ProductPage) returns (regular: string, promo: string)
    ensures Prices(regular, promo) == PricesOf(p)
  {
    regular, promo := "", "";
    if p.newPrice.Some? {
      var val := FirstToken(DigitsDotsCommas, p.newPrice.value);
      if val.Some? {
        if p.oldPrice.Some? {
          promo := val.value;
          var was := FirstToken(DigitsDotsCommas, p.oldPrice.value);
          if was.Some? {
            regular := was.value;
          }
        } else {
          regular := val.value;
        }
      }
    }
  }

  /** The price pick: a new price with a number and an old price tag make
      the new price the promotion and the old one the regular price; a new
      price alone is the regular price; without a number in the new price
      there is no price at all. */
  lemma PricesSpec(p: ProductPage)
    ensures Token(p.newPrice).None? ==> PricesOf(p) == Prices("", "")
    ensures Token(p.newPrice).Some? && p.oldPrice.Some? ==>
      PricesOf(p).promo == Token(p.newPrice).value && PricesOf(p).regular == Token(p.oldPrice).GetOr("")
    ensures Token(p.newPrice).Some? && p.oldPrice.None? ==>
      PricesOf(p).regular == Token(p.newPrice).value && PricesOf(p).promo == ""
    ensures PricesOf(p).regular != "" ==> Token(p.newPrice).Some?
  {
  }

  /** The fixed fields of a fresh record: the group, link and date, and
      every other column at its default. */
  lemma BaseFields(group: string, date: string, url: string)
    ensures var r := Base(group, date, url);
      && Get(r, "URL") == Str(url) && Get(r, "Skupina") == Str(group) && Get(r, "Veljavnost od") == Str(date)
      && Get(r, "Zap") == Int(0) && Get(r, "Opis") == Str("") && Get(r, "Oznaka / naziv") == Str("")
      && Get(r, "EAN") == Str("") && Get(r, "EM") == Str("KOS") && Get(r, "Valuta") == Str("EUR")
      && Get(r, "DDV") == Str("22") && Get(r, "Proizvajalec") == Str("") && Get(r, "Dobava") == Str("N/A")
      && Get(r, "SLIKA URL") == Str("")
  {
  }

  /** Before the number and the blank-page test: the title, code and EAN
      ("" for each that is missing), the two prices with VAT, and every
      other column as `Base` has it. */
  lemma DescribedFields(url: string, group: string, date: string, p: ProductPage)
    ensures var r := Described(url, group, date, p);
      Get(r, "URL") == Str(url) && Get(r, "Skupina") == Str(group) && Get(r, "SLIKA URL") == Str("")
    ensures var r := Described(url, group, date, p);
      && Get(r, "Opis") == Str(p.name.GetOr(""))
      && Get(r, "Oznaka / naziv") == Str(p.sku.GetOr(""))
      && Get(r, "EAN") == Str(p.ean.GetOr(""))
    ensures var r := Described(url, group, date, p);
      && Get(r, "Cena / EM (z DDV)") == Str(PricesOf(p).regular)
      && Get(r, "Akcijska cena / EM (z DDV)") == Str(PricesOf(p).promo)
    ensures forall k ::
      k != "Opis" && k != "Oznaka / naziv" && k != "EAN" && k != "Cena / EM (z DDV)" && k != "Akcijska cena / EM (z DDV)" ==> Get(Described(url, group, date, p), k) == Get(Base(group, date, url), k)
  {
    BaseFields(group, date, url);
    DescribeFrame(Base(group, date, url), p);
  }

  /** The columns `Describe` sets, and every other column unchanged. */
  lemma DescribeFrame(d: Record, p: ProductPage)
    ensures Get(d, "Opis") == Str("") ==> Get(Describe(d, p), "Opis") == Str(p.name.GetOr(""))
    ensures Get(d, "Oznaka / naziv") == Str("") ==> Get(Describe(d, p), "Oznaka / naziv") == Str(p.sku.GetOr(""))
    ensures Get(d, "EAN") == Str("") ==> Get(Describe(d, p), "EAN") == Str(p.ean.GetOr(""))
    ensures Get(Describe(d, p), "Cena / EM (z DDV)") == Str(PricesOf(p).regular)
    ensures Get(Describe(d, p), "Akcijska cena / EM (z DDV)") == Str(PricesOf(p).promo)
    ensures forall k ::
      k != "Opis" && k != "Oznaka / naziv" && k != "EAN" && k != "Cena / EM (z DDV)" && k != "Akcijska cena / EM (z DDV)" ==> Get(Describe(d, p), k) == Get(d, k)
  {
    var d1 := SetIf(d, "Opis", p.name);
    var d2 := SetIf(d1, "Oznaka / naziv", p.sku);
    var d3 := SetIf(d2, "EAN", p.ean);
    var d4 := d3["Cena / EM (z DDV)" := Str(PricesOf(p).regular)];
    var r := d4["Akcijska cena / EM (z DDV)" := Str(PricesOf(p).promo)];
    assert Describe(d, p) == r;
    assert Get(r, "Opis") == Get(d1, "Opis");
    assert Get(r, "Oznaka / naziv") == Get(d2, "Oznaka / naziv");
    assert Get(r, "EAN") == Get(d3, "EAN");
    forall k | k != "Opis" && k != "Oznaka / naziv" && k != "EAN" && k != "Cena / EM (z DDV)" && k != "Akcijska cena / EM (z DDV)"
      ensures Get(r, k) == Get(d, k)
    {
      assert Get(r, k) == Get(d3, k) == Get(d2, k) == Get(d1, k);
    }
  }

  /** A record carries the number `zap`, the link, the category, the title
      ("" when missing) and the image ("" when missing); every column other
      than the number, the prices without VAT and the image is as
      `DescribedFields` states it. */
  lemma FilledFields(url: string, group: string, date: string, p: ProductPage, zap: int)
    ensures var r := Filled(url, group, date, p, zap);
      && Get(r, "Zap") == Int(zap) && Get(r, "URL") == Str(url) && Get(r, "Skupina") == Str(group)
      && Get(r, "Opis") == Str(p.name.GetOr(""))
      && Get(r, "SLIKA URL") == Str(p.image.GetOr(""))
    ensures forall k :: k != "Zap" && k != "Cena / EM (brez DDV)" && k != "Akcijska cena / EM (brez DDV)" && k != "SLIKA URL" ==>
      Get(Filled(url, group, date, p, zap), k) == Get(Described(url, group, date, p), k)
  {
    DescribedFields(url, group, date, p);
    CompletedFrame(Described(url, group, date, p), zap, ConvertWithoutVat(Str(PricesOf(p).regular), Vat),
                   ConvertWithoutVat(Str(PricesOf(p).promo), Vat), p.image);
  }

  /** The number, the prices without VAT and the image `Completed` sets,
      and every other column unchanged. */
  lemma CompletedFrame(d: Record, zap: int, net: string, netPromo: string, image: Option<string>)
    ensures var r := Completed(d, zap, net, netPromo, image);
      Get(r, "Zap") == Int(zap) && Get(r, "Cena / EM (brez DDV)") == Str(net) && Get(r, "Akcijska cena / EM (brez DDV)") == Str(netPromo)
    ensures Get(d, "SLIKA URL") == Str("") ==> Get(Completed(d, zap, net, netPromo, image), "SLIKA URL") == Str(image.GetOr(""))
    ensures forall k :: k != "Zap" && k != "Cena / EM (brez DDV)" && k != "Akcijska cena / EM (brez DDV)" && k != "SLIKA URL" ==>
      Get(Completed(d, zap, net, netPromo, image), k) == Get(d, k)
  {
    var e0 := d["Zap" := Int(zap)];
    var e1 := e0["Cena / EM (brez DDV)" := Str(net)];
    var e2 := e1["Akcijska cena / EM (brez DDV)" := Str(netPromo)];
    var r := SetIf(e2, "SLIKA URL", image);
    assert Completed(d, zap, net, netPromo, image) == r;
    assert Get(r, "Zap") == Get(e2, "Zap") == Get(e1, "Zap") == Int(zap);
    assert Get(r, "Cena / EM (brez DDV)") == Get(e2, "Cena / EM (brez DDV)") == Str(net);
    forall k | k != "Zap" && k != "Cena / EM (brez DDV)" && k != "Akcijska cena / EM (brez DDV)" && k != "SLIKA URL"
      ensures Get(r, k) == Get(d, k)
    {
      assert Get(r, k) == Get(e2, k) == Get(e1, k) == Get(e0, k);
    }
  }

  /** A record carries the picked prices with VAT and their conversions. */
  lemma FilledPrices(url: string, group: string, date: string, p: ProductPage, zap: int)
    ensures var r := Filled(url, group, date, p, zap);
      && Get(r, "Cena / EM (z DDV)") == Str(PricesOf(p).regular)
      && Get(r, "Akcijska cena / EM (z DDV)") == Str(PricesOf(p).promo)
      && Get(r, "Cena / EM (brez DDV)") == Str(ConvertWithoutVat(Get(r, "Cena / EM (z DDV)"), Vat))
      && Get(r, "Akcijska cena / EM (brez DDV)") == Str(ConvertWithoutVat(Get(r, "Akcijska cena / EM (z DDV)"), Vat))
  {
    DescribedFields(url, group, date, p);
    CompletedFrame(Described(url, group, date, p), zap, ConvertWithoutVat(Str(PricesOf(p).regular), Vat),
                   ConvertWithoutVat(Str(PricesOf(p).promo), Vat), p.image);
  }

  /** A page that does not load, or has neither title nor regular price,
      gives nothing and leaves the counter; any other page gives a record
      numbered with the next counter value. */
  lemma DetailsSpec(url: string, group: string, date: string, page: Option<ProductPage>, c: int)
    ensures Numbers(c, Details(url, group, date, page, c))
    ensures Details(url, group, date, page, c).record.None? <==> page.None? || Blank(page.value)
    ensures page.Some? && !Blank(page.value) ==>
      Details(url, group, date, page, c).record == Some(Filled(url, group, date, page.value, c + 1))
  {
    if page.Some? && !Blank(page.value) {
      FilledFields(url, group, date, page.value, c + 1);
    }
  }

  // ---------------------------------------------------------------------
  // main

  /** The product lookup of a run on `date` against the product pages that
      load. */
  function Fetch(date: string, products: map<string, ProductPage>): (Item<string>, int) -> Fetched {
    (x: Item<string>, c: int) => Details(x.link, x.group, date, if x.link in products then Some(products[x.link]) else None, c)
  }

  /** The work of one subcategory: its distinct links, filed under its
      category's name. */
  function SubItems(s: Subcategory, pages: Listing): seq<Item<string>> {
    var links := Distinct(ListingLinks(s.url, pages));
    seq(|links|, i requires 0 <= i < |links| => Item(s.category, links[i]))
  }

  lemma FetchNumbers(date: string, products: map<string, ProductPage>)
    ensures forall x, d :: Numbers(d, Fetch(date, products)(x, d))
  {
    forall x, d ensures Numbers(d, Fetch(date, products)(x, d)) {
      DetailsSpec(x.link, x.group, date, if x.link in products then Some(products[x.link]) else None, d);
    }
  }

  /** `main`: resume the counter from the JSON file, then for every
      subcategory (`subs`, the configuration in order) look up its links in
      turn, buffer the records that come back and write them every
      `FlushAt` records and at the end of the subcategory; `finally` calls
      `save_data([])`. The counter ends advanced by the number of records
      accepted, which are numbered on from the resumed counter, and the
      store binds every key to the last accepted record with that key,
      over what it held before. */
  method Run(subs: seq<Subcategory>, pages: Listing, products: map<string, ProductPage>, date: string, files: Files)
    returns (stored: Files, counter: int)
    ensures var (rs, c) := Accepted(Fetch(date, products), Work(subs, s => SubItems(s, pages)), ResumeCounter(files.json));
      && counter == c
      && counter == ResumeCounter(files.json) + |rs|
      && NumberedFrom(ResumeCounter(files.json), rs)
      && Binding(ByUrl, stored, []) == Binding(ByUrl, files, rs)
  {
    var c0 := ResumeCounter(files.json);
    stored, counter := Gather(ByUrl, false, subs, s => SubItems(s, pages), Fetch(date, products), files, c0);
    FetchNumbers(date, products);
    AcceptedNumbered(Fetch(date, products), Work(subs, s => SubItems(s, pages)), c0);
  }
}
