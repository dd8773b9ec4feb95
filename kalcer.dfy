/** The Kalcer scraper (trgovina-kalcer.si): listing walk, product page,
    and the run over all subcategories. */
module KalcerScraper {
  import opened Wrappers
  import opened Text
  import opened Values
  import opened Price
  import opened Store
  import opened Checkpoint
  import opened Walker
  import opened Session
  import opened SpecTable

  const Vat: nat := 22

  /** A product page as parsed: the `h1.product-name` and `h1.productInfo`
      texts, the cell texts of each row of the specification table, the
      brand link text, the `span.productSpecialPrice` and `.price-new,
      .price` texts, and the `a.lightbox-image` tag. */
  datatype ProductPage = ProductPage(
    productName: Option<string>,
    productInfo: Option<string>,
    specRows: seq<seq<string>>,
    brand: Option<string>,
    specialPrice: Option<string>,
    price: Option<string>,
    lightbox: Image)

  // ---------------------------------------------------------------------
  // get_product_links_from_category

  /** A tile contributes its `.name a` link when the `href` is non-empty. */
  function TileLink(t: Tile): seq<string> {
    if t.anchor && t.href.Some? && t.href.value != "" then [t.href.value] else []
  }

  /** The links of the pages the walk of `url` takes, in page order. */
  function ListingLinks(url: string, pages: Listing): seq<string> {
    UrlsInjective(Kalcer, url);
    LinksOf(TileLink, Walk(RulesOf(Kalcer), Urls(Kalcer, url), pages, 1, Some("star")))
  }

  /** `list(set(all_links))`: each link once (the order of a Python set is
      replaced by first occurrence). */
  method GetProductLinks(url: string, pages: Listing) returns (links: seq<string>)
    ensures links == Distinct(ListingLinks(url, pages))
    ensures NoDuplicates(links)
    ensures forall l :: l in links <==> l in ListingLinks(url, pages)
    ensures forall l :: l in links ==> l != ""
  {
    UrlsInjective(Kalcer, url);
    var all, _ := CollectLinks(RulesOf(Kalcer), TileLink, Urls(Kalcer, url), pages);
    LinksOfAll(TileLink, Walk(RulesOf(Kalcer), Urls(Kalcer, url), pages, 1, Some("star")), (l: string) => l != "");
    links := Distinct(all);
  }

  // ---------------------------------------------------------------------
  // get_product_details

  /** The price tag read: the special price, else the regular one. */
  function PriceText(p: ProductPage): Option<string> {
    if p.specialPrice.Some? then p.specialPrice else p.price
  }

  /** The price with VAT: the first run of digits, dots and commas of the
      price tag's text, "" when there is no tag or no such run. */
  function GrossPrice(p: ProductPage): string {
    match PriceText(p)
    case None => ""
    case Some(t) => FirstToken(DigitsDotsCommas, t).GetOr("")
  }

  /** The title: `h1.product-name`, else `h1.productInfo`. */
  function Title(p: ProductPage): Option<string> {
    if p.productName.Some? then p.productName else p.productInfo
  }

  /** The image link: the lightbox anchor's `href`, when it is non-empty. */
  function ImageLink(p: ProductPage): Option<string> {
    if p.lightbox.Image? && p.lightbox.src.Some? && p.lightbox.src.value != "" then p.lightbox.src else None
  }

  /** The record of a loaded product page before its prices and image:
      the defaults, the title, and the specification rows. */
  function Described(url: string, group: string, date: string, p: ProductPage, zap: int): Record {
    ApplyRows(SetIf(StartRecord(group, zap, date, url), "Opis", Title(p)), p.specRows)
  }

  /** The brand, the prices and the image of a loaded product page, set on
      top of `d`. */
  function Completed(d: Record, p: ProductPage): Record {
    var e := SetIf(d, "Proizvajalec", p.brand)["Cena / EM (z DDV)" := Str(GrossPrice(p))];
    SetIf(e["Cena / EM (brez DDV)" := Str(ConvertWithoutVat(Str(GrossPrice(p)), Vat))], "SLIKA URL", ImageLink(p))
  }

  /** The record of a loaded product page. */
  function Filled(url: string, group: string, date: string, p: ProductPage, zap: int): Record {
    Completed(Described(url, group, date, p, zap), p)
  }

  /** The record of a product page fetched as `page` (None when it does not
      load), filed under `group`, with the counter `c` before the call. */
  function Details(url: string, group: string, date: string, page: Option<ProductPage>, c: int): Fetched {
    if page.None? then Fetched(None, c) else Fetched(Some(Filled(url, group, date, page.value, c + 1)), c + 1)
  }

  /** `get_product_details`, with its loop over the specification rows. */
  method ProductDetails(url: string, group: string, date: string, page: Option<ProductPage>, c: int)
    returns (f: Fetched)
    ensures f == Details(url, group, date, page, c)
  {
    if page.None? {
      return Fetched(None, c);
    }
    var p := page.value;
    var data := StartRecord(group, c + 1, date, url);
    var h1 := p.productName;
    if h1.None? {
      h1 := p.productInfo;
    }
    if h1.Some? {
      data := data["Opis" := Str(h1.value)];
    }
    data := ReadRows(data, p.specRows);
    if p.brand.Some? {
      data := data["Proizvajalec" := Str(p.brand.value)];
    }
    data := data["Cena / EM (z DDV)" := Str(GrossPrice(p))];
    data := data["Cena / EM (brez DDV)" := Str(ConvertWithoutVat(data["Cena / EM (z DDV)"], Vat))];
    if p.lightbox.Image? && p.lightbox.src.Some? && p.lightbox.src.value != "" {
      data := data["SLIKA URL" := Str(p.lightbox.src.value)];
    }
    f := Fetched(Some(data), c + 1);
  }

  /** Before the brand, the prices and the image: the number, link, group
      and date defaults, the title ("" without an h1), the code of the last
      "Ident" row ("" when none), the unit of the last "Enota mere" row
      ("KOS" when none), and no brand column yet. */
  lemma DescribedFields(url: string, group: string, date: string, p: ProductPage, zap: int)
    ensures var r := Described(url, group, date, p, zap);
      Get(r, "Zap") == Int(zap) && Get(r, "URL") == Str(url) && Get(r, "Skupina") == Str(group)
    ensures var r := Described(url, group, date, p, zap);
      Get(r, "Veljavnost od") == Str(date) && Get(r, "Valuta") == Str("EUR") && Get(r, "DDV") == Str("22")
    ensures Get(Described(url, group, date, p, zap), "Opis") == Str(Title(p).GetOr(""))
    ensures var r := Described(url, group, date, p, zap);
      && Get(r, CodeField) == Str(LastValue(p.specRows, IdentRow).GetOr(""))
      && Get(r, UnitField) == Str(LastValue(p.specRows, UnitRow).GetOr("KOS"))
    ensures var r := Described(url, group, date, p, zap);
      Get(r, "SLIKA URL") == Str("") && Get(r, "Proizvajalec") == Null
  {
    var d0 := StartRecord(group, zap, date, url);
    var d1 := SetIf(d0, "Opis", Title(p));
    assert Get(d1, "Opis") == Str(Title(p).GetOr(""));
    assert Get(d1, "Proizvajalec") == Null;
    ApplyRowsGet(d1, p.specRows);
    ApplyRowsFields(d1, p.specRows);
  }

  /** A loaded page always gives a record numbered `zap`, filed under the
      link and the group, with the brand when there is one, the lightbox
      image ("" when none), and every column other than the brand, the two
      prices and the image as `DescribedFields` states it. */
  lemma FilledFields(url: string, group: string, date: string, p: ProductPage, zap: int)
    ensures var r := Filled(url, group, date, p, zap);
      && Get(r, "Zap") == Int(zap) && Get(r, "URL") == Str(url) && Get(r, "Skupina") == Str(group)
      && Get(r, "Proizvajalec") == ValueOf(p.brand)
      && Get(r, "SLIKA URL") == Str(ImageLink(p).GetOr(""))
    ensures forall k :: k != "Proizvajalec" && k != "Cena / EM (z DDV)" && k != "Cena / EM (brez DDV)" && k != "SLIKA URL" ==>
      Get(Filled(url, group, date, p, zap), k) == Get(Described(url, group, date, p, zap), k)
  {
    DescribedFields(url, group, date, p, zap);
    CompletedFrame(Described(url, group, date, p, zap), p);
  }

  /** The columns `Completed` sets, and every other column unchanged. */
  lemma CompletedFrame(d: Record, p: ProductPage)
    ensures Get(d, "Proizvajalec") == Null ==> Get(Completed(d, p), "Proizvajalec") == ValueOf(p.brand)
    ensures Get(d, "SLIKA URL") == Str("") ==> Get(Completed(d, p), "SLIKA URL") == Str(ImageLink(p).GetOr(""))
    ensures forall k :: k != "Proizvajalec" && k != "Cena / EM (z DDV)" && k != "Cena / EM (brez DDV)" && k != "SLIKA URL" ==>
      Get(Completed(d, p), k) == Get(d, k)
  {
    var e := SetIf(d, "Proizvajalec", p.brand)["Cena / EM (z DDV)" := Str(GrossPrice(p))];
    var e2 := e["Cena / EM (brez DDV)" := Str(ConvertWithoutVat(Str(GrossPrice(p)), Vat))];
    assert Get(Completed(d, p), "Proizvajalec") == Get(e, "Proizvajalec");
  }

  /** The price with VAT is the first run of digits, dots and commas of the
      special or else the regular price tag ("" when none), and the price
      without VAT is its conversion. */
  lemma FilledPrices(url: string, group: string, date: string, p: ProductPage, zap: int)
    ensures var r := Filled(url, group, date, p, zap);
      && Get(r, "Cena / EM (z DDV)") == Str(GrossPrice(p))
      && Get(r, "Cena / EM (brez DDV)") == Str(ConvertWithoutVat(Get(r, "Cena / EM (z DDV)"), Vat))
  {
  }

  /** A page that does not load gives nothing and leaves the counter; a
      page that loads always gives a record, numbered with the next counter
      value, whatever it holds. */
  lemma DetailsSpec(url: string, group: string, date: string, page: Option<ProductPage>, c: int)
    ensures Numbers(c, Details(url, group, date, page, c))
    ensures Details(url, group, date, page, c).record.None? <==> page.None?
    ensures page.Some? ==> Details(url, group, date, page, c).record == Some(Filled(url, group, date, page.value, c + 1))
  {
    if page.Some? {
      FilledFields(url, group, date, page.value, c + 1);
    }
  }

  // ---------------------------------------------------------------------
  // main

  /** `sub_name = u.split('/')[-1]`, the group of the subcategory's
      records. */
  function Group(url: string): string {
    LastSegment(url, '/')
  }

  /** The product lookup of a run on `date` against the product pages that
      load. */
  function Fetch(date: string, products: map<string, ProductPage>): (Item<string>, int) -> Fetched {
    (x: Item<string>, c: int) => Details(x.link, x.group, date, if x.link in products then Some(products[x.link]) else None, c)
  }

  /** The work of one subcategory: its distinct links, in its group. */
  function SubItems(url: string, pages: Listing): seq<Item<string>> {
    var links := Distinct(ListingLinks(url, pages));
    seq(|links|, i requires 0 <= i < |links| => Item(Group(url), links[i]))
  }

  lemma FetchNumbers(date: string, products: map<string, ProductPage>)
    ensures forall x, d :: Numbers(d, Fetch(date, products)(x, d))
  {
    forall x, d ensures Numbers(d, Fetch(date, products)(x, d)) {
      DetailsSpec(x.link, x.group, date, if x.link in products then Some(products[x.link]) else None, d);
    }
  }

  /** `main`: resume the counter from the JSON file, then for every
      subcategory look up its links in turn, buffer the records that come
      back and write them every `FlushAt` records and at the end of the
      subcategory; `finally` calls `save_data([])`. The counter ends
      advanced by the number of records accepted, which are numbered on
      from the resumed counter, and the store binds every key to the last
      accepted record with that key, over what it held before. */
  method Run(urls: seq<string>, pages: Listing, products: map<string, ProductPage>, date: string, files: Files)
    returns (stored: Files, counter: int)
    ensures var (rs, c) := Accepted(Fetch(date, products), Work(urls, u => SubItems(u, pages)), ResumeCounter(files.json));
      && counter == c
      && counter == ResumeCounter(files.json) + |rs|
      && NumberedFrom(ResumeCounter(files.json), rs)
      && Binding(ByUrl, stored, []) == Binding(ByUrl, files, rs)
  {
    var c0 := ResumeCounter(files.json);
    stored, counter := Gather(ByUrl, false, urls, u => SubItems(u, pages), Fetch(date, products), files, c0);
    FetchNumbers(date, products);
    AcceptedNumbered(Fetch(date, products), Work(urls, u => SubItems(u, pages)), c0);
  }
}
