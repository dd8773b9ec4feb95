/** The Zagozen scraper (eshop-zagozen.si): listing walk, product page
    with its price box, and the run over all subcategories, whose records
    are merged by product code. */
module ZagozenScraper {
  import opened Wrappers
  import opened Text
  import opened Values
  import opened Price
  import opened Store
  import opened Checkpoint
  import opened Walker
  import opened Session

  const Vat: nat := 22
  const BaseUrl := "https://eshop-zagozen.si/"

  /** The `div.sku` box: the text of its `strong` tag and of its
      `span.dobava`, each when the tag is there. */
  datatype SkuBox = SkuBox(strong: Option<string>, dobava: Option<string>)

  /** The `div.price-box`: for each of `p.special-price`, `p.old-price`
      and `span.regular-price`, None when the tag is missing, and otherwise
      the text of its `span.price` when it has one. */
  datatype PriceBox = PriceBox(special: Option<Option<string>>, oldPrice: Option<Option<string>>,
                               regular: Option<Option<string>>)

  /** A product page as parsed: the `h1` text inside `div.product-name`,
      the sku box, the price box, the `div.em` text, and the main image's
      `src` ('' when the image has none). */
  datatype ProductPage = ProductPage(
    name: Option<string>,
    sku: Option<SkuBox>,
    priceBox: Option<PriceBox>,
    em: Option<string>,
    image: Option<string>)

  /** One subcategory of the configuration: its category's slug and its
      own slug. */
  datatype Subcategory = Subcategory(category: string, slug: string)

  // ---------------------------------------------------------------------
  // get_product_links_from_subcategory

  /** The listing of a subcategory: `BASE_URL` + category + '/' + slug. */
  function ListingUrl(s: Subcategory): string {
    BaseUrl + s.category + "/" + s.slug
  }

  /** A tile contributes the `href` of its `a.product-image` anchor when
      the attribute is there. */
  function TileLink(t: Tile): seq<string> {
    if t.anchor && t.href.Some? then [t.href.value] else []
  }

  /** The links of the pages the walk of a subcategory takes, in page
      order, duplicates kept. */
  function ListingLinks(s: Subcategory, pages: Listing): seq<string> {
    UrlsInjective(Zagozen, ListingUrl(s));
    LinksOf(TileLink, Walk(RulesOf(Zagozen), Urls(Zagozen, ListingUrl(s)), pages, 1, Some("star")))
  }

  /** `get_product_links_from_subcategory`: page 1 is the bare listing,
      page n the listing with `?p=n`; the loop stops at a page that fails,
      says "ni izdelkov", has no grid or no items, or has no next link. The
      pages asked for are exactly pages 1, 2, ... of that numbering. */
  method GetProductLinks(s: Subcategory, pages: Listing) returns (links: seq<string>, asked: seq<string>)
    ensures links == ListingLinks(s, pages)
    ensures asked != [] && asked[0] == ListingUrl(s)
    ensures forall i :: 1 <= i < |asked| ==> asked[i] == ListingUrl(s) + "?p=" + Dec(i + 1)
  {
    UrlsInjective(Zagozen, ListingUrl(s));
    links, asked := CollectLinks(RulesOf(Zagozen), TileLink, Urls(Zagozen, ListingUrl(s)), pages);
  }

  /** `sorted(list(set(links)))`: the distinct links in increasing order. */
  function SortedLinks(s: Subcategory, pages: Listing): seq<string> {
    SortedDistinct(ListingLinks(s, pages))
  }

  /** The links a subcategory's details are fetched for: strictly
      increasing, so each one once, and exactly the collected ones. */
  lemma SortedLinksSpec(s: Subcategory, pages: Listing)
    ensures StrictlySorted(SortedLinks(s, pages))
    ensures NoDuplicates(SortedLinks(s, pages))
    ensures forall l :: l in SortedLinks(s, pages) <==> l in ListingLinks(s, pages)
  {
    var r := SortedLinks(s, pages);
    SortedDistinctSpec(ListingLinks(s, pages));
    forall i, j | 0 <= i < j < |r| ensures r[i] != r[j] {
      if r[i] == r[j] {
        StrLessIrreflexive(r[i]);
      }
    }
  }

  // ---------------------------------------------------------------------
  // get_product_details

  /** The price with and without promotion, with VAT. */
  datatype Prices = Prices(regular: string, promo: string)

  /** The text of a price tag's `span.price`, cleaned, "" without one. */
  function TagPrice(tag: Option<Option<string>>): string {
    if tag.Some? && tag.value.Some? then CleanZagozen(tag.value.value) else ""
  }

  /** The price branch: with a special-price tag, the promotional price is
      its price and the regular price the old one; otherwise the regular
      price is the regular-price tag's; "" wherever a tag is missing. */
  function PricesOf(p: ProductPage): Prices {
    if p.priceBox.None? then Prices("", "")
    else
      var b := p.priceBox.value;
      if b.special.Some? then Prices(TagPrice(b.oldPrice), TagPrice(b.special))
      else Prices(TagPrice(b.regular), "")
  }

  /** The product code: the `strong` text of the sku box. */
  function SkuCode(p: ProductPage): Option<string> {
    if p.sku.Some? then p.sku.value.strong else None
  }

  /** The delivery note: the `span.dobava` text without "Dobava:",
      stripped. */
  function Delivery(p: ProductPage): Option<string> {
    if p.sku.Some? && p.sku.value.dobava.Some? then Some(Strip(RemoveAll(p.sku.value.dobava.value, "Dobava:"))) else None
  }

  /** The longest prefix without a '.'. */
  function NonDotRun(s: string): (r: string)
    ensures '.' !in r && StartsWith(s, r)
    ensures |r| < |s| ==> s[|r|] == '.'
  {
    if s == [] || s[0] == '.' then []
    else
      var t := NonDotRun(s[1..]);
      assert s == [s[0]] + s[1..];
      [s[0]] + t
  }

  /** Where `Cena je na\s*([^\.]+)` matches, ignoring case: "cena je na"
      followed by at least one character that is not a '.'. */
  predicate UnitAt(s: string) {
    |s| > 10 && Lower(s[..10]) == "cena je na" && s[10] != '.'
  }

  /** `re.search(r'Cena je na\s*([^\.]+)', text, re.IGNORECASE)` and
      `match.group(1).strip().upper()`: at the first place the pattern
      matches, the run of characters up to the next '.', stripped and in
      upper case. (The spaces `\s*` takes are stripped anyway.) */
  function Unit(s: string): (r: Option<string>)
    decreases |s|
  {
    if UnitAt(s) then Some(Upper(Strip(NonDotRun(s[10..]))))
    else if s == [] then None
    else Unit(s[1..])
  }

  /** A unit found comes from the first place the pattern matches. */
  lemma {:induction false} UnitIndex(s: string) returns (i: nat)
    requires Unit(s).Some?
    ensures i <= |s| && UnitAt(s[i..])
    ensures forall j :: 0 <= j < i ==> !UnitAt(s[j..])
    ensures Unit(s).value == Upper(Strip(NonDotRun(s[i + 10..])))
    decreases |s|
  {
    if UnitAt(s) {
      i := 0;
      assert s[0..] == s;
    } else {
      var k := UnitIndex(s[1..]);
      i := k + 1;
      assert s[i..] == s[1..][k..];
      assert s[i + 10..] == s[1..][k + 10..];
      forall j | 0 <= j < i ensures !UnitAt(s[j..]) {
        if j > 0 {
          assert s[j..] == s[1..][j - 1..];
        } else {
          assert s[0..] == s;
        }
      }
    }
  }

  /** No unit is found only where the pattern matches nowhere. */
  lemma {:induction false} UnitNone(s: string)
    requires Unit(s).None?
    ensures forall i :: 0 <= i <= |s| ==> !UnitAt(s[i..])
    decreases |s|
  {
    assert s[0..] == s;
    if s != [] {
      UnitNone(s[1..]);
      forall i | 1 <= i <= |s| ensures !UnitAt(s[i..]) {
        assert s[i..] == s[1..][i - 1..];
      }
    }
  }

  /** A unit holds no '.' and no lower case letter. */
  lemma {:induction false} UnitShape(s: string)
    ensures Unit(s).Some? ==> '.' !in Unit(s).value && forall c :: c in Unit(s).value ==> !IsLower(c)
    decreases |s|
  {
    if UnitAt(s) {
      StripKeepsAbsent(NonDotRun(s[10..]), '.');
      UpperSpec(Strip(NonDotRun(s[10..])));
    } else if s != [] {
      UnitShape(s[1..]);
    }
  }

  /** `upper()` leaves no lower case letter and keeps every '.' away. */
  lemma UpperSpec(s: string)
    ensures forall c :: c in Upper(s) ==> !IsLower(c)
    ensures '.' !in s ==> '.' !in Upper(s)
  {
    forall c | c in Upper(s) ensures !IsLower(c) {
      var i :| 0 <= i < |Upper(s)| && Upper(s)[i] == c;
    }
    if '.' in Upper(s) {
      var i :| 0 <= i < |Upper(s)| && Upper(s)[i] == '.';
      assert s[i] == '.';
    }
  }

  /** The unit read from the `div.em` text. */
  function EmOf(p: ProductPage): Option<string> {
    if p.em.Some? then Unit(p.em.value) else None
  }

  /** The record the details start from. */
  function Base(group: string, date: string, url: string): Record {
    map["Skupina" := Str(group), "Zap" := Str(""), "Oznaka / naziv" := Str(""), "EAN" := Str(""),
        "Opis" := Str(""), "EM" := Str("KOS"), "Valuta" := Str("EUR"), "DDV" := Str("22"),
        "Proizvajalec" := Str(""), "Veljavnost od" := Str(date), "Dobava" := Str(""),
        "Cena / EM (z DDV)" := Str(""), "Akcijska cena / EM (z DDV)" := Str(""),
        "Cena / EM (brez DDV)" := Str(""), "Akcijska cena / EM (brez DDV)" := Str(""),
        "URL" := Str(url), "SLIKA URL" := Str("")]
  }

  /** The record after title, code and delivery note. */
  function Described(url: string, group: string, date: string, p: ProductPage): Record {
    Describe(Base(group, date, url), p)
  }

  /** Title, code and delivery note, set on top of `d`. */
  function Describe(d: Record, p: ProductPage): Record {
    SetIf(SetIf(SetIf(d, "Opis", p.name), "Oznaka / naziv", SkuCode(p)), "Dobava", Delivery(p))
  }

  /** The number `zap`, the prices with VAT `pr`, the prices without VAT
      `net` and `netPromo`, the unit and the image, set on top of `d`. */
  function Completed(d: Record, zap: int, pr: Prices, net: string, netPromo: string, em: Option<string>, image: Option<string>): Record {
    var e := d["Zap" := Int(zap)]["Cena / EM (z DDV)" := Str(pr.regular)]["Akcijska cena / EM (z DDV)" := Str(pr.promo)];
    SetIf(SetIf(e["Cena / EM (brez DDV)" := Str(net)]["Akcijska cena / EM (brez DDV)" := Str(netPromo)], "EM", em), "SLIKA URL", image)
  }

  /** The record of a loaded product page, numbered `zap`. */
  function Filled(url: string, group: string, date: string, p: ProductPage, zap: int): Record {
    Completed(Described(url, group, date, p), zap, PricesOf(p), ConvertWithoutVat(Str(PricesOf(p).regular), Vat),
              ConvertWithoutVat(Str(PricesOf(p).promo), Vat), EmOf(p), p.image)
  }

  /** The record of a product page fetched as `page` (None when it does not
      load), with the counter `c` before the call. */
  function Details(url: string, group: string, date: string, page: Option<ProductPage>, c: int): Fetched {
    if page.None? then Fetched(None, c) else Fetched(Some(Filled(url, group, date, page.value, c + 1)), c + 1)
  }

  /** The price-box branch of `get_product_details`. */
  method PickPrices(p: ProductPage) returns (regular: string, promo: string)
    ensures Prices(regular, promo) == PricesOf(p)
  {
    regular, promo := "", "";
    if p.priceBox.Some? {
      var b := p.priceBox.value;
      if b.special.Some? {
        if b.special.value.Some? {
          promo := CleanZagozen(b.special.value.value);
        }
        if b.oldPrice.Some? && b.oldPrice.value.Some? {
          regular := CleanZagozen(b.oldPrice.value.value);
        }
      } else if b.regular.Some? && b.regular.value.Some? {
        regular := CleanZagozen(b.regular.value.value);
      }
    }
  }

  /** `get_product_details`. */
  method ProductDetails(url: string, group: string, date: string, page: Option<ProductPage>, c: int)
    returns (f: Fetched)
    ensures f == Details(url, group, date, page, c)
  {
    if page.None? {
      return Fetched(None, c);
    }
    var p := page.value;
    var data := Base(group, date, url);
    data := SetIf(data, "Opis", p.name);
    if p.sku.Some? {
      data := SetIf(data, "Oznaka / naziv", p.sku.value.strong);
      if p.sku.value.dobava.Some? {
        data := data["Dobava" := Str(Strip(RemoveAll(p.sku.value.dobava.value, "Dobava:")))];
      }
    }
    assert data == Described(url, group, date, p);
    data := data["Zap" := Int(c + 1)];
    var regular, promo := PickPrices(p);
    data := data["Cena / EM (z DDV)" := Str(regular)]["Akcijska cena / EM (z DDV)" := Str(promo)];
    data := data["Cena / EM (brez DDV)" := Str(ConvertWithoutVat(Str(regular), Vat))];
    data := data["Akcijska cena / EM (brez DDV)" := Str(ConvertWithoutVat(Str(promo), Vat))];
    if p.em.Some? {
      data := SetIf(data, "EM", Unit(p.em.value));
    }
    data := SetIf(data, "SLIKA URL", p.image);
    f := Fetched(Some(data), c + 1);
  }

  /** The price pick, and the cleaning every picked price went through: no
      euro sign, no-break space or '.' is left. */
  lemma PricesSpec(p: ProductPage)
    ensures p.priceBox.None? ==> PricesOf(p) == Prices("", "")
    ensures p.priceBox.Some? && p.priceBox.value.special.Some? ==>
      PricesOf(p) == Prices(TagPrice(p.priceBox.value.oldPrice), TagPrice(p.priceBox.value.special))
    ensures p.priceBox.Some? && p.priceBox.value.special.None? ==>
      PricesOf(p) == Prices(TagPrice(p.priceBox.value.regular), "")
    ensures var r := PricesOf(p);
      && Euro !in r.regular && Nbsp !in r.regular && '.' !in r.regular
      && Euro !in r.promo && Nbsp !in r.promo && '.' !in r.promo
  {
  }

  /** The fixed fields of a fresh record: the group, link and date, the
      blank code and number, and the unit "KOS". */
  lemma BaseFields(group: string, date: string, url: string)
    ensures var r := Base(group, date, url);
      && Get(r, "URL") == Str(url) && Get(r, "Skupina") == Str(group) && Get(r, "Oznaka / naziv") == Str("")
      && Get(r, "Veljavnost od") == Str(date) && Get(r, "Zap") == Str("") && Get(r, "EM") == Str("KOS")
    ensures var r := Base(group, date, url);
      Get(r, "Opis") == Str("") && Get(r, "Dobava") == Str("") && Get(r, "SLIKA URL") == Str("")
  {
  }

  /** Before the number: link, group and date, the title, the code of the
      sku box and its delivery note ("" for each that is missing), and every
      other column as `Base` has it. */
  lemma DescribedFields(url: string, group: string, date: string, p: ProductPage)
    ensures var r := Described(url, group, date, p);
      && Get(r, "URL") == Str(url) && Get(r, "Skupina") == Str(group)
      && Get(r, "Oznaka / naziv") == Str(SkuCode(p).GetOr(""))
    ensures var r := Described(url, group, date, p);
      Get(r, "Opis") == Str(p.name.GetOr("")) && Get(r, "Dobava") == Str(Delivery(p).GetOr(""))
    ensures var r := Described(url, group, date, p);
      Get(r, "EM") == Str("KOS") && Get(r, "SLIKA URL") == Str("") && Get(r, "Veljavnost od") == Str(date)
    ensures forall k :: k != "Opis" && k != "Oznaka / naziv" && k != "Dobava" ==>
      Get(Described(url, group, date, p), k) == Get(Base(group, date, url), k)
  {
    BaseFields(group, date, url);
    DescribeFrame(Base(group, date, url), p);
  }

  /** The columns `Describe` sets, and every other column unchanged. */
  lemma DescribeFrame(d: Record, p: ProductPage)
    ensures Get(d, "Opis") == Str("") ==> Get(Describe(d, p), "Opis") == Str(p.name.GetOr(""))
    ensures Get(d, "Oznaka / naziv") == Str("") ==> Get(Describe(d, p), "Oznaka / naziv") == Str(SkuCode(p).GetOr(""))
    ensures Get(d, "Dobava") == Str("") ==> Get(Describe(d, p), "Dobava") == Str(Delivery(p).GetOr(""))
    ensures forall k :: k != "Opis" && k != "Oznaka / naziv" && k != "Dobava" ==> Get(Describe(d, p), k) == Get(d, k)
  {
    var d1 := SetIf(d, "Opis", p.name);
    var d2 := SetIf(d1, "Oznaka / naziv", SkuCode(p));
    var r := SetIf(d2, "Dobava", Delivery(p));
    assert Get(r, "Opis") == Get(d1, "Opis");
    assert Get(r, "Oznaka / naziv") == Get(d2, "Oznaka / naziv");
  }

  /** A record carries the number `zap`, the link, the group, and the
      title and code of the sku box ("" for each that is missing). */
  lemma FilledFields(url: string, group: string, date: string, p: ProductPage, zap: int)
    ensures var r := Filled(url, group, date, p, zap);
      && Get(r, "Zap") == Int(zap) && Get(r, "URL") == Str(url) && Get(r, "Skupina") == Str(group)
      && Get(r, "Oznaka / naziv") == Str(SkuCode(p).GetOr("")) && Get(r, "Opis") == Str(p.name.GetOr(""))
  {
    var d := Described(url, group, date, p);
    assert Get(d, "URL") == Str(url) && Get(d, "Skupina") == Str(group)
      && Get(d, "Oznaka / naziv") == Str(SkuCode(p).GetOr("")) && Get(d, "Opis") == Str(p.name.GetOr("")) by {
      DescribedFields(url, group, date, p);
    }
    assert !IsPriceColumn("URL") && !IsPriceColumn("Skupina") && !IsPriceColumn("Oznaka / naziv") && !IsPriceColumn("Opis");
    CompletedFrame(d, zap, PricesOf(p), ConvertWithoutVat(Str(PricesOf(p).regular), Vat),
                   ConvertWithoutVat(Str(PricesOf(p).promo), Vat), EmOf(p), p.image);
  }

  /** A record carries the unit of `div.em` ("KOS" without one) and the
      image ("" without one); every column other than the number, the four
      prices, the unit and the image is as `DescribedFields` states it. */
  lemma FilledUnitImage(url: string, group: string, date: string, p: ProductPage, zap: int)
    ensures var r := Filled(url, group, date, p, zap);
      Get(r, "EM") == Str(EmOf(p).GetOr("KOS")) && Get(r, "SLIKA URL") == Str(p.image.GetOr(""))
    ensures forall k :: k != "Zap" && k != "EM" && k != "SLIKA URL" && !IsPriceColumn(k) ==>
      Get(Filled(url, group, date, p, zap), k) == Get(Described(url, group, date, p), k)
  {
    var d := Described(url, group, date, p);
    assert Get(d, "EM") == Str("KOS") && Get(d, "SLIKA URL") == Str("") by {
      DescribedFields(url, group, date, p);
    }
    CompletedFrame(d, zap, PricesOf(p), ConvertWithoutVat(Str(PricesOf(p).regular), Vat),
                   ConvertWithoutVat(Str(PricesOf(p).promo), Vat), EmOf(p), p.image);
  }

  /** The four price columns. */
  predicate IsPriceColumn(k: string) {
    k == "Cena / EM (z DDV)" || k == "Akcijska cena / EM (z DDV)" || k == "Cena / EM (brez DDV)" || k == "Akcijska cena / EM (brez DDV)"
  }

  /** The columns `Completed` sets, and every other column unchanged. */
  lemma CompletedFrame(d: Record, zap: int, pr: Prices, net: string, netPromo: string, em: Option<string>, image: Option<string>)
    ensures var r := Completed(d, zap, pr, net, netPromo, em, image);
      && Get(r, "Zap") == Int(zap)
      && Get(r, "Cena / EM (z DDV)") == Str(pr.regular) && Get(r, "Akcijska cena / EM (z DDV)") == Str(pr.promo)
      && Get(r, "Cena / EM (brez DDV)") == Str(net) && Get(r, "Akcijska cena / EM (brez DDV)") == Str(netPromo)
    ensures Get(d, "EM") == Str("KOS") ==> Get(Completed(d, zap, pr, net, netPromo, em, image), "EM") == Str(em.GetOr("KOS"))
    ensures Get(d, "SLIKA URL") == Str("") ==> Get(Completed(d, zap, pr, net, netPromo, em, image), "SLIKA URL") == Str(image.GetOr(""))
    ensures forall k :: k != "Zap" && k != "EM" && k != "SLIKA URL" && !IsPriceColumn(k) ==>
      Get(Completed(d, zap, pr, net, netPromo, em, image), k) == Get(d, k)
  {
    var e0 := d["Zap" := Int(zap)];
    var e1 := e0["Cena / EM (z DDV)" := Str(pr.regular)];
    var e2 := e1["Akcijska cena / EM (z DDV)" := Str(pr.promo)];
    var e3 := e2["Cena / EM (brez DDV)" := Str(net)];
    var e4 := e3["Akcijska cena / EM (brez DDV)" := Str(netPromo)];
    var e5 := SetIf(e4, "EM", em);
    var r := SetIf(e5, "SLIKA URL", image);
    assert Completed(d, zap, pr, net, netPromo, em, image) == r;
    assert Get(r, "Zap") == Get(e5, "Zap") == Get(e4, "Zap") == Get(e3, "Zap") == Get(e2, "Zap") == Get(e1, "Zap") == Int(zap);
    assert Get(r, "Cena / EM (z DDV)") == Get(e5, "Cena / EM (z DDV)") == Get(e4, "Cena / EM (z DDV)") == Get(e2, "Cena / EM (z DDV)");
    assert Get(r, "Akcijska cena / EM (z DDV)") == Get(e4, "Akcijska cena / EM (z DDV)");
    assert Get(r, "Cena / EM (brez DDV)") == Get(e4, "Cena / EM (brez DDV)");
    assert Get(r, "EM") == Get(e5, "EM");
    forall k | k != "Zap" && k != "EM" && k != "SLIKA URL" && !IsPriceColumn(k)
      ensures Get(r, k) == Get(d, k)
    {
      assert Get(r, k) == Get(e5, k) == Get(e4, k) == Get(e3, k) == Get(e2, k) == Get(e1, k) == Get(e0, k);
    }
  }

  /** A record carries the picked prices with VAT and their conversions. */
  lemma FilledPrices(url: string, group: string, date: string, p: ProductPage, zap: int)
    ensures var r := Filled(url, group, date, p, zap);
      && Get(r, "Cena / EM (z DDV)") == Str(PricesOf(p).regular)
      && Get(r, "Akcijska cena / EM (z DDV)") == Str(PricesOf(p).promo)
      && Get(r, "Cena / EM (brez DDV)") == Str(ConvertWithoutVat(Get(r, "Cena / EM (z DDV)"), Vat))
      && Get(r, "Akcijska cena / EM (brez DDV)") == Str(ConvertWithoutVat(Get(r, "Akcijska cena / EM (z DDV)"), Vat))
  {
    CompletedFrame(Described(url, group, date, p), zap, PricesOf(p), ConvertWithoutVat(Str(PricesOf(p).regular), Vat),
                   ConvertWithoutVat(Str(PricesOf(p).promo), Vat), EmOf(p), p.image);
  }

  /** A page that does not load gives nothing and leaves the counter; a
      page that loads always gives a record, numbered with the next counter
      value, whatever it holds. */
  lemma DetailsSpec(url: string, group: string, date: string, page: Option<ProductPage>, c: int)
    ensures Numbers(c, Details(url, group, date, page, c))
    ensures Details(url, group, date, page, c).record.None? <==> page.None?
    ensures page.Some? ==> Details(url, group, date, page, c).record == Some(Filled(url, group, date, page.value, c + 1))
  {
    if page.Some? {
      FilledFields(url, group, date, page.value, c + 1);
    }
  }

  // ---------------------------------------------------------------------
  // main

  /** The product lookup of a run on `date` against the product pages that
      load. */
  function Fetch(date: string, products: map<string, ProductPage>): (Item<string>, int) -> Fetched {
    (x: Item<string>, c: int) => Details(x.link, x.group, date, if x.link in products then Some(products[x.link]) else None, c)
  }

  /** The work of one subcategory: its sorted distinct links, filed under
      its category's name. */
  function SubItems(s: Subcategory, pages: Listing): seq<Item<string>> {
    var links := SortedLinks(s, pages);
    seq(|links|, i requires 0 <= i < |links| => Item(GroupName(s.category), links[i]))
  }

  lemma FetchNumbers(date: string, products: map<string, ProductPage>)
    ensures forall x, d :: Numbers(d, Fetch(date, products)(x, d))
  {
    forall x, d ensures Numbers(d, Fetch(date, products)(x, d)) {
      DetailsSpec(x.link, x.group, date, if x.link in products then Some(products[x.link]) else None, d);
    }
  }

  /** `main`: resume the counter from the JSON file, then for every
      subcategory (`subs`, the configuration in order) look up its sorted
      links in turn, buffer the records that come back and write them every
      `FlushAt` records and at the end of the subcategory; `finally` writes
      whatever the buffer still holds. The counter ends advanced by the
      number of records accepted, which are numbered on from the resumed
      counter, and the store binds every code (or URL, for a record without
      one) to the last accepted record with it, over what it held before. */
  method Run(subs: seq<Subcategory>, pages: Listing, products: map<string, ProductPage>, date: string, files: Files)
    returns (stored: Files, counter: int)
    ensures var (rs, c) := Accepted(Fetch(date, products), Work(subs, s => SubItems(s, pages)), ResumeCounter(files.json));
      && counter == c
      && counter == ResumeCounter(files.json) + |rs|
      && NumberedFrom(ResumeCounter(files.json), rs)
      && Binding(ByCodeOrUrl, stored, []) == Binding(ByCodeOrUrl, files, rs)
  {
    var c0 := ResumeCounter(files.json);
    stored, counter := Gather(ByCodeOrUrl, true, subs, s => SubItems(s, pages), Fetch(date, products), files, c0);
    FetchNumbers(date, products);
    AcceptedNumbered(Fetch(date, products), Work(subs, s => SubItems(s, pages)), c0);
  }
}
