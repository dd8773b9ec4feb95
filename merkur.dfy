/** The Merkur scraper (merkur.si): the product tile read in
    `get_product_details`, the page and tile loops of `main` with the set of
    URLs it skips, and the JSON and Excel writes, the sheet being the one
    the run resumes from. */
module MerkurScraper {
  import opened Wrappers
  import opened Text
  import opened Values
  import opened Price
  import opened Store
  import opened Checkpoint
  import opened Walker
  import opened Session

  const Vat: nat := 22

  /** A product page as parsed: the text of its `div.product-id`, when
      there is one. */
  datatype DetailPage = DetailPage(productId: Option<string>)

  // ---------------------------------------------------------------------
  // get_product_details

  /** The title: the tile's stripped `h3` text, "" without one. */
  function Title(t: Tile): string {
    if t.heading.Some? then Strip(t.heading.value) else ""
  }

  /** `cenaint[0] if len(cenaint) == 1 else cenaint[1]` when there are
      tokens, "" when there are none. */
  function PickToken(ts: seq<string>): string {
    if ts == [] then "" else if |ts| == 1 then ts[0] else ts[1]
  }

  /** The runs of digits and commas of the tile's first `span`, once its
      dots are removed; none without a span. */
  function PriceTokens(t: Tile): seq<string> {
    if t.price.Some? then Tokens(DigitsCommas, RemoveChar(t.price.value.text, '.')) else []
  }

  /** The price with VAT read off the tile. */
  function ListPrice(t: Tile): string {
    PickToken(PriceTokens(t))
  }

  /** The price is the only token when there is one, the second when there
      are more, and "" exactly when there is none; it is made of digits and
      commas only. */
  lemma ListPriceSpec(t: Tile)
    ensures ListPrice(t) == "" <==> PriceTokens(t) == []
    ensures |PriceTokens(t)| == 1 ==> ListPrice(t) == PriceTokens(t)[0]
    ensures |PriceTokens(t)| >= 2 ==> ListPrice(t) == PriceTokens(t)[1]
    ensures AllIn(DigitsCommas, ListPrice(t)) && '.' !in ListPrice(t)
    ensures PriceTokens(t) == [] <==> t.price.None? || NoneIn(DigitsCommas, RemoveChar(t.price.value.text, '.'))
  {
    if t.price.Some? {
      TokensEmpty(DigitsCommas, RemoveChar(t.price.value.text, '.'));
    }
  }

  /** The product code: the first run of digits of `div.product-id`, ''
      when it has none; None without the tag. */
  function ProductCode(d: DetailPage): Option<string> {
    if d.productId.Some? then Some(FirstToken(DigitsOnly, d.productId.value).GetOr("")) else None
  }

  /** The record `get_product_details` starts from, numbered `zap`, with
      the title `opis` and the price `cena`. */
  function Base(group: string, date: string, url: string, opis: string, cena: string, zap: int): Record {
    map["Skupina" := Str(group), "Zap" := Int(zap), "URL" := Str(url), "Veljavnost od" := Str(date),
        "Valuta" := Str("EUR"), "DDV" := Str("22"), "EM" := Str("KOS"), "Opis" := Str(opis),
        "Cena / EM (z DDV)" := Str(cena)]
  }

  /** The record of a tile whose product page loaded as `d`. */
  function Filled(group: string, date: string, url: string, t: Tile, d: DetailPage, zap: int): Record {
    Completed(Base(group, date, url, Title(t), ListPrice(t), zap), ProductCode(d), SrcValue(t.image),
              ConvertWithoutVat(Str(ListPrice(t)), Vat))
  }

  /** The code (when found), the image and the price without VAT `net`,
      set on top of `b`. */
  function Completed(b: Record, code: Option<string>, image: Value, net: string): Record {
    SetIf(b, "Oznaka / naziv", code)["SLIKA URL" := image]["Cena / EM (brez DDV)" := Str(net)]
  }

  /** `get_product_details` for the link `url` of tile `t`, with the
      product page fetched as `detail` and the counter `c` before the call. */
  function Details(group: string, date: string, url: string, t: Tile, detail: Option<DetailPage>, c: int): Fetched {
    if Title(t) == "" && ListPrice(t) == "" then Fetched(None, c)
    else if detail.None? then Fetched(None, c)
    else Fetched(Some(Filled(group, date, url, t, detail.value, c + 1)), c + 1)
  }

  /** `get_product_details`. */
  method ProductDetails(group: string, date: string, url: string, t: Tile, detail: Option<DetailPage>, c: int)
    returns (f: Fetched)
    ensures f == Details(group, date, url, t, detail, c)
  {
    var opis, cena := ReadTileText(t);
    if opis == "" && cena == "" {
      return Fetched(None, c);
    }
    if detail.None? {
      return Fetched(None, c);
    }
    var counter := c + 1;
    var data := FillRecord(group, date, url, opis, cena, t, detail.value, counter);
    f := Fetched(Some(data), counter);
  }

  /** The title and the price read off the tile. */
  method ReadTileText(t: Tile) returns (opis: string, cena: string)
    ensures opis == Title(t) && cena == ListPrice(t)
  {
    opis := "";
    if t.heading.Some? {
      opis := Strip(t.heading.value);
    }
    cena := "";
    if t.price.Some? {
      var cenaint := Tokens(DigitsCommas, RemoveChar(t.price.value.text, '.'));
      if cenaint != [] {
        cena := if |cenaint| == 1 then cenaint[0] else cenaint[1];
      }
    }
  }

  /** The record of a tile with title `opis` and price `cena` whose
      product page loaded as `d`. */
  method FillRecord(group: string, date: string, url: string, opis: string, cena: string, t: Tile, d: DetailPage, zap: int)
    returns (data: Record)
    requires opis == Title(t) && cena == ListPrice(t)
    ensures data == Filled(group, date, url, t, d, zap)
  {
    data := Base(group, date, url, opis, cena, zap);
    var code := ProductCode(d);
    if code.Some? {
      data := data["Oznaka / naziv" := Str(code.value)];
    }
    data := data["SLIKA URL" := SrcValue(t.image)];
    data := data["Cena / EM (brez DDV)" := Str(ConvertWithoutVat(Str(cena), Vat))];
  }

  lemma BaseFields(group: string, date: string, url: string, opis: string, cena: string, zap: int)
    ensures var b := Base(group, date, url, opis, cena, zap);
      && Get(b, "Zap") == Int(zap) && Get(b, "URL") == Str(url) && Get(b, "Skupina") == Str(group)
      && Get(b, "Opis") == Str(opis) && Get(b, "EM") == Str("KOS")
      && Get(b, "Cena / EM (z DDV)") == Str(cena) && Get(b, "Oznaka / naziv") == Null
    ensures var b := Base(group, date, url, opis, cena, zap);
      Get(b, "Veljavnost od") == Str(date) && Get(b, "Valuta") == Str("EUR") && Get(b, "DDV") == Str("22")
  {
  }

  /** A record carries the number `zap`, the link, the group, the date
      defaults, the tile's title and the unit "KOS". */
  lemma FilledFields(group: string, date: string, url: string, t: Tile, d: DetailPage, zap: int)
    ensures var r := Filled(group, date, url, t, d, zap);
      && Get(r, "Zap") == Int(zap) && Get(r, "URL") == Str(url) && Get(r, "Skupina") == Str(group)
      && Get(r, "Opis") == Str(Title(t)) && Get(r, "EM") == Str("KOS")
    ensures var r := Filled(group, date, url, t, d, zap);
      Get(r, "Veljavnost od") == Str(date) && Get(r, "Valuta") == Str("EUR") && Get(r, "DDV") == Str("22")
  {
    BaseFields(group, date, url, Title(t), ListPrice(t), zap);
    CompletedFrame(Base(group, date, url, Title(t), ListPrice(t), zap), ProductCode(d), SrcValue(t.image),
                   ConvertWithoutVat(Str(ListPrice(t)), Vat));
  }

  /** `Completed` sets the code, the image and the price without VAT, and
      nothing else. */
  lemma CompletedFrame(b: Record, code: Option<string>, image: Value, net: string)
    ensures forall k :: k != "Oznaka / naziv" && k != "SLIKA URL" && k != "Cena / EM (brez DDV)" ==>
      Get(Completed(b, code, image, net), k) == Get(b, k)
  {
    var b1 := SetIf(b, "Oznaka / naziv", code);
    var e := b1["SLIKA URL" := image];
    forall k | k != "Oznaka / naziv" && k != "SLIKA URL" && k != "Cena / EM (brez DDV)"
      ensures Get(Completed(b, code, image, net), k) == Get(b, k)
    {
      assert Get(Completed(b, code, image, net), k) == Get(e, k) == Get(b1, k);
    }
  }

  /** A record carries the tile's price with VAT and its conversion, the
      code when the page has a `div.product-id`, and the image. */
  lemma FilledPrices(group: string, date: string, url: string, t: Tile, d: DetailPage, zap: int)
    ensures var r := Filled(group, date, url, t, d, zap);
      && Get(r, "Cena / EM (z DDV)") == Str(ListPrice(t))
      && Get(r, "Cena / EM (brez DDV)") == Str(ConvertWithoutVat(Get(r, "Cena / EM (z DDV)"), Vat))
      && Get(r, "Oznaka / naziv") == ValueOf(ProductCode(d))
      && Get(r, "SLIKA URL") == SrcValue(t.image)
  {
    BaseFields(group, date, url, Title(t), ListPrice(t), zap);
  }

  /** A tile with neither title nor price gives nothing and leaves the
      counter, and so does a product page that does not load; otherwise
      the tile gives a record under its link, numbered with the next
      counter value. */
  lemma DetailsSpec(group: string, date: string, url: string, t: Tile, detail: Option<DetailPage>, c: int)
    ensures Numbers(c, Details(group, date, url, t, detail, c))
    ensures Details(group, date, url, t, detail, c).record.None? <==>
      (Title(t) == "" && ListPrice(t) == "") || detail.None?
    ensures Details(group, date, url, t, detail, c).record.Some? ==>
      Get(Details(group, date, url, t, detail, c).record.value, "URL") == Str(url)
  {
    if detail.Some? {
      FilledFields(group, date, url, t, detail.value, c + 1);
    }
  }

  // ---------------------------------------------------------------------
  // The page loop of `main`

  /** The tiles the item loop does not skip: those with an anchor whose
      `href` is non-empty. */
  function TileLink(t: Tile): seq<Tile> {
    if t.anchor && t.href.Some? && t.href.value != "" then [t] else []
  }

  /** A tile the item loop keeps. */
  predicate Linked(t: Tile) {
    t.anchor && t.href.Some? && t.href.value != ""
  }

  /** The kept tiles of the pages the walk of `url` takes, in page order:
      page n is `url?p=n#section-products`, and the walk stops at a page
      that fails, has no `div.list-items` or no items, repeats the previous
      page's first stripped `h3`, or has no `a.next`. */
  function ListingTiles(url: string, pages: Listing): seq<Tile> {
    UrlsInjective(Merkur, url);
    LinksOf(TileLink, Walk(RulesOf(Merkur), Urls(Merkur, url), pages, 1, Some("star")))
  }

  /** The page loop. */
  method PageTiles(url: string, pages: Listing) returns (tiles: seq<Tile>, asked: seq<string>)
    ensures tiles == ListingTiles(url, pages)
    ensures forall t :: t in tiles ==> Linked(t)
    ensures forall i :: 0 <= i < |asked| ==> asked[i] == url + "?p=" + Dec(i + 1) + "#section-products"
  {
    UrlsInjective(Merkur, url);
    tiles, asked := CollectLinks(RulesOf(Merkur), TileLink, Urls(Merkur, url), pages);
    ListingTilesLinked(url, pages);
  }

  // ---------------------------------------------------------------------
  // The tile loop of `main`

  /** The product page of a tile, when its link loads. */
  function DetailOf(t: Tile, products: map<string, DetailPage>): Option<DetailPage> {
    if t.href.Some? && t.href.value in products then Some(products[t.href.value]) else None
  }

  /** The lookup of a tile: `get_product_details` on its link, against the
      product pages that load. */
  function Lookup(date: string, products: map<string, DetailPage>, group: string): (Tile, int) -> Fetched {
    (t: Tile, c: int) => Details(group, date, t.href.GetOr(""), t, DetailOf(t, products), c)
  }

  /** What a lookup promises: the counter rule, and a record filed under
      the tile's link. */
  ghost predicate LookupOk(lookup: (Tile, int) -> Fetched) {
    && (forall t, c :: Numbers(c, lookup(t, c)))
    && (forall t, c :: lookup(t, c).record.Some? ==> Get(lookup(t, c).record.value, "URL") == Str(t.href.GetOr("")))
  }

  lemma LookupIsOk(date: string, products: map<string, DetailPage>, group: string)
    ensures LookupOk(Lookup(date, products, group))
  {
    forall t, c ensures Numbers(c, Lookup(date, products, group)(t, c))
      && (Lookup(date, products, group)(t, c).record.Some? ==>
          Get(Lookup(date, products, group)(t, c).record.value, "URL") == Str(t.href.GetOr("")))
    {
      DetailsSpec(group, date, t.href.GetOr(""), t, DetailOf(t, products), c);
    }
  }

  /** The state of the tile loop of a subcategory: `existing_urls`, the
      subcategory's new records, the counter, and the Excel file. */
  datatype Scan = Scan(known: set<string>, added: seq<Record>, counter: int, excel: FileState)

  /** One tile: a link already known is skipped; otherwise it is looked
      up, and a record that comes back is added, its link becomes known,
      and every `FlushAt`-th new record writes the loaded rows and the new
      ones to the sheet. */
  function Visit(lookup: (Tile, int) -> Fetched, all: seq<Record>, s: Scan, t: Tile): Scan {
    var url := t.href.GetOr("");
    if url in s.known then s
    else
      var f := lookup(t, s.counter);
      if f.record.None? then s.(counter := f.counter)
      else
        var added := s.added + [f.record.value];
        Scan(s.known + {url}, added, f.counter,
             if |added| % FlushAt == 0 then ExportedSheet(all + added, s.excel) else s.excel)
  }

  /** The tiles, in order. */
  function ScanTiles(lookup: (Tile, int) -> Fetched, all: seq<Record>, s: Scan, tiles: seq<Tile>): Scan {
    if tiles == [] then s else Visit(lookup, all, ScanTiles(lookup, all, s, tiles[..|tiles| - 1]), tiles[|tiles| - 1])
  }

  /** The tile loop. */
  method ScanSubcategory(lookup: (Tile, int) -> Fetched, all: seq<Record>, tiles: seq<Tile>, s0: Scan)
    returns (s: Scan)
    ensures s == ScanTiles(lookup, all, s0, tiles)
  {
    var known, added, counter, excel := s0.known, s0.added, s0.counter, s0.excel;
    var i := 0;
    while i < |tiles|
      invariant 0 <= i <= |tiles|
      invariant Scan(known, added, counter, excel) == ScanTiles(lookup, all, s0, tiles[..i])
    {
      assert tiles[..i + 1][..i] == tiles[..i];
      var url := tiles[i].href.GetOr("");
      if url !in known {
        var details := lookup(tiles[i], counter);
        counter := details.counter;
        if details.record.Some? {
          added := added + [details.record.value];
          known := known + {url};
          if |added| % FlushAt == 0 {
            excel := ExportedSheet(all + added, excel);
          }
        }
      }
      i := i + 1;
    }
    assert tiles[..i] == tiles;
    s := Scan(known, added, counter, excel);
  }

  /** The links of records, as `{d.get('URL') for d in data if d.get('URL')}`
      holds them (only text links can match a tile's link). */
  function Known(rows: seq<Record>): set<string> {
    set r | r in rows && Get(r, "URL").Str? && Get(r, "URL").s != "" :: Get(r, "URL").s
  }

  lemma KnownAppend(a: seq<Record>, b: seq<Record>)
    ensures Known(a + b) == Known(a) + Known(b)
  {
    assert forall r :: r in a + b <==> r in a || r in b;
  }

  /** What the tile loop keeps, for a start with `known0` and the counter
      at `c0`: the new records are numbered on from `c0`, each under a
      non-empty link not in `known0`, no two under the same link, and the
      known links are `known0` and theirs. */
  ghost predicate ScanInv(known0: set<string>, c0: int, s: Scan) {
    && NumberedFrom(c0, s.added) && s.counter == c0 + |s.added|
    && s.known == known0 + Known(s.added)
    && (forall i :: 0 <= i < |s.added| ==>
          Get(s.added[i], "URL").Str? && Get(s.added[i], "URL").s != "" && Get(s.added[i], "URL").s !in known0)
    && (forall i, j :: 0 <= i < j < |s.added| ==> Get(s.added[i], "URL") != Get(s.added[j], "URL"))
  }

  lemma VisitKeeps(lookup: (Tile, int) -> Fetched, all: seq<Record>, known0: set<string>, c0: int, s: Scan, t: Tile)
    requires LookupOk(lookup) && Linked(t) && ScanInv(known0, c0, s)
    ensures ScanInv(known0, c0, Visit(lookup, all, s, t))
  {
    var url := t.href.value;
    if url !in s.known {
      var f := lookup(t, s.counter);
      assert Numbers(s.counter, f);
      if f.record.Some? {
        var r := f.record.value;
        var added := s.added + [r];
        assert Get(r, "URL") == Str(url);
        KnownAppend(s.added, [r]);
        assert Known([r]) == {url} by {
          assert forall x :: x in [r] <==> x == r;
        }
        forall i | 0 <= i < |s.added| ensures Get(s.added[i], "URL") != Str(url) {
          assert s.added[i] in s.added;
        }
      }
    }
  }

  /** A URL already known, whether loaded or extracted earlier in the
      subcategory, is never looked up again: every new record of a
      subcategory is under a link that was not known and that no other
      new record has, and the counter moves by one per new record. */
  lemma {:induction false} ScanTilesKeeps(lookup: (Tile, int) -> Fetched, all: seq<Record>, known0: set<string>,
                                          c0: int, excel: FileState, tiles: seq<Tile>)
    requires LookupOk(lookup) && forall t :: t in tiles ==> Linked(t)
    ensures ScanInv(known0, c0, ScanTiles(lookup, all, Scan(known0, [], c0, excel), tiles))
  {
    if tiles != [] {
      var init := tiles[..|tiles| - 1];
      assert forall t :: t in init ==> t in tiles;
      ScanTilesKeeps(lookup, all, known0, c0, excel, init);
      VisitKeeps(lookup, all, known0, c0, ScanTiles(lookup, all, Scan(known0, [], c0, excel), init), tiles[|tiles| - 1]);
    }
  }

  // ---------------------------------------------------------------------
  // main

  /** `sub_cat_url.strip('/').split('/')[-1].replace('-', ' ').capitalize()` */
  function Group(url: string): string {
    GroupName(LastSegment(StripChar(url, '/'), '/'))
  }

  /** `save_to_json(data, filepath)`: nothing for empty data, else the
      list itself. */
  function SavedJson(data: seq<Record>, json: FileState): (r: FileState)
    ensures data == [] ==> r == json
    ensures data != [] ==> r == Present(data)
  {
    if data == [] then json else Present(data)
  }

  /** What `main` carries from one subcategory to the next:
      `all_products_data`, the counter and the two files. */
  datatype Progress = Progress(all: seq<Record>, counter: int, files: Files)

  /** The start: the rows and the counter read back from the sheet. */
  function Start(files: Files): Progress {
    var r := MerkurResume(files.excel);
    Progress(r.rows, r.counter, files)
  }

  /** One subcategory: its tiles are scanned against the links of
      `all_products_data`; new records, if any, are added to it and the
      whole list is written to the JSON file. */
  function AfterSub(date: string, products: map<string, DetailPage>, pages: Listing, p: Progress, url: string): Progress {
    var s := SubScan(date, products, pages, p, url);
    if s.added == [] then Progress(p.all, s.counter, p.files.(excel := s.excel))
    else Progress(p.all + s.added, s.counter, Files(SavedJson(p.all + s.added, p.files.json), s.excel))
  }

  /** The tile loop of the subcategory `url`, from the state `p`. */
  function SubScan(date: string, products: map<string, DetailPage>, pages: Listing, p: Progress, url: string): Scan {
    ScanTiles(Lookup(date, products, Group(url)), p.all, Scan(Known(p.all), [], p.counter, p.files.excel),
              ListingTiles(url, pages))
  }

  /** The subcategories, in order. */
  function AfterSubs(date: string, products: map<string, DetailPage>, pages: Listing, p: Progress, urls: seq<string>): Progress {
    if urls == [] then p
    else AfterSub(date, products, pages, AfterSubs(date, products, pages, p, urls[..|urls| - 1]), urls[|urls| - 1])
  }

  /** What the run keeps, from the loaded rows `rows0`, the resumed
      counter `c0` and the files `f0`: `all_products_data` is the loaded
      rows followed by the new records, numbered on from `c0`, each under
      a link no loaded row and no other new record has; the counter has
      moved by one per new record, and the JSON file is untouched as long
      as the list is empty. */
  ghost predicate RunInv(rows0: seq<Record>, c0: int, f0: Files, p: Progress) {
    && |rows0| <= |p.all| && p.all[..|rows0|] == rows0
    && NumberedFrom(c0, p.all[|rows0|..]) && p.counter == c0 + |p.all| - |rows0|
    && (forall i :: |rows0| <= i < |p.all| ==>
          Get(p.all[i], "URL").Str? && Get(p.all[i], "URL").s != "" && Get(p.all[i], "URL").s !in Known(rows0))
    && (forall i, j :: |rows0| <= i < j < |p.all| ==> Get(p.all[i], "URL") != Get(p.all[j], "URL"))
    && (p.all == [] ==> p.files.json == f0.json)
  }

  /** Adding the new records of a subcategory keeps what the run keeps. */
  lemma AddKeeps(rows0: seq<Record>, c0: int, f0: Files, p: Progress, s: Scan, json: FileState)
    requires RunInv(rows0, c0, f0, p) && ScanInv(Known(p.all), p.counter, s)
    requires s.added == [] ==> json == p.files.json
    ensures RunInv(rows0, c0, f0, Progress(p.all + s.added, s.counter, Files(json, s.excel)))
  {
    var all := p.all + s.added;
    var n0 := |rows0|;
    assert all[..n0] == rows0;
    NumberedAppend(c0, p.all[n0..], s.added);
    assert all[n0..] == p.all[n0..] + s.added;
    AddedUrlsNew(rows0, p.all, s.added);
    KnownAppend(rows0, p.all[n0..]);
    assert p.all == rows0 + p.all[n0..];
    AddedUrlsDistinct(n0, p.all, s.added);
  }

  lemma NumberedAppend(c0: int, a: seq<Record>, b: seq<Record>)
    requires NumberedFrom(c0, a) && NumberedFrom(c0 + |a|, b)
    ensures NumberedFrom(c0, a + b)
  {
    forall i | 0 <= i < |a + b| ensures Get((a + b)[i], "Zap") == Int(c0 + i + 1) {
      if i >= |a| {
        assert (a + b)[i] == b[i - |a|];
      }
    }
  }

  lemma AddedUrlsNew(rows0: seq<Record>, all: seq<Record>, added: seq<Record>)
    requires |rows0| <= |all| && all[..|rows0|] == rows0
    requires forall i :: |rows0| <= i < |all| ==>
      Get(all[i], "URL").Str? && Get(all[i], "URL").s != "" && Get(all[i], "URL").s !in Known(rows0)
    requires forall i :: 0 <= i < |added| ==>
      Get(added[i], "URL").Str? && Get(added[i], "URL").s != "" && Get(added[i], "URL").s !in Known(all)
    ensures forall i :: |rows0| <= i < |all + added| ==>
      Get((all + added)[i], "URL").Str? && Get((all + added)[i], "URL").s != "" && Get((all + added)[i], "URL").s !in Known(rows0)
  {
    assert all == rows0 + all[|rows0|..];
    KnownAppend(rows0, all[|rows0|..]);
    forall i | |all| <= i < |all + added|
      ensures Get((all + added)[i], "URL").s !in Known(rows0)
    {
      assert (all + added)[i] == added[i - |all|];
    }
  }

  lemma AddedUrlsDistinct(n0: nat, all: seq<Record>, added: seq<Record>)
    requires n0 <= |all|
    requires forall i, j :: n0 <= i < j < |all| ==> Get(all[i], "URL") != Get(all[j], "URL")
    requires forall i :: n0 <= i < |all| ==> Get(all[i], "URL").Str? && Get(all[i], "URL").s != ""
    requires forall i :: 0 <= i < |added| ==> Get(added[i], "URL").Str? && Get(added[i], "URL").s !in Known(all)
    requires forall i, j :: 0 <= i < j < |added| ==> Get(added[i], "URL") != Get(added[j], "URL")
    ensures forall i, j :: n0 <= i < j < |all + added| ==> Get((all + added)[i], "URL") != Get((all + added)[j], "URL")
  {
    forall i, j | n0 <= i < j < |all + added| ensures Get((all + added)[i], "URL") != Get((all + added)[j], "URL") {
      if j >= |all| {
        assert (all + added)[j] == added[j - |all|];
        if i < |all| {
          assert all[i] in all;
          assert Get(all[i], "URL").s in Known(all);
        } else {
          assert (all + added)[i] == added[i - |all|];
        }
      }
    }
  }

  /** Every tile a listing walk yields has a link. */
  lemma ListingTilesLinked(url: string, pages: Listing)
    ensures forall t :: t in ListingTiles(url, pages) ==> Linked(t)
  {
    UrlsInjective(Merkur, url);
    LinksOfAll(TileLink, Walk(RulesOf(Merkur), Urls(Merkur, url), pages, 1, Some("star")), Linked);
  }

  lemma SubScanKeeps(date: string, products: map<string, DetailPage>, pages: Listing, p: Progress, url: string)
    ensures ScanInv(Known(p.all), p.counter, SubScan(date, products, pages, p, url))
  {
    LookupIsOk(date, products, Group(url));
    ListingTilesLinked(url, pages);
    ScanTilesKeeps(Lookup(date, products, Group(url)), p.all, Known(p.all), p.counter, p.files.excel, ListingTiles(url, pages));
  }

  lemma AfterSubKeeps(date: string, products: map<string, DetailPage>, pages: Listing,
                      rows0: seq<Record>, c0: int, f0: Files, p: Progress, url: string)
    requires RunInv(rows0, c0, f0, p)
    ensures RunInv(rows0, c0, f0, AfterSub(date, products, pages, p, url))
  {
    var s := SubScan(date, products, pages, p, url);
    SubScanKeeps(date, products, pages, p, url);
    var json := if s.added == [] then p.files.json else Present(p.all + s.added);
    assert AfterSub(date, products, pages, p, url) == Progress(p.all + s.added, s.counter, Files(json, s.excel)) by {
      if s.added == [] {
        assert p.all + s.added == p.all;
      }
    }
    AddKeeps(rows0, c0, f0, p, s, json);
  }

  lemma {:induction false} AfterSubsKeeps(date: string, products: map<string, DetailPage>, pages: Listing,
                                          rows0: seq<Record>, c0: int, f0: Files, p: Progress, urls: seq<string>)
    requires RunInv(rows0, c0, f0, p)
    ensures RunInv(rows0, c0, f0, AfterSubs(date, products, pages, p, urls))
  {
    if urls != [] {
      AfterSubsKeeps(date, products, pages, rows0, c0, f0, p, urls[..|urls| - 1]);
      AfterSubKeeps(date, products, pages, rows0, c0, f0, AfterSubs(date, products, pages, p, urls[..|urls| - 1]), urls[|urls| - 1]);
    }
  }

  /** The body of the loop of `main` over the subcategories. */
  method Subcategory(date: string, products: map<string, DetailPage>, pages: Listing,
                     all: seq<Record>, counter: int, stored: Files, url: string)
    returns (all': seq<Record>, counter': int, stored': Files)
    ensures Progress(all', counter', stored') == AfterSub(date, products, pages, Progress(all, counter, stored), url)
  {
    var group := Group(url);
    var tiles, _ := PageTiles(url, pages);
    var s := ScanSubcategory(Lookup(date, products, group), all, tiles, Scan(Known(all), [], counter, stored.excel));
    assert s == SubScan(date, products, pages, Progress(all, counter, stored), url);
    all', counter', stored' := all, s.counter, stored.(excel := s.excel);
    if s.added != [] {
      all' := all + s.added;
      stored' := stored'.(json := SavedJson(all', stored'.json));
    }
  }

  /** `main`: resume the rows and the counter from the sheet; for every
      subcategory URL in order walk its pages, look up each tile whose link
      is not yet known, add the records that come back, write the sheet
      every `FlushAt` new records and the JSON file after the subcategory;
      then write the sheet, and in `finally` the JSON file and the sheet
      once more. `all` is the loaded rows followed by the new records,
      numbered on from the resumed counter, each under a link that no
      loaded row and no other new record has; the JSON file holds `all`
      (unless it is empty) and the sheet is written from `all` twice over
      what the loops left. */
  method Run(urls: seq<string>, pages: Listing, products: map<string, DetailPage>, date: string, files: Files)
    returns (stored: Files, counter: int, all: seq<Record>)
    ensures RunInv(MerkurResume(files.excel).rows, MerkurResume(files.excel).counter, files, Progress(all, counter, stored))
    ensures stored.json == (if all == [] then files.json else Present(all))
    ensures var p := AfterSubs(date, products, pages, Start(files), urls);
      all == p.all && counter == p.counter
      && stored.excel == ExportedSheet(all, ExportedSheet(all, p.files.excel))
  {
    var p := Subcategories(date, products, pages, files, urls);
    RunKeeps(date, products, pages, files, urls);
    all, counter := p.all, p.counter;
    stored := FinalWrites(all, p.files);
  }

  /** The loop of `main` over the subcategory URLs, from the resumed
      start. */
  method Subcategories(date: string, products: map<string, DetailPage>, pages: Listing, files: Files, urls: seq<string>)
    returns (p: Progress)
    ensures p == AfterSubs(date, products, pages, Start(files), urls)
  {
    var start := Start(files);
    var all, counter, stored := start.all, start.counter, files;
    var k := 0;
    assert urls[..0] == [];
    while k < |urls|
      invariant 0 <= k <= |urls|
      invariant Progress(all, counter, stored) == AfterSubs(date, products, pages, start, urls[..k])
    {
      AfterSubsStep(date, products, pages, start, urls, k);
      all, counter, stored := Subcategory(date, products, pages, all, counter, stored, urls[k]);
      k := k + 1;
    }
    assert urls[..k] == urls;
    p := Progress(all, counter, stored);
  }

  lemma AfterSubsStep(date: string, products: map<string, DetailPage>, pages: Listing, p: Progress, urls: seq<string>, k: nat)
    requires k < |urls|
    ensures AfterSubs(date, products, pages, p, urls[..k + 1])
         == AfterSub(date, products, pages, AfterSubs(date, products, pages, p, urls[..k]), urls[k])
  {
    assert urls[..k + 1][..k] == urls[..k];
  }

  /** The sheet written after the loops, then the JSON file and the sheet
      once more in `finally`. */
  method FinalWrites(all: seq<Record>, stored: Files) returns (stored': Files)
    ensures stored'.json == SavedJson(all, stored.json)
    ensures stored'.excel == ExportedSheet(all, ExportedSheet(all, stored.excel))
  {
    stored' := stored.(excel := ExportedSheet(all, stored.excel));
    stored' := Files(SavedJson(all, stored'.json), ExportedSheet(all, stored'.excel));
  }

  /** The run keeps its invariant from the resumed start to the end. */
  lemma RunKeeps(date: string, products: map<string, DetailPage>, pages: Listing, files: Files, urls: seq<string>)
    ensures RunInv(MerkurResume(files.excel).rows, MerkurResume(files.excel).counter, files,
                   AfterSubs(date, products, pages, Start(files), urls))
  {
    var start := Start(files);
    assert start.all[..|start.all|] == start.all;
    assert RunInv(start.all, start.counter, files, start);
    AfterSubsKeeps(date, products, pages, start.all, start.counter, files, start, urls);
  }
}
