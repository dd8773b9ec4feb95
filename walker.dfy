/** The listing walkers: each scraper asks for page 1, 2, 3, ... of a
    category listing and stops at the first page that fails to load, shows
    no products, repeats the previous page (Merkur, Slovenijales, Obi) or
    offers no next page. The parsed pages are values; fetching is a finite
    map from URL to page, and a URL outside it is a failed fetch. */
module Walker {
  import opened Wrappers
  import opened Text
  import opened Values

  datatype Site = Merkur | Zagozen | Kalcer | Slovenijales | Obi | Tehnoles

  /** The image tag of a tile or product page: absent, or present with or
      without its attribute (`src` or `href`). */
  datatype Image = NoImage | Image(src: Option<string>)

  /** `img.get("src") if img else ''`: '' without a tag, `None` for a tag
      without the attribute. */
  function SrcValue(i: Image): (v: Value)
    ensures i.NoImage? ==> v == Str("")
    ensures i.Image? ==> v == ValueOf(i.src)
  {
    match i
    case NoImage => Str("")
    case Image(src) => ValueOf(src)
  }

  /** A price tag: its own text and the text of its parent element (Obi
      reads the unit from the parent). */
  datatype PriceTag = PriceTag(text: string, parentText: string)

  /** One product tile of a listing page: whether its link anchor exists,
      the anchor's `href` (None when the attribute is missing), the heading
      text (Merkur's `h3`, Obi's `h4`), and the price and image tags. */
  datatype Tile = Tile(anchor: bool, href: Option<string>, heading: Option<string>,
                       price: Option<PriceTag>, image: Image)

  /** A listing page as parsed: whether the tile container exists
      (Merkur's `div.list-items`, Obi's product list, Zagozen's
      `ul.products-grid`), Zagozen's `p.note-msg` text, the tiles in page
      order, and the text of the next-page element when there is one. */
  datatype ListingPage = ListingPage(container: bool, note: Option<string>, tiles: seq<Tile>,
                                     pager: Option<string>)

  /** What fetching answers: the page behind each URL that loads. */
  type Listing = map<string, ListingPage>

  /** The URL of page `n` of the listing at `base`. */
  function PageUrl(site: Site, base: string, n: nat): string {
    match site
    case Merkur => base + "?p=" + Dec(n) + "#section-products"
    case Zagozen => if n == 1 then base else base + "?p=" + Dec(n)
    case Kalcer => base + "&page=" + Dec(n)
    case Slovenijales => base + "?page=" + Dec(n)
    case Obi => base + "?p=" + Dec(n)
    case Tehnoles => base + "?pagenum=" + Dec(n)
  }

  lemma CancelPrefix(a: string, x: string, y: string)
    requires a + x == a + y
    ensures x == y
  {
    assert x == (a + x)[|a|..];
    assert y == (a + y)[|a|..];
  }

  /** Different page numbers give different URLs: the walk never asks for
      the same page twice. */
  lemma PageUrlInjective(site: Site, base: string, n: nat, m: nat)
    requires n >= 1 && m >= 1 && PageUrl(site, base, n) == PageUrl(site, base, m)
    ensures n == m
  {
    match site
    case Merkur =>
      CancelAround(base + "?p=", Dec(n), Dec(m), "#section-products");
      DecInjective(n, m);
    case Zagozen =>
      assert n != 1 ==> |PageUrl(site, base, n)| > |base|;
      assert m != 1 ==> |PageUrl(site, base, m)| > |base|;
      if n != 1 && m != 1 {
        CancelPrefix(base + "?p=", Dec(n), Dec(m));
        DecInjective(n, m);
      }
    case Kalcer =>
      CancelPrefix(base + "&page=", Dec(n), Dec(m));
      DecInjective(n, m);
    case Slovenijales =>
      CancelPrefix(base + "?page=", Dec(n), Dec(m));
      DecInjective(n, m);
    case Obi =>
      CancelPrefix(base + "?p=", Dec(n), Dec(m));
      DecInjective(n, m);
    case Tehnoles =>
      CancelPrefix(base + "?pagenum=", Dec(n), Dec(m));
      DecInjective(n, m);
  }

  /** A page numbering that never gives two pages the same URL. */
  ghost predicate Injective(url: nat -> string) {
    forall n, m :: 1 <= n && 1 <= m && url(n) == url(m) ==> n == m
  }

  /** The page URLs of one listing, as a numbering. */
  function Urls(site: Site, base: string): nat -> string {
    (n: nat) => PageUrl(site, base, n)
  }

  lemma UrlsInjective(site: Site, base: string)
    ensures Injective(Urls(site, base))
  {
    forall n, m | 1 <= n && 1 <= m && Urls(site, base)(n) == Urls(site, base)(m) ensures n == m {
      PageUrlInjective(site, base, n, m);
    }
  }

  /** The URLs of pages 1 .. n-1. */
  function Seen(url: nat -> string, n: nat): set<string> {
    if n <= 1 then {} else Seen(url, n - 1) + {url(n - 1)}
  }

  lemma {:induction false} NotSeenYet(url: nat -> string, n: nat)
    requires Injective(url) && n >= 1
    ensures url(n) !in Seen(url, n)
  {
    if n > 1 {
      NotSeenYet(url, n - 1);
      if url(n) in Seen(url, n - 1) {
        SeenHolds(url, n - 1, url(n));
      }
    }
  }

  lemma {:induction false} SeenHolds(url: nat -> string, n: nat, u: string)
    requires u in Seen(url, n)
    ensures exists k :: 1 <= k < n && url(k) == u
  {
    if n > 1 && u != url(n - 1) {
      SeenHolds(url, n - 1, u);
    }
  }

  /** Loading page `n` uses up one more URL of the finite listing. */
  lemma SeenGrows(url: nat -> string, pages: Listing, n: nat)
    requires Injective(url) && n >= 1 && url(n) in pages
    ensures |pages.Keys - Seen(url, n + 1)| < |pages.Keys - Seen(url, n)|
  {
    NotSeenYet(url, n);
    assert pages.Keys - Seen(url, n + 1) == (pages.Keys - Seen(url, n)) - {url(n)};
  }

  /** The walkers that compare a page's first tile with the previous page's. */
  predicate Repeats(site: Site) {
    site == Merkur || site == Slovenijales || site == Obi
  }

  /** The fingerprint of a page: Merkur's stripped `h3` and Obi's raw `h4`
      of the first tile, Slovenijales's first anchor `href`; None when the
      tag is missing. */
  function Fingerprint(site: Site, p: ListingPage): Option<string> {
    if p.tiles == [] then None
    else
    var t := p.tiles[0];
    match site
    case Merkur => if t.heading.Some? then Some(Strip(t.heading.value)) else None
    case Obi => t.heading
    case Slovenijales => if t.anchor then t.href else None
    case _ => None
  }

  /** The page lists products: the container is there (where the site looks
      for one), Zagozen's note does not say "ni izdelkov" in any case, and
      there is at least one tile. */
  predicate Listed(site: Site, p: ListingPage) {
    && !(site == Zagozen && p.note.Some? && Contains(Lower(p.note.value), "ni izdelkov"))
    && ((site == Merkur || site == Obi || site == Zagozen) ==> p.container)
    && p.tiles != []
  }

  /** The next-page element exists; Kalcer's pagination text must besides
      contain "Prikazujem". */
  predicate HasNext(site: Site, p: ListingPage) {
    p.pager.Some? && (site == Kalcer ==> Contains(p.pager.value, "Prikazujem"))
  }

  /** What a walker checks on each page it loads. */
  datatype Rules = Rules(listed: ListingPage -> bool, hasNext: ListingPage -> bool,
                         fingerprint: ListingPage -> Option<string>, repeats: bool)

  function RulesOf(site: Site): Rules {
    Rules(p => Listed(site, p), p => HasNext(site, p), p => Fingerprint(site, p), Repeats(site))
  }

  /** Page `n`, fetched as `p`, is taken: it lists products and, where the
      site compares, does not repeat the page before. */
  predicate Takes(rules: Rules, p: ListingPage, n: nat, prev: Option<string>) {
    rules.listed(p) && !(n > 1 && rules.repeats && rules.fingerprint(p) == prev)
  }

  /** The fingerprint the next page is compared with. */
  function NextPrev(rules: Rules, p: ListingPage, prev: Option<string>): Option<string> {
    if rules.repeats then rules.fingerprint(p) else prev
  }

  /** The pages whose tiles a walk processes, in order, from page `n` on,
      with `prev` the previous page's fingerprint. */
  function Walk(rules: Rules, url: nat -> string, pages: Listing, n: nat, prev: Option<string>): seq<ListingPage>
    requires Injective(url) && n >= 1
    decreases |pages.Keys - Seen(url, n)|
  {
    if url(n) !in pages || !Takes(rules, pages[url(n)], n, prev) then []
    else if !rules.hasNext(pages[url(n)]) then [pages[url(n)]]
    else
      SeenGrows(url, pages, n);
      [pages[url(n)]] + Walk(rules, url, pages, n + 1, NextPrev(rules, pages[url(n)], prev))
  }

  /** Page `i` of a walk from page `n` that took `w` is the listing's page
      `n + i`, loaded, listing products, and offers a next page unless it
      is the last one. */
  ghost predicate TakenAt(rules: Rules, url: nat -> string, pages: Listing, n: nat, w: seq<ListingPage>, i: nat)
    requires i < |w|
  {
    && url(n + i) in pages && w[i] == pages[url(n + i)]
    && rules.listed(w[i])
    && (i + 1 < |w| ==> rules.hasNext(w[i]))
  }

  ghost predicate AllTaken(rules: Rules, url: nat -> string, pages: Listing, n: nat, w: seq<ListingPage>) {
    forall i :: 0 <= i < |w| ==> TakenAt(rules, url, pages, n, w, i)
  }

  lemma TakenCons(rules: Rules, url: nat -> string, pages: Listing, n: nat, p: ListingPage, rest: seq<ListingPage>)
    requires url(n) in pages && p == pages[url(n)] && rules.listed(p) && rules.hasNext(p)
    requires AllTaken(rules, url, pages, n + 1, rest)
    ensures AllTaken(rules, url, pages, n, [p] + rest)
  {
    var w := [p] + rest;
    assert TakenAt(rules, url, pages, n, w, 0) by {
      assert n + 0 == n;
    }
    forall i | 1 <= i < |w| ensures TakenAt(rules, url, pages, n, w, i) {
      assert TakenAt(rules, url, pages, n + 1, rest, i - 1);
      assert n + 1 + (i - 1) == n + i;
    }
  }

  /** Every page the walk takes is the next page of the listing, loaded,
      listing products, and follows a page that offered a next page. */
  lemma {:induction false} WalkAccepted(rules: Rules, url: nat -> string, pages: Listing, n: nat, prev: Option<string>)
    requires Injective(url) && n >= 1
    ensures AllTaken(rules, url, pages, n, Walk(rules, url, pages, n, prev))
    decreases |pages.Keys - Seen(url, n)|
  {
    WalkUnfold(rules, url, pages, n, prev);
    if url(n) in pages && Takes(rules, pages[url(n)], n, prev) {
      var p := pages[url(n)];
      if rules.hasNext(p) {
        SeenGrows(url, pages, n);
        var next := NextPrev(rules, p, prev);
        WalkAccepted(rules, url, pages, n + 1, next);
        TakenCons(rules, url, pages, n, p, Walk(rules, url, pages, n + 1, next));
      } else {
        assert TakenAt(rules, url, pages, n, [p], 0) by {
          assert n + 0 == n;
        }
      }
    }
  }

  /** A walk never takes two pages in a row with the same fingerprint
      (where the site compares them). */
  lemma {:induction false} WalkNoRepeat(rules: Rules, url: nat -> string, pages: Listing, n: nat, prev: Option<string>)
    requires Injective(url) && n >= 1
    ensures var w := Walk(rules, url, pages, n, prev);
      && (rules.repeats && n > 1 && w != [] ==> rules.fingerprint(w[0]) != prev)
      && (rules.repeats ==> forall i :: 0 < i < |w| ==> rules.fingerprint(w[i]) != rules.fingerprint(w[i - 1]))
    decreases |pages.Keys - Seen(url, n)|
  {
    if url(n) in pages && Takes(rules, pages[url(n)], n, prev) && rules.hasNext(pages[url(n)]) {
      var p := pages[url(n)];
      SeenGrows(url, pages, n);
      var next := NextPrev(rules, p, prev);
      WalkNoRepeat(rules, url, pages, n + 1, next);
      var w := Walk(rules, url, pages, n, prev);
      var rest := Walk(rules, url, pages, n + 1, next);
      assert w == [p] + rest;
      assert forall i :: 0 < i < |w| ==> w[i] == rest[i - 1];
    }
  }

  /** Why a walk from page `n` that took `w` ended: the page after its
      last one failed to load, was not taken, or was never asked for
      because the last page offered no next page. */
  ghost predicate StoppedAfter(rules: Rules, url: nat -> string, pages: Listing, n: nat, prev: Option<string>, w: seq<ListingPage>) {
    || (w != [] && !rules.hasNext(w[|w| - 1]))
    || url(n + |w|) !in pages
    || !Takes(rules, pages[url(n + |w|)], n + |w|, if w == [] then prev else NextPrev(rules, w[|w| - 1], prev))
  }

  /** Every walk ends for one of those reasons. */
  lemma {:induction false} WalkStopped(rules: Rules, url: nat -> string, pages: Listing, n: nat, prev: Option<string>)
    requires Injective(url) && n >= 1
    ensures StoppedAfter(rules, url, pages, n, prev, Walk(rules, url, pages, n, prev))
    decreases |pages.Keys - Seen(url, n)|
  {
    if url(n) in pages && Takes(rules, pages[url(n)], n, prev) && rules.hasNext(pages[url(n)]) {
      var p := pages[url(n)];
      SeenGrows(url, pages, n);
      var next := NextPrev(rules, p, prev);
      WalkStopped(rules, url, pages, n + 1, next);
      WalkUnfold(rules, url, pages, n, prev);
      StoppedCons(rules, url, pages, n, prev, p, Walk(rules, url, pages, n + 1, next));
    }
  }

  /** A page offering a next page, put in front of a walk that stopped,
      gives a walk that stopped for the same reason. */
  lemma StoppedCons(rules: Rules, url: nat -> string, pages: Listing, n: nat, prev: Option<string>,
                    p: ListingPage, rest: seq<ListingPage>)
    requires rules.hasNext(p)
    requires StoppedAfter(rules, url, pages, n + 1, NextPrev(rules, p, prev), rest)
    ensures StoppedAfter(rules, url, pages, n, prev, [p] + rest)
  {
    var w := [p] + rest;
    assert n + 1 + |rest| == n + |w|;
    if rest != [] {
      assert w[|w| - 1] == rest[|rest| - 1];
    }
  }

  // ---------------------------------------------------------------------
  // Collecting product links (`get_product_links_from_...`)

  /** The links the taken pages contribute, page by page and tile by tile,
      where `link` gives what one tile appends (nothing or one URL). */
  function TileLinks<T>(link: Tile -> seq<T>, ts: seq<Tile>): seq<T> {
    if ts == [] then [] else TileLinks(link, ts[..|ts| - 1]) + link(ts[|ts| - 1])
  }

  function LinksOf<T>(link: Tile -> seq<T>, ps: seq<ListingPage>): seq<T> {
    if ps == [] then [] else TileLinks(link, ps[0].tiles) + LinksOf(link, ps[1..])
  }

  lemma {:induction false} LinksOfSnoc<T>(link: Tile -> seq<T>, ps: seq<ListingPage>, p: ListingPage)
    ensures LinksOf(link, ps + [p]) == LinksOf(link, ps) + TileLinks(link, p.tiles)
  {
    if ps == [] {
      assert LinksOf(link, [p]) == TileLinks(link, p.tiles) + LinksOf(link, []);
    } else {
      assert (ps + [p])[1..] == ps[1..] + [p];
      LinksOfSnoc(link, ps[1..], p);
    }
  }

  /** A property every tile's links have holds of all the collected ones. */
  lemma {:induction false} TileLinksAll<T>(link: Tile -> seq<T>, ts: seq<Tile>, ok: T -> bool)
    requires forall t, x :: x in link(t) ==> ok(x)
    ensures forall x :: x in TileLinks(link, ts) ==> ok(x)
  {
    if ts != [] {
      TileLinksAll(link, ts[..|ts| - 1], ok);
    }
  }

  lemma {:induction false} LinksOfAll<T>(link: Tile -> seq<T>, ps: seq<ListingPage>, ok: T -> bool)
    requires forall t, x :: x in link(t) ==> ok(x)
    ensures forall x :: x in LinksOf(link, ps) ==> ok(x)
  {
    if ps != [] {
      TileLinksAll(link, ps[0].tiles, ok);
      LinksOfAll(link, ps[1..], ok);
    }
  }

  /** The inner `for` loop over one page's tiles. */
  method PageLinks<T>(link: Tile -> seq<T>, p: ListingPage) returns (links: seq<T>)
    ensures links == TileLinks(link, p.tiles)
  {
    links := [];
    var j := 0;
    while j < |p.tiles|
      invariant 0 <= j <= |p.tiles|
      invariant links == TileLinks(link, p.tiles[..j])
    {
      assert p.tiles[..j + 1][..j] == p.tiles[..j];
      links := links + link(p.tiles[j]);
      j := j + 1;
    }
    assert p.tiles[..j] == p.tiles;
  }

  /** The `while True` page loop of a link collector: ask for page `n`,
      stop when it fails to load, lists nothing, repeats or offers no next
      page, otherwise append each tile's link and go on with `n + 1`. The
      links are the walk's, and the pages asked for are 1, 2, ... in turn,
      one more than the pages taken unless the last taken page offered no
      next page. */
  method CollectLinks<T>(rules: Rules, link: Tile -> seq<T>, url: nat -> string, pages: Listing)
    returns (links: seq<T>, asked: seq<string>)
    requires Injective(url)
    ensures links == LinksOf(link, Walk(rules, url, pages, 1, Some("star")))
    ensures forall i :: 0 <= i < |asked| ==> asked[i] == url(i + 1)
    ensures var w := Walk(rules, url, pages, 1, Some("star"));
      |asked| == |w| + 1 || (|asked| == |w| && w != [] && !rules.hasNext(w[|w| - 1]))
  {
    links, asked := PageLoop(rules, link, url, pages);
  }

  /** The `while True` loop of `CollectLinks`, promising `Collected`. */
  method PageLoop<T>(rules: Rules, link: Tile -> seq<T>, url: nat -> string, pages: Listing)
    returns (links: seq<T>, asked: seq<string>)
    requires Injective(url)
    ensures Collected(rules, link, url, pages, links, asked)
  {
    var n := 1;
    var prev: Option<string> := Some("star");
    ghost var taken: seq<ListingPage> := [];
    links, asked := [], [];
    while true
      invariant n >= 1 && Collecting(rules, link, url, pages, n, prev, taken, links, asked)
      decreases |pages.Keys - Seen(url, n)|
    {
      var took, more, next, goOn := VisitPage(rules, link, url, pages, n, prev);
      if !took {
        CollectEnd(rules, link, url, pages, n, prev, taken, links, asked);
        asked := asked + [url(n)];
        break;
      }
      ghost var p := pages[url(n)];
      if !goOn {
        CollectLast(rules, link, url, pages, n, prev, taken, links, asked);
        links, asked := links + more, asked + [url(n)];
        break;
      }
      SeenGrows(url, pages, n);
      CollectNext(rules, link, url, pages, n, prev, taken, links, asked);
      links, asked := links + more, asked + [url(n)];
      taken := taken + [p];
      n := n + 1;
      prev := next;
    }
  }

  /** The state of the page loop before page `n`: pages 1 to `n - 1` asked
      for, `taken` the walk so far, the rest of the walk starting at `n`,
      and `links` those of the pages taken. */
  ghost predicate Collecting<T>(rules: Rules, link: Tile -> seq<T>, url: nat -> string, pages: Listing,
                                n: nat, prev: Option<string>, taken: seq<ListingPage>, links: seq<T>, asked: seq<string>)
    requires Injective(url) && n >= 1
  {
    && |asked| == n - 1 && |taken| == n - 1
    && (forall i :: 0 <= i < |asked| ==> asked[i] == url(i + 1))
    && taken + Walk(rules, url, pages, n, prev) == Walk(rules, url, pages, 1, Some("star"))
    && links == LinksOf(link, taken)
  }

  /** What the loop promises once it stops. */
  ghost predicate Collected<T>(rules: Rules, link: Tile -> seq<T>, url: nat -> string, pages: Listing,
                               links: seq<T>, asked: seq<string>)
    requires Injective(url)
  {
    var w := Walk(rules, url, pages, 1, Some("star"));
    && links == LinksOf(link, w)
    && (forall i :: 0 <= i < |asked| ==> asked[i] == url(i + 1))
    && (|asked| == |w| + 1 || (|asked| == |w| && w != [] && !rules.hasNext(w[|w| - 1])))
  }

  /** Page `n` is not taken: the walk is over, one page after the last. */
  lemma CollectEnd<T>(rules: Rules, link: Tile -> seq<T>, url: nat -> string, pages: Listing,
                      n: nat, prev: Option<string>, taken: seq<ListingPage>, links: seq<T>, asked: seq<string>)
    requires Injective(url) && n >= 1 && Collecting(rules, link, url, pages, n, prev, taken, links, asked)
    requires url(n) !in pages || !Takes(rules, pages[url(n)], n, prev)
    ensures Collected(rules, link, url, pages, links, asked + [url(n)])
  {
    WalkUnfold(rules, url, pages, n, prev);
    assert taken + [] == taken;
  }

  /** Page `n` is taken and offers no next page: the walk ends with it. */
  lemma CollectLast<T>(rules: Rules, link: Tile -> seq<T>, url: nat -> string, pages: Listing,
                       n: nat, prev: Option<string>, taken: seq<ListingPage>, links: seq<T>, asked: seq<string>)
    requires Injective(url) && n >= 1 && Collecting(rules, link, url, pages, n, prev, taken, links, asked)
    requires url(n) in pages && Takes(rules, pages[url(n)], n, prev) && !rules.hasNext(pages[url(n)])
    ensures Collected(rules, link, url, pages, links + TileLinks(link, pages[url(n)].tiles), asked + [url(n)])
  {
    WalkUnfold(rules, url, pages, n, prev);
    LinksOfSnoc(link, taken, pages[url(n)]);
  }

  /** Page `n` is taken and offers a next page: the loop goes on with it. */
  lemma CollectNext<T>(rules: Rules, link: Tile -> seq<T>, url: nat -> string, pages: Listing,
                       n: nat, prev: Option<string>, taken: seq<ListingPage>, links: seq<T>, asked: seq<string>)
    requires Injective(url) && n >= 1 && Collecting(rules, link, url, pages, n, prev, taken, links, asked)
    requires url(n) in pages && Takes(rules, pages[url(n)], n, prev) && rules.hasNext(pages[url(n)])
    ensures Collecting(rules, link, url, pages, n + 1, NextPrev(rules, pages[url(n)], prev),
                       taken + [pages[url(n)]], links + TileLinks(link, pages[url(n)].tiles), asked + [url(n)])
  {
    var p := pages[url(n)];
    WalkUnfold(rules, url, pages, n, prev);
    LinksOfSnoc(link, taken, p);
    var rest := Walk(rules, url, pages, n + 1, NextPrev(rules, p, prev));
    assert (taken + [p]) + rest == taken + ([p] + rest);
  }

  /** One pass of the page loop's body: load page `n`, give up when it
      failed, lists nothing or repeats the previous page, and otherwise
      collect its tiles' links and say whether it offers a next page. */
  method VisitPage<T>(rules: Rules, link: Tile -> seq<T>, url: nat -> string, pages: Listing, n: nat, prev: Option<string>)
    returns (took: bool, links: seq<T>, next: Option<string>, goOn: bool)
    requires n >= 1
    ensures took <==> url(n) in pages && Takes(rules, pages[url(n)], n, prev)
    ensures took ==> links == TileLinks(link, pages[url(n)].tiles) && next == NextPrev(rules, pages[url(n)], prev)
    ensures goOn <==> took && rules.hasNext(pages[url(n)])
  {
    took, links, next, goOn := false, [], prev, false;
    if url(n) !in pages {
      return;
    }
    var p := pages[url(n)];
    if !rules.listed(p) {
      return;
    }
    if rules.repeats {
      var first := rules.fingerprint(p);
      if n > 1 && first == prev {
        return;
      }
      next := first;
    }
    took := true;
    links := PageLinks(link, p);
    goOn := rules.hasNext(p);
  }

  /** One step of the walk. */
  lemma WalkUnfold(rules: Rules, url: nat -> string, pages: Listing, n: nat, prev: Option<string>)
    requires Injective(url) && n >= 1
    ensures url(n) !in pages || !Takes(rules, pages[url(n)], n, prev) ==> Walk(rules, url, pages, n, prev) == []
    ensures url(n) in pages && Takes(rules, pages[url(n)], n, prev) && !rules.hasNext(pages[url(n)]) ==>
      Walk(rules, url, pages, n, prev) == [pages[url(n)]]
    ensures url(n) in pages && Takes(rules, pages[url(n)], n, prev) && rules.hasNext(pages[url(n)]) ==>
      Walk(rules, url, pages, n, prev) ==
        [pages[url(n)]] + Walk(rules, url, pages, n + 1, NextPrev(rules, pages[url(n)], prev))
  {
  }

  // ---------------------------------------------------------------------
  // `list(set(links))` and `sorted(list(set(links)))`

  predicate NoDuplicates(s: seq<string>) {
    forall i, j :: 0 <= i < j < |s| ==> s[i] != s[j]
  }

  /** The distinct links, each where it first occurs. */
  function Distinct(xs: seq<string>): (r: seq<string>)
    ensures NoDuplicates(r)
    ensures forall x :: x in r <==> x in xs
  {
    if xs == [] then []
    else
      var d := Distinct(xs[..|xs| - 1]);
      var x := xs[|xs| - 1];
      assert xs == xs[..|xs| - 1] + [x];
      if x in d then d else d + [x]
  }

  /** Python's `<` on strings: code point by code point, a proper prefix
      first. */
  predicate StrLess(a: string, b: string)
    decreases |a|
  {
    if a == [] then b != []
    else b != [] && (a[0] < b[0] || (a[0] == b[0] && StrLess(a[1..], b[1..])))
  }

  lemma {:induction false} StrLessIrreflexive(a: string)
    ensures !StrLess(a, a)
    decreases |a|
  {
    if a != [] {
      StrLessIrreflexive(a[1..]);
    }
  }

  lemma {:induction false} StrLessTransitive(a: string, b: string, c: string)
    requires StrLess(a, b) && StrLess(b, c)
    ensures StrLess(a, c)
    decreases |a|
  {
    if a != [] && a[0] == b[0] && b[0] == c[0] {
      StrLessTransitive(a[1..], b[1..], c[1..]);
    }
  }

  lemma {:induction false} StrLessTotal(a: string, b: string)
    requires a != b
    ensures StrLess(a, b) || StrLess(b, a)
    decreases |a|
  {
    if a != [] && b != [] && a[0] == b[0] {
      assert a == [a[0]] + a[1..] && b == [b[0]] + b[1..];
      StrLessTotal(a[1..], b[1..]);
    }
  }

  predicate StrictlySorted(s: seq<string>) {
    forall i, j :: 0 <= i < j < |s| ==> StrLess(s[i], s[j])
  }

  /** Puts `x` in its place in a strictly increasing list, unless it is
      already there. */
  function InsertStr(x: string, s: seq<string>): seq<string> {
    if s == [] then [x]
    else if StrLess(x, s[0]) then [x] + s
    else if x == s[0] then s
    else [s[0]] + InsertStr(x, s[1..])
  }

  lemma {:induction false} InsertStrSpec(x: string, s: seq<string>)
    requires StrictlySorted(s)
    ensures StrictlySorted(InsertStr(x, s))
    ensures forall y :: y in InsertStr(x, s) <==> y == x || y in s
  {
    if s != [] && !StrLess(x, s[0]) && x != s[0] {
      StrLessTotal(x, s[0]);
      var t := InsertStr(x, s[1..]);
      InsertStrSpec(x, s[1..]);
      assert forall y :: y in s[1..] ==> StrLess(s[0], y) by {
        forall y | y in s[1..] ensures StrLess(s[0], y) {
          var k :| 0 <= k < |s[1..]| && s[1..][k] == y;
          assert s[k + 1] == y;
        }
      }
      assert s == [s[0]] + s[1..];
      var u := [s[0]] + t;
      forall i, j | 0 <= i < j < |u| ensures StrLess(u[i], u[j]) {
        assert u[j] == t[j - 1] && u[j] in t;
        if i > 0 {
          assert u[i] == t[i - 1];
        }
      }
    } else if s != [] && StrLess(x, s[0]) {
      var u := [x] + s;
      forall i, j | 0 <= i < j < |u| ensures StrLess(u[i], u[j]) {
        assert u[j] == s[j - 1];
        if i > 0 {
          assert u[i] == s[i - 1];
        } else if j > 1 {
          StrLessTransitive(x, s[0], s[j - 1]);
        }
      }
    }
  }

  /** `sorted(list(set(xs)))`: the distinct strings in increasing order. */
  function SortedDistinct(xs: seq<string>): seq<string> {
    if xs == [] then [] else InsertStr(xs[0], SortedDistinct(xs[1..]))
  }

  lemma {:induction false} SortedDistinctSpec(xs: seq<string>)
    ensures StrictlySorted(SortedDistinct(xs))
    ensures forall x :: x in SortedDistinct(xs) <==> x in xs
  {
    if xs != [] {
      SortedDistinctSpec(xs[1..]);
      InsertStrSpec(xs[0], SortedDistinct(xs[1..]));
      assert xs == [xs[0]] + xs[1..];
    }
  }

  /** Two strictly increasing lists of the same strings are the same list:
      the order `sorted` produces is the only one there is. */
  lemma {:induction false} StrictlySortedUnique(a: seq<string>, b: seq<string>)
    requires StrictlySorted(a) && StrictlySorted(b)
    requires forall x :: x in a <==> x in b
    ensures a == b
    decreases |a|
  {
    assert a != [] ==> a[0] in b;
    assert b != [] ==> b[0] in a;
    if a != [] && b != [] {
      var k :| 0 <= k < |b| && b[k] == a[0];
      var m :| 0 <= m < |a| && a[m] == b[0];
      if k > 0 && m > 0 {
        StrLessTransitive(a[0], b[0], a[0]);
        StrLessIrreflexive(a[0]);
      }
      assert a[0] == b[0];
      forall x ensures x in a[1..] <==> x in b[1..] {
        if x in a[1..] {
          var i :| 0 <= i < |a[1..]| && a[1..][i] == x;
          assert StrLess(a[0], a[i + 1]);
          StrLessIrreflexive(x);
          assert x in b && x != b[0];
          var j :| 0 <= j < |b| && b[j] == x;
          assert b[1..][j - 1] == x;
        }
        if x in b[1..] {
          var i :| 0 <= i < |b[1..]| && b[1..][i] == x;
          assert StrLess(b[0], b[i + 1]);
          StrLessIrreflexive(x);
          assert x in a && x != a[0];
          var j :| 0 <= j < |a| && a[j] == x;
          assert a[1..][j - 1] == x;
        }
      }
      StrictlySortedUnique(a[1..], b[1..]);
      assert a == [a[0]] + a[1..] && b == [b[0]] + b[1..];
    }
  }
}
