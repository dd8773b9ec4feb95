/** Price text handling shared by the storefront scrapers: the two
    `clean_price_string` variants, the numeric tokens their regular
    expressions pick out, and `convert_price_to_without_vat` (written once
    and copied into every scraper). */
module Price {
  import opened Wrappers
  import opened Text
  import opened Values

  /** The character classes of the price patterns: `[\d,]`, `[\d\.,]` and `\d`. */
  datatype CharClass = DigitsCommas | DigitsDotsCommas | DigitsOnly

  predicate InClass(k: CharClass, c: char) {
    IsDigit(c) || (c == ',' && !k.DigitsOnly?) || (c == '.' && k.DigitsDotsCommas?)
  }

  predicate AllIn(k: CharClass, s: string) {
    forall i :: 0 <= i < |s| ==> InClass(k, s[i])
  }

  predicate NoneIn(k: CharClass, s: string) {
    forall i :: 0 <= i < |s| ==> !InClass(k, s[i])
  }

  /** `re.sub('[^<class>]', '', s)`: the characters of `s` in class `k`, in order. */
  /** What one character contributes to the filtered text. */
  function Keep(k: CharClass, c: char): string {
    if InClass(k, c) then [c] else []
  }

  function Filter(k: CharClass, s: string): string {
    if s == [] then [] else Keep(k, s[0]) + Filter(k, s[1..])
  }

  /** Only characters of the class are kept. */
  lemma {:induction false} FilterAllIn(k: CharClass, s: string)
    ensures AllIn(k, Filter(k, s))
  {
    if s != [] {
      FilterAllIn(k, s[1..]);
      var h := Keep(k, s[0]);
      assert Filter(k, s) == h + Filter(k, s[1..]);
      assert forall i :: 0 <= i < |Filter(k, s)| ==>
        Filter(k, s)[i] == if i < |h| then h[i] else Filter(k, s[1..])[i - |h|];
    }
  }

  /** The filtered text is a subsequence of the original. */
  lemma {:induction false} FilterIsSubsequence(k: CharClass, s: string)
    ensures IsSubsequence(Filter(k, s), s)
  {
    if s != [] {
      FilterIsSubsequence(k, s[1..]);
      var rest := Filter(k, s[1..]);
      if !InClass(k, s[0]) {
        assert Filter(k, s) == rest;
        FilterAllIn(k, s[1..]);
        assert rest == [] || rest[0] != s[0];
      } else {
        assert Filter(k, s) == [s[0]] + rest;
        assert ([s[0]] + rest)[1..] == rest;
      }
    }
  }

  /** Every character of the class is kept as often as it occurs. */
  lemma {:induction false} FilterKeepsClass(k: CharClass, s: string, c: char)
    requires InClass(k, c)
    ensures multiset(Filter(k, s))[c] == multiset(s)[c]
  {
    if s != [] {
      FilterKeepsClass(k, s[1..], c);
      assert multiset(s) == multiset([s[0]]) + multiset(s[1..]) by {
        assert s == [s[0]] + s[1..];
      }
      var h := Keep(k, s[0]);
      assert multiset(Filter(k, s)) == multiset(h) + multiset(Filter(k, s[1..])) by {
        assert Filter(k, s) == h + Filter(k, s[1..]);
      }
      if InClass(k, s[0]) {
        assert h == [s[0]];
      } else {
        assert h == [] && s[0] != c;
      }
    }
  }

  lemma {:induction false} FilterOfAllIn(k: CharClass, s: string)
    requires AllIn(k, s)
    ensures Filter(k, s) == s
  {
    if s != [] { FilterOfAllIn(k, s[1..]); }
  }

  lemma {:induction false} FilterOfNoneIn(k: CharClass, s: string)
    requires NoneIn(k, s)
    ensures Filter(k, s) == []
  {
    if s != [] { FilterOfNoneIn(k, s[1..]); }
  }

  lemma {:induction false} FilterAppend(k: CharClass, a: string, b: string)
    ensures Filter(k, a + b) == Filter(k, a) + Filter(k, b)
  {
    if a == [] {
      assert a + b == b;
    } else {
      FilterAppend(k, a[1..], b);
      FilterConsAppend(k, a, b);
      AppendAssoc(Keep(k, a[0]), Filter(k, a[1..]), Filter(k, b));
    }
  }

  lemma FilterConsAppend(k: CharClass, a: string, b: string)
    requires a != []
    ensures Filter(k, a + b) == Keep(k, a[0]) + Filter(k, a[1..] + b)
  {
    assert (a + b)[0] == a[0];
    assert (a + b)[1..] == a[1..] + b;
  }

  /** Merkur's `clean_price_string`: only the digits and commas of the text
      remain, in their order. */
  function CleanDigitsCommas(s: string): (r: string)
    ensures s == [] ==> r == []
  {
    if s == [] then [] else Filter(DigitsCommas, s)
  }

  /** Cleaning twice is cleaning once. */
  lemma CleanDigitsCommasIdempotent(s: string)
    ensures CleanDigitsCommas(CleanDigitsCommas(s)) == CleanDigitsCommas(s)
  {
    if s != [] {
      FilterAllIn(DigitsCommas, s);
      FilterOfAllIn(DigitsCommas, Filter(DigitsCommas, s));
    }
  }

  /** What Merkur's `clean_price_string` promises: digits and commas only,
      a subsequence of its input, every digit and comma kept, empty for
      empty input. */
  lemma CleanDigitsCommasSpec(s: string)
    ensures AllIn(DigitsCommas, CleanDigitsCommas(s))
    ensures IsSubsequence(CleanDigitsCommas(s), s)
    ensures forall c :: InClass(DigitsCommas, c) ==>
      multiset(CleanDigitsCommas(s))[c] == multiset(s)[c]
    ensures s == [] ==> CleanDigitsCommas(s) == []
  {
    if s != [] {
      FilterAllIn(DigitsCommas, s);
      FilterIsSubsequence(DigitsCommas, s);
      forall c | InClass(DigitsCommas, c)
        ensures multiset(CleanDigitsCommas(s))[c] == multiset(s)[c]
      {
        FilterKeepsClass(DigitsCommas, s, c);
      }
    }
  }

  const Euro: char := '€'
  const Nbsp: char := '\U{00A0}'

  lemma StripKeepsAbsent(x: string, c: char)
    requires c !in x
    ensures c !in Strip(x)
  {
    var r := Strip(x);
    var l := LStrip(x);
    forall i | 0 <= i < |r| ensures r[i] != c {
      assert r[i] == l[i] == x[|x| - |l| + i];
    }
  }

  /** Zagozen's `clean_price_string`: remove every euro sign, no-break space
      and dot, then strip white space. */
  function CleanZagozen(s: string): (r: string)
    ensures Euro !in r && Nbsp !in r && '.' !in r
    ensures Trimmed(r)
    ensures s == [] ==> r == []
  {
    if s == [] then []
    else
      var x := RemoveChar(RemoveChar(RemoveChar(s, Euro), Nbsp), '.');
      StripKeepsAbsent(x, Euro);
      StripKeepsAbsent(x, Nbsp);
      StripKeepsAbsent(x, '.');
      Strip(x)
  }

  /** What the cleaning keeps: the characters of `s` in their order, less
      every euro sign, no-break space and '.', and less white space only at
      the two ends; every other character of `s` is still there. */
  lemma CleanZagozenSpec(s: string)
    ensures IsSubsequence(CleanZagozen(s), s)
    ensures forall c :: c in CleanZagozen(s) ==> c in s && c != Euro && c != Nbsp && c != '.'
    ensures forall c :: c in s && c != Euro && c != Nbsp && c != '.' && !IsSpace(c) ==> c in CleanZagozen(s)
  {
    if s != [] {
      var x1 := RemoveChar(s, Euro);
      var x2 := RemoveChar(x1, Nbsp);
      var x := RemoveChar(x2, '.');
      assert CleanZagozen(s) == Strip(x);
      assert IsSubsequence(Strip(x), s) by {
        RemoveCharSubsequence(s, Euro);
        RemoveCharSubsequence(x1, Nbsp);
        RemoveCharSubsequence(x2, '.');
        StripSubsequence(x);
        SubsequenceTrans(x, x2, x1);
        SubsequenceTrans(x, x1, s);
        SubsequenceTrans(Strip(x), x, s);
      }
      forall c | c in Strip(x) ensures c in s && c != Euro && c != Nbsp && c != '.' {
        StripKeepsMembers(x, c);
      }
      forall c | c in s && c != Euro && c != Nbsp && c != '.' && !IsSpace(c) ensures c in Strip(x) {
        assert c in x;
        StripKeepsNonSpace(x, c);
      }
    }
  }

  lemma CleanZagozenIdempotent(s: string)
    ensures CleanZagozen(CleanZagozen(s)) == CleanZagozen(s)
  {
    var r := CleanZagozen(s);
    if r != [] {
      assert RemoveChar(RemoveChar(RemoveChar(r, Euro), Nbsp), '.') == r;
    }
  }

  // ---------------------------------------------------------------------
  // Numeric tokens: `re.findall('<class>+', s)` and `re.search('(<class>+)', s)`

  /** The leading run of class characters. */
  function Run(k: CharClass, s: string): (r: string)
    ensures StartsWith(s, r) && AllIn(k, r)
    ensures |r| == |s| || !InClass(k, s[|r|])
  {
    if s != [] && InClass(k, s[0]) then
      var t := Run(k, s[1..]);
      assert s == [s[0]] + s[1..];
      [s[0]] + t
    else []
  }

  /** `s` without its leading run of non-class characters. */
  function SkipNon(k: CharClass, s: string): (r: string)
    ensures |r| <= |s| && r == s[|s| - |r|..]
    ensures r == [] || InClass(k, r[0])
    ensures forall i :: 0 <= i < |s| - |r| ==> !InClass(k, s[i])
  {
    if s != [] && !InClass(k, s[0]) then
      var t := SkipNon(k, s[1..]);
      assert forall i :: 1 <= i < |s| - |t| ==> s[i] == s[1..][i - 1];
      t
    else s
  }

  /** `re.findall('<class>+', s)`: the maximal runs of class characters, left
      to right. */
  function Tokens(k: CharClass, s: string): (ts: seq<string>)
    ensures forall i :: 0 <= i < |ts| ==> ts[i] != [] && AllIn(k, ts[i])
    decreases |s|
  {
    var t := SkipNon(k, s);
    if t == [] then []
    else
      var r := Run(k, t);
      assert r != [] by { assert InClass(k, t[0]); }
      [r] + Tokens(k, t[|r|..])
  }

  /** The tokens, put back together, are exactly the class characters of the
      text: no price character is lost or invented. */
  lemma {:induction false} TokensCoverFilter(k: CharClass, s: string)
    ensures Concat(Tokens(k, s)) == Filter(k, s)
    decreases |s|
  {
    var t := SkipNon(k, s);
    SkipFiltersNothing(k, s);
    if t != [] {
      var r := Run(k, t);
      var rest := t[|r|..];
      RunThenRest(k, t);
      TokensCoverFilter(k, rest);
      ConcatCons(r, Tokens(k, rest));
    }
  }

  lemma SkipFiltersNothing(k: CharClass, s: string)
    ensures Filter(k, s) == Filter(k, SkipNon(k, s))
  {
    var t := SkipNon(k, s);
    var skipped := s[..|s| - |t|];
    assert s == skipped + t;
    FilterAppend(k, skipped, t);
    FilterOfNoneIn(k, skipped);
  }

  lemma RunThenRest(k: CharClass, t: string)
    ensures var r := Run(k, t); Filter(k, t) == r + Filter(k, t[|r|..])
  {
    var r := Run(k, t);
    var rest := t[|r|..];
    assert t == r + rest;
    FilterAppend(k, r, rest);
    FilterOfAllIn(k, r);
  }

  lemma ConcatCons(r: string, ts: seq<string>)
    ensures Concat([r] + ts) == r + Concat(ts)
  {
    assert ([r] + ts)[0] == r;
    assert ([r] + ts)[1..] == ts;
  }

  /** There are no tokens exactly when no character of the text is in the class. */
  lemma TokensEmpty(k: CharClass, s: string)
    ensures Tokens(k, s) == [] <==> NoneIn(k, s)
  {
    var t := SkipNon(k, s);
    if t != [] {
      assert InClass(k, s[|s| - |t|]);
    }
  }

  /** `tok` is the leftmost maximal run of class characters of `s`, starting at `p`. */
  predicate FirstRunAt(k: CharClass, s: string, p: nat, tok: string) {
    && tok != []
    && p + |tok| <= |s|
    && s[p..p + |tok|] == tok
    && AllIn(k, tok)
    && (forall j :: 0 <= j < p ==> !InClass(k, s[j]))
    && (p + |tok| == |s| || !InClass(k, s[p + |tok|]))
  }

  /** `m = re.search('(<class>+)', s); m.group(1) if m else None`, also
      `re.findall(...)[0]` when there is a match. */
  function FirstToken(k: CharClass, s: string): (r: Option<string>)
    ensures r.None? <==> NoneIn(k, s)
    ensures r.Some? ==> FirstRunAt(k, s, |s| - |SkipNon(k, s)|, r.value)
    ensures r.Some? ==> r.value == Tokens(k, s)[0]
  {
    var t := SkipNon(k, s);
    if t == [] then None
    else
      FirstRunOfSkip(k, s);
      Some(Run(k, t))
  }

  lemma FirstRunOfSkip(k: CharClass, s: string)
    requires SkipNon(k, s) != []
    ensures FirstRunAt(k, s, |s| - |SkipNon(k, s)|, Run(k, SkipNon(k, s)))
    ensures !NoneIn(k, s)
  {
    var t := SkipNon(k, s);
    var p := |s| - |t|;
    var tok := Run(k, t);
    assert InClass(k, t[0]);
    SuffixAt(s, p, t);
    assert InClass(k, s[p]);
    assert tok != [];
    PrefixOfSuffix(s, p, t, tok);
  }

  lemma SuffixAt(s: string, p: nat, t: string)
    requires p < |s| && t == s[p..]
    ensures s[p] == t[0]
  {
  }

  /** A prefix `tok` of the suffix `t` of `s` at `p` sits at `p` in `s`,
      followed by what follows it in `t`. */
  lemma PrefixOfSuffix(s: string, p: nat, t: string, tok: string)
    requires p <= |s| && t == s[p..] && StartsWith(t, tok)
    ensures p + |tok| <= |s| && s[p..p + |tok|] == tok
    ensures p + |tok| < |s| ==> s[p + |tok|] == t[|tok|]
  {
    assert t[..|tok|] == tok;
  }

  /** The leftmost maximal run is unique: whatever position and token satisfy
      `FirstRunAt`, they are the ones `FirstToken` finds. */
  lemma FirstRunUnique(k: CharClass, s: string, p: nat, tok: string, q: nat, tok2: string)
    requires FirstRunAt(k, s, p, tok) && FirstRunAt(k, s, q, tok2)
    ensures p == q && tok == tok2
  {
    assert InClass(k, s[p]) by { assert s[p] == tok[0]; }
    assert InClass(k, s[q]) by { assert s[q] == tok2[0]; }
    assert p == q;
    assert forall i :: p <= i < p + |tok| ==> InClass(k, s[i]) by {
      forall i | p <= i < p + |tok| ensures InClass(k, s[i]) { assert s[i] == tok[i - p]; }
    }
    assert forall i :: q <= i < q + |tok2| ==> InClass(k, s[i]) by {
      forall i | q <= i < q + |tok2| ensures InClass(k, s[i]) { assert s[i] == tok2[i - q]; }
    }
    assert |tok| == |tok2|;
  }

  // ---------------------------------------------------------------------
  // convert_price_to_without_vat

  /** A decimal number `(-1)^negative * digits / 10^scale`. */
  datatype Decimal = Decimal(negative: bool, digits: nat, scale: nat)

  function Pow10(k: nat): (r: nat)
    ensures r >= 1
  {
    if k == 0 then 1 else 10 * Pow10(k - 1)
  }

  /** Python's `float(t)` on the subset of inputs modelled here: an optional
      sign, then ASCII digits with at most one `.`, and at least one digit. */
  function ParseDecimal(t: string): Option<Decimal> {
    var neg := t != [] && t[0] == '-';
    var body := if t != [] && (t[0] == '-' || t[0] == '+') then t[1..] else t;
    match IndexOf(body, ".")
    case None =>
      if body != [] && AllDigits(body) then Some(Decimal(neg, DigitsValue(body), 0)) else None
    case Some(i) =>
      var ip := body[..i];
      var fp := body[i + 1..];
      if AllDigits(ip) && AllDigits(fp) && |ip| + |fp| > 0 then
        assert AllDigits(ip + fp);
        Some(Decimal(neg, DigitsValue(ip + fp), |fp|))
      else None
  }

  /** `price_str.replace('.', '').replace(',', '.')`: thousands separators go,
      the decimal comma becomes a point. */
  function FloatText(s: string): (r: string)
    ensures ',' !in r
  {
    ReplaceChar(RemoveChar(s, '.'), ',', '.')
  }

  /** The number of cents of `|d| / (1 + vatPercent/100)`, rounded half up. */
  function CentsWithoutVat(d: Decimal, vatPercent: nat): nat {
    var num := d.digits * 10000;
    var den := Pow10(d.scale) * (100 + vatPercent);
    (2 * num + den) / (2 * den)
  }

  /** `f"{v:.2f}".replace('.', ',')` for a value of `cents` hundredths. */
  function RenderCents(negative: bool, cents: nat): (r: string)
    ensures '.' !in r
    ensures |r| >= 4 && r[|r| - 3] == ',' && IsDigit(r[|r| - 2]) && IsDigit(r[|r| - 1])
  {
    var whole := Dec(cents / 100);
    NoDotInDigits(whole);
    (if negative then "-" else "") + whole + "," + [DigitChar(cents % 100 / 10), DigitChar(cents % 10)]
  }

  lemma NoDotInDigits(s: string)
    requires AllDigits(s)
    ensures '.' !in s
  {
    forall i | 0 <= i < |s| ensures s[i] != '.' { assert IsDigit(s[i]); }
  }

  /** `convert_price_to_without_vat(price_str, vat_rate)` with `vat_rate =
      vatPercent / 100`: "" for a falsy or non-string input and for text that
      does not parse; otherwise the VAT-exclusive price with a decimal comma. */
  function ConvertWithoutVat(price: Value, vatPercent: nat): (r: string)
    ensures r == "" <==>
      !(price.Str? && price.s != [] && ParseDecimal(FloatText(price.s)).Some?)
    ensures r != "" ==>
      && '.' !in r && |r| >= 4 && r[|r| - 3] == ','
      && IsDigit(r[|r| - 2]) && IsDigit(r[|r| - 1])
  {
    if !price.Str? || price.s == [] then ""
    else match ParseDecimal(FloatText(price.s))
      case None => ""
      case Some(d) => RenderCents(d.negative, CentsWithoutVat(d, vatPercent))
  }

  lemma {:induction false} DigitsValueAppend(a: string, b: string)
    requires AllDigits(a) && AllDigits(b)
    ensures AllDigits(a + b)
    ensures DigitsValue(a + b) == DigitsValue(a) * Pow10(|b|) + DigitsValue(b)
  {
    assert AllDigits(a + b);
    if b != [] {
      var b' := b[..|b| - 1];
      var d := DigitValue(b[|b| - 1]);
      DigitsValueAppend(a, b');
      assert DigitsValue(a + b) == DigitsValue(a + b') * 10 + d by {
        assert (a + b)[..|a + b| - 1] == a + b';
        assert (a + b)[|a + b| - 1] == b[|b| - 1];
      }
      Regroup(DigitsValue(a), Pow10(|b'|), DigitsValue(b'), d);
    } else {
      assert a + b == a;
    }
  }

  lemma Regroup(x: int, y: int, z: int, d: int)
    ensures (x * y + z) * 10 + d == x * (10 * y) + (z * 10 + d)
  {
  }

  /** The rendered VAT-exclusive price is itself a price the converter
      accepts, and it reads back as exactly the rounded cents. */
  lemma RenderedPriceParses(negative: bool, cents: nat)
    ensures ParseDecimal(FloatText(RenderCents(negative, cents))) == Some(Decimal(negative, cents, 2))
  {
    var whole := Dec(cents / 100);
    var two := [DigitChar(cents % 100 / 10), DigitChar(cents % 10)];
    var sign := if negative then "-" else "";
    FloatTextOfRendered(sign, whole, two);
    ParsePointed(sign, whole, two);
    RenderedDigits(cents);
  }

  /** The digits of a rendered amount, read without the comma, are its
      hundredths. */
  lemma RenderedDigits(cents: nat)
    ensures DigitsValue(Dec(cents / 100) + [DigitChar(cents % 100 / 10), DigitChar(cents % 10)]) == cents
  {
    var whole := Dec(cents / 100);
    var two := [DigitChar(cents % 100 / 10), DigitChar(cents % 10)];
    TwoDigitsValue(cents);
    DigitsValueAppend(whole, two);
    DecRoundTrip(cents / 100);
    assert DigitsValue(whole + two) == cents / 100 * 100 + cents % 100;
  }

  /** A signed numeral with a point between two digit strings parses to the
      digits read together, scaled by the length of the fraction. */
  lemma ParsePointed(sign: string, whole: string, two: string)
    requires sign == "" || sign == "-"
    requires AllDigits(whole) && AllDigits(two) && whole != []
    ensures AllDigits(whole + two)
    ensures ParseDecimal(sign + (whole + "." + two))
      == Some(Decimal(sign == "-", DigitsValue(whole + two), |two|))
  {
    var body := whole + "." + two;
    var t := sign + body;
    assert AllDigits(whole + two);
    assert (t != [] && t[0] == '-') == (sign == "-") by {
      if sign == "" { assert t[0] == whole[0]; assert IsDigit(whole[0]); }
    }
    assert (if t != [] && (t[0] == '-' || t[0] == '+') then t[1..] else t) == body by {
      if sign == "-" { assert t[1..] == body; } else { assert t == body; assert IsDigit(t[0]); }
    }
    NoDotInDigits(whole);
    IndexOfFirstDot(whole, two);
    assert body[..|whole|] == whole;
    assert body[|whole| + 1..] == two;
  }

  lemma FloatTextOfRendered(sign: string, whole: string, two: string)
    requires sign == "" || sign == "-"
    requires AllDigits(whole) && AllDigits(two)
    ensures FloatText(sign + whole + "," + two) == sign + (whole + "." + two)
  {
    var r := sign + whole + "," + two;
    assert '.' !in r by {
      NoDotInDigits(whole);
      NoDotInDigits(two);
      NoDotInJoin(sign, whole, two);
    }
    assert RemoveChar(r, '.') == r;
  }

  lemma NoDotInJoin(sign: string, whole: string, two: string)
    requires '.' !in sign && '.' !in whole && '.' !in two
    ensures '.' !in sign + whole + "," + two
  {
    var r := sign + whole + "," + two;
    forall i | 0 <= i < |r| ensures r[i] != '.' {
      if i < |sign| { assert r[i] == sign[i]; }
      else if i < |sign| + |whole| { assert r[i] == whole[i - |sign|]; }
      else if i == |sign| + |whole| { assert r[i] == ','; }
      else { assert r[i] == two[i - |sign| - |whole| - 1]; }
    }
  }

  lemma IndexOfFirstDot(whole: string, two: string)
    requires '.' !in whole
    ensures IndexOf(whole + "." + two, ".") == Some(|whole|)
  {
    var body := whole + "." + two;
    assert body[|whole|..][..1] == ".";
    ContainsAt(body, ".", |whole|);
    var j := IndexOf(body, ".").value;
    assert body[j] == '.' by { assert body[j..j + 1] == "."; }
    assert forall i :: 0 <= i < |whole| ==> body[i] == whole[i];
    assert j >= |whole|;
    assert StartsWith(body[|whole|..], ".");
    assert j <= |whole|;
  }

  lemma TwoDigitsValue(cents: nat)
    ensures DigitsValue([DigitChar(cents % 100 / 10), DigitChar(cents % 10)]) == cents % 100
  {
    var m := cents % 100;
    LastDigitOfCents(cents);
    PairValue(m / 10, m % 10);
  }

  lemma PairValue(hi: nat, lo: nat)
    requires hi < 10 && lo < 10
    ensures DigitsValue([DigitChar(hi), DigitChar(lo)]) == 10 * hi + lo
  {
    var two := [DigitChar(hi), DigitChar(lo)];
    assert two[..1] == [DigitChar(hi)];
    assert [DigitChar(hi)][..0] == [];
    assert DigitsValue([DigitChar(hi)]) == hi;
  }

  lemma LastDigitOfCents(cents: nat)
    ensures cents % 10 == cents % 100 % 10
  {
    var q := cents / 100;
    var m := cents % 100;
    assert cents == 10 * (10 * q + m / 10) + m % 10;
  }

  lemma {:induction false} ContainsAt(s: string, pat: string, i: nat)
    requires i <= |s| && StartsWith(s[i..], pat)
    ensures Contains(s, pat)
    decreases i
  {
    if i > 0 {
      assert s[1..][i - 1..] == s[i..];
      ContainsAt(s[1..], pat, i - 1);
    }
  }

  /** The denominator `10^scale * (100 + vatPercent)` of the exact quotient. */
  function VatDenominator(d: Decimal, vatPercent: nat): (den: nat)
    ensures den >= 100 * Pow10(d.scale)
  {
    MulMono(Pow10(d.scale), 100, 100 + vatPercent);
    Pow10(d.scale) * (100 + vatPercent)
  }

  /** The converter's accuracy: the rounded cents, multiplied back by
      `1 + vatPercent/100`, are within 0.01 of the parsed price, for any rate
      up to 100 %. In integers, with `D = 10^scale * (100 + p)` and
      `N = digits * 10000` (the price in hundredths of cents):
      `100 * |cents * D - N| <= 10000 * 10^scale`. */
  lemma ConvertWithinOneCent(d: Decimal, vatPercent: nat)
    requires vatPercent <= 100
    ensures var err := CentsWithoutVat(d, vatPercent) * VatDenominator(d, vatPercent) - d.digits * 10000;
      -10000 * Pow10(d.scale) <= 100 * err <= 10000 * Pow10(d.scale)
  {
    var num := d.digits * 10000;
    var den := VatDenominator(d, vatPercent);
    var c := CentsWithoutVat(d, vatPercent);
    assert c == (2 * num + den) / (2 * den);
    DivBounds(2 * num + den, 2 * den);
    var cd := c * den;
    assert 2 * den * c == 2 * cd;
    assert -den < 2 * (cd - num) <= den;
    MulMono(Pow10(d.scale), 100 + vatPercent, 200);
    assert den <= 200 * Pow10(d.scale);
  }

  lemma MulMono(a: nat, b: nat, c: nat)
    requires b <= c
    ensures a * b <= a * c
  {
  }

  lemma DivBounds(a: nat, b: nat)
    requires b > 0
    ensures b * (a / b) <= a < b * (a / b) + b
  {
  }
}
