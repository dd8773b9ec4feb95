/** The handful of Python string operations the scrapers use (`strip`,
    `replace`, `split`, `in`, `startswith`, `lower`, `capitalize`, decimal
    rendering of page numbers), written over `seq<char>`. */
module Text {
  import opened Wrappers

  predicate IsDigit(c: char) { '0' <= c <= '9' }

  /** The characters Python's `str.strip()` removes (those for which
      `str.isspace()` holds). */
  predicate IsSpace(c: char) {
    || c in {' ', '\t', '\n', '\r', '\U{000B}', '\U{000C}', '\U{001C}', '\U{001D}', '\U{001E}',
             '\U{001F}', '\U{0085}', '\U{00A0}', '\U{1680}', '\U{2028}', '\U{2029}', '\U{202F}',
             '\U{205F}', '\U{3000}'}
    || ('\U{2000}' <= c <= '\U{200A}')
  }

  predicate AllDigits(s: string) {
    forall i :: 0 <= i < |s| ==> IsDigit(s[i])
  }

  /** No white space at either end: what `strip()` leaves. */
  predicate Trimmed(s: string) {
    s == [] || (!IsSpace(s[0]) && !IsSpace(s[|s| - 1]))
  }

  /** `s.lstrip()` */
  function LStrip(s: string): (r: string)
    ensures |r| <= |s| && r == s[|s| - |r|..]
    ensures r == [] || !IsSpace(r[0])
    ensures forall i :: 0 <= i < |s| - |r| ==> IsSpace(s[i])
  {
    if s != [] && IsSpace(s[0]) then
      var t := LStrip(s[1..]);
      assert forall i :: 1 <= i < |s| - |t| ==> s[i] == s[1..][i - 1];
      t
    else s
  }

  /** `s.rstrip()` */
  function RStrip(s: string): (r: string)
    ensures |r| <= |s| && r == s[..|r|]
    ensures r == [] || !IsSpace(r[|r| - 1])
    ensures forall i :: |r| <= i < |s| ==> IsSpace(s[i])
  {
    if s != [] && IsSpace(s[|s| - 1]) then RStrip(s[..|s| - 1]) else s
  }

  /** `s.strip()`: the result is `s` with the white space at both ends cut
      off, and nothing else. */
  function Strip(s: string): (r: string)
    ensures Trimmed(r)
    ensures |r| <= |s|
    ensures |r| <= |LStrip(s)| && r == LStrip(s)[..|r|]
    ensures (s == [] || (!IsSpace(s[0]) && !IsSpace(s[|s| - 1]))) ==> r == s
  {
    StripParts(s);
    RStrip(LStrip(s))
  }

  /** The facts `Strip` promises, about `lstrip()` followed by `rstrip()`. */
  lemma StripParts(s: string)
    ensures Trimmed(RStrip(LStrip(s)))
    ensures forall i :: 0 <= i < |s| - |LStrip(s)| ==> IsSpace(s[i])
    ensures forall i :: |RStrip(LStrip(s))| <= i < |LStrip(s)| ==> IsSpace(LStrip(s)[i])
    ensures (s == [] || (!IsSpace(s[0]) && !IsSpace(s[|s| - 1]))) ==> RStrip(LStrip(s)) == s
  {
    var l := LStrip(s);
    var r := RStrip(l);
    assert r == [] || !IsSpace(r[0]) by {
      if r != [] { assert r[0] == l[0]; }
    }
    assert (s != [] && !IsSpace(s[0]) && !IsSpace(s[|s| - 1])) ==> l == s;
  }

  /** What `strip()` cuts off is white space: the front of `s` up to the
      `lstrip()` result, and the end of that after the `strip()` result. */
  lemma StripCutsSpace(s: string)
    ensures forall i :: 0 <= i < |s| - |LStrip(s)| ==> IsSpace(s[i])
    ensures forall i :: |Strip(s)| <= i < |LStrip(s)| ==> IsSpace(LStrip(s)[i])
  {
    StripParts(s);
  }

  lemma StripIdempotent(s: string)
    ensures Strip(Strip(s)) == Strip(s)
  {
  }

  /** `strip()` cuts white space only: every other character stays. */
  lemma StripKeepsNonSpace(s: string, c: char)
    requires c in s && !IsSpace(c)
    ensures c in Strip(s)
  {
    var i :| 0 <= i < |s| && s[i] == c;
    StripCutsSpace(s);
    var j := CutKeepsNonSpace(s, LStrip(s), Strip(s), i);
    assert Strip(s)[j] == c;
  }

  /** Cutting white space off the front of `s` (leaving `l`) and then off
      the back of `l` (leaving `r`) keeps the character at `i` when it is
      not white space: it is at `j` in `r`. */
  lemma CutKeepsNonSpace(s: string, l: string, r: string, i: nat) returns (j: nat)
    requires |l| <= |s| && l == s[|s| - |l|..] && |r| <= |l| && r == l[..|r|]
    requires forall j :: 0 <= j < |s| - |l| ==> IsSpace(s[j])
    requires forall j :: |r| <= j < |l| ==> IsSpace(l[j])
    requires i < |s| && !IsSpace(s[i])
    ensures j < |r| && r[j] == s[i]
  {
    var k := |s| - |l|;
    assert k <= i;
    j := i - k;
    assert l[j] == s[i];
    assert j < |r|;
  }

  /** `strip()` adds nothing. */
  lemma StripKeepsMembers(s: string, c: char)
    requires c in Strip(s)
    ensures c in s
  {
    CutKeepsMembers(s, LStrip(s), Strip(s), c);
  }

  /** A slice of a slice of `s` holds only characters of `s`. */
  lemma CutKeepsMembers(s: string, l: string, r: string, c: char)
    requires |l| <= |s| && l == s[|s| - |l|..] && |r| <= |l| && r == l[..|r|]
    requires c in r
    ensures c in s
  {
    var i :| 0 <= i < |r| && r[i] == c;
    assert l[i] == c;
    assert s[|s| - |l| + i] == c;
  }

  /** `s.replace(c, '')` for a single character `c`. */
  function RemoveChar(s: string, c: char): (r: string)
    ensures c !in r
    ensures forall x :: x in r <==> x in s && x != c
    ensures |r| <= |s|
    ensures c !in s ==> r == s
  {
    if s == [] then []
    else
      var rest := RemoveChar(s[1..], c);
      assert s == [s[0]] + s[1..];
      (if s[0] == c then [] else [s[0]]) + rest
  }

  /** `s.replace(a, b)` for single characters. */
  function ReplaceChar(s: string, a: char, b: char): (r: string)
    ensures |r| == |s|
    ensures forall i :: 0 <= i < |s| ==> r[i] == if s[i] == a then b else s[i]
  {
    seq(|s|, i requires 0 <= i < |s| => if s[i] == a then b else s[i])
  }

  predicate StartsWith(s: string, p: string) {
    |p| <= |s| && s[..|p|] == p
  }

  /** `pat in s` */
  predicate Contains(s: string, pat: string)
    decreases |s|
  {
    StartsWith(s, pat) || (s != [] && Contains(s[1..], pat))
  }

  /** `s.find(pat)` as an option: the first position where `pat` occurs. */
  function IndexOf(s: string, pat: string): (r: Option<nat>)
    ensures r.Some? <==> Contains(s, pat)
    ensures r.Some? ==> r.value + |pat| <= |s| && s[r.value..r.value + |pat|] == pat
    ensures r.Some? ==> forall j :: 0 <= j < r.value ==> !StartsWith(s[j..], pat)
    decreases |s|
  {
    if StartsWith(s, pat) then Some(0)
    else if s == [] then None
    else match IndexOf(s[1..], pat)
      case None => None
      case Some(i) =>
        assert forall j :: 1 <= j <= i ==> s[j..] == s[1..][j - 1..];
        Some(i + 1)
  }

  /** `s.replace(pat, '')` for a non-empty `pat`: occurrences are removed left
      to right without overlapping, as Python does. */
  function RemoveAll(s: string, pat: string): (r: string)
    requires pat != []
    ensures |r| <= |s|
    ensures !Contains(s, pat) ==> r == s
    decreases |s|
  {
    if s == [] then []
    else if StartsWith(s, pat) then RemoveAll(s[|pat|..], pat)
    else
      var rest := RemoveAll(s[1..], pat);
      assert s == [s[0]] + s[1..];
      [s[0]] + rest
  }

  /** `s.split(sep)[-1]`: the text after the last `sep`. */
  function LastSegment(s: string, sep: char): (r: string)
    ensures sep !in r
    ensures |r| <= |s| && r == s[|s| - |r|..]
    ensures |r| < |s| ==> s[|s| - |r| - 1] == sep
    ensures sep !in s ==> r == s
  {
    if s == [] then []
    else if s[|s| - 1] == sep then []
    else
      var t := LastSegment(s[..|s| - 1], sep);
      assert s == s[..|s| - 1] + [s[|s| - 1]];
      t + [s[|s| - 1]]
  }

  /** `s.split(pat)[0]` for a non-empty `pat`: the text before the first
      occurrence of `pat`. */
  function BeforeFirst(s: string, pat: string): (r: string)
    requires pat != []
    ensures StartsWith(s, r)
    ensures Contains(s, pat) ==> StartsWith(s[|r|..], pat)
    ensures forall j :: 0 <= j < |r| ==> !StartsWith(s[j..], pat)
    ensures !Contains(s, pat) ==> r == s
  {
    match IndexOf(s, pat)
    case Some(i) => s[..i]
    case None =>
      assert forall j :: 0 <= j < |s| ==> !StartsWith(s[j..], pat) by {
        forall j | 0 <= j < |s| ensures !StartsWith(s[j..], pat) { NotContainsSuffix(s, pat, j); }
      }
      s
  }

  lemma NotContainsSuffix(s: string, pat: string, j: nat)
    requires !Contains(s, pat) && j <= |s|
    ensures !StartsWith(s[j..], pat)
    decreases j
  {
    if j > 0 {
      assert s[j..] == s[1..][j - 1..];
      NotContainsSuffix(s[1..], pat, j - 1);
    }
  }

  /** `s.strip(c)` for a single character `c`. */
  function StripChar(s: string, c: char): (r: string)
    ensures |r| <= |s|
    ensures r == [] || (r[0] != c && r[|r| - 1] != c)
    decreases |s|
  {
    if s != [] && s[0] == c then StripChar(s[1..], c)
    else if s != [] && s[|s| - 1] == c then StripChar(s[..|s| - 1], c)
    else s
  }

  /** In Latin Extended-A (U+0100 to U+017F) most letters come in pairs,
      the upper case letter directly before its lower case one. These are
      the lower case halves. */
  predicate PairedLower(c: char) {
    var n := c as int;
    ((0x100 <= n < 0x130 || 0x132 <= n < 0x138 || 0x14A <= n < 0x178) && n % 2 == 1)
    || ((0x139 <= n < 0x149 || 0x179 <= n < 0x17F) && n % 2 == 0)
  }

  /** The upper case halves of the Latin Extended-A pairs. */
  predicate PairedUpper(c: char) {
    var n := c as int;
    ((0x100 <= n < 0x130 || 0x132 <= n < 0x138 || 0x14A <= n < 0x178) && n % 2 == 0)
    || ((0x139 <= n < 0x149 || 0x179 <= n < 0x17F) && n % 2 == 1)
  }

  /** The lower case letters of Basic Latin, Latin-1 and Latin Extended-A
      that `upper()` maps to one upper case character (so not 'ß', 'ĸ' or
      'ŉ'): a–z, à–þ but '÷', 'ÿ', 'µ', 'ı', 'ſ', and the paired letters
      (č, ć, š, ž, đ among them). */
  predicate IsLower(c: char) {
    || 'a' <= c <= 'z'
    || ('\U{E0}' <= c <= '\U{FE}' && c != '\U{F7}')
    || c == '\U{FF}' || c == '\U{B5}' || c == '\U{131}' || c == '\U{17F}'
    || PairedLower(c)
  }

  /** The upper case letters of the same blocks that `lower()` maps to one
      lower case character (so not 'İ'): A–Z, À–Þ but '×', 'Ÿ' and the
      paired letters. */
  predicate IsUpper(c: char) {
    || 'A' <= c <= 'Z'
    || ('\U{C0}' <= c <= '\U{DE}' && c != '\U{D7}')
    || c == '\U{178}'
    || PairedUpper(c)
  }

  /** `c.lower()` on the letters `IsUpper` names; any other character stays. */
  function LowerChar(c: char): (r: char)
    ensures !IsUpper(r)
    ensures !IsUpper(c) ==> r == c
    ensures r == '.' <==> c == '.'
  {
    if 'A' <= c <= 'Z' || ('\U{C0}' <= c <= '\U{DE}' && c != '\U{D7}') then (c as int + 0x20) as char
    else if c == '\U{178}' then '\U{FF}'
    else if PairedUpper(c) then (c as int + 1) as char
    else c
  }

  /** `c.upper()` on the letters `IsLower` names; any other character stays. */
  function UpperChar(c: char): (r: char)
    ensures !IsLower(r)
    ensures !IsLower(c) ==> r == c
    ensures r == '.' <==> c == '.'
  {
    if 'a' <= c <= 'z' || ('\U{E0}' <= c <= '\U{FE}' && c != '\U{F7}') then (c as int - 0x20) as char
    else if c == '\U{FF}' then '\U{178}'
    else if c == '\U{B5}' then '\U{39C}'
    else if c == '\U{131}' then 'I'
    else if c == '\U{17F}' then 'S'
    else if PairedLower(c) then (c as int - 1) as char
    else c
  }

  /** Upper case and lower case undo each other on the letters that have a
      partner of the other case ('µ', 'ı' and 'ſ' map to the upper case
      partner of another letter). */
  lemma CaseRoundTrip(c: char)
    ensures IsLower(c) && c != '\U{B5}' && c != '\U{131}' && c != '\U{17F}' ==>
      IsUpper(UpperChar(c)) && LowerChar(UpperChar(c)) == c
    ensures IsUpper(c) ==> IsLower(LowerChar(c)) && UpperChar(LowerChar(c)) == c
  {
  }

  /** `s.lower()`, character by character (see `LowerChar`). */
  function Lower(s: string): (r: string)
    ensures |r| == |s|
  {
    seq(|s|, i requires 0 <= i < |s| => LowerChar(s[i]))
  }

  /** `s.upper()`, character by character (see `UpperChar`). */
  function Upper(s: string): (r: string)
    ensures |r| == |s|
  {
    seq(|s|, i requires 0 <= i < |s| => UpperChar(s[i]))
  }

  /** `s.capitalize()`: first character upper case, the rest lower case. */
  function Capitalize(s: string): (r: string)
    ensures |r| == |s|
    ensures s != [] ==> r[0] == UpperChar(s[0]) && r[1..] == Lower(s[1..])
  {
    if s == [] then [] else [UpperChar(s[0])] + Lower(s[1..])
  }

  /** `slug.replace('-', ' ').capitalize()`: the group name Merkur and
      Zagozen file records under; as long as the slug, with no '-' left. */
  function GroupName(slug: string): (r: string)
    ensures |r| == |slug| && '-' !in r
  {
    var t := ReplaceChar(slug, '-', ' ');
    var r := Capitalize(t);
    assert forall i :: 1 <= i < |r| ==> r[i] == Lower(t[1..])[i - 1];
    r
  }

  function DigitChar(d: nat): (c: char)
    requires d < 10
    ensures IsDigit(c)
  {
    ('0' as int + d) as char
  }

  function DigitValue(c: char): nat
    requires IsDigit(c)
  {
    c as int - '0' as int
  }

  /** The decimal numeral of `n`, as Python's `str(n)` and f-strings write it. */
  function Dec(n: nat): (r: string)
    ensures r != [] && AllDigits(r)
    ensures n >= 10 ==> r[0] != '0'
  {
    if n < 10 then [DigitChar(n)] else Dec(n / 10) + [DigitChar(n % 10)]
  }

  /** The value of a string of decimal digits. */
  function DigitsValue(s: string): nat
    requires AllDigits(s)
  {
    if s == [] then 0 else DigitsValue(s[..|s| - 1]) * 10 + DigitValue(s[|s| - 1])
  }

  lemma {:induction false} DecRoundTrip(n: nat)
    ensures DigitsValue(Dec(n)) == n
  {
    if n >= 10 {
      DecRoundTrip(n / 10);
      var d := Dec(n);
      assert d[..|d| - 1] == Dec(n / 10);
    }
  }

  lemma DecInjective(n: nat, m: nat)
    ensures Dec(n) == Dec(m) ==> n == m
  {
    DecRoundTrip(n);
    DecRoundTrip(m);
  }

  /** Concatenation of a list of strings, `''.join(ss)`. */
  function Concat(ss: seq<string>): string {
    if ss == [] then [] else ss[0] + Concat(ss[1..])
  }

  lemma AppendAssoc<T>(x: seq<T>, y: seq<T>, z: seq<T>)
    ensures (x + y) + z == x + (y + z)
  {
  }

  /** If `a + x + b == a + y + b` then `x == y`: used to show that building a
      page URL from a page number loses nothing. */
  lemma CancelAround(a: string, x: string, y: string, b: string)
    requires a + x + b == a + y + b
    ensures x == y
  {
    var s := a + x + b;
    assert |x| == |y|;
    assert x == s[|a|..|a| + |x|];
    assert y == s[|a|..|a| + |y|];
  }

  /** A subsequence: `a` is `b` with some elements deleted. */
  predicate IsSubsequence<T(==)>(a: seq<T>, b: seq<T>)
    decreases |b|
  {
    if a == [] then true
    else if b == [] then false
    else if a[0] == b[0] then IsSubsequence(a[1..], b[1..])
    else IsSubsequence(a, b[1..])
  }

  /** A subsequence of `t` is one of `[x] + t`. */
  lemma {:induction false} SubsequenceCons<T>(u: seq<T>, t: seq<T>, x: T)
    requires IsSubsequence(u, t)
    ensures IsSubsequence(u, [x] + t)
    decreases 2 * |t| + 1
  {
    var b := [x] + t;
    assert b[1..] == t;
    if u != [] && u[0] == x {
      SubsequenceDropHead(u, t);
    }
  }

  /** Dropping the first element keeps a subsequence one. */
  lemma {:induction false} SubsequenceDropHead<T>(a: seq<T>, b: seq<T>)
    requires a != [] && IsSubsequence(a, b)
    ensures IsSubsequence(a[1..], b)
    decreases 2 * |b|
  {
    assert b != [];
    if a[0] == b[0] {
      SubsequenceCons(a[1..], b[1..], b[0]);
    } else {
      SubsequenceDropHead(a, b[1..]);
      SubsequenceCons(a[1..], b[1..], b[0]);
    }
    assert [b[0]] + b[1..] == b;
  }

  lemma {:induction false} SubsequenceTrans(a: string, b: string, c: string)
    requires IsSubsequence(a, b) && IsSubsequence(b, c)
    ensures IsSubsequence(a, c)
    decreases |c|
  {
    if a != [] {
      assert b != [] && c != [];
      assert [c[0]] + c[1..] == c;
      if b[0] == c[0] {
        if a[0] == b[0] {
          SubsequenceTrans(a[1..], b[1..], c[1..]);
        } else {
          SubsequenceTrans(a, b[1..], c[1..]);
          SubsequenceCons(a, c[1..], c[0]);
        }
      } else {
        SubsequenceTrans(a, b, c[1..]);
        SubsequenceCons(a, c[1..], c[0]);
      }
    }
  }

  /** Every prefix and every suffix is a subsequence. */
  lemma {:induction false} SliceSubsequence(a: string, i: nat, j: nat)
    requires i <= |a| && j <= |a|
    ensures IsSubsequence(a[i..], a) && IsSubsequence(a[..j], a)
    decreases |a|
  {
    if a != [] {
      assert [a[0]] + a[1..] == a;
      if i == 0 {
        assert a[0..] == a;
        SliceSubsequence(a[1..], 0, 0);
        assert a[1..][0..] == a[1..];
      } else {
        SliceSubsequence(a[1..], i - 1, 0);
        assert a[1..][i - 1..] == a[i..];
        SubsequenceCons(a[i..], a[1..], a[0]);
      }
      if j > 0 {
        SliceSubsequence(a[1..], 0, j - 1);
        assert a[1..][..j - 1] == a[..j][1..];
      }
    }
  }

  /** `s.replace(c, '')` keeps the order of what is left. */
  lemma {:induction false} RemoveCharSubsequence(s: string, c: char)
    ensures IsSubsequence(RemoveChar(s, c), s)
  {
    if s != [] {
      RemoveCharSubsequence(s[1..], c);
      var rest := RemoveChar(s[1..], c);
      if s[0] == c {
        assert RemoveChar(s, c) == rest;
        SubsequenceCons(rest, s[1..], s[0]);
        assert [s[0]] + s[1..] == s;
      } else {
        assert RemoveChar(s, c) == [s[0]] + rest;
        assert ([s[0]] + rest)[1..] == rest;
      }
    }
  }

  /** `strip()` keeps the order of what is left. */
  lemma StripSubsequence(s: string)
    ensures IsSubsequence(Strip(s), s)
  {
    var l := LStrip(s);
    SliceSubsequence(l, 0, |Strip(s)|);
    SliceSubsequence(s, |s| - |l|, 0);
    SubsequenceTrans(Strip(s), l, s);
  }
}
