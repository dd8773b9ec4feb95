/** Field values of scraped records as Python holds them, and the few Python
    built-ins the scrapers apply to them (`dict.get`, `int()`, `str()`,
    truthiness). */
module Values {
  import opened Wrappers
  import opened Text

  /** A value in a record: a string, an integer, or `None` (which is also
      what a pandas NaN cell stands for here). */
  datatype Value = Str(s: string) | Int(i: int) | Null

  /** A record: a dictionary from column name to value. */
  type Record = map<string, Value>

  /** `r.get(k)` */
  function Get(r: Record, k: string): Value {
    if k in r then r[k] else Null
  }

  /** `if v: r[k] = v`-style updates: the field is set when there is a
      text to set it to, and every other field stays. */
  function SetIf(r: Record, k: string, v: Option<string>): (r': Record)
    ensures v.Some? ==> Get(r', k) == Str(v.value)
    ensures v.None? ==> r' == r
    ensures forall k' :: k' != k ==> Get(r', k') == Get(r, k')
    ensures r.Keys <= r'.Keys
  {
    if v.Some? then r[k := Str(v.value)] else r
  }

  /** A text as a record value, `None` when there is none. */
  function ValueOf(o: Option<string>): (v: Value)
    ensures o.Some? <==> v.Str?
    ensures o.Some? ==> v == Str(o.value)
  {
    if o.Some? then Str(o.value) else Null
  }

  /** `r.get(k, d)` */
  function GetOr(r: Record, k: string, d: Value): Value {
    if k in r then r[k] else d
  }

  /** Python truthiness of a value. */
  predicate Truthy(v: Value) {
    match v
    case Str(s) => s != []
    case Int(i) => i != 0
    case Null => false
  }

  /** An integer literal: an optional sign and one or more ASCII digits. */
  function ParseInt(t: string): Option<int> {
    if |t| > 1 && (t[0] == '-' || t[0] == '+') && AllDigits(t[1..]) then
      var v: int := DigitsValue(t[1..]);
      Some(if t[0] == '-' then -v else v)
    else if t != [] && AllDigits(t) then Some(DigitsValue(t))
    else None
  }

  /** Python's `int(v)`; `None` where Python raises. */
  function PyInt(v: Value): Option<int> {
    match v
    case Int(i) => Some(i)
    case Str(s) => ParseInt(Strip(s))
    case Null => None
  }

  /** The decimal numeral of an integer, with a leading `-` when negative. */
  function IntText(i: int): string {
    if i < 0 then "-" + Dec(-i) else Dec(i)
  }

  /** Python's `str(v)`. */
  function PyStr(v: Value): string {
    match v
    case Str(s) => s
    case Int(i) => IntText(i)
    case Null => "None"
  }

  /** `int(str(i)) == i` */
  lemma IntTextRoundTrip(i: int)
    ensures PyInt(Str(IntText(i))) == Some(i)
  {
    var n: nat := if i < 0 then -i else i;
    var d := Dec(n);
    DecRoundTrip(n);
    if i < 0 {
      ParseSigned(d);
      assert PyInt(Str("-" + d)) == Some(i);
      assert IntText(i) == "-" + d;
    } else {
      ParseUnsigned(d);
      assert PyInt(Str(d)) == Some(i);
      assert IntText(i) == d;
    }
  }

  lemma DigitNotSpace(c: char)
    requires IsDigit(c)
    ensures !IsSpace(c)
  {
  }

  /** A minus sign and digits parse as the negated digits. */
  lemma ParseSigned(d: string)
    requires d != [] && AllDigits(d)
    ensures PyInt(Str("-" + d)) == Some(-(DigitsValue(d) as int))
  {
    var t := "-" + d;
    assert Strip(t) == t by {
      assert t[0] == '-';
      assert t[|t| - 1] == d[|d| - 1];
      DigitNotSpace(d[|d| - 1]);
    }
    assert ParseInt(t) == Some(-(DigitsValue(d) as int)) by {
      assert t[1..] == d;
    }
  }

  /** Digits parse as their value. */
  lemma ParseUnsigned(d: string)
    requires d != [] && AllDigits(d)
    ensures PyInt(Str(d)) == Some(DigitsValue(d))
  {
    assert Strip(d) == d by {
      DigitNotSpace(d[0]);
      DigitNotSpace(d[|d| - 1]);
    }
  }
}
