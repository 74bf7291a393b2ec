/**
 * JavaScript's string-to-number conversions `Number(s)` and `parseInt(s)`,
 * restricted to the integer grammar `[+-]?[0-9]+`, with the decimal
 * rendering of an integer as their partner. A JavaScript number that may be
 * NaN is an `Option<int>`: `None` is NaN.
 */
module JsNumbers {
  import opened Wrappers

  /** A JavaScript number that is an integer or NaN (`None`). */
  type JsInt = Option<int>

  /** JavaScript truthiness of a number: both 0 and NaN are falsy. */
  predicate Truthy(x: JsInt) {
    x.Some? && x.value != 0
  }

  predicate IsDigit(c: char) {
    '0' <= c <= '9'
  }

  predicate AllDigits(s: string) {
    forall i :: 0 <= i < |s| ==> IsDigit(s[i])
  }

  /** The value of a string of decimal digits, most significant first. */
  function DigitsValue(s: string): nat
    requires AllDigits(s)
    decreases |s|
  {
    if s == [] then 0 else 10 * DigitsValue(s[..|s| - 1]) + (s[|s| - 1] as int - '0' as int)
  }

  /** Length of the optional sign in front of a numeral. */
  function SignLength(s: string): (k: nat)
    ensures k <= |s|
  {
    if |s| > 0 && (s[0] == '-' || s[0] == '+') then 1 else 0
  }

  function ApplySign(s: string, v: int): int {
    if |s| > 0 && s[0] == '-' then -v else v
  }

  /** Length of the run of digits that starts `s`. */
  function LeadingDigits(s: string): (k: nat)
    ensures k <= |s|
    ensures AllDigits(s[..k])
    ensures k < |s| ==> !IsDigit(s[k])
    decreases |s|
  {
    if s == [] || !IsDigit(s[0]) then 0
    else
      var k := 1 + LeadingDigits(s[1..]);
      assert s[..k] == [s[0]] + s[1..][..k - 1];
      k
  }

  /** `Number(s)`: the empty string is 0, a signed numeral is its value,
      anything else is NaN. */
  function Number(s: string): (r: JsInt)
    ensures r.Some? <==> s == "" || (SignLength(s) < |s| && AllDigits(s[SignLength(s)..]))
  {
    if s == "" then Some(0)
    else
      var k := SignLength(s);
      if k < |s| && AllDigits(s[k..]) then Some(ApplySign(s, DigitsValue(s[k..]))) else None
  }

  /** `parseInt(s)`: the value of the longest signed numeral that starts `s`,
      NaN when `s` does not start with one. */
  function ParseInt(s: string): (r: JsInt)
    ensures r.Some? <==> SignLength(s) < |s| && IsDigit(s[SignLength(s)])
  {
    var k := SignLength(s);
    var d := LeadingDigits(s[k..]);
    if d == 0 then None else Some(ApplySign(s, DigitsValue(s[k..][..d])))
  }

  /** The decimal numeral of a natural number. */
  function NatToString(n: nat): (s: string)
    ensures |s| > 0 && AllDigits(s)
    ensures DigitsValue(s) == n
    decreases n
  {
    if n < 10 then [('0' as int + n) as char]
    else
      var s := NatToString(n / 10) + [('0' as int + n % 10) as char];
      assert s[..|s| - 1] == NatToString(n / 10);
      s
  }

  /** The decimal rendering of an integer (what JavaScript's `String(n)`
      gives below 1e21): a `-` in front of negative values. */
  function IntToString(n: int): (s: string)
    ensures |s| > 0 && ' ' !in s
    ensures n >= 0 ==> AllDigits(s)
    ensures n < 0 ==> s[0] == '-' && AllDigits(s[1..])
  {
    if n < 0 then "-" + NatToString(-n) else NatToString(n)
  }

  /** The digit run is determined by where the first non-digit stands. */
  lemma {:induction false} LeadingDigitsUnique(s: string, k: nat)
    requires k <= |s| && AllDigits(s[..k])
    requires k < |s| ==> !IsDigit(s[k])
    ensures LeadingDigits(s) == k
    decreases |s|
  {
    if s != [] && IsDigit(s[0]) {
      assert k >= 1;
      assert s[1..][..k - 1] == s[..k][1..];
      LeadingDigitsUnique(s[1..], k - 1);
    }
  }

  /** The digit run of `u + v` is that of `u` when `v` does not continue it. */
  lemma LeadingDigitsAppend(u: string, v: string)
    requires v == [] || !IsDigit(v[0])
    ensures LeadingDigits(u + v) == LeadingDigits(u)
  {
    var k := LeadingDigits(u);
    assert (u + v)[..k] == u[..k];
    LeadingDigitsUnique(u + v, k);
  }

  /** A numeral followed by a non-digit: the digit run is exactly the numeral. */
  lemma NumeralPrefix(u: string, rest: string)
    requires AllDigits(u)
    requires rest == [] || !IsDigit(rest[0])
    ensures LeadingDigits(u + rest) == |u|
    ensures (u + rest)[..|u|] == u
  {
    LeadingDigitsAppend(u, rest);
    assert u[..|u|] == u;
  }

  /** `parseInt` reads back the rendering of any integer, and stops at the
      first character after it that is not a digit. */
  lemma ParseIntOfRendering(n: int, rest: string)
    requires rest == [] || !IsDigit(rest[0])
    ensures ParseInt(IntToString(n) + rest) == Some(n)
  {
    if n < 0 {
      var t := NatToString(-n) + rest;
      ParseIntOfNumeral(NatToString(-n), rest);
      ParseIntNegated(t);
      assert ParseInt(['-'] + t) == Some(n);
      assert IntToString(n) + rest == ['-'] + t;
    } else {
      ParseIntOfNumeral(NatToString(n), rest);
      assert IntToString(n) == NatToString(n);
    }
  }

  /** `parseInt` of an unsigned numeral followed by a non-digit. */
  lemma ParseIntOfNumeral(u: string, rest: string)
    requires |u| > 0 && AllDigits(u)
    requires rest == [] || !IsDigit(rest[0])
    ensures ParseInt(u + rest) == Some(DigitsValue(u))
  {
    var s := u + rest;
    NumeralPrefix(u, rest);
    assert IsDigit(u[0]);
    assert SignLength(s) == 0 && s[0..] == s;
  }

  /** A minus sign in front of a string that starts with a digit negates
      what `parseInt` reads. */
  lemma ParseIntNegated(t: string)
    requires |t| > 0 && IsDigit(t[0])
    ensures ParseInt(['-'] + t) == Some(-ParseInt(t).value)
  {
    var s := ['-'] + t;
    assert s[1..] == t;
    assert t[0..] == t;
  }

  /** `Number` reads back the rendering of any integer. */
  lemma NumberOfRendering(n: int)
    ensures Number(IntToString(n)) == Some(n)
  {
    var u := NatToString(if n < 0 then -n else n);
    if n < 0 {
      assert IntToString(n)[1..] == u;
    } else {
      assert IsDigit(u[0]);
      assert IntToString(n)[0..] == u;
    }
  }

  /** On every non-empty string that `Number` accepts, `parseInt` gives the
      same value: the two conversions differ only on the empty string and on
      what `Number` rejects. */
  lemma NumberIsParseInt(s: string)
    ensures s != "" && Number(s).Some? ==> ParseInt(s) == Number(s)
  {
    var k := SignLength(s);
    if s != "" && k < |s| && AllDigits(s[k..]) {
      NumeralPrefix(s[k..], []);
      assert s[k..] + [] == s[k..];
    }
  }

  /** A lone sign and a word are NaN to both conversions. */
  lemma NaNExamples()
    ensures Number("-") == None && ParseInt("-") == None
    ensures Number("abc") == None && ParseInt("abc") == None
  {
    assert !IsDigit("abc"[0]);
    assert "-"[1..] == [];
  }
}
