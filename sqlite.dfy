/** How a bound JavaScript value is stored in an SQLite column: the
    driver's binding, then the column's type affinity. Only the canonical
    decimal form of an integer is converted by INTEGER affinity here. */
module Sqlite {
  import opened Js
  import opened Wrappers

  /** A non-empty run of decimal digits without a leading zero (or `"0"`). */
  predicate IsCanonicalDigits(s: string) {
    && |s| >= 1
    && (forall i :: 0 <= i < |s| ==> IsDigit(s[i]))
    && (|s| > 1 ==> s[0] != '0')
  }

  /** The integer whose `String(n)` is exactly `s`, if there is one. */
  function ParseInt(s: string): Option<int> {
    if IsCanonicalDigits(s) then Some(DigitsValue(s))
    else if |s| >= 2 && s[0] == '-' && IsCanonicalDigits(s[1..]) && s[1] != '0' then Some(-(DigitsValue(s[1..]) as int))
    else None
  }

  /** A digit string that does not start with `0` denotes a positive number. */
  lemma {:induction false} LeadingDigitPositive(s: string)
    requires |s| >= 1 && (forall i :: 0 <= i < |s| ==> IsDigit(s[i])) && s[0] != '0'
    ensures DigitsValue(s) > 0
    decreases |s|
  {
    if |s| > 1 {
      LeadingDigitPositive(s[..|s| - 1]);
    }
  }

  /** Rendering the value of a canonical digit string gives the string back. */
  lemma {:induction false} CanonicalDigitsRoundTrip(s: string)
    requires IsCanonicalDigits(s)
    ensures NatToString(DigitsValue(s)) == s
    decreases |s|
  {
    var v := DigitsValue(s);
    var init, c := s[..|s| - 1], s[|s| - 1];
    if |s| > 1 {
      assert init[0] == s[0];
      LeadingDigitPositive(init);
      CanonicalDigitsRoundTrip(init);
      assert v / 10 == DigitsValue(init) && v % 10 == c as int - '0' as int;
      assert s == init + [c];
    }
  }

  /** Parsing inverts `String(n)`. */
  lemma ParseRendered(n: int)
    ensures ParseInt(IntToString(n)) == Some(n)
  {
    var s := IntToString(n);
    if n < 0 {
      assert s[1..] == NatToString(-n);
      DigitsRoundTrip(-n);
    } else {
      DigitsRoundTrip(n);
    }
  }

  /** Whatever parses renders back to the same text. */
  lemma RenderParsed(s: string, n: int)
    requires ParseInt(s) == Some(n)
    ensures IntToString(n) == s
  {
    if IsCanonicalDigits(s) {
      CanonicalDigitsRoundTrip(s);
    } else {
      LeadingDigitPositive(s[1..]);
      CanonicalDigitsRoundTrip(s[1..]);
      assert s == "-" + s[1..];
    }
  }

  /** A value bound into an INTEGER (or NUMERIC) column: numbers stay,
      text that reads as an integer becomes that integer with the same
      rendering, any other text stays text. */
  function StoreInteger(v: JsValue): (r: JsValue)
    ensures !r.Undefined? && !r.Bool?
    ensures v.Num? ==> r == v
    ensures r.Text? ==> v.Text? && r == v && ParseInt(r.s).None?
    ensures v.Text? && r.Num? ==> IntToString(r.n) == v.s
  {
    var b := Bind(v);
    if b.Text? && ParseInt(b.s).Some? then
      RenderParsed(b.s, ParseInt(b.s).value);
      Num(ParseInt(b.s).value)
    else b
  }

  /** A value bound into a TEXT column: text stays, a number becomes text
      that parses back to it. */
  function StoreText(v: JsValue): (r: JsValue)
    ensures !r.Undefined? && !r.Bool? && !r.Num?
    ensures v.Text? ==> r == v
    ensures v.Num? ==> r.Text? && ParseInt(r.s) == Some(v.n)
    ensures Truthy(v) ==> Truthy(r)
  {
    var b := Bind(v);
    if b.Num? then
      ParseRendered(b.n);
      Text(IntToString(b.n))
    else b
  }

  /** INTEGER affinity never changes how a stored id renders with `String`,
      and changes its truthiness only for the text `"0"`. */
  lemma StoreIntegerKeepsRendering(v: JsValue)
    requires v.Num? || v.Text?
    ensures ToJsString(StoreInteger(v)) == ToJsString(v)
    ensures Truthy(StoreInteger(v)) <==> Truthy(v) && v != Text("0")
  {
    if v.Text? && ParseInt(v.s).Some? {
      RenderParsed(v.s, ParseInt(v.s).value);
      if v.s != "0" {
        ParseRendered(0);
      }
    }
  }

  /** A falsy value is stored as a falsy value. */
  lemma StoreIntegerFalsy(v: JsValue)
    requires !Truthy(v)
    ensures !Truthy(StoreInteger(v))
  {
    if Bind(v).Text? {
      assert Bind(v).s == "";
    }
  }
}
