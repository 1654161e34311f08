/** JavaScript value semantics the controllers rely on: truthiness, the
    SQLite driver's binding of values, `String(v)` for integers, and
    `String.prototype.split(',')` / `Array.prototype.join(',')`. */
module Js {

  /** A value as it reaches a handler: from a JSON body, a query string,
      a token claim or a database row. Numbers are integers here. */
  datatype JsValue = Undefined | Null | Bool(b: bool) | Num(n: int) | Text(s: string)

  /** JavaScript truthiness: `undefined`, `null`, `false`, `0` and `''`
      are falsy, everything else is truthy. */
  predicate Truthy(v: JsValue) {
    match v
    case Undefined => false
    case Null => false
    case Bool(b) => b
    case Num(n) => n != 0
    case Text(s) => s != []
  }

  /** `v || null`. */
  function OrNull(v: JsValue): JsValue {
    if Truthy(v) then v else Null
  }

  /** How the SQLite driver stores a bound value: `undefined` becomes NULL
      and booleans become the integers 1 and 0. */
  function Bind(v: JsValue): (r: JsValue)
    ensures Truthy(r) == Truthy(v)
    ensures !r.Undefined? && !r.Bool?
  {
    match v
    case Undefined => Null
    case Bool(b) => if b then Num(1) else Num(0)
    case _ => v
  }

  // ---------------------------------------------------------------------
  // Decimal rendering of integers, `String(n)`
  // ---------------------------------------------------------------------

  predicate IsDigit(c: char) {
    '0' <= c <= '9'
  }

  function DigitChar(d: nat): (c: char)
    requires d < 10
    ensures IsDigit(c)
    ensures (c == '0') == (d == 0)
  {
    (48 + d) as char
  }

  /** The decimal digits of `n`, most significant first, no leading zero. */
  function NatToString(n: nat): (s: string)
    ensures |s| >= 1
    ensures forall i :: 0 <= i < |s| ==> IsDigit(s[i])
    ensures (s[0] == '0') == (n == 0)
    decreases n
  {
    if n < 10 then [DigitChar(n)] else NatToString(n / 10) + [DigitChar(n % 10)]
  }

  /** `String(n)` for an integer `n`. */
  function IntToString(n: int): (s: string)
    ensures |s| >= 1
    ensures (s[0] == '-') == (n < 0)
  {
    if n < 0 then "-" + NatToString(-n) else NatToString(n)
  }

  /** The number a string of decimal digits denotes. */
  function DigitsValue(s: string): nat
    requires forall i :: 0 <= i < |s| ==> IsDigit(s[i])
  {
    if s == [] then 0
    else
      assert IsDigit(s[|s| - 1]);
      DigitsValue(s[..|s| - 1]) * 10 + (s[|s| - 1] as int - '0' as int)
  }

  /** Reading the digits back gives the number: the rendering loses nothing. */
  lemma {:induction false} DigitsRoundTrip(n: nat)
    ensures DigitsValue(NatToString(n)) == n
    decreases n
  {
    var s := NatToString(n);
    if n >= 10 {
      DigitsRoundTrip(n / 10);
      assert s[..|s| - 1] == NatToString(n / 10);
    }
  }

  lemma NatToStringInjective(a: nat, b: nat)
    requires NatToString(a) == NatToString(b)
    ensures a == b
  {
    DigitsRoundTrip(a);
    DigitsRoundTrip(b);
  }

  /** Distinct integers render as distinct strings. */
  lemma IntToStringInjective(a: int, b: int)
    requires IntToString(a) == IntToString(b)
    ensures a == b
  {
    var s := IntToString(a);
    assert (a < 0) == (b < 0) by { assert (s[0] == '-') == (a < 0) == (b < 0); }
    if a < 0 {
      assert s[1..] == NatToString(-a) by { assert s == "-" + NatToString(-a); }
      assert s[1..] == NatToString(-b) by { assert s == "-" + NatToString(-b); }
      NatToStringInjective(-a, -b);
    } else {
      NatToStringInjective(a, b);
    }
  }

  /** `String(v)`: the text JavaScript's `toString` gives for a value. */
  function ToJsString(v: JsValue): (s: string)
    ensures Truthy(v) ==> s != []
  {
    match v
    case Undefined => "undefined"
    case Null => "null"
    case Bool(b) => if b then "true" else "false"
    case Num(n) => IntToString(n)
    case Text(t) => t
  }

  // ---------------------------------------------------------------------
  // `s.split(',')` and `parts.join(',')`
  // ---------------------------------------------------------------------

  /** `s.split(',')`: pieces are not trimmed and empty pieces are kept, so
      `''` gives `['']` and `','` gives `['', '']`. */
  function SplitComma(s: string): (parts: seq<string>)
    ensures |parts| >= 1
    ensures forall i :: 0 <= i < |parts| ==> ',' !in parts[i]
    decreases |s|
  {
    if s == [] then [""]
    else
      var rest := SplitComma(s[1..]);
      if s[0] == ',' then [""] + rest
      else [[s[0]] + rest[0]] + rest[1..]
  }

  /** `parts.join(',')`. */
  function JoinComma(parts: seq<string>): string
    decreases |parts|
  {
    if parts == [] then ""
    else if |parts| == 1 then parts[0]
    else parts[0] + "," + JoinComma(parts[1..])
  }

  /** Prepending a character to the first piece prepends it to the join. */
  lemma JoinConsHead(c: char, p: string, tail: seq<string>)
    ensures JoinComma([[c] + p] + tail) == [c] + JoinComma([p] + tail)
  {
  }

  /** Joining the pieces of a split gives back the original string. */
  lemma {:induction false} SplitJoin(s: string)
    ensures JoinComma(SplitComma(s)) == s
    decreases |s|
  {
    if s != [] {
      var rest := SplitComma(s[1..]);
      SplitJoin(s[1..]);
      if s[0] == ',' {
        assert ([""] + rest)[1..] == rest;
      } else {
        assert rest == [rest[0]] + rest[1..];
        JoinConsHead(s[0], rest[0], rest[1..]);
        assert [s[0]] + s[1..] == s;
      }
    }
  }

  /** Splitting a join of comma-free pieces gives back the pieces. */
  lemma {:induction false} JoinSplit(parts: seq<string>)
    requires |parts| >= 1
    requires forall i :: 0 <= i < |parts| ==> ',' !in parts[i]
    ensures SplitComma(JoinComma(parts)) == parts
    decreases |JoinComma(parts)|
  {
    var s := JoinComma(parts);
    if parts[0] == [] {
      if |parts| > 1 {
        var tail := parts[1..];
        assert s == "," + JoinComma(tail);
        JoinSplit(tail);
        assert s[1..] == JoinComma(tail);
        assert parts == [""] + tail;
      }
    } else {
      var c, p := parts[0][0], parts[0][1..];
      var shorter := [p] + parts[1..];
      assert parts[0] == [c] + p;
      assert parts == [[c] + p] + parts[1..];
      JoinConsHead(c, p, parts[1..]);
      assert s == [c] + JoinComma(shorter);
      assert c != ',' by { assert c == parts[0][0]; }
      forall i | 0 <= i < |shorter| ensures ',' !in shorter[i] {
        if i == 0 {
          assert shorter[0] == parts[0][1..];
        } else {
          assert shorter[i] == parts[i];
        }
      }
      JoinSplit(shorter);
      assert s[1..] == JoinComma(shorter);
      assert parts == [[c] + shorter[0]] + shorter[1..];
    }
  }
}
