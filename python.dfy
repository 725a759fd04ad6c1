/** Python values as they arrive in a request body or a query string, their
    truthiness, and the two conversions the views rely on: `int(x)` and
    `str(n)` for an integer `n`. */
module Python {

  datatype Option<+T> = None | Some(value: T)

  datatype Result<+T, +E> = Ok(value: T) | Err(error: E)

  /** A decoded JSON / form value. `Float` holds the exact value of a JSON
      number with a fraction (binary rounding is not modelled). */
  datatype Value =
    | Null
    | Bool(b: bool)
    | Int(i: int)
    | Float(r: real)
    | Str(s: string)
    | List(items: seq<Value>)
    | Dict(entries: map<string, Value>)

  /** Python's `bool(v)`: None, False, zero, and empty strings, lists and
      dicts are falsy; everything else is truthy. */
  predicate Truthy(v: Value)
  {
    match v
    case Null => false
    case Bool(b) => b
    case Int(i) => i != 0
    case Float(r) => r != 0.0
    case Str(s) => |s| > 0
    case List(items) => |items| > 0
    case Dict(entries) => |entries| > 0
  }

  /** The two exceptions `int(x)` can raise. */
  datatype PyError = ValueError | TypeError

  // ---------------------------------------------------------------------
  // str(n)

  function DigitChar(d: nat): (c: char)
    requires d < 10
    ensures '0' <= c <= '9'
  {
    "0123456789"[d]
  }

  function DigitOf(c: char): (d: nat)
    requires IsDigit(c)
    ensures d < 10
  {
    (c - '0') as nat
  }

  /** Decimal digits of a natural number, most significant first, no
      leading zeros. */
  function NatToString(n: nat): (s: string)
    ensures |s| > 0
    ensures forall i :: 0 <= i < |s| ==> '0' <= s[i] <= '9'
  {
    if n < 10 then [DigitChar(n)] else NatToString(n / 10) + [DigitChar(n % 10)]
  }

  /** Python's `str(n)` for an integer `n`. */
  function IntToString(n: int): (s: string)
  {
    if n < 0 then "-" + NatToString(-n) else NatToString(n)
  }

  // ---------------------------------------------------------------------
  // int(x)

  /** The ASCII characters `str.strip()` and `int()` treat as whitespace:
      space, tab, the line breaks, vertical tab, form feed and the four
      separators 0x1C-0x1F (non-ASCII Unicode spaces are not modelled). */
  predicate IsSpace(c: char)
  {
    || c == ' ' || c == '\t' || c == '\n' || c == '\r' || c == '\U{0B}' || c == '\U{0C}'
    || ('\U{1C}' <= c <= '\U{1F}')
  }

  predicate IsDigit(c: char)
  {
    '0' <= c <= '9'
  }

  function StripLeft(s: string): (r: string)
    ensures |r| <= |s| && r == s[|s| - |r|..]
    ensures |r| > 0 ==> !IsSpace(r[0])
    ensures forall i :: 0 <= i < |s| - |r| ==> IsSpace(s[i])
  {
    if |s| > 0 && IsSpace(s[0]) then StripLeft(s[1..]) else s
  }

  function StripRight(s: string): (r: string)
    ensures |r| <= |s| && r == s[..|r|]
    ensures |r| > 0 ==> !IsSpace(r[|r| - 1])
    ensures forall i :: |r| <= i < |s| ==> IsSpace(s[i])
  {
    if |s| > 0 && IsSpace(s[|s| - 1]) then StripRight(s[..|s| - 1]) else s
  }

  /** Python's `s.strip()` on ASCII whitespace. */
  function Strip(s: string): string
  {
    StripRight(StripLeft(s))
  }

  /** The body of a base-10 integer literal as `int()` accepts it: digits,
      with single underscores allowed between two digits. */
  predicate WellFormedDigits(s: string)
  {
    && |s| > 0
    && IsDigit(s[0])
    && IsDigit(s[|s| - 1])
    && (forall i :: 0 <= i < |s| ==> IsDigit(s[i]) || s[i] == '_')
    && (forall i :: 0 <= i < |s| - 1 && s[i] == '_' ==> s[i + 1] != '_')
  }

  /** The number a digit string denotes, underscores ignored. */
  function DigitsValue(s: string): nat
    requires forall i :: 0 <= i < |s| ==> IsDigit(s[i]) || s[i] == '_'
  {
    if |s| == 0 then 0
    else
      var last := s[|s| - 1];
      assert IsDigit(last) || last == '_';
      if last == '_' then DigitsValue(s[..|s| - 1])
      else 10 * DigitsValue(s[..|s| - 1]) + DigitOf(last)
  }

  /** `int(s)` for a string `s`: surrounding whitespace is ignored, then an
      optional sign and a well-formed digit string; anything else raises
      ValueError. */
  function ParseInt(s: string): (r: Result<int, PyError>)
    ensures r.Err? ==> r.error == ValueError
  {
    var t := Strip(s);
    if |t| > 0 && (t[0] == '-' || t[0] == '+') then
      var body := t[1..];
      if WellFormedDigits(body) then
        var v: int := DigitsValue(body);
        Ok(if t[0] == '-' then -v else v)
      else Err(ValueError)
    else if WellFormedDigits(t) then Ok(DigitsValue(t))
    else Err(ValueError)
  }

  /** `int(r)` for a float: truncation toward zero. */
  function Truncate(r: real): (n: int)
    ensures r >= 0.0 ==> 0.0 <= n as real <= r < n as real + 1.0
    ensures r < 0.0 ==> n as real - 1.0 < r <= n as real <= 0.0
  {
    if r >= 0.0 then r.Floor else -((-r).Floor)
  }

  /** Python's `int(v)`. Booleans convert to 0 and 1, floats truncate,
      strings are parsed; None, lists and dicts raise TypeError. */
  function ToInt(v: Value): (r: Result<int, PyError>)
    ensures r.Err? && r.error == TypeError <==> v.Null? || v.List? || v.Dict?
    ensures v.Int? ==> r == Ok(v.i)
  {
    match v
    case Bool(b) => Ok(if b then 1 else 0)
    case Int(i) => Ok(i)
    case Float(x) => Ok(Truncate(x))
    case Str(s) => ParseInt(s)
    case _ => Err(TypeError)
  }

  // ---------------------------------------------------------------------
  // Properties of the conversions

  lemma {:induction false} NatToStringValue(n: nat)
    ensures WellFormedDigits(NatToString(n))
    ensures DigitsValue(NatToString(n)) == n
  {
    var s := NatToString(n);
    if n >= 10 {
      NatToStringValue(n / 10);
      var p := NatToString(n / 10);
      assert s == p + [DigitChar(n % 10)];
      assert s[..|s| - 1] == p;
    }
  }

  /** A string with no whitespace at either end is its own `strip()`. */
  lemma StripUnpadded(s: string)
    requires |s| > 0 && !IsSpace(s[0]) && !IsSpace(s[|s| - 1])
    ensures Strip(s) == s
  {
    assert StripLeft(s) == s;
  }

  lemma {:induction false} ParseNatString(n: nat)
    ensures ToInt(Str(IntToString(n))) == Ok(n)
  {
    var t := NatToString(n);
    assert IntToString(n) == t;
    NatToStringValue(n);
    StripUnpadded(t);
    assert ParseInt(t) == Ok(n);
  }

  /** A stripped `-digits` string parses to the negated digits. */
  lemma ParseMinus(t: string)
    requires Strip(t) == t && |t| > 0 && t[0] == '-' && WellFormedDigits(t[1..])
    ensures ParseInt(t).Ok? && ParseInt(t).value == -(DigitsValue(t[1..]) as int)
  {
  }

  /** A digit string with a minus sign in front is already stripped. */
  lemma MinusUnpadded(p: string)
    requires WellFormedDigits(p)
    ensures Strip("-" + p) == "-" + p && ("-" + p)[1..] == p
  {
    var t := "-" + p;
    assert t[1..] == p;
    assert t[0] == '-' && t[|t| - 1] == p[|p| - 1];
    StripUnpadded(t);
  }

  /** `int("-" + p)` for a digit string `p` denoting `v`. */
  lemma ParseMinusValue(p: string, v: int)
    requires WellFormedDigits(p) && DigitsValue(p) as int == v
    ensures ToInt(Str("-" + p)) == Ok(-v)
  {
    MinusUnpadded(p);
    ParseMinus("-" + p);
  }

  lemma {:induction false} ParseNegativeString(n: int)
    requires n < 0
    ensures ToInt(Str(IntToString(n))) == Ok(n)
  {
    var p := NatToString(-n);
    NatToStringValue(-n);
    ParseMinusValue(p, -n);
    assert IntToString(n) == "-" + p;
  }

  /** `int(str(n)) == n`: reading back a number the server wrote. */
  lemma {:induction false} IntRoundTrip(n: int)
    ensures ToInt(Str(IntToString(n))) == Ok(n)
  {
    if n < 0 {
      ParseNegativeString(n);
    } else {
      ParseNatString(n);
    }
  }

  // ---------------------------------------------------------------------
  // ", ".join(...)

  function Join(parts: seq<string>, sep: string): (r: string)
    ensures |parts| == 1 ==> r == parts[0]
  {
    if |parts| == 0 then ""
    else if |parts| == 1 then parts[0]
    else parts[0] + sep + Join(parts[1..], sep)
  }

  /** ASCII `str.lower()`. */
  function Lower(s: string): (r: string)
    ensures |r| == |s|
    ensures forall i :: 0 <= i < |s| ==> r[i] == (if 'A' <= s[i] <= 'Z' then s[i] - 'A' + 'a' else s[i])
  {
    if |s| == 0 then ""
    else [if 'A' <= s[0] <= 'Z' then s[0] - 'A' + 'a' else s[0]] + Lower(s[1..])
  }
}
