/** The conversions of JavaScript (ECMA-262) that the casts rely on:
    `String(v)` of a JSON value, and `Number(s)` of a string. */
module JsText {
  import opened Common

  /** A JavaScript number, with its value kept exact. */
  datatype JsNumber = NaN | Finite(x: real) | Infinite(negative: bool)

  /** `String(n)` of an integer: its decimal digits, after a minus sign when
      it is negative. */
  function IntToString(n: int): string
  {
    if n < 0 then "-" + NatToString(-n) else NatToString(n)
  }

  /** The white space of `String.prototype.trim`, of `Number(s)` and of the
      regular-expression class `\s` (sections 12.2 and 12.3 of ECMA-262):
      tab, line feed, vertical tab, form feed, carriage return, space,
      no-break space, the other space separators of Unicode, the line and
      paragraph separators and the byte order mark. */
  predicate IsJsSpace(c: char)
  {
    var n := c as int;
    (0x09 <= n <= 0x0D) || n == 0x20 || n == 0xA0 || n == 0x1680 || (0x2000 <= n <= 0x200A) ||
    n == 0x2028 || n == 0x2029 || n == 0x202F || n == 0x205F || n == 0x3000 || n == 0xFEFF
  }

  /** `/^\s*$/`: nothing but white space. */
  predicate AllSpace(s: string)
  {
    forall i :: 0 <= i < |s| ==> IsJsSpace(s[i])
  }

  function TrimStart(s: string): (r: string)
    ensures r == [] || !IsJsSpace(r[0])
  {
    if s != [] && IsJsSpace(s[0]) then TrimStart(s[1..]) else s
  }

  function TrimEnd(s: string): (r: string)
    ensures r == [] || !IsJsSpace(r[|r| - 1])
  {
    if s != [] && IsJsSpace(s[|s| - 1]) then TrimEnd(s[..|s| - 1]) else s
  }

  /** A string that neither starts nor ends with white space trims to itself. */
  lemma TrimUnspaced(s: string)
    requires s != [] && !IsJsSpace(s[0]) && !IsJsSpace(s[|s| - 1])
    ensures TrimEnd(TrimStart(s)) == s
  {
  }

  // ------------------------------------------------------------- ToString

  /** JavaScript's ToString of a JSON value (section 7.1.17 of ECMA-262),
      `None` where it throws. An array is the `join(',')` of its elements,
      `null` ones written as ''. An object is '[object Object]', unless it
      has an own `toString` property: that value cannot be called, and
      neither can the `valueOf` it falls back on give a primitive, so the
      conversion throws a TypeError. */
  function ToJsString(v: Value): (r: Option<string>)
    ensures v.Str? ==> r == Some(v.s)
    ensures v.Num? ==> r == Some(IntToString(v.n))
    ensures v.Obj? ==> (r.Some? <==> !HasKey(v.fields, "toString"))
    decreases v
  {
    match v
    case Str(s) => Some(s)
    case Num(n) => Some(IntToString(n))
    case Bool(b) => Some(if b then "true" else "false")
    case Null => Some("null")
    case Arr(items) =>
      JoinTexts(seq(|items|, i requires 0 <= i < |items| => if items[i].Null? then Some("") else ToJsString(items[i])))
    case Obj(fields) => if HasKey(fields, "toString") then None else Some("[object Object]")
  }

  /** `parts.join(',')`, or `None` when one of the parts threw. */
  function JoinTexts(parts: seq<Option<string>>): (r: Option<string>)
    ensures r.Some? <==> forall i :: 0 <= i < |parts| ==> parts[i].Some?
  {
    if exists i :: 0 <= i < |parts| && parts[i].None? then None
    else Some(Join(seq(|parts|, i requires 0 <= i < |parts| => parts[i].value), ","))
  }

  // --------------------------------------------------------------- Number

  /** The value of a letter or digit in a radix up to 36 (36 for any other
      character). */
  function RadixDigit(c: char): nat
  {
    if '0' <= c <= '9' then c as int - '0' as int
    else if 'a' <= c <= 'z' then c as int - 'a' as int + 10
    else if 'A' <= c <= 'Z' then c as int - 'A' as int + 10
    else 36
  }

  function RadixValue(d: string, radix: nat): nat
  {
    if d == [] then 0 else RadixValue(d[..|d| - 1], radix) * radix + RadixDigit(d[|d| - 1])
  }

  /** The digits after "0x", "0o" or "0b". */
  function RadixNumber(d: string, radix: nat): JsNumber
  {
    if d != [] && forall i :: 0 <= i < |d| ==> RadixDigit(d[i]) < radix then Finite(RadixValue(d, radix) as real)
    else NaN
  }

  function Pow10(k: nat): (r: nat)
    ensures r >= 1
  {
    if k == 0 then 1 else 10 * Pow10(k - 1)
  }

  /** The value of the digits `whole` '.' `frac`. */
  function DecimalValue(whole: string, frac: string): real
  {
    DigitsValue(whole) as real + DigitsValue(frac) as real / Pow10(|frac|) as real
  }

  /** The part of a StrUnsignedDecimalLiteral before its exponent: digits,
      a point and digits, with either side of the point possibly empty but
      not both. */
  function Mantissa(m: string): (r: Option<real>)
  {
    match IndexOf(m, ".")
    case None => if m != "" && AllDigits(m) then Some(DigitsValue(m) as real) else None
    case Some(p) =>
      var whole := m[..p];
      var frac := m[p + 1..];
      if (whole != "" || frac != "") && AllDigits(whole) && AllDigits(frac) then Some(DecimalValue(whole, frac)) else None
  }

  /** The digits of an exponent, after an optional sign. */
  function Exponent(e: string): Option<int>
  {
    var negative := e != "" && e[0] == '-';
    var digits := if e != "" && (e[0] == '+' || e[0] == '-') then e[1..] else e;
    if digits != "" && AllDigits(digits) then Some(if negative then -(DigitsValue(digits) as int) else DigitsValue(digits))
    else None
  }

  function Scale(x: real, e: int): real
  {
    if e >= 0 then x * Pow10(e) as real else x / Pow10(-e) as real
  }

  /** The first position of an exponent mark. */
  function ExponentMark(u: string): (r: Option<nat>)
    ensures r.None? ==> forall i :: 0 <= i < |u| ==> u[i] != 'e' && u[i] != 'E'
    ensures r.Some? ==> r.value < |u|
  {
    match IndexOf(u, "e")
    case Some(i) =>
      (match IndexOf(u[..i], "E") case Some(j) => Some(j) case None => Some(i))
    case None =>
      assert forall i :: 0 <= i < |u| ==> u[i] != 'e' by {
        forall i | 0 <= i < |u| ensures u[i] != 'e' { assert !OccursAt(u, "e", i); assert u[i..i + 1] == [u[i]]; }
      }
      match IndexOf(u, "E")
      case Some(j) => Some(j)
      case None =>
        assert forall i :: 0 <= i < |u| ==> u[i] != 'E' by {
          forall i | 0 <= i < |u| ensures u[i] != 'E' { assert !OccursAt(u, "E", i); assert u[i..i + 1] == [u[i]]; }
        }
        None
  }

  /** A character that is not there is not found. */
  lemma {:induction false} CharNotFound(u: string, c: char, start: nat)
    requires forall i :: start <= i < |u| ==> u[i] != c
    ensures IndexFrom(u, [c], start).None?
    decreases |u| - start
  {
    if start + 1 <= |u| {
      assert u[start..start + 1] == [u[start]];
      CharNotFound(u, c, start + 1);
    }
  }

  lemma NoExponentMark(u: string)
    requires forall i :: 0 <= i < |u| ==> u[i] != 'e' && u[i] != 'E'
    ensures ExponentMark(u).None?
  {
    CharNotFound(u, 'e', 0);
    CharNotFound(u, 'E', 0);
  }

  /** A StrUnsignedDecimalLiteral other than "Infinity": a mantissa and an
      optional exponent. */
  function UnsignedDecimal(u: string): Option<real>
  {
    match ExponentMark(u)
    case None => Mantissa(u)
    case Some(e) =>
      match (Mantissa(u[..e]), Exponent(u[e + 1..]))
      case (Some(x), Some(k)) => Some(Scale(x, k))
      case _ => None
  }

  predicate Negative(t: string) { t != "" && t[0] == '-' }

  /** `t` without its leading sign, if it has one. */
  function Unsigned(t: string): (u: string)
    ensures |u| <= |t| && u == t[|t| - |u|..]
  {
    if t != "" && (t[0] == '+' || t[0] == '-') then t[1..] else t
  }

  /** A StrDecimalLiteral: an optional sign, then "Infinity" or an unsigned
      decimal. */
  function SignedDecimal(t: string): JsNumber
  {
    var u := Unsigned(t);
    if u == "Infinity" then Infinite(Negative(t))
    else
      match UnsignedDecimal(u)
      case None => NaN
      case Some(x) => Finite(if Negative(t) then -x else x)
  }

  /** `Number(s)`, StringToNumber of section 7.1.4.1.1 of ECMA-262: white
      space around the literal is ignored and nothing at all is 0; then a
      hexadecimal, octal or binary integer ("0x1F", "0o17", "0b101", no
      sign), or a decimal literal; any other text is NaN. */
  function StringToNumber(s: string): JsNumber
  {
    var t := TrimEnd(TrimStart(s));
    if t == "" then Finite(0.0)
    else if |t| >= 2 && t[0] == '0' && (t[1] == 'x' || t[1] == 'X') then RadixNumber(t[2..], 16)
    else if |t| >= 2 && t[0] == '0' && (t[1] == 'o' || t[1] == 'O') then RadixNumber(t[2..], 8)
    else if |t| >= 2 && t[0] == '0' && (t[1] == 'b' || t[1] == 'B') then RadixNumber(t[2..], 2)
    else SignedDecimal(t)
  }
}
