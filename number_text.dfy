/**
 * The pieces of JavaScript number semantics the dashboard relies on, for
 * integers: `Math.floor(a / b)`, the remainder operator `%` (which
 * truncates toward zero), `Number.prototype.toString()`,
 * `String.prototype.padStart` and the global `parseInt` without a radix.
 */
module NumberText {
  import opened Wrappers

  /** `Math.floor(a / b)` for a positive divisor. */
  function FloorDiv(a: int, b: int): (q: int)
    requires b > 0
    ensures q * b <= a < q * b + b
  {
    a / b
  }

  /** `a % b` in JavaScript: the sign follows the dividend. */
  function Rem(a: int, b: int): (r: int)
    requires b > 0
    ensures a >= 0 ==> 0 <= r < b
    ensures a < 0 ==> -b < r <= 0
    ensures a >= 0 ==> a == FloorDiv(a, b) * b + r
    ensures a < 0 ==> a == -(FloorDiv(-a, b) * b) + r
  {
    if a >= 0 then a % b else -((-a) % b)
  }

  predicate IsDigit(c: char) {
    '0' <= c <= '9'
  }

  predicate IsDigits(s: string) {
    forall i :: 0 <= i < |s| ==> IsDigit(s[i])
  }

  function DigitChar(d: nat): (c: char)
    requires d < 10
    ensures IsDigit(c) && DigitValue(c) == d
  {
    (('0' as int) + d) as char
  }

  /** The value of a digit of a radix up to 36: 0-9, then a/A = 10 and so on; 36 for anything else. */
  function DigitValue(c: char): (v: nat)
    ensures v <= 36
    ensures IsDigit(c) <==> v < 10
  {
    if '0' <= c <= '9' then c as int - '0' as int
    else if 'a' <= c <= 'z' then c as int - 'a' as int + 10
    else if 'A' <= c <= 'Z' then c as int - 'A' as int + 10
    else 36
  }

  predicate IsRadixDigit(c: char, radix: nat) {
    DigitValue(c) < radix
  }

  /** `v * radix` for the two radixes `parseInt` picks by itself, written without a product of unknowns. */
  function Shift(v: nat, radix: nat): nat {
    if radix == 16 then 16 * v else 10 * v
  }

  /** The value of a string of digits of base 10, or of base 16 when `radix` is 16, read most significant first. */
  function ValueOf(ds: string, radix: nat): nat {
    if ds == [] then 0
    else Shift(ValueOf(ds[..|ds| - 1], radix), radix) + DigitValue(ds[|ds| - 1])
  }

  /** The decimal text of a natural number, without leading zeros. */
  function NatToString(n: nat): (s: string)
    ensures |s| >= 1 && IsDigits(s)
    ensures |s| > 1 ==> s[0] != '0'
    ensures n < 10 <==> |s| == 1
    ensures 10 <= n < 100 <==> |s| == 2
    decreases n
  {
    if n < 10 then [DigitChar(n)] else NatToString(n / 10) + [DigitChar(n % 10)]
  }

  /** `i.toString()` for an integer. */
  function IntToString(i: int): string {
    if i < 0 then "-" + NatToString(-i) else NatToString(i)
  }

  /** `s.padStart(width, fill)` for a one-character fill. */
  function PadStart(s: string, width: nat, fill: char): (r: string)
    ensures |r| == if |s| >= width then |s| else width
    ensures r[|r| - |s|..] == s
    ensures forall i :: 0 <= i < |r| - |s| ==> r[i] == fill
  {
    if |s| >= width then s else seq(width - |s|, _ => fill) + s
  }

  /**
   * The characters `parseInt` skips before the number: the ECMAScript
   * white space (tab, vertical tab, form feed, space, no-break space, byte
   * order mark and the other Unicode space separators) and line terminators.
   */
  predicate IsJsWhitespace(c: char) {
    c == '\t' || c == '\n' || c == '\U{B}' || c == '\U{C}' || c == '\r' || c == ' '
    || c == '\U{A0}' || c == '\U{1680}' || ('\U{2000}' <= c <= '\U{200A}')
    || c == '\U{2028}' || c == '\U{2029}' || c == '\U{202F}' || c == '\U{205F}'
    || c == '\U{3000}' || c == '\U{FEFF}'
  }

  predicate AllWhitespace(s: string) {
    forall i :: 0 <= i < |s| ==> IsJsWhitespace(s[i])
  }

  /** The string without its leading white space. */
  function TrimStart(s: string): string {
    if s != [] && IsJsWhitespace(s[0]) then TrimStart(s[1..]) else s
  }

  /** The length of the longest prefix of `s` made of digits of `radix`. */
  function DigitRun(s: string, radix: nat): (n: nat)
    ensures n <= |s|
  {
    if s == [] || !IsRadixDigit(s[0], radix) then 0 else 1 + DigitRun(s[1..], radix)
  }

  /** The text after an optional leading sign. */
  function Unsigned(t: string): string {
    if t != [] && (t[0] == '-' || t[0] == '+') then t[1..] else t
  }

  /** A `0x` or `0X` prefix switches `parseInt` without a radix to base 16. */
  predicate HexPrefixed(u: string) {
    |u| >= 2 && u[0] == '0' && (u[1] == 'x' || u[1] == 'X')
  }

  /**
   * The number at the start of sign-free text: base 16 after `0x`, base 10
   * otherwise, read over the longest run of digits; None when that run is
   * empty.
   */
  function ParseMagnitude(u: string): Option<nat> {
    var radix := if HexPrefixed(u) then 16 else 10;
    var body := if HexPrefixed(u) then u[2..] else u;
    var n := DigitRun(body, radix);
    if n == 0 then None else Some(ValueOf(body[..n], radix))
  }

  /** The number at the start of text that has no leading white space: an optional sign, then the magnitude. */
  function ParseSigned(t: string): Option<int> {
    match ParseMagnitude(Unsigned(t))
    case None => None
    case Some(v) => Some(if t != [] && t[0] == '-' then -(v as int) else v as int)
  }

  /**
   * `parseInt(s)`: skip leading white space, take an optional sign, then
   * read the magnitude; None stands for NaN.
   */
  function ParseInt(s: string): (r: Option<int>)
    ensures var u := Unsigned(TrimStart(s));
      r.Some? <==> if HexPrefixed(u) then |u| > 2 && IsRadixDigit(u[2], 16) else u != [] && IsDigit(u[0])
  {
    ParseSigned(TrimStart(s))
  }

  /** What TrimStart removes is white space, and what it keeps does not start with any. */
  lemma {:induction false} TrimStartSpec(s: string)
    ensures var r := TrimStart(s);
      && |r| <= |s| && r == s[|s| - |r|..]
      && (r != [] ==> !IsJsWhitespace(r[0]))
      && AllWhitespace(s[..|s| - |r|])
  {
    if s != [] && IsJsWhitespace(s[0]) {
      TrimStartSpec(s[1..]);
      var r := TrimStart(s);
      assert s[1..][|s| - 1 - |r|..] == s[|s| - |r|..];
      assert s[..|s| - |r|] == [s[0]] + s[1..][..|s| - 1 - |r|];
    }
  }

  /** Text without a single decimal digit is not a number: `parseInt` gives NaN. */
  lemma NoDigitsParsesAsNaN(s: string)
    requires forall i :: 0 <= i < |s| ==> !IsDigit(s[i])
    ensures ParseInt(s) == None
  {
    TrimStartSpec(s);
    var t := TrimStart(s);
    var u := Unsigned(t);
    assert u == [] || u == s[|s| - |u|..];
    assert u == [] || !IsDigit(u[0]);
  }

  lemma {:induction false} ValueOfNatToString(n: nat)
    ensures ValueOf(NatToString(n), 10) == n
    decreases n
  {
    var s := NatToString(n);
    if n >= 10 {
      ValueOfNatToString(n / 10);
      assert s[..|s| - 1] == NatToString(n / 10);
    }
  }

  lemma {:induction false} DigitRunOfDigits(p: string, rest: string)
    requires IsDigits(p)
    requires rest == [] || !IsDigit(rest[0])
    ensures DigitRun(p + rest, 10) == |p|
  {
    if p != [] {
      assert (p + rest)[1..] == p[1..] + rest;
      DigitRunOfDigits(p[1..], rest);
    }
  }

  /**
   * The magnitude reads back what `toString` writes, whatever text follows
   * the number as long as it cannot continue it: no digit, and no `x` after
   * a lone `0`, which would make it a hexadecimal prefix.
   */
  lemma ParseMagnitudeOfNatToString(m: nat, rest: string)
    requires rest == [] || (!IsDigit(rest[0]) && (m == 0 ==> rest[0] != 'x' && rest[0] != 'X'))
    ensures ParseMagnitude(NatToString(m) + rest) == Some(m)
  {
    var p := NatToString(m);
    if m != 0 && |p| == 1 {
      assert p[0] == DigitChar(m);
    }
    assert !HexPrefixed(p + rest);
    DigitRunOfDigits(p, rest);
    assert (p + rest)[..|p|] == p;
    ValueOfNatToString(m);
  }

  /**
   * `parseInt` reads back what `toString` writes, whatever text follows the
   * number as long as it cannot continue it: no digit, and no `x` after the
   * text "0".
   */
  lemma ParseIntOfIntToString(n: int, rest: string)
    requires rest == [] || (!IsDigit(rest[0]) && (n == 0 ==> rest[0] != 'x' && rest[0] != 'X'))
    ensures ParseInt(IntToString(n) + rest) == Some(n)
  {
    var s := IntToString(n) + rest;
    assert s[0] == '-' || IsDigit(s[0]);
    assert TrimStart(s) == s;
    ParseSignedOfIntToString(n, rest);
  }

  lemma ParseSignedOfIntToString(n: int, rest: string)
    requires rest == [] || (!IsDigit(rest[0]) && (n == 0 ==> rest[0] != 'x' && rest[0] != 'X'))
    ensures ParseSigned(IntToString(n) + rest) == Some(n)
  {
    if n < 0 {
      ParseSignedOfNegative(-n, rest);
    } else {
      ParseSignedOfNatural(n, rest);
    }
  }

  lemma ParseSignedOfNegative(m: nat, rest: string)
    requires m > 0
    requires rest == [] || !IsDigit(rest[0])
    ensures ParseSigned("-" + NatToString(m) + rest) == Some(-(m as int))
  {
    var u := NatToString(m) + rest;
    var t := "-" + u;
    assert "-" + NatToString(m) + rest == t;
    assert t[0] == '-' && t[1..] == u;
    ParseMagnitudeOfNatToString(m, rest);
    assert ParseMagnitude(Unsigned(t)) == Some(m);
  }

  lemma ParseSignedOfNatural(m: nat, rest: string)
    requires rest == [] || (!IsDigit(rest[0]) && (m == 0 ==> rest[0] != 'x' && rest[0] != 'X'))
    ensures ParseSigned(NatToString(m) + rest) == Some(m)
  {
    var u := NatToString(m) + rest;
    assert IsDigit(u[0]);
    assert Unsigned(u) == u;
    ParseMagnitudeOfNatToString(m, rest);
  }

  /**
   * A run of decimal digits, leading zeros included, reads as its decimal
   * value when nothing after it can continue it: no digit, and no `x` after
   * a lone "0".
   */
  lemma ParseIntOfDigits(p: string, rest: string)
    requires p != [] && IsDigits(p)
    requires rest == [] || (!IsDigit(rest[0]) && (p == "0" ==> rest[0] != 'x' && rest[0] != 'X'))
    ensures ParseInt(p + rest) == Some(ValueOf(p, 10))
  {
    var s := p + rest;
    assert s[0] == p[0];
    assert TrimStart(s) == s;
    assert Unsigned(s) == s;
    assert !HexPrefixed(s);
    DigitRunOfDigits(p, rest);
    assert s[..|p|] == p;
  }

  /** Leading white space does not change what `parseInt` reads. */
  lemma {:induction false} ParseIntSkipsWhitespace(ws: string, s: string)
    requires AllWhitespace(ws)
    ensures ParseInt(ws + s) == ParseInt(s)
  {
    TrimStartSkips(ws, s);
  }

  lemma {:induction false} TrimStartSkips(ws: string, s: string)
    requires AllWhitespace(ws)
    ensures TrimStart(ws + s) == TrimStart(s)
  {
    if ws != [] {
      assert (ws + s)[1..] == ws[1..] + s;
      TrimStartSkips(ws[1..], s);
    } else {
      assert ws + s == s;
    }
  }
}
