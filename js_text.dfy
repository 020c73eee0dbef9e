/** The parts of JavaScript's string and number semantics that data/logic.js
    relies on: `String(v)` of a parsed JSON value, `toLowerCase`,
    `substring`, `substr`, `parseInt(s, 16)`, the string-to-number
    conversion behind `==`, the `<` order on strings and `replace` with a
    one-character pattern. */
module JsText {
  import opened Base

  /** A value of a parsed JSON object: strings, booleans and integers. */
  datatype JsonValue = JString(s: string) | JBool(b: bool) | JInt(n: int)

  // ---------------------------------------------------------------------
  // Decimal digits

  predicate IsDigit(c: char) {
    '0' <= c <= '9'
  }

  predicate AllDigits(s: string) {
    forall k :: 0 <= k < |s| ==> IsDigit(s[k])
  }

  function DigitChar(d: nat): (c: char)
    requires d < 10
    ensures IsDigit(c)
  {
    (48 + d) as char
  }

  function DigitValue(c: char): (d: nat)
    requires IsDigit(c)
    ensures d < 10
  {
    c as int - 48
  }

  /** The number a non-empty run of decimal digits denotes. */
  function DecimalValue(s: string): nat
    requires AllDigits(s)
  {
    if s == [] then 0 else 10 * DecimalValue(s[..|s| - 1]) + DigitValue(s[|s| - 1])
  }

  /** `String(n)` for a non-negative integer: its shortest decimal form. */
  function NatToString(n: nat): (r: string)
    ensures |r| >= 1 && AllDigits(r)
    ensures r[0] == '0' ==> n == 0
  {
    if n < 10 then [DigitChar(n)]
    else
      var r := NatToString(n / 10) + [DigitChar(n % 10)];
      assert r[0] == NatToString(n / 10)[0];
      r
  }

  /** `String(n)` for an integer (JavaScript numbers print integers below
      10^21 this way). */
  function IntToString(n: int): (r: string)
    ensures |r| >= 1
    ensures r[0] == '-' <==> n < 0
  {
    if n < 0 then "-" + NatToString(-n) else NatToString(n)
  }

  lemma {:induction false} NatToStringValue(n: nat)
    ensures DecimalValue(NatToString(n)) == n
  {
    if n >= 10 {
      var r := NatToString(n);
      NatToStringValue(n / 10);
      assert r[..|r| - 1] == NatToString(n / 10);
    }
  }

  /** `String(v)` for a JSON value. */
  function ToJsString(v: JsonValue): string {
    match v
    case JString(s) => s
    case JBool(b) => if b then "true" else "false"
    case JInt(n) => IntToString(n)
  }

  // ---------------------------------------------------------------------
  // Case and sub-strings

  function LowerChar(c: char): char {
    if 'A' <= c <= 'Z' then (c as int + 32) as char else c
  }

  /** `s.toLowerCase()` on the ASCII letters. */
  function AsciiLower(s: string): (r: string)
    ensures |r| == |s|
    ensures forall k :: 0 <= k < |s| ==> r[k] == LowerChar(s[k])
  {
    seq(|s|, k requires 0 <= k < |s| => LowerChar(s[k]))
  }

  /** `String(v).toLowerCase() == "true"`, the test setData applies to
      checkboxes and to hiding DIVs. */
  predicate IsTrueString(v: JsonValue) {
    AsciiLower(ToJsString(v)) == "true"
  }

  /** For a boolean the test is its value. */
  lemma IsTrueBool(b: bool)
    ensures IsTrueString(JBool(b)) <==> b
  {
    if !b {
      assert AsciiLower("false")[0] == 'f';
    } else {
      assert AsciiLower("true") == "true";
    }
  }

  /** A number is never "true". */
  lemma IsTrueInt(n: int)
    ensures !IsTrueString(JInt(n))
  {
    var r := IntToString(n);
    if n < 0 {
      assert AsciiLower(r)[0] == '-';
    } else {
      assert IsDigit(r[0]);
      assert AsciiLower(r)[0] == r[0];
    }
  }

  /** A string passes exactly when it is "true" in any mix of cases. */
  lemma IsTrueText(s: string)
    ensures IsTrueString(JString(s)) <==>
      |s| == 4 && (s[0] == 't' || s[0] == 'T') && (s[1] == 'r' || s[1] == 'R')
      && (s[2] == 'u' || s[2] == 'U') && (s[3] == 'e' || s[3] == 'E')
  {
    var r := AsciiLower(s);
    if |s| == 4 {
      assert r == [r[0], r[1], r[2], r[3]];
      assert "true" == ['t', 'r', 'u', 'e'];
    }
  }

  function Clamp(i: int, len: nat): (r: nat)
    ensures r <= len
  {
    if i < 0 then 0 else if i > len then len else i
  }

  /** `s.substring(start, end)`: both bounds clamped to the string, then
      taken in increasing order. */
  function Substring(s: string, start: int, end: int): (r: string)
    ensures |r| <= |s|
  {
    var a := Clamp(start, |s|);
    var b := Clamp(end, |s|);
    if a <= b then s[a..b] else s[b..a]
  }

  /** `s.substring(0, n)` is the prefix of length n, or all of a shorter s. */
  lemma SubstringPrefix(s: string, n: nat)
    ensures Substring(s, 0, n) == if n <= |s| then s[..n] else s
    ensures Substring(s, 0, n) <= s
  {
  }

  /** `s.substr(start, length)`: `length` characters from `start`, a negative
      start counting from the end, both clamped to the string. */
  function Substr(s: string, start: int, length: int): (r: string)
    ensures |r| <= |s|
    ensures length >= 0 ==> |r| <= length
    ensures length <= 0 || start >= |s| ==> r == []
    ensures 0 <= start && 0 <= length && start + length <= |s| ==> r == s[start..start + length]
    ensures 0 <= start <= |s| <= start + length ==> r == s[start..]
    ensures -|s| <= start < 0 && 0 <= length <= -start ==> r == s[|s| + start..|s| + start + length]
    ensures -|s| <= start < 0 && length >= -start ==> r == s[|s| + start..]
    ensures start < -|s| && 0 <= length <= |s| ==> r == s[..length]
  {
    var a := if start < 0 then Clamp(|s| + start, |s|) else Clamp(start, |s|);
    var n := Clamp(length, |s| - a);
    s[a..a + n]
  }

  // ---------------------------------------------------------------------
  // Number parsing

  /** The characters `parseInt` and `Number` skip around a number: white
      space and line terminators of ECMAScript. */
  predicate IsJsSpace(c: char) {
    c == '\t' || c == '\n' || c == '\U{B}' || c == '\U{C}' || c == '\r' || c == ' '
    || c == '\U{A0}' || c == '\U{1680}' || ('\U{2000}' <= c <= '\U{200A}')
    || c == '\U{2028}' || c == '\U{2029}' || c == '\U{202F}' || c == '\U{205F}'
    || c == '\U{3000}' || c == '\U{FEFF}'
  }

  /** `s` without its leading white space. */
  function TrimStart(s: string): (r: string)
    ensures |r| <= |s| && r == s[|s| - |r|..]
    ensures r == [] || !IsJsSpace(r[0])
    ensures forall k :: 0 <= k < |s| - |r| ==> IsJsSpace(s[k])
  {
    if s != [] && IsJsSpace(s[0]) then
      var r := TrimStart(s[1..]);
      assert s[1..][|s| - 1 - |r|..] == s[|s| - |r|..];
      r
    else s
  }

  /** `s` without its trailing white space. */
  function TrimEnd(s: string): (r: string)
    ensures r <= s
    ensures r == [] || !IsJsSpace(r[|r| - 1])
    ensures forall k :: |r| <= k < |s| ==> IsJsSpace(s[k])
  {
    if s != [] && IsJsSpace(s[|s| - 1]) then TrimEnd(s[..|s| - 1]) else s
  }

  /** The value of `c` as a digit of base `radix` (2 to 16), if it is one;
      letters are accepted in either case. */
  function DigitIn(c: char, radix: nat): (d: Option<nat>)
    ensures d.Some? ==> d.value < radix
  {
    var v :=
      if '0' <= c <= '9' then c as int - 48
      else if 'a' <= c <= 'f' then c as int - 87
      else if 'A' <= c <= 'F' then c as int - 55
      else 16;
    if v < radix then Some(v) else None
  }

  predicate AllDigitsIn(s: string, radix: nat) {
    forall k :: 0 <= k < |s| ==> DigitIn(s[k], radix).Some?
  }

  /** The number a run of base-`radix` digits denotes. */
  function ValueIn(s: string, radix: nat): nat
    requires AllDigitsIn(s, radix)
  {
    if s == [] then 0
    else radix * ValueIn(s[..|s| - 1], radix) + DigitIn(s[|s| - 1], radix).value
  }

  /** The longest prefix of `s` made of base-`radix` digits. */
  function DigitPrefix(s: string, radix: nat): (r: string)
    ensures r <= s && AllDigitsIn(r, radix)
    ensures |r| < |s| ==> DigitIn(s[|r|], radix).None?
  {
    if s != [] && DigitIn(s[0], radix).Some? then
      var r := [s[0]] + DigitPrefix(s[1..], radix);
      assert forall k :: 1 <= k < |r| ==> r[k] == DigitPrefix(s[1..], radix)[k - 1];
      r
    else []
  }

  /** `parseInt(s, 16)`, None standing for NaN: leading white space is
      skipped, then a sign, then an optional `0x`/`0X`; the longest run of hex
      digits that follows is the number, and without one the result is NaN. */
  function ParseInt16(s: string): Option<int> {
    var t := TrimStart(s);
    var negative := t != [] && t[0] == '-';
    var u := if t != [] && (t[0] == '-' || t[0] == '+') then t[1..] else t;
    var w := if |u| >= 2 && u[0] == '0' && (u[1] == 'x' || u[1] == 'X') then u[2..] else u;
    var z := DigitPrefix(w, 16);
    if z == [] then None
    else
      var v: int := ValueIn(z, 16);
      Some(if negative then -v else v)
  }

  /** `String(x)` of a `parseInt` result. */
  function NumberToString(x: Option<int>): string {
    match x
    case None => "NaN"
    case Some(n) => IntToString(n)
  }

  /** The lower-case hex digit of `d`. */
  function HexChar(d: nat): (c: char)
    requires d < 16
    ensures DigitIn(c, 16) == Some(d)
  {
    if d < 10 then (48 + d) as char else (87 + d) as char
  }

  /** A byte as the two hex digits of a colour component. */
  function HexByte(n: nat): (r: string)
    requires n < 256
    ensures |r| == 2
  {
    [HexChar(n / 16), HexChar(n % 16)]
  }

  /** The digits of a colour component parse back to its value. */
  lemma ParseHexByte(n: nat)
    requires n < 256
    ensures ParseInt16(HexByte(n)) == Some(n)
  {
    var h := HexByte(n);
    assert TrimStart(h) == h;
    assert DigitPrefix(h[1..], 16) == h[1..];
    assert DigitPrefix(h, 16) == h;
    assert h[..1] == [h[0]];
    assert ValueIn(h[..1], 16) == n / 16;
  }

  /** For two hex digits in either case, parseInt gives 16 * high + low. */
  lemma ParseTwoHexDigits(s: string)
    requires |s| == 2 && DigitIn(s[0], 16).Some? && DigitIn(s[1], 16).Some?
    ensures ParseInt16(s) == Some(16 * DigitIn(s[0], 16).value + DigitIn(s[1], 16).value)
    ensures 0 <= ParseInt16(s).value < 256
  {
    assert !IsJsSpace(s[0]);
    assert TrimStart(s) == s;
    assert DigitPrefix(s[1..], 16) == s[1..];
    assert DigitPrefix(s, 16) == s;
    assert s[..1] == [s[0]];
    assert ValueIn(s[..1], 16) == DigitIn(s[0], 16).value;
    assert ValueIn(s, 16) == 16 * ValueIn(s[..1], 16) + DigitIn(s[1], 16).value;
  }

  /** `Number(s)` for the strings that denote integers: after trimming white
      space, the empty string is 0, a signed run of decimal digits is its
      value and `0x`, `0o` or `0b` followed by digits of that base is theirs.
      Everything else gives None. */
  function ToNumber(s: string): Option<int> {
    var t := TrimEnd(TrimStart(s));
    if t == [] then Some(0)
    else if |t| > 2 && t[0] == '0' && RadixOf(t[1]).Some? && AllDigitsIn(t[2..], RadixOf(t[1]).value) then
      Some(ValueIn(t[2..], RadixOf(t[1]).value))
    else
      var negative := t[0] == '-';
      var digits := if t[0] == '-' || t[0] == '+' then t[1..] else t;
      if digits != [] && AllDigits(digits) then
        var v: int := DecimalValue(digits);
        Some(if negative then -v else v)
      else None
  }

  /** The base selected by the letter after a leading `0`. */
  function RadixOf(c: char): (r: Option<nat>)
    ensures r.Some? ==> 2 <= r.value <= 16
  {
    if c == 'x' || c == 'X' then Some(16)
    else if c == 'o' || c == 'O' then Some(8)
    else if c == 'b' || c == 'B' then Some(2)
    else None
  }

  /** The decimal form of a number converts back to it. */
  lemma ToNumberOfIntToString(n: int)
    ensures ToNumber(IntToString(n)) == Some(n)
  {
    if n < 0 {
      NegativeDecimal(n);
    } else {
      NonNegativeDecimal(n);
    }
  }

  /** A string with no white space at either end is its own trimmed form. */
  lemma Untrimmed(t: string)
    requires t != [] && !IsJsSpace(t[0]) && !IsJsSpace(t[|t| - 1])
    ensures TrimEnd(TrimStart(t)) == t
  {
    assert TrimStart(t) == t;
  }

  lemma NonNegativeDecimal(n: int)
    requires n >= 0
    ensures ToNumber(IntToString(n)) == Some(n)
  {
    var r := NatToString(n);
    assert IntToString(n) == r;
    NatToStringValue(n);
    if n == 0 {
      assert r == "0";
    }
    UnsignedDecimal(r);
  }

  lemma NegativeDecimal(n: int)
    requires n < 0
    ensures ToNumber(IntToString(n)) == Some(n)
  {
    var digits := NatToString(-n);
    NatToStringValue(-n);
    SignedDecimal(digits, -n);
    assert IntToString(n) == "-" + digits;
  }

  /** A run of decimal digits without a leading zero converts to its value. */
  lemma UnsignedDecimal(t: string)
    requires t != [] && AllDigits(t)
    requires t[0] == '0' ==> |t| == 1
    ensures ToNumber(t) == Some(DecimalValue(t))
  {
    Untrimmed(t);
  }

  /** A minus sign followed by decimal digits converts to the negated value. */
  lemma SignedDecimal(digits: string, m: nat)
    requires digits != [] && AllDigits(digits) && DecimalValue(digits) == m
    ensures ToNumber("-" + digits) == Some(-(m as int))
  {
    var t := "-" + digits;
    assert t[|t| - 1] == digits[|digits| - 1];
    Untrimmed(t);
    assert t[1..] == digits;
  }

  /** `value == data` for an element's value string and a JSON value: two
      strings are compared as they are, a boolean or a number through the
      number the string converts to (a boolean counting as 1 or 0). */
  predicate LooseEquals(value: string, data: JsonValue) {
    match data
    case JString(t) => value == t
    case JBool(b) => ToNumber(value) == Some(if b then 1 else 0)
    case JInt(n) => ToNumber(value) == Some(n)
  }

  /** A number's decimal form equals the number. */
  lemma LooseEqualsOwnDecimal(n: int)
    ensures LooseEquals(IntToString(n), JInt(n))
  {
    ToNumberOfIntToString(n);
  }

  /** The string "1" equals the boolean true, */
  lemma OneEqualsTrue()
    ensures LooseEquals("1", JBool(true))
  {
    var t := "1";
    assert !IsJsSpace(t[0]);
    assert TrimStart(t) == t;
    assert TrimEnd(t) == t;
    assert t[..0] == [];
  }

  /** but the string "true" does not: it converts to NaN. */
  lemma TrueTextIsNotTrue()
    ensures !LooseEquals("true", JBool(true))
  {
    var t := "true";
    assert !IsJsSpace(t[0]) && !IsJsSpace(t[3]);
    assert TrimStart(t) == t;
    assert TrimEnd(t) == t;
    assert !IsDigit(t[0]);
  }

  // ---------------------------------------------------------------------
  // Ordering and replacement

  /** `a < b` on strings: `a` is a proper prefix of `b`, or the first
      character where they differ is smaller in `a`. */
  predicate LexLess(a: string, b: string) {
    if a == [] then b != []
    else if b == [] then false
    else if a[0] != b[0] then a[0] < b[0]
    else LexLess(a[1..], b[1..])
  }

  /** Nothing is smaller than the empty string. */
  lemma NothingBelowEmpty(a: string)
    ensures !LexLess(a, "")
  {
  }

  lemma {:induction false} LexLessIrreflexive(a: string)
    ensures !LexLess(a, a)
  {
    if a != [] {
      LexLessIrreflexive(a[1..]);
    }
  }

  lemma {:induction false} LexLessAsymmetric(a: string, b: string)
    requires LexLess(a, b)
    ensures !LexLess(b, a)
  {
    if a != [] && b != [] && a[0] == b[0] {
      LexLessAsymmetric(a[1..], b[1..]);
    }
  }

  lemma {:induction false} LexLessTransitive(a: string, b: string, c: string)
    requires LexLess(a, b) && LexLess(b, c)
    ensures LexLess(a, c)
  {
    if a != [] && a[0] == b[0] && b[0] == c[0] {
      LexLessTransitive(a[1..], b[1..], c[1..]);
    }
  }

  lemma {:induction false} LexLessTotal(a: string, b: string)
    requires a != b
    ensures LexLess(a, b) || LexLess(b, a)
  {
    if a != [] && b != [] && a[0] == b[0] {
      assert a == [a[0]] + a[1..] && b == [b[0]] + b[1..];
      LexLessTotal(a[1..], b[1..]);
    }
  }

  /** `s.replace(c, "")` for a one-character pattern. */
  function RemoveFirst(s: string, c: char): string {
    match IndexOf(s, c)
    case None => s
    case Some(i) => s[..i] + s[i + 1..]
  }

  /** Without `c` the string is unchanged; otherwise exactly one `c` is
      removed. */
  lemma RemoveFirstRemovesOne(s: string, c: char)
    ensures c !in s ==> RemoveFirst(s, c) == s
    ensures c in s ==> |RemoveFirst(s, c)| == |s| - 1
                       && multiset(RemoveFirst(s, c)) == multiset(s) - multiset{c}
  {
    if c in s {
      var i := IndexOf(s, c).value;
      assert s == s[..i] + [s[i]] + s[i + 1..];
    }
  }

  /** The removed character is the first one: what precedes it is kept
      whole, and a second occurrence survives. */
  lemma RemoveFirstKeepsPrefix(s: string, c: char, i: nat)
    requires i < |s| && s[i] == c && c !in s[..i]
    ensures RemoveFirst(s, c) == s[..i] + s[i + 1..]
    ensures c in s[i + 1..] ==> c in RemoveFirst(s, c)
  {
  }
}
