/**
 * The slice of JavaScript's value semantics the front end relies on: loosely typed
 * values, truthiness, strict equality, Number() coercion, parseFloat, and the string
 * helpers trim, toLowerCase, includes and the \d / \s character classes.
 */
module Js {
  import opened Wrappers

  /** A JavaScript number. Infinities are not modelled (see README). */
  datatype Num = NaN | Fin(v: real)

  /** A JavaScript value as it reaches the core: ids, flags and form fields. */
  datatype JsVal = Undef | Null | Bool(b: bool) | N(n: Num) | S(s: string)

  predicate Truthy(x: JsVal) {
    match x
    case Undef => false
    case Null => false
    case Bool(b) => b
    case N(n) => n.Fin? && n.v != 0.0
    case S(s) => s != ""
  }

  /** `a === b`: same type and same value, and NaN equals nothing. */
  predicate StrictEq(a: JsVal, b: JsVal) {
    match a
    case N(NaN) => false
    case _ => a == b
  }

  lemma StrictEqNumbers(x: real, y: real)
    ensures StrictEq(N(Fin(x)), N(Fin(y))) <==> x == y
  {
  }

  // ---------------------------------------------------------------------------
  // Characters and strings

  /** The whitespace and line terminators that `\s` and `trim` treat as blank. */
  predicate IsSpace(c: char) {
    c == ' ' || c == '\t' || c == '\n' || c == '\r' || c == '\U{000B}' || c == '\U{000C}'
    || c == '\U{00A0}' || c == '\U{FEFF}' || c == '\U{2028}' || c == '\U{2029}'
  }

  /** `\d`: an ASCII decimal digit. */
  predicate IsDigit(c: char) {
    '0' <= c <= '9'
  }

  predicate AllDigits(s: string) {
    forall i :: 0 <= i < |s| ==> IsDigit(s[i])
  }

  predicate NoSpace(s: string) {
    forall i :: 0 <= i < |s| ==> !IsSpace(s[i])
  }

  /** `trimStart`: drop the leading blanks. */
  function TrimStart(s: string): string {
    if s != [] && IsSpace(s[0]) then TrimStart(s[1..]) else s
  }

  /** TrimStart removes exactly the leading blanks: a suffix that starts with a non-blank. */
  lemma {:induction false} TrimStartSpec(s: string)
    ensures var r := TrimStart(s);
            |r| <= |s| && r == s[|s| - |r|..]
            && (r == [] || !IsSpace(r[0]))
            && forall i :: 0 <= i < |s| - |r| ==> IsSpace(s[i])
  {
    if s != [] && IsSpace(s[0]) {
      TrimStartSpec(s[1..]);
    }
  }

  /** `trimEnd`: drop the trailing blanks. */
  function TrimEnd(s: string): string {
    if s != [] && IsSpace(s[|s| - 1]) then TrimEnd(s[..|s| - 1]) else s
  }

  /** TrimEnd removes exactly the trailing blanks: a prefix that ends in a non-blank. */
  lemma {:induction false} TrimEndSpec(s: string)
    ensures var r := TrimEnd(s);
            |r| <= |s| && r == s[..|r|]
            && (r == [] || !IsSpace(r[|r| - 1]))
            && forall i :: |r| <= i < |s| ==> IsSpace(s[i])
  {
    if s != [] && IsSpace(s[|s| - 1]) {
      TrimEndSpec(s[..|s| - 1]);
    }
  }

  /** `String.prototype.trim`. */
  function Trim(s: string): string {
    TrimEnd(TrimStart(s))
  }

  /** `!s.trim()`: the string is empty or made only of whitespace. */
  predicate IsBlank(s: string) {
    Trim(s) == ""
  }

  lemma BlankIsAllSpace(s: string)
    ensures IsBlank(s) <==> forall i :: 0 <= i < |s| ==> IsSpace(s[i])
  {
    var t := TrimStart(s);
    TrimStartSpec(s);
    TrimEndSpec(t);
    if forall i :: 0 <= i < |s| ==> IsSpace(s[i]) {
      assert t == [];
    } else {
      var k :| 0 <= k < |s| && !IsSpace(s[k]);
      assert k >= |s| - |t|;
      assert t != [] && !IsSpace(t[0]);
      assert TrimEnd(t) != [];
    }
  }

  /** `toLowerCase`, on the ASCII letters. */
  function Lower(c: char): char {
    if 'A' <= c <= 'Z' then (c as int + 32) as char else c
  }

  function LowerStr(s: string): (r: string)
    ensures |r| == |s| && forall i :: 0 <= i < |s| ==> r[i] == Lower(s[i])
  {
    if s == [] then [] else [Lower(s[0])] + LowerStr(s[1..])
  }

  /** `text.includes(q)`: q occurs in text as a contiguous slice. */
  predicate Includes(text: string, q: string) {
    q <= text || (text != [] && Includes(text[1..], q))
  }

  /** `s.replace(/\D/g, '')`: the digits of s, in order. */
  function DigitsOf(s: string): (r: string)
    ensures AllDigits(r) && |r| <= |s|
  {
    if s == [] then [] else (if IsDigit(s[0]) then [s[0]] else []) + DigitsOf(s[1..])
  }

  lemma DigitsOfAppend(a: string, b: string)
    ensures DigitsOf(a + b) == DigitsOf(a) + DigitsOf(b)
  {
    if a == [] {
      assert a + b == b;
    } else {
      assert (a + b)[1..] == a[1..] + b;
      DigitsOfAppend(a[1..], b);
    }
  }

  lemma DigitsOfDigits(s: string)
    requires AllDigits(s)
    ensures DigitsOf(s) == s
  {
    if s != [] {
      DigitsOfDigits(s[1..]);
    }
  }

  // ---------------------------------------------------------------------------
  // Decimal numerals

  function DigitValue(c: char): nat
    requires IsDigit(c)
  {
    c as int - '0' as int
  }

  function DigitChar(d: nat): (c: char)
    requires d < 10
    ensures IsDigit(c) && DigitValue(c) == d
  {
    ('0' as int + d) as char
  }

  /** The value of a string of decimal digits, most significant first. */
  function DigitsValue(s: string): nat
    requires AllDigits(s)
  {
    if s == [] then 0 else 10 * DigitsValue(s[..|s| - 1]) + DigitValue(s[|s| - 1])
  }

  function Pow10(n: nat): (r: nat)
    ensures r > 0
  {
    if n == 0 then 1 else 10 * Pow10(n - 1)
  }

  /** The decimal numeral of a natural number, without leading zeros. */
  function NatToString(n: nat): (r: string)
    ensures AllDigits(r) && r != []
  {
    if n < 10 then [DigitChar(n)] else NatToString(n / 10) + [DigitChar(n % 10)]
  }

  lemma {:induction false} NatToStringRoundTrip(n: nat)
    ensures DigitsValue(NatToString(n)) == n
  {
    if n >= 10 {
      NatToStringRoundTrip(n / 10);
      var s := NatToString(n);
      assert s[..|s| - 1] == NatToString(n / 10);
    }
  }

  /** `String(n)` for an integer. */
  function IntToString(n: int): string {
    if n < 0 then "-" + NatToString(-n) else NatToString(n)
  }

  /**
   * `String(x)`, as a template literal shows x. A number is shown by its integer
   * part; the shortest-decimal text of a fractional number is not modelled.
   */
  function JsText(x: JsVal): string {
    match x
    case Undef => "undefined"
    case Null => "null"
    case Bool(b) => if b then "true" else "false"
    case N(NaN) => "NaN"
    case N(Fin(v)) => IntToString(v.Floor)
    case S(s) => s
  }

  /** Number of leading decimal digits of s. */
  function LeadingDigits(s: string): (k: nat)
    ensures k <= |s| && AllDigits(s[..k])
    ensures k < |s| ==> !IsDigit(s[k])
  {
    if s != [] && IsDigit(s[0]) then
      var k := 1 + LeadingDigits(s[1..]);
      assert s[..k] == [s[0]] + s[1..][..k - 1];
      k
    else 0
  }

  /** An unsigned decimal literal `digits [. digits]` at the head of s. */
  datatype Decimal = Decimal(whole: string, frac: string, consumed: nat)

  function ScanDecimal(s: string): (d: Option<Decimal>)
    ensures d.Some? ==> AllDigits(d.value.whole) && AllDigits(d.value.frac)
    ensures d.Some? ==> 0 < d.value.consumed <= |s| && |d.value.whole| + |d.value.frac| > 0
  {
    var i := LeadingDigits(s);
    if i < |s| && s[i] == '.' then
      var j := LeadingDigits(s[i + 1..]);
      assert s[i + 1..][..j] == s[i + 1..i + 1 + j];
      if i + j == 0 then None else Some(Decimal(s[..i], s[i + 1..i + 1 + j], i + 1 + j))
    else if i == 0 then None
    else Some(Decimal(s[..i], "", i))
  }

  function DecimalValue(d: Decimal): real
    requires AllDigits(d.whole) && AllDigits(d.frac)
  {
    DigitsValue(d.whole) as real + DigitsValue(d.frac) as real / Pow10(|d.frac|) as real
  }

  lemma DecimalValueNonNegative(d: Decimal)
    requires AllDigits(d.whole) && AllDigits(d.frac)
    ensures DecimalValue(d) >= 0.0
  {
  }

  function Negate(n: Num): Num {
    if n.Fin? then Fin(-n.v) else NaN
  }

  /** A literal `[sign] decimal` that must fill all of s. */
  function SignedDecimal(s: string): Num {
    if s != [] && (s[0] == '+' || s[0] == '-') then
      var u := UnsignedDecimal(s[1..]);
      if s[0] == '-' then Negate(u) else u
    else UnsignedDecimal(s)
  }

  function UnsignedDecimal(s: string): Num {
    match ScanDecimal(s)
    case Some(d) => if d.consumed == |s| then Fin(DecimalValue(d)) else NaN
    case None => NaN
  }

  /** `Number(s)` for a string: blank is 0, a whole decimal literal is its value, else NaN. */
  function StringToNumber(s: string): Num {
    var t := Trim(s);
    if t == "" then Fin(0.0) else SignedDecimal(t)
  }

  /** `Number(x)`. */
  function ToNumber(x: JsVal): Num {
    match x
    case Undef => NaN
    case Null => Fin(0.0)
    case Bool(b) => Fin(if b then 1.0 else 0.0)
    case N(n) => n
    case S(s) => StringToNumber(s)
  }

  /** `typeof x === 'string' ? Number(x) : x`, the id coercion the pages repeat. */
  function CoerceStringId(x: JsVal): JsVal {
    if x.S? then N(StringToNumber(x.s)) else x
  }

  /** `isNaN(x) || x <= 0` with JavaScript's implicit coercion to number. */
  predicate NaNOrNotPositive(x: JsVal) {
    var n := ToNumber(x);
    n.NaN? || n.v <= 0.0
  }

  predicate IsInteger(r: real) {
    r.Floor as real == r
  }

  /** `parseFloat(s)`: the longest decimal literal after leading blanks, else NaN. */
  function ParseFloat(s: string): Num {
    var t := TrimStart(s);
    if t != [] && (t[0] == '+' || t[0] == '-') then
      var u := ParseUnsigned(t[1..]);
      if t[0] == '-' then Negate(u) else u
    else ParseUnsigned(t)
  }

  function ParseUnsigned(s: string): Num {
    match ScanDecimal(s)
    case Some(d) => Fin(DecimalValue(d))
    case None => NaN
  }

  lemma ParseAllDigits(s: string)
    requires AllDigits(s) && s != []
    ensures ParseUnsigned(s) == Fin(DigitsValue(s) as real)
  {
    var i := LeadingDigits(s);
    assert i == |s|;
    assert s[..i] == s;
    assert ScanDecimal(s) == Some(Decimal(s, "", |s|));
    assert DigitsValue("") == 0 && Pow10(0) == 1;
    assert DecimalValue(Decimal(s, "", |s|)) == DigitsValue(s) as real + 0.0 / 1.0;
  }

  // ---------------------------------------------------------------------------
  // split, join and replace with a one-character pattern

  /** Occurrences of c in s. */
  function Count(s: string, c: char): nat {
    if s == [] then 0 else (if s[0] == c then 1 else 0) + Count(s[1..], c)
  }

  lemma CountAppend(a: string, b: string, c: char)
    ensures Count(a + b, c) == Count(a, c) + Count(b, c)
  {
    if a == [] {
      assert a + b == b;
    } else {
      assert (a + b)[1..] == a[1..] + b;
      CountAppend(a[1..], b, c);
    }
  }

  lemma CountAbsent(s: string, c: char)
    ensures Count(s, c) == 0 <==> c !in s
  {
    if s != [] {
      CountAbsent(s[1..], c);
      assert c in s <==> s[0] == c || c in s[1..];
    }
  }

  /** `s.split(c)`: the pieces between the occurrences of c (always at least one). */
  function Split(s: string, c: char): (parts: seq<string>)
    ensures |parts| == Count(s, c) + 1
    ensures forall k :: 0 <= k < |parts| ==> c !in parts[k]
  {
    if s == [] then [""]
    else
      var rest := Split(s[1..], c);
      if s[0] == c then [""] + rest
      else
        assert c !in [s[0]] + rest[0];
        [[s[0]] + rest[0]] + rest[1..]
  }

  /** `parts.join(sep)`. */
  function Join(parts: seq<string>, sep: string): string {
    if parts == [] then ""
    else if |parts| == 1 then parts[0]
    else parts[0] + sep + Join(parts[1..], sep)
  }

  /** Splitting and joining back with the same character gives the string back. */
  lemma {:induction false} JoinSplit(s: string, c: char)
    ensures Join(Split(s, c), [c]) == s
  {
    if s != [] {
      JoinSplit(s[1..], c);
      var rest := Split(s[1..], c);
      if s[0] != c {
        var parts := Split(s, c);
        assert parts[0] == [s[0]] + rest[0] && parts[1..] == rest[1..];
        if |rest| == 1 {
          assert Join(parts, [c]) == [s[0]] + rest[0];
        } else {
          assert Join(parts, [c]) == [s[0]] + (rest[0] + [c] + Join(rest[1..], [c]));
        }
      } else {
        assert Split(s, c) == [""] + rest;
        assert Split(s, c)[1..] == rest;
      }
    }
  }

  /** The head of `s.split(c)` is the text before the first c. */
  lemma {:induction false} SplitHead(s: string, c: char)
    ensures c !in s ==> Split(s, c) == [s]
    ensures c in s ==> exists i :: 0 <= i < |s| && s[i] == c && c !in s[..i] && Split(s, c)[0] == s[..i]
  {
    if s != [] {
      SplitHead(s[1..], c);
      if s[0] == c {
        assert s[..0] == [];
      } else if c in s[1..] {
        var i :| 0 <= i < |s[1..]| && s[1..][i] == c && c !in s[1..][..i] && Split(s[1..], c)[0] == s[1..][..i];
        assert s[..i + 1] == [s[0]] + s[1..][..i];
      } else {
        assert s == [s[0]] + s[1..];
      }
    }
  }

  /** The joined pieces have the digits of the pieces when the separator has none. */
  lemma {:induction false} DigitsOfJoin(parts: seq<string>, sep: string)
    requires DigitsOf(sep) == ""
    ensures DigitsOf(Join(parts, sep)) == DigitsOf(Join(parts, ""))
  {
    if |parts| > 1 {
      DigitsOfJoin(parts[1..], sep);
      DigitsOfAppend(parts[0] + sep, Join(parts[1..], sep));
      DigitsOfAppend(parts[0], sep);
      DigitsOfAppend(parts[0] + "", Join(parts[1..], ""));
      assert parts[0] + "" == parts[0];
    }
  }

  /** Position of the first a in s, or |s| when there is none. */
  function FirstIndex(s: string, a: char): (i: nat)
    ensures i <= |s| && a !in s[..i]
    ensures i < |s| ==> s[i] == a
    ensures i == |s| ==> a !in s
  {
    if s == [] then 0
    else if s[0] == a then 0
    else
      var k := 1 + FirstIndex(s[1..], a);
      assert s[..k] == [s[0]] + s[1..][..k - 1];
      k
  }

  /** `s.replace(a, b)` with a one-character pattern: the first a becomes b. */
  function ReplaceFirst(s: string, a: char, b: char): (r: string)
    ensures |r| == |s|
    ensures a !in s ==> r == s
  {
    var i := FirstIndex(s, a);
    if i < |s| then s[..i] + [b] + s[i + 1..] else s
  }
}
