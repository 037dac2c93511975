/** Value-level models of the JavaScript built-ins that the storefront's
    catalog code leans on: truthiness, ASCII lower-casing, substring search,
    `split`, `Array.prototype.slice(0, n)`, `parseInt`, `Number` on digit
    strings, integer-to-string conversion, `Math.round` and a lexicographic
    stand-in for `localeCompare`. */
module JsRuntime {

  datatype Option<T> = None | Some(value: T)

  // ---------------------------------------------------------------------
  // Truthiness

  /** A string that may be `null`/`undefined` is truthy iff it is present and non-empty. */
  predicate TruthyString(o: Option<string>) { o.Some? && o.value != "" }

  /** An optional number is truthy iff it is present and non-zero (NaN is not modelled). */
  predicate TruthyInt(o: Option<int>) { o.Some? && o.value != 0 }

  predicate TruthyReal(o: Option<real>) { o.Some? && o.value != 0.0 }

  /** `x || undefined` on an optional string. */
  function OrUndefined(o: Option<string>): (r: Option<string>)
    ensures r.Some? <==> TruthyString(o)
    ensures r.Some? ==> r == o
  {
    if TruthyString(o) then o else None
  }

  // ---------------------------------------------------------------------
  // String.prototype.toLowerCase, restricted to ASCII letters

  predicate IsUpper(c: char) { 'A' <= c <= 'Z' }

  function LowerChar(c: char): char {
    if IsUpper(c) then (c as int + 32) as char else c
  }

  function ToLower(s: string): (r: string)
    ensures |r| == |s|
    ensures forall i :: 0 <= i < |r| ==> !IsUpper(r[i])
    ensures forall i :: 0 <= i < |s| && !IsUpper(s[i]) ==> r[i] == s[i]
  {
    seq(|s|, i requires 0 <= i < |s| => LowerChar(s[i]))
  }

  /** Lower-casing twice is lower-casing once. */
  lemma ToLowerIdempotent(s: string)
    ensures ToLower(ToLower(s)) == ToLower(s)
  {
  }

  // ---------------------------------------------------------------------
  // String.prototype.includes

  /** `s.includes(t)`: `t` occurs in `s` at some position. */
  predicate Includes(s: string, t: string) {
    exists i :: 0 <= i <= |s| - |t| && t <= s[i..]
  }

  /** The empty string is included in every string, which is why an empty
      search term matches every product. */
  lemma IncludesEmpty(s: string)
    ensures Includes(s, "")
  {
    assert "" <= s[0..];
  }

  // ---------------------------------------------------------------------
  // String.prototype.split with a one-character separator, and its inverse

  function Split(s: string, sep: char): (r: seq<string>)
    ensures |r| >= 1
    ensures forall k :: 0 <= k < |r| ==> sep !in r[k]
  {
    if s == [] then [""]
    else
      var rest := Split(s[1..], sep);
      if s[0] == sep then [""] + rest else [[s[0]] + rest[0]] + rest[1..]
  }

  function Join(parts: seq<string>, sep: char): string {
    if |parts| == 0 then ""
    else if |parts| == 1 then parts[0]
    else parts[0] + [sep] + Join(parts[1..], sep)
  }

  /** Joining the pieces of a split with the same separator gives back the string. */
  lemma {:induction false} JoinSplit(s: string, sep: char)
    ensures Join(Split(s, sep), sep) == s
  {
    if s != [] {
      var rest := Split(s[1..], sep);
      JoinSplit(s[1..], sep);
      if s[0] == sep {
        assert Split(s, sep) == [""] + rest;
        assert ([""] + rest)[1..] == rest;
      } else {
        var parts := [[s[0]] + rest[0]] + rest[1..];
        assert Split(s, sep) == parts;
        if |rest| == 1 {
          assert Join(parts, sep) == [s[0]] + rest[0];
        } else {
          assert parts[1..] == rest[1..];
          assert Join(rest, sep) == rest[0] + [sep] + Join(rest[1..], sep);
        }
      }
    }
  }

  /** A string without the separator splits into itself. */
  lemma {:induction false} SplitNoSeparator(a: string, sep: char)
    requires sep !in a
    ensures Split(a, sep) == [a]
  {
    if a != [] {
      SplitNoSeparator(a[1..], sep);
      assert [a[0]] + a[1..] == a;
    }
  }

  /** Splitting `a + sep + b`, where `a` has no separator, yields `a` followed by
      the pieces of `b`. */
  lemma {:induction false} SplitAround(a: string, b: string, sep: char)
    requires sep !in a
    ensures Split(a + [sep] + b, sep) == [a] + Split(b, sep)
  {
    var s := a + [sep] + b;
    if a == [] {
      assert s[0] == sep && s[1..] == b;
    } else {
      assert s[0] == a[0] && s[1..] == a[1..] + [sep] + b;
      SplitAround(a[1..], b, sep);
      assert [a[0]] + a[1..] == a;
    }
  }

  // ---------------------------------------------------------------------
  // Array.prototype.slice(0, end)

  /** `s.slice(0, end)`: a negative end counts from the back, and both ends
      are clamped to the array. */
  function SlicePrefix<T>(s: seq<T>, end: int): (r: seq<T>)
    ensures |r| <= |s| && r == s[..|r|]
    ensures end >= 0 ==> |r| == if end < |s| then end else |s|
    ensures end < 0 ==> |r| == if |s| + end > 0 then |s| + end else 0
  {
    if end >= 0 then (if end < |s| then s[..end] else s)
    else if |s| + end > 0 then s[..|s| + end]
    else []
  }

  // ---------------------------------------------------------------------
  // Digits, Number.prototype.toString for integers, parseInt and Number

  /** The value of an ASCII digit or letter as a digit (letters from 10), or -1. */
  function DigitValue(c: char): int {
    if '0' <= c <= '9' then c as int - '0' as int
    else if 'a' <= c <= 'z' then c as int - 'a' as int + 10
    else if 'A' <= c <= 'Z' then c as int - 'A' as int + 10
    else -1
  }

  predicate IsDigitIn(c: char, radix: nat) { 0 <= DigitValue(c) < radix }

  lemma ProductOfNats(a: nat, b: nat)
    ensures a * b >= 0
  {
  }

  /** The value of a digit string read in the given radix, most significant digit first. */
  function DigitsValue(s: string, radix: nat): nat
    requires forall i :: 0 <= i < |s| ==> IsDigitIn(s[i], radix)
  {
    if s == [] then 0
    else
      var high := DigitsValue(s[..|s| - 1], radix);
      ProductOfNats(high, radix);
      assert IsDigitIn(s[|s| - 1], radix);
      high * radix + DigitValue(s[|s| - 1])
  }

  /** Length of the longest prefix of `s` made of digits of the radix. */
  function DigitRun(s: string, radix: nat): (n: nat)
    ensures n <= |s|
    ensures forall i :: 0 <= i < n ==> IsDigitIn(s[i], radix)
    ensures n < |s| ==> !IsDigitIn(s[n], radix)
  {
    if s == [] || !IsDigitIn(s[0], radix) then 0 else 1 + DigitRun(s[1..], radix)
  }

  function DigitChar(d: nat): char
    requires d < 10
  {
    ('0' as int + d) as char
  }

  /** Decimal rendering of a natural number, without leading zeros. */
  function NatToString(n: nat): (s: string)
    ensures |s| >= 1
    ensures forall i :: 0 <= i < |s| ==> '0' <= s[i] <= '9'
  {
    if n < 10 then [DigitChar(n)] else NatToString(n / 10) + [DigitChar(n % 10)]
  }

  /** `n.toString()` for an integer. */
  function IntToString(n: int): string {
    if n < 0 then "-" + NatToString(-n) else NatToString(n)
  }

  /** The white-space characters that `parseInt` and `Number` skip: tab,
      vertical tab, form feed, space, NBSP, BOM, the other space separators,
      and the four line terminators. */
  predicate IsWhite(c: char) {
    c == ' ' || c == '\t' || c == '\n' || c == '\r' || c == '\U{B}' || c == '\U{C}'
    || c == '\U{A0}' || c == '\U{FEFF}' || c == '\U{2028}' || c == '\U{2029}'
    || c == '\U{1680}' || ('\U{2000}' <= c <= '\U{200A}') || c == '\U{202F}'
    || c == '\U{205F}' || c == '\U{3000}'
  }

  function TrimStart(s: string): (r: string)
    ensures |r| <= |s| && r == s[|s| - |r|..]
    ensures r != [] ==> !IsWhite(r[0])
  {
    if s != [] && IsWhite(s[0]) then TrimStart(s[1..]) else s
  }

  function TrimEnd(s: string): (r: string)
    ensures |r| <= |s| && r == s[..|r|]
    ensures r != [] ==> !IsWhite(r[|r| - 1])
  {
    if s != [] && IsWhite(s[|s| - 1]) then TrimEnd(s[..|s| - 1]) else s
  }

  /** The unsigned part of `parseInt`: hexadecimal after a `0x`/`0X` prefix,
      decimal otherwise, up to the first non-digit; no digit at all is NaN (None). */
  function ParseUnsigned(u: string): Option<nat> {
    var hex := |u| >= 2 && u[0] == '0' && (u[1] == 'x' || u[1] == 'X');
    var radix := if hex then 16 else 10;
    var w := if hex then u[2..] else u;
    var k := DigitRun(w, radix);
    if k == 0 then None else Some(DigitsValue(w[..k], radix))
  }

  /** `parseInt(s)` with no radix argument: skip leading white space, read an
      optional sign, then the unsigned part. */
  function ParseInt(s: string): Option<int> {
    var t := TrimStart(s);
    var negative := t != [] && t[0] == '-';
    var u := if t != [] && (t[0] == '-' || t[0] == '+') then t[1..] else t;
    match ParseUnsigned(u)
    case None => None
    case Some(m) =>
      var v: int := m;
      Some(if negative then -v else v)
  }

  lemma {:induction false} DigitsOfNatToString(n: nat)
    ensures forall i :: 0 <= i < |NatToString(n)| ==> IsDigitIn(NatToString(n)[i], 10)
    ensures DigitsValue(NatToString(n), 10) == n
  {
    var s := NatToString(n);
    if n >= 10 {
      DigitsOfNatToString(n / 10);
      assert s[..|s| - 1] == NatToString(n / 10);
    }
  }

  lemma {:induction false} DigitRunAll(s: string, radix: nat)
    requires forall i :: 0 <= i < |s| ==> IsDigitIn(s[i], radix)
    ensures DigitRun(s, radix) == |s|
  {
    if s != [] {
      DigitRunAll(s[1..], radix);
    }
  }

  lemma ParseUnsignedOfNatToString(m: nat)
    ensures ParseUnsigned(NatToString(m)) == Some(m)
  {
    var w := NatToString(m);
    DigitsOfNatToString(m);
    DigitRunAll(w, 10);
    assert w[..|w|] == w;
    assert !(|w| >= 2 && (w[1] == 'x' || w[1] == 'X'));
  }

  lemma TrimStartAtNonWhite(s: string)
    requires s != [] && !IsWhite(s[0])
    ensures TrimStart(s) == s
  {
  }

  /** A string that starts with anything but white space, a sign or a digit
      is not a number to `parseInt` (NaN). */
  lemma ParseIntNotANumber(s: string)
    requires s != [] && !IsWhite(s[0]) && s[0] != '-' && s[0] != '+' && !IsDigitIn(s[0], 10)
    ensures ParseInt(s) == None
  {
    TrimStartAtNonWhite(s);
  }

  lemma {:induction false} ParseIntOfNatToString(m: nat)
    ensures ParseInt(NatToString(m)) == Some(m as int)
  {
    var w := NatToString(m);
    ParseUnsignedOfNatToString(m);
    assert '0' <= w[0] <= '9';
    TrimStartAtNonWhite(w);
  }

  lemma {:induction false} ParseIntOfNegated(m: nat)
    ensures ParseInt("-" + NatToString(m)) == Some(-(m as int))
  {
    var w := NatToString(m);
    var s := "-" + w;
    TrimStartAtNonWhite(s);
    assert s[1..] == w;
    ParseUnsignedOfNatToString(m);
    assert ParseUnsigned(s[1..]) == Some(m);
  }

  /** `parseInt` reads back what integer `toString` writes. */
  lemma {:induction false} ParseIntRoundTrip(n: int)
    ensures ParseInt(IntToString(n)) == Some(n)
  {
    if n < 0 {
      var m: nat := -n;
      ParseIntOfNegated(m);
      assert IntToString(n) == "-" + NatToString(m);
    } else {
      ParseIntOfNatToString(n);
    }
  }

  /** `Number(s)` on the strings the price filter produces, which are digit
      strings: white space around the value is ignored, an empty string is 0,
      a string of decimal digits is its value and anything else is NaN (None). */
  function ToNumber(s: string): Option<nat> {
    var t := TrimEnd(TrimStart(s));
    if t == [] then Some(0)
    else if forall i :: 0 <= i < |t| ==> IsDigitIn(t[i], 10) then Some(DigitsValue(t, 10))
    else None
  }

  /** `Number` reads back a decimal rendering. */
  lemma NumberRoundTrip(n: nat)
    ensures ToNumber(NatToString(n)) == Some(n)
  {
    var w := NatToString(n);
    DigitsOfNatToString(n);
    assert TrimStart(w) == w;
    assert TrimEnd(w) == w;
  }

  // ---------------------------------------------------------------------
  // Math.round on an exact quotient

  /** The floor of `a / b` for a divisor of either sign. */
  function FloorDiv(a: int, b: int): (q: int)
    requires b != 0
    ensures b > 0 ==> b * q <= a < b * q + b
    ensures b < 0 ==> b * q >= a > b * q + b
  {
    if b > 0 then a / b else (-a) / (-b)
  }

  /** `Math.round(n / d)`: the integer nearest to the quotient, halves rounded
      up (towards +infinity), computed exactly rather than in floating point. */
  function MathRound(n: int, d: int): (r: int)
    requires d != 0
    ensures d > 0 ==> 2 * d * r - d <= 2 * n < 2 * d * r + d
    ensures d < 0 ==> 2 * d * r - d >= 2 * n > 2 * d * r + d
  {
    FloorDiv(2 * n + d, 2 * d)
  }

  // ---------------------------------------------------------------------
  // String.prototype.localeCompare, approximated by code-unit order

  function LexCompare(a: string, b: string): (r: int)
    ensures -1 <= r <= 1
  {
    if a == [] && b == [] then 0
    else if a == [] then -1
    else if b == [] then 1
    else if a[0] < b[0] then -1
    else if a[0] > b[0] then 1
    else LexCompare(a[1..], b[1..])
  }

  /** Swapping the operands negates the comparison. */
  lemma {:induction false} LexCompareFlip(a: string, b: string)
    ensures LexCompare(b, a) == -LexCompare(a, b)
  {
    if a != [] && b != [] && a[0] == b[0] {
      LexCompareFlip(a[1..], b[1..]);
    }
  }

  /** "Not after" is transitive, so the order is a total preorder. */
  lemma {:induction false} LexCompareTransitive(a: string, b: string, c: string)
    requires LexCompare(a, b) <= 0 && LexCompare(b, c) <= 0
    ensures LexCompare(a, c) <= 0
  {
    if a != [] && b != [] && c != [] && a[0] == b[0] && b[0] == c[0] {
      LexCompareTransitive(a[1..], b[1..], c[1..]);
    }
  }

  /** The comparison is 0 exactly for equal strings. */
  lemma {:induction false} LexCompareZero(a: string, b: string)
    ensures LexCompare(a, b) == 0 <==> a == b
  {
    if a != [] && b != [] && a[0] == b[0] {
      LexCompareZero(a[1..], b[1..]);
      assert a == [a[0]] + a[1..] && b == [b[0]] + b[1..];
    }
  }
}
