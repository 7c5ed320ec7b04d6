/** Character and string primitives of the two runtimes the catalog runs on: JavaScript's
    whitespace class, `toLowerCase`, `includes`, default string ordering and `parseInt`, and
    Python's `str.strip` and `str.upper`. Case mapping covers ASCII letters only. */
module Text {
  import opened Basics

  /** JavaScript's `\s` class: WhiteSpace and LineTerminator code points. */
  predicate IsJsSpace(c: char) {
    var n := c as int;
    || n == 0x09 || n == 0x0A || n == 0x0B || n == 0x0C || n == 0x0D || n == 0x20
    || n == 0xA0 || n == 0x1680 || (0x2000 <= n <= 0x200A)
    || n == 0x2028 || n == 0x2029 || n == 0x202F || n == 0x205F || n == 0x3000 || n == 0xFEFF
  }

  /** Python's `str.isspace` restricted to the ASCII and Latin-1 range. */
  predicate IsPySpace(c: char) {
    var n := c as int;
    (0x09 <= n <= 0x0D) || (0x1C <= n <= 0x20) || n == 0x85 || n == 0xA0
  }

  function LowerChar(c: char): char {
    if 'A' <= c <= 'Z' then (c as int + 32) as char else c
  }

  function UpperChar(c: char): char {
    if 'a' <= c <= 'z' then (c as int - 32) as char else c
  }

  /** `s.toLowerCase()` over ASCII letters. */
  function Lower(s: string): (r: string)
    ensures |r| == |s|
    ensures forall i :: 0 <= i < |s| ==> r[i] == LowerChar(s[i])
  {
    seq(|s|, i requires 0 <= i < |s| => LowerChar(s[i]))
  }

  /** `s.upper()` over ASCII letters. */
  function Upper(s: string): (r: string)
    ensures |r| == |s|
    ensures forall i :: 0 <= i < |s| ==> r[i] == UpperChar(s[i])
  {
    seq(|s|, i requires 0 <= i < |s| => UpperChar(s[i]))
  }

  /** `hay.includes(needle)`: `needle` occurs in `hay` at some position. */
  predicate Contains(hay: string, needle: string) {
    exists i :: 0 <= i <= |hay| - |needle| && OccursAt(hay, needle, i)
  }

  predicate OccursAt(hay: string, needle: string, i: int)
    requires 0 <= i <= |hay| - |needle|
  {
    hay[i..i + |needle|] == needle
  }

  /** The `<` of JavaScript strings: lexicographic by character code. */
  predicate StrLess(a: string, b: string)
    decreases |a|
  {
    if a == [] then b != []
    else if b == [] then false
    else if a[0] != b[0] then a[0] < b[0]
    else StrLess(a[1..], b[1..])
  }

  lemma {:induction false} StrLessIrreflexive(a: string)
    ensures !StrLess(a, a)
    decreases |a|
  {
    if a != [] {
      StrLessIrreflexive(a[1..]);
    }
  }

  lemma {:induction false} StrLessTrichotomous(a: string, b: string)
    ensures a == b || StrLess(a, b) || StrLess(b, a)
    ensures !(StrLess(a, b) && StrLess(b, a))
    decreases |a|
  {
    if a != [] && b != [] && a[0] == b[0] {
      StrLessTrichotomous(a[1..], b[1..]);
      if a[1..] == b[1..] {
        assert a == [a[0]] + a[1..] && b == [b[0]] + b[1..];
      }
    }
  }

  lemma {:induction false} StrLessTransitive(a: string, b: string, c: string)
    requires StrLess(a, b) && StrLess(b, c)
    ensures StrLess(a, c)
    decreases |a|
  {
    if a != [] && a[0] == b[0] && b[0] == c[0] {
      StrLessTransitive(a[1..], b[1..], c[1..]);
    }
  }

  /** Python's `str.strip()`: the text without its leading and trailing whitespace. */
  function Strip(s: string): (r: string)
    ensures exists i, j ::
              && 0 <= i <= j <= |s| && r == s[i..j]
              && (forall k :: 0 <= k < i ==> IsPySpace(s[k]))
              && (forall k :: j <= k < |s| ==> IsPySpace(s[k]))
    ensures r != [] ==> !IsPySpace(r[0]) && !IsPySpace(r[|r| - 1])
  {
    var i := LeadingSpaces(s, 0);
    var j := TrailingEnd(s, |s|, i);
    s[i..j]
  }

  /** First position at or after `from` that does not hold whitespace. */
  function LeadingSpaces(s: string, from: nat): (i: nat)
    requires from <= |s|
    requires forall k :: 0 <= k < from ==> IsPySpace(s[k])
    ensures from <= i <= |s|
    ensures forall k :: 0 <= k < i ==> IsPySpace(s[k])
    ensures i < |s| ==> !IsPySpace(s[i])
    decreases |s| - from
  {
    if from < |s| && IsPySpace(s[from]) then LeadingSpaces(s, from + 1) else from
  }

  /** End of the text once trailing whitespace from `hi` backwards, down to `lo`, is dropped. */
  function TrailingEnd(s: string, hi: nat, lo: nat): (j: nat)
    requires lo <= hi <= |s|
    requires forall k :: hi <= k < |s| ==> IsPySpace(s[k])
    ensures lo <= j <= hi
    ensures forall k :: j <= k < |s| ==> IsPySpace(s[k])
    ensures j > lo ==> !IsPySpace(s[j - 1])
    decreases hi
  {
    if hi > lo && IsPySpace(s[hi - 1]) then TrailingEnd(s, hi - 1, lo) else hi
  }

  predicate IsDecimalDigit(c: char) { '0' <= c <= '9' }

  /** Value of `c` as a digit in base `radix` (10 or 16), or -1 when it is not one. */
  function DigitValue(c: char, radix: int): (d: int)
    ensures -1 <= d < 16
    ensures radix == 10 ==> (d >= 0 <==> IsDecimalDigit(c))
  {
    if '0' <= c <= '9' then (if c as int - '0' as int < radix then c as int - '0' as int else -1)
    else if radix == 16 && 'a' <= c <= 'f' then c as int - 'a' as int + 10
    else if radix == 16 && 'A' <= c <= 'F' then c as int - 'A' as int + 10
    else -1
  }

  /** Length of the longest prefix of `s` made of digits of base `radix`. */
  function DigitRun(s: string, radix: int): (n: nat)
    ensures n <= |s|
    ensures forall k :: 0 <= k < n ==> DigitValue(s[k], radix) >= 0
    ensures n < |s| ==> DigitValue(s[n], radix) < 0
  {
    if s != [] && DigitValue(s[0], radix) >= 0 then 1 + DigitRun(s[1..], radix) else 0
  }

  /** Value of a digit string read most significant digit first. */
  function DigitsValue(ds: string, radix: int): (v: int)
    requires radix == 10 || radix == 16
    requires forall k :: 0 <= k < |ds| ==> DigitValue(ds[k], radix) >= 0
    ensures v >= 0
  {
    if ds == [] then 0
    else DigitsValue(ds[..|ds| - 1], radix) * radix + DigitValue(ds[|ds| - 1], radix)
  }

  /** JavaScript's `parseInt(s)` without a radix: leading whitespace is skipped, one sign is
      read, a `0x`/`0X` prefix selects base 16, and the longest run of digits that follows is
      the value; `None` stands for `NaN` (no digit at all). */
  function ParseInt(s: string): (r: Option<int>)
  {
    var t := s[JsLeadingSpaces(s, 0)..];
    if t != [] && t[0] == '-' then
      match ParseUnsigned(t[1..])
      case Some(v) => Some(-v)
      case None => None
    else if t != [] && t[0] == '+' then ParseUnsigned(t[1..])
    else ParseUnsigned(t)
  }

  /** The unsigned part of `parseInt`: an optional hexadecimal prefix, then a digit run. */
  function ParseUnsigned(u: string): (r: Option<int>)
    ensures r.Some? ==> r.value >= 0
  {
    if |u| >= 2 && u[0] == '0' && (u[1] == 'x' || u[1] == 'X') then ParseDigits(u[2..], 16)
    else ParseDigits(u, 10)
  }

  function ParseDigits(u: string, radix: int): (r: Option<int>)
    requires radix == 10 || radix == 16
    ensures r.Some? ==> r.value >= 0
  {
    var n := DigitRun(u, radix);
    if n == 0 then None else Some(DigitsValue(u[..n], radix))
  }

  function JsLeadingSpaces(s: string, from: nat): (i: nat)
    requires from <= |s|
    ensures from <= i <= |s|
    ensures forall k :: from <= k < i ==> IsJsSpace(s[k])
    ensures i < |s| ==> !IsJsSpace(s[i])
    decreases |s| - from
  {
    if from < |s| && IsJsSpace(s[from]) then JsLeadingSpaces(s, from + 1) else from
  }

  /** A decimal digit string with no sign and no surrounding text parses to its value. */
  lemma ParseIntDecimal(ds: string)
    requires ds != [] && forall k :: 0 <= k < |ds| ==> IsDecimalDigit(ds[k])
    ensures ParseInt(ds) == Some(DigitsValue(ds, 10))
  {
    assert !IsJsSpace(ds[0]);
    assert JsLeadingSpaces(ds, 0) == 0;
    assert ds[0..] == ds;
    assert ParseUnsigned(ds) == ParseDigits(ds, 10);
    assert DigitRun(ds, 10) == |ds|;
    assert ds[..|ds|] == ds;
  }
}
