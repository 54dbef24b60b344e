/**
 * The two JavaScript string built-ins the controllers rely on:
 * `String.prototype.trim` and the global `parseInt` without a radix,
 * as ECMAScript defines them (whitespace = WhiteSpace and LineTerminator
 * code points; numbers are unbounded integers here, and `-0` is 0).
 */
module JsText {
  import opened Wrappers

  /** ECMAScript WhiteSpace and LineTerminator code points. */
  predicate IsSpace(c: char) {
    || c == '\t' || c == '\n' || c == '\U{000B}' || c == '\U{000C}' || c == '\r' || c == ' '
    || c == '\U{00A0}' || c == '\U{1680}' || ('\U{2000}' <= c <= '\U{200A}')
    || c == '\U{2028}' || c == '\U{2029}' || c == '\U{202F}' || c == '\U{205F}'
    || c == '\U{3000}' || c == '\U{FEFF}'
  }

  predicate AllSpace(s: string) {
    forall i :: 0 <= i < |s| ==> IsSpace(s[i])
  }

  /** `s` neither starts nor ends with whitespace. */
  predicate Trimmed(s: string) {
    s == [] || (!IsSpace(s[0]) && !IsSpace(s[|s| - 1]))
  }

  /** Drops the leading whitespace: the result is a suffix of s. */
  function TrimStart(s: string): (r: string)
    ensures |r| <= |s| && r == s[|s| - |r|..]
    ensures AllSpace(s[..|s| - |r|])
    ensures r == [] || !IsSpace(r[0])
  {
    if s != [] && IsSpace(s[0]) then TrimStart(s[1..]) else s
  }

  /** Drops the trailing whitespace: the result is a prefix of s. */
  function TrimEnd(s: string): (r: string)
    ensures |r| <= |s| && r == s[..|r|]
    ensures AllSpace(s[|r|..])
    ensures r == [] || !IsSpace(r[|r| - 1])
  {
    if s != [] && IsSpace(s[|s| - 1]) then TrimEnd(s[..|s| - 1]) else s
  }

  /** Number of leading whitespace characters that `trim` removes. */
  function LeadingSpace(s: string): nat
    ensures LeadingSpace(s) <= |s|
  {
    |s| - |TrimStart(s)|
  }

  /**
   * `s.trim()`: the part of s between its leading and its trailing
   * whitespace; it starts and ends with non-whitespace (or is empty).
   */
  function Trim(s: string): (r: string)
    ensures LeadingSpace(s) + |r| <= |s|
    ensures r == s[LeadingSpace(s)..LeadingSpace(s) + |r|]
    ensures AllSpace(s[..LeadingSpace(s)]) && AllSpace(s[LeadingSpace(s) + |r|..])
    ensures Trimmed(r)
  {
    var t := TrimStart(s);
    var r := TrimEnd(t);
    var k := |s| - |t|;
    assert s[k..] == t;
    assert r == t[..|r|];
    assert t[..|r|] == s[k..k + |r|];
    assert t[|r|..] == s[k + |r|..];
    r
  }

  lemma TrimStartOfTrimmed(s: string)
    requires s == [] || !IsSpace(s[0])
    ensures TrimStart(s) == s
  {
  }

  lemma {:induction false} TrimStartOfPadded(pad: string, s: string)
    requires AllSpace(pad) && (s == [] || !IsSpace(s[0]))
    ensures TrimStart(pad + s) == s
  {
    if pad != [] {
      assert (pad + s)[1..] == pad[1..] + s;
      TrimStartOfPadded(pad[1..], s);
    }
  }

  lemma {:induction false} TrimEndOfPadded(s: string, pad: string)
    requires AllSpace(pad) && (s == [] || !IsSpace(s[|s| - 1]))
    ensures TrimEnd(s + pad) == s
  {
    if pad != [] {
      assert (s + pad)[..|s + pad| - 1] == s + pad[..|pad| - 1];
      TrimEndOfPadded(s, pad[..|pad| - 1]);
    }
  }

  /** Trimming removes exactly the padding around a trimmed text. */
  lemma TrimOfPadded(left: string, s: string, right: string)
    requires AllSpace(left) && AllSpace(right) && Trimmed(s)
    ensures Trim(left + s + right) == s
  {
    assert left + s + right == left + (s + right);
    if s == [] {
      assert AllSpace(s + right);
      assert TrimStart(left + (s + right)) == [] by {
        if s + right == [] {
          TrimStartOfPadded(left, []);
        } else {
          TrimStartOfPadded(left + (s + right), []);
          assert left + (s + right) + [] == left + (s + right);
          assert AllSpace(left + (s + right));
        }
      }
    } else {
      TrimStartOfPadded(left, s + right);
      TrimEndOfPadded(s, right);
    }
  }

  /** `trim` is idempotent. */
  lemma TrimIdempotent(s: string)
    ensures Trim(Trim(s)) == Trim(s)
  {
    TrimOfPadded([], Trim(s), []);
    assert [] + Trim(s) + [] == Trim(s);
  }

  /** A text made only of whitespace trims to the empty string. */
  lemma TrimAllSpace(s: string)
    requires AllSpace(s)
    ensures Trim(s) == []
  {
    TrimOfPadded(s, [], []);
    assert s + [] + [] == s;
  }

  // ---------------------------------------------------------------- parseInt

  /** The value of c as a digit in base `radix` (10 or 16), or -1. */
  function DigitValue(c: char, radix: int): (v: int)
    ensures -1 <= v < (if radix == 16 then 16 else 10)
  {
    if '0' <= c <= '9' then c as int - '0' as int
    else if radix == 16 && 'a' <= c <= 'f' then c as int - 'a' as int + 10
    else if radix == 16 && 'A' <= c <= 'F' then c as int - 'A' as int + 10
    else -1
  }

  predicate IsDigit(c: char, radix: int) {
    DigitValue(c, radix) >= 0
  }

  /** Length of the longest prefix of s made of base-`radix` digits. */
  function DigitPrefixLength(s: string, radix: int): (n: nat)
    ensures n <= |s|
    ensures forall i :: 0 <= i < n ==> IsDigit(s[i], radix)
    ensures n < |s| ==> !IsDigit(s[n], radix)
  {
    if s == [] || !IsDigit(s[0], radix) then 0 else 1 + DigitPrefixLength(s[1..], radix)
  }

  /** The number a digit string denotes in base `radix`. */
  function DigitsValue(ds: string, radix: int): int
  {
    if ds == [] then 0
    else DigitsValue(ds[..|ds| - 1], radix) * radix + DigitValue(ds[|ds| - 1], radix)
  }

  /** The value of the longest digit prefix of s, or None if s starts with no digit. */
  function DigitRun(s: string, radix: int): Option<int>
  {
    var n := DigitPrefixLength(s, radix);
    if n == 0 then None else Some(DigitsValue(s[..n], radix))
  }

  predicate HasHexPrefix(u: string) {
    |u| >= 2 && u[0] == '0' && (u[1] == 'x' || u[1] == 'X')
  }

  /**
   * `parseInt(s)`: skip leading whitespace, take an optional sign, switch
   * to base 16 after a `0x`/`0X` prefix, then read the longest digit
   * prefix; no digit at all is NaN (None).
   */
  function ParseInt(s: string): Option<int>
  {
    var t := TrimStart(s);
    var negative := |t| > 0 && t[0] == '-';
    var u := if |t| > 0 && (t[0] == '-' || t[0] == '+') then t[1..] else t;
    var magnitude := if HasHexPrefix(u) then DigitRun(u[2..], 16) else DigitRun(u, 10);
    match magnitude
    case None => None
    case Some(v) => Some(if negative then -v else v)
  }

  /** The decimal rendering of a natural number, as `String(n)` gives it. */
  function DecimalString(n: nat): (s: string)
    ensures |s| >= 1
  {
    var d := ['0' + (n % 10) as char];
    if n < 10 then d else DecimalString(n / 10) + d
  }

  lemma {:induction false} DecimalStringDigits(n: nat)
    ensures forall i :: 0 <= i < |DecimalString(n)| ==> '0' <= DecimalString(n)[i] <= '9'
    ensures DigitsValue(DecimalString(n), 10) == n
  {
    var s := DecimalString(n);
    if n >= 10 {
      DecimalStringDigits(n / 10);
      assert s[..|s| - 1] == DecimalString(n / 10);
    }
  }

  lemma {:induction false} DigitPrefixOfDigits(s: string, rest: string)
    requires forall i :: 0 <= i < |s| ==> '0' <= s[i] <= '9'
    requires rest == [] || !IsDigit(rest[0], 10)
    ensures DigitPrefixLength(s + rest, 10) == |s|
  {
    if s != [] {
      assert (s + rest)[1..] == s[1..] + rest;
      DigitPrefixOfDigits(s[1..], rest);
    }
  }

  /** What may follow a digit string without extending the number parseInt reads. */
  predicate EndsNumber(d: string, rest: string) {
    rest == [] || (!IsDigit(rest[0], 10) && (d != "0" || (rest[0] != 'x' && rest[0] != 'X')))
  }

  lemma NoHexPrefixOfDigits(d: string, rest: string)
    requires |d| >= 1 && forall i :: 0 <= i < |d| ==> '0' <= d[i] <= '9'
    requires EndsNumber(d, rest)
    ensures !HasHexPrefix(d + rest)
  {
    var u := d + rest;
    assert u[0] == d[0];
    if |u| >= 2 {
      if |d| >= 2 { assert u[1] == d[1]; } else { assert d == "0" ==> d[0] == '0' && u[1] == rest[0]; }
    }
  }

  lemma ParseIntUnsigned(u: string)
    requires u != [] && !IsSpace(u[0]) && u[0] != '-' && u[0] != '+' && !HasHexPrefix(u)
    ensures ParseInt(u) == DigitRun(u, 10)
  {
    TrimStartOfTrimmed(u);
  }

  lemma ParseIntNegative(u: string)
    requires u != [] && !IsSpace(u[0]) && u[0] != '-' && u[0] != '+' && !HasHexPrefix(u)
    ensures ParseInt("-" + u) == if DigitRun(u, 10).None? then None else Some(-DigitRun(u, 10).value)
  {
    var s := "-" + u;
    TrimStartOfTrimmed(s);
    assert s[1..] == u;
  }

  lemma DigitRunOfDigits(d: string, rest: string)
    requires |d| >= 1 && forall i :: 0 <= i < |d| ==> '0' <= d[i] <= '9'
    requires EndsNumber(d, rest)
    ensures DigitRun(d + rest, 10) == Some(DigitsValue(d, 10))
    ensures !HasHexPrefix(d + rest)
  {
    DigitPrefixOfDigits(d, rest);
    assert (d + rest)[..|d|] == d;
    NoHexPrefixOfDigits(d, rest);
  }

  /**
   * parseInt reads back the decimal rendering of any integer, including
   * when other text follows that neither starts with a digit nor, after
   * a lone "0", with the `x` of a hexadecimal prefix ("0x1A" is 26).
   */
  lemma ParseIntOfDecimal(n: int, rest: string)
    requires EndsNumber(DecimalString(if n < 0 then -n else n), rest)
    ensures ParseInt(if n < 0 then "-" + (DecimalString(-n) + rest) else DecimalString(n) + rest) == Some(n)
  {
    var m: nat := if n < 0 then -n else n;
    var u := DecimalString(m) + rest;
    DecimalStringDigits(m);
    DigitRunOfDigits(DecimalString(m), rest);
    assert u[0] == DecimalString(m)[0];
    if n < 0 {
      ParseIntNegative(u);
    } else {
      ParseIntUnsigned(u);
    }
  }

  /** No digit after the optional whitespace and sign means NaN. */
  lemma ParseIntOfNonNumeric(s: string)
    requires AllSpace(s)
    ensures ParseInt(s) == None
  {
    TrimStartOfPadded(s, []);
    assert s + [] == s;
  }
}
