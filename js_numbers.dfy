/**
 * The JavaScript number operations the planner depends on, over integers:
 * `parseInt` on path segments and form fields, the `%` operator (which
 * truncates), and `Math.round` of a percentage ratio.
 */
module JsNumbers {

  /** The result of `parseInt`: an integer, or NaN when no digits were found. */
  datatype JsInt = NaN | Int(value: int)

  /**
   * ECMAScript's WhiteSpace and LineTerminator code points, which `parseInt`
   * skips: tab, vertical tab, form feed, the byte order mark, every space
   * separator (Unicode category Zs), line feed, carriage return and the line
   * and paragraph separators.
   */
  predicate IsWhitespace(c: char)
  {
    var n := c as int;
    || n == 0x09 || n == 0x0B || n == 0x0C || n == 0xFEFF
    || n == 0x20 || n == 0xA0 || n == 0x1680 || 0x2000 <= n <= 0x200A
    || n == 0x202F || n == 0x205F || n == 0x3000
    || n == 0x0A || n == 0x0D || n == 0x2028 || n == 0x2029
  }

  predicate IsDecimalDigit(c: char)
  {
    '0' <= c <= '9'
  }

  /** The value of `c` as a digit in base `radix` (10 or 16), or -1 when it is not one. */
  function DigitValue(c: char, radix: int): (d: int)
    ensures -1 <= d < 16
    ensures radix == 10 ==> (d >= 0 <==> IsDecimalDigit(c))
    ensures radix == 10 && d >= 0 ==> d < 10
  {
    if '0' <= c <= '9' then c as int - '0' as int
    else if radix == 16 && 'a' <= c <= 'f' then c as int - 'a' as int + 10
    else if radix == 16 && 'A' <= c <= 'F' then c as int - 'A' as int + 10
    else -1
  }

  /** Leading white space removed (`parseInt` step 1). */
  function TrimStart(s: string): (r: string)
    ensures |r| <= |s| && r == s[|s| - |r|..]
    ensures r == [] || !IsWhitespace(r[0])
  {
    if s != [] && IsWhitespace(s[0]) then TrimStart(s[1..]) else s
  }

  /** Length of the longest prefix of `s` made of base-`radix` digits. */
  function DigitPrefixLength(s: string, radix: int): (n: nat)
    ensures n <= |s|
    ensures forall i :: 0 <= i < n ==> DigitValue(s[i], radix) >= 0
    ensures n < |s| ==> DigitValue(s[n], radix) < 0
  {
    if s != [] && DigitValue(s[0], radix) >= 0 then 1 + DigitPrefixLength(s[1..], radix) else 0
  }

  /** The value of a string of base-`radix` digits, most significant first. */
  function DigitsValue(s: string, radix: nat): nat
    requires forall i :: 0 <= i < |s| ==> DigitValue(s[i], radix) >= 0
  {
    if s == [] then 0 else DigitsValue(s[..|s| - 1], radix) * radix + DigitValue(s[|s| - 1], radix)
  }

  /** An optional leading sign (`parseInt` steps 3-5): whether it was `-`, and the rest. */
  function SplitSign(t: string): (bool, string)
  {
    if t != [] && (t[0] == '-' || t[0] == '+') then (t[0] == '-', t[1..]) else (false, t)
  }

  /** The radix (`parseInt` steps 8-10): 16 after a `0x` or `0X` prefix, which is dropped, else 10. */
  function SplitRadix(u: string): (nat, string)
  {
    if |u| >= 2 && u[0] == '0' && (u[1] == 'x' || u[1] == 'X') then (16, u[2..]) else (10, u)
  }

  /** The value of the longest leading run of digits, or NaN when there is none (steps 11-12). */
  function ParseDigitRun(w: string, radix: nat): JsInt
  {
    var n := DigitPrefixLength(w, radix);
    if n == 0 then NaN else Int(DigitsValue(w[..n], radix))
  }

  /**
   * `parseInt(s)` with no radix argument: skip white space, read an optional
   * sign, switch to base 16 after a `0x`/`0X` prefix, then read the longest
   * run of digits; NaN when that run is empty.
   */
  function ParseInt(s: string): (r: JsInt)
    ensures (forall i :: 0 <= i < |s| ==> !IsDecimalDigit(s[i])) ==> r == NaN
  {
    var (negative, u) := SplitSign(TrimStart(s));
    assert (forall i :: 0 <= i < |s| ==> !IsDecimalDigit(s[i])) ==> SplitRadix(u) == (10, u) && DigitPrefixLength(u, 10) == 0 by {
      if forall i :: 0 <= i < |s| ==> !IsDecimalDigit(s[i]) {
        NoDigitsNoRun(s, TrimStart(s));
      }
    }
    var (radix, w) := SplitRadix(u);
    match ParseDigitRun(w, radix)
    case NaN => NaN
    case Int(m) => Int(if negative then -m else m)
  }

  /**
   * After the sign of a suffix `t` of a string without decimal digits (so
   * without a `0x` prefix either), the rest is read in base 10 and has no
   * digit run.
   */
  lemma NoDigitsNoRun(s: string, t: string)
    requires forall i :: 0 <= i < |s| ==> !IsDecimalDigit(s[i])
    requires |t| <= |s| && t == s[|s| - |t|..]
    ensures var u := SplitSign(t).1;
      SplitRadix(u) == (10, u) && DigitPrefixLength(u, 10) == 0
  {
    var u := SplitSign(t).1;
    if u != [] {
      assert u[0] == s[|s| - |u|];
      assert u[0] != '0' && DigitValue(u[0], 10) < 0;
    }
  }

  /** `parseInt` skips a leading white-space character, whatever follows it. */
  lemma ParseIntSkipsWhitespace(c: char, s: string)
    requires IsWhitespace(c)
    ensures ParseInt([c] + s) == ParseInt(s)
  {
    assert ([c] + s)[1..] == s;
  }

  /** The ideographic space, the line separator and the byte order mark are skipped like a plain space. */
  lemma ParseIntSkipsUnicodeSpace(s: string)
    ensures ParseInt(['\U{3000}'] + s) == ParseInt(s)
    ensures ParseInt(['\U{2028}'] + s) == ParseInt(s)
    ensures ParseInt(['\U{FEFF}'] + s) == ParseInt(s)
  {
    ParseIntSkipsWhitespace('\U{3000}', s);
    ParseIntSkipsWhitespace('\U{2028}', s);
    ParseIntSkipsWhitespace('\U{FEFF}', s);
  }

  /** The decimal rendering of a natural number, as `${n}` produces it below 1e21 (from there on JavaScript writes an exponent). */
  function NatToDecimal(n: nat): (s: string)
    ensures |s| >= 1
    ensures forall i :: 0 <= i < |s| ==> IsDecimalDigit(s[i])
    ensures s[0] != '0' || n == 0
  {
    if n < 10 then [('0' as int + n) as char]
    else NatToDecimal(n / 10) + [('0' as int + n % 10) as char]
  }

  /** The decimal rendering of an integer, as `${id}` produces it in a request path. */
  function IntToDecimal(i: int): string
  {
    if i < 0 then "-" + NatToDecimal(-i) else NatToDecimal(i)
  }

  lemma {:induction false} NatToDecimalValue(n: nat)
    ensures DigitsValue(NatToDecimal(n), 10) == n
  {
    var s := NatToDecimal(n);
    if n >= 10 {
      NatToDecimalValue(n / 10);
      assert s[..|s| - 1] == NatToDecimal(n / 10);
    }
  }

  /** A decimal digit string is read back whole: the digit run is the string itself. */
  lemma DecimalPrefixIsWhole(s: string)
    requires forall i :: 0 <= i < |s| ==> IsDecimalDigit(s[i])
    ensures DigitPrefixLength(s, 10) == |s|
  {
  }

  /** A decimal digit string is read in base 10, whole. */
  lemma DigitRunIsWhole(d: string)
    requires |d| >= 1 && forall i :: 0 <= i < |d| ==> IsDecimalDigit(d[i])
    ensures SplitRadix(d) == (10, d)
    ensures ParseDigitRun(d, 10) == Int(DigitsValue(d, 10))
  {
    DecimalPrefixIsWhole(d);
    assert d[..|d|] == d;
  }

  /** `parseInt` read step by step: nothing to trim, a sign split off, base 10, and a digit run of value `m`. */
  lemma ParseIntSteps(s: string, negative: bool, d: string, m: nat)
    requires TrimStart(s) == s && SplitSign(s) == (negative, d)
    requires SplitRadix(d) == (10, d) && ParseDigitRun(d, 10) == Int(m)
    ensures ParseInt(s) == Int(if negative then -(m as int) else m)
  {
  }

  /** An unsigned decimal digit string parses to its value. */
  lemma ParseDigits(d: string)
    requires |d| >= 1 && forall i :: 0 <= i < |d| ==> IsDecimalDigit(d[i])
    ensures ParseInt(d) == Int(DigitsValue(d, 10))
  {
    assert TrimStart(d) == d;
    assert SplitSign(d) == (false, d);
    DigitRunIsWhole(d);
    ParseIntSteps(d, false, d, DigitsValue(d, 10));
  }

  /** A minus sign followed by a decimal digit string parses to the negated value. */
  lemma ParseNegatedDigits(d: string)
    requires |d| >= 1 && forall i :: 0 <= i < |d| ==> IsDecimalDigit(d[i])
    ensures ParseInt("-" + d) == Int(-(DigitsValue(d, 10) as int))
  {
    var s := "-" + d;
    assert s[0] == '-' && s[1..] == d;
    LeadingMinus(s);
    DigitRunIsWhole(d);
    ParseIntSteps(s, true, d, DigitsValue(d, 10));
  }

  /** A leading minus is not white space, and it is read as the sign. */
  lemma LeadingMinus(s: string)
    requires |s| >= 1 && s[0] == '-'
    ensures TrimStart(s) == s && SplitSign(s) == (true, s[1..])
  {
    assert !IsWhitespace(s[0]);
  }

  /** Rendering an id into a path and parsing it back with `parseInt` gives the id. */
  lemma ParseIntRoundTrip(i: int)
    ensures ParseInt(IntToDecimal(i)) == Int(i)
  {
    var m: nat := if i < 0 then -i else i;
    NatToDecimalValue(m);
    if i < 0 {
      ParseNegatedDigits(NatToDecimal(m));
    } else {
      ParseDigits(NatToDecimal(m));
    }
  }

  /** JavaScript's `a % b` for `b > 0`: the remainder of truncating division, with the sign of `a`. */
  function JsRem(a: int, b: int): (r: int)
    requires b > 0
    ensures -b < r < b
    ensures a >= 0 ==> 0 <= r && r == a % b
    ensures a < 0 ==> r <= 0 && -r == (-a) % b
  {
    if a >= 0 then a % b else -((-a) % b)
  }

  /**
   * The exact ratio `100 * part / whole` rounded half up. The pages compute
   * `Math.round((part / whole) * 100)` on doubles, which can fall just below
   * a half and round down where this rounds up.
   */
  function RoundedPercent(part: int, whole: int): (r: int)
    requires whole > 0
    ensures 2 * whole * r <= 200 * part + whole < 2 * whole * (r + 1)
  {
    var n, d := 200 * part + whole, 2 * whole;
    var q := n / d;
    assert n == d * q + n % d;
    q
  }

  /** Dividing both sides of `w * a < w * b` by a positive `w`. */
  lemma CancelFactor(w: int, a: int, b: int)
    requires w > 0 && w * a < w * b
    ensures a < b
  {
  }

  /** A share of a non-empty whole rounds to a percentage in 0..100. */
  lemma RoundedPercentBounds(part: int, whole: int)
    requires 0 <= part <= whole && whole > 0
    ensures 0 <= RoundedPercent(part, whole) <= 100
    ensures part == whole ==> RoundedPercent(part, whole) == 100
    ensures part == 0 ==> RoundedPercent(part, whole) == 0
  {
    var r, w := RoundedPercent(part, whole), 2 * whole;
    assert w * r < w * 101;
    CancelFactor(w, r, 101);
    assert w * 0 < w * (r + 1);
    CancelFactor(w, 0, r + 1);
    if part == whole {
      assert w * 100 < w * (r + 1);
      CancelFactor(w, 100, r + 1);
    }
    if part == 0 {
      assert w * r < w * 1;
      CancelFactor(w, r, 1);
    }
  }

  /**
   * The dashboard's progress formula `total > 0 ? Math.round(part / total * 100) : 0`:
   * 0 for an empty list, otherwise the rounded share, within 0..100.
   */
  function ProgressPercent(part: nat, total: nat): (r: int)
    requires part <= total
    ensures total == 0 ==> r == 0
    ensures 0 <= r <= 100
    ensures part == total && total > 0 ==> r == 100
    ensures part == 0 ==> r == 0
  {
    if total > 0 then
      RoundedPercentBounds(part, total);
      RoundedPercent(part, total)
    else 0
  }
}
