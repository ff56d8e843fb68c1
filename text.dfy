/**
 * String operations of JavaScript that the transit-map code relies on, over
 * `string` (a sequence of Unicode scalar values).
 */
module Text {
  import opened Wrappers

  /** `String.prototype.startsWith`. */
  predicate StartsWith(s: string, prefix: string)
  {
    |prefix| <= |s| && s[..|prefix|] == prefix
  }

  /** `t` occurs in `s` starting at index `i`. */
  predicate OccursAt(s: string, t: string, i: int)
  {
    0 <= i && i + |t| <= |s| && s[i..i + |t|] == t
  }

  /** `String.prototype.includes`: `t` occurs somewhere in `s`. */
  predicate Contains(s: string, t: string)
  {
    exists i :: 0 <= i <= |s| - |t| && OccursAt(s, t, i)
  }

  /** Every string contains the empty string. */
  lemma ContainsEmpty(s: string)
    ensures Contains(s, "")
  {
    assert OccursAt(s, "", 0);
  }

  /**
   * A text that is shorter than `t`, or lacks the first character of `t` everywhere an
   * occurrence could start, does not contain `t`.
   */
  lemma LacksFirstChar(s: string, t: string)
    requires t != [] && (|t| > |s| || t[0] !in s[..|s| - |t| + 1])
    ensures !Contains(s, t)
  {
    forall i | 0 <= i <= |s| - |t|
      ensures !OccursAt(s, t, i)
    {
      assert s[..|s| - |t| + 1][i] == s[i];
    }
  }

  /** A text in which the first character of `t` never occurs does not contain `t`. */
  lemma LacksChar(s: string, t: string)
    requires t != [] && t[0] !in s
    ensures !Contains(s, t)
  {
    forall i | 0 <= i <= |s| - |t|
      ensures !OccursAt(s, t, i)
    {
      assert s[i] in s;
    }
  }

  /** A text contains each of its prefixes. */
  lemma ContainsPrefix(s: string, t: string)
    requires StartsWith(s, t)
    ensures Contains(s, t)
  {
    assert OccursAt(s, t, 0);
  }

  /** A string contains itself inside any surrounding text. */
  lemma ContainsInfix(a: string, t: string, b: string)
    ensures Contains(a + t + b, t)
  {
    var s := a + t + b;
    assert s[|a|..|a| + |t|] == t;
    assert OccursAt(s, t, |a|);
  }

  /** ASCII upper-case letters to lower case; every other character is kept. */
  function LowerChar(c: char): char
  {
    if 'A' <= c <= 'Z' then (c as int + 32) as char else c
  }

  /** ASCII lower-case letters to upper case; every other character is kept. */
  function UpperChar(c: char): char
  {
    if 'a' <= c <= 'z' then (c as int - 32) as char else c
  }

  /** `String.prototype.toLowerCase`, on ASCII letters. */
  function ToLower(s: string): (r: string)
    ensures |r| == |s|
    ensures forall i :: 0 <= i < |s| ==> r[i] == LowerChar(s[i])
  {
    if s == [] then [] else [LowerChar(s[0])] + ToLower(s[1..])
  }

  /**
   * The characters `String.prototype.trim` removes: WhiteSpace and LineTerminator of
   * sections 12.2 and 12.3 of ECMA-262 (2023 edition), the space separators being those
   * of Unicode general category Zs.
   */
  predicate IsWhitespace(c: char)
  {
    var n := c as int;
    || (0x09 <= n <= 0x0D) || n == 0x20 || n == 0xA0 || n == 0x1680
    || (0x2000 <= n <= 0x200A) || n == 0x2028 || n == 0x2029 || n == 0x202F
    || n == 0x205F || n == 0x3000 || n == 0xFEFF
  }

  /** The number of white-space characters at the front of `s`. */
  function LeadingSpace(s: string): (n: nat)
    ensures n <= |s|
    ensures forall i :: 0 <= i < n ==> IsWhitespace(s[i])
    ensures n == |s| || !IsWhitespace(s[n])
  {
    if s == [] || !IsWhitespace(s[0]) then 0 else 1 + LeadingSpace(s[1..])
  }

  /** The number of white-space characters at the end of `s`. */
  function TrailingSpace(s: string): (n: nat)
    ensures n <= |s|
    ensures forall i :: |s| - n <= i < |s| ==> IsWhitespace(s[i])
    ensures n == |s| || !IsWhitespace(s[|s| - n - 1])
  {
    if s == [] || !IsWhitespace(s[|s| - 1]) then 0 else 1 + TrailingSpace(s[..|s| - 1])
  }

  /** `r` is `s[a..b]` with only white space cut off on either side. */
  ghost predicate TrimmedAt(r: string, s: string, a: int, b: int)
  {
    && 0 <= a <= b <= |s| && r == s[a..b]
    && (forall i :: 0 <= i < a ==> IsWhitespace(s[i]))
    && (forall i :: b <= i < |s| ==> IsWhitespace(s[i]))
  }

  /** `String.prototype.trim`. */
  function Trim(s: string): (r: string)
    ensures r == [] || (!IsWhitespace(r[0]) && !IsWhitespace(r[|r| - 1]))
    ensures exists a, b :: TrimmedAt(r, s, a, b)
  {
    var a := LeadingSpace(s);
    var rest := s[a..];
    var b := a + |rest| - TrailingSpace(rest);
    assert TrimmedAt(s[a..b], s, a, b);
    s[a..b]
  }

  /** The decimal digit `d`. */
  function DigitChar(d: nat): (c: char)
    requires d < 10
    ensures '0' <= c <= '9' && c as int - '0' as int == d
  {
    (d + '0' as int) as char
  }

  /** The shortest decimal text of `n`, as `Number.prototype.toString` writes a whole number. */
  function NatToString(n: nat): (r: string)
    ensures |r| > 0
    ensures forall i :: 0 <= i < |r| ==> '0' <= r[i] <= '9'
    decreases n
  {
    if n < 10 then [DigitChar(n)] else NatToString(n / 10) + [DigitChar(n % 10)]
  }

  /** The number a string of decimal digits denotes. */
  function DigitsValue(s: string): nat
    requires forall i :: 0 <= i < |s| ==> '0' <= s[i] <= '9'
  {
    if s == [] then 0 else 10 * DigitsValue(s[..|s| - 1]) + (s[|s| - 1] as int - '0' as int)
  }

  /** Reading back the decimal text of `n` gives `n`, and the text has no leading zero. */
  lemma {:induction false} NatToStringRoundTrip(n: nat)
    ensures DigitsValue(NatToString(n)) == n
    ensures |NatToString(n)| > 1 ==> NatToString(n)[0] != '0'
    decreases n
  {
    if n >= 10 {
      NatToStringRoundTrip(n / 10);
      var r := NatToString(n);
      assert r[..|r| - 1] == NatToString(n / 10);
    }
  }

  /**
   * The JavaScript text of the number `t / 10` for a whole number of tenths `t`, as a
   * template literal writes it: `370`, `292.7`, `-4.5`.
   */
  function TenthsToString(t: int): (r: string)
    ensures |r| > 0
    ensures r[0] == '-' <==> t < 0
    ensures '.' in r <==> t % 10 != 0
  {
    var m := if t < 0 then -t else t;
    if t < 0 then "-" + UnsignedTenthsText(m) else UnsignedTenthsText(m)
  }

  /** A non-negative number of tenths: the whole part, then "." and the tenths digit unless it is 0. */
  function UnsignedTenthsText(m: nat): (r: string)
    ensures |r| > 0 && '0' <= r[0] <= '9'
    ensures '.' in r <==> m % 10 != 0
  {
    NatToString(m / 10) + (if m % 10 == 0 then "" else "." + [DigitChar(m % 10)])
  }

  predicate AllDigits(s: string)
  {
    forall i :: 0 <= i < |s| ==> '0' <= s[i] <= '9'
  }

  /** Reads digits with an optional "." and one more digit, in tenths; None for any other text. */
  function UnsignedTenths(s: string): Option<nat>
  {
    if |s| >= 3 && s[|s| - 2] == '.' && AllDigits(s[..|s| - 2]) && '0' <= s[|s| - 1] <= '9' then
      Some(10 * DigitsValue(s[..|s| - 2]) + (s[|s| - 1] as int - '0' as int))
    else if |s| > 0 && AllDigits(s) then Some(10 * DigitsValue(s))
    else None
  }

  /** Reads a number in tenths written as `TenthsToString` writes it, with an optional leading "-". */
  function ParseTenths(s: string): Option<int>
  {
    if |s| > 0 && s[0] == '-' then
      match UnsignedTenths(s[1..])
      case Some(v) => Some(-(v as int))
      case None => None
    else UnsignedTenths(s)
  }

  /** The text of a number of tenths reads back as that number. */
  lemma TenthsRoundTrip(t: int)
    ensures ParseTenths(TenthsToString(t)) == Some(t)
  {
    var m := if t < 0 then -t else t;
    UnsignedTenthsRoundTrip(m);
    if t < 0 {
      assert ("-" + UnsignedTenthsText(m))[1..] == UnsignedTenthsText(m);
    }
  }

  lemma UnsignedTenthsRoundTrip(m: nat)
    ensures UnsignedTenths(UnsignedTenthsText(m)) == Some(m)
  {
    var digits := NatToString(m / 10);
    NatToStringRoundTrip(m / 10);
    var r := UnsignedTenthsText(m);
    if m % 10 == 0 {
      assert r == digits;
      assert !(|r| >= 3 && r[|r| - 2] == '.');
    } else {
      assert r[..|r| - 2] == digits;
    }
  }
}
