/**
 * `parseInt(s, 10)` and `String(n)` for integers. A JavaScript number is
 * modelled by a mathematical integer and NaN by None.
 */
module JsNumber {
  import opened JsText

  predicate IsDigit(c: char) {
    '0' <= c <= '9'
  }

  function DigitValue(c: char): (d: nat)
    requires IsDigit(c)
    ensures d < 10
  {
    (c as int) - ('0' as int)
  }

  function DigitChar(d: nat): (c: char)
    requires d < 10
    ensures IsDigit(c) && DigitValue(c) == d
  {
    (('0' as int) + d) as char
  }

  /** Length of the longest prefix of `s` made of decimal digits. */
  function DigitPrefix(s: string): (n: nat)
    ensures n <= |s|
  {
    if s == [] || !IsDigit(s[0]) then 0 else 1 + DigitPrefix(s[1..])
  }

  /** The prefix is made of digits, and is followed by a non-digit or the end. */
  lemma {:induction false} DigitPrefixSpec(s: string)
    ensures forall k :: 0 <= k < DigitPrefix(s) ==> IsDigit(s[k])
    ensures DigitPrefix(s) < |s| ==> !IsDigit(s[DigitPrefix(s)])
    decreases |s|
  {
    if s != [] && IsDigit(s[0]) {
      DigitPrefixSpec(s[1..]);
    }
  }

  /**
   * The value of a string of decimal digits, most significant first. It is
   * only ever applied to digit strings; a non-digit would count as 0.
   */
  function DigitsValue(ds: string): nat
  {
    if ds == [] then 0 else 10 * DigitsValue(ds[..|ds| - 1]) + (if IsDigit(ds[|ds| - 1]) then DigitValue(ds[|ds| - 1]) else 0)
  }

  /**
   * `parseInt(s, 10)`: leading white space is skipped, then one optional `+` or
   * `-`, then the longest run of decimal digits is read; without a digit the
   * result is NaN (None). Whatever follows the digits is ignored.
   */
  function ParseInt(s: string): (r: Option<int>)
    ensures r.None? <==> DigitPrefix(Unsigned(TrimStart(s))) == 0
  {
    var t := TrimStart(s);
    var u := Unsigned(t);
    var n := DigitPrefix(u);
    if n == 0 then None
    else if t != [] && t[0] == '-' then Some(-(DigitsValue(u[..n]) as int))
    else Some(DigitsValue(u[..n]))
  }

  /** What follows an optional leading sign character. */
  function Unsigned(t: string): string {
    if t != [] && (t[0] == '-' || t[0] == '+') then t[1..] else t
  }

  /** The decimal digits of `n`, without leading zeros (`"0"` for zero). */
  function NatToDigits(n: nat): (ds: string)
    ensures |ds| >= 1 && forall k :: 0 <= k < |ds| ==> IsDigit(ds[k])
  {
    if n < 10 then [DigitChar(n)] else NatToDigits(n / 10) + [DigitChar(n % 10)]
  }

  /** `String(n)` for an integer `n`. */
  function IntToString(n: int): (s: string)
    ensures s != [] && (s[0] == '-' || IsDigit(s[0]))
  {
    if n < 0 then "-" + NatToDigits(-n) else NatToDigits(n)
  }

  /** `String(n)` writes no leading zero: a spelling of two or more characters starting with "0" is no integer's. */
  lemma {:induction false} NoLeadingZero(n: int)
    ensures |IntToString(n)| > 1 ==> IntToString(n)[0] != '0'
  {
    if n >= 0 {
      NatNoLeadingZero(n);
    }
  }

  lemma {:induction false} NatNoLeadingZero(n: nat)
    ensures |NatToDigits(n)| > 1 ==> NatToDigits(n)[0] != '0'
  {
    if n >= 10 {
      NatNoLeadingZero(n / 10);
      assert NatToDigits(n)[0] == NatToDigits(n / 10)[0];
      if n / 10 < 10 {
        assert DigitValue(NatToDigits(n / 10)[0]) == n / 10;
      }
    }
  }

  lemma {:induction false} DigitsRoundTrip(n: nat)
    ensures DigitsValue(NatToDigits(n)) == n
    ensures DigitPrefix(NatToDigits(n)) == |NatToDigits(n)|
  {
    var ds := NatToDigits(n);
    if n >= 10 {
      DigitsRoundTrip(n / 10);
      assert ds[..|ds| - 1] == NatToDigits(n / 10);
    }
    AllDigitsPrefix(ds);
  }

  lemma {:induction false} AllDigitsPrefix(ds: string)
    requires forall k :: 0 <= k < |ds| ==> IsDigit(ds[k])
    ensures DigitPrefix(ds) == |ds|
    decreases |ds|
  {
    if ds != [] { AllDigitsPrefix(ds[1..]); }
  }

  /** The digit run of `ds + rest` is `ds` when `rest` does not start with a digit. */
  lemma {:induction false} DigitPrefixConcat(ds: string, rest: string)
    requires forall k :: 0 <= k < |ds| ==> IsDigit(ds[k])
    requires rest == [] || !IsDigit(rest[0])
    ensures DigitPrefix(ds + rest) == |ds|
    decreases |ds|
  {
    if ds == [] {
      assert ds + rest == rest;
    } else {
      assert (ds + rest)[1..] == ds[1..] + rest;
      DigitPrefixConcat(ds[1..], rest);
    }
  }

  /** `parseInt` reads a leading run of digits and ignores what follows the run. */
  lemma ParseIntLeadingDigits(ds: string, rest: string)
    requires |ds| >= 1 && forall k :: 0 <= k < |ds| ==> IsDigit(ds[k])
    requires rest == [] || !IsDigit(rest[0])
    ensures ParseInt(ds + rest) == Some(DigitsValue(ds))
  {
    var s := ds + rest;
    assert s[0] == ds[0];
    assert LeadingSpace(s) == 0;
    assert TrimStart(s) == s;
    assert Unsigned(s) == s;
    DigitPrefixConcat(ds, rest);
    assert s[..|ds|] == ds;
  }

  /** `parseInt(String(n), 10)` gives `n` back. */
  lemma ParseIntOfString(n: int)
    ensures ParseInt(IntToString(n)) == Some(n)
  {
    var s := IntToString(n);
    var ds := NatToDigits(if n < 0 then -n else n);
    DigitsRoundTrip(if n < 0 then -n else n);
    assert LeadingSpace(s) == 0;
    assert TrimStart(s) == s;
    assert Unsigned(s) == ds;
    assert ds[..|ds|] == ds;
  }

  /** `String` is one-to-one on integers, so the lookup keys it builds never collide. */
  lemma IntToStringInjective(m: int, n: int)
    requires IntToString(m) == IntToString(n)
    ensures m == n
  {
    ParseIntOfString(m);
    ParseIntOfString(n);
  }
}
