/** Python's `int()` applied to a string, as the path walk uses it on a list
    segment (linter.py:53-54), and the decimal rendering `str()` gives an
    integer (the group counts of linter.py:46). */
module PyInt {
  import opened Options

  /** The ASCII whitespace `int()` skips at both ends of its argument: space
      and `\t\n\v\f\r`. The separators `\x1c`-`\x1f`, which `str.isspace()`
      accepts, are not skipped. */
  predicate IsSpace(c: char) {
    c == ' ' || 9 <= c as int <= 13
  }

  predicate IsDigit(c: char) {
    '0' <= c <= '9'
  }

  function DigitValue(c: char): (d: nat)
    requires IsDigit(c)
    ensures d < 10
  {
    c as int - '0' as int
  }

  function DigitChar(d: nat): (c: char)
    requires d < 10
    ensures IsDigit(c) && DigitValue(c) == d
  {
    ('0' as int + d) as char
  }

  function StripStart(s: string): (r: string)
    ensures |r| <= |s| && r == s[|s| - |r|..]
    ensures r == [] || !IsSpace(r[0])
  {
    if |s| > 0 && IsSpace(s[0]) then StripStart(s[1..]) else s
  }

  function StripEnd(s: string): (r: string)
    ensures |r| <= |s| && r == s[..|r|]
    ensures r == [] || !IsSpace(r[|r| - 1])
  {
    if |s| > 0 && IsSpace(s[|s| - 1]) then StripEnd(s[..|s| - 1]) else s
  }

  /** `s` without the leading and trailing whitespace `int()` skips. */
  function Strip(s: string): string {
    StripEnd(StripStart(s))
  }

  /** The value of a run of decimal digits in which a single underscore may
      separate two digits ("1_000"); None for anything else, the empty run
      included. */
  function Digits(s: string): (r: Option<nat>)
    ensures r.Some? ==> |s| > 0 && IsDigit(s[0]) && IsDigit(s[|s| - 1])
  {
    if |s| == 0 || !IsDigit(s[|s| - 1]) then None
    else if |s| == 1 then Some(DigitValue(s[0]))
    else
      var rest := if s[|s| - 2] == '_' then s[..|s| - 2] else s[..|s| - 1];
      match Digits(rest)
      case None => None
      case Some(v) => Some(10 * v + DigitValue(s[|s| - 1]))
  }

  /** CPython's default limit on the number of digits `int()` converts from a
      string (`sys.int_info.default_max_str_digits`, Python 3.11 and later). */
  const MaxStrDigits: nat := 4300

  /** The number of decimal digits in `s`; underscores and signs do not count
      towards `MaxStrDigits`. */
  function DigitCount(s: string): (r: nat)
    ensures r <= |s|
  {
    if s == [] then 0 else (if IsDigit(s[0]) then 1 else 0) + DigitCount(s[1..])
  }

  predicate ExceedsLimit(digits: nat) {
    digits > MaxStrDigits
  }

  /** `int(s)` for a string `s`: surrounding whitespace, an optional sign, then
      at most `MaxStrDigits` digits. None stands for the `ValueError` Python
      raises otherwise. */
  function ParseInt(s: string): Option<int> {
    Signed(Strip(s))
  }

  /** An optional sign followed by digits. */
  function Signed(t: string): Option<int> {
    var signed := |t| > 0 && (t[0] == '+' || t[0] == '-');
    var body := if signed then t[1..] else t;
    match Digits(body)
    case None => None
    case Some(v) =>
      if ExceedsLimit(DigitCount(body)) then None
      else Some(if signed && t[0] == '-' then 0 - v else v as int)
  }

  function Abs(i: int): nat {
    if i < 0 then -i else i
  }

  /** `|i| < 10 ^ 4300`: `str(i)` has at most `MaxStrDigits` digits. */
  predicate WithinLimit(i: int) {
    Abs(i) < Pow10(MaxStrDigits)
  }

  /** `10 ^ k`. */
  function Pow10(k: nat): (r: nat)
    ensures r >= 1
  {
    if k == 0 then 1 else 10 * Pow10(k - 1)
  }

  /** `str(n)` for a natural number. */
  function NatToString(n: nat): (r: string)
    ensures |r| > 0
    ensures forall i :: 0 <= i < |r| ==> IsDigit(r[i])
  {
    if n < 10 then [DigitChar(n)] else NatToString(n / 10) + [DigitChar(n % 10)]
  }

  /** `str(i)` for an integer. */
  function IntToString(i: int): string {
    if i < 0 then "-" + NatToString(-i) else NatToString(i)
  }

  lemma {:induction false} DigitsOfNatToString(n: nat)
    ensures Digits(NatToString(n)) == Some(n)
  {
    if n >= 10 {
      var s := NatToString(n);
      var prefix := NatToString(n / 10);
      assert s == prefix + [DigitChar(n % 10)];
      assert s[|s| - 2] == prefix[|prefix| - 1];
      assert s[..|s| - 1] == prefix;
      DigitsOfNatToString(n / 10);
    }
  }

  /** A string of digits counts every character towards the limit. */
  lemma {:induction false} DigitCountAllDigits(s: string)
    requires forall i :: 0 <= i < |s| ==> IsDigit(s[i])
    ensures DigitCount(s) == |s|
  {
    if s != [] {
      DigitCountAllDigits(s[1..]);
    }
  }

  lemma {:induction false} Pow10AtLeastTen(k: nat)
    requires k >= 1
    ensures Pow10(k) >= 10
  {
  }

  lemma {:induction false} Pow10Monotone(a: nat, b: nat)
    requires a <= b
    ensures Pow10(a) <= Pow10(b)
    decreases b
  {
    if a < b {
      Pow10Monotone(a, b - 1);
    }
  }

  /** Every integer of fewer than twenty digits is within the limit. */
  lemma TwentyDigitsWithinLimit()
    ensures Pow10(20) <= Pow10(MaxStrDigits)
    ensures Pow10(20) == 100_000_000_000_000_000_000
  {
    Pow10Monotone(20, MaxStrDigits);
    assert Pow10(5) == 100_000;
    Pow10Sum(5, 5);
    Pow10Sum(10, 10);
  }

  lemma {:induction false} Pow10Sum(a: nat, b: nat)
    ensures Pow10(a + b) == Pow10(a) * Pow10(b)
  {
    if b > 0 {
      Pow10Sum(a, b - 1);
      assert Pow10(a + b) == 10 * Pow10(a + b - 1);
    }
  }

  /** `str(n)` has at most `k` digits exactly when `n < 10 ^ k`. */
  lemma {:induction false} NatToStringLength(n: nat, k: nat)
    requires k >= 1
    ensures |NatToString(n)| <= k <==> n < Pow10(k)
  {
    Pow10AtLeastTen(k);
    if n >= 10 {
      var q := n / 10;
      assert n == 10 * q + n % 10;
      if k >= 2 {
        NatToStringLength(q, k - 1);
        assert Pow10(k) == 10 * Pow10(k - 1);
        assert q < Pow10(k - 1) <==> n < Pow10(k);
      }
    }
  }

  lemma StripUnpadded(s: string)
    requires |s| > 0 && !IsSpace(s[0]) && !IsSpace(s[|s| - 1])
    ensures Strip(s) == s
  {
    assert StripStart(s) == s;
  }

  /** `int(str(i))` gives `i` back when `str(i)` has at most `MaxStrDigits`
      digits, that is when `|i| < 10 ^ 4300`, and raises `ValueError` for any
      longer integer. */
  lemma ParseIntRoundTrip(i: int)
    ensures ParseInt(IntToString(i)) ==
              if WithinLimit(i) then Some(i) else None
  {
    NatToStringLength(Abs(i), MaxStrDigits);
    ParseIntOfString(i);
  }

  /** Integers of fewer than twenty digits, which includes every 64-bit
      index, always read back. */
  lemma ShortRoundTrip(i: int)
    requires Abs(i) < 100_000_000_000_000_000_000
    ensures ParseInt(IntToString(i)) == Some(i)
  {
    ParseIntRoundTrip(i);
    TwentyDigitsWithinLimit();
  }

  lemma ParseIntOfString(i: int)
    ensures ParseInt(IntToString(i)) ==
              if ExceedsLimit(|NatToString(Abs(i))|) then None else Some(i)
  {
    var d := NatToString(Abs(i));
    var s := IntToString(i);
    assert Strip(s) == s by {
      if i < 0 {
        assert s[0] == '-' && s[|s| - 1] == d[|d| - 1];
      }
      StripUnpadded(s);
    }
    if i < 0 {
      SignedNegative(s, d, Abs(i));
    } else {
      SignedUnsigned(d, i);
    }
  }

  lemma SignedNegative(s: string, d: string, n: nat)
    requires s == "-" + d && d == NatToString(n)
    ensures Signed(s) == if ExceedsLimit(|d|) then None else Some(0 - n)
  {
    assert s[1..] == d;
    DigitsOfNatToString(n);
    DigitCountAllDigits(d);
  }

  lemma SignedUnsigned(d: string, n: nat)
    requires d == NatToString(n)
    ensures Signed(d) == if ExceedsLimit(|d|) then None else Some(n)
  {
    DigitsOfNatToString(n);
    DigitCountAllDigits(d);
  }

  /** A segment with no decimal digit in it, such as a dictionary key, makes
      `int()` raise. */
  lemma NonNumericRejected(s: string)
    requires forall i :: 0 <= i < |s| ==> !IsDigit(s[i])
    ensures ParseInt(s) == None
  {
    var t := Strip(s);
    if |t| > 0 {
      NoDigitInStrip(s, |t| - 1);
    }
  }

  /** A segment led by an information separator (`\x1c`) is not an integer:
      `int()` does not skip that character. */
  lemma SeparatorNotSkipped()
    ensures ParseInt([28 as char, '0']) == None
  {
    assert StripStart([28 as char, '0']) == [28 as char, '0'];
    assert StripEnd([28 as char, '0']) == [28 as char, '0'];
  }

  /** Every character of `Strip(s)` is one of `s`. */
  lemma NoDigitInStrip(s: string, k: nat)
    requires forall i :: 0 <= i < |s| ==> !IsDigit(s[i])
    requires k < |Strip(s)|
    ensures !IsDigit(Strip(s)[k])
  {
    var u := StripStart(s);
    assert Strip(s)[k] == u[k];
    assert u[k] == s[|s| - |u| + k];
  }
}
