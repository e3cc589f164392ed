/** Decimal text: printing, zero padding, parsing with a sign, and splitting. */
module Decimal {
  import opened Common

  // -------------------------------------------------------------------------
  // Digits
  // -------------------------------------------------------------------------

  predicate AllDigits(s: string) {
    forall c | c in s :: IsDigit(c)
  }

  function DigitChar(d: nat): (c: char)
    requires d < 10
    ensures IsDigit(c) && c as int - '0' as int == d
  {
    '0' + d as char
  }

  function DigitValue(c: char): int {
    c as int - '0' as int
  }

  function Digits(n: nat): string {
    if n < 10 then [DigitChar(n)] else Digits(n / 10) + [DigitChar(n % 10)]
  }

  /** The number a digit string denotes. */
  function Value(s: string): int {
    if s == "" then 0 else 10 * Value(s[..|s| - 1]) + DigitValue(s[|s| - 1])
  }

  /** `n` followed by `k` zeros. */
  function Scale(n: int, k: nat): int {
    if k == 0 then n else 10 * Scale(n, k - 1)
  }

  function Zeros(k: nat): (s: string)
    ensures |s| == k && forall c | c in s :: c == '0'
  {
    if k == 0 then "" else Zeros(k - 1) + "0"
  }

  lemma {:induction false} DigitsValue(n: nat)
    ensures |Digits(n)| > 0 && AllDigits(Digits(n)) && Value(Digits(n)) == n
  {
    if n >= 10 {
      DigitsValue(n / 10);
      var s := Digits(n);
      assert s[..|s| - 1] == Digits(n / 10);
    } else {
      var s := Digits(n);
      assert s[..0] == "";
    }
  }

  lemma {:induction false} DigitsLength(n: nat, k: nat)
    requires k > 0
    ensures |Digits(n)| <= k <==> n < Scale(1, k)
  {
    if n >= 10 {
      if k == 1 {
        DigitsValue(n / 10);
      } else {
        DigitsLength(n / 10, k - 1);
      }
    } else {
      ScaleGrows(k);
    }
  }

  lemma {:induction false} ScaleGrows(k: nat)
    requires k > 0
    ensures Scale(1, k) >= 10
  {
    if k == 1 {
    } else {
      ScaleGrows(k - 1);
    }
  }

  lemma {:induction false} LeadingZeros(k: nat, s: string)
    ensures Value(Zeros(k) + s) == Value(s)
    decreases |s| + k
  {
    if s != "" {
      LeadingZeros(k, s[..|s| - 1]);
      assert (Zeros(k) + s)[..k + |s| - 1] == Zeros(k) + s[..|s| - 1];
    } else if k > 0 {
      LeadingZeros(k - 1, s);
      assert Zeros(k) + s == Zeros(k) && Zeros(k - 1) + s == Zeros(k - 1);
      assert Zeros(k)[..k - 1] == Zeros(k - 1);
    }
  }

  lemma {:induction false} TrailingZeros(s: string, k: nat)
    ensures Value(s + Zeros(k)) == Scale(Value(s), k)
  {
    if k == 0 {
      assert s + Zeros(0) == s;
    } else {
      TrailingZeros(s, k - 1);
      assert s + Zeros(k) == (s + Zeros(k - 1)) + "0";
      assert (s + Zeros(k))[..|s| + k - 1] == s + Zeros(k - 1);
    }
  }

  // -------------------------------------------------------------------------
  // Signed numbers, padded to a width that counts the sign
  // -------------------------------------------------------------------------

  function ZeroPad(w: int, s: string): string {
    if |s| >= w then s else Zeros(w - |s|) + s
  }

  function Pad(w: int, n: int): string {
    if n < 0 then "-" + ZeroPad(w - 1, Digits(-n)) else ZeroPad(w, Digits(n))
  }

  predicate Signed(s: string) {
    s != "" && (s[0] == '-' || s[0] == '+')
  }

  /** Digits with an optional sign, in a range; anything else is refused. */
  function ParseInt(s: string, lo: int, hi: int): Option<int> {
    InRange(if Signed(s) then s[1..] else s, if s != "" && s[0] == '-' then -1 else 1, lo, hi)
  }

  function InRange(s: string, sign: int, lo: int, hi: int): Option<int> {
    if s == "" || !AllDigits(s) then None
    else Within(if sign < 0 then -Value(s) else Value(s), lo, hi)
  }

  lemma ZeroPadValue(w: int, n: nat)
    ensures var s := ZeroPad(w, Digits(n));
            s != "" && AllDigits(s) && Value(s) == n && |s| >= w && |s| >= |Digits(n)|
            && (|s| == w || |s| == |Digits(n)|)
  {
    DigitsValue(n);
    if |Digits(n)| < w {
      LeadingZeros(w - |Digits(n)|, Digits(n));
    }
  }

  lemma PadText(w: int, n: int)
    ensures var s := Pad(w, n);
            s != "" && |s| >= w
            && (n >= 0 ==> AllDigits(s))
            && (n < 0 ==> s[0] == '-' && AllDigits(s[1..]))
            && forall c | c in s :: IsDigit(c) || c == '-'
  {
    ZeroPadValue(w - 1, if n < 0 then -n else n);
    ZeroPadValue(w, if n < 0 then -n else n);
  }

  function Within(n: int, lo: int, hi: int): Option<int> {
    if lo <= n <= hi then Some(n) else None
  }

  lemma ParsePlain(s: string, n: int, lo: int, hi: int)
    requires s != "" && AllDigits(s) && Value(s) == n
    ensures ParseInt(s, lo, hi) == Within(n, lo, hi)
  {
    assert s[0] in s;
  }

  lemma ParseMinus(s: string, n: int, lo: int, hi: int)
    requires s != "" && AllDigits(s) && Value(s) == n
    ensures ParseInt("-" + s, lo, hi) == Within(-n, lo, hi)
  {
    assert ("-" + s)[1..] == s;
  }

  /** A printed number parses back exactly when it lies in the range. */
  lemma ParsePad(w: int, n: int, lo: int, hi: int)
    ensures ParseInt(Pad(w, n), lo, hi) == Within(n, lo, hi)
  {
    if n < 0 {
      ParsePadMinus(w, -n, lo, hi);
    } else {
      ZeroPadValue(w, n);
      ParsePlain(Pad(w, n), n, lo, hi);
    }
  }

  lemma ParsePadMinus(w: int, n: int, lo: int, hi: int)
    requires n > 0
    ensures ParseInt(Pad(w, -n), lo, hi) == Within(-n, lo, hi)
  {
    var s := ZeroPad(w - 1, Digits(n));
    ZeroPadValue(w - 1, n);
    ParseMinus(s, n, lo, hi);
  }

  // -------------------------------------------------------------------------
  // Splitting
  // -------------------------------------------------------------------------

  /** The pieces between all occurrences of `c`; always at least one piece. */
  function Split(s: string, c: char): (parts: seq<string>)
    ensures |parts| > 0
  {
    if s == "" then [""]
    else
      var rest := Split(s[1..], c);
      if s[0] == c then [""] + rest else [[s[0]] + rest[0]] + rest[1..]
  }

  /** The text before and after the first occurrence of `c`. */
  function SplitOnce(s: string, c: char): Option<(string, string)> {
    if s == "" then None
    else if s[0] == c then Some(("", s[1..]))
    else
      match SplitOnce(s[1..], c)
      case None => None
      case Some(p) => Some(([s[0]] + p.0, p.1))
  }

  lemma {:induction false} SplitAbsent(a: string, c: char)
    requires c !in a
    ensures Split(a, c) == [a] && SplitOnce(a, c) == None
  {
    if a == "" {
    } else {
      SplitAbsent(a[1..], c);
      assert [a[0]] + a[1..] == a;
    }
  }

  lemma {:induction false} SplitFirst(a: string, c: char, b: string)
    requires c !in a
    ensures Split(a + [c] + b, c) == [a] + Split(b, c)
    ensures SplitOnce(a + [c] + b, c) == Some((a, b))
  {
    var s := a + [c] + b;
    if a == "" {
      assert s[1..] == b;
    } else {
      SplitFirst(a[1..], c, b);
      assert s[1..] == a[1..] + [c] + b;
      assert [a[0]] + a[1..] == a;
    }
  }

  function Join3(a: string, b: string, d: string, c: char): string {
    a + [c] + (b + [c] + d)
  }

  lemma SplitJoin3(a: string, b: string, d: string, c: char)
    requires c !in a && c !in b && c !in d
    ensures Split(Join3(a, b, d, c), c) == [a, b, d]
  {
    SplitFirst(a, c, b + [c] + d);
    SplitFirst(b, c, d);
    SplitAbsent(d, c);
  }
}
