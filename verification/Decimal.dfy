/** Decimal numerals, as the %d and %0nd formats print them and strconv reads them. */
module Decimal {
  function Digit(n: nat): (c: char)
    requires n < 10
    ensures '0' <= c <= '9'
  {
    '0' + n as char
  }

  predicate IsDigit(c: char) {
    '0' <= c <= '9'
  }

  function DigitValue(c: char): (n: nat)
    requires IsDigit(c)
    ensures n < 10 && Digit(n) == c
  {
    c as nat - '0' as nat
  }

  /** A non-empty string of digits. */
  predicate IsNumber(s: string) {
    s != "" && forall k :: 0 <= k < |s| ==> IsDigit(s[k])
  }

  /** The number a string of digits stands for; the empty string stands for 0. */
  function Value(s: string): nat
    requires forall k :: 0 <= k < |s| ==> IsDigit(s[k])
  {
    if s == "" then 0 else 10 * Value(s[..|s| - 1]) + DigitValue(s[|s| - 1])
  }

  /** %d of a number that is not negative. */
  function Print(n: nat): (s: string)
    ensures IsNumber(s) && Value(s) == n
  {
    if n < 10 then
      assert [Digit(n)][..0] == "";
      [Digit(n)]
    else
      var front := Print(n / 10);
      assert (front + [Digit(n % 10)])[..|front|] == front;
      front + [Digit(n % 10)]
  }

  /** %0nd: zeros in front up to the given width. */
  function Pad(n: nat, width: nat): (s: string)
    ensures IsNumber(s) && Value(s) == n && width <= |s|
  {
    AddZeros(Print(n), width)
  }

  function AddZeros(s: string, width: nat): (r: string)
    requires IsNumber(s)
    ensures IsNumber(r) && Value(r) == Value(s) && |r| == if width <= |s| then |s| else width
    decreases width - |s|
  {
    if width <= |s| then s
    else
      ZeroInFront(s);
      AddZeros("0" + s, width)
  }

  lemma {:induction false} ZeroInFront(s: string)
    requires forall k :: 0 <= k < |s| ==> IsDigit(s[k])
    ensures Value("0" + s) == Value(s)
  {
    if s == "" {
      assert "0" + s == "0" && "0"[..0] == "";
    } else {
      var front := s[..|s| - 1];
      ZeroInFront(front);
      assert ("0" + s)[..|s|] == "0" + front;
    }
  }

  function Pow10(n: nat): nat {
    if n == 0 then 1 else 10 * Pow10(n - 1)
  }

  lemma {:induction false} ValueBelowPow10(s: string)
    requires forall k :: 0 <= k < |s| ==> IsDigit(s[k])
    ensures Value(s) < Pow10(|s|)
  {
    if s != "" {
      ValueBelowPow10(s[..|s| - 1]);
    }
  }

  lemma SplitTen(a: nat, x: nat, b: nat, y: nat)
    requires 10 * a + x == 10 * b + y && x < 10 && y < 10
    ensures a == b && x == y
  {
  }

  /** Numerals of one length are read apart. */
  lemma {:induction false} SameValueSameNumeral(s: string, t: string)
    requires forall k :: 0 <= k < |s| ==> IsDigit(s[k])
    requires forall k :: 0 <= k < |t| ==> IsDigit(t[k])
    requires |s| == |t| && Value(s) == Value(t)
    ensures s == t
    decreases |s|
  {
    if s != "" {
      var n := |s| - 1;
      var front, back, x, y := s[..n], t[..n], s[n], t[n];
      assert s == front + [x] && t == back + [y];
      SplitTen(Value(front), DigitValue(x), Value(back), DigitValue(y));
      SameValueSameNumeral(front, back);
    }
  }

  /** Numerals of one length that start alike are ordered as their tails are. */
  lemma {:induction false} TailsOrder(s: string, t: string, k: nat)
    requires forall i :: 0 <= i < |s| ==> IsDigit(s[i])
    requires forall i :: 0 <= i < |t| ==> IsDigit(t[i])
    requires k <= |s| == |t| && s[..k] == t[..k] && Value(s[k..]) < Value(t[k..])
    ensures Value(s) < Value(t)
    decreases |s|
  {
    var n := |s| - 1;
    var front, back := s[..n], t[..n];
    assert s[k..][..n - k] == front[k..] && t[k..][..n - k] == back[k..];
    if Value(front[k..]) < Value(back[k..]) {
      assert front[..k] == s[..k] && back[..k] == t[..k];
      TailsOrder(front, back, k);
    } else {
      SameValueSameNumeral(front[k..], back[k..]);
      assert front == s[..k] + front[k..] && back == t[..k] + back[k..];
    }
  }

  /** A positive number is printed without a zero in front. */
  lemma {:induction false} NoZeroInFront(n: nat)
    requires n > 0
    ensures Print(n)[0] != '0'
  {
    if n < 10 {
      assert DigitValue(Print(n)[0]) == n;
    } else {
      NoZeroInFront(n / 10);
    }
  }

  lemma {:induction false} PrintLength(n: nat, width: nat)
    requires n < Pow10(width) && 0 < width
    ensures |Print(n)| <= width
  {
    if n >= 10 {
      assert n / 10 < Pow10(width - 1);
      PrintLength(n / 10, width - 1);
    }
  }

  /** A number below 10^width is printed with exactly that width. */
  lemma PadLength(n: nat, width: nat)
    requires n < Pow10(width) && 0 < width
    ensures |Pad(n, width)| == width
  {
    PrintLength(n, width);
  }

  /** Printing a number read from a numeral of the given width gives the numeral back. */
  lemma PadOfValue(s: string)
    requires IsNumber(s)
    ensures Pad(Value(s), |s|) == s
  {
    ValueBelowPow10(s);
    PadLength(Value(s), |s|);
    SameValueSameNumeral(Pad(Value(s), |s|), s);
  }
}
