/** Decimal numerals: printing naturals, with and without zero padding, and reading them back. */
module Decimal {
  import opened Common

  predicate IsDigit(c: char) {
    '0' <= c <= '9'
  }

  predicate AllDigits(s: string) {
    forall i :: 0 <= i < |s| ==> IsDigit(s[i])
  }

  function Digit(d: nat): char
    requires d < 10
  {
    '0' + d as char
  }

  function Digits(n: nat): (s: string)
    ensures AllDigits(s) && s != []
  {
    if n < 10 then [Digit(n)] else Digits(n / 10) + [Digit(n % 10)]
  }

  function Value(s: string): nat
    requires AllDigits(s)
  {
    if s == [] then 0 else Value(s[..|s| - 1]) * 10 + (s[|s| - 1] - '0') as int
  }

  function Zeros(k: nat): string {
    seq(k, _ => '0')
  }

  /** At least `width` digits, zeros in front. */
  function Padded(n: nat, width: nat): string {
    var s := Digits(n);
    if |s| < width then Zeros(width - |s|) + s else s
  }

  lemma {:induction false} DigitsRead(n: nat)
    ensures Value(Digits(n)) == n
    ensures Digits(n)[0] == '0' <==> n == 0
  {
    if n >= 10 {
      DigitsRead(n / 10);
      assert Digits(n)[..|Digits(n)| - 1] == Digits(n / 10);
    }
  }

  lemma {:induction false} ZerosCountNothing(k: nat, s: string)
    requires AllDigits(s)
    ensures AllDigits(Zeros(k) + s) && Value(Zeros(k) + s) == Value(s)
  {
    var z := Zeros(k) + s;
    if s != [] {
      assert z[..|z| - 1] == Zeros(k) + s[..|s| - 1];
      ZerosCountNothing(k, s[..|s| - 1]);
    } else if k > 0 {
      assert z[..k - 1] == Zeros(k - 1) + s;
      ZerosCountNothing(k - 1, s);
    }
  }

  lemma PaddedReads(n: nat, width: nat)
    ensures AllDigits(Padded(n, width)) && Padded(n, width) != [] && Value(Padded(n, width)) == n
  {
    DigitsRead(n);
    if |Digits(n)| < width { ZerosCountNothing(width - |Digits(n)|, Digits(n)); }
  }

  /** Small numbers fill their field exactly. */
  lemma PaddedWidth(n: nat)
    ensures n < 100 ==> |Padded(n, 2)| == 2
    ensures n < 1_000 ==> |Padded(n, 3)| == 3
    ensures n < 10_000 ==> |Padded(n, 4)| == 4
  {
    if n >= 10 { DigitsShorten(n); }
    if n >= 100 { DigitsShorten(n / 10); }
    if n >= 1_000 { DigitsShorten(n / 100); }
  }

  lemma DigitsShorten(n: nat)
    requires n >= 10
    ensures |Digits(n)| == |Digits(n / 10)| + 1
  {
  }
}
