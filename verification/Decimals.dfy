// Decimal rendering of natural numbers, as the activity keys and the JSON
// texts of the repository contain them.
module Decimals {

  predicate IsDigit(c: char) {
    '0' <= c <= '9'
  }

  function Digit(d: nat): (c: char)
    requires d < 10
    ensures IsDigit(c)
  {
    "0123456789"[d]
  }

  function Decimal(n: nat): (s: string)
    ensures s != "" && forall i :: 0 <= i < |s| ==> IsDigit(s[i])
  {
    if n < 10 then [Digit(n)] else Decimal(n / 10) + [Digit(n % 10)]
  }

  /** Reads a decimal text back; the inverse of Decimal. */
  function Value(s: string): nat
    requires forall i :: 0 <= i < |s| ==> IsDigit(s[i])
  {
    if s == "" then 0
    else
      assert IsDigit(s[|s| - 1]);
      10 * Value(s[..|s| - 1]) + (s[|s| - 1] as int - '0' as int)
  }

  lemma DigitValue(d: nat)
    requires d < 10
    ensures Digit(d) as int - '0' as int == d
  {
  }

  lemma {:induction false} ValueOfDecimal(n: nat)
    ensures Value(Decimal(n)) == n
  {
    var s := Decimal(n);
    if n < 10 {
      DigitValue(n);
      assert s[..0] == "";
    } else {
      DigitValue(n % 10);
      ValueOfDecimal(n / 10);
      assert s[..|s| - 1] == Decimal(n / 10);
    }
  }

  /** Two numbers with the same decimal text are equal. */
  lemma DecimalInjective(a: nat, b: nat)
    requires Decimal(a) == Decimal(b)
    ensures a == b
  {
    ValueOfDecimal(a);
    ValueOfDecimal(b);
  }

  function Pow10(k: nat): (p: nat)
    ensures p >= 1
  {
    if k == 0 then 1 else 10 * Pow10(k - 1)
  }

  /** The number of digits is the order of magnitude. */
  lemma {:induction false} DecimalLength(n: nat)
    ensures n >= 1 ==> Pow10(|Decimal(n)| - 1) <= n < Pow10(|Decimal(n)|)
    ensures n == 0 ==> |Decimal(n)| == 1
  {
    if n >= 10 {
      DecimalLength(n / 10);
      assert |Decimal(n)| == |Decimal(n / 10)| + 1;
    } else {
      assert Pow10(1) == 10 * Pow10(0);
    }
  }

  lemma {:induction false} Pow10Monotone(i: nat, j: nat)
    requires i <= j
    ensures Pow10(i) <= Pow10(j)
    decreases j - i
  {
    if i < j {
      Pow10Monotone(i + 1, j);
    }
  }

  lemma {:induction false} Pow10Adds(i: nat, j: nat)
    ensures Pow10(i) * Pow10(j) == Pow10(i + j)
  {
    if i > 0 {
      Pow10Adds(i - 1, j);
    }
  }

  /** A number below 10^k prints in at most k characters. */
  lemma {:induction false} DecimalAtMost(n: nat, k: nat)
    requires k >= 1 && n < Pow10(k)
    ensures |Decimal(n)| <= k
  {
    if n >= 10 {
      assert Pow10(k) == 10 * Pow10(k - 1);
      assert Pow10(0) == 1;
      DecimalAtMost(n / 10, k - 1);
    }
  }
}
