/** Integers as decimal text. */
module Decimal {

  function Digit(d: nat): (c: char)
    requires d < 10
    ensures '0' <= c <= '9' && c as int == '0' as int + d
  {
    ('0' as int + d) as char
  }

  predicate IsDigit(c: char) {
    '0' <= c <= '9'
  }

  function Digits(n: nat): (s: string)
    ensures s != "" && forall c <- s :: IsDigit(c)
  {
    if n < 10 then [Digit(n)] else Digits(n / 10) + [Digit(n % 10)]
  }

  function Itoa(n: int): string {
    if n < 0 then "-" + Digits(-n) else Digits(n)
  }

  function Pow10(k: nat): (r: nat)
    ensures r >= 1
  {
    if k == 0 then 1 else 10 * Pow10(k - 1)
  }

  /** Between two powers of ten the width is constant. */
  lemma {:induction false} WidthBetween(n: nat, width: nat)
    requires width >= 1 && n < Pow10(width) && (width == 1 || n >= Pow10(width - 1))
    ensures |Digits(n)| == width
  {
    if width > 1 {
      WidthBetween(n / 10, width - 1);
    }
  }

  lemma {:induction false} WidthAtMost(n: nat, width: nat)
    requires width >= 1 && n < Pow10(width)
    ensures |Digits(n)| <= width
  {
    if width > 1 && n >= 10 {
      WidthAtMost(n / 10, width - 1);
    }
  }

  /** The bytes of the decimal texts of 0, 1, ..., count - 1. */
  function SumWidths(count: nat): nat {
    if count == 0 then 0 else SumWidths(count - 1) + |Digits(count - 1)|
  }

  lemma OneMore(n: int, width: int)
    ensures (n + 1) * width == n * width + width
  {
  }

  lemma OneWidthMore(n: nat, width: nat)
    requires width >= 1 && n < Pow10(width) && (width == 1 || n >= Pow10(width - 1))
    ensures SumWidths(n + 1) == SumWidths(n) + width
  {
    WidthBetween(n, width);
  }

  lemma {:induction false} SumWidthsBetween(from: nat, to: nat, width: nat)
    requires from <= to && width >= 1 && to <= Pow10(width) && (width == 1 || from >= Pow10(width - 1))
    ensures SumWidths(to) == SumWidths(from) + (to - from) * width
  {
    if from == to {
      assert (to - from) * width == 0;
    } else {
      SumWidthsBetween(from, to - 1, width);
      OneWidthMore(to - 1, width);
      OneMore(to - 1 - from, width);
      assert (to - 1 - from) + 1 == to - from;
    }
  }

  lemma {:induction false} SumWidthsAtMost(count: nat, width: nat)
    requires width >= 1 && count <= Pow10(width)
    ensures SumWidths(count) <= count * width
  {
    if count > 0 {
      SumWidthsAtMost(count - 1, width);
      WidthAtMost(count - 1, width);
      OneMore(count - 1, width);
    }
  }

  lemma {:induction false} SumWidthsGrow(a: nat, b: nat)
    requires a <= b
    ensures SumWidths(a) <= SumWidths(b)
  {
    if a < b {
      SumWidthsGrow(a, b - 1);
    }
  }
}
