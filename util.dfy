/** Decimal digit decomposition (src/util.rs) and the integer casts the
    Intcode decoder relies on. */
module Util {

  function Pow10(k: nat): (r: nat)
    ensures r >= 1
  {
    if k == 0 then 1 else 10 * Pow10(k - 1)
  }

  /** The decimal digits of `n`, most significant first; `0` has none. */
  function Digits(n: nat): (ds: seq<nat>)
    ensures forall i :: 0 <= i < |ds| ==> ds[i] <= 9
    ensures n == 0 <==> ds == []
  {
    if n == 0 then [] else Digits(n / 10) + [n % 10]
  }

  /** The number of decimal digits of `n` (0 for 0). */
  function DigitCount(n: nat): nat {
    |Digits(n)|
  }

  /** Reads a most-significant-first digit sequence back as a number:
      a left fold of `acc * 10 + d` starting at 0. */
  function FromDigits(ds: seq<nat>): nat {
    if ds == [] then 0 else FromDigits(ds[..|ds| - 1]) * 10 + ds[|ds| - 1]
  }

  function Reversed<T>(s: seq<T>): (r: seq<T>)
    ensures |r| == |s|
  {
    if s == [] then [] else [s[|s| - 1]] + Reversed(s[..|s| - 1])
  }

  /** The loop of `digits`: push `num % 10` while `num > 0`, then reverse. */
  method DecimalDigits(num: nat) returns (digits: seq<nat>)
    ensures digits == Digits(num)
  {
    var n := num;
    var pushed: seq<nat> := [];
    while n > 0
      invariant Digits(num) == Digits(n) + Reversed(pushed)
    {
      assert (pushed + [n % 10])[..|pushed|] == pushed;
      pushed := pushed + [n % 10];
      n := n / 10;
    }
    digits := Reversed(pushed);
  }

  lemma DivisionUnique(n: nat, d: nat, q: nat, r: nat)
    requires d > 0 && r < d && n == d * q + r
    ensures n / d == q && n % d == r
  {
    var q', r' := n / d, n % d;
    assert d * q' + r' == d * q + r;
    if q' > q {
      MulDistance(d, q', q);
    } else if q' < q {
      MulDistance(d, q, q');
    }
  }

  lemma {:induction false} MulDistance(d: nat, a: nat, b: nat)
    requires a > b
    ensures d * a >= d * b + d
  {
    if a > b + 1 {
      MulDistance(d, a - 1, b);
    }
  }

  /** `(n / 10) / 10^k == n / 10^(k+1)`. */
  lemma DivPow10Step(n: nat, k: nat)
    ensures (n / 10) / Pow10(k) == n / Pow10(k + 1)
  {
    var p := Pow10(k);
    var q := n / 10;
    var a, b := q / p, q % p;
    assert q == p * a + b;
    assert n == 10 * q + n % 10;
    assert n == (10 * p) * a + (10 * b + n % 10);
    assert 10 * b + n % 10 < 10 * p;
    DivisionUnique(n, 10 * p, a, 10 * b + n % 10);
  }

  /** The digit `k` places from the right is `(n / 10^k) % 10`. */
  lemma {:induction false} DigitFromRight(n: nat, k: nat)
    requires k < |Digits(n)|
    ensures Digits(n)[|Digits(n)| - 1 - k] == (n / Pow10(k)) % 10
  {
    if k > 0 {
      DigitFromRight(n / 10, k - 1);
      DivPow10Step(n, k - 1);
    }
  }

  /** For n > 0 the leading digit is nonzero and 10^(len-1) <= n < 10^len;
      `0` has no digits. */
  lemma {:induction false} DigitsMagnitude(n: nat)
    ensures |Digits(n)| > 0 ==> Digits(n)[0] != 0
    ensures |Digits(n)| > 0 ==> Pow10(|Digits(n)| - 1) <= n
    ensures n < Pow10(|Digits(n)|)
  {
    if n > 0 {
      DigitsMagnitude(n / 10);
      if n / 10 == 0 {
        assert Digits(n) == [n % 10];
      } else {
        assert Digits(n)[0] == Digits(n / 10)[0];
      }
    }
  }

  /** More than `k` digits exactly when `n >= 10^k`. */
  lemma DigitCountAtLeast(n: nat, k: nat)
    ensures |Digits(n)| > k <==> n >= Pow10(k)
  {
    DigitsMagnitude(n);
    var len := |Digits(n)|;
    if len > k {
      PowMonotone(k, len - 1);
    } else {
      PowMonotone(len, k);
    }
  }

  lemma {:induction false} PowMonotone(i: nat, j: nat)
    requires i <= j
    ensures Pow10(i) <= Pow10(j)
  {
    if i < j {
      PowMonotone(i, j - 1);
    }
  }

  /** Folding the digits back gives the number. */
  lemma {:induction false} FromDigitsOfDigits(n: nat)
    ensures FromDigits(Digits(n)) == n
  {
    if n > 0 {
      var ds := Digits(n);
      assert ds[..|ds| - 1] == Digits(n / 10);
      FromDigitsOfDigits(n / 10);
    }
  }

  /** Rust's `x as usize` on a 64-bit target: two's-complement
      reinterpretation, i.e. reduction modulo 2^64. */
  const UsizeModulus: int := 0x1_0000_0000_0000_0000

  function AsUsize(x: int): (r: nat)
    ensures r < UsizeModulus
    ensures 0 <= x < UsizeModulus ==> r == x
    ensures -UsizeModulus <= x < 0 ==> r == x + UsizeModulus
  {
    x % UsizeModulus
  }
}
