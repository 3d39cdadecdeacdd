/** Positional notation: the shift-and-mask arithmetic of the key codec, stated on naturals. */
module Digits {

  function Pow(base: nat, e: nat): (p: nat)
    requires base > 0
    ensures p > 0
  {
    if e == 0 then 1 else base * Pow(base, e - 1)
  }

  /** The `n` low digits of `v`, most significant first. */
  function ToDigits(v: nat, base: nat, n: nat): (ds: seq<nat>)
    requires base > 0
    ensures |ds| == n
    ensures forall i :: 0 <= i < n ==> ds[i] < base
    decreases n, v
  {
    if n == 0 then [] else ToDigits(v / base, base, n - 1) + [v % base]
  }

  /** The number a digit string denotes, by Horner's rule. */
  function FromDigits(ds: seq<nat>, base: nat): nat {
    if |ds| == 0 then 0 else FromDigits(ds[..|ds| - 1], base) * base + ds[|ds| - 1]
  }

  ghost predicate AreDigits(ds: seq<nat>, base: nat) {
    forall i :: 0 <= i < |ds| ==> ds[i] < base
  }

  lemma MulLess(a: nat, b: nat, c: nat, m: nat)
    requires a < b && c < m
    ensures a * m + c < b * m
  {
    assert (a + 1) * m <= b * m;
  }

  lemma MulMonotone(a: nat, b: nat, m: nat)
    ensures a <= b ==> a * m <= b * m
  {
  }

  lemma MulAssociative(a: nat, b: nat, c: nat)
    ensures a * (b * c) == (a * b) * c
  {
  }

  lemma Regroup(v: nat, p: nat, base: nat, q: nat, r: nat)
    ensures v * (base * p) + (q * base + r) == (v * p + q) * base + r
  {
    assert v * (base * p) == (v * p) * base;
  }

  lemma DivModUnique(q: nat, r: nat, m: nat)
    requires r < m
    ensures (q * m + r) / m == q && (q * m + r) % m == r
  {
    var v := q * m + r;
    assert v == (v / m) * m + v % m;
    if v / m < q {
      MulLess(v / m, q, v % m, m);
    } else if v / m > q {
      MulLess(q, v / m, r, m);
    }
  }

  lemma DivLess(v: nat, a: nat, b: nat)
    requires a > 0 && v < a * b
    ensures v / a < b
  {
    MulMonotone(b, v / a, a);
  }

  lemma {:induction false} FromDigitsBound(ds: seq<nat>, base: nat)
    requires base > 0 && AreDigits(ds, base)
    ensures FromDigits(ds, base) < Pow(base, |ds|)
  {
    if |ds| > 0 {
      FromDigitsBound(ds[..|ds| - 1], base);
      MulLess(FromDigits(ds[..|ds| - 1], base), Pow(base, |ds| - 1), ds[|ds| - 1], base);
    }
  }

  /** Writing a number down and reading it back is the identity below the capacity. */
  lemma {:induction false} FromToDigits(v: nat, base: nat, n: nat)
    requires base > 0 && v < Pow(base, n)
    ensures FromDigits(ToDigits(v, base, n), base) == v
    decreases n
  {
    if n > 0 {
      DivLess(v, base, Pow(base, n - 1));
      assert v == (v / base) * base + v % base;
      FromToDigits(v / base, base, n - 1);
      var ds := ToDigits(v, base, n);
      assert ds[..n - 1] == ToDigits(v / base, base, n - 1);
    }
  }

  lemma {:induction false} ToFromDigits(ds: seq<nat>, base: nat)
    requires base > 0 && AreDigits(ds, base)
    ensures ToDigits(FromDigits(ds, base), base, |ds|) == ds
  {
    if |ds| > 0 {
      var init, last := ds[..|ds| - 1], ds[|ds| - 1];
      ToFromDigits(init, base);
      DivModUnique(FromDigits(init, base), last, base);
    }
  }

  lemma MulPositive(a: nat, b: nat)
    requires a > 0 && b > 0
    ensures a * b > 0
  {
  }

  /** Two divisions in a row, put back together. */
  lemma Recomposed(v: nat, q: nat, a: nat, r: nat, s: nat, b: nat, t: nat)
    requires v == q * a + r && q == s * b + t
    ensures v == s * (a * b) + (t * a + r)
  {
    assert (s * b) * a == s * (a * b);
  }

  lemma DivDiv(v: nat, a: nat, b: nat)
    requires a > 0 && b > 0
    ensures a * b > 0 && v / a / b == v / (a * b)
  {
    MulPositive(a, b);
    var q := v / a;
    Recomposed(v, q, a, v % a, q / b, b, q % b);
    MulLess(q % b, b, v % a, a);
    DivModUnique(q / b, q % b * a + v % a, a * b);
  }

  lemma {:induction false} ShiftTwice(v: nat, base: nat, k: nat)
    requires base > 0
    ensures v / base / Pow(base, k) == v / Pow(base, k + 1)
  {
    DivDiv(v, base, Pow(base, k));
  }

  lemma {:induction false} HighDigit(v: nat, base: nat, n: nat, i: nat)
    requires base > 0 && i < n - 1
    ensures ToDigits(v, base, n)[i] == ToDigits(v / base, base, n - 1)[i]
  {
  }

  /** Digit `i` is a shift followed by a mask. */
  lemma {:induction false} DigitAt(v: nat, base: nat, n: nat, i: nat)
    requires base > 0 && i < n
    ensures ToDigits(v, base, n)[i] == v / Pow(base, n - 1 - i) % base
    decreases n
  {
    if i < n - 1 {
      HighDigit(v, base, n, i);
      DigitAt(v / base, base, n - 1, i);
      ShiftTwice(v, base, n - 2 - i);
    }
  }

  /** Appending `k` low digits concatenates the two digit strings. */
  lemma {:induction false} ConcatDigits(v: nat, c: nat, base: nat, n: nat, k: nat)
    requires base > 0 && c < Pow(base, k)
    ensures ToDigits(v * Pow(base, k) + c, base, n + k) == ToDigits(v, base, n) + ToDigits(c, base, k)
    decreases k
  {
    if k == 0 {
      assert ToDigits(v, base, n) + [] == ToDigits(v, base, n);
    } else {
      var w := v * Pow(base, k) + c;
      var q, r := c / base, c % base;
      assert c == q * base + r;
      DivLess(c, base, Pow(base, k - 1));
      Regroup(v, Pow(base, k - 1), base, q, r);
      DivModUnique(v * Pow(base, k - 1) + q, r, base);
      ConcatDigits(v, q, base, n, k - 1);
      assert ToDigits(w, base, n + k) == ToDigits(v, base, n) + ToDigits(q, base, k - 1) + [r];
    }
  }

  lemma {:induction false} PowAdd(base: nat, a: nat, b: nat)
    requires base > 0
    ensures Pow(base, a + b) == Pow(base, a) * Pow(base, b)
    decreases a
  {
    if a > 0 {
      PowAdd(base, a - 1, b);
      MulAssociative(base, Pow(base, a - 1), Pow(base, b));
    }
  }
}
