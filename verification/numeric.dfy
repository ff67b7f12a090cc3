/** Exact-real stand-ins for the numeric helpers the Python code relies on:
    `round` (round half to even) and `sum` over a sequence. */
module Numeric {
  import opened Sequences

  /** Python's `round(x)`: the nearest integer, ties going to the even one. */
  function RoundHalfEven(x: real): (n: int)
    ensures -0.5 <= n as real - x <= 0.5
    ensures (n as real - x == 0.5 || x - n as real == 0.5) ==> n % 2 == 0
  {
    var f := x.Floor;
    var frac := x - f as real;
    if frac < 0.5 then f
    else if frac > 0.5 then f + 1
    else if f % 2 == 0 then f else f + 1
  }

  /** The two properties of `RoundHalfEven` determine it: any integer within one half
      of `x` that is even on a tie is the rounded value. */
  lemma RoundHalfEvenUnique(x: real, n: int)
    requires -0.5 <= n as real - x <= 0.5
    requires (n as real - x == 0.5 || x - n as real == 0.5) ==> n % 2 == 0
    ensures n == RoundHalfEven(x)
  {
  }

  lemma RoundHalfEvenOfInt(k: int)
    ensures RoundHalfEven(k as real) == k
  {
    RoundHalfEvenUnique(k as real, k);
  }

  lemma RoundHalfEvenMonotone(x: real, y: real)
    requires x <= y
    ensures RoundHalfEven(x) <= RoundHalfEven(y)
  {
  }

  /** Rounding gives at most 1 exactly below 1.5: 1.5 itself is a tie and goes to 2. */
  lemma RoundHalfEvenAtMostOne(x: real)
    ensures RoundHalfEven(x) <= 1 <==> x < 1.5
  {
  }

  /** Python's `round(x, d)` with `scale == 10^d`: the nearest multiple of `1/scale`,
      ties going to the even multiple. */
  function RoundTo(x: real, scale: int): (r: real)
    requires scale > 0
    ensures -0.5 / scale as real <= r - x <= 0.5 / scale as real
    ensures r == RoundHalfEven(x * scale as real) as real / scale as real
  {
    var n := RoundHalfEven(x * scale as real);
    assert -0.5 <= n as real - x * scale as real <= 0.5;
    DivideBounds(n as real - x * scale as real, scale as real);
    DivideDifference(n as real, x, scale as real);
    n as real / scale as real
  }

  lemma DivideBounds(d: real, s: real)
    requires s > 0.0
    requires -0.5 <= d <= 0.5
    ensures -0.5 / s <= d / s <= 0.5 / s
  {
    DivideMonotone(-0.5, d, s);
    DivideMonotone(d, 0.5, s);
  }

  lemma DivideMonotone(a: real, b: real, s: real)
    requires s > 0.0 && a <= b
    ensures a / s <= b / s
  {
    assert b / s - a / s == (b - a) / s;
  }

  lemma DivideDifference(n: real, x: real, s: real)
    requires s > 0.0
    ensures n / s - x == (n - x * s) / s
  {
    assert x == (x * s) / s;
  }

  lemma {:induction false} RoundToMonotone(x: real, y: real, scale: int)
    requires scale > 0
    requires x <= y
    ensures RoundTo(x, scale) <= RoundTo(y, scale)
  {
    ScaledRoundMonotone(x, y, scale as real);
    RoundToUnfold(x, scale);
    RoundToUnfold(y, scale);
    DivideMonotone(RoundHalfEven(x * scale as real) as real, RoundHalfEven(y * scale as real) as real, scale as real);
  }

  lemma ScaledRoundMonotone(x: real, y: real, s: real)
    requires s > 0.0 && x <= y
    ensures RoundHalfEven(x * s) <= RoundHalfEven(y * s)
  {
    MultiplyMonotone(x, y, s);
    assert x * s <= y * s;
    RoundHalfEvenMonotone(x * s, y * s);
  }

  lemma RoundToUnfold(x: real, scale: int)
    requires scale > 0
    ensures RoundTo(x, scale) == RoundHalfEven(x * scale as real) as real / scale as real
  {
  }

  lemma MultiplyMonotone(a: real, b: real, s: real)
    requires s >= 0.0 && a <= b
    ensures a * s <= b * s && s * a <= s * b
  {
    assert b * s - a * s == (b - a) * s;
  }

  /** A value that is already a whole number is left alone by rounding to any scale. */
  lemma RoundToOfInt(k: int, scale: int)
    requires scale > 0
    ensures RoundTo(k as real, scale) == k as real
  {
    RoundHalfEvenOfInt(k * scale);
    assert k as real * scale as real == (k * scale) as real;
  }

  /** Rounding keeps a value inside an interval whose ends are whole numbers. */
  lemma RoundToWithin(x: real, lo: int, hi: int, scale: int)
    requires scale > 0
    requires lo as real <= x <= hi as real
    ensures lo as real <= RoundTo(x, scale) <= hi as real
  {
    RoundToMonotone(lo as real, x, scale);
    RoundToMonotone(x, hi as real, scale);
    RoundToOfInt(lo, scale);
    RoundToOfInt(hi, scale);
  }

  /** `sum(f(t) for t in s)`. */
  function SumOf<T>(s: seq<T>, f: T -> real): real
  {
    if |s| == 0 then 0.0 else f(s[0]) + SumOf(s[1..], f)
  }

  lemma {:induction false} SumOfAppend<T>(a: seq<T>, b: seq<T>, f: T -> real)
    ensures SumOf(a + b, f) == SumOf(a, f) + SumOf(b, f)
  {
    if |a| == 0 {
      assert a + b == b;
    } else {
      assert (a + b)[1..] == a[1..] + b;
      SumOfAppend(a[1..], b, f);
    }
  }

  /** Taking one element out of a sequence takes its term out of the sum. */
  lemma {:induction false} SumOfRemove<T>(s: seq<T>, k: nat, f: T -> real)
    requires k < |s|
    ensures SumOf(s, f) == f(s[k]) + SumOf(s[..k] + s[k + 1..], f)
  {
    if k == 0 {
      assert s[..0] + s[1..] == s[1..];
    } else {
      SumOfRemove(s[1..], k - 1, f);
      assert s[1..][..k - 1] + s[1..][k..] == (s[..k] + s[k + 1..])[1..];
    }
  }

  /** A sum does not depend on the order of its terms. */
  lemma {:induction false} SumOfPermutation<T>(a: seq<T>, b: seq<T>, f: T -> real)
    requires multiset(a) == multiset(b)
    ensures SumOf(a, f) == SumOf(b, f)
  {
    if |a| == 0 {
      assert |multiset(b)| == 0;
    } else {
      assert a[0] in multiset(a);
      var k := IndexOf(b, a[0]);
      var rest := b[..k] + b[k + 1..];
      MultisetWithout(b, k);
      MultisetTail(a);
      assert multiset(rest) == multiset(b) - multiset{a[0]};
      SumOfPermutation(a[1..], rest, f);
      SumOfRemove(b, k, f);
      assert SumOf(a, f) == f(a[0]) + SumOf(a[1..], f);
    }
  }
}
