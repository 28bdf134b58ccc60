/** Ledgers over the reals whose every step multiplies by a factor. */
module Scaling {
  import opened Ledger

  function Times<T>(f: T -> real): (real, T) -> real {
    (total: real, x: T) => total * f(x)
  }

  lemma Swap(a: real, b: real, c: real)
    ensures (a * b) * c == (a * c) * b
  {
  }

  lemma TimesCommutes<T(!new)>(f: T -> real)
    ensures Commutes(Times(f))
  {
    forall total, x, y
      ensures Times(f)(Times(f)(total, x), y) == Times(f)(Times(f)(total, y), x)
    {
      Swap(total, f(x), f(y));
    }
  }

  lemma ProductMonotone(a: real, b: real, c: real, d: real)
    requires 0.0 <= a <= b && 0.0 <= c <= d
    ensures 0.0 <= a * c <= b * d
  {
    assert a * c <= b * c;
    assert b * c <= b * d;
  }

  lemma TimesDominated<T(!new)>(f: T -> real, g: T -> real)
    requires forall x :: 0.0 <= f(x) <= g(x)
    ensures Dominated(Times(f), Times(g))
  {
    forall a, b, x | 0.0 <= a <= b
      ensures 0.0 <= Times(f)(a, x) <= Times(g)(b, x)
    {
      ProductMonotone(a, b, f(x), g(x));
    }
  }

  /** Larger factors from a larger start. */
  lemma TimesMonotone<T(!new)>(f: T -> real, g: T -> real, low: real, high: real, s: seq<T>)
    requires 0.0 <= low <= high
    requires forall x :: 0.0 <= f(x) <= g(x)
    ensures 0.0 <= Running(Times(f), low, s) <= Running(Times(g), high, s)
  {
    TimesDominated(f, g);
    RunningMonotone(Times(f), Times(g), low, high, s);
  }

  /** `total` shared by `heads` is no more each than `other` shared by `otherHeads`. */
  predicate NoMoreEach(total: real, heads: real, other: real, otherHeads: real) {
    total * otherHeads <= other * heads
  }

  lemma PerHeadStep(small: real, large: real, p: real, q: real, less: real, more: real)
    requires 0.0 <= large && 0.0 <= p && 0.0 <= q && 0.0 <= less <= more && NoMoreEach(small, q, large, p)
    ensures 0.0 <= large * more && NoMoreEach(small * less, q, large * more, p)
  {
    Swap(small, less, p);
    Swap(large, more, q);
    ProductMonotone(0.0, large, 0.0, more);
    ProductMonotone(0.0, large, 0.0, q);
    Shrink(small * p, large * q, less, more);
  }

  lemma Shrink(a: real, b: real, less: real, more: real)
    requires a <= b && 0.0 <= b && 0.0 <= less <= more
    ensures a * less <= b * more
  {
    assert a * less <= b * less;
    assert b * less <= b * more;
  }

  /** Smaller factors for the larger group, from a start that is no more each: it pays no more each. */
  lemma {:induction false} SmallerFactorsNoMoreEach<T(!new)>(
    f: T -> real, g: T -> real, p: real, q: real, startP: real, startQ: real, s: seq<T>)
    requires 0.0 <= startP && 0.0 <= p && 0.0 <= q && NoMoreEach(startQ, q, startP, p)
    requires forall x :: 0.0 <= g(x) <= f(x)
    ensures 0.0 <= Running(Times(f), startP, s)
    ensures NoMoreEach(Running(Times(g), startQ, s), q, Running(Times(f), startP, s), p)
  {
    if s != [] {
      var n := |s| - 1;
      SmallerFactorsNoMoreEach(f, g, p, q, startP, startQ, s[..n]);
      PerHeadStep(Running(Times(g), startQ, s[..n]), Running(Times(f), startP, s[..n]), p, q, g(s[n]), f(s[n]));
    }
  }
}
