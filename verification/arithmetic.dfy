/** Products, quotients and remainders under names, so that a proof can treat each of them as a whole. */
module Arithmetic {

  /** A product under a name, so that a proof can treat it as a whole. */
  function Times(a: nat, b: nat): nat {
    a * b
  }

  lemma TimesNext(a: nat, b: nat)
    ensures Times(a + 1, b) == Times(a, b) + b
    ensures Times(0, b) == 0
  {
  }

  lemma TimesMonotone(a: nat, a': nat, b: nat)
    requires a <= a'
    ensures Times(a, b) <= Times(a', b)
  {
  }

  /** A quotient under a name; in a magnified image, the source coordinate a coordinate shows. */
  function Quot(x: nat, scale: nat): nat
    requires scale > 0
  {
    x / scale
  }

  lemma QuotRange(x: nat, scale: nat)
    requires scale > 0
    ensures Times(Quot(x, scale), scale) <= x < Times(Quot(x, scale), scale) + scale
  {
  }

  /** The remainder; in a magnified image, which of the duplicates of its source coordinate a coordinate is. */
  function Rem(x: nat, scale: nat): (r: nat)
    requires scale > 0
    ensures r < scale && x == Times(Quot(x, scale), scale) + r
  {
    QuotRange(x, scale);
    x - Times(Quot(x, scale), scale)
  }

  lemma QuotOf(q: nat, r: nat, scale: nat)
    requires r < scale
    ensures Quot(Times(q, scale) + r, scale) == q && Rem(Times(q, scale) + r, scale) == r
  {
    hide Times, Quot;
    var x := Times(q, scale) + r;
    QuotRange(x, scale);
    var p := Quot(x, scale);
    if p < q {
      TimesNext(p, scale);
      TimesMonotone(p + 1, q, scale);
    } else if q < p {
      TimesNext(q, scale);
      TimesMonotone(q + 1, p, scale);
    }
  }

  lemma QuotBound(x: nat, scale: nat, n: nat)
    requires scale > 0 && x < Times(n, scale)
    ensures Quot(x, scale) < n
  {
    hide Times, Quot;
    QuotRange(x, scale);
    if n <= Quot(x, scale) {
      TimesMonotone(n, Quot(x, scale), scale);
    }
  }

  /** A quotient and a remainder are the only ones. */
  lemma DivUnique(n: nat, d: nat, q: nat, r: nat)
    requires r < d && n == Times(q, d) + r
    ensures n / d == q && n % d == r
  {
    QuotOf(q, r, d);
    assert Quot(n, d) == q;
    DivMeans(n, d);
  }

  /** The named quotient and remainder are the operators'. */
  lemma NamesMeanOperators(n: nat, d: nat)
    requires d > 0
    ensures Quot(n, d) == n / d && Rem(n, d) == n % d
  {
    DivMeans(n, d);
  }

  lemma DivMeans(n: nat, d: nat)
    requires d > 0
    ensures n == Times(n / d, d) + n % d && n % d < d
  {
  }
}
