/** Integer rounding. All contracts compute a*b/d through a 256-bit intermediate,
    so the quotient is exact; only its return to i128 can fail, and the callers
    model that as an aborted call. */
module MulDiv {
  type pos = x: int | 0 < x witness 1

  const I128_MAX: int := 0x7fff_ffff_ffff_ffff_ffff_ffff_ffff_ffff

  function Floor(a: nat, b: nat, d: pos): nat {
    a * b / d
  }

  function Ceil(a: nat, b: nat, d: pos): nat {
    (a * b + d - 1) / d
  }

  function Min(a: int, b: int): int {
    if a <= b then a else b
  }

  /** A quotient is the greatest integer whose multiple stays below. */
  lemma QuotientGalois(n: nat, d: pos, x: int)
    ensures x <= n / d <==> x * d <= n
  {
    var q := n / d;
    assert q * d <= n < q * d + d;
    MultipleOrder(x, q, d);
    MultipleOrder(q + 1, x, d);
  }

  lemma MultipleOrder(x: int, y: int, d: pos)
    ensures x <= y ==> x * d <= y * d
  {
  }

  /** A floor is the greatest integer whose multiple stays below. */
  lemma FloorGalois(a: nat, b: nat, d: pos, x: int)
    ensures x <= Floor(a, b, d) <==> x * d <= a * b
  {
    QuotientGalois(a * b, d, x);
  }

  /** A ceiling is the least integer whose multiple reaches. */
  lemma CeilGalois(a: nat, b: nat, d: pos, x: int)
    ensures Ceil(a, b, d) <= x <==> a * b <= x * d
  {
    QuotientGalois(a * b + d - 1, d, x + 1);
  }

  lemma FloorBounds(a: nat, b: nat, d: pos)
    ensures Floor(a, b, d) * d <= a * b < (Floor(a, b, d) + 1) * d
  {
    FloorGalois(a, b, d, Floor(a, b, d));
    FloorGalois(a, b, d, Floor(a, b, d) + 1);
  }

  lemma CeilBounds(a: nat, b: nat, d: pos)
    ensures a * b <= Ceil(a, b, d) * d < a * b + d
  {
    CeilGalois(a, b, d, Ceil(a, b, d));
    CeilGalois(a, b, d, Ceil(a, b, d) - 1);
  }

  lemma FloorMonotone(a: nat, a': nat, b: nat, d: pos)
    requires a <= a'
    ensures Floor(a, b, d) <= Floor(a', b, d)
  {
    FloorBounds(a, b, d);
    assert a * b <= a' * b;
    FloorGalois(a', b, d, Floor(a, b, d));
  }

  /** When one more of `a` raises a ceiling, respectively a floor. */
  predicate CeilRises(a: nat, b: nat, d: pos) {
    d <= (a * b + d - 1) % d + b
  }

  predicate FloorRises(a: nat, b: nat, d: pos) {
    d <= a * b % d + b
  }

  lemma DivUnique(a: nat, d: pos, q: int)
    requires q * d <= a < (q + 1) * d
    ensures a / d == q
  {
    FloorGalois(a, 1, d, q);
    FloorGalois(a, 1, d, q + 1);
  }

  /** A quotient grows by at most one when the rate is below one. */
  lemma QuotientStep(n: nat, b: nat, d: pos)
    requires b < d
    ensures (n + b) / d == n / d + if d <= n % d + b then 1 else 0
  {
    var q, m := n / d, n % d;
    assert n == q * d + m;
    if d <= m + b {
      DivUnique(n + b, d, q + 1);
    } else {
      DivUnique(n + b, d, q);
    }
  }

  lemma CeilStep(a: nat, b: nat, d: pos)
    requires b < d
    ensures Ceil(a + 1, b, d) == Ceil(a, b, d) + if CeilRises(a, b, d) then 1 else 0
  {
    assert (a + 1) * b + d - 1 == (a * b + d - 1) + b;
    QuotientStep(a * b + d - 1, b, d);
  }

  lemma FloorStep(a: nat, b: nat, d: pos)
    requires b < d
    ensures Floor(a + 1, b, d) == Floor(a, b, d) + if FloorRises(a, b, d) then 1 else 0
  {
    assert (a + 1) * b == a * b + b;
    QuotientStep(a * b, b, d);
  }

  lemma CeilMonotone(a: nat, a': nat, b: nat, d: pos)
    requires a <= a'
    ensures Ceil(a, b, d) <= Ceil(a', b, d)
  {
    CeilBounds(a', b, d);
    assert a * b <= a' * b;
    CeilGalois(a, b, d, Ceil(a', b, d));
  }

  lemma CeilSwap(a: nat, b: nat, d: pos)
    ensures Ceil(a, b, d) == Ceil(b, a, d)
  {
    assert a * b == b * a;
  }

  /** Ceilings are subadditive. */
  lemma CeilSubadditive(a: nat, a': nat, b: nat, d: pos)
    ensures Ceil(a + a', b, d) <= Ceil(a, b, d) + Ceil(a', b, d)
  {
    CeilBounds(a, b, d);
    CeilBounds(a', b, d);
    assert (a + a') * b == a * b + a' * b;
    assert (Ceil(a, b, d) + Ceil(a', b, d)) * d == Ceil(a, b, d) * d + Ceil(a', b, d) * d;
    CeilGalois(a + a', b, d, Ceil(a, b, d) + Ceil(a', b, d));
  }
}
