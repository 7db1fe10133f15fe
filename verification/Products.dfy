/** The few facts about products and quotients the proofs rest on. */
module Products {

  lemma ProductsAscend(a: int, b: int, m: nat)
    requires a <= b
    ensures a * m <= b * m
  {
    assert b * m == a * m + (b - a) * m;
  }

  lemma NextMultiple(q: int, m: int)
    ensures (q + 1) * m == q * m + m
  {
  }

  lemma QuotientBound(n: nat, m: nat, total: int)
    requires m > 0 && n * m <= total
    ensures n <= total / m
  {
    var q, rest := total / m, total % m;
    assert total == q * m + rest;
    if n > q {
      NextMultiple(q, m);
      ProductsAscend(q + 1, n, m);
      assert false;
    }
  }

  /** Division with remainder is unique. */
  lemma RemainderIs(t: int, q: int, r: nat, m: nat)
    requires r < m && t == q * m + r
    ensures t % m == r && t / m == q
  {
    var q', r' := t / m, t % m;
    assert t == q' * m + r';
    if q' < q {
      NextMultiple(q', m);
      ProductsAscend(q' + 1, q, m);
      assert false;
    } else if q < q' {
      NextMultiple(q, m);
      ProductsAscend(q + 1, q', m);
      assert false;
    }
  }
}
