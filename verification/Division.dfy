/** How many portions of a fixed size a number needs. */
module Division {

  lemma {:induction false} Monotone(a: nat, b: nat, m: nat)
    requires a <= b
    ensures a * m <= b * m
  {
    if a < b {
      Monotone(a, b - 1, m);
      assert b * m == (b - 1) * m + m;
    }
  }

  lemma CeilingBound(n: nat, limit: nat, k: nat)
    requires limit > 0
    ensures n <= k * limit <==> (n + limit - 1) / limit <= k
  {
    var q := (n + limit - 1) / limit;
    assert q * limit <= n + limit - 1 < q * limit + limit;
    if q <= k {
      Monotone(q, k, limit);
    } else {
      Monotone(k, q - 1, limit);
      assert q * limit == (q - 1) * limit + limit;
    }
  }

  lemma RoundsEnough(p: nat, limit: nat)
    requires limit > 0
    ensures p < (p / limit + 1) * limit
  {
    assert p < (p / limit) * limit + limit;
  }
}
