/** Facts about products and quotients of integer variables. */
module Arithmetic {
  lemma QuotientIs(k: nat, t: nat, q: nat, r: nat)
    requires r < t && k == q * t + r
    ensures k / t == q && k % t == r
  {
    var d := k / t - q;
    assert d * t == k / t * t - q * t;
    MultipleGrows(d, t);
  }

  lemma MultipleGrows(d: int, t: nat)
    ensures d > 0 ==> d * t >= t
    ensures d < 0 ==> d * t <= 0 - t
  {
    if d > 0 {
      AtLeastOnce(d, t);
    } else if d < 0 {
      AtLeastOnce(-d, t);
      assert -d * t == -(d * t);
    }
  }

  lemma {:induction false} AtLeastOnce(d: nat, t: nat)
    requires d > 0
    ensures d * t >= t
  {
    if d > 1 {
      AtLeastOnce(d - 1, t);
      assert d * t == (d - 1) * t + t;
    }
  }

  lemma DividesOne(c: nat, k: int)
    requires c * k == 1
    ensures c == 1
  {
    AtMostOnce(c, k);
  }

  lemma AtMostOnce(c: nat, k: int)
    ensures c > 0 && k > 0 ==> c * k >= c
    ensures k <= 0 ==> c * k <= 0
  {
    if c > 0 && k > 0 {
      AtLeastOnce(k, c);
      assert k * c == c * k;
    } else if k <= 0 {
      assert c * k == -(c * -k);
    }
  }
}
