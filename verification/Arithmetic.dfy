/** Facts about products that the verifier does not find by itself. */
module Arithmetic {

  lemma TimesNext(a: nat, b: nat)
    ensures a * (b + 1) == a * b + a
  {
  }

  /** Multiples of w for different factors lie at least w apart. */
  lemma {:induction false} RowsApart(w: nat, a: nat, b: nat)
    requires a < b
    ensures w * a + w <= w * b
    decreases b
  {
    TimesNext(w, b - 1);
    if a < b - 1 {
      RowsApart(w, a, b - 1);
    }
  }

  /** Quotient and remainder are unique. */
  lemma RemainderIs(n: nat, d: nat, q: nat, r: nat)
    requires n == d * q + r && r < d
    ensures n % d == r && n / d == q
  {
    var p := n / d;
    assert n == d * p + n % d;
    if p < q {
      RowsApart(d, p, q);
    } else if q < p {
      RowsApart(d, q, p);
    }
  }

  lemma Regrouped(a: nat, b: nat, c: nat, d: nat)
    ensures a * (b * c + d) == (a * b) * c + a * d
  {
  }

  /** Dividing by 256 and then by b is dividing by the product. */
  lemma DivideTwice(n: nat, b: nat)
    requires b > 0
    ensures n / 256 / b == n / (256 * b)
  {
    var q, r := n / 256, n % 256;
    var c, d := q / b, q % b;
    assert q == b * c + d;
    Regrouped(256, b, c, d);
    RemainderIs(n, 256 * b, c, 256 * d + r);
  }
}
