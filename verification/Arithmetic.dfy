/** Facts about products and quotients. */
module Arithmetic {

  lemma MulSum(size: nat, a: nat, b: nat)
    ensures size * (a + b) == size * a + size * b
  {
  }

  lemma MulGap(size: nat, p: nat, q: nat)
    ensures p < q ==> size * p + size <= size * q
  {
    if p < q {
      var d: nat := q - p - 1;
      MulSum(size, p, 1);
      MulSum(size, p + 1, d);
      assert size * q == size * (p + 1 + d);
    }
  }

  lemma DivUnique(n: nat, size: nat, q: nat, r: nat)
    requires size > 0 && n == size * q + r && r < size
    ensures n / size == q && n % size == r
  {
    MulGap(size, n / size, q);
    MulGap(size, q, n / size);
  }

  lemma DivMinus(n: nat, size: nat)
    requires 0 < size <= n
    ensures n / size == (n - size) / size + 1 && n % size == (n - size) % size
  {
    var q, r := (n - size) / size, (n - size) % size;
    assert n == size * (q + 1) + r by { assert size * (q + 1) == size * q + size; }
    DivUnique(n, size, q + 1, r);
  }
}
