/** Facts about quotients and remainders with a variable divisor. */
module Arithmetic {

  lemma MulAtLeast(d: int, size: int)
    requires size >= 0
    ensures d >= 1 ==> d * size >= size
    ensures d <= -1 ==> d * size <= -size
  {
  }

  lemma MulCancel(a: int, b: int, size: nat)
    requires a * size < b * size
    ensures a < b
  {
    MulAtLeast(a - b, size);
    assert (a - b) * size == a * size - b * size;
  }

  /** The quotient and the remainder are unique. */
  lemma RemainderIs(n: int, size: nat, q: int, r: int)
    requires 0 <= r < size && n == q * size + r
    ensures n % size == r && n / size == q
  {
    var q', r' := n / size, n % size;
    assert n == q' * size + r';
    assert (q - q') * size == q * size - q' * size;
    MulAtLeast(q - q', size);
  }

  lemma SubtractOnce(n: nat, size: nat)
    requires 0 < size <= n
    ensures (n - size) % size == n % size
  {
    var q := n / size;
    assert (q - 1) * size == q * size - size;
    RemainderIs(n - size, size, q - 1, n % size);
  }

  lemma QuotientBounds(n: nat, size: nat)
    requires size > 0
    ensures 0 <= n / size && n / size * size <= n < n / size * size + size && n == n / size * size + n % size
  {
    MulAtLeast(n / size, size);
  }

  lemma MulMonotone(i: nat, j: nat, size: nat)
    requires i <= j
    ensures i * size <= j * size && (i + 1) * size == i * size + size
  {
    if i < j {
      MulAtLeast(j - i, size);
      assert (j - i) * size == j * size - i * size;
    }
  }

  /** How many whole pieces of `size` fit into `n`. */
  function Whole(n: nat, size: nat): (q: nat)
    requires size > 0
    ensures q == n / size && q * size <= n < q * size + size
  {
    QuotientBounds(n, size);
    n / size
  }
}
