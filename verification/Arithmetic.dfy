/** Facts about products and quotients that several modules use. */
module Arithmetic {

  lemma DivMod(n: int, size: int)
    requires size > 0
    ensures n == n / size * size + n % size
  {
  }

  lemma NextMultiple(q: int, size: int)
    ensures (q + 1) * size == q * size + size
  {
  }

  lemma Complement(a: real, e: real)
    ensures a * (1.0 - e) == a - a * e
    ensures (1.0 - e) * a == a - e * a
  {
  }
}
