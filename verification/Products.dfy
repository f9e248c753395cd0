/** The few facts about products that the fixed-point proofs rest on. */
module Products {

  lemma Distribute(a: int, b: int, c: int)
    ensures (a + b) * c == a * c + b * c && c * (a + b) == c * a + c * b
  {
  }

  lemma Associate(a: int, b: int, c: int)
    ensures a * (b * c) == (a * b) * c
  {
  }

  lemma Shuffle(p: int, q: int, r: int)
    ensures p * q * r == p * r * q
  {
  }

  /** The work of one more round out of m. */
  lemma OneMoreRound(n: nat, m: nat, work: nat)
    requires n < m
    ensures n * work + work == (n + 1) * work <= m * work
  {
    Distribute(n, 1, work);
    Mono(n + 1, m, work);
  }

  lemma MulPos(a: nat, b: nat)
    requires a > 0 && b > 0
    ensures a * b > 0
  {
  }

  lemma Mono(a: nat, b: nat, c: nat)
    requires a <= b
    ensures a * c <= b * c && c * a <= c * b
  {
    Distribute(a, b - a, c);
  }

  lemma MonoStrict(a: nat, b: nat, c: nat)
    requires a < b && c > 0
    ensures a * c < b * c
  {
    Mono(a + 1, b, c);
    Distribute(a, 1, c);
  }

  /** c > 0 and a c <= b c (or <) can be cancelled. */
  lemma Cancel(a: int, b: int, c: nat)
    requires c > 0
    ensures a * c <= b * c ==> a <= b
    ensures a * c < b * c ==> a < b
  {
    if a > b {
      Distribute(b, a - b, c);
      MulPos(a - b, c);
    }
  }

  lemma FloorBounds(n: nat, d: nat)
    requires d > 0
    ensures (n / d) * d <= n < (n / d + 1) * d
  {
    assert n == d * (n / d) + n % d;
    Distribute(n / d, 1, d);
  }

  lemma QuotientAtMost(n: nat, d: nat, bound: nat)
    requires d > 0 && n <= bound * d
    ensures n / d <= bound
  {
    FloorBounds(n, d);
    Cancel(n / d, bound, d);
  }
}
