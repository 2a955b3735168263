/** Places in a sequence that is gone through round after round. */
module Rounds {
  /** Place `p` of round `q`, in a sequence of length `n`. */
  lemma Divides(n: nat, q: nat, p: nat)
    requires p < n
    ensures (n * q + p) / n == q && (n * q + p) % n == p
  {
    var i := n * q + p;
    assert i == n * (i / n) + i % n;
    SameQuotient(n, q, i / n, p, i % n);
  }

  lemma SameQuotient(n: nat, q: nat, e: nat, p: nat, m: nat)
    requires p < n && m < n && n * q + p == n * e + m
    ensures q == e && p == m
  {
    if q < e { Further(n, q, e); }
    if e < q { Further(n, e, q); }
  }

  lemma Further(n: nat, q: nat, e: nat)
    requires q < e
    ensures n * e >= n * q + n
  {
    var d := e - q - 1;
    assert n * d >= 0;
    assert n * (q + 1 + d) == n * q + n + n * d;
  }
}
