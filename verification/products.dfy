/** Products of natural numbers. */
module Products {

  lemma MulMonotone(a: nat, b: nat, c: nat)
    requires a <= b
    ensures a * c <= b * c
  {
  }

  lemma MulNext(n: nat, c: nat)
    requires n > 0
    ensures n * c == (n - 1) * c + c
  {
  }

  lemma MulStep(j: nat, k: nat, c: nat)
    requires j < k
    ensures j * c + c <= k * c
  {
    MulNext(j + 1, c);
    MulMonotone(j + 1, k, c);
  }
}
