/** Products of two variables, named so that the proofs say which ones they need. */
module Arithmetic {

  function Times(a: nat, b: nat): nat { a * b }

  lemma {:induction false} TimesMono(a: nat, b: nat, k: nat)
    requires a <= b
    ensures Times(a, k) <= Times(b, k) && Times(k, a) <= Times(k, b)
    ensures a < b ==> Times(a, k) + k <= Times(b, k)
  {
    if k != 0 {
      TimesMono(a, b, k - 1);
    }
  }

  lemma {:induction false} TimesAdd(a: nat, b: nat, k: nat)
    ensures Times(a + b, k) == Times(a, k) + Times(b, k)
    ensures Times(k, a + b) == Times(k, a) + Times(k, b)
  {
  }
}
