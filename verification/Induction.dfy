/** Induction over the natural numbers as a lemma about an arbitrary property. */
module Induction {

  lemma {:induction false} Induct(holds: nat -> bool, n: nat)
    requires holds(0) && forall k: nat :: holds(k) ==> holds(k + 1)
    ensures holds(n)
  {
    if n > 0 {
      Induct(holds, n - 1);
    }
  }
}
