// A property of every prefix of a run, reduced to a condition on every step.
module Steps {

  // If a property holds at first, and is passed on at each step exactly when that step is fine,
  // then it holds throughout exactly when every step is fine.
  lemma {:induction false} Stepwise(holds: nat -> bool, fine: nat -> bool, n: nat)
    requires holds(0)
    requires forall k: nat | k < n && holds(k) :: holds(k + 1) <==> fine(k)
    ensures (forall k: nat | k <= n :: holds(k)) <==> (forall k: nat | k < n :: fine(k))
  {
    if n > 0 {
      Stepwise(holds, fine, n - 1);
      if forall k: nat | k <= n :: holds(k) {
        assert holds(n) && holds(n - 1) && fine(n - 1);
      }
      if forall k: nat | k < n :: fine(k) {
        assert fine(n - 1) && holds(n - 1) && holds(n);
      }
    }
  }
}
