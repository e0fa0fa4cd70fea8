// Types and facts shared by the components of the gateway.
module Common {

  datatype Option<+T> = None | Some(value: T)

  datatype Result<+T, +E> = Ok(value: T) | Err(error: E)

  /** Quotient and remainder are the only ones. */
  lemma UniqueRemainder(v: int, n: nat, q: int, r: int)
    requires n > 0 && v == n * q + r && 0 <= r < n
    ensures v % n == r && v / n == q
  {
    var d := v / n - q;
    assert v == n * (v / n) + v % n;
    assert n * d == r - v % n;
    assert n * d < n && n * d > 0 - n;
    assert d == 0;
  }

  /** A number above all of the given ones. */
  lemma Unused(taken: set<nat>) returns (n: nat)
    ensures n !in taken && forall m :: m in taken ==> m < n
    decreases |taken|
  {
    n := 0;
    if taken != {} {
      var m :| m in taken;
      n := Unused(taken - {m});
      if m >= n {
        n := m + 1;
      }
      assert taken == taken - {m} + {m};
    }
  }
}
