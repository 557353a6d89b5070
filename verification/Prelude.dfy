/** Shared vocabulary: optional values, used wherever a step or a lookup may be undefined. */
module Prelude {

  datatype Option<+T> = None | Some(value: T)
}

/** Division by a variable. */
module Division {

  lemma {:induction false} MulGap(a: int, b: int, n: nat)
    ensures a < b ==> a * n + n <= b * n
    decreases b - a
  {
    if a < b {
      assert b * n == (b - 1) * n + n;
      MulGap(a, b - 1, n);
    }
  }

  lemma DivUnique(x: int, n: nat, q: int, r: nat)
    requires n > 0 && x == q * n + r && r < n
    ensures x / n == q && x % n == r
  {
    MulGap(x / n, q, n);
    MulGap(q, x / n, n);
  }
}
