/** Positions on a cycle of n slots. */
module Cyclic {
  // The slot d steps after the cursor.
  function At(cursor: nat, d: nat, n: nat): (s: nat)
    requires n > 0
    ensures s < n
  {
    (cursor + d) % n
  }

  // Every slot is some number of steps from the cursor.
  lemma Reach(cursor: nat, s: nat, n: nat) returns (d: nat)
    requires s < n
    ensures d < n && At(cursor, d, n) == s
  {
    var c := cursor % n;
    var q := cursor / n;
    d := if s >= c then s - c else s + n - c;
    assert cursor + d == n * q + (c + d);
    if s >= c {
      ModShift(q, s, n);
      assert cursor + d == n * q + s;
    } else {
      ModShift(q + 1, s, n);
      assert cursor + d == n * (q + 1) + s;
    }
  }

  // From the slot after s, it takes a whole turn to come back to s.
  lemma LastStep(s: nat, d: nat, n: nat)
    requires s < n && d < n && At(s + 1, d, n) == s
    ensures d == n - 1
  {
    var q := (s + 1 + d) / n;
    assert s + 1 + d == n * q + s;
    if q > 1 { Multiple(n, q - 1); }
  }

  lemma ModShift(q: nat, s: nat, n: nat)
    requires s < n
    ensures (n * q + s) % n == s
  {
    var m := n * q + s;
    DivisionUnique(n, q, s, m / n, m % n);
  }

  lemma DivisionUnique(n: nat, q: int, r: nat, q': int, r': nat)
    requires r < n && r' < n && n * q + r == n * q' + r'
    ensures r == r'
  {
    if q < q' {
      Multiple(n, q' - q);
    } else if q' < q {
      Multiple(n, q - q');
    }
  }

  lemma Multiple(n: nat, k: int)
    requires k >= 1
    ensures n * k >= n
  {
  }
}
