/** The round-robin cursor of MAsioIOServerPool. */
module RoundRobin {
  import opened Division

  /** The cursor after one more call: up by one, back to 0 when it reaches the number of contexts. */
  function Advance(n: nat, cursor: nat): (next: nat)
    requires cursor < n
    ensures next < n
  {
    if cursor + 1 >= n then 0 else cursor + 1
  }

  /** The contexts handed out by `k` serial calls that start with the given cursor. */
  function Served(n: nat, cursor: nat, k: nat): (served: seq<nat>)
    requires cursor < n
    ensures |served| == k
    decreases k
  {
    if k == 0 then [] else [cursor] + Served(n, Advance(n, cursor), k - 1)
  }

  function CursorAfter(n: nat, cursor: nat, k: nat): (after: nat)
    requires cursor < n
    ensures after < n
    decreases k
  {
    if k == 0 then cursor else CursorAfter(n, Advance(n, cursor), k - 1)
  }

  /** How many calls after one that finds the given cursor context `i` is first handed out. */
  function Distance(n: nat, cursor: nat, i: nat): (d: nat)
    requires cursor < n && i < n
    ensures d < n
  {
    if cursor <= i then i - cursor else i + n - cursor
  }

  // ------------------------------------------------------------------ the laws

  /** How often the context at distance `d` is handed out by `k` calls. */
  function Share(n: nat, k: nat, d: nat): (share: nat)
    requires d < n
  {
    (k + n - 1 - d) / n
  }

  lemma ShareStep(n: nat, k: nat, d: nat)
    requires d < n
    ensures k == 0 ==> Share(n, k, d) == 0
    ensures k > 0 && d == 0 ==> Share(n, k, d) == 1 + Share(n, k - 1, n - 1)
  {
    if k == 0 {
      DivUnique(n - 1 - d, n, 0, n - 1 - d);
    } else if d == 0 {
      var q, r := (k - 1) / n, (k - 1) % n;
      assert (q + 1) * n == q * n + n;
      DivUnique(k + n - 1, n, q + 1, r);
    }
  }

  lemma {:induction false} ServedSplits(n: nat, cursor: nat, k: nat, m: nat)
    requires cursor < n
    ensures Served(n, cursor, k + m) == Served(n, cursor, k) + Served(n, CursorAfter(n, cursor, k), m)
    decreases k
  {
    if k == 0 {
    } else {
      ServedSplits(n, Advance(n, cursor), k - 1, m);
    }
  }

  /** After k calls from a fresh pool the cursor is k mod n. */
  lemma {:induction false} CursorIsCallsModN(n: nat, k: nat)
    requires n > 0
    ensures CursorAfter(n, 0, k) == k % n
    decreases k
  {
    if k == 0 {
      DivUnique(0, n, 0, 0);
    } else {
      CursorIsCallsModN(n, k - 1);
      LastCall(n, 0, k - 1);
      var q, r := (k - 1) / n, (k - 1) % n;
      if r + 1 < n {
        DivUnique(k, n, q, r + 1);
      } else {
        assert (q + 1) * n == q * n + n;
        DivUnique(k, n, q + 1, 0);
      }
    }
  }

  lemma {:induction false} LastCall(n: nat, cursor: nat, k: nat)
    requires cursor < n
    ensures CursorAfter(n, cursor, k + 1) == Advance(n, CursorAfter(n, cursor, k))
    decreases k
  {
    if k == 0 {
    } else {
      LastCall(n, Advance(n, cursor), k - 1);
    }
  }

  lemma FirstServed(n: nat, cursor: nat, k: nat, i: nat)
    requires cursor < n && k > 0
    ensures multiset(Served(n, cursor, k))[i]
         == (if cursor == i then 1 else 0) + multiset(Served(n, Advance(n, cursor), k - 1))[i]
  {
  }

  /** The same count by recursion on the calls. */
  function Tally(n: nat, k: nat, d: nat): (tally: nat)
    requires d < n
    decreases k
  {
    if k == 0 then 0 else if d == 0 then 1 + Tally(n, k - 1, n - 1) else Tally(n, k - 1, d - 1)
  }

  /** A call brings the cursor one nearer to every context but the one it hands out. */
  lemma DistanceStep(n: nat, cursor: nat, i: nat)
    requires cursor < n && i < n
    ensures Distance(n, cursor, i) == 0 <==> cursor == i
    ensures Distance(n, Advance(n, cursor), i)
         == if Distance(n, cursor, i) == 0 then n - 1 else Distance(n, cursor, i) - 1
  {
  }

  lemma {:induction false} ServedTally(n: nat, cursor: nat, k: nat, i: nat)
    requires cursor < n && i < n
    ensures multiset(Served(n, cursor, k))[i] == Tally(n, k, Distance(n, cursor, i))
    decreases k
  {
    if k == 0 {
    } else {
      DistanceStep(n, cursor, i);
      FirstServed(n, cursor, k, i);
      assert Tally(n, k, Distance(n, cursor, i))
          == (if cursor == i then 1 else 0) + Tally(n, k - 1, Distance(n, Advance(n, cursor), i));
      ServedTally(n, Advance(n, cursor), k - 1, i);
    }
  }

  lemma {:induction false} TallyIsShare(n: nat, k: nat, d: nat)
    requires d < n
    ensures Tally(n, k, d) == Share(n, k, d)
    decreases k
  {
    ShareStep(n, k, d);
    if k == 0 {
    } else {
      TallyIsShare(n, k - 1, if d == 0 then n - 1 else d - 1);
    }
  }

  /** From any cursor, k calls hand out context i exactly floor((k + n - 1 - d) / n) times, where
      d is its distance from the cursor. */
  lemma ServedCount(n: nat, cursor: nat, k: nat, i: nat)
    requires cursor < n && i < n
    ensures multiset(Served(n, cursor, k))[i] == Share(n, k, Distance(n, cursor, i))
  {
    ServedTally(n, cursor, k, i);
    TallyIsShare(n, k, Distance(n, cursor, i));
  }

  /** A fresh pool: after k calls context i has been handed out floor((k + n - 1 - i) / n) times. */
  lemma ServedFromFresh(n: nat, k: nat, i: nat)
    requires i < n
    ensures multiset(Served(n, 0, k))[i] == (k + n - 1 - i) / n
  {
    ServedCount(n, 0, k, i);
  }

  lemma ShareIsEven(n: nat, m: nat, d: nat)
    requires d < n
    ensures m / n <= Share(n, m, d) <= m / n + 1
  {
    var q, r := m / n, m % n;
    var rest := r + n - 1 - d;
    assert (q + 1) * n == q * n + n;
    if rest < n {
      DivUnique(m + n - 1 - d, n, q, rest);
    } else {
      DivUnique(m + n - 1 - d, n, q + 1, rest - n);
    }
  }

  /** Over any window of m consecutive calls any two contexts are handed out equally often, to
      within one. */
  lemma WindowIsBalanced(n: nat, before: nat, m: nat, i: nat, j: nat)
    requires i < n && j < n
    ensures var window := multiset(Served(n, 0, before + m)[before..]);
            window[i] <= window[j] + 1
  {
    var cursor := CursorAfter(n, 0, before);
    ServedSplits(n, 0, before, m);
    assert Served(n, 0, before + m)[before..] == Served(n, cursor, m);
    ServedCount(n, cursor, m, i);
    ServedCount(n, cursor, m, j);
    ShareIsEven(n, m, Distance(n, cursor, i));
    ShareIsEven(n, m, Distance(n, cursor, j));
  }
}
