/** Finite sums over row numbers, the shape of every SUM and COUNT the services ask of a table. */
module Sums {

  function Sum(n: nat, f: nat -> int): int {
    if n == 0 then 0 else Sum(n - 1, f) + f(n - 1)
  }

  lemma {:induction false} SumCongruent(n: nat, f: nat -> int, g: nat -> int)
    requires forall i: nat | i < n :: f(i) == g(i)
    ensures Sum(n, f) == Sum(n, g)
  {
    if n > 0 {
      SumCongruent(n - 1, f, g);
    }
  }

  /** Two summands that differ at one row only. */
  lemma {:induction false} SumChangedAt(n: nat, f: nat -> int, g: nat -> int, k: nat)
    requires k < n
    requires forall i: nat | i < n && i != k :: f(i) == g(i)
    ensures Sum(n, g) == Sum(n, f) - f(k) + g(k)
  {
    if k == n - 1 {
      SumCongruent(n - 1, f, g);
    } else {
      SumChangedAt(n - 1, f, g, k);
    }
  }

  lemma {:induction false} SumAdds(n: nat, f: nat -> int, g: nat -> int, h: nat -> int)
    requires forall i: nat | i < n :: h(i) == f(i) + g(i)
    ensures Sum(n, h) == Sum(n, f) + Sum(n, g)
  {
    if n > 0 {
      SumAdds(n - 1, f, g, h);
    }
  }

  lemma {:induction false} SumZero(n: nat, f: nat -> int)
    requires forall i: nat | i < n :: f(i) == 0
    ensures Sum(n, f) == 0
  {
    if n > 0 {
      SumZero(n - 1, f);
    }
  }

  /** Rows past the first n contribute one summand each; here a single one. */
  lemma {:induction false} SumExtends(n: nat, f: nat -> int, g: nat -> int)
    requires forall i: nat | i < n :: f(i) == g(i)
    ensures Sum(n + 1, g) == Sum(n, f) + g(n)
  {
    SumCongruent(n, f, g);
  }

  /** Further rows that contribute nothing. */
  lemma {:induction false} SumPadded(n: nat, m: nat, f: nat -> int, g: nat -> int)
    requires n <= m
    requires forall i: nat | i < n :: f(i) == g(i)
    requires forall i: nat | n <= i < m :: g(i) == 0
    ensures Sum(m, g) == Sum(n, f)
  {
    if n == m {
      SumCongruent(n, f, g);
    } else {
      SumPadded(n, m - 1, f, g);
    }
  }
}
