/**
  Multiplication, quotient and remainder on natural numbers by repeated addition and subtraction.
  They are `*`, `/` and `%` (lemma `Meaning`), in a form that needs linear reasoning only.
 */
module Arith {

  /** A width: a positive number of bytes. */
  type pos = x: int | x > 0 witness 1

  // Each function is split into a name and one step of its definition, so that the verifier unfolds
  // it only where a proof mentions the step.

  function Times(q: nat, m: nat): nat
    decreases q, 1
  {
    TimesStep(q, m)
  }

  function TimesStep(q: nat, m: nat): nat
    decreases q, 0
  {
    if q == 0 then 0 else Times(q - 1, m) + m
  }

  function Quot(x: nat, m: pos): nat
    decreases x, 1
  {
    QuotStep(x, m)
  }

  function QuotStep(x: nat, m: pos): nat
    decreases x, 0
  {
    if x < m then 0 else Quot(x - m, m) + 1
  }

  function Rem(x: nat, m: pos): (r: nat)
    ensures r < m
    decreases x, 1
  {
    RemStep(x, m)
  }

  function RemStep(x: nat, m: pos): (r: nat)
    ensures r < m
    decreases x, 0
  {
    if x < m then x else Rem(x - m, m)
  }

  lemma TimesUnfold(q: nat, m: nat)
    ensures Times(q, m) == if q == 0 then 0 else Times(q - 1, m) + m
  {
    assert Times(q, m) == TimesStep(q, m);
  }

  lemma QuotUnfold(x: nat, m: pos)
    ensures Quot(x, m) == if x < m then 0 else Quot(x - m, m) + 1
    ensures Rem(x, m) == if x < m then x else Rem(x - m, m)
  {
    assert Quot(x, m) == QuotStep(x, m) && Rem(x, m) == RemStep(x, m);
  }

  lemma {:induction false} QuotRem(x: nat, m: pos)
    ensures x == Times(Quot(x, m), m) + Rem(x, m)
  {
    QuotUnfold(x, m);
    TimesUnfold(Quot(x, m), m);
    if x >= m { QuotRem(x - m, m); }
  }

  lemma {:induction false} QuotUnique(q: nat, r: nat, m: pos)
    requires r < m
    ensures Quot(Times(q, m) + r, m) == q && Rem(Times(q, m) + r, m) == r
  {
    TimesUnfold(q, m);
    QuotUnfold(Times(q, m) + r, m);
    if q > 0 { QuotUnique(q - 1, r, m); }
  }

  lemma {:induction false} TimesAdd(a: nat, b: nat, m: nat)
    ensures Times(a + b, m) == Times(a, m) + Times(b, m)
  {
    TimesUnfold(b, m);
    TimesUnfold(a + b, m);
    if b > 0 { TimesAdd(a, b - 1, m); }
  }

  lemma {:induction false} TimesMonotone(a: nat, b: nat, m: nat)
    requires a <= b
    ensures Times(a, m) <= Times(b, m)
  {
    TimesUnfold(b, m);
    if a < b { TimesMonotone(a, b - 1, m); }
  }

  lemma {:induction false} TimesSum(q: nat, a: nat, b: nat)
    ensures Times(q, a + b) == Times(q, a) + Times(q, b)
  {
    TimesUnfold(q, a);
    TimesUnfold(q, b);
    TimesUnfold(q, a + b);
    if q > 0 { TimesSum(q - 1, a, b); }
  }

  lemma {:induction false} TimesTimes(q: nat, n: nat, m: nat)
    ensures Times(q, Times(n, m)) == Times(Times(q, n), m)
  {
    TimesUnfold(q, Times(n, m));
    TimesUnfold(q, n);
    TimesUnfold(0, m);
    if q > 0 {
      TimesTimes(q - 1, n, m);
      TimesAdd(Times(q - 1, n), n, m);
    }
  }

  lemma {:induction false} TimesPositive(n: pos, m: pos)
    ensures Times(n, m) >= m
  {
    TimesUnfold(n, m);
    if n > 1 { TimesPositive(n - 1, m); }
  }

  /** The next multiple. */
  lemma TimesNext(q: nat, m: nat)
    ensures Times(q + 1, m) == Times(q, m) + m
  {
    TimesUnfold(q + 1, m);
  }

  lemma {:induction false} QuotMonotone(x: nat, y: nat, m: pos)
    requires x <= y
    ensures Quot(x, m) <= Quot(y, m)
    decreases y
  {
    QuotUnfold(x, m);
    QuotUnfold(y, m);
    if x >= m { QuotMonotone(x - m, y - m, m); }
  }

  /** Cells of width `m` grouped by `n` are cells of width `n * m`. */
  lemma QuotQuot(x: nat, n: pos, m: pos)
    ensures Times(n, m) > 0 && Quot(x, Times(n, m)) == Quot(Quot(x, m), n)
  {
    QuotRem(x, m);
    QuotRem(Quot(x, m), n);
    QuotOfQuot(x, Quot(x, m), Quot(Quot(x, m), n), Rem(Quot(x, m), n), Rem(x, m), n, m);
  }

  lemma QuotOfQuot(x: nat, q: nat, Q: nat, R: nat, r: nat, n: pos, m: pos)
    requires x == Times(q, m) + r && q == Times(Q, n) + R && R < n && r < m
    ensures Times(n, m) > 0 && Quot(x, Times(n, m)) == Q
  {
    Regroup(Q, R, r, n, m);
  }

  lemma Regroup(Q: nat, R: nat, r: nat, n: pos, m: pos)
    requires R < n && r < m
    ensures Times(n, m) > 0
    ensures Quot(Times(Times(Q, n) + R, m) + r, Times(n, m)) == Q
  {
    TimesPositive(n, m);
    TimesAdd(Times(Q, n), R, m);
    TimesTimes(Q, n, m);
    TimesMonotone(R + 1, n, m);
    TimesUnfold(R + 1, m);
    QuotUnique(Q, Times(R, m) + r, Times(n, m));
  }

  /** `x / m`, rounded up. */
  function Ceil(x: nat, m: pos): nat {
    Quot(x + m - 1, m)
  }

  lemma CeilStep(d: nat, n: nat, m: pos)
    requires Rem(d, m) == 0 && 0 < n <= m
    ensures Ceil(d + n, m) == Ceil(d, m) + 1
  {
    QuotRem(d, m);
    CeilFrom(Quot(d, m), n, m);
  }

  lemma CeilFrom(q: nat, n: nat, m: pos)
    requires 0 < n <= m
    ensures Ceil(Times(q, m) + n, m) == q + 1 && Ceil(Times(q, m), m) == q
  {
    TimesNext(q, m);
    QuotUnique(q + 1, n - 1, m);
    QuotUnique(q, m - 1, m);
  }

  // ---------------------------------------------------------------- the ordinary operators

  lemma {:induction false} TimesIs(q: nat, m: nat)
    ensures Times(q, m) == q * m
  {
    TimesUnfold(q, m);
    if q > 0 {
      TimesIs(q - 1, m);
      Distribute(q - 1, m);
    }
  }

  lemma Distribute(q: nat, m: nat)
    ensures (q + 1) * m == q * m + m
  {}

  lemma {:induction false} Meaning(x: nat, q: nat, m: pos)
    ensures Times(q, m) == q * m && Quot(x, m) == x / m && Rem(x, m) == x % m
  {
    TimesIs(q, m);
    OperatorsAgree(x, m);
  }

  lemma OperatorsAgree(x: nat, m: pos)
    ensures Quot(x, m) == x / m && Rem(x, m) == x % m
  {
    TimesIs(x / m, m);
    Euclid(x, m);
    QuotUnique(x / m, x % m, m);
  }

  lemma Euclid(x: nat, m: pos)
    ensures x == (x / m) * m + x % m
  {}

  lemma {:induction false} TimesOne(n: nat)
    ensures Times(n, 1) == n
  {
    TimesUnfold(n, 1);
    if n > 0 { TimesOne(n - 1); }
  }

  lemma TimesCommute(a: nat, b: nat)
    ensures Times(a, b) == Times(b, a)
  {
    TimesIs(a, b);
    TimesIs(b, a);
    Commute(a, b);
  }

  lemma Commute(a: nat, b: nat)
    ensures a * b == b * a
  {}
}
