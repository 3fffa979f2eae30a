/**
  Bits of natural numbers: the masks, shifts and powers of two the components compute with. All
  definitions go bit by bit; `ShiftsAreArithmetic` ties them to multiplication and division.
 */
module Bits {
  import opened Arith

  function Pow2(k: nat): pos
    decreases k, 1
  {
    Pow2Step(k)
  }

  // As in Arith, a name and one step of the definition.
  function Pow2Step(k: nat): pos
    decreases k, 0
  {
    if k == 0 then 1 else 2 * Pow2(k - 1)
  }

  lemma Pow2Unfold(k: nat)
    ensures Pow2(k) == if k == 0 then 1 else 2 * Pow2(k - 1)
  {
    assert Pow2(k) == Pow2Step(k);
  }

  /** `x << k` */
  function Shl(x: nat, k: nat): nat
    decreases k, 1
  {
    ShlStep(x, k)
  }

  function ShlStep(x: nat, k: nat): nat
    decreases k, 0
  {
    if k == 0 then x else 2 * Shl(x, k - 1)
  }

  lemma ShlUnfold(x: nat, k: nat)
    ensures Shl(x, k) == if k == 0 then x else 2 * Shl(x, k - 1)
  {
    assert Shl(x, k) == ShlStep(x, k);
  }

  /** `x >> k` */
  function Shr(x: nat, k: nat): nat
    decreases k, 1
  {
    ShrStep(x, k)
  }

  function ShrStep(x: nat, k: nat): nat
    decreases k, 0
  {
    if k == 0 then x else Shr(x / 2, k - 1)
  }

  lemma ShrUnfold(x: nat, k: nat)
    ensures Shr(x, k) == if k == 0 then x else Shr(x / 2, k - 1)
  {
    assert Shr(x, k) == ShrStep(x, k);
  }

  /** The `k` low bits of `x`. */
  function Low(x: nat, k: nat): (r: nat)
    ensures r < Pow2(k)
    decreases k, 1
  {
    LowStep(x, k)
  }

  function LowStep(x: nat, k: nat): (r: nat)
    ensures r < Pow2(k)
    decreases k, 0
  {
    Pow2Unfold(k);
    if k == 0 then 0 else 2 * Low(x / 2, k - 1) + x % 2
  }

  lemma LowUnfold(x: nat, k: nat)
    ensures Low(x, k) == if k == 0 then 0 else 2 * Low(x / 2, k - 1) + x % 2
  {
    assert Low(x, k) == LowStep(x, k);
  }

  /** Bit `i` of `x`. */
  predicate Bit(x: nat, i: nat) {
    if i == 0 then x % 2 == 1 else Bit(x / 2, i - 1)
  }

  function And(x: nat, y: nat): nat {
    if x == 0 || y == 0 then 0
    else 2 * And(x / 2, y / 2) + (if x % 2 == 1 && y % 2 == 1 then 1 else 0)
  }

  function Or(x: nat, y: nat): nat {
    if x == 0 then y else if y == 0 then x
    else 2 * Or(x / 2, y / 2) + (if x % 2 == 1 || y % 2 == 1 then 1 else 0)
  }

  function Xor(x: nat, y: nat): nat {
    if x == 0 then y else if y == 0 then x
    else 2 * Xor(x / 2, y / 2) + (if x % 2 != y % 2 then 1 else 0)
  }

  // ---------------------------------------------------------------- high and low parts

  lemma {:induction false} SplitBits(x: nat, k: nat)
    ensures x == Shl(Shr(x, k), k) + Low(x, k) && Low(x, k) < Pow2(k)
  {
    ShrUnfold(x, k);
    LowUnfold(x, k);
    Pow2Unfold(k);
    if k > 0 { SplitBits(x / 2, k - 1); }
  }

  lemma {:induction false} JoinBits(q: nat, r: nat, k: nat)
    requires r < Pow2(k)
    ensures Shr(Shl(q, k) + r, k) == q && Low(Shl(q, k) + r, k) == r
  {
    ShlUnfold(q, k);
    Pow2Unfold(k);
    if k > 0 {
      var x := Shl(q, k) + r;
      assert x / 2 == Shl(q, k - 1) + r / 2 && x % 2 == r % 2;
      JoinBits(q, r / 2, k - 1);
    }
  }

  lemma {:induction false} ShlAdd(a: nat, b: nat, k: nat)
    ensures Shl(a + b, k) == Shl(a, k) + Shl(b, k)
  {
    ShlUnfold(a + b, k);
    ShlUnfold(a, k);
    ShlUnfold(b, k);
    if k > 0 { ShlAdd(a, b, k - 1); }
  }

  lemma {:induction false} ShlOne(k: nat)
    ensures Shl(1, k) == Pow2(k) && Shl(0, k) == 0
  {
    ShlUnfold(1, k);
    ShlUnfold(0, k);
    Pow2Unfold(k);
    if k > 0 { ShlOne(k - 1); }
  }

  /** The next multiple of `2^k`. */
  lemma ShlNext(q: nat, k: nat)
    ensures Shl(q + 1, k) == Shl(q, k) + Pow2(k)
  {
    ShlAdd(q, 1, k);
    ShlOne(k);
  }

  lemma {:induction false} ShlMonotone(a: nat, b: nat, k: nat)
    requires a <= b
    ensures Shl(a, k) <= Shl(b, k)
  {
    ShlUnfold(a, k);
    ShlUnfold(b, k);
    if k > 0 { ShlMonotone(a, b, k - 1); }
  }

  lemma {:induction false} ShrMonotone(x: nat, y: nat, k: nat)
    requires x <= y
    ensures Shr(x, k) <= Shr(y, k)
  {
    ShrUnfold(x, k);
    ShrUnfold(y, k);
    if k > 0 { ShrMonotone(x / 2, y / 2, k - 1); }
  }

  lemma {:induction false} ShrShr(x: nat, a: nat, b: nat)
    ensures Shr(x, a + b) == Shr(Shr(x, a), b)
  {
    ShrUnfold(x, a);
    if a > 0 { ShrShr(x / 2, a - 1, b); }
  }

  lemma {:induction false} ShlShl(x: nat, a: nat, b: nat)
    ensures Shl(x, a + b) == Shl(Shl(x, a), b)
  {
    ShlUnfold(x, a);
    if b > 0 { ShlShl(x, a, b - 1); }
  }

  lemma {:induction false} Pow2Shl(a: nat, b: nat)
    ensures Pow2(a + b) == Shl(Pow2(a), b)
  {
    Pow2Unfold(a + b);
    Pow2Unfold(0);
    if b > 0 { Pow2Shl(a, b - 1); }
  }

  lemma Pow2Monotone(a: nat, b: nat)
    requires a <= b
    ensures Pow2(a) <= Pow2(b)
  {
    ShlOne(a);
    ShlOne(b);
    Pow2Shl(a, b - a);
    SplitBits(Pow2(a), 0);
    ShlGrows(Pow2(a), b - a);
  }

  lemma {:induction false} ShlGrows(x: nat, k: nat)
    ensures x <= Shl(x, k)
  {
    ShlUnfold(x, k);
    if k > 0 { ShlGrows(x, k - 1); }
  }

  /** `x & (2^k - 1)` keeps the low bits: the mask idiom of every component. */
  lemma {:induction false} MaskIsLow(x: nat, k: nat)
    ensures And(x, Pow2(k) - 1) == Low(x, k)
  {
    LowUnfold(x, k);
    Pow2Unfold(k);
    if k == 0 {
    } else if x == 0 {
      MaskIsLow(0, k - 1);
    } else {
      MaskIsLow(x / 2, k - 1);
      assert (Pow2(k) - 1) / 2 == Pow2(k - 1) - 1;
    }
  }

  // ---------------------------------------------------------------- single bits

  lemma {:induction false} BitZero(i: nat)
    ensures !Bit(0, i)
  {
    if i > 0 { BitZero(i - 1); }
  }

  lemma {:induction false} BitOr(x: nat, y: nat, i: nat)
    ensures Bit(Or(x, y), i) == (Bit(x, i) || Bit(y, i))
  {
    if x == 0 || y == 0 {
      BitZero(i);
    } else if i > 0 {
      BitOr(x / 2, y / 2, i - 1);
    }
  }

  lemma {:induction false} BitAnd(x: nat, y: nat, i: nat)
    ensures Bit(And(x, y), i) == (Bit(x, i) && Bit(y, i))
  {
    if x == 0 || y == 0 {
      BitZero(i);
    } else if i > 0 {
      BitAnd(x / 2, y / 2, i - 1);
    }
  }

  lemma {:induction false} BitXor(x: nat, y: nat, i: nat)
    ensures Bit(Xor(x, y), i) == (Bit(x, i) != Bit(y, i))
  {
    if x == 0 || y == 0 {
      BitZero(i);
    } else if i > 0 {
      BitXor(x / 2, y / 2, i - 1);
    }
  }

  lemma {:induction false} BitLow(x: nat, k: nat, i: nat)
    ensures Bit(Low(x, k), i) == (i < k && Bit(x, i))
  {
    LowUnfold(x, k);
    if k == 0 {
      BitZero(i);
    } else if i > 0 {
      BitLow(x / 2, k - 1, i - 1);
    }
  }

  lemma {:induction false} BitShl(x: nat, k: nat, i: nat)
    ensures Bit(Shl(x, k), i) == (i >= k && Bit(x, i - k))
  {
    ShlUnfold(x, k);
    if k > 0 && i > 0 { BitShl(x, k - 1, i - 1); }
  }

  lemma {:induction false} BitShr(x: nat, k: nat, i: nat)
    ensures Bit(Shr(x, k), i) == Bit(x, i + k)
  {
    ShrUnfold(x, k);
    if k > 0 { BitShr(x / 2, k - 1, i); }
  }

  /** Two naturals with the same bits are equal. */
  lemma {:induction false} SameBits(x: nat, y: nat)
    requires forall i: nat :: Bit(x, i) == Bit(y, i)
    ensures x == y
    decreases x + y
  {
    if x != 0 || y != 0 {
      assert Bit(x, 0) == Bit(y, 0);
      forall i: nat ensures Bit(x / 2, i) == Bit(y / 2, i) {
        assert Bit(x, i + 1) == Bit(y, i + 1);
      }
      SameBits(x / 2, y / 2);
    }
  }

  /** Exclusive or with a single bit flips it. */
  lemma {:induction false} XorBit(x: nat, k: nat)
    ensures Xor(x, Pow2(k)) == if Bit(x, k) then x - Pow2(k) else x + Pow2(k)
  {
    Pow2Unfold(k);
    if x == 0 {
      BitZero(k);
    } else if k > 0 {
      XorBit(x / 2, k - 1);
      assert Pow2(k) / 2 == Pow2(k - 1) && Pow2(k) % 2 == 0;
    } else {
      assert Xor(x / 2, 0) == x / 2;
    }
  }

  /** A number below `2^k` is its own low part. */
  lemma {:induction false} LowSmall(x: nat, k: nat)
    requires x < Pow2(k)
    ensures Low(x, k) == x && Shr(x, k) == 0
  {
    LowUnfold(x, k);
    ShrUnfold(x, k);
    Pow2Unfold(k);
    if k > 0 { LowSmall(x / 2, k - 1); }
  }

  /** The low bits of a sum depend on the low bits of its terms. */
  lemma LowAdd(x: nat, y: nat, k: nat)
    ensures Low(x + y, k) == Low(Low(x, k) + Low(y, k), k)
  {
    var l := Low(x, k) + Low(y, k);
    SplitBits(x, k);
    SplitBits(y, k);
    SplitBits(l, k);
    ShlAdd(Shr(x, k), Shr(y, k), k);
    LowShifted(Shr(x, k) + Shr(y, k), Shr(l, k), Low(l, k), x + y, k);
  }

  lemma LowShifted(a: nat, b: nat, r: nat, x: nat, k: nat)
    requires x == Shl(a, k) + Shl(b, k) + r && r < Pow2(k)
    ensures Low(x, k) == r
  {
    ShlAdd(a, b, k);
    JoinBits(a + b, r, k);
  }

  lemma LowLow(x: nat, k: nat, n: nat)
    requires k <= n
    ensures Low(Low(x, n), k) == Low(x, k)
  {
    forall i: nat ensures Bit(Low(Low(x, n), k), i) == Bit(Low(x, k), i) {
      BitLow(Low(x, n), k, i);
      BitLow(x, n, i);
      BitLow(x, k, i);
    }
    SameBits(Low(Low(x, n), k), Low(x, k));
  }

  lemma LowXor(x: nat, y: nat, k: nat)
    ensures Low(Xor(x, y), k) == Xor(Low(x, k), Low(y, k))
  {
    forall i: nat ensures Bit(Low(Xor(x, y), k), i) == Bit(Xor(Low(x, k), Low(y, k)), i) {
      BitLow(Xor(x, y), k, i);
      BitXor(x, y, i);
      BitXor(Low(x, k), Low(y, k), i);
      BitLow(x, k, i);
      BitLow(y, k, i);
    }
    SameBits(Low(Xor(x, y), k), Xor(Low(x, k), Low(y, k)));
  }

  lemma LowAnd(x: nat, y: nat, k: nat)
    ensures Low(And(x, y), k) == And(Low(x, k), Low(y, k))
  {
    forall i: nat ensures Bit(Low(And(x, y), k), i) == Bit(And(Low(x, k), Low(y, k)), i) {
      BitLow(And(x, y), k, i);
      BitAnd(x, y, i);
      BitAnd(Low(x, k), Low(y, k), i);
      BitLow(x, k, i);
      BitLow(y, k, i);
    }
    SameBits(Low(And(x, y), k), And(Low(x, k), Low(y, k)));
  }

  lemma LowOr(x: nat, y: nat, k: nat)
    ensures Low(Or(x, y), k) == Or(Low(x, k), Low(y, k))
  {
    forall i: nat ensures Bit(Low(Or(x, y), k), i) == Bit(Or(Low(x, k), Low(y, k)), i) {
      BitLow(Or(x, y), k, i);
      BitOr(x, y, i);
      BitOr(Low(x, k), Low(y, k), i);
      BitLow(x, k, i);
      BitLow(y, k, i);
    }
    SameBits(Low(Or(x, y), k), Or(Low(x, k), Low(y, k)));
  }

  /** Filling the low bits of a shifted number is adding to it. */
  lemma {:induction false} OrJoins(h: nat, l: nat, k: nat)
    requires l < Pow2(k)
    ensures Or(Shl(h, k), l) == Shl(h, k) + l
  {
    ShlUnfold(h, k);
    Pow2Unfold(k);
    if k > 0 && Shl(h, k) != 0 && l != 0 {
      OrJoins(h, l / 2, k - 1);
    }
  }

  /** The index of the lowest bit set. */
  function Ctz(x: nat): (i: nat)
    requires x > 0
  {
    if x % 2 == 1 then 0 else 1 + Ctz(x / 2)
  }

  lemma {:induction false} CtzIsFirst(x: nat, i: nat)
    requires x > 0
    ensures Bit(x, Ctz(x)) && (Bit(x, i) ==> Ctz(x) <= i)
  {
    if x % 2 == 0 { CtzIsFirst(x / 2, if i > 0 then i - 1 else 0); }
  }

  /** All of the `k` low bits but bit `w`. */
  lemma {:induction false} AllButBit(k: nat, w: nat, i: nat)
    requires w < k
    ensures Pow2(w) < Pow2(k) && Bit(Pow2(k) - 1 - Pow2(w), i) == (i < k && i != w)
  {
    Pow2Unfold(k);
    Pow2Unfold(w);
    if w > 0 {
      if i > 0 { AllButBit(k - 1, w - 1, i - 1); } else { AllButBit(k - 1, w - 1, 0); }
      assert (Pow2(k) - 1 - Pow2(w)) / 2 == Pow2(k - 1) - 1 - Pow2(w - 1);
    } else {
      assert (Pow2(k) - 2) / 2 == Pow2(k - 1) - 1;
      if i > 0 { AllBits(k - 1, i - 1); }
    }
  }

  lemma {:induction false} AllBits(k: nat, i: nat)
    ensures Bit(Pow2(k) - 1, i) == (i < k)
  {
    Pow2Unfold(k);
    if k == 0 {
      BitZero(i);
    } else {
      assert (Pow2(k) - 1) / 2 == Pow2(k - 1) - 1;
      if i > 0 { AllBits(k - 1, i - 1); }
    }
  }

  /** `x | (1 << i)` */
  function SetBit(x: nat, i: nat): nat { Or(x, Shl(1, i)) }

  /** `x & ~(1 << i)` on words of `w` bits */
  function ClearBit(x: nat, i: nat, w: nat): nat
    requires i < w
  {
    AllButBit(w, i, 0);
    And(x, Pow2(w) - 1 - Pow2(i))
  }

  lemma SetBitBits(x: nat, i: nat, j: nat)
    ensures Bit(SetBit(x, i), j) == (j == i || Bit(x, j))
  {
    BitOr(x, Shl(1, i), j);
    BitShl(1, i, j);
    if j > i { BitZero(j - i - 1); }
  }

  lemma ClearBitBits(x: nat, i: nat, w: nat, j: nat)
    requires i < w
    ensures Bit(ClearBit(x, i, w), j) == (j < w && j != i && Bit(x, j))
  {
    AllButBit(w, i, j);
    BitAnd(x, Pow2(w) - 1 - Pow2(i), j);
  }

  // ---------------------------------------------------------------- ordinary arithmetic

  lemma {:induction false} ShlIsTimes(x: nat, k: nat)
    ensures Shl(x, k) == Times(x, Pow2(k))
  {
    ShlUnfold(x, k);
    Pow2Unfold(k);
    if k == 0 {
      TimesOne(x);
    } else {
      ShlIsTimes(x, k - 1);
      TimesSum(x, Pow2(k - 1), Pow2(k - 1));
    }
  }

  /** Shifts and low bits are product, quotient and remainder by a power of two. */
  lemma ShiftsAreArithmetic(x: nat, k: nat)
    ensures Shl(x, k) == Times(x, Pow2(k)) && Shr(x, k) == Quot(x, Pow2(k)) && Low(x, k) == Rem(x, Pow2(k))
  {
    SplitBits(x, k);
    ShlIsTimes(x, k);
    ShlIsTimes(Shr(x, k), k);
    QuotUnique(Shr(x, k), Low(x, k), Pow2(k));
  }
}
