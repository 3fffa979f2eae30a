/**
  Atomic memory operations on `n`-byte words computed in 64-bit registers, and load reservations (RISC-V
  unprivileged specification, sections 8.2 and 8.4).
 */
module Atomics {
  import opened Arith
  import opened Bits
  import opened Bytes
  import opened IoV2

  datatype Op = LoadReserved | StoreConditional | Swap | Add | XorOp | AndOp | OrOp | MinOp | MaxOp | MinUnsigned
    | MaxUnsigned

  // ---------------------------------------------------------------- words in memory

  /** The number that bytes hold, lowest first. */
  function Word(bytes: seq<byte>): nat {
    if bytes == [] then 0 else bytes[0] + 256 * Word(bytes[1..])
  }

  /** The `n` low bytes of a number. */
  function BytesOf(x: nat, n: nat): (bytes: seq<byte>)
    ensures |bytes| == n
  {
    if n == 0 then [] else [x % 256] + BytesOf(x / 256, n - 1)
  }

  lemma LowTwo(x: nat, k: nat)
    ensures Low(x, k + 2) == 4 * Low(x / 4, k) + x % 4 && Shr(x, k + 2) == Shr(x / 4, k)
  {
    LowUnfold(x, k + 2);
    LowUnfold(x / 2, k + 1);
    ShrUnfold(x, k + 2);
    ShrUnfold(x / 2, k + 1);
    assert x / 2 / 2 == x / 4;
  }

  lemma LowFour(x: nat, k: nat)
    ensures Low(x, k + 4) == 16 * Low(x / 16, k) + x % 16 && Shr(x, k + 4) == Shr(x / 16, k)
  {
    LowTwo(x, k + 2);
    LowTwo(x / 4, k);
    assert x / 4 / 4 == x / 16;
  }

  lemma LowByte(x: nat, k: nat)
    ensures Low(x, k + 8) == 256 * Low(x / 256, k) + x % 256 && Shr(x, k + 8) == Shr(x / 256, k)
  {
    LowFour(x, k + 4);
    LowFour(x / 16, k);
    assert x / 16 / 16 == x / 256;
  }

  lemma {:induction false} WordOfBytes(x: nat, n: nat)
    ensures Word(BytesOf(x, n)) == Low(x, 8 * n)
  {
    if n > 0 {
      WordOfBytes(x / 256, n - 1);
      LowByte(x, 8 * (n - 1));
      assert BytesOf(x, n)[1..] == BytesOf(x / 256, n - 1);
    }
  }

  /** The lowest byte first. */
  lemma {:induction false} WordBits(bytes: seq<byte>, i: nat, j: nat)
    requires i < |bytes| && j < 8
    ensures Bit(Word(bytes), 8 * i + j) == Bit(bytes[i], j)
  {
    if i == 0 {
      FirstByte(Word(bytes), bytes[0], j);
    } else {
      OtherBytes(Word(bytes), Word(bytes[1..]), 8 * (i - 1) + j);
      WordBits(bytes[1..], i - 1, j);
    }
  }

  lemma LowAndRest(x: nat)
    ensures Low(x, 8) == x % 256 && Shr(x, 8) == x / 256
  {
    LowByte(x, 0);
    LowUnfold(x / 256, 0);
    ShrUnfold(x / 256, 0);
  }

  lemma OtherBytes(x: nat, rest: nat, k: nat)
    requires x / 256 == rest
    ensures Bit(x, k + 8) == Bit(rest, k)
  {
    LowAndRest(x);
    BitShr(x, 8, k);
  }

  lemma FirstByte(x: nat, b: nat, j: nat)
    requires x % 256 == b && j < 8
    ensures Bit(x, j) == Bit(b, j)
  {
    LowAndRest(x);
    BitLow(x, 8, j);
  }

  lemma {:induction false} BytesOfWord(bytes: seq<byte>)
    ensures BytesOf(Word(bytes), |bytes|) == bytes && Word(bytes) < Pow2(8 * |bytes|)
  {
    Pow2Unfold(0);
    if bytes != [] {
      var b, rest := bytes[0], bytes[1..];
      BytesOfWord(rest);
      BytesOfCons(b, Word(rest), |rest|);
      Pow2Byte(8 * |rest|);
      assert [b] + rest == bytes;
    }
  }

  lemma BytesOfCons(b: byte, w: nat, n: nat)
    ensures BytesOf(b + 256 * w, n + 1) == [b] + BytesOf(w, n)
  {
    assert (b + 256 * w) % 256 == b && (b + 256 * w) / 256 == w;
  }

  lemma Pow2Byte(k: nat)
    ensures Pow2(k + 8) == 256 * Pow2(k)
  {
    Pow2Unfold(k + 8); Pow2Unfold(k + 7); Pow2Unfold(k + 6); Pow2Unfold(k + 5);
    Pow2Unfold(k + 4); Pow2Unfold(k + 3); Pow2Unfold(k + 2); Pow2Unfold(k + 1);
  }

  // ---------------------------------------------------------------- words in registers

  /** The `w`-bit register with the sign-extended value of an `n`-bit word. */
  function Extend(x: nat, n: pos, w: nat): nat
    requires n <= w
  {
    Pow2Monotone(n, w);
    if Bit(x, n - 1) then x + (Pow2(w) - Pow2(n)) else x
  }

  /** An arithmetic right shift of a `w`-bit register. */
  function Sar(x: nat, k: nat, w: pos): nat
    requires k <= w
  {
    Pow2Monotone(w - k, w);
    if Bit(x, w - 1) then Shr(x, k) + (Pow2(w) - Pow2(w - k)) else Shr(x, k)
  }

  /** Shifting left and back again, as the component does, extends the sign. */
  lemma ShiftsExtend(x: nat, n: pos, w: pos)
    requires n <= w && x < Pow2(n)
    ensures Sar(Low(Shl(x, w - n), w), w - n, w) == Extend(x, n, w)
  {
    var k := w - n;
    ShlBound(x, n, k);
    LowSmall(Shl(x, k), w);
    Pow2Unfold(0);
    Pow2Monotone(0, k);
    JoinBits(x, 0, k);
    BitShl(x, k, w - 1);
  }

  lemma ShlBound(x: nat, n: nat, k: nat)
    requires x < Pow2(n)
    ensures Shl(x, k) < Pow2(n + k)
  {
    Pow2Shl(n, k);
    ShlNext(x, k);
    ShlMonotone(x + 1, Pow2(n), k);
  }

  /** The value of an `n`-bit word as a signed number. */
  function Signed(x: nat, n: pos): int {
    if Bit(x, n - 1) then x - Pow2(n) else x
  }

  lemma {:induction false} TopBit(x: nat, n: pos)
    requires x < Pow2(n)
    ensures Bit(x, n - 1) <==> x >= Pow2(n - 1)
  {
    Pow2Unfold(n);
    if n > 1 {
      Pow2Unfold(n - 1);
      TopBit(x / 2, n - 1);
    } else {
      Pow2Unfold(0);
    }
  }

  /** Extension keeps the low bits, the signed value, and the order of unsigned values. */
  lemma ExtendKeeps(x: nat, n: pos, w: pos)
    requires n <= w && x < Pow2(n)
    ensures Extend(x, n, w) < Pow2(w) && Low(Extend(x, n, w), n) == x && Signed(Extend(x, n, w), w) == Signed(x, n)
  {
    Pow2Monotone(n, w);
    ExtendTop(x, n, w);
    TopBit(Extend(x, n, w), w);
    ExtendLow(x, n, w);
  }

  lemma ExtendOrder(x: nat, y: nat, n: pos, w: pos)
    requires n <= w && x < Pow2(n) && y < Pow2(n)
    ensures x < y ==> Extend(x, n, w) < Extend(y, n, w)
  {
    Pow2Monotone(n, w);
    TopBit(x, n);
    TopBit(y, n);
  }

  lemma ExtendTop(x: nat, n: pos, w: pos)
    requires n <= w && x < Pow2(n)
    ensures Extend(x, n, w) < Pow2(w) && (Extend(x, n, w) >= Pow2(w - 1) <==> Bit(x, n - 1))
  {
    TopBit(x, n);
    Pow2Unfold(n);
    Pow2Unfold(w);
    Pow2Monotone(n - 1, w - 1);
    Pow2Monotone(n, w);
  }

  lemma ExtendLow(x: nat, n: pos, w: pos)
    requires n <= w && x < Pow2(n)
    ensures Low(Extend(x, n, w), n) == x
  {
    HighOnes(n, w);
    if Bit(x, n - 1) {
      FillExtends(x, n, Extend(x, n, w), Pow2(w - n) - 1, Pow2(w) - Pow2(n));
    } else {
      LowSmall(x, n);
    }
  }

  lemma FillExtends(x: nat, n: nat, e: nat, m: nat, high: nat)
    requires e == x + high && high == Shl(m, n) && x < Pow2(n)
    ensures Low(e, n) == x
  {
    JoinBits(m, x, n);
  }

  /** The ones above bit `n`. */
  lemma HighOnes(n: nat, w: nat)
    requires n <= w
    ensures Pow2(w) - Pow2(n) == Shl(Pow2(w - n) - 1, n)
  {
    Pow2Shl(w - n, n);
    ShlNext(Pow2(w - n) - 1, n);
  }

  // ---------------------------------------------------------------- the operations

  /** What an operation on `w`-bit words computes. */
  function Operate(op: Op, w: pos, prev: nat, operand: nat): nat {
    match op
    case Swap => operand
    case StoreConditional => operand
    case Add => Low(prev + operand, w)
    case XorOp => Xor(prev, operand)
    case AndOp => And(prev, operand)
    case OrOp => Or(prev, operand)
    case MinOp => if Signed(prev, w) < Signed(operand, w) then prev else operand
    case MaxOp => if Signed(prev, w) > Signed(operand, w) then prev else operand
    case MinUnsigned => if prev < operand then prev else operand
    case MaxUnsigned => if prev > operand then prev else operand
    case LoadReserved => 0
  }

  /** A signed number in two's complement. */
  lemma SignedMeans(x: nat, n: pos)
    requires x < Pow2(n)
    ensures 0 - Pow2(n - 1) <= Signed(x, n) < Pow2(n - 1)
    ensures Signed(x, n) == x || Signed(x, n) == x - Pow2(n)
  {
    TopBit(x, n);
    Pow2Unfold(n);
  }

  /** The smaller of two numbers, or the larger one. */
  predicate IsLeast(r: int, a: int, b: int) { (r == a || r == b) && r <= a && r <= b }

  predicate IsLargest(r: int, a: int, b: int) { (r == a || r == b) && r >= a && r >= b }

  /** What section 8.4 asks of the result `r`, bit by bit or in the order of signed or unsigned numbers. */
  ghost predicate IsResult(op: Op, w: pos, prev: nat, operand: nat, r: nat) {
    && r < Pow2(w)
    && match op
       case LoadReserved => false
       case StoreConditional => r == operand
       case Swap => r == operand
       case Add => r == prev + operand || r + Pow2(w) == prev + operand
       case XorOp => forall i: nat :: Bit(r, i) == (Bit(prev, i) != Bit(operand, i))
       case AndOp => forall i: nat :: Bit(r, i) == (Bit(prev, i) && Bit(operand, i))
       case OrOp => forall i: nat :: Bit(r, i) == (Bit(prev, i) || Bit(operand, i))
       case MinOp => (r == prev || r == operand) && IsLeast(Signed(r, w), Signed(prev, w), Signed(operand, w))
       case MaxOp => (r == prev || r == operand) && IsLargest(Signed(r, w), Signed(prev, w), Signed(operand, w))
       case MinUnsigned => IsLeast(r, prev, operand)
       case MaxUnsigned => IsLargest(r, prev, operand)
  }

  lemma OperateMeans(op: Op, w: pos, prev: nat, operand: nat)
    requires prev < Pow2(w) && operand < Pow2(w) && op != LoadReserved
    ensures IsResult(op, w, prev, operand, Operate(op, w, prev, operand))
  {
    var r := Operate(op, w, prev, operand);
    match op
    case Add => AddMeans(w, prev, operand);
    case XorOp =>
      forall i: nat ensures Bit(r, i) == (Bit(prev, i) != Bit(operand, i)) { BitXor(prev, operand, i); }
      Bounded(r, prev, operand, w);
    case AndOp =>
      forall i: nat ensures Bit(r, i) == (Bit(prev, i) && Bit(operand, i)) { BitAnd(prev, operand, i); }
      Bounded(r, prev, operand, w);
    case OrOp =>
      forall i: nat ensures Bit(r, i) == (Bit(prev, i) || Bit(operand, i)) { BitOr(prev, operand, i); }
      Bounded(r, prev, operand, w);
    case _ =>
  }

  lemma AddMeans(w: pos, x: nat, y: nat)
    requires x < Pow2(w) && y < Pow2(w)
    ensures Low(x + y, w) == if x + y < Pow2(w) then x + y else x + y - Pow2(w)
  {
    if x + y < Pow2(w) {
      LowSmall(x + y, w);
    } else {
      ShlOne(w);
      JoinBits(1, x + y - Pow2(w), w);
    }
  }

  /** No bits above those of the operands. */
  lemma Bounded(r: nat, x: nat, y: nat, w: pos)
    requires x < Pow2(w) && y < Pow2(w) && forall i: nat :: Bit(r, i) ==> Bit(x, i) || Bit(y, i)
    ensures r < Pow2(w)
  {
    LowSmall(x, w);
    LowSmall(y, w);
    forall i: nat ensures Bit(Low(r, w), i) == Bit(r, i) {
      BitLow(r, w, i);
      BitLow(x, w, i);
      BitLow(y, w, i);
    }
    SameBits(Low(r, w), r);
  }

  /** Computing on sign-extended registers and keeping the low bits is the operation on the words themselves. */
  lemma SubWord(op: Op, n: pos, w: pos, x: nat, y: nat)
    requires n <= w && x < Pow2(n) && y < Pow2(n) && op != LoadReserved
    ensures Low(Operate(op, w, Extend(x, n, w), Extend(y, n, w)), n) == Operate(op, n, x, y)
  {
    ExtendKeeps(x, n, w);
    ExtendKeeps(y, n, w);
    ExtendOrder(x, y, n, w);
    ExtendOrder(y, x, n, w);
    SubWordWith(op, n, w, x, y, Extend(x, n, w), Extend(y, n, w));
  }

  lemma SubWordWith(op: Op, n: pos, w: pos, x: nat, y: nat, ex: nat, ey: nat)
    requires n <= w && Low(ex, n) == x && Low(ey, n) == y && op != LoadReserved
    requires Signed(ex, w) == Signed(x, n) && Signed(ey, w) == Signed(y, n)
    requires (ex < ey <==> x < y) && (ey < ex <==> y < x)
    ensures Low(Operate(op, w, ex, ey), n) == Operate(op, n, x, y)
  {
    match op
    case Add => AddWith(n, w, ex, ey);
    case XorOp => LowXor(ex, ey, n);
    case AndOp => LowAnd(ex, ey, n);
    case OrOp => LowOr(ex, ey, n);
    case _ =>
  }

  lemma AddWith(n: nat, w: nat, ex: nat, ey: nat)
    requires n <= w
    ensures Low(Low(ex + ey, w), n) == Low(Low(ex, n) + Low(ey, n), n)
  {
    LowLow(ex + ey, n, w);
    LowAdd(ex, ey, n);
  }

  // ---------------------------------------------------------------- reservations

  /** The reservation table's mark for a reservation that is gone. */
  const NO_ADDR: nat := 0xFFFF_FFFF_FFFF_FFFF

  datatype Entry = Reserved(who: nat, addr: nat, size: nat) | Stored(who: nat, addr: nat, size: nat, ok: bool)

  /** A successful store-conditional covers an address. */
  predicate Breaks(e: Entry, addr: nat) {
    e.Stored? && e.ok && e.addr <= addr < e.addr + e.size
  }

  /** The address an initiator has reserved and that no successful store-conditional has covered since. */
  function Reservation(log: seq<Entry>, who: nat): Option<nat> {
    if log == [] then None
    else
      var e, r := log[|log| - 1], Reservation(log[..|log| - 1], who);
      if e.Reserved? && e.who == who then Some(e.addr) else if r.Some? && Breaks(e, r.value) then None else r
  }

  /** A store-conditional succeeded exactly if its initiator held a reservation of its address. */
  ghost predicate Lawful(log: seq<Entry>) {
    log == [] ||
    (var n := |log| - 1;
     Lawful(log[..n]) && (log[n].Stored? ==> log[n].ok == (Reservation(log[..n], log[n].who) == Some(log[n].addr))))
  }

  /** The table holds everyone's reservation. */
  ghost predicate TableOk(res: map<nat, nat>, log: seq<Entry>) {
    forall who :: Reservation(log, who) == if who in res && res[who] != NO_ADDR then Some(res[who]) else None
  }

  /** The table after a successful store-conditional. */
  function Broken(res: map<nat, nat>, addr: nat, size: nat): map<nat, nat> {
    map who | who in res :: if addr <= res[who] < addr + size then NO_ADDR else res[who]
  }

  lemma ReservationAppend(log: seq<Entry>, e: Entry, who: nat)
    ensures var r := Reservation(log, who);
            Reservation(log + [e], who) ==
            if e.Reserved? && e.who == who then Some(e.addr) else if r.Some? && Breaks(e, r.value) then None else r
  {
    assert (log + [e])[..|log|] == log;
  }

  lemma ReserveKeeps(res: map<nat, nat>, log: seq<Entry>, who: nat, addr: nat, size: nat)
    requires TableOk(res, log) && Lawful(log) && addr != NO_ADDR
    ensures TableOk(res[who := addr], log + [Reserved(who, addr, size)]) && Lawful(log + [Reserved(who, addr, size)])
  {
    var e := Reserved(who, addr, size);
    assert (log + [e])[..|log|] == log;
    forall w ensures Reservation(log + [e], w) ==
                     if w in res[who := addr] && res[who := addr][w] != NO_ADDR then Some(res[who := addr][w]) else None
    {
      ReservationAppend(log, e, w);
    }
  }

  lemma StoreKeeps(res: map<nat, nat>, log: seq<Entry>, who: nat, addr: nat, size: nat)
    requires TableOk(res, log) && Lawful(log) && addr != NO_ADDR
    ensures var ok := who in res && res[who] == addr;
            && TableOk(if ok then Broken(res, addr, size) else res, log + [Stored(who, addr, size, ok)])
            && Lawful(log + [Stored(who, addr, size, ok)])
  {
    var ok := who in res && res[who] == addr;
    var res' := if ok then Broken(res, addr, size) else res;
    var e := Stored(who, addr, size, ok);
    assert (log + [e])[..|log|] == log;
    assert Reservation(log, who) == if who in res && res[who] != NO_ADDR then Some(res[who]) else None;
    forall w ensures Reservation(log + [e], w) == if w in res' && res'[w] != NO_ADDR then Some(res'[w]) else None {
      ReservationAppend(log, e, w);
      assert Reservation(log, w) == if w in res && res[w] != NO_ADDR then Some(res[w]) else None;
    }
  }

  predicate IsReserve(e: Entry, who: nat, addr: nat) {
    e.Reserved? && e.who == who && e.addr == addr
  }

  /** Entry `j` is the last reservation that `who` took before `k`, and it is of `addr`. */
  ghost predicate LastReserve(log: seq<Entry>, j: nat, k: nat, who: nat, addr: nat) {
    && j < k <= |log| && IsReserve(log[j], who, addr)
    && forall m :: j < m < k ==> !(log[m].Reserved? && log[m].who == who)
  }

  ghost predicate NoneBreaks(log: seq<Entry>, j: nat, k: nat, addr: nat)
    requires k <= |log|
  {
    forall m :: j < m < k ==> !Breaks(log[m], addr)
  }

  /** A reservation that is held was taken at some point, and nothing has covered its address since. */
  lemma {:induction false} ReservationSince(log: seq<Entry>, who: nat, addr: nat) returns (j: nat)
    requires Reservation(log, who) == Some(addr)
    ensures LastReserve(log, j, |log|, who, addr) && NoneBreaks(log, j, |log|, addr)
  {
    var n := |log| - 1;
    if log[n].Reserved? && log[n].who == who {
      j := n;
    } else {
      j := ReservationSince(log[..n], who, addr);
      SinceGrows(log, j, n, who, addr);
    }
  }

  lemma SinceGrows(log: seq<Entry>, j: nat, n: nat, who: nat, addr: nat)
    requires n + 1 == |log| && LastReserve(log[..n], j, n, who, addr) && NoneBreaks(log[..n], j, n, addr)
    requires !(log[n].Reserved? && log[n].who == who) && !Breaks(log[n], addr)
    ensures LastReserve(log, j, n + 1, who, addr) && NoneBreaks(log, j, n + 1, addr)
  {
    forall m | j < m < n + 1 ensures !Breaks(log[m], addr) && !(log[m].Reserved? && log[m].who == who) {
      if m < n { assert log[..n][m] == log[m]; }
    }
  }

  /**
    In any run, a store-conditional that succeeds was preceded by a load-reserve of its initiator at its
    address, its last one, with no successful store-conditional, of anyone, covering that address in between.
   */
  lemma SuccessIsExclusive(log: seq<Entry>, k: nat) returns (j: nat)
    requires Lawful(log) && k < |log| && log[k].Stored? && log[k].ok
    ensures LastReserve(log, j, k, log[k].who, log[k].addr) && NoneBreaks(log, j, k, log[k].addr)
  {
    LawfulAt(log, k);
    j := ReservationSince(log[..k], log[k].who, log[k].addr);
    forall m | j < m < k ensures log[..k][m] == log[m] {}
    assert log[..k][j] == log[j];
  }

  lemma {:induction false} LawfulAt(log: seq<Entry>, k: nat)
    requires Lawful(log) && k < |log| && log[k].Stored?
    ensures log[k].ok == (Reservation(log[..k], log[k].who) == Some(log[k].addr))
  {
    var n := |log| - 1;
    if k < n {
      LawfulAt(log[..n], k);
      assert log[..n][..k] == log[..k];
    }
  }

  // ---------------------------------------------------------------- reservations of words

  /** A successful store-conditional writes some byte of a word. */
  predicate Overlaps(e: Entry, addr: nat, size: nat) {
    e.Stored? && e.ok && Max(e.addr, addr) < Min(e.addr + e.size, addr + size)
  }

  /** No byte of the word that was reserved for store-conditional number `k` has been stored since. */
  ghost predicate Intact(log: seq<Entry>, k: nat)
    requires k < |log|
  {
    exists j :: LastReserve(log, j, k, log[k].who, log[k].addr) && NoneOverlaps(log, j, k, log[k].addr)
  }

  ghost predicate NoneOverlaps(log: seq<Entry>, j: nat, k: nat, addr: nat)
    requires j < k <= |log|
  {
    forall m :: j < m < k ==> !Overlaps(log[m], addr, log[j].size)
  }

  /** The words, each an address and a size, that a run reserves and stores to. */
  ghost predicate Within(log: seq<Entry>, words: set<(nat, nat)>) {
    forall i :: 0 <= i < |log| ==> (log[i].addr, log[i].size) in words
  }

  /** No word begins inside of another. */
  ghost predicate Apart(words: set<(nat, nat)>) {
    forall a, n, b, s :: (a, n) in words && (b, s) in words && s > 0 ==> !(a < b < a + n)
  }

  ghost predicate AlwaysIntact(words: set<(nat, nat)>) {
    forall log, k :: Lawful(log) && Within(log, words) && Succeeds(log, k) ==> Intact(log, k)
  }

  predicate Succeeds(log: seq<Entry>, k: nat) {
    k < |log| && log[k].Stored? && log[k].ok
  }

  /** Two initiators: one stores to the second word while the first one is reserved by the other. */
  function Interleaved(a: nat, n: nat, b: nat, s: nat): seq<Entry> {
    [Reserved(0, a, n), Reserved(1, b, s), Stored(1, b, s, true), Stored(0, a, n, true)]
  }

  /** Only the address of a reservation counts: a store behind it leaves it standing. */
  lemma InterleavedLawful(a: nat, n: nat, b: nat, s: nat)
    requires a < b
    ensures Lawful(Interleaved(a, n, b, s))
  {
    var log := Interleaved(a, n, b, s);
    var three, two, one := log[..3], log[..2], log[..1];
    assert three[..2] == two && two[..1] == one && one[..0] == [];
    assert Reservation(one, 0) == Some(a) && Reservation(two, 0) == Some(a) && Reservation(two, 1) == Some(b);
    assert Lawful(one) && Lawful(two) && Lawful(three);
    assert Reservation(three, 0) == Some(a);
  }

  lemma InterleavedBroken(a: nat, n: nat, b: nat, s: nat)
    requires a < b < a + n && s > 0
    ensures !Intact(Interleaved(a, n, b, s), 3)
  {
    var log := Interleaved(a, n, b, s);
    assert Overlaps(log[2], a, n);
    forall j | LastReserve(log, j, 3, 0, a) ensures !NoneOverlaps(log, j, 3, a) {
      assert j == 0;
    }
  }

  /** A double word at 0 is reserved, its upper half is stored to by another initiator, and the store to it succeeds. */
  lemma UpperHalfStored()
    ensures var log := [Reserved(0, 0, 8), Reserved(1, 4, 4), Stored(1, 4, 4, true), Stored(0, 0, 8, true)];
            Lawful(log) && !Intact(log, 3)
  {
    InterleavedLawful(0, 8, 4, 4);
    InterleavedBroken(0, 8, 4, 4);
  }

  /**
    In every run on these words, no byte of a reserved word has been stored when a store-conditional to it succeeds,
    exactly if none of the words begins inside of another.
   */
  lemma IntactIff(words: set<(nat, nat)>)
    ensures AlwaysIntact(words) <==> Apart(words)
  {
    if Apart(words) {
      forall log, k | Lawful(log) && Within(log, words) && Succeeds(log, k) ensures Intact(log, k) {
        ApartIntact(log, k, words);
      }
    } else {
      var a, n, b, s :| (a, n) in words && (b, s) in words && s > 0 && a < b < a + n;
      InterleavedLawful(a, n, b, s);
      InterleavedBroken(a, n, b, s);
      assert Within(Interleaved(a, n, b, s), words) && Succeeds(Interleaved(a, n, b, s), 3);
    }
  }

  lemma ApartIntact(log: seq<Entry>, k: nat, words: set<(nat, nat)>)
    requires Lawful(log) && Within(log, words) && Succeeds(log, k) && Apart(words)
    ensures Intact(log, k)
  {
    var j := SuccessIsExclusive(log, k);
    var addr, size := log[k].addr, log[j].size;
    forall m | j < m < k ensures !Overlaps(log[m], addr, size) {
      assert (log[m].addr, log[m].size) in words && (log[j].addr, log[j].size) in words && !Breaks(log[m], addr);
    }
  }
}
