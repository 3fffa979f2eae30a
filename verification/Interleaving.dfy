/** Addresses spread over `2^banks` banks in granules of `2^width` bytes. */
module Interleaving {
  import opened Bits

  function BankOf(banks: nat, width: nat, addr: nat): (b: nat)
    ensures b < Pow2(banks)
  {
    Low(Shr(addr, width), banks)
  }

  function OffsetOf(banks: nat, width: nat, addr: nat): nat {
    Shl(Shr(Shr(addr, width), banks), width) + Low(addr, width)
  }

  /** The address of byte `offset` of bank `b`. */
  function AddressOf(banks: nat, width: nat, b: nat, offset: nat): nat {
    Shl(Shl(Shr(offset, width), banks) + b, width) + Low(offset, width)
  }

  lemma Composes(banks: nat, width: nat, addr: nat)
    ensures AddressOf(banks, width, BankOf(banks, width, addr), OffsetOf(banks, width, addr)) == addr
  {
    var line := Shr(addr, width);
    SplitBits(addr, width);
    SplitBits(line, banks);
    JoinBits(Shr(line, banks), Low(addr, width), width);
  }

  lemma JoinTwice(banks: nat, width: nat, b: nat, q: nat, r: nat, line: nat, addr: nat)
    requires b < Pow2(banks) && r < Pow2(width) && line == Shl(q, banks) + b && addr == Shl(line, width) + r
    ensures Shr(addr, width) == line && Low(addr, width) == r && Shr(line, banks) == q && Low(line, banks) == b
  {
    JoinBits(line, r, width);
    JoinBits(q, b, banks);
  }

  lemma Decomposes(banks: nat, width: nat, b: nat, offset: nat)
    requires b < Pow2(banks)
    ensures BankOf(banks, width, AddressOf(banks, width, b, offset)) == b
            && OffsetOf(banks, width, AddressOf(banks, width, b, offset)) == offset
  {
    var q, r := Shr(offset, width), Low(offset, width);
    SplitBits(offset, width);
    JoinTwice(banks, width, b, q, r, Shl(q, banks) + b, Shl(Shl(q, banks) + b, width) + r);
  }

  /** Every address is one byte of one bank, and every byte of every bank has one address. */
  lemma Bijection(banks: nat, width: nat, addr: nat, b: nat, offset: nat)
    ensures AddressOf(banks, width, BankOf(banks, width, addr), OffsetOf(banks, width, addr)) == addr
    ensures b < Pow2(banks) ==>
              BankOf(banks, width, AddressOf(banks, width, b, offset)) == b
                && OffsetOf(banks, width, AddressOf(banks, width, b, offset)) == offset
  {
    Composes(banks, width, addr);
    if b < Pow2(banks) { Decomposes(banks, width, b, offset); }
  }

  /** Bytes of one granule lie next to each other in one bank. */
  lemma SameGranule(banks: nat, width: nat, addr: nat, i: nat)
    requires Low(addr, width) + i < Pow2(width)
    ensures BankOf(banks, width, addr + i) == BankOf(banks, width, addr)
    ensures OffsetOf(banks, width, addr + i) == OffsetOf(banks, width, addr) + i
    ensures Low(addr + i, width) == Low(addr, width) + i
  {
    SplitBits(addr, width);
    JoinBits(Shr(addr, width), Low(addr, width) + i, width);
  }

  /** The first address of the next granule is aligned. */
  lemma NextGranule(width: nat, addr: nat, i: nat)
    requires Low(addr, width) + i == Pow2(width)
    ensures Low(addr + i, width) == 0
  {
    SplitBits(addr, width);
    ShlNext(Shr(addr, width), width);
    JoinBits(Shr(addr, width) + 1, 0, width);
  }

  /** Granules that follow each other lie in banks that follow each other around the ring of banks. */
  lemma NextBank(banks: nat, width: nat, addr: nat)
    ensures var b := BankOf(banks, width, addr);
            BankOf(banks, width, addr + Pow2(width)) == if b + 1 < Pow2(banks) then b + 1 else 0
  {
    var q, r := Shr(addr, width), Low(addr, width);
    SplitBits(addr, width);
    ShlNext(q, width);
    JoinBits(q + 1, r, width);
    SplitBits(q, banks);
    if Low(q, banks) + 1 < Pow2(banks) {
      JoinBits(Shr(q, banks), Low(q, banks) + 1, banks);
    } else {
      NextGranule(banks, q, 1);
    }
  }

  lemma ShrWithin(width: nat, addr: nat, i: nat)
    requires Low(addr, width) + i < Pow2(width)
    ensures Shr(addr + i, width) == Shr(addr, width)
  {
    SplitBits(addr, width);
    JoinBits(Shr(addr, width), Low(addr, width) + i, width);
  }

  /** Before an aligned address lies the previous granule. */
  lemma ShrBefore(width: nat, addr: nat)
    requires addr > 0 && Low(addr, width) == 0
    ensures Shr(addr - 1, width) == Shr(addr, width) - 1
  {
    var q := Shr(addr, width);
    SplitBits(addr, width);
    ShlAdd(0, 0, width);
    ShlNext(q - 1, width);
    JoinBits(q - 1, Pow2(width) - 1, width);
  }

  /** A granule-aligned base does not move the position within a granule. */
  lemma AlignedBase(width: nat, addr: nat, base: nat)
    requires base <= addr && Low(base, width) == 0
    ensures Low(addr - base, width) == Low(addr, width)
  {
    SplitBits(addr, width);
    SplitBits(base, width);
    ShrMonotone(base, addr, width);
    var q := Shr(addr, width) - Shr(base, width);
    ShlAdd(q, Shr(base, width), width);
    JoinBits(q, Low(addr, width), width);
  }

  /** A byte of a bank that a run of one granule covers belongs to that run. */
  lemma OnlyGranule(banks: nat, width: nat, addr: nat, n: nat, a: nat)
    requires Low(addr, width) + n <= Pow2(width)
    requires BankOf(banks, width, a) == BankOf(banks, width, addr)
    requires OffsetOf(banks, width, addr) <= OffsetOf(banks, width, a) < OffsetOf(banks, width, addr) + n
    ensures a == addr + (OffsetOf(banks, width, a) - OffsetOf(banks, width, addr))
  {
    var i := OffsetOf(banks, width, a) - OffsetOf(banks, width, addr);
    SameGranule(banks, width, addr, i);
    Composes(banks, width, a);
    Composes(banks, width, addr + i);
  }

  lemma BelowShl(a: nat, q: nat, k: nat)
    ensures a < Shl(q, k) <==> Shr(a, k) < q
  {
    SplitBits(a, k);
    if Shr(a, k) < q {
      ShlNext(Shr(a, k), k);
      ShlMonotone(Shr(a, k) + 1, q, k);
    } else {
      ShlMonotone(q, Shr(a, k), k);
    }
  }

  /** Banks of `granules` granules together hold the addresses below `2^banks` times as many granules. */
  lemma InRange(banks: nat, width: nat, granules: nat, addr: nat)
    ensures OffsetOf(banks, width, addr) < Shl(granules, width) <==> addr < Shl(Shl(granules, banks), width)
  {
    var line := Shr(addr, width);
    SplitBits(addr, width);
    BelowShl(addr, Shl(granules, banks), width);
    BelowShl(line, granules, banks);
    BelowShl(OffsetOf(banks, width, addr), granules, width);
    JoinBits(Shr(line, banks), Low(addr, width), width);
  }
}
