/**
  The memory checker: each allocated buffer is spread over a virtual range `factor` times as large, in the
  middle of which its bytes are flagged as valid.
 */
module Memcheck {
  import opened Arith
  import opened Bits

  /** A live buffer: `size` bytes from byte `at` of the memory on. */
  datatype Buffer = Buffer(at: nat, size: pos)

  // ---------------------------------------------------------------- the virtual range of a buffer

  /** Where the bytes of a buffer lie in the virtual range. */
  function Place(at: nat, size: nat, factor: pos): nat {
    Times(at, factor) + Times(size, factor / 2)
  }

  function BufferPlace(b: Buffer, factor: pos): nat { Place(b.at, b.size, factor) }

  predicate InBuffer(b: Buffer, factor: pos, v: nat) {
    BufferPlace(b, factor) <= v < BufferPlace(b, factor) + b.size
  }

  ghost predicate InSome(live: set<Buffer>, factor: pos, v: nat) {
    exists b :: b in live && InBuffer(b, factor, v)
  }

  lemma TimesWidth(q: nat, a: nat, b: nat)
    requires a <= b
    ensures Times(q, a) <= Times(q, b)
  {
    TimesSum(q, a, b - a);
  }

  /** A buffer lies within its own part of the virtual range, with room behind it for factors of 3 and more. */
  lemma PlaceFits(at: nat, size: pos, factor: pos)
    ensures Times(at, factor) <= Place(at, size, factor) && Place(at, size, factor) + size <= Times(at + size, factor)
    ensures factor >= 3 ==> Place(at, size, factor) + size < Times(at + size, factor)
    ensures factor >= 2 ==> Times(at, factor) < Place(at, size, factor)
    ensures factor < 3 ==> Place(at, size, factor) + size == Times(at + size, factor)
  {
    var half := factor / 2;
    TimesAdd(at, size, factor);
    TimesSum(size, half, factor - half);
    TimesOne(size);
    TimesWidth(size, 1, factor - half);
    TimesPositive2(size, half);
    if factor >= 3 {
      TimesSum(size, 1, factor - half - 1);
      TimesPositive2(size, factor - half - 1);
    }
  }

  /**
    In the middle: the room in front exceeds the room behind by the buffer's size if the factor is even, and by nothing
    if it is odd.
   */
  lemma PlaceCentred(at: nat, size: pos, factor: pos)
    ensures var before := Place(at, size, factor) - Times(at, factor);
            var behind := Times(at + size, factor) - (Place(at, size, factor) + size);
            before - behind == if factor % 2 == 0 then size else 0
  {
    var half := factor / 2;
    TimesAdd(at, size, factor);
    TimesSum(size, half, factor - half);
    TimesOne(size);
    TimesSum(size, half, if factor % 2 == 0 then 0 else 1);
    TimesZero(size);
  }

  lemma {:induction false} TimesZero(q: nat)
    ensures Times(q, 0) == 0
  {
    TimesUnfold(q, 0);
    if q > 0 { TimesZero(q - 1); }
  }

  lemma TimesPositive2(q: pos, m: nat)
    ensures m > 0 ==> Times(q, m) > 0
  {
    if m > 0 { TimesPositive(q, m); }
  }

  ghost predicate Disjoint(a: Buffer, b: Buffer) {
    a.at + a.size <= b.at || b.at + b.size <= a.at
  }

  /** Buffers that do not overlap are apart in the virtual range; for factors of 2 and more they do not even touch. */
  lemma Apart(a: Buffer, b: Buffer, factor: pos)
    requires a.at + a.size <= b.at
    ensures BufferPlace(a, factor) + a.size <= BufferPlace(b, factor)
    ensures factor >= 2 ==> BufferPlace(a, factor) + a.size < BufferPlace(b, factor)
  {
    PlaceFits(a.at, a.size, factor);
    PlaceFits(b.at, b.size, factor);
    TimesMonotone(a.at + a.size, b.at, factor);
  }

  lemma NoSharedByte(a: Buffer, b: Buffer, factor: pos, v: nat)
    requires Disjoint(a, b) && InBuffer(a, factor, v)
    ensures !InBuffer(b, factor, v)
    ensures factor >= 2 ==> !InBuffer(b, factor, v + 1)
  {
    if a.at + a.size <= b.at { Apart(a, b, factor); } else { Apart(b, a, factor); }
  }

  /** Undoing the placement gives the buffer's address back. */
  lemma PlaceInverse(at: nat, size: nat, factor: pos)
    ensures Quot(Place(at, size, factor) - Times(size, factor / 2), factor) == at
  {
    QuotUnique(at, 0, factor);
  }

  /** The test that turns a buffer away. */
  predicate TurnedAway(place: nat, size: nat, memSize: nat, factor: pos) {
    place + size >= Times(memSize, factor)
  }

  /** A buffer of the memory is turned away exactly if it ends where the memory ends and the factor is less than 3. */
  lemma TurnedAwayIff(b: Buffer, memSize: nat, factor: pos)
    requires b.at + b.size <= memSize
    ensures TurnedAway(BufferPlace(b, factor), b.size, memSize, factor) <==> factor < 3 && b.at + b.size == memSize
  {
    PlaceFits(b.at, b.size, factor);
    TimesMonotone(b.at + b.size, memSize, factor);
    if b.at + b.size < memSize {
      TimesNext(b.at + b.size, factor);
      TimesMonotone(b.at + b.size + 1, memSize, factor);
    }
  }

  // ---------------------------------------------------------------- the flags

  class Checker {
    const memSize: nat
    const base: nat
    const virtualBase: nat
    const factor: pos
    const flags: array<nat>
    ghost var live: set<Buffer>

    /** Virtual byte `v` is flagged as valid. */
    predicate Flag(v: nat)
      requires v / 8 < flags.Length
      reads flags
    {
      Bit(flags[v / 8], v % 8)
    }

    ghost predicate InLive(v: nat)
      reads this
    {
      InSome(live, factor, v)
    }

    /** A virtual byte is flagged exactly if it lies in a live buffer; live buffers do not overlap. */
    ghost predicate Valid()
      reads this, flags
    {
      && flags.Length == (Times(memSize, factor) + 7) / 8
      && (forall v: nat :: v < Times(memSize, factor) ==> Flag(v) == InLive(v))
      && (forall b :: b in live ==> !TurnedAway(BufferPlace(b, factor), b.size, memSize, factor))
      && (forall a, b :: a in live && b in live && a != b ==> Disjoint(a, b))
    }

    constructor (memSize: nat, base: nat, virtualBase: nat, factor: pos)
      ensures Valid() && live == {} && fresh(flags)
    {
      this.memSize, this.base, this.virtualBase, this.factor := memSize, base, virtualBase, factor;
      flags := new nat[(Times(memSize, factor) + 7) / 8](i => 0);
      live := {};
      new;
      forall v: nat | v < Times(memSize, factor) ensures !Flag(v) { BitZero(v % 8); }
    }

    method IsValidAddress(v: nat) returns (r: bool)
      requires v / 8 < flags.Length
      ensures r == Flag(v)
    {
      BitShr(flags[v / 8], v % 8, 0);
      r := Shr(flags[v / 8], v % 8) % 2 == 1;
    }

    /** Sets or clears the flags of a range, unless it is turned away. */
    method BufferSetup(place: nat, size: nat, enable: bool)
      requires flags.Length == (Times(memSize, factor) + 7) / 8
      modifies flags
      ensures forall v: nat :: v < Times(memSize, factor) ==>
                Flag(v) == if place <= v < place + size && !TurnedAway(place, size, memSize, factor) then enable
                  else old(Flag(v))
    {
      if place + size >= Times(memSize, factor) {
        return;
      }
      var i := 0;
      while i < size
        invariant 0 <= i <= size
        invariant forall v: nat :: v < Times(memSize, factor) ==>
                  Flag(v) == if place <= v < place + i then enable else old(Flag(v))
      {
        SetFlag(place + i, enable);
        i := i + 1;
      }
    }

    method SetFlag(v: nat, enable: bool)
      requires v / 8 < flags.Length
      modifies flags
      ensures forall u: nat :: u / 8 < flags.Length ==> Flag(u) == if u == v then enable else old(Flag(u))
    {
      var validByte, validBit := v / 8, v % 8;
      ghost var was := flags[validByte];
      if enable {
        flags[validByte] := SetBit(flags[validByte], validBit);
      } else {
        flags[validByte] := ClearBit(flags[validByte], validBit, 8);
      }
      forall u: nat | u / 8 < flags.Length ensures Flag(u) == if u == v then enable else old(Flag(u)) {
        SetBitBits(was, validBit, u % 8);
        ClearBitBits(was, validBit, 8, u % 8);
      }
    }

    /** Allocates a buffer that overlaps no live one, and returns its virtual address. */
    method Alloc(ptr: nat, size: pos) returns (virtualPtr: nat)
      requires Valid() && base <= ptr && ptr - base + size <= memSize
      requires forall b :: b in live ==> Disjoint(Buffer(ptr - base, size), b)
      modifies this, flags
      ensures Valid() && virtualPtr == Place(ptr - base, size, factor) + virtualBase
      ensures live == if factor < 3 && ptr - base + size == memSize then old(live)
              else old(live) + {Buffer(ptr - base, size)}
    {
      ghost var b := Buffer(ptr - base, size);
      TurnedAwayIff(b, memSize, factor);
      var place := Times(ptr - base, factor) + Times(size, factor / 2);
      BufferSetup(place, size, true);
      ghost var before := live;
      if !(factor < 3 && ptr - base + size == memSize) {
        live := live + {b};
        forall v: nat | v < Times(memSize, factor) ensures Flag(v) == InLive(v) {
          assert InSome(before, factor, v) ==> InLive(v);
          assert InBuffer(b, factor, v) ==> InLive(v);
        }
      }
      virtualPtr := place + virtualBase;
    }

    /** Frees a live buffer, and returns its address: this undoes `Alloc`. */
    method Free(virtualPtr: nat, size: pos, ghost at: nat) returns (ptr: nat)
      requires Valid() && Buffer(at, size) in live && virtualPtr == Place(at, size, factor) + virtualBase
      modifies this, flags
      ensures Valid() && live == old(live) - {Buffer(at, size)} && ptr == at + base
    {
      var place := virtualPtr - virtualBase;
      PlaceInverse(at, size, factor);
      ptr := Quot(place - Times(size, factor / 2), factor) + base;
      BufferSetup(place, size, false);
      ghost var b, before := Buffer(at, size), live;
      live := live - {b};
      forall v: nat | v < Times(memSize, factor) ensures Flag(v) == InLive(v) {
        if InSome(before, factor, v) {
          var c :| c in before && InBuffer(c, factor, v);
          if InBuffer(b, factor, v) {
            forall d | d in live ensures !InBuffer(d, factor, v) { NoSharedByte(b, d, factor, v); }
          } else {
            assert c in live;
          }
        }
      }
    }

    /** Whether an access touches a byte that is not valid. */
    method CheckBufferAccess(offset: nat, size: nat) returns (faulty: bool)
      requires Valid() && offset + size <= Times(memSize, factor)
      ensures faulty == exists v :: offset <= v < offset + size && !InLive(v)
    {
      var i := 0;
      while i < size
        invariant 0 <= i <= size && forall v :: offset <= v < offset + i ==> InLive(v)
      {
        var isValid := IsValidAddress(offset + i);
        assert Flag(offset + i) == InLive(offset + i);
        if !isValid {
          return true;
        }
        i := i + 1;
      }
      faulty := false;
    }
  }

  /**
    With a factor of 2 or more an access that passes lies within one live buffer: it cannot run out of one
    buffer into the next.
   */
  lemma {:induction false} OneBuffer(live: set<Buffer>, factor: pos, offset: nat, size: pos)
    requires factor >= 2 && (forall a, b :: a in live && b in live && a != b ==> Disjoint(a, b))
    requires forall v: nat :: offset <= v < offset + size ==> InSome(live, factor, v)
    ensures exists b :: b in live && InBuffer(b, factor, offset) && InBuffer(b, factor, offset + size - 1)
  {
    if size > 1 {
      OneBuffer(live, factor, offset, size - 1);
      assert InSome(live, factor, offset + size - 1);
      var b :| b in live && InBuffer(b, factor, offset) && InBuffer(b, factor, offset + size - 2);
      var c :| c in live && InBuffer(c, factor, offset + size - 1);
      if b != c { NoSharedByte(b, c, factor, offset + size - 2); }
    } else {
      assert InSome(live, factor, offset);
    }
  }
}
