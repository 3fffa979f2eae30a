/** The memory component: reads, writes and atomic operations on a byte buffer. */
module MemoryV3 {
  import opened Arith
  import opened Bits
  import opened Bytes
  import opened IoV2
  import opened Atomics

  class Memory {
    const mem: array<byte>
    var poweredUp: bool
    var res: map<nat, nat>
    ghost var log: seq<Entry>

    ghost predicate Valid()
      reads this
    {
      TableOk(res, log) && Lawful(log) && mem.Length < NO_ADDR
    }

    constructor (size: nat)
      requires size < NO_ADDR
      ensures Valid() && fresh(mem) && mem.Length == size && log == []
    {
      mem := new byte[size](i => 0);
      poweredUp := true;
      res := map[];
      log := [];
    }

    method HandleWrite(offset: nat, data: seq<byte>)
      requires offset + |data| <= mem.Length
      modifies mem
      ensures mem[..] == if poweredUp then Patch(old(mem[..]), offset, data) else old(mem[..])
    {
      if !poweredUp {
        return;
      }
      ghost var was := mem[..];
      var i := 0;
      while i < |data|
        invariant 0 <= i <= |data|
        invariant forall k :: 0 <= k < mem.Length ==>
                  mem[k] == if offset <= k < offset + i then data[k - offset] else was[k]
      {
        mem[offset + i] := data[i];
        i := i + 1;
      }
      assert mem[..] == Patch(was, offset, data);
    }

    /** A memory without power reads as zeros. */
    method HandleRead(offset: nat, size: nat) returns (data: seq<byte>)
      requires offset + size <= mem.Length
      ensures data == Reads(offset, size)
    {
      if !poweredUp {
        return seq<byte>(size, i => 0);
      }
      data := mem[offset..offset + size];
    }

    function Reads(offset: nat, size: nat): (data: seq<byte>)
      requires offset + size <= mem.Length
      reads this, mem
      ensures |data| == size
    {
      if poweredUp then mem[offset..offset + size] else seq<byte>(size, i => 0)
    }

    /** Extends the sign of a word of `size` bytes. */
    method GetSignedValue(val: nat, size: nat) returns (r: nat)
      requires 0 < size <= 8 && val < Pow2(8 * size)
      ensures r == Extend(val, 8 * size, 64)
    {
      var k := 64 - 8 * size;
      ShiftsExtend(val, 8 * size, 64);
      r := Sar(Low(Shl(val, k), 64), k, 64);
    }

    /** The operation on two words of `size` bytes, computed on 64-bit registers. */
    method Compute(op: Op, size: nat, prev: nat, operand: nat) returns (result: nat)
      requires 0 < size <= 8 && prev < Pow2(8 * size) && operand < Pow2(8 * size) && op != LoadReserved
      ensures Low(result, 8 * size) == Operate(op, 8 * size, prev, operand)
    {
      var p, o := prev, operand;
      if size < 8 {
        p := GetSignedValue(prev, size);
        o := GetSignedValue(operand, size);
        SubWord(op, 8 * size, 64, prev, operand);
      } else {
        FullWord(op, 64, prev, operand);
      }
      result := Operate(op, 64, p, o);
    }

    /** Wipes the reservations that a successful store-conditional covers. */
    method BreakReservations(addr: nat, size: nat)
      modifies this`res
      ensures res == Broken(old(res), addr, size)
    {
      var rest := res.Keys;
      while rest != {}
        invariant rest <= res.Keys && res.Keys == old(res).Keys
        invariant forall w :: w in res ==> res[w] == if w in rest then old(res)[w] else Broken(old(res), addr, size)[w]
        decreases |rest|
      {
        var w :| w in rest;
        if addr <= res[w] < addr + size {
          res := res[w := NO_ADDR];
        }
        rest := rest - {w};
      }
    }

    /** Registers a load reservation. */
    method Reserve(who: nat, addr: nat, size: nat)
      requires Valid() && addr < mem.Length
      modifies this
      ensures Valid() && poweredUp == old(poweredUp) && log == old(log) + [Reserved(who, addr, size)]
    {
      ReserveKeeps(res, log, who, addr, size);
      res := res[who := addr];
      log := log + [Reserved(who, addr, size)];
    }

    /** Tries the reservation of a store-conditional. */
    method Conditional(who: nat, addr: nat, size: nat) returns (ok: bool)
      requires Valid() && addr < mem.Length
      modifies this
      ensures Valid() && poweredUp == old(poweredUp) && log == old(log) + [Stored(who, addr, size, ok)]
      ensures ok == (Reservation(old(log), who) == Some(addr))
    {
      StoreKeeps(res, log, who, addr, size);
      ok := who in res && res[who] == addr;
      if ok {
        BreakReservations(addr, size);
      }
      log := log + [Stored(who, addr, size, ok)];
    }

    /**
      An atomic access: the word in memory becomes the operation on it and the operand, and the requester
      gets the word that was there; a store-conditional answers 0 and writes if its reservation holds, and
      answers 1 and writes nothing otherwise.
     */
    method HandleAtomic(addr: nat, size: nat, input: seq<byte>, op: Op, who: nat) returns (output: seq<byte>)
      requires Valid() && 0 < size <= 8 && addr + size <= mem.Length && |input| == size
      modifies this, mem
      ensures Valid() && poweredUp == old(poweredUp) && |output| == size
      ensures op != StoreConditional ==> output == old(Reads(addr, size))
      ensures op == LoadReserved ==> mem[..] == old(mem[..]) && log == old(log) + [Reserved(who, addr, size)]
      ensures op == StoreConditional ==>
                && var ok := Reservation(old(log), who) == Some(addr);
                   && log == old(log) + [Stored(who, addr, size, ok)] && Word(output) == (if ok then 0 else 1)
                   && mem[..] == (if ok && poweredUp then Patch(old(mem[..]), addr, input) else old(mem[..]))
      ensures op != LoadReserved && op != StoreConditional ==>
                && log == old(log)
                && mem[..] == if poweredUp then Patch(old(mem[..]), addr, Combined(op, old(Reads(addr, size)), input))
                   else old(mem[..])
    {
      var read := HandleRead(addr, size);
      output := read;
      BytesOfWord(read);
      BytesOfWord(input);
      if op == LoadReserved {
        Reserve(who, addr, size);
      } else if op == StoreConditional {
        var ok := Conditional(who, addr, size);
        output := BytesOf(if ok then 0 else 1, size);
        SmallWord(if ok then 0 else 1, size);
        if ok { HandleWrite(addr, input); }
      } else {
        var result := Compute(op, size, Word(read), Word(input));
        LowBytes(result, size);
        HandleWrite(addr, BytesOf(result, size));
      }
    }
  }

  /** The word that an operation leaves in memory, of as many bytes as its operands. */
  function Combined(op: Op, prev: seq<byte>, operand: seq<byte>): (r: seq<byte>)
    ensures |r| == |prev|
  {
    if prev == [] then [] else BytesOf(Operate(op, 8 * |prev|, Word(prev), Word(operand)), |prev|)
  }

  /** The word that is left is the result of the operation on those that the bytes hold. */
  lemma CombinedMeans(op: Op, prev: seq<byte>, operand: seq<byte>)
    requires 0 < |prev| == |operand| && op != LoadReserved
    ensures IsResult(op, 8 * |prev|, Word(prev), Word(operand), Word(Combined(op, prev, operand)))
  {
    var w := 8 * |prev|;
    BytesOfWord(prev);
    BytesOfWord(operand);
    OperateMeans(op, w, Word(prev), Word(operand));
    WordOfBytes(Operate(op, w, Word(prev), Word(operand)), |prev|);
    LowSmall(Operate(op, w, Word(prev), Word(operand)), w);
  }

  lemma FullWord(op: Op, w: pos, x: nat, y: nat)
    requires x < Pow2(w) && y < Pow2(w) && op != LoadReserved
    ensures Low(Operate(op, w, x, y), w) == Operate(op, w, x, y)
  {
    LowSmall(x, w);
    LowSmall(y, w);
    SubWordWith(op, w, w, x, y, x, y);
  }

  /** The low bytes of a register are those of its low bits. */
  lemma LowBytes(x: nat, n: nat)
    ensures BytesOf(Low(x, 8 * n), n) == BytesOf(x, n)
  {
    WordOfBytes(x, n);
    BytesOfWord(BytesOf(x, n));
  }

  lemma SmallWord(x: nat, n: nat)
    requires x <= 1 && n > 0
    ensures Word(BytesOf(x, n)) == x
  {
    WordOfBytes(x, n);
    Pow2Unfold(8 * n);
    LowSmall(x, 8 * n);
  }
}
