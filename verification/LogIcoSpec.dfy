/** Banks behind a crossbar: which bank an address selects, and who is served next. */
module LogIcoSpec {
  import opened Bits
  import opened Interleaving

  /** `2^slaveBits` banks, interleaved every `2^width` bytes. */
  datatype Config = Config(nbMasters: nat, slaveBits: nat, width: nat)

  ghost predicate ValidConfig(cfg: Config) {
    0 < cfg.nbMasters <= 64
  }

  // ---------------------------------------------------------------- address decoding

  function DecodeBank(cfg: Config, addr: nat): nat {
    if cfg.slaveBits == 0 then 0 else And(Shr(addr, cfg.width), Pow2(cfg.slaveBits) - 1)
  }

  function DecodeOffset(cfg: Config, addr: nat): nat {
    Or(Shl(Shr(addr, cfg.slaveBits + cfg.width), cfg.width),
       And(addr, if cfg.width == 0 then 0 else Pow2(cfg.width) - 1))
  }

  /** The expressions of the decoder interleave addresses over the banks. */
  lemma DecodeParts(cfg: Config, addr: nat)
    ensures DecodeBank(cfg, addr) == BankOf(cfg.slaveBits, cfg.width, addr) < Pow2(cfg.slaveBits)
    ensures DecodeOffset(cfg, addr) == OffsetOf(cfg.slaveBits, cfg.width, addr)
  {
    var line := Shr(addr, cfg.width);
    MaskIsLow(line, cfg.slaveBits);
    MaskIsLow(addr, cfg.width);
    Pow2Unfold(0);
    ShrShr(addr, cfg.width, cfg.slaveBits);
    SplitBits(addr, cfg.width);
    OrJoins(Shr(line, cfg.slaveBits), Low(addr, cfg.width), cfg.width);
    assert cfg.width == 0 ==> And(addr, 0) == 0 == Low(addr, 0);
    assert cfg.slaveBits + cfg.width == cfg.width + cfg.slaveBits;
  }

  /** Decoding is a bijection between addresses and bytes of banks. */
  lemma DecodeEncode(cfg: Config, addr: nat, bank: nat, offset: nat)
    ensures AddressOf(cfg.slaveBits, cfg.width, DecodeBank(cfg, addr), DecodeOffset(cfg, addr)) == addr
    ensures bank < Pow2(cfg.slaveBits) ==>
              var a := AddressOf(cfg.slaveBits, cfg.width, bank, offset);
                DecodeBank(cfg, a) == bank && DecodeOffset(cfg, a) == offset
  {
    Bijection(cfg.slaveBits, cfg.width, addr, bank, offset);
    DecodeParts(cfg, addr);
    DecodeParts(cfg, AddressOf(cfg.slaveBits, cfg.width, bank, offset));
  }

  // ---------------------------------------------------------------- round robin

  /** The input `d` places after `rr` around the ring of inputs. */
  function Around(rr: nat, d: nat, nb: nat): nat {
    if rr + d < nb then rr + d else rr + d - nb
  }

  /** How far input `j` is after `rr` around the ring. */
  function Dist(rr: nat, j: nat, nb: nat): int {
    if j >= rr then j - rr else j + nb - rr
  }

  /** The first input, `d` places after `rr` or later, that is pending. */
  function Winner(mask: nat, rr: nat, nb: nat, d: nat): nat
    requires rr < nb
    decreases nb - d
  {
    if d >= nb then rr else if Bit(mask, Around(rr, d, nb)) then Around(rr, d, nb) else Winner(mask, rr, nb, d + 1)
  }

  lemma {:induction false} WinnerFrom(mask: nat, rr: nat, nb: nat, d: nat, j: nat)
    requires rr < nb && j < nb && Bit(mask, j) && d <= Dist(rr, j, nb)
    ensures var w := Winner(mask, rr, nb, d); w < nb && Bit(mask, w) && d <= Dist(rr, w, nb) <= Dist(rr, j, nb)
    decreases nb - d
  {
    if !Bit(mask, Around(rr, d, nb)) { WinnerFrom(mask, rr, nb, d + 1, j); }
  }

  /** The winner is pending, and no pending input comes before it cyclically from `rr` on. */
  lemma WinnerIsFirst(mask: nat, rr: nat, nb: nat, j: nat)
    requires rr < nb && j < nb && Bit(mask, j)
    ensures var w := Winner(mask, rr, nb, 0); w < nb && Bit(mask, w) && Dist(rr, w, nb) <= Dist(rr, j, nb)
  {
    WinnerFrom(mask, rr, nb, 0, j);
  }

  /** Electing one input brings every other one that waits closer to the start of the scan. */
  lemma ElectionBringsCloser(mask: nat, rr: nat, nb: nat, j: nat)
    requires rr < nb && j < nb && Bit(mask, j)
    ensures var w := Winner(mask, rr, nb, 0);
            w < nb && (w != j ==> Dist(Around(w, 1, nb), j, nb) < Dist(rr, j, nb))
  {
    WinnerIsFirst(mask, rr, nb, j);
  }

  // ---------------------------------------------------------------- the bits

  /** The pending bits, rotated so that the scan starts at bit 0; words are 64 bits wide. */
  function Rotated(mask: nat, rr: nat, nb: nat): nat
    requires rr < nb
  {
    var m := And(mask, Pow2(nb) - 1);
    if rr == 0 then m else And(Or(Shr(m, rr), Low(Shl(m, nb - rr), 64)), Pow2(nb) - 1)
  }

  lemma MaskedBit(x: nat, nb: nat, i: nat)
    ensures Bit(And(x, Pow2(nb) - 1), i) == (i < nb && Bit(x, i))
  {
    MaskIsLow(x, nb);
    BitLow(x, nb, i);
  }

  /** A bit of the two parts of a word of `w` bits that is rotated. */
  lemma PartsBit(m: nat, rr: nat, nb: nat, w: nat, i: nat)
    requires 0 < rr < nb <= w
    ensures Bit(Or(Shr(m, rr), Low(Shl(m, nb - rr), w)), i) ==
            (Bit(m, i + rr) || (i < w && i >= nb - rr && Bit(m, i - (nb - rr))))
  {
    var hi := Shl(m, nb - rr);
    BitOr(Shr(m, rr), Low(hi, w), i);
    BitLow(hi, w, i);
    BitShl(m, nb - rr, i);
    BitShr(m, rr, i);
  }

  lemma RotatedIn(mask: nat, rr: nat, nb: nat, w: nat, i: nat)
    requires 0 < rr < nb <= w
    ensures var m := And(mask, Pow2(nb) - 1);
            Bit(And(Or(Shr(m, rr), Low(Shl(m, nb - rr), w)), Pow2(nb) - 1), i)
            == (i < nb && Bit(mask, Around(rr, i, nb)))
  {
    var m := And(mask, Pow2(nb) - 1);
    MaskedBit(Or(Shr(m, rr), Low(Shl(m, nb - rr), w)), nb, i);
    PartsBit(m, rr, nb, w, i);
    MaskedBit(mask, nb, i + rr);
    if i >= nb - rr { MaskedBit(mask, nb, i - (nb - rr)); }
  }

  lemma RotatedBit(mask: nat, rr: nat, nb: nat, i: nat)
    requires rr < nb <= 64
    ensures Bit(Rotated(mask, rr, nb), i) == (i < nb && Bit(mask, Around(rr, i, nb)))
  {
    if rr == 0 { MaskedBit(mask, nb, i); } else { RotatedIn(mask, rr, nb, 64, i); }
  }

  lemma {:induction false} WinnerAt(mask: nat, rr: nat, nb: nat, d: nat, e: nat)
    requires rr < nb && d <= e < nb && Bit(mask, Around(rr, e, nb))
    requires forall k :: d <= k < e ==> !Bit(mask, Around(rr, k, nb))
    ensures Winner(mask, rr, nb, d) == Around(rr, e, nb)
    decreases e - d
  {
    if d < e { WinnerAt(mask, rr, nb, d + 1, e); }
  }

  /** Counting the zeros below the lowest bit of the rotated word finds the winner. */
  lemma RotateAndCount(mask: nat, rr: nat, nb: nat, j: nat)
    requires rr < nb <= 64 && j < nb && Bit(mask, j)
    ensures Rotated(mask, rr, nb) > 0
    ensures Ctz(Rotated(mask, rr, nb)) < nb && Winner(mask, rr, nb, 0) == Around(rr, Ctz(Rotated(mask, rr, nb)), nb)
  {
    var x := Rotated(mask, rr, nb);
    RotatedBit(mask, rr, nb, Dist(rr, j, nb));
    BitZero(Dist(rr, j, nb));
    CtzIsFirst(x, Dist(rr, j, nb));
    RotatedBit(mask, rr, nb, Ctz(x));
    forall k | 0 <= k < Ctz(x) ensures !Bit(mask, Around(rr, k, nb)) {
      CtzIsFirst(x, k);
      RotatedBit(mask, rr, nb, k);
    }
    WinnerAt(mask, rr, nb, 0, Ctz(x));
  }
}
