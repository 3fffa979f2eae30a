/**
  How a burst is cut into chunks for outputs of width `ow`, in phases of width `iw`: chunk `k` of
  `[addr, addr + size)` is the part of it in the `k`-th `ow` cell it touches, and its phase is the
  `iw` window it lies in. Stated cell by cell, without saying how the chunks are computed.
 */
module SplitterPlan {
  import opened IoV2
  import opened Arith

  /** A sub-request; `data` is its position in the parent's buffer. */
  datatype Chunk = Chunk(addr: nat, size: nat, data: nat, opcode: Opcode, output: nat, phase: nat)

  /** Bytes from `addr` to the next multiple of `w` above it. */
  function Room(addr: nat, w: pos): (n: nat)
    ensures 0 < n <= w
  {
    w - Rem(addr, w)
  }

  /** The number of `w`-byte cells that `[addr, addr + size)` touches. */
  function Cells(addr: nat, size: nat, w: pos): int {
    if size == 0 then 0 else Quot(addr + size - 1, w) - Quot(addr, w) + 1
  }

  /**
    `c` is the part of `[addr, addr + size)` in the `k`-th `ow` cell it touches. Its phase is the
    number of the `iw` window, counted from the first; its lane is the cell's number in its window,
    counted in the first phase from where the burst begins.
   */
  ghost predicate IsCell(c: Chunk, addr: nat, size: nat, op: Opcode, iw: pos, ow: pos, nb: pos, k: nat) {
    && addr <= c.addr < addr + size
    && Quot(c.addr, ow) == Quot(addr, ow) + k
    && (c.addr == addr || Rem(c.addr, ow) == 0)
    && c.size == Min(Room(c.addr, ow), addr + size - c.addr)
    && c.data == c.addr - addr
    && c.opcode == op
    && c.phase == Quot(c.addr, iw) - Quot(addr, iw)
    && c.output == Lane(c.addr, c.phase, k, ow, nb)
  }

  function Lane(a: nat, phase: nat, k: nat, ow: pos, nb: pos): nat {
    if phase == 0 then k else Rem(Quot(a, ow), nb)
  }

  /** The chunks are the first cells of the burst, in order. */
  ghost predicate AreCells(cs: seq<Chunk>, addr: nat, size: nat, op: Opcode, iw: pos, ow: pos, nb: pos)
    decreases |cs|, 1
  {
    AreCellsStep(cs, addr, size, op, iw, ow, nb)
  }

  ghost predicate AreCellsStep(cs: seq<Chunk>, addr: nat, size: nat, op: Opcode, iw: pos, ow: pos, nb: pos)
    decreases |cs|, 0
  {
    cs == [] || (AreCells(cs[..|cs| - 1], addr, size, op, iw, ow, nb)
                 && IsCell(cs[|cs| - 1], addr, size, op, iw, ow, nb, |cs| - 1))
  }

  lemma AreCellsAppend(cs: seq<Chunk>, c: Chunk, addr: nat, size: nat, op: Opcode, iw: pos, ow: pos, nb: pos)
    requires AreCells(cs, addr, size, op, iw, ow, nb) && IsCell(c, addr, size, op, iw, ow, nb, |cs|)
    ensures AreCells(cs + [c], addr, size, op, iw, ow, nb)
  {
    assert (cs + [c])[..|cs|] == cs;
    assert AreCellsStep(cs + [c], addr, size, op, iw, ow, nb);
  }

  lemma {:induction false} AreCellsAt(cs: seq<Chunk>, addr: nat, size: nat, op: Opcode, iw: pos, ow: pos, nb: pos,
                                      j: nat)
    requires AreCells(cs, addr, size, op, iw, ow, nb) && j < |cs|
    ensures IsCell(cs[j], addr, size, op, iw, ow, nb, j)
  {
    assert AreCellsStep(cs, addr, size, op, iw, ow, nb);
    if j < |cs| - 1 { AreCellsAt(cs[..|cs| - 1], addr, size, op, iw, ow, nb, j); }
  }

  // ---------------------------------------------------------------- stepping from cell to cell

  /** Stepping within a cell, or onto the next boundary. */
  lemma StepInCell(addr: nat, n: nat, w: pos)
    requires 0 < n <= Room(addr, w)
    ensures Quot(addr + n - 1, w) == Quot(addr, w)
    ensures n < Room(addr, w) ==> Quot(addr + n, w) == Quot(addr, w) && Rem(addr + n, w) == Rem(addr, w) + n
    ensures n == Room(addr, w) ==> Quot(addr + n, w) == Quot(addr, w) + 1 && Rem(addr + n, w) == 0
  {
    QuotRem(addr, w);
    StepFrom(Quot(addr, w), Rem(addr, w), n, w);
  }

  lemma StepFrom(q: nat, r: nat, n: nat, w: pos)
    requires r < w && 0 < n <= w - r
    ensures var a := Times(q, w) + r;
            && Quot(a + n - 1, w) == q
            && (n < w - r ==> Quot(a + n, w) == q && Rem(a + n, w) == r + n)
            && (n == w - r ==> Quot(a + n, w) == q + 1 && Rem(a + n, w) == 0)
  {
    QuotUnique(q, r + n - 1, w);
    if n < w - r { QuotUnique(q, r + n, w); } else { QuotUnique(q + 1, 0, w); }
  }

  /** A window boundary is a cell boundary, on lane 0. */
  lemma AlignedWindow(a: nat, iw: pos, ow: pos, nb: pos)
    requires iw == Times(nb, ow) && Rem(a, iw) == 0
    ensures Rem(a, ow) == 0 && Rem(Quot(a, ow), nb) == 0
  {
    QuotRem(a, iw);
    WindowStart(Quot(a, iw), iw, ow, nb);
  }

  lemma WindowStart(Q: nat, iw: pos, ow: pos, nb: pos)
    requires iw == Times(nb, ow)
    ensures Rem(Times(Q, iw), ow) == 0 && Rem(Quot(Times(Q, iw), ow), nb) == 0
  {
    TimesTimes(Q, nb, ow);
    QuotUnique(Times(Q, nb), 0, ow);
    QuotUnique(Q, 0, nb);
  }

  /** Before a boundary lies another cell. */
  lemma BoundaryGap(a: nat, w: pos)
    requires a > 0 && Rem(a, w) == 0
    ensures Quot(a, w) == Quot(a - 1, w) + 1
  {
    QuotRem(a, w);
    QuotRem(a - 1, w);
    GapFrom(Quot(a, w), w);
  }

  lemma GapFrom(q: nat, w: pos)
    requires Times(q, w) > 0
    ensures Quot(Times(q, w) - 1, w) == q - 1
  {
    QuotUnique(q - 1, w - 1, w);
  }

  /** A cell at a time: `rest` bytes of a phase are left from `a` on, the next chunk being the burst's `k`-th. */
  ghost predicate Ready(a: nat, rest: nat, output: nat, phase: nat, k: nat, base: nat, total: nat,
                        iw: pos, ow: pos, nb: pos)
  {
    && base <= a && a + rest <= base + total && 0 < rest <= Room(a, iw)
    && Quot(a, ow) == Quot(base, ow) + k && (a == base || Rem(a, ow) == 0)
    && (a + rest == base + total || Rem(a + rest, iw) == 0)
    && phase == Quot(a, iw) - Quot(base, iw)
    && output == Lane(a, phase, k, ow, nb)
  }

  /**
    A phase at a time: `rest` bytes of the burst are left from `a` on, the next chunk being its `k`-th and the
    first of a phase.
   */
  ghost predicate AtPhase(a: nat, rest: nat, phase: nat, k: nat, base: nat, total: nat, iw: pos, ow: pos) {
    && base <= a && a + rest == base + total && rest > 0
    && Quot(a, ow) == Quot(base, ow) + k
    && (a == base || Rem(a, iw) == 0)
    && phase == Quot(a, iw) - Quot(base, iw)
  }

  lemma PhaseIsReady(a: nat, rest: nat, phase: nat, k: nat, base: nat, total: nat, iw: pos, ow: pos, nb: pos)
    requires iw == Times(nb, ow) && AtPhase(a, rest, phase, k, base, total, iw, ow)
    ensures Ready(a, Min(Room(a, iw), rest), 0, phase, k, base, total, iw, ow, nb)
  {
    var n := Min(Room(a, iw), rest);
    StepInCell(a, n, iw);
    if a != base {
      AlignedWindow(a, iw, ow, nb);
      BoundaryGap(a, iw);
      QuotMonotone(base, a - 1, iw);
    }
  }

  lemma ReadyIsCell(a: nat, rest: nat, op: Opcode, output: nat, phase: nat, k: nat, base: nat, total: nat,
                    iw: pos, ow: pos, nb: pos)
    requires iw == Times(nb, ow) && Ready(a, rest, output, phase, k, base, total, iw, ow, nb)
    ensures IsCell(Chunk(a, Min(Room(a, ow), rest), a - base, op, output, phase), base, total, op, iw, ow, nb, k)
  {
    if a + rest != base + total { AlignedWindow(a + rest, iw, ow, nb); }
    if rest < Room(a, ow) { StepInCell(a, rest, ow); }
  }

  /** The last chunk of a phase leads to the next phase, or to the end of the burst. */
  lemma PhaseEnds(a: nat, rest: nat, output: nat, phase: nat, k: nat, base: nat, total: nat, iw: pos, ow: pos, nb: pos)
    requires iw == Times(nb, ow) && Ready(a, rest, output, phase, k, base, total, iw, ow, nb) && rest <= Room(a, ow)
    ensures a + rest < base + total ==>
            AtPhase(a + rest, base + total - a - rest, phase + 1, k + 1, base, total, iw, ow)
    ensures a + rest == base + total ==> k + 1 == Cells(base, total, ow) && phase + 1 == Cells(base, total, iw)
  {
    StepInCell(a, rest, ow);
    StepInCell(a, rest, iw);
    if a + rest < base + total {
      AlignedWindow(a + rest, iw, ow, nb);
      BoundaryGap(a + rest, ow);
      BoundaryGap(a + rest, iw);
    }
  }

  // ---------------------------------------------------------------- the position within a phase

  /** Where the `i`-th cell of a phase starting at `a0` begins. */
  function CellAt(a0: nat, i: nat, ow: pos): nat {
    if i == 0 then a0 else Times(Quot(a0, ow) + i, ow)
  }

  /** After `i` chunks of the phase `[a0, a0 + n)`, at `a`: on the next cell, or at the end. */
  ghost predicate InPhase(a0: nat, n: nat, i: nat, a: nat, ow: pos) {
    a == Min(CellAt(a0, i, ow), a0 + n) && (i > 0 ==> CellAt(a0, i - 1, ow) < a0 + n)
  }

  lemma InPhaseStep(a0: nat, n: nat, i: nat, a: nat, ow: pos)
    requires InPhase(a0, n, i, a, ow) && a < a0 + n
    ensures InPhase(a0, n, i + 1, a + Min(Room(a, ow), a0 + n - a), ow)
  {
    QuotRem(a0, ow);
    TimesNext(Quot(a0, ow) + i, ow);
    if i > 0 { QuotUnique(Quot(a0, ow) + i, 0, ow); }
  }

  /** Within a phase, cell `i` goes to lane `i`. */
  lemma LaneOfCell(q0: nat, i: nat, nb: pos)
    requires Rem(q0, nb) == 0 && Quot(q0 + i, nb) == Quot(q0, nb)
    ensures Rem(q0 + i, nb) == i
  {
    QuotRem(q0, nb);
    QuotRem(q0 + i, nb);
  }

  lemma InPhaseReady(a0: nat, n: nat, i: nat, a: nat, left: nat, phase: nat, k0: nat, base: nat, total: nat,
                     iw: pos, ow: pos, nb: pos)
    requires iw == Times(nb, ow) && AtPhase(a0, left, phase, k0, base, total, iw, ow) && n == Min(Room(a0, iw), left)
    requires a == CellAt(a0, i, ow) && a < a0 + n
    ensures Ready(a, a0 + n - a, i, phase, k0 + i, base, total, iw, ow, nb)
  {
    PhaseIsReady(a0, left, phase, k0, base, total, iw, ow, nb);
    if i > 0 {
      QuotRem(a0, ow);
      TimesMonotone(Quot(a0, ow) + 1, Quot(a0, ow) + i, ow);
      QuotUnique(Quot(a0, ow) + i, 0, ow);
      StepInCell(a0, a - a0, iw);
      QuotQuot(a0, nb, ow);
      QuotQuot(a, nb, ow);
      if phase > 0 { LaneOfCell(Quot(a0, ow), i, nb); }
    }
  }

  /** Between two phases, or at the end of the burst, with `k` chunks cut. */
  ghost predicate Between(a: nat, phases: nat, k: nat, base: nat, total: nat, iw: pos, ow: pos) {
    && base <= a <= base + total
    && (a < base + total ==> AtPhase(a, base + total - a, phases, k, base, total, iw, ow))
    && (a == base + total ==> k == Cells(base, total, ow) && phases == Cells(base, total, iw))
  }

  lemma InPhaseEnd(a0: nat, n: nat, i: nat, left: nat, phase: nat, k0: nat, base: nat, total: nat, iw: pos, ow: pos,
                   nb: pos)
    requires iw == Times(nb, ow) && AtPhase(a0, left, phase, k0, base, total, iw, ow) && n == Min(Room(a0, iw), left)
    requires InPhase(a0, n, i, a0 + n, ow)
    ensures Between(a0 + n, phase + 1, k0 + i, base, total, iw, ow)
  {
    var b := CellAt(a0, i - 1, ow);
    InPhaseReady(a0, n, i - 1, b, left, phase, k0, base, total, iw, ow, nb);
    QuotRem(a0, ow);
    TimesNext(Quot(a0, ow) + i - 1, ow);
    if i > 1 { QuotUnique(Quot(a0, ow) + i - 1, 0, ow); }
    PhaseEnds(b, a0 + n - b, i - 1, phase, k0 + i - 1, base, total, iw, ow, nb);
  }

  // ---------------------------------------------------------------- what the cells mean

  /** Chunks in cells `k` and `k + 1` are neighbours. */
  lemma CellsAdjoin(c: Chunk, d: Chunk, addr: nat, size: nat, op: Opcode, iw: pos, ow: pos, nb: pos, k: nat)
    requires IsCell(c, addr, size, op, iw, ow, nb, k) && IsCell(d, addr, size, op, iw, ow, nb, k + 1)
    ensures d.addr == c.addr + c.size
  {
    QuotRem(c.addr, ow);
    QuotRem(d.addr, ow);
    QuotRem(addr, ow);
    Adjoin(Quot(addr, ow), Rem(addr, ow), Quot(c.addr, ow), Rem(c.addr, ow), Rem(d.addr, ow), k, ow);
  }

  lemma Adjoin(q0: nat, r0: nat, q: nat, r: nat, r': nat, k: nat, w: pos)
    requires q == q0 + k
    ensures Times(q0 + k + 1, w) == Times(q, w) + w
  {}

  /** The last cell ends the burst. */
  lemma LastCell(c: Chunk, addr: nat, size: nat, op: Opcode, iw: pos, ow: pos, nb: pos, k: nat)
    requires IsCell(c, addr, size, op, iw, ow, nb, k) && k + 1 == Cells(addr, size, ow)
    ensures c.addr + c.size == addr + size
  {
    QuotRem(c.addr, ow);
    QuotRem(addr + size - 1, ow);
  }

  lemma FirstCell(c: Chunk, addr: nat, size: nat, op: Opcode, iw: pos, ow: pos, nb: pos)
    requires IsCell(c, addr, size, op, iw, ow, nb, 0)
    ensures c.addr == addr
  {
    QuotRem(c.addr, ow);
    QuotRem(addr, ow);
  }

  /** There are as many lanes as cells in a window. */
  lemma LaneBound(a: nat, phase: nat, k: nat, base: nat, iw: pos, ow: pos, nb: pos)
    requires iw == Times(nb, ow) && Quot(a, ow) == Quot(base, ow) + k && phase == Quot(a, iw) - Quot(base, iw)
    ensures Lane(a, phase, k, ow, nb) < nb
  {
    if phase == 0 {
      QuotQuot(a, nb, ow);
      QuotQuot(base, nb, ow);
      SameGroup(Quot(base, ow), k, nb);
    }
  }

  lemma SameGroup(q: nat, k: nat, nb: pos)
    requires Quot(q + k, nb) == Quot(q, nb)
    ensures k < nb
  {
    QuotRem(q, nb);
    QuotRem(q + k, nb);
  }

  /**
    The chunks of a whole burst tile it: each has an output and stays in one cell and in the window of
    its phase, it starts where its predecessor ends, and the last one ends the burst.
   */
  lemma CellsTileBurst(cs: seq<Chunk>, addr: nat, size: nat, op: Opcode, iw: pos, ow: pos, nb: pos, k: nat)
    requires iw == Times(nb, ow) && AreCells(cs, addr, size, op, iw, ow, nb) && k < |cs| == Cells(addr, size, ow)
    ensures var c := cs[k];
            && c.size > 0 && c.data == c.addr - addr && c.opcode == op && c.output < nb
            && Quot(c.addr, ow) == Quot(c.addr + c.size - 1, ow)
            && Quot(c.addr, iw) == Quot(c.addr + c.size - 1, iw) == Quot(addr, iw) + c.phase
            && c.addr == (if k == 0 then addr else cs[k - 1].addr + cs[k - 1].size)
            && (k + 1 == |cs| ==> c.addr + c.size == addr + size)
  {
    var c := cs[k];
    AreCellsAt(cs, addr, size, op, iw, ow, nb, k);
    if k > 0 {
      AreCellsAt(cs, addr, size, op, iw, ow, nb, k - 1);
      CellsAdjoin(cs[k - 1], c, addr, size, op, iw, ow, nb, k - 1);
    } else {
      FirstCell(c, addr, size, op, iw, ow, nb);
    }
    if k + 1 == |cs| { LastCell(c, addr, size, op, iw, ow, nb, k); }
    StepInCell(c.addr, c.size, ow);
    QuotQuot(c.addr, nb, ow);
    QuotQuot(c.addr + c.size - 1, nb, ow);
    LaneBound(c.addr, c.phase, k, addr, iw, ow, nb);
  }
}
