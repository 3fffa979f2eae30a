/** The cache's lines: where they come from, what they should hold, and what keeps them so. */
module CacheLines {
  import opened Arith
  import opened Bits
  import opened Bytes
  import opened IoV2

  /** Tags, and the addresses that refills go to, are words of so many bits. */
  const WORD_BITS: nat := 32

  /** The tag of an invalid line. */
  const NO_TAG: nat := 0xFFFF_FFFF

  /** The geometry, and where lines are refilled from. */
  datatype Config = Config(lineBits: nat, setBits: nat, ways: pos, refillShift: nat, refillOffset: nat,
                           refillLatency: nat)

  /** The refill port's answer to a request, and should it be a refill, what it has written into the line's buffer. */
  datatype Reply = Reply(status: ReqStatus, latency: int, data: nat -> byte)

  /** A request of the core, with the bytes it writes. */
  datatype Access = Access(id: nat, addr: nat, size: nat, isWrite: bool, bytes: seq<byte>)

  datatype Line = Line(tag: nat, bytes: seq<byte>, timestamp: int)

  /** The refill in flight: the victim line, the tag it will carry, and where the waiting request looks in it. */
  datatype Refill = Refill(set_: nat, way: nat, tag: nat, offset: nat)

  /** What has happened to the lines: fills, with what they brought, and bytes copied from and to requests. */
  datatype Entry =
    | Filled(tag: nat, bytes: seq<byte>)
    | Wrote(tag: nat, at: nat, bytes: seq<byte>)
    | Returned(id: nat, tag: nat, at: nat, bytes: seq<byte>)

  // ---------------------------------------------------------------- addresses

  function LineSize(cfg: Config): pos { Pow2(cfg.lineBits) }

  function Sets(cfg: Config): pos { Pow2(cfg.setBits) }

  function TagOf(cfg: Config, addr: nat): nat { Low(Shr(addr, cfg.lineBits), WORD_BITS) }

  function SetOf(cfg: Config, tag: nat): (i: nat)
    ensures i < Sets(cfg)
  {
    Low(tag, cfg.setBits)
  }

  function OffsetOf(cfg: Config, addr: nat): nat { Low(addr, cfg.lineBits) }

  /** Where the line around `addr` is refilled from, as the expression on words of `w` bits computes it. */
  function RefillIn(cfg: Config, addr: nat, w: nat): nat
    requires cfg.lineBits <= w
  {
    var a := Low(addr, w);
    SplitBits(a, cfg.lineBits);
    Low(Shl(a - Low(a, cfg.lineBits), cfg.refillShift) + cfg.refillOffset, w)
  }

  function RefillAddr(cfg: Config, addr: nat): nat
    requires cfg.lineBits <= WORD_BITS
  {
    RefillIn(cfg, addr, WORD_BITS)
  }

  /** Where the line with this tag lies in the backing store. */
  function BaseIn(cfg: Config, tag: nat, w: nat): nat {
    Low(Shl(Low(Shl(tag, cfg.lineBits), w), cfg.refillShift) + cfg.refillOffset, w)
  }

  function LineBase(cfg: Config, tag: nat): nat {
    BaseIn(cfg, tag, WORD_BITS)
  }

  function Delivered(cfg: Config, data: nat -> byte): (bytes: seq<byte>)
    ensures |bytes| == LineSize(cfg)
  {
    seq<byte>(LineSize(cfg), i requires 0 <= i < LineSize(cfg) => data(i))
  }

  /** The tag alone determines where a line is refilled from: two addresses with one tag share one line of the store. */
  lemma RefillAddrOfTag(cfg: Config, addr: nat)
    requires cfg.lineBits <= WORD_BITS
    ensures RefillAddr(cfg, addr) == LineBase(cfg, TagOf(cfg, addr))
  {
    RefillOfTag(cfg, addr, WORD_BITS);
  }

  lemma RefillOfTag(cfg: Config, addr: nat, w: nat)
    requires cfg.lineBits <= w
    ensures RefillIn(cfg, addr, w) == BaseIn(cfg, Low(Shr(addr, cfg.lineBits), w), w)
  {
    ClearLow(addr, cfg.lineBits, w, w);
  }

  lemma {:induction false} ClearLow(x: nat, b: nat, k: nat, n: nat)
    requires b <= k <= n + b
    ensures Low(x, k) - Low(Low(x, k), b) == Low(Shl(Low(Shr(x, b), n), b), k)
  {
    ShrUnfold(x, b);
    if b > 0 {
      ClearLow(x / 2, b - 1, k - 1, n);
      ClearBits(x, Low(x / 2, k - 1), Low(Shr(x, b), n), b, k);
    } else {
      LowUnfold(Low(x, k), 0);
      ShlUnfold(Low(x, n), 0);
      LowLow(x, k, n);
    }
  }

  /** One bit more. */
  lemma ClearBits(x: nat, low: nat, high: nat, b: pos, k: pos)
    requires low == Low(x / 2, k - 1) && low - Low(low, b - 1) == Low(Shl(high, b - 1), k - 1)
    ensures Low(x, k) - Low(Low(x, k), b) == Low(Shl(high, b), k)
  {
    LowUnfold(x, k);
    LowDouble(low, x % 2, b);
    ShlUnfold(high, b);
    LowDouble(Shl(high, b - 1), 0, k);
  }

  lemma LowDouble(y: nat, bit: nat, b: pos)
    requires bit < 2
    ensures Low(2 * y + bit, b) == 2 * Low(y, b - 1) + bit
  {
    LowUnfold(2 * y + bit, b);
    assert (2 * y + bit) / 2 == y;
  }

  /** Without overflow, the line around `addr` is refilled from `(line address << shift) + offset`. */
  lemma RefillAddrUntruncated(cfg: Config, addr: nat)
    requires cfg.lineBits <= WORD_BITS && addr < Pow2(WORD_BITS)
    requires Shl(Shl(Shr(addr, cfg.lineBits), cfg.lineBits), cfg.refillShift) + cfg.refillOffset < Pow2(WORD_BITS)
    ensures RefillAddr(cfg, addr) == Shl(Shl(Shr(addr, cfg.lineBits), cfg.lineBits), cfg.refillShift) + cfg.refillOffset
  {
    RefillUntruncated(cfg, addr, WORD_BITS);
  }

  lemma RefillUntruncated(cfg: Config, addr: nat, w: nat)
    requires cfg.lineBits <= w && addr < Pow2(w)
    requires Shl(Shl(Shr(addr, cfg.lineBits), cfg.lineBits), cfg.refillShift) + cfg.refillOffset < Pow2(w)
    ensures RefillIn(cfg, addr, w) ==
            Shl(Shl(Shr(addr, cfg.lineBits), cfg.lineBits), cfg.refillShift) + cfg.refillOffset
  {
    LowSmall(addr, w);
    SplitBits(addr, cfg.lineBits);
    LowSmall(Shl(Shl(Shr(addr, cfg.lineBits), cfg.lineBits), cfg.refillShift) + cfg.refillOffset, w);
  }

  /** An access lies within one line and does not carry the tag of an invalid line. */
  predicate InLine(cfg: Config, req: Access) {
    && OffsetOf(cfg, req.addr) + req.size <= LineSize(cfg) && (req.isWrite ==> |req.bytes| == req.size)
    && TagOf(cfg, req.addr) != NO_TAG
  }

  // ---------------------------------------------------------------- what a line should hold

  /**
    Byte `i` of the line with this tag: the one last written to it since it was last filled, otherwise the one that
    the fill brought; `None` if the line has not been filled.
   */
  function Value(log: seq<Entry>, tag: nat, i: nat): Option<byte> {
    if log == [] then None
    else
      var n := |log| - 1;
      match log[n]
      case Filled(t, bytes) =>
        if t == tag then (if i < |bytes| then Some(bytes[i]) else None) else Value(log[..n], tag, i)
      case Wrote(t, at, bytes) =>
        if t == tag && at <= i < at + |bytes| then Some(bytes[i - at]) else Value(log[..n], tag, i)
      case Returned(_, _, _, _) => Value(log[..n], tag, i)
  }

  /** Every read so far returned the value of its bytes at that time. */
  ghost predicate Truthful(log: seq<Entry>) {
    log == [] ||
    (var n := |log| - 1;
     && Truthful(log[..n])
     && (log[n].Returned? ==>
           forall i :: 0 <= i < |log[n].bytes| ==>
             Value(log[..n], log[n].tag, log[n].at + i) == Some(log[n].bytes[i])))
  }

  ghost predicate Unwritten(log: seq<Entry>, tag: nat) {
    forall k :: 0 <= k < |log| ==> !(log[k].Wrote? && log[k].tag == tag)
  }

  /** What every fill brought were the bytes of this store. */
  ghost predicate FilledFrom(cfg: Config, store: nat -> byte, log: seq<Entry>) {
    forall k :: 0 <= k < |log| && log[k].Filled? ==> IsStoreLine(cfg, store, log[k].tag, log[k].bytes)
  }

  ghost predicate IsStoreLine(cfg: Config, store: nat -> byte, tag: nat, bytes: seq<byte>) {
    forall i :: 0 <= i < |bytes| ==> bytes[i] == store(LineBase(cfg, tag) + i)
  }

  /** A line that is not written to holds the bytes of the store, as long as these do not change. */
  lemma {:induction false} UnwrittenIsStore(cfg: Config, store: nat -> byte, log: seq<Entry>, tag: nat, i: nat)
    requires Unwritten(log, tag) && FilledFrom(cfg, store, log) && Value(log, tag, i).Some?
    ensures Value(log, tag, i) == Some(store(LineBase(cfg, tag) + i))
  {
    var n := |log| - 1;
    assert !(log[n].Wrote? && log[n].tag == tag);
    assert log[n].Filled? ==> IsStoreLine(cfg, store, log[n].tag, log[n].bytes);
    if !(log[n].Filled? && log[n].tag == tag) { UnwrittenIsStore(cfg, store, log[..n], tag, i); }
  }

  /** What the last fill of a line brought. */
  function LastFill(log: seq<Entry>, tag: nat): Option<seq<byte>> {
    if log == [] then None
    else
      var n := |log| - 1;
      if log[n].Filled? && log[n].tag == tag then Some(log[n].bytes) else LastFill(log[..n], tag)
  }

  /** A line that is not written to holds what its last fill brought. */
  lemma {:induction false} UnwrittenIsFill(log: seq<Entry>, tag: nat, i: nat)
    requires Unwritten(log, tag) && Value(log, tag, i).Some?
    ensures LastFill(log, tag).Some? && i < |LastFill(log, tag).value|
    ensures Value(log, tag, i) == Some(LastFill(log, tag).value[i])
  {
    var n := |log| - 1;
    assert !(log[n].Wrote? && log[n].tag == tag);
    if !(log[n].Filled? && log[n].tag == tag) { UnwrittenIsFill(log[..n], tag, i); }
  }

  lemma {:induction false} TruthfulAt(log: seq<Entry>, k: nat, i: nat)
    requires Truthful(log) && k < |log| && log[k].Returned? && i < |log[k].bytes|
    ensures Value(log[..k], log[k].tag, log[k].at + i) == Some(log[k].bytes[i])
  {
    var n := |log| - 1;
    if k < n {
      TruthfulAt(log[..n], k, i);
      assert log[..n][..k] == log[..k];
    }
  }

  lemma ValueAppend(log: seq<Entry>, e: Entry, tag: nat, i: nat)
    ensures Value(log + [e], tag, i) ==
            if e.Filled? && e.tag == tag then (if i < |e.bytes| then Some(e.bytes[i]) else None)
            else if e.Wrote? && e.tag == tag && e.at <= i < e.at + |e.bytes| then Some(e.bytes[i - e.at])
            else Value(log, tag, i)
  {
    assert (log + [e])[..|log|] == log;
  }

  lemma TruthfulAppend(log: seq<Entry>, e: Entry)
    requires Truthful(log)
    requires e.Returned? ==> forall i :: 0 <= i < |e.bytes| ==> Value(log, e.tag, e.at + i) == Some(e.bytes[i])
    ensures Truthful(log + [e])
  {
    assert (log + [e])[..|log|] == log;
  }

  // ---------------------------------------------------------------- the lines

  ghost predicate Holds(bytes: seq<byte>, log: seq<Entry>, tag: nat) {
    forall i :: 0 <= i < |bytes| ==> Value(log, tag, i) == Some(bytes[i])
  }

  ghost predicate Shaped(cfg: Config, lines: seq<seq<Line>>) {
    && |lines| == Sets(cfg) && cfg.lineBits <= WORD_BITS
    && (forall i :: 0 <= i < |lines| ==> |lines[i]| == cfg.ways)
    && (forall i, j :: 0 <= i < |lines| && 0 <= j < |lines[i]| ==> |lines[i][j].bytes| == LineSize(cfg))
  }

  /** No set holds a valid tag twice, and each valid tag is in its own set. */
  ghost predicate Placed(cfg: Config, lines: seq<seq<Line>>) {
    && (forall i, j :: 0 <= i < |lines| && 0 <= j < |lines[i]| && lines[i][j].tag != NO_TAG ==>
        SetOf(cfg, lines[i][j].tag) == i)
    && (forall i, j, k :: 0 <= i < |lines| && 0 <= j < k < |lines[i]| && lines[i][j].tag != NO_TAG ==>
        lines[i][j].tag != lines[i][k].tag)
  }

  ghost predicate Absent(lines: seq<seq<Line>>, tag: nat) {
    forall i, j :: 0 <= i < |lines| && 0 <= j < |lines[i]| ==> lines[i][j].tag != tag
  }

  predicate IsVictim(refill: Option<Refill>, i: nat, j: nat) {
    refill.Some? && refill.value.set_ == i && refill.value.way == j
  }

  /** Each valid line holds what it should, but for the victim of a refill, whose buffer is lent to the refill port. */
  ghost predicate Loaded(cfg: Config, lines: seq<seq<Line>>, log: seq<Entry>, refill: Option<Refill>) {
    forall i, j :: 0 <= i < |lines| && 0 <= j < |lines[i]| && lines[i][j].tag != NO_TAG && !IsVictim(refill, i, j) ==>
                     Holds(lines[i][j].bytes, log, lines[i][j].tag)
  }

  ghost predicate Lent(cfg: Config, lines: seq<seq<Line>>, refill: Option<Refill>) {
    refill.Some? ==>
      && refill.value.tag != NO_TAG && refill.value.set_ == SetOf(cfg, refill.value.tag) < |lines|
      && refill.value.way < |lines[refill.value.set_]|
      && Absent(lines, refill.value.tag)
  }

  ghost predicate Coherent(cfg: Config, lines: seq<seq<Line>>, log: seq<Entry>, refill: Option<Refill>) {
    Shaped(cfg, lines) && Placed(cfg, lines) && Loaded(cfg, lines, log, refill) && Lent(cfg, lines, refill)
      && Truthful(log)
  }

  function Put(lines: seq<seq<Line>>, i: nat, j: nat, line: Line): seq<seq<Line>>
    requires i < |lines| && j < |lines[i]|
  {
    lines[i := lines[i][j := line]]
  }

  lemma FillPlaced(cfg: Config, lines: seq<seq<Line>>, j: nat, tag: nat, timestamp: int, bytes: seq<byte>)
    requires Shaped(cfg, lines) && Placed(cfg, lines) && tag != NO_TAG && Absent(lines, tag) && j < cfg.ways
    requires |bytes| == LineSize(cfg)
    ensures var lines' := Put(lines, SetOf(cfg, tag), j, Line(tag, bytes, timestamp));
            Shaped(cfg, lines') && Placed(cfg, lines')
  {}

  /** One line, filled or another. */
  lemma FillLoaded(cfg: Config, lines: seq<seq<Line>>, log: seq<Entry>, refill: Option<Refill>, j: nat, line: Line,
                   p: nat, q: nat)
    requires Shaped(cfg, lines) && Loaded(cfg, lines, log, refill) && Absent(lines, line.tag) && j < cfg.ways
    requires refill.None? || IsVictim(refill, SetOf(cfg, line.tag), j)
    requires p < |lines| && q < |lines[p]|
    ensures var l := Put(lines, SetOf(cfg, line.tag), j, line)[p][q];
            l.tag != NO_TAG ==> Holds(l.bytes, log + [Filled(line.tag, line.bytes)], l.tag)
  {
    if p == SetOf(cfg, line.tag) && q == j {
      FillHolds(log, line.tag, line.bytes);
    } else if lines[p][q].tag != NO_TAG {
      OthersHold(lines[p][q].bytes, log, lines[p][q].tag, Filled(line.tag, line.bytes));
    }
  }

  lemma FillKeeps(cfg: Config, lines: seq<seq<Line>>, log: seq<Entry>, refill: Option<Refill>, j: nat, tag: nat,
                  timestamp: int, bytes: seq<byte>)
    requires Coherent(cfg, lines, log, refill) && tag != NO_TAG && Absent(lines, tag) && j < cfg.ways
    requires |bytes| == LineSize(cfg)
    requires refill.None? || IsVictim(refill, SetOf(cfg, tag), j)
    ensures Coherent(cfg, Put(lines, SetOf(cfg, tag), j, Line(tag, bytes, timestamp)),
                     log + [Filled(tag, bytes)], None)
  {
    var lines': seq<seq<Line>> := Put(lines, SetOf(cfg, tag), j, Line(tag, bytes, timestamp));
    FillPlaced(cfg, lines, j, tag, timestamp, bytes);
    TruthfulAppend(log, Filled(tag, bytes));
    forall p, q | 0 <= p < |lines'| && 0 <= q < |lines'[p]| && lines'[p][q].tag != NO_TAG
      ensures Holds(lines'[p][q].bytes, log + [Filled(tag, bytes)], lines'[p][q].tag)
    {
      FillLoaded(cfg, lines, log, refill, j, Line(tag, bytes, timestamp), p, q);
    }
  }

  lemma FillHolds(log: seq<Entry>, tag: nat, bytes: seq<byte>)
    ensures Holds(bytes, log + [Filled(tag, bytes)], tag)
  {
    forall b | 0 <= b < |bytes| ensures Value(log + [Filled(tag, bytes)], tag, b) == Some(bytes[b]) {
      ValueAppend(log, Filled(tag, bytes), tag, b);
    }
  }

  lemma PatchHolds(bytes: seq<byte>, log: seq<Entry>, tag: nat, at: nat, with_: seq<byte>)
    requires Holds(bytes, log, tag) && at + |with_| <= |bytes|
    ensures Holds(Patch(bytes, at, with_), log + [Wrote(tag, at, with_)], tag)
  {
    forall b | 0 <= b < |bytes|
      ensures Value(log + [Wrote(tag, at, with_)], tag, b) == Some(Patch(bytes, at, with_)[b])
    {
      ValueAppend(log, Wrote(tag, at, with_), tag, b);
    }
  }

  lemma OthersHold(bytes: seq<byte>, log: seq<Entry>, tag: nat, e: Entry)
    requires Holds(bytes, log, tag) && (e.Returned? || e.tag != tag)
    ensures Holds(bytes, log + [e], tag)
  {
    forall b | 0 <= b < |bytes| ensures Value(log + [e], tag, b) == Some(bytes[b]) {
      ValueAppend(log, e, tag, b);
    }
  }

  lemma WriteKeeps(cfg: Config, lines: seq<seq<Line>>, log: seq<Entry>, i: nat, j: nat, at: nat, with_: seq<byte>)
    requires Coherent(cfg, lines, log, None) && i < |lines| && j < |lines[i]|
    requires at + |with_| <= LineSize(cfg) && lines[i][j].tag != NO_TAG
    ensures var line := lines[i][j];
            Coherent(cfg, Put(lines, i, j, line.(bytes := Patch(line.bytes, at, with_))),
                     log + [Wrote(line.tag, at, with_)], None)
  {
    var line := lines[i][j];
    var lines': seq<seq<Line>> := Put(lines, i, j, line.(bytes := Patch(line.bytes, at, with_)));
    var e := Wrote(line.tag, at, with_);
    TruthfulAppend(log, e);
    PatchHolds(line.bytes, log, line.tag, at, with_);
    forall p, q | 0 <= p < |lines'| && 0 <= q < |lines'[p]| && lines'[p][q].tag != NO_TAG
      ensures Holds(lines'[p][q].bytes, log + [e], lines'[p][q].tag)
    {
      if (p, q) != (i, j) {
        OtherTags(cfg, lines, i, j, p, q);
        OthersHold(lines[p][q].bytes, log, lines[p][q].tag, e);
      }
    }
  }

  lemma OtherTags(cfg: Config, lines: seq<seq<Line>>, i: nat, j: nat, p: nat, q: nat)
    requires Placed(cfg, lines) && i < |lines| && j < |lines[i]| && p < |lines| && q < |lines[p]|
    ensures lines[i][j].tag != NO_TAG && (i, j) != (p, q) ==> lines[i][j].tag != lines[p][q].tag
  {}

  lemma ReadKeeps(cfg: Config, lines: seq<seq<Line>>, log: seq<Entry>, i: nat, j: nat, id: nat, at: nat, size: nat)
    requires Coherent(cfg, lines, log, None) && i < |lines| && j < |lines[i]|
    requires at + size <= LineSize(cfg) && lines[i][j].tag != NO_TAG
    ensures var line := lines[i][j];
            Coherent(cfg, lines, log + [Returned(id, line.tag, at, line.bytes[at..at + size])], None)
  {
    var line := lines[i][j];
    var e := Returned(id, line.tag, at, line.bytes[at..at + size]);
    assert Holds(line.bytes, log, line.tag);
    TruthfulAppend(log, e);
    forall p, q | 0 <= p < |lines| && 0 <= q < |lines[p]| && lines[p][q].tag != NO_TAG
      ensures Holds(lines[p][q].bytes, log + [e], lines[p][q].tag)
    {
      OthersHold(lines[p][q].bytes, log, lines[p][q].tag, e);
    }
  }

  /** Some lines invalidated, the rest untouched. */
  ghost predicate Invalidated(lines: seq<seq<Line>>, lines': seq<seq<Line>>) {
    && |lines'| == |lines| && (forall i :: 0 <= i < |lines| ==> |lines'[i]| == |lines[i]|)
    && (forall i, j :: 0 <= i < |lines| && 0 <= j < |lines'[i]| ==>
          lines'[i][j] == lines[i][j] || lines'[i][j] == lines[i][j].(tag := NO_TAG))
  }

  lemma InvalidateKeeps(cfg: Config, lines: seq<seq<Line>>, lines': seq<seq<Line>>, log: seq<Entry>,
                        refill: Option<Refill>)
    requires Coherent(cfg, lines, log, refill) && Invalidated(lines, lines')
    ensures Coherent(cfg, lines', log, refill)
  {}

  /** The refill port writes into the buffer it was lent. */
  lemma BeatKeeps(cfg: Config, lines: seq<seq<Line>>, log: seq<Entry>, refill: Refill, bytes: seq<byte>)
    requires Coherent(cfg, lines, log, Some(refill)) && |bytes| == LineSize(cfg)
    ensures Coherent(cfg, Put(lines, refill.set_, refill.way, lines[refill.set_][refill.way].(bytes := bytes)), log,
                     Some(refill))
  {}

  lemma LendKeeps(cfg: Config, lines: seq<seq<Line>>, log: seq<Entry>, refill: Refill)
    requires Coherent(cfg, lines, log, None) && Lent(cfg, lines, Some(refill))
    ensures Coherent(cfg, lines, log, Some(refill))
  {}
}
