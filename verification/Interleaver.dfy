/** The interleaver component: a request is cut at granules and each piece goes to its bank. */
module Interleaver {
  import opened Arith
  import opened Bits
  import opened Bytes
  import opened IoV2
  import opened Interleaving

  /** `2^stageBits` banks of `granules` granules of `2^interleavingBits` bytes, from address `removeOffset` on. */
  datatype Config = Config(stageBits: nat, interleavingBits: nat, removeOffset: nat, granules: nat)

  /** The fields of a request that the interleaver rewrites; `data` is a position in the master's buffer. */
  datatype Fields = Fields(addr: nat, size: nat, data: nat, latency: int)

  datatype BankStatus = BankOk | BankPending | BankDenied | BankInvalid

  /** What a bank was asked for, and what it answered. */
  datatype BankAnswer = BankAnswer(bank: nat, offset: nat, size: nat, isWrite: bool, status: BankStatus, latency: int)

  ghost predicate ValidConfig(cfg: Config) {
    Low(cfg.removeOffset, cfg.interleavingBits) == 0
  }

  function BankSize(cfg: Config): nat { Shl(cfg.granules, cfg.interleavingBits) }

  function Total(cfg: Config): nat { Shl(Shl(cfg.granules, cfg.stageBits), cfg.interleavingBits) }

  ghost predicate Shaped(cfg: Config, banks: seq<seq<byte>>) {
    |banks| == Pow2(cfg.stageBits) && forall b :: 0 <= b < |banks| ==> |banks[b]| == BankSize(cfg)
  }

  // ---------------------------------------------------------------- one flat memory

  function Bank(cfg: Config, a: nat): nat { BankOf(cfg.stageBits, cfg.interleavingBits, a) }

  function Offset(cfg: Config, a: nat): nat { OffsetOf(cfg.stageBits, cfg.interleavingBits, a) }

  /** The first `n` bytes of the banks as one memory. */
  ghost function FlatUpTo(cfg: Config, banks: seq<seq<byte>>, n: nat): (flat: seq<byte>)
    requires Shaped(cfg, banks) && n <= Total(cfg)
    ensures |flat| == n
  {
    if n == 0 then []
    else
      InRange(cfg.stageBits, cfg.interleavingBits, cfg.granules, n - 1);
      FlatUpTo(cfg, banks, n - 1) + [banks[Bank(cfg, n - 1)][Offset(cfg, n - 1)]]
  }

  ghost function Flat(cfg: Config, banks: seq<seq<byte>>): (flat: seq<byte>)
    requires Shaped(cfg, banks)
    ensures |flat| == Total(cfg)
  {
    FlatUpTo(cfg, banks, Total(cfg))
  }

  lemma {:induction false} FlatByte(cfg: Config, banks: seq<seq<byte>>, n: nat, a: nat)
    requires Shaped(cfg, banks) && a < n <= Total(cfg)
    ensures Offset(cfg, a) < BankSize(cfg) && FlatUpTo(cfg, banks, n)[a] == banks[Bank(cfg, a)][Offset(cfg, a)]
  {
    InRange(cfg.stageBits, cfg.interleavingBits, cfg.granules, a);
    if a < n - 1 { FlatByte(cfg, banks, n - 1, a); }
  }

  /** Byte `a` of the flat memory is one byte of one bank. */
  lemma FlatAt(cfg: Config, banks: seq<seq<byte>>, a: nat)
    requires Shaped(cfg, banks) && a < Total(cfg)
    ensures Offset(cfg, a) < BankSize(cfg) && Flat(cfg, banks)[a] == banks[Bank(cfg, a)][Offset(cfg, a)]
  {
    FlatByte(cfg, banks, Total(cfg), a);
  }

  // ---------------------------------------------------------------- one piece

  /** A run of bytes within one granule. */
  ghost predicate InGranule(cfg: Config, o: nat, n: nat) {
    0 < n && Low(o, cfg.interleavingBits) + n <= Pow2(cfg.interleavingBits)
  }

  /** A run within a granule fits its bank exactly if it fits the flat memory. */
  lemma PieceRange(cfg: Config, o: nat, n: nat)
    requires InGranule(cfg, o, n)
    ensures Offset(cfg, o) + n <= BankSize(cfg) <==> o + n <= Total(cfg)
  {
    SameGranule(cfg.stageBits, cfg.interleavingBits, o, n - 1);
    InRange(cfg.stageBits, cfg.interleavingBits, cfg.granules, o + (n - 1));
  }

  /** The bank memory once a piece has been written. */
  function PieceStored(cfg: Config, banks: seq<seq<byte>>, o: nat, piece: seq<byte>): (banks': seq<seq<byte>>)
    requires Shaped(cfg, banks) && Offset(cfg, o) + |piece| <= BankSize(cfg)
    ensures Shaped(cfg, banks')
  {
    banks[Bank(cfg, o) := Patch(banks[Bank(cfg, o)], Offset(cfg, o), piece)]
  }

  /** Writing a piece to its bank writes it to the flat memory. */
  lemma PieceIsStored(cfg: Config, banks: seq<seq<byte>>, o: nat, piece: seq<byte>)
    requires Shaped(cfg, banks) && Offset(cfg, o) + |piece| <= BankSize(cfg) && InGranule(cfg, o, |piece|)
    ensures o + |piece| <= Total(cfg)
            && Flat(cfg, PieceStored(cfg, banks, o, piece)) == Patch(Flat(cfg, banks), o, piece)
  {
    var banks' := PieceStored(cfg, banks, o, piece);
    PieceRange(cfg, o, |piece|);
    forall a | 0 <= a < Total(cfg) ensures Flat(cfg, banks')[a] == Patch(Flat(cfg, banks), o, piece)[a] {
      StoredByte(cfg, banks, o, piece, a);
    }
  }

  lemma StoredByte(cfg: Config, banks: seq<seq<byte>>, o: nat, piece: seq<byte>, a: nat)
    requires Shaped(cfg, banks) && Offset(cfg, o) + |piece| <= BankSize(cfg) && InGranule(cfg, o, |piece|)
    requires a < Total(cfg) && o + |piece| <= Total(cfg)
    ensures Flat(cfg, PieceStored(cfg, banks, o, piece))[a] == Patch(Flat(cfg, banks), o, piece)[a]
  {
    FlatAt(cfg, banks, a);
    FlatAt(cfg, PieceStored(cfg, banks, o, piece), a);
    if o <= a < o + |piece| {
      SameGranule(cfg.stageBits, cfg.interleavingBits, o, a - o);
    } else {
      NotInPiece(cfg, o, |piece|, a);
    }
  }

  /** A byte outside of a piece is not in its place in its bank. */
  lemma NotInPiece(cfg: Config, o: nat, n: nat, a: nat)
    requires InGranule(cfg, o, n) && !(o <= a < o + n)
    ensures !(Bank(cfg, a) == Bank(cfg, o) && Offset(cfg, o) <= Offset(cfg, a) < Offset(cfg, o) + n)
  {
    if Bank(cfg, a) == Bank(cfg, o) && Offset(cfg, o) <= Offset(cfg, a) < Offset(cfg, o) + n {
      OnlyGranule(cfg.stageBits, cfg.interleavingBits, o, n, a);
    }
  }

  /** The bytes of a piece in its bank. */
  function PieceLoaded(cfg: Config, banks: seq<seq<byte>>, o: nat, n: nat): seq<byte>
    requires Shaped(cfg, banks) && Offset(cfg, o) + n <= BankSize(cfg)
  {
    banks[Bank(cfg, o)][Offset(cfg, o)..Offset(cfg, o) + n]
  }

  /** Reading a piece from its bank reads it from the flat memory. */
  lemma PieceIsLoaded(cfg: Config, banks: seq<seq<byte>>, o: nat, n: nat)
    requires Shaped(cfg, banks) && Offset(cfg, o) + n <= BankSize(cfg) && InGranule(cfg, o, n)
    ensures o + n <= Total(cfg) && PieceLoaded(cfg, banks, o, n) == Flat(cfg, banks)[o..o + n]
  {
    PieceRange(cfg, o, n);
    var piece := PieceLoaded(cfg, banks, o, n);
    forall i | 0 <= i < n ensures piece[i] == Flat(cfg, banks)[o..o + n][i] {
      FlatAt(cfg, banks, o + i);
      SameGranule(cfg.stageBits, cfg.interleavingBits, o, i);
    }
  }

  // ---------------------------------------------------------------- address translation

  /** `(offset & offset_mask) >> stage_bits` keeps the granule number within its bank. */
  lemma Translation(stage: nat, width: nat, o: nat)
    ensures Shr(Shl(Shr(o, width + stage), width + stage), stage) + And(o, Pow2(width) - 1) == OffsetOf(stage, width, o)
    ensures And(Shr(o, width), Pow2(stage) - 1) == BankOf(stage, width, o)
  {
    var q := Shr(o, width + stage);
    ShrShr(o, width, stage);
    ShlShl(q, width, stage);
    JoinBits(Shl(q, width), 0, stage);
    MaskIsLow(o, width);
    MaskIsLow(Shr(o, width), stage);
  }

  /** How many bytes `o` is short of the next granule, 0 if it is aligned. */
  function Skew(cfg: Config, o: nat): nat {
    if Low(o, cfg.interleavingBits) == 0 then 0 else Pow2(cfg.interleavingBits) - Low(o, cfg.interleavingBits)
  }

  /**
    The size of the piece at `o` of a request of `size` more bytes: up to the end of the granule, or of the
    request.
   */
  function PieceSize(width: nat, o: nat, size: nat): nat {
    Min(Pow2(width) - Low(o, width), size)
  }

  /** A piece reaches to the next granule, to the end of the request, or just there. */
  lemma PieceFits(width: nat, o: nat, size: pos)
    ensures var n := PieceSize(width, o, size);
            0 < n && Low(o, width) + n <= Pow2(width) && (n < size ==> Low(o + n, width) == 0)
  {
    var room := Pow2(width) - Low(o, width);
    if room < size { NextGranule(width, o, room); }
  }

  // ---------------------------------------------------------------- the answers of the banks

  /** The answer to the piece of `n` bytes at `o`. */
  ghost predicate AnswersPiece(cfg: Config, o: nat, n: nat, isWrite: bool, a: BankAnswer) {
    InGranule(cfg, o, n) && a == BankAnswer(Bank(cfg, o), Offset(cfg, o), n, isWrite, a.status, a.latency)
  }

  /** These answers are to the pieces of the `done` bytes from `o` on, which end only at granules, and all succeed. */
  ghost predicate Served(cfg: Config, o: nat, isWrite: bool, answers: seq<BankAnswer>, done: nat) {
    if answers == [] then done == 0
    else
      var a, rest := answers[|answers| - 1], answers[..|answers| - 1];
      && a.status == BankOk && a.size <= done && AnswersPiece(cfg, o + (done - a.size), a.size, isWrite, a)
      && (rest != [] ==> Low(o + (done - a.size), cfg.interleavingBits) == 0)
      && Served(cfg, o, isWrite, rest, done - a.size)
  }

  /** These answers end a request that fails after `done` bytes, at a piece of `n` bytes. */
  ghost predicate FailsAt(cfg: Config, o: nat, isWrite: bool, answers: seq<BankAnswer>, done: nat, n: nat) {
    answers != [] &&
    (var a, rest := answers[|answers| - 1], answers[..|answers| - 1];
     && a.status != BankOk && AnswersPiece(cfg, o + done, n, isWrite, a) && Served(cfg, o, isWrite, rest, done))
  }

  /** How many granules a run of bytes touches. */
  function Granules(cfg: Config, o: nat, size: nat): int {
    if size == 0 then 0 else Shr(o + size - 1, cfg.interleavingBits) - Shr(o, cfg.interleavingBits) + 1
  }

  /** One answer for each granule that the request touches. */
  lemma {:induction false} OnePerGranule(cfg: Config, o: nat, isWrite: bool, answers: seq<BankAnswer>, done: nat)
    requires Served(cfg, o, isWrite, answers, done)
    ensures |answers| == Granules(cfg, o, done)
  {
    if answers != [] {
      var a, rest := answers[|answers| - 1], answers[..|answers| - 1];
      var p := o + (done - a.size);
      OnePerGranule(cfg, o, isWrite, rest, done - a.size);
      ShrWithin(cfg.interleavingBits, p, a.size - 1);
      if rest != [] {
        ServedSome(cfg, o, isWrite, rest, done - a.size);
        ShrBefore(cfg.interleavingBits, p);
      }
    }
  }

  lemma ServedSome(cfg: Config, o: nat, isWrite: bool, answers: seq<BankAnswer>, done: nat)
    requires Served(cfg, o, isWrite, answers, done)
    ensures answers == [] <==> done == 0
  {}

  /** The answers to a request of which `done` bytes have been moved, and the next piece starts a granule. */
  ghost predicate Going(cfg: Config, o: nat, isWrite: bool, answers: seq<BankAnswer>, req: Fields, done: nat) {
    && done <= req.size && Served(cfg, o, isWrite, answers, done)
    && (0 < done < req.size ==> Low(o + done, cfg.interleavingBits) == 0)
  }

  /** One more answer. */
  lemma AnswerGoes(cfg: Config, o: nat, isWrite: bool, answers: seq<BankAnswer>, req: Fields, done: nat,
                   req': Fields, a: BankAnswer)
    requires Going(cfg, o, isWrite, answers, req, done) && done < req.size
    requires IsPiece(cfg, o, req, req', done) && AnswersPiece(cfg, o + done, req'.size, isWrite, a)
    ensures if a.status == BankOk
            then Going(cfg, o, isWrite, answers + [a], req, done + req'.size)
            else Breaks(cfg, o, isWrite, answers + [a], req, req', done,
                        Reported(a.status, done + req'.size == req.size))
  {
    assert (answers + [a])[..|answers|] == answers;
    PieceFits(cfg.interleavingBits, o + done, req.size - done);
  }

  /** The fields of the piece that follows the first `done` bytes of a request. */
  ghost predicate IsPiece(cfg: Config, o: nat, req: Fields, req': Fields, done: nat)
    requires done <= req.size
  {
    req' == Fields(Offset(cfg, o + done), PieceSize(cfg.interleavingBits, o + done, req.size - done),
                   req.data + done, req.latency)
  }

  /** Only the last piece may be pending or denied. */
  function Reported(status: BankStatus, isLast: bool): BankStatus {
    if isLast && (status == BankPending || status == BankDenied) then status else BankInvalid
  }

  /** A request succeeds. */
  ghost predicate Completes(cfg: Config, o: nat, isWrite: bool, answers: seq<BankAnswer>, req: Fields, req': Fields,
                            done: nat) {
    && done == req.size && Served(cfg, o, isWrite, answers, req.size) && |answers| == Granules(cfg, o, req.size)
    && req' == req.(latency := Slowest(answers))
  }

  /** A request fails at the piece that follows its first `done` bytes. */
  ghost predicate Breaks(cfg: Config, o: nat, isWrite: bool, answers: seq<BankAnswer>, req: Fields, req': Fields,
                         done: nat, status: BankStatus) {
    && done < req.size && IsPiece(cfg, o, req, req', done) && FailsAt(cfg, o, isWrite, answers, done, req'.size)
    && status == Reported(answers[|answers| - 1].status, done + req'.size == req.size)
  }

  /** The largest latency among the answers, and not less than 0. */
  function Slowest(answers: seq<BankAnswer>): int {
    if answers == [] then 0 else Max(Slowest(answers[..|answers| - 1]), answers[|answers| - 1].latency)
  }

  /** The new answers follow the past ones, and `maxLatency` is the slowest of them. */
  ghost predicate Tallied(past: seq<BankAnswer>, new_: seq<BankAnswer>, all: seq<BankAnswer>, maxLatency: int) {
    all == past + new_ && maxLatency == Slowest(new_)
  }

  lemma TallyGrows(past: seq<BankAnswer>, new_: seq<BankAnswer>, all: seq<BankAnswer>, maxLatency: int, a: BankAnswer)
    requires Tallied(past, new_, all, maxLatency)
    ensures Tallied(past, new_ + [a], all + [a], if a.latency > maxLatency then a.latency else maxLatency)
  {
    assert (new_ + [a])[..|new_|] == new_;
  }

  lemma {:induction false} SlowestIsLargest(answers: seq<BankAnswer>)
    ensures forall i :: 0 <= i < |answers| ==> answers[i].latency <= Slowest(answers)
    ensures Slowest(answers) == 0 || exists i :: 0 <= i < |answers| && answers[i].latency == Slowest(answers)
    ensures Slowest(answers) >= 0
  {
    if answers != [] {
      var n := |answers| - 1;
      var rest := answers[..n];
      SlowestIsLargest(rest);
      if Slowest(answers) == answers[n].latency {
      } else if Slowest(rest) != 0 {
        var i :| 0 <= i < |rest| && rest[i].latency == Slowest(rest);
        assert answers[i].latency == Slowest(answers);
      }
      forall i | 0 <= i < |answers| ensures answers[i].latency <= Slowest(answers) {
        if i < n { assert rest[i].latency <= Slowest(rest); }
      }
    }
  }

  lemma PatchTwice(buf: seq<byte>, at: nat, a: seq<byte>, b: seq<byte>)
    requires at + |a| + |b| <= |buf|
    ensures Patch(Patch(buf, at, a), at + |a|, b) == Patch(buf, at, a + b)
  {}

  lemma SliceJoins(buf: seq<byte>, at: nat, done: nat, n: nat)
    requires at + done + n <= |buf|
    ensures buf[at..at + done] + buf[at + done..at + done + n] == buf[at..at + done + n]
  {}

  /**
    What a request has done to the banks and to its buffer when `done` of its bytes have been moved: what one flat
    memory would.
   */
  ghost predicate Moved(cfg: Config, was: seq<seq<byte>>, banks: seq<seq<byte>>, o: nat, isWrite: bool, buf: seq<byte>,
                        buf': seq<byte>, at: nat, done: nat) {
    && Shaped(cfg, was) && Shaped(cfg, banks) && at + done <= |buf| == |buf'| && (done == 0 || o + done <= Total(cfg))
    && if done == 0 then banks == was && buf' == buf
       else if isWrite then buf' == buf && Flat(cfg, banks) == Patch(Flat(cfg, was), o, buf[at..at + done])
       else banks == was && buf' == Patch(buf, at, Flat(cfg, was)[o..o + done])
  }

  /** What one piece does to its bank and to the buffer. */
  ghost predicate PieceDone(cfg: Config, was: seq<seq<byte>>, banks: seq<seq<byte>>, o: nat, isWrite: bool,
                            buf: seq<byte>, buf': seq<byte>, at: nat, n: nat) {
    && Shaped(cfg, was) && Shaped(cfg, banks) && InGranule(cfg, o, n) && Offset(cfg, o) + n <= BankSize(cfg)
    && at + n <= |buf|
    && if isWrite then buf' == buf && banks == PieceStored(cfg, was, o, buf[at..at + n])
       else banks == was && buf' == Patch(buf, at, PieceLoaded(cfg, was, o, n))
  }

  class Interleaver {
    const cfg: Config
    var banks: seq<seq<byte>>
    // history: what the banks answered
    ghost var answers: seq<BankAnswer>

    ghost predicate Valid()
      reads this
    {
      ValidConfig(cfg) && Shaped(cfg, banks)
    }

    constructor (cfg: Config)
      requires ValidConfig(cfg)
      ensures Valid() && this.cfg == cfg && answers == []
    {
      this.cfg := cfg;
      answers := [];
      banks := seq(Pow2(cfg.stageBits), b => seq<byte>(BankSize(cfg), i => 0));
    }

    /** A bank answers inline; it refuses what it has no room for, and is otherwise free to answer as it likes. */
    method BankReq(bank: nat, offset: nat, isWrite: bool, bytes: seq<byte>, size: nat)
      returns (status: BankStatus, latency: int, read: seq<byte>)
      requires Valid() && bank < |banks| && (isWrite ==> |bytes| == size)
      modifies this
      ensures Valid() && (status == BankOk ==> offset + size <= BankSize(cfg))
      ensures banks == if status == BankOk && isWrite then old(banks)[bank := Patch(old(banks)[bank], offset, bytes)]
              else old(banks)
      ensures read == if status == BankOk && !isWrite then banks[bank][offset..offset + size] else []
      ensures answers == old(answers) + [BankAnswer(bank, offset, size, isWrite, status, latency)]
    {
      status, latency, read := *, *, [];
      if offset + size > BankSize(cfg) {
        status := BankInvalid;
      }
      if status == BankOk {
        if isWrite {
          banks := banks[bank := Patch(banks[bank], offset, bytes)];
        } else {
          read := banks[bank][offset..offset + size];
        }
      }
      answers := answers + [BankAnswer(bank, offset, size, isWrite, status, latency)];
    }

    /** Sends the piece of `n` bytes at `offset` to its bank, at its place there. */
    method SendPiece(offset: nat, data: nat, n: nat, isWrite: bool, buf: seq<byte>, initLatency: int)
      returns (req': Fields, buf': seq<byte>, a: BankAnswer)
      requires Valid() && InGranule(cfg, offset, n) && data + n <= |buf|
      modifies this
      ensures Valid() && req' == Fields(Offset(cfg, offset), n, data, initLatency)
      ensures answers == old(answers) + [a] && AnswersPiece(cfg, offset, n, isWrite, a)
      ensures if a.status == BankOk then PieceDone(cfg, old(banks), banks, offset, isWrite, buf, buf', data, n)
              else banks == old(banks) && buf' == buf
    {
      var bank := And(Shr(offset, cfg.interleavingBits), Pow2(cfg.stageBits) - 1);
      var line := cfg.interleavingBits + cfg.stageBits;
      var high := Shl(Shr(offset, line), line);
      var newOffset := Shr(high, cfg.stageBits) + And(offset, Pow2(cfg.interleavingBits) - 1);
      Translation(cfg.stageBits, cfg.interleavingBits, offset);
      req' := Fields(newOffset, n, data, initLatency);
      var status, latency, read := BankReq(bank, newOffset, isWrite, if isWrite then buf[data..data + n] else [], n);
      a := BankAnswer(bank, newOffset, n, isWrite, status, latency);
      buf' := buf;
      if status == BankOk && !isWrite { buf' := Patch(buf, data, read); }
    }

    /** One more piece of a request of which `done` bytes have been moved. */
    method MovePiece(ghost was: seq<seq<byte>>, o: nat, isWrite: bool, ghost buf: seq<byte>, buf0: seq<byte>,
                     req: Fields, done: nat, n: nat, ghost new_: seq<BankAnswer>)
      returns (req': Fields, buf': seq<byte>, a: BankAnswer)
      requires Valid() && Underway(cfg, was, banks, o, isWrite, buf, buf0, req, done, new_)
      requires done < req.size && n == PieceSize(cfg.interleavingBits, o + done, req.size - done)
      modifies this
      ensures Valid() && answers == old(answers) + [a]
      ensures req'.size == n
      ensures if a.status == BankOk
              then Underway(cfg, was, banks, o, isWrite, buf, buf', req, done + req'.size, new_ + [a])
              else Broken(cfg, was, banks, o, isWrite, buf, buf', req, req', done, new_ + [a],
                          Reported(a.status, done + req'.size == req.size))
    {
      ghost var before := banks;
      PieceInBuffer(cfg, was, banks, o, isWrite, buf, buf0, req, done, new_);
      req', buf', a := SendPiece(o + done, req.data + done, n, isWrite, buf0, req.latency);
      PieceOn(cfg, was, before, banks, o, isWrite, buf, buf0, buf', req, req', done, new_, a);
    }

    /** The size of the next piece, and how far the one after it is from alignment. */
    method NextPiece(offset: nat, size: pos, align: nat) returns (n: nat, align': nat)
      requires Skewed(cfg, offset, size, align)
      ensures n == PieceSize(cfg.interleavingBits, offset, size) && 0 < n <= size
      ensures Skewed(cfg, offset + n, size - n, align')
    {
      PieceFits(cfg.interleavingBits, offset, size);
      n, align' := Pow2(cfg.interleavingBits), 0;
      if align != 0 { n := align; }
      if n > size { n := size; }
    }

    /**
      Serves a request as one flat memory would. If it succeeds: all of it, with one answer of a bank for each
      granule it touches, its fields restored and the latency of the slowest of these answers. If not: the `done`
      bytes before the piece that failed, with the fields left at that piece; only a last piece that is pending or
      denied is reported as such.
     */
    method Req(req: Fields, isWrite: bool, buf: seq<byte>)
      returns (status: BankStatus, req': Fields, buf': seq<byte>, done: nat, ghost new_: seq<BankAnswer>)
      requires Valid() && cfg.removeOffset <= req.addr && req.data + req.size <= |buf|
      modifies this
      ensures Valid() && answers == old(answers) + new_
      ensures done <= req.size
      ensures Moved(cfg, old(banks), banks, req.addr - cfg.removeOffset, isWrite, buf, buf', req.data, done)
      ensures status == BankOk ==> Completes(cfg, req.addr - cfg.removeOffset, isWrite, new_, req, req', done)
      ensures status != BankOk ==> Breaks(cfg, req.addr - cfg.removeOffset, isWrite, new_, req, req', done, status)
      ensures status == BankPending || status == BankDenied ==>
                new_[|new_| - 1].status == status && done + req'.size == req.size
      ensures status == BankInvalid ==> new_[|new_| - 1].status == BankInvalid || done + req'.size < req.size
    {
      var align := Align(req.addr);
      var maxLatency;
      status, req', buf', done, maxLatency, new_ := Transfer(req.addr - cfg.removeOffset, align, req, isWrite, buf);
      if status == BankOk {
        OnePerGranule(cfg, req.addr - cfg.removeOffset, isWrite, new_, done);
        req' := Fields(req.addr, req.size, req.data, maxLatency);
      }
    }

    /** How far a request is from the next granule; the base it is relative to is aligned. */
    method Align(addr: nat) returns (align: nat)
      requires Valid() && cfg.removeOffset <= addr
      ensures align == Skew(cfg, addr - cfg.removeOffset)
    {
      var port: nat := Pow2(cfg.interleavingBits);
      align := And(addr, port - 1);
      MaskIsLow(addr, cfg.interleavingBits);
      AlignedBase(cfg.interleavingBits, addr, cfg.removeOffset);
      if align != 0 { align := port - align; }
    }

    /** One round of the loop over the pieces of a request: the next piece, unless it fails. */
    method NextRound(ghost was: seq<seq<byte>>, ghost past: seq<BankAnswer>, o: nat, req: Fields, isWrite: bool,
                     ghost buf: seq<byte>, t: Transit, buf0: seq<byte>, ghost new_: seq<BankAnswer>)
      returns (stop: BankStatus, req': Fields, buf': seq<byte>, t': Transit, ghost new': seq<BankAnswer>)
      requires Valid() && t.size > 0 && Looping(cfg, was, banks, past, answers, o, req, isWrite, buf, buf0, t, new_)
      modifies this
      ensures Valid()
      ensures if stop == BankOk
              then Looping(cfg, was, banks, past, answers, o, req, isWrite, buf, buf', t', new') && t'.size < t.size
              else
                Broken(cfg, was, banks, o, isWrite, buf, buf', req, req', t.done, new', stop) &&
                answers == past + new' && t' == t
    {
      ghost var before := answers;
      var loop, align, a;
      loop, align := NextPiece(t.offset, t.size, t.align);
      req', buf', a := MovePiece(was, o, isWrite, buf, buf0, req, t.done, loop, new_);
      TallyGrows(past, new_, before, t.maxLatency, a);
      new' := new_ + [a];
      if a.status != BankOk {
        stop := if t.size == loop && (a.status == BankPending || a.status == BankDenied) then a.status else BankInvalid;
        t' := t;
        return;
      }
      var maxLatency := if a.latency > t.maxLatency then a.latency else t.maxLatency;
      t' := Transit(t.offset + loop, t.size - loop, t.data + loop, t.done + loop, align, maxLatency);
      TransitOn(cfg, was, banks, past, answers, o, req, isWrite, buf, buf', t, loop, align, maxLatency, new');
      stop := BankOk;
    }

    /** The loop over the pieces of a request. */
    method Transfer(o: nat, skew: nat, req: Fields, isWrite: bool, buf: seq<byte>)
      returns (status: BankStatus, req': Fields, buf': seq<byte>, done: nat, maxLatency: int,
               ghost new_: seq<BankAnswer>)
      requires Valid() && req.data + req.size <= |buf| && skew == Skew(cfg, o)
      modifies this
      ensures Valid() && answers == old(answers) + new_
      ensures if status == BankOk
              then Underway(cfg, old(banks), banks, o, isWrite, buf, buf', req, req.size, new_)
                   && done == req.size && Tallied(old(answers), new_, answers, maxLatency)
              else Broken(cfg, old(banks), banks, o, isWrite, buf, buf', req, req', done, new_, status)
    {
      ghost var was, past := banks, answers;
      var t := Transit(o, req.size, req.data, 0, skew, 0);
      status, req', buf', done, maxLatency, new_ := BankOk, req, buf, 0, 0, [];
      while t.size > 0
        invariant Valid() && Looping(cfg, was, banks, past, answers, o, req, isWrite, buf, buf', t, new_)
        decreases t.size
      {
        status, req', buf', t, new_ := NextRound(was, past, o, req, isWrite, buf, t, buf', new_);
        if status != BankOk {
          done, maxLatency := t.done, t.maxLatency;
          return;
        }
      }
      done, maxLatency := t.done, t.maxLatency;
      status := BankOk;
    }
  }

  /** The variables of the loop over the pieces of a request. */
  datatype Transit = Transit(offset: nat, size: nat, data: nat, done: nat, align: nat, maxLatency: int)

  ghost predicate Looping(cfg: Config, was: seq<seq<byte>>, banks: seq<seq<byte>>, past: seq<BankAnswer>,
                          answers: seq<BankAnswer>, o: nat, req: Fields, isWrite: bool, buf: seq<byte>,
                          buf': seq<byte>, t: Transit, new_: seq<BankAnswer>) {
    && Tallied(past, new_, answers, t.maxLatency)
    && Underway(cfg, was, banks, o, isWrite, buf, buf', req, t.done, new_)
    && t.size == req.size - t.done && t.offset == o + t.done && t.data == req.data + t.done
    && Skewed(cfg, t.offset, t.size, t.align)
  }

  /** A request of which `done` bytes have been moved, and which has had these answers. */
  ghost predicate Underway(cfg: Config, was: seq<seq<byte>>, banks: seq<seq<byte>>, o: nat, isWrite: bool,
                           buf: seq<byte>, buf': seq<byte>, req: Fields, done: nat, answers: seq<BankAnswer>) {
    && req.data + req.size <= |buf|
    && Moved(cfg, was, banks, o, isWrite, buf, buf', req.data, done) && Going(cfg, o, isWrite, answers, req, done)
  }

  /** A request that has failed with these answers, after `done` bytes. */
  ghost predicate Broken(cfg: Config, was: seq<seq<byte>>, banks: seq<seq<byte>>, o: nat, isWrite: bool,
                         buf: seq<byte>, buf': seq<byte>, req: Fields, req': Fields, done: nat,
                         answers: seq<BankAnswer>, status: BankStatus) {
    && Moved(cfg, was, banks, o, isWrite, buf, buf', req.data, done)
    && Breaks(cfg, o, isWrite, answers, req, req', done, status)
  }

  /** `align` is how far the rest of a request is from alignment. */
  ghost predicate Skewed(cfg: Config, offset: nat, size: nat, align: nat) {
    size > 0 ==> align == Skew(cfg, offset)
  }

  /** The variables of the loop move on by a piece of `n` bytes. */
  lemma TransitOn(cfg: Config, was: seq<seq<byte>>, banks: seq<seq<byte>>, past: seq<BankAnswer>,
                  answers: seq<BankAnswer>, o: nat, req: Fields, isWrite: bool, buf: seq<byte>, buf': seq<byte>,
                  t: Transit, n: nat, align: nat, maxLatency: int, new_: seq<BankAnswer>)
    requires t.size == req.size - t.done && t.offset == o + t.done && t.data == req.data + t.done && n <= t.size
    requires Tallied(past, new_, answers, maxLatency)
    requires Underway(cfg, was, banks, o, isWrite, buf, buf', req, t.done + n, new_)
    requires Skewed(cfg, t.offset + n, t.size - n, align)
    ensures Looping(cfg, was, banks, past, answers, o, req, isWrite, buf, buf',
                    Transit(t.offset + n, t.size - n, t.data + n, t.done + n, align, maxLatency), new_)
  {}

  /** The next piece lies in a granule and in the buffer. */
  lemma PieceInBuffer(cfg: Config, was: seq<seq<byte>>, banks: seq<seq<byte>>, o: nat, isWrite: bool, buf: seq<byte>,
                      buf0: seq<byte>, req: Fields, done: nat, new_: seq<BankAnswer>)
    requires Underway(cfg, was, banks, o, isWrite, buf, buf0, req, done, new_) && done < req.size
    ensures var n := PieceSize(cfg.interleavingBits, o + done, req.size - done);
            InGranule(cfg, o + done, n) && req.data + done + n <= |buf0|
  {
    PieceFits(cfg.interleavingBits, o + done, req.size - done);
  }

  /** The next piece has been sent, and answered. */
  lemma PieceOn(cfg: Config, was: seq<seq<byte>>, before: seq<seq<byte>>, banks: seq<seq<byte>>, o: nat, isWrite: bool,
                buf: seq<byte>, buf0: seq<byte>, buf1: seq<byte>, req: Fields, req': Fields, done: nat,
                new_: seq<BankAnswer>, a: BankAnswer)
    requires Underway(cfg, was, before, o, isWrite, buf, buf0, req, done, new_) && done < req.size
    requires IsPiece(cfg, o, req, req', done) && AnswersPiece(cfg, o + done, req'.size, isWrite, a)
    requires if a.status == BankOk
             then PieceDone(cfg, before, banks, o + done, isWrite, buf0, buf1, req.data + done, req'.size)
             else banks == before && buf1 == buf0
    ensures if a.status == BankOk
            then Underway(cfg, was, banks, o, isWrite, buf, buf1, req, done + req'.size, new_ + [a])
            else Broken(cfg, was, banks, o, isWrite, buf, buf1, req, req', done, new_ + [a],
                        Reported(a.status, done + req'.size == req.size))
  {
    AnswerGoes(cfg, o, isWrite, new_, req, done, req', a);
    if a.status == BankOk {
      PieceMoved(cfg, was, before, banks, o, isWrite, buf, buf0, buf1, req.data, done, req'.size);
    }
  }

  /** A patch grows. */
  lemma PatchGrows(f0: seq<byte>, f1: seq<byte>, o: nat, done: nat, n: nat, buf: seq<byte>, at: nat)
    requires o + done + n <= |f0| && at + done + n <= |buf|
    requires f1 == if done == 0 then f0 else Patch(f0, o, buf[at..at + done])
    ensures Patch(f1, o + done, buf[at + done..at + done + n]) == Patch(f0, o, buf[at..at + done + n])
  {
    SliceJoins(buf, at, done, n);
    PatchTwice(f0, o, buf[at..at + done], buf[at + done..at + done + n]);
    assert done == 0 ==> Patch(f0, o, []) == f0;
  }

  lemma StoreMoved(cfg: Config, was: seq<seq<byte>>, before: seq<seq<byte>>, o: nat, buf: seq<byte>, at: nat, done: nat,
                   n: nat)
    requires Moved(cfg, was, before, o, true, buf, buf, at, done) && at + done + n <= |buf|
    requires InGranule(cfg, o + done, n) && Offset(cfg, o + done) + n <= BankSize(cfg)
    ensures Moved(cfg, was, PieceStored(cfg, before, o + done, buf[at + done..at + done + n]), o, true, buf, buf, at,
                  done + n)
  {
    PieceIsStored(cfg, before, o + done, buf[at + done..at + done + n]);
    PatchGrows(Flat(cfg, was), Flat(cfg, before), o, done, n, buf, at);
  }

  lemma LoadMoved(cfg: Config, was: seq<seq<byte>>, o: nat, buf: seq<byte>, buf0: seq<byte>, at: nat, done: nat, n: nat)
    requires Moved(cfg, was, was, o, false, buf, buf0, at, done) && at + done + n <= |buf|
    requires InGranule(cfg, o + done, n) && Offset(cfg, o + done) + n <= BankSize(cfg)
    ensures Moved(cfg, was, was, o, false, buf, Patch(buf0, at + done, PieceLoaded(cfg, was, o + done, n)), at,
                  done + n)
  {
    PieceIsLoaded(cfg, was, o + done, n);
    PatchGrows(buf, buf0, at, done, n, Flat(cfg, was), o);
  }

  /** One more piece has been moved. */
  lemma PieceMoved(cfg: Config, was: seq<seq<byte>>, before: seq<seq<byte>>, banks: seq<seq<byte>>, o: nat,
                   isWrite: bool, buf: seq<byte>, buf0: seq<byte>, buf1: seq<byte>, at: nat, done: nat, n: nat)
    requires Moved(cfg, was, before, o, isWrite, buf, buf0, at, done)
    requires PieceDone(cfg, before, banks, o + done, isWrite, buf0, buf1, at + done, n)
    ensures Moved(cfg, was, banks, o, isWrite, buf, buf1, at, done + n)
  {
    if isWrite {
      StoreMoved(cfg, was, before, o, buf, at, done, n);
    } else {
      LoadMoved(cfg, was, o, buf, buf0, at, done, n);
    }
  }
}
