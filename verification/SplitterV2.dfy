/**
  The splitter component: one parent at a time, carved into phases and chunks, chunks answered by
  the outputs inline, later, or after a refusal. `log` records the pending parent's history; every
  field that concerns the parent is a function of it.
 */
module SplitterV2 {
  import opened Arith
  import opened IoV2
  import opened SplitterPlan
  import opened SplitterLog
  import Bits

  /** How a parent ended. `annotation` is the latency written on it, `None` where none is written. */
  datatype Completion = Completion(req: Request, inline: bool, status: RespStatus, annotation: Option<int>,
                                   elapsed: int, log: seq<Event>, talk: seq<Talk>)

  /**
    What the component promises of a completed parent: its chunks were the burst's cells, each settled
    once, phase after phase; its status is the worst of theirs; elapsed time plus annotation is the
    larger of real time and ideal time. Its history is what the output ports were called with and have said.
   */
  ghost predicate Fulfilled(c: Completion, iw: pos, ow: pos, nb: pos) {
    && c.log == LogOf(c.talk)
    && AreCells(IssuedChunks(c.log), c.req.addr, c.req.size, c.req.opcode, iw, ow, nb)
    && |IssuedChunks(c.log)| == Cells(c.req.addr, c.req.size, ow)
    && AllSettled(c.log) && SettledOnce(c.log) && SettledCount(c.log) == |IssuedChunks(c.log)|
    && SettledBytes(c.log) == c.req.size
    && PhaseOrdered(c.log)
    && c.status == WorstResp(c.log)
    && c.elapsed >= 0 && (c.inline ==> c.elapsed == 0)
    && match c.annotation
       case None => c.req.size == 0
       case Some(a) => c.elapsed + a == Max(c.elapsed, IdealTime(c.log, Cells(c.req.addr, c.req.size, iw)))
  }

  // ---------------------------------------------------------------- where a burst stands

  /** The chunks cut are the burst's first cells, `planned` bytes in all. */
  ghost predicate Cut(req: Request, planned: nat, b: Books, iw: pos, ow: pos, nb: pos) {
    && b.totalSize == req.size && SettledBytes(b.log) + Outstanding(b) == planned && Told(b)
    && AreCells(IssuedChunks(b.log), req.addr, req.size, req.opcode, iw, ow, nb)
  }

  /** A parent being served: books in order, whole phases cut. */
  ghost predicate Served(req: Request, planned: nat, b: Books, iw: pos, ow: pos, nb: pos) {
    && BooksOk(b, nb) && Cut(req, planned, b, iw, ow, nb)
    && Between(req.addr + planned, b.phases, |IssuedChunks(b.log)|, req.addr, req.size, iw, ow)
  }

  /** Lanes from `i` on are untouched in the open phase. */
  ghost predicate LanesFree(b: Books, i: nat, nb: nat) {
    && |b.stuck| == nb && |b.granted| == nb
    && (forall o :: i <= o < nb ==> b.stuck[o].None? && b.granted[o].None?)
    && (forall k :: 0 <= k < |b.log| && b.log[k].chunk.phase == b.phases - 1 ==> b.log[k].chunk.output < i)
  }

  /** A phase under way: it began at byte `start` of the burst, with `k0` chunks cut
      and books `books0`, and has `n` bytes. */
  datatype Phase = Phase(start: nat, n: nat, number: nat, k0: nat, books0: Books)

  /** The history only grows. */
  predicate Onward(b: Books, b': Books) {
    b.log <= b'.log && b.talk <= b'.talk
  }

  ghost predicate Begun(req: Request, ph: Phase, iw: pos, ow: pos) {
    && ph.start < req.size && ph.n == Min(Room(req.addr + ph.start, iw), req.size - ph.start)
    && AtPhase(req.addr + ph.start, req.size - ph.start, ph.number, ph.k0, req.addr, req.size, iw, ow)
  }

  /** The books in the middle of the phase: `i` of its chunks cut, `planned` bytes of the burst in all. */
  ghost predicate MidBooks(req: Request, ph: Phase, planned: nat, i: nat, b: Books, iw: pos, ow: pos, nb: pos) {
    && BooksOk(b, nb) && LanesFree(b, i, nb) && !b.banked && Cut(req, planned, b, iw, ow, nb)
    && b.phases == ph.number + 1 && |IssuedChunks(b.log)| == ph.k0 + i && Onward(ph.books0, b)
  }

  ghost predicate Midway(req: Request, ph: Phase, planned: nat, i: nat, b: Books, iw: pos, ow: pos, nb: pos) {
    MidBooks(req, ph, planned, i, b, iw, ow, nb) && InPhase(req.addr + ph.start, ph.n, i, req.addr + planned, ow)
  }

  lemma LanesAfter(b: Books, nb: nat, sub: Chunk, a: Answer)
    requires sub.output < nb && LanesFree(b, sub.output, nb)
    ensures LanesFree(Answered(Handed(b, sub), sub, a), sub.output + 1, nb)
  {}

  lemma AnswerOne(b: Books, nb: nat, sub: Chunk, a: Answer)
    requires BooksOk(b, nb) && !b.banked && sub.output < nb && sub.phase == b.phases - 1 && LanesFree(b, sub.output, nb)
    ensures var b' := Answered(Handed(b, sub), sub, a);
            && BooksOk(b', nb) && SettledBytes(b'.log) + Outstanding(b') ==
               SettledBytes(b.log) + Outstanding(b) + sub.size
            && IssuedChunks(b'.log) == IssuedChunks(b.log) + [sub]
  {
    BooksHand(b, nb, sub);
    BooksAnswer(Handed(b, sub), nb, sub, a);
  }

  /** The chunk cut next is the burst's next cell, and there is an output for it. */
  lemma NextChunkIsCell(req: Request, ph: Phase, planned: nat, i: nat, iw: pos, ow: pos, nb: pos, n: nat)
    requires iw == Times(nb, ow) && Begun(req, ph, iw, ow) && planned < ph.start + ph.n
    requires InPhase(req.addr + ph.start, ph.n, i, req.addr + planned, ow)
    requires n == Min(Room(req.addr + planned, ow), ph.start + ph.n - planned)
    ensures i < nb
    ensures IsCell(Chunk(req.addr + planned, n, planned, req.opcode, i, ph.number), req.addr, req.size, req.opcode, iw,
                   ow, nb, ph.k0 + i)
    ensures InPhase(req.addr + ph.start, ph.n, i + 1, req.addr + planned + n, ow)
  {
    var a := req.addr + planned;
    NextReady(req, ph, planned, i, iw, ow, nb);
    ReadyChunk(a, ph.start + ph.n - planned, req.opcode, i, ph.number, ph.k0 + i, req.addr, req.size, iw, ow, nb);
    InPhaseStep(req.addr + ph.start, ph.n, i, a, ow);
  }

  lemma NextReady(req: Request, ph: Phase, planned: nat, i: nat, iw: pos, ow: pos, nb: pos)
    requires iw == Times(nb, ow) && Begun(req, ph, iw, ow) && planned < ph.start + ph.n
    requires InPhase(req.addr + ph.start, ph.n, i, req.addr + planned, ow)
    ensures Ready(req.addr + planned, ph.start + ph.n - planned, i, ph.number, ph.k0 + i, req.addr, req.size, iw, ow,
                  nb)
  {
    InPhaseReady(req.addr + ph.start, ph.n, i, req.addr + planned, req.size - ph.start, ph.number, ph.k0, req.addr,
                 req.size, iw, ow, nb);
  }

  lemma ReadyChunk(a: nat, rest: nat, op: Opcode, output: nat, phase: nat, k: nat, base: nat, total: nat,
                   iw: pos, ow: pos, nb: pos)
    requires iw == Times(nb, ow) && Ready(a, rest, output, phase, k, base, total, iw, ow, nb)
    ensures output < nb
    ensures IsCell(Chunk(a, Min(Room(a, ow), rest), a - base, op, output, phase), base, total, op, iw, ow, nb, k)
  {
    ReadyIsCell(a, rest, op, output, phase, k, base, total, iw, ow, nb);
    LaneBound(a, phase, k, base, iw, ow, nb);
  }

  /** A chunk on a lane that is free was not issued. */
  lemma NotIssued(b: Books, i: nat, nb: nat, sub: Chunk)
    requires LanesFree(b, i, nb) && sub.output == i && sub.phase == b.phases - 1
    ensures !HasIssued(b.log, sub)
  {
    if HasIssued(b.log, sub) {
      var k := IssuedWhere(b.log, sub);
      assert false;
    }
  }

  lemma CutTold(b: Books, i: nat, nb: nat, sub: Chunk, a: Answer)
    requires Told(b) && LanesFree(b, i, nb) && i < nb && sub.output == i && sub.phase == b.phases - 1
    ensures Told(Answered(Handed(b, sub), sub, a))
  {
    NotIssued(b, i, nb, sub);
    HandTold(b, sub);
    AnswerTold(Handed(b, sub), b.talk, sub, a);
  }

  /** One round of the loop over the outputs: the next chunk is cut, and its output answers. */
  lemma CutOn(req: Request, ph: Phase, planned: nat, i: nat, b: Books, b': Books, iw: pos, ow: pos, nb: pos,
              sub: Chunk, a: Answer)
    requires iw == Times(nb, ow) && Begun(req, ph, iw, ow) && planned < ph.start + ph.n && i < nb
    requires sub == Chunk(req.addr + planned, Min(Room(req.addr + planned, ow), ph.start + ph.n - planned), planned,
                          req.opcode, i, ph.number)
    requires Midway(req, ph, planned, i, b, iw, ow, nb) && b' == Answered(Handed(b, sub), sub, a)
    ensures Midway(req, ph, planned + sub.size, i + 1, b', iw, ow, nb)
  {
    NextChunkIsCell(req, ph, planned, i, iw, ow, nb, sub.size);
    CutBooks(req, ph, planned, i, b, b', iw, ow, nb, sub, a);
  }

  /** Cutting one more chunk, whatever its output answers. */
  lemma CutBooks(req: Request, ph: Phase, planned: nat, i: nat, b: Books, b': Books, iw: pos, ow: pos, nb: pos,
                 sub: Chunk, a: Answer)
    requires MidBooks(req, ph, planned, i, b, iw, ow, nb) && i < nb && sub.output == i && sub.phase == ph.number
    requires IsCell(sub, req.addr, req.size, req.opcode, iw, ow, nb, ph.k0 + i)
    requires b' == Answered(Handed(b, sub), sub, a)
    ensures MidBooks(req, ph, planned + sub.size, i + 1, b', iw, ow, nb)
  {
    AnswerOne(b, nb, sub, a);
    LanesAfter(b, nb, sub, a);
    CutTold(b, i, nb, sub, a);
    AreCellsAppend(IssuedChunks(b.log), sub, req.addr, req.size, req.opcode, iw, ow, nb);
  }

  /** The loop ends with nothing left to cut: there is always an output for the next chunk. */
  lemma FanOutEnds(req: Request, ph: Phase, planned: nat, i: nat, b: Books, iw: pos, ow: pos, nb: pos)
    requires iw == Times(nb, ow) && Begun(req, ph, iw, ow) && Midway(req, ph, planned, i, b, iw, ow, nb)
    requires planned <= ph.start + ph.n && (i >= nb || planned == ph.start + ph.n)
    ensures Served(req, ph.start + ph.n, b, iw, ow, nb) && !b.banked && Onward(ph.books0, b)
  {
    if planned < ph.start + ph.n {
      NextChunkIsCell(req, ph, planned, i, iw, ow, nb, Min(Room(req.addr + planned, ow), ph.start + ph.n - planned));
      assert false;
    } else {
      InPhaseEnd(req.addr + ph.start, ph.n, i, req.size - ph.start, ph.number, ph.k0, req.addr, req.size, iw, ow, nb);
    }
  }

  /** The mask expression of the code is the room left in the cell. */
  lemma MaskIsRoom(addr: nat, bits: nat)
    ensures var w := Bits.Pow2(bits); w - Bits.And(addr, w - 1) == Room(addr, w)
  {
    Bits.MaskIsLow(addr, bits);
    Bits.ShiftsAreArithmetic(addr, bits);
  }

  /** Opening a phase. */
  lemma PhaseOpens(req: Request, planned: nat, b: Books, b': Books, ph: Phase, iw: pos, ow: pos, nb: pos)
    requires iw == Times(nb, ow)
    requires Served(req, planned, b, iw, ow, nb) && b.banked && b.chunksPending == 0 && planned < req.size
    requires b' == b.(banked := false, phases := b.phases + 1, phaseMaxLatency := 0)
    requires ph == Phase(planned, Min(Room(req.addr + planned, iw), req.size - planned), b.phases,
                         |IssuedChunks(b.log)|, b)
    ensures Begun(req, ph, iw, ow) && Midway(req, ph, planned, 0, b', iw, ow, nb)
  {
    BooksOpen(b, nb);
  }

  /** Adding a drained phase's maximum up. */
  lemma PhaseBanks(req: Request, planned: nat, b: Books, b': Books, iw: pos, ow: pos, nb: pos)
    requires Served(req, planned, b, iw, ow, nb) && !b.banked
    requires b' == b.(banked := true, accumulatedLatency := b.accumulatedLatency + b.phaseMaxLatency)
    ensures Served(req, planned, b', iw, ow, nb)
  {
    BooksBank(b, nb);
  }

  /** A burst wholly cut and settled has fulfilled its promise. */
  lemma BurstEnds(req: Request, b: Books, iw: pos, ow: pos, nb: pos, inline: bool, elapsed: int, annotation: int)
    requires Served(req, req.size, b, iw, ow, nb) && b.banked && b.chunksPending == 0
    requires elapsed >= 0 && (inline ==> elapsed == 0)
    requires annotation == Max(0, b.accumulatedLatency - elapsed)
    ensures Fulfilled(Completion(req, inline, b.respStatus, Some(annotation), elapsed, b.log, b.talk), iw, ow, nb)
    ensures b.remainingSize == 0 && forall o :: 0 <= o < nb ==> b.stuck[o].None? && b.granted[o].None?
  {
    BooksDrained(b, nb);
  }

  /** A parent just accepted. */
  lemma BurstStarts(req: Request, b: Books, iw: pos, ow: pos, nb: pos)
    requires |b.stuck| == |b.granted| == nb && forall o :: 0 <= o < nb ==> b.stuck[o].None? && b.granted[o].None?
    requires b.log == [] && b.talk == [] && b.phases == 0 && b.banked && b.totalSize == req.size && b.chunksPending == 0
    requires b.remainingSize == req.size && b.respStatus == Ok && b.accumulatedLatency == 0 && req.size > 0
    ensures Served(req, 0, b, iw, ow, nb)
  {
    SlotsEmpty(b.stuck);
    SlotsEmpty(b.granted);
    LogUnfold([]);
    NoneIssued(b.stuck, []);
    NoneIssued(b.granted, []);
    assert AreCellsStep([], req.addr, req.size, req.opcode, iw, ow, nb);
  }

  /** A parent being served, while the output has yet to answer the chunk that it is handed again. */
  ghost predicate Asking(req: Request, planned: nat, b: Books, talk: seq<Talk>, sub: Chunk, iw: pos, ow: pos, nb: pos) {
    && BooksOk(b, nb) && b.totalSize == req.size && SettledBytes(b.log) + Outstanding(b) == planned
    && AreCells(IssuedChunks(b.log), req.addr, req.size, req.opcode, iw, ow, nb)
    && Between(req.addr + planned, b.phases, |IssuedChunks(b.log)|, req.addr, req.size, iw, ow)
    && Telling(b, talk, sub) && !b.banked && |b.stuck| == nb
  }

  /** The output's answer keeps the parent served. */
  lemma ChunkAnswered(req: Request, planned: nat, b: Books, talk: seq<Talk>, sub: Chunk, a: Answer, iw: pos, ow: pos,
                      nb: pos)
    requires Asking(req, planned, b, talk, sub, iw, ow, nb)
    ensures var b' := Answered(b, sub, a); Served(req, planned, b', iw, ow, nb) && !b'.banked && b'.chunksPending >= 0
  {
    BooksAnswer(b, nb, sub, a);
    AnswerTold(b, talk, sub, a);
  }

  /** A chunk that its output had accepted completes. */
  lemma ChunkReplied(req: Request, planned: nat, b: Books, sub: Chunk, latency: int, resp: RespStatus, iw: pos, ow: pos,
                     nb: pos)
    requires Served(req, planned, b, iw, ow, nb) && !b.banked && OnLane(sub, b.granted)
    ensures var b' := Replied(b, sub, latency, resp);
            Served(req, planned, b', iw, ow, nb) && !b'.banked && b'.chunksPending >= 0
  {
    BooksSettle(b.(talk := b.talk + [Came(sub, latency, resp)]), nb, sub, latency, resp);
    ReplyTold(b, sub, latency, resp);
  }

  lemma ChunkResent(req: Request, planned: nat, b: Books, iw: pos, ow: pos, nb: pos, id: nat)
    requires Served(req, planned, b, iw, ow, nb) && !b.banked && id < nb && b.stuck[id].Some?
    ensures b.granted[id].None? && b.stuck[id].value.output == id
    ensures Asking(req, planned, Resent(b, id), b.talk, b.stuck[id].value, iw, ow, nb)
    ensures Resent(b, id).chunksPending == b.chunksPending
  {
    BooksResend(b, nb, id);
    ResendTold(b, id);
  }

  lemma ParkedAgain(b: Books, id: nat, nb: nat)
    requires BooksOk(b, nb) && id < nb && b.stuck[id].Some?
    ensures forall talk :: Parked(Resent(b, id).(talk := talk), id) == b.(talk := talk)
  {
    assert b.stuck[id := None][id := b.stuck[id]] == b.stuck;
    assert b.granted[id := b.stuck[id]][id := None] == b.granted;
  }

  class Splitter {
    const inputWidth: pos
    const outputWidth: pos
    const nbOutputs: pos
    ghost const inputBits: nat
    ghost const outputBits: nat

    var pendingParent: Option<Request>
    var bytesPlanned: nat
    var admissionCycle: int
    var insideInputReq: bool
    var inputNeedsRetry: bool
    // The counters kept for the pending parent, on the splitter and on the request itself.
    var books: Books

    // What went out of the input port: responses and retries, in order.
    var upstream: seq<Upstream>

    ghost var accepted: seq<Request>
    ghost var completed: seq<Completion>

    ghost predicate Widths()
      reads this
    {
      inputWidth == Times(nbOutputs, outputWidth) && inputWidth == Bits.Pow2(inputBits)
        && outputWidth == Bits.Pow2(outputBits)
    }

    /** Every accepted parent completed exactly once, in order, but the pending one. */
    ghost predicate Ledger()
      reads this
    {
      && (forall i :: 0 <= i < |completed| ==> Fulfilled(completed[i], inputWidth, outputWidth, nbOutputs))
      && |accepted| == |completed| + (if pendingParent.Some? then 1 else 0)
      && (forall i :: 0 <= i < |completed| ==> completed[i].req == accepted[i])
      && (pendingParent.Some? ==> pendingParent.value == accepted[|completed|])
    }

    /** The pending parent is being served. */
    ghost predicate Serving()
      reads this
    {
      && Widths() && pendingParent.Some?
      && Served(pendingParent.value, bytesPlanned, books, inputWidth, outputWidth, nbOutputs)
    }

    /** The invariant between callbacks: a pending parent always has a chunk at an output or parked. */
    ghost predicate Valid()
      reads this
    {
      && Widths() && Ledger() && !insideInputReq
      && |books.stuck| == |books.granted| == nbOutputs
      && (inputNeedsRetry ==> pendingParent.Some?)
      && (pendingParent.None? ==> forall o :: 0 <= o < nbOutputs ==> books.stuck[o].None? && books.granted[o].None?)
      && (pendingParent.Some? ==> Serving() && !books.banked && books.chunksPending > 0)
    }

    constructor (inputWidth: pos, outputWidth: pos, ghost inputBits: nat, ghost outputBits: nat)
      requires outputBits <= inputBits && outputWidth == Bits.Pow2(outputBits) && inputWidth == Bits.Pow2(inputBits)
      ensures Valid() && pendingParent.None? && !inputNeedsRetry && upstream == [] && accepted == [] && completed == []
      ensures this.inputWidth == inputWidth && this.outputWidth == outputWidth
    {
      var nb := inputWidth / outputWidth;
      Bits.Pow2Shl(inputBits - outputBits, outputBits);
      Bits.ShlIsTimes(Bits.Pow2(inputBits - outputBits), outputBits);
      QuotUnique(Bits.Pow2(inputBits - outputBits), 0, outputWidth);
      OperatorsAgree(inputWidth, outputWidth);
      this.inputWidth, this.outputWidth, nbOutputs := inputWidth, outputWidth, nb;
      this.inputBits, this.outputBits := inputBits, outputBits;
      pendingParent, inputNeedsRetry, insideInputReq, upstream := None, false, false, [];
      bytesPlanned, admissionCycle := 0, 0;
      books := Books(seq(nb, _ => None), seq(nb, _ => None), [], [], 0, true, 0, 0, 0, Ok, 0, 0);
      accepted, completed := [], [];
    }

    // -------------------------------------------------------------- chunks

    /** One chunk has completed: take its status, latency and bytes into account. */
    method AccountChunk(sub: Chunk, latency: int, resp: RespStatus)
      requires sub.output < |books.granted|
      modifies `books
      ensures books == Settled(old(books), sub, latency, resp)
    {
      books := books.(granted := books.granted[sub.output := None], log := books.log + [Settle(sub, latency, resp)]);
      if resp == Invalid {
        books := books.(respStatus := Invalid);
      }
      if latency > books.phaseMaxLatency {
        books := books.(phaseMaxLatency := latency);
      }
      books := books.(remainingSize := books.remainingSize - sub.size);
      books := books.(chunksPending := books.chunksPending - 1);
    }

    /** The output of `sub` is called with it, and is free to answer anything. */
    method OutputReq(sub: Chunk) returns (a: Answer)
      modifies `books
      ensures books == old(books).(talk := old(books).talk + [Called(sub, a)])
    {
      a := SlaveAnswers();
      books := books.(talk := books.talk + [Called(sub, a)]);
    }

    /** The output of `sub` answers it; a refused chunk is parked on its lane. */
    method AwaitAnswer(sub: Chunk) returns (a: Answer)
      requires sub.output < |books.granted| && sub.output < |books.stuck| && books.granted[sub.output] == Some(sub)
      modifies `books
      ensures books == Answered(old(books), sub, a)
    {
      a := OutputReq(sub);
      if a.status == Done {
        AccountChunk(sub, a.latency, a.resp);
      } else if a.status == Denied {
        books := books.(granted := books.granted[sub.output := None], stuck := books.stuck[sub.output := Some(sub)]);
      }
    }

    /** Hands one chunk to its output and takes the answer into account. */
    method IssueChunk(sub: Chunk) returns (a: Answer)
      requires sub.output < |books.granted| && sub.output < |books.stuck|
      modifies `books
      ensures books == Answered(Handed(old(books), sub), sub, a)
    {
      books := books.(chunksPending := books.chunksPending + 1);
      books := books.(granted := books.granted[sub.output := Some(sub)], log := books.log + [Issue(sub)]);
      a := AwaitAnswer(sub);
    }

    /** Cuts the next chunk at `addr` and hands it to output `i`; `n` is its size. */
    method CutNext(req: Request, ghost ph: Phase, i: nat, addr: nat, size: nat, data: nat) returns (n: nat)
      requires Widths() && i < nbOutputs
      requires addr == req.addr + data && size > 0 && data + size == ph.start + ph.n
      requires Begun(req, ph, inputWidth, outputWidth)
               && Midway(req, ph, data, i, books, inputWidth, outputWidth, nbOutputs)
      modifies `books
      ensures 0 < n <= size
      ensures Midway(req, ph, data + n, i + 1, books, inputWidth, outputWidth, nbOutputs)
    {
      MaskIsRoom(addr, outputBits);
      var portSize := outputWidth - Bits.And(addr, outputWidth - 1);
      n := Min(portSize, size);
      var sub := Chunk(addr, n, data, req.opcode, i, books.phases - 1);
      var a := IssueChunk(sub);
      CutOn(req, ph, data, i, old(books), books, inputWidth, outputWidth, nbOutputs, sub, a);
    }

    /**
      Fans the `phaseSize` bytes of `req` after `position` out across the outputs, in `i` chunks, until either
      runs out.
     */
    method FanOut(req: Request, position: nat, phaseSize: nat, ghost ph: Phase) returns (i: nat, data: nat)
      requires Widths() && ph.start == position && ph.n == phaseSize
      requires Begun(req, ph, inputWidth, outputWidth)
               && Midway(req, ph, position, 0, books, inputWidth, outputWidth, nbOutputs)
      modifies `books
      ensures Midway(req, ph, data, i, books, inputWidth, outputWidth, nbOutputs)
      ensures data <= position + phaseSize && (i >= nbOutputs || data == position + phaseSize)
    {
      var addr: nat, size: nat := req.addr + position, phaseSize;
      i, data := 0, position;
      while i < nbOutputs && size > 0
        invariant 0 <= i <= nbOutputs && data + size == position + phaseSize && addr == req.addr + data
        invariant Midway(req, ph, data, i, books, inputWidth, outputWidth, nbOutputs)
        decreases size
      {
        var n := CutNext(req, ph, i, addr, size, data);
        addr, data, size, i := addr + n, data + n, size - n, i + 1;
      }
    }

    // -------------------------------------------------------------- phases

    /** Opens the next phase, of `phaseSize` bytes. */
    method OpenPhase(phaseSize: nat) returns (ghost ph: Phase)
      requires Serving() && books.banked && books.chunksPending == 0 && bytesPlanned < books.totalSize
      requires phaseSize ==
               Min(Room(pendingParent.value.addr + bytesPlanned, inputWidth), books.totalSize - bytesPlanned)
      modifies `books
      ensures ph.start == bytesPlanned && ph.n == phaseSize && ph.books0 == old(books)
      ensures Begun(pendingParent.value, ph, inputWidth, outputWidth)
      ensures Midway(pendingParent.value, ph, bytesPlanned, 0, books, inputWidth, outputWidth, nbOutputs)
    {
      ph := Phase(bytesPlanned, phaseSize, books.phases, |IssuedChunks(books.log)|, books);
      books := books.(phaseMaxLatency := 0, phases := books.phases + 1, banked := false);
      PhaseOpens(pendingParent.value, bytesPlanned, old(books), books, ph, inputWidth, outputWidth, nbOutputs);
    }

    /** Cuts and sends the next phase, of `phaseSize` bytes. */
    method IssuePhase(phaseSize: nat)
      requires Serving() && books.banked && books.chunksPending == 0 && bytesPlanned < books.totalSize
      requires phaseSize ==
               Min(Room(pendingParent.value.addr + bytesPlanned, inputWidth), books.totalSize - bytesPlanned)
      modifies `books, `bytesPlanned
      ensures Serving() && !books.banked && bytesPlanned == old(bytesPlanned) + phaseSize && Onward(old(books), books)
    {
      ghost var ph := OpenPhase(phaseSize);
      var i, data := FanOut(pendingParent.value, bytesPlanned, phaseSize, ph);
      FanOutEnds(pendingParent.value, ph, data, i, books, inputWidth, outputWidth, nbOutputs);
      bytesPlanned := bytesPlanned + phaseSize;
    }

    /** Adds the drained phase's maximum up. */
    method BankPhase()
      requires Serving() && !books.banked
      modifies `books
      ensures Serving() && books.banked && Onward(old(books), books)
              && books.chunksPending == old(books.chunksPending)
    {
      books := books.(accumulatedLatency := books.accumulatedLatency + books.phaseMaxLatency, banked := true);
      PhaseBanks(pendingParent.value, bytesPlanned, old(books), books, inputWidth, outputWidth, nbOutputs);
    }

    /** Issues phases until the burst is exhausted or a chunk does not complete inline. */
    method IssuePhases()
      requires Serving() && books.banked && books.chunksPending == 0
      modifies `books, `bytesPlanned
      ensures Serving() && Onward(old(books), books) && books.banked == (books.chunksPending == 0)
      ensures books.chunksPending == 0 ==> bytesPlanned == books.totalSize
    {
      while bytesPlanned < books.totalSize && books.chunksPending == 0
        invariant Serving() && Onward(old(books), books) && books.banked == (books.chunksPending == 0)
        decreases pendingParent.value.size - bytesPlanned
      {
        IssueNext();
      }
    }

    /** The body of that loop: one more phase, which is added up if it has drained. */
    method IssueNext()
      requires Serving() && books.banked && books.chunksPending == 0 && bytesPlanned < books.totalSize
      modifies `books, `bytesPlanned
      ensures Serving() && Onward(old(books), books) && books.banked == (books.chunksPending == 0)
      ensures old(bytesPlanned) < bytesPlanned <= pendingParent.value.size
    {
      var base := pendingParent.value.addr + bytesPlanned;
      MaskIsRoom(base, inputBits);
      var iwRem := inputWidth - Bits.And(base, inputWidth - 1);
      var phaseSize := Min(iwRem, books.totalSize - bytesPlanned);
      IssuePhase(phaseSize);
      if books.chunksPending == 0 {
        BankPhase();
      }
    }

    // -------------------------------------------------------------- the end of a parent

    /** Everything but the books is as before: the parent is still pending, nothing went upstream. */
    twostate predicate StillPending()
      reads this
    {
      && pendingParent == old(pendingParent) && pendingParent.Some? && admissionCycle == old(admissionCycle)
      && accepted == old(accepted) && completed == old(completed)
      && upstream == old(upstream) && inputNeedsRetry == old(inputNeedsRetry)
    }

    /**
      The parent completed at `now` with a response, some time after books `b`; a master that was refused
      meanwhile gets its retry.
     */
    twostate predicate Responded(now: int, b: Books)
      reads this
    {
      && old(pendingParent).Some? && pendingParent.None? && !inputNeedsRetry
      && accepted == old(accepted) && |completed| == |old(completed)| + 1 && old(completed) <= completed
      && (var c := completed[|old(completed)|];
          c.req == old(pendingParent).value && !c.inline && c.elapsed == now - old(admissionCycle) && b.log <= c.log
            && b.talk <= c.talk)
      && upstream == old(upstream) + [Resp(old(pendingParent).value.id)]
         + (if old(inputNeedsRetry) then [Retry] else [])
    }

    /** Sends the final response, with the annotation that tops real time up to ideal time. */
    method FinalizeParent(now: int)
      requires Serving() && Ledger() && !insideInputReq && now >= admissionCycle
      requires books.banked && books.chunksPending == 0 && bytesPlanned == books.totalSize
      modifies this
      ensures Valid() && Responded(now, old(books))
    {
      var parent := pendingParent.value;
      var elapsed := now - admissionCycle;
      var topup := books.accumulatedLatency - elapsed;
      var latency := if topup > 0 then topup else 0;
      BurstEnds(parent, books, inputWidth, outputWidth, nbOutputs, false, elapsed, latency);
      completed := completed
        + [Completion(parent, false, books.respStatus, Some(latency), elapsed, books.log, books.talk)];
      pendingParent, bytesPlanned := None, 0;
      books := books.(totalSize := 0, chunksPending := 0, phaseMaxLatency := 0, accumulatedLatency := 0);

      upstream := upstream + [Resp(parent.id)];
      if inputNeedsRetry {
        inputNeedsRetry := false;
        upstream := upstream + [Retry];
      }
    }

    /** The phase has drained: the next ones are issued, if there are any. */
    method GoOn()
      requires Serving() && !books.banked && books.chunksPending == 0
      modifies `books, `bytesPlanned
      ensures Serving() && Onward(old(books), books) && books.banked == (books.chunksPending == 0)
      ensures books.chunksPending == 0 ==> bytesPlanned == books.totalSize
    {
      BankPhase();
      if bytesPlanned < books.totalSize {
        IssuePhases();
      }
    }

    /** A chunk has completed: once its phase has drained, go on to the next one, or finish. */
    method AfterChunkCompletion(now: int)
      requires Serving() && Ledger() && !insideInputReq && !books.banked && books.chunksPending >= 0
      requires (inputNeedsRetry ==> pendingParent.Some?) && now >= admissionCycle
      modifies this
      ensures Valid() && ((StillPending() && Onward(old(books), books)) || Responded(now, old(books)))
    {
      if books.chunksPending != 0 {
        return;
      }
      GoOn();
      if books.chunksPending != 0 {
        return;
      }
      if !insideInputReq {
        FinalizeParent(now);
      }
    }

    // -------------------------------------------------------------- callbacks

    /** The request becomes the pending parent, with nothing of it issued. */
    method Begin(req: Request, now: int)
      requires Valid() && pendingParent.None? && req.size > 0
      modifies `accepted, `pendingParent, `bytesPlanned, `admissionCycle, `books
      ensures Serving() && Ledger() && pendingParent == Some(req) && admissionCycle == now
      ensures books.banked && books.chunksPending == 0 && accepted == old(accepted) + [req]
    {
      accepted := accepted + [req];
      pendingParent, bytesPlanned, admissionCycle := Some(req), 0, now;
      books := books.(totalSize := req.size, chunksPending := 0, phaseMaxLatency := 0, accumulatedLatency := 0,
        remainingSize := req.size, respStatus := Ok, log := [], talk := [], phases := 0, banked := true);
      BurstStarts(req, books, inputWidth, outputWidth, nbOutputs);
    }

    /** Takes a non-empty request in and issues what can be issued inline. */
    method Admit(req: Request, now: int)
      requires Valid() && pendingParent.None? && req.size > 0
      modifies this
      ensures Serving() && Ledger() && pendingParent == Some(req) && admissionCycle == now && !insideInputReq
      ensures books.banked == (books.chunksPending == 0)
              && (books.chunksPending == 0 ==> bytesPlanned == books.totalSize)
      ensures accepted == old(accepted) + [req] && completed == old(completed)
      ensures upstream == old(upstream) && inputNeedsRetry == old(inputNeedsRetry)
    {
      Begin(req, now);
      insideInputReq := true;
      IssuePhases();
      insideInputReq := false;
    }

    /** The request just admitted completed inline: no response is sent. */
    method CompleteInline()
      requires Serving() && Ledger() && !insideInputReq && !inputNeedsRetry
      requires books.banked && books.chunksPending == 0 && bytesPlanned == books.totalSize
      modifies `completed, `pendingParent, `bytesPlanned, `books
      ensures Valid() && pendingParent.None? && |completed| == |old(completed)| + 1 && old(completed) <= completed
      ensures completed[|old(completed)|].req == old(pendingParent).value && completed[|old(completed)|].inline
    {
      var req := pendingParent.value;
      var topup := books.accumulatedLatency;
      var latency := if topup > 0 then topup else 0;
      BurstEnds(req, books, inputWidth, outputWidth, nbOutputs, true, 0, latency);
      completed := completed + [Completion(req, true, books.respStatus, Some(latency), 0, books.log, books.talk)];
      pendingParent, bytesPlanned := None, 0;
      books := books.(totalSize := 0, accumulatedLatency := 0);
    }

    /** A request arrives at the input. */
    method InputReq(req: Request, now: int) returns (st: ReqStatus)
      requires Valid()
      modifies this
      ensures Valid() && upstream == old(upstream)
      ensures st == Denied <==> old(pendingParent).Some?
      ensures st == Denied ==> inputNeedsRetry && books == old(books) && pendingParent == old(pendingParent)
                               && bytesPlanned == old(bytesPlanned) && admissionCycle == old(admissionCycle)
                               && accepted == old(accepted) && completed == old(completed)
      ensures st != Denied ==> accepted == old(accepted) + [req] && inputNeedsRetry == old(inputNeedsRetry)
      ensures st == Done ==> pendingParent.None? && |completed| == |old(completed)| + 1 && old(completed) <= completed
                             && completed[|old(completed)|].req == req && completed[|old(completed)|].inline
      ensures st == Granted ==> pendingParent == Some(req) && admissionCycle == now && completed == old(completed)
    {
      if pendingParent.Some? {
        inputNeedsRetry := true;
        return Denied;
      }
      if req.size == 0 {
        EmptyRequest(req);
        return Done;
      }
      Admit(req, now);
      if books.chunksPending == 0 && bytesPlanned == books.totalSize {
        CompleteInline();
        return Done;
      }
      return Granted;
    }

    /** An empty request has nothing to forward. */
    method EmptyRequest(req: Request)
      requires Valid() && pendingParent.None? && req.size == 0
      modifies `accepted, `completed
      ensures Valid() && accepted == old(accepted) + [req]
      ensures |completed| == |old(completed)| + 1 && old(completed) <= completed
      ensures completed[|old(completed)|].req == req && completed[|old(completed)|].inline
    {
      assert AreCellsStep([], req.addr, req.size, req.opcode, inputWidth, outputWidth, nbOutputs);
      LogUnfold([]);
      accepted := accepted + [req];
      completed := completed + [Completion(req, true, Ok, None, 0, [], [])];
    }

    /** Output `id` answers the chunk it holds. */
    method OutputResp(sub: Chunk, latency: int, resp: RespStatus, id: nat, now: int)
      requires Valid() && id < nbOutputs && books.granted[id] == Some(sub) && now >= admissionCycle
      modifies this
      ensures Valid()
      ensures var b := Replied(old(books), sub, latency, resp);
              (StillPending() && Onward(b, books)) || Responded(now, b)
    {
      ChunkReplied(pendingParent.value, bytesPlanned, books, sub, latency, resp, inputWidth, outputWidth, nbOutputs);
      books := books.(talk := books.talk + [Came(sub, latency, resp)]);
      AccountChunk(sub, latency, resp);
      AfterChunkCompletion(now);
    }

    /** Sends the chunk parked at output `id` again. */
    method Resend(id: nat) returns (a: Answer)
      requires Serving() && !books.banked && id < nbOutputs && books.stuck[id].Some?
      modifies `books
      ensures Serving() && !books.banked && books.chunksPending >= 0
      ensures old(books.stuck[id]).value.output == id
      ensures books == Answered(Resent(old(books), id), old(books.stuck[id]).value, a)
    {
      var sub := books.stuck[id].value;
      ChunkResent(pendingParent.value, bytesPlanned, books, inputWidth, outputWidth, nbOutputs, id);
      books := books.(stuck := books.stuck[id := None], granted := books.granted[id := Some(sub)]);
      ghost var b := books;
      a := AwaitAnswer(sub);
      ChunkAnswered(pendingParent.value, bytesPlanned, b, old(books).talk, sub, a, inputWidth, outputWidth, nbOutputs);
    }

    /** Output `id` can accept requests again: a chunk parked there is sent again. */
    method OutputRetry(id: nat, now: int) returns (sent: Option<Answer>)
      requires Valid() && id < nbOutputs && now >= admissionCycle
      modifies this
      ensures Valid()
      ensures sent.None? <==> old(books.stuck)[id].None?
      ensures sent.None? ==> books == old(books) && pendingParent == old(pendingParent) && upstream == old(upstream)
                             && accepted == old(accepted) && completed == old(completed)
                             && inputNeedsRetry == old(inputNeedsRetry)
      ensures sent.Some? ==>
                var sub, a := old(books.stuck[id]).value, sent.value;
                sub.output == id &&
                match a.status
                case Denied => StillPending() && books == old(books).(talk := old(books).talk + [Called(sub, a)])
                case Granted => StillPending() && books == Answered(Resent(old(books), id), sub, a)
                case Done =>
                  var b := Answered(Resent(old(books), id), sub, a);
                  (StillPending() && Onward(b, books)) || Responded(now, b)
    {
      if books.stuck[id].None? {
        return None;
      }
      var a := Resend(id);
      sent := Some(a);
      if a.status == Done {
        AfterChunkCompletion(now);
      } else if a.status == Denied {
        ParkedAgain(old(books), id, nbOutputs);
      }
    }
  }
}
