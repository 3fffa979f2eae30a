/** What the limiter keeps, what its steps do to it, and what every step preserves. */
module LimiterSpec {
  import opened Arith
  import opened IoV2

  /** A sub-request: `size` bytes from byte `data` of accepted request number `parent` on. */
  datatype Sub = Sub(parent: nat, addr: nat, size: nat, data: nat, opcode: Opcode)

  /** A chunk, and the cycle in which it was first offered to the output or taken by it. */
  datatype Emission = Emission(cycle: int, sub: Sub)

  /** The fields the limiter keeps on an accepted request. */
  datatype Parent = Parent(remaining: int, status: RespStatus, answered: bool)

  datatype Settle = Settle(sub: Sub, resp: RespStatus)

  datatype State = State(
    // the request in emission, by number, and what is left of it
    pending: Option<nat>, pendingSize: nat, pendingAddr: nat, pendingData: nat,
    needsRetry: bool,
    denied: Option<Sub>,
    nextTimestamp: int,
    armed: Option<int>,
    // the clock, as of the callback under way or the last one
    time: int,
    // accepted requests and their bookkeeping
    reqs: seq<Request>, parents: seq<Parent>,
    // chunks at the output; history of first offers, of chunks the output took, of completions, of upstream calls
    granted: seq<Sub>, emitted: seq<Emission>, taken: seq<Emission>, settled: seq<Settle>, upstream: seq<Upstream>)

  const INITIAL := State(None, 0, 0, 0, false, None, 0, None, 0, [], [], [], [], [], [], [])

  // ---------------------------------------------------------------- pieces of a request

  /** `sub` is the bandwidth-wide piece of its request that begins at byte `data`. */
  ghost predicate IsPiece(sub: Sub, req: Request, bw: pos) {
    && sub.data < req.size && Rem(sub.data, bw) == 0
    && sub.addr == req.addr + sub.data && sub.size == Min(bw, req.size - sub.data) && sub.opcode == req.opcode
  }

  /** `subs` are, in order, the pieces of requests `0` to `k - 1` and those of request `k` before byte `d`. */
  ghost predicate PiecesUpTo(subs: seq<Sub>, reqs: seq<Request>, k: nat, d: nat, bw: pos)
    decreases |subs|, k
  {
    if d == 0 then
      if k == 0 then subs == [] else k <= |reqs| && PiecesUpTo(subs, reqs, k - 1, reqs[k - 1].size, bw)
    else
      && subs != [] && k < |reqs|
      && var last := subs[|subs| - 1];
         && last.parent == k && IsPiece(last, reqs[k], bw) && last.data + last.size == d
         && PiecesUpTo(subs[..|subs| - 1], reqs, k, last.data, bw)
  }

  function PieceCount(reqs: seq<Request>, k: nat, bw: pos): nat
    requires k <= |reqs|
  {
    if k == 0 then 0 else PieceCount(reqs, k - 1, bw) + Ceil(reqs[k - 1].size, bw)
  }

  /** Each request is cut into `ceil(size / bandwidth)` pieces. */
  lemma {:induction false} PiecesAreCeil(subs: seq<Sub>, reqs: seq<Request>, k: nat, d: nat, bw: pos)
    requires PiecesUpTo(subs, reqs, k, d, bw) && k <= |reqs|
    ensures |subs| == PieceCount(reqs, k, bw) + Ceil(d, bw)
    decreases |subs|, k
  {
    CeilFrom(0, 1, bw);
    TimesUnfold(0, bw);
    if d == 0 {
      if k > 0 { PiecesAreCeil(subs, reqs, k - 1, reqs[k - 1].size, bw); }
    } else {
      var last := subs[|subs| - 1];
      PiecesAreCeil(subs[..|subs| - 1], reqs, k, last.data, bw);
      CeilStep(last.data, last.size, bw);
    }
  }

  lemma {:induction false} PiecesReqsGrow(subs: seq<Sub>, reqs: seq<Request>, k: nat, d: nat, bw: pos, r: Request)
    requires PiecesUpTo(subs, reqs, k, d, bw)
    ensures PiecesUpTo(subs, reqs + [r], k, d, bw)
    decreases |subs|, k
  {
    if d == 0 {
      if k > 0 { PiecesReqsGrow(subs, reqs, k - 1, reqs[k - 1].size, bw, r); }
    } else {
      PiecesReqsGrow(subs[..|subs| - 1], reqs, k, subs[|subs| - 1].data, bw, r);
    }
  }

  lemma PiecesAppend(subs: seq<Sub>, reqs: seq<Request>, k: nat, d: nat, bw: pos, sub: Sub)
    requires PiecesUpTo(subs, reqs, k, d, bw) && k < |reqs| && sub.parent == k && IsPiece(sub, reqs[k], bw)
             && sub.data == d
    ensures PiecesUpTo(subs + [sub], reqs, k, d + sub.size, bw)
  {
    assert (subs + [sub])[..|subs|] == subs;
  }

  // ---------------------------------------------------------------- bandwidth

  function Subs(emitted: seq<Emission>): seq<Sub> {
    if emitted == [] then [] else Subs(emitted[..|emitted| - 1]) + [emitted[|emitted| - 1].sub]
  }

  /** One chunk a cycle, none wider than the bandwidth; the next one not before `next`. */
  ghost predicate Paced(emitted: seq<Emission>, next: int, bw: pos) {
    emitted == [] ||
    (var last := emitted[|emitted| - 1];
     last.cycle < next && last.sub.size <= bw && Paced(emitted[..|emitted| - 1], last.cycle, bw))
  }

  /** Bytes of the chunks whose cycle is in `[t, t + n)`. */
  function WindowBytes(emitted: seq<Emission>, t: int, n: nat): nat {
    if emitted == [] then 0
    else
      var last := emitted[|emitted| - 1];
      WindowBytes(emitted[..|emitted| - 1], t, n) + (if t <= last.cycle < t + n then last.sub.size else 0)
  }

  /** Over any window of `n` cycles, at most `n` times the bandwidth is offered for the first time. */
  lemma {:induction false} WindowBound(emitted: seq<Emission>, next: int, bw: pos, t: int, n: nat)
    requires Paced(emitted, next, bw)
    ensures WindowBytes(emitted, t, n) <= Times(n, bw)
  {
    if emitted != [] {
      var last, rest := emitted[|emitted| - 1], emitted[..|emitted| - 1];
      WindowBound(rest, last.cycle, bw, t, n);
      if t <= last.cycle < t + n {
        var m := last.cycle - t;
        WindowShrinks(rest, last.cycle, bw, t, n, m);
        WindowBound(rest, last.cycle, bw, t, m);
        TimesNext(m, bw);
        TimesMonotone(m + 1, n, bw);
      }
    }
  }

  /** Emissions before `t + m` do not notice the rest of the window. */
  lemma {:induction false} WindowShrinks(emitted: seq<Emission>, next: int, bw: pos, t: int, n: nat, m: nat)
    requires Paced(emitted, next, bw) && next <= t + m && m <= n
    ensures WindowBytes(emitted, t, n) == WindowBytes(emitted, t, m)
  {
    if emitted != [] {
      WindowShrinks(emitted[..|emitted| - 1], emitted[|emitted| - 1].cycle, bw, t, n, m);
    }
  }

  /**
    Chunk by chunk, the output took what it was offered, no earlier than it was first offered, and before the
    next one was; all by cycle `until`.
   */
  ghost predicate Paired(emitted: seq<Emission>, taken: seq<Emission>, until: int) {
    if emitted == [] || taken == [] then emitted == [] && taken == []
    else
      var n, m := |emitted| - 1, |taken| - 1;
      && emitted[n].sub == taken[m].sub && emitted[n].cycle <= taken[m].cycle <= until
      && Paired(emitted[..n], taken[..m], emitted[n].cycle)
  }

  /** Bytes that the output took in the cycles `[t, t + n)` although they were first offered before. */
  function LateBytes(emitted: seq<Emission>, taken: seq<Emission>, t: int, n: nat): nat {
    if emitted == [] || taken == [] then 0
    else
      var e, a := emitted[|emitted| - 1], taken[|taken| - 1];
      LateBytes(emitted[..|emitted| - 1], taken[..|taken| - 1], t, n)
      + (if e.cycle < t <= a.cycle < t + n then a.sub.size else 0)
  }

  lemma {:induction false} NothingAfter(emitted: seq<Emission>, taken: seq<Emission>, until: int, t: int, n: nat)
    requires Paired(emitted, taken, until) && until < t
    ensures WindowBytes(taken, t, n) == 0 && LateBytes(emitted, taken, t, n) == 0
  {
    if taken != [] {
      NothingAfter(emitted[..|emitted| - 1], taken[..|taken| - 1], emitted[|emitted| - 1].cycle, t, n);
    }
  }

  /** What the output takes in a window was first offered in it, but for at most one chunk. */
  lemma {:induction false} TakenBound(emitted: seq<Emission>, taken: seq<Emission>, until: int, next: int, bw: pos,
                                      t: int, n: nat)
    requires Paired(emitted, taken, until) && Paced(emitted, next, bw)
    ensures WindowBytes(taken, t, n) <= WindowBytes(emitted, t, n) + LateBytes(emitted, taken, t, n)
    ensures LateBytes(emitted, taken, t, n) <= bw
  {
    if taken != [] {
      var e, a := emitted[|emitted| - 1], taken[|taken| - 1];
      var rest, rest' := emitted[..|emitted| - 1], taken[..|taken| - 1];
      TakenBound(rest, rest', e.cycle, e.cycle, bw, t, n);
      if e.cycle < t { NothingAfter(rest, rest', e.cycle, t, n); }
    }
  }

  lemma {:induction false} PairedSubs(emitted: seq<Emission>, taken: seq<Emission>, until: int)
    requires Paired(emitted, taken, until)
    ensures Subs(emitted) == Subs(taken)
  {
    if taken != [] {
      PairedSubs(emitted[..|emitted| - 1], taken[..|taken| - 1], emitted[|emitted| - 1].cycle);
    }
  }

  // ---------------------------------------------------------------- sums over chunks, histories

  /** Bytes of request `k` in `subs`. */
  function BytesOf(subs: seq<Sub>, k: nat): nat {
    if subs == [] then 0
    else BytesOf(subs[..|subs| - 1], k) + (if subs[|subs| - 1].parent == k then subs[|subs| - 1].size else 0)
  }

  function Without(subs: seq<Sub>, i: nat): seq<Sub>
    requires i < |subs|
  {
    subs[..i] + subs[i + 1..]
  }

  lemma {:induction false} BytesWithout(subs: seq<Sub>, i: nat, k: nat)
    requires i < |subs|
    ensures BytesOf(subs, k) == BytesOf(Without(subs, i), k) + (if subs[i].parent == k then subs[i].size else 0)
  {
    var n := |subs| - 1;
    if i == n {
      assert Without(subs, i) == subs[..n];
    } else {
      BytesWithout(subs[..n], i, k);
      assert Without(subs, i)[..n - 1] == Without(subs[..n], i);
      assert Without(subs, i)[n - 1] == subs[n];
    }
  }

  lemma BytesAppend(subs: seq<Sub>, sub: Sub, k: nat)
    ensures BytesOf(subs + [sub], k) == BytesOf(subs, k) + (if sub.parent == k then sub.size else 0)
  {
    assert (subs + [sub])[..|subs|] == subs;
  }

  /** INVALID iff some chunk of request `k` completed so. */
  function WorstOf(settled: seq<Settle>, k: nat): RespStatus {
    if settled == [] then Ok
    else
      var last := settled[|settled| - 1];
      if last.sub.parent == k && last.resp == Invalid then Invalid else WorstOf(settled[..|settled| - 1], k)
  }

  /** How often request `k` has been answered. */
  function Responses(upstream: seq<Upstream>, k: nat): nat {
    if upstream == [] then 0
    else Responses(upstream[..|upstream| - 1], k) + (if upstream[|upstream| - 1] == Resp(k) then 1 else 0)
  }

  lemma ResponsesAppend(upstream: seq<Upstream>, u: Upstream, k: nat)
    ensures Responses(upstream + [u], k) == Responses(upstream, k) + (if u == Resp(k) then 1 else 0)
  {
    assert (upstream + [u])[..|upstream|] == upstream;
  }

  // ---------------------------------------------------------------- steps

  function Admitted(s: State, req: Request): State {
    s.(pending := Some(|s.reqs|), pendingSize := req.size, pendingAddr := req.addr, pendingData := 0,
       reqs := s.reqs + [req], parents := s.parents + [Parent(req.size, Ok, false)],
       armed := if s.armed.Some? then s.armed else Some(s.time + 1))
  }

  function NextSub(s: State, bw: pos): Sub
    requires s.pending.Some? && s.pending.value < |s.reqs|
  {
    Sub(s.pending.value, s.pendingAddr, Min(s.pendingSize, bw), s.pendingData, s.reqs[s.pending.value].opcode)
  }

  /** A fresh chunk is cut and offered to the output. */
  function Emitted(s: State, bw: pos): State
    requires s.pending.Some? && s.pending.value < |s.reqs|
  {
    var sub := NextSub(s, bw);
    s.(pendingAddr := s.pendingAddr + sub.size, pendingData := s.pendingData + sub.size,
       pendingSize := s.pendingSize - sub.size,
       nextTimestamp := s.time + 1, pending := if s.pendingSize == sub.size then None else s.pending,
       emitted := s.emitted + [Emission(s.time, sub)], granted := s.granted + [sub],
       taken := s.taken + [Emission(s.time, sub)])
  }

  /** The output refuses the chunk just offered. */
  function Refused(s: State): State
    requires |s.granted| > 0 && |s.taken| > 0
  {
    var n := |s.granted| - 1;
    s.(denied := Some(s.granted[n]), granted := s.granted[..n], taken := s.taken[..|s.taken| - 1])
  }

  /** The refused chunk is offered again. */
  function Resent(s: State): State
    requires s.denied.Some?
  {
    s.(denied := None, granted := s.granted + [s.denied.value], taken := s.taken + [Emission(s.time, s.denied.value)])
  }

  /** A retry is sent if one is owed and nothing is in emission. */
  function RetryPaid(s: State): State {
    if s.pending.None? && s.needsRetry then s.(needsRetry := false, upstream := s.upstream + [Retry]) else s
  }

  /** A chunk completes, before the retry owed is paid. */
  function Settled(s: State, i: nat, resp: RespStatus): State
    requires i < |s.granted| && s.granted[i].parent < |s.parents|
  {
    var sub := s.granted[i];
    var p := s.parents[sub.parent];
    var left := p.remaining - sub.size;
    var p' := Parent(left, if resp == Invalid then Invalid else p.status, p.answered || left == 0);
    s.(parents := s.parents[sub.parent := p'], granted := Without(s.granted, i),
       settled := s.settled + [Settle(sub, resp)],
       upstream := if left != 0 then s.upstream else s.upstream + [Resp(sub.parent)])
  }

  /** Chunk `i` at the output completes; with the last byte of its request, the request is answered. */
  function Finished(s: State, i: nat, resp: RespStatus): State
    requires i < |s.granted| && s.granted[i].parent < |s.parents|
  {
    var s' := Settled(s, i, resp);
    if s'.parents[s.granted[i].parent].remaining != 0 then s' else RetryPaid(s')
  }

  // ---------------------------------------------------------------- the invariant

  function Unemitted(s: State, k: nat): nat {
    if s.pending == Some(k) then s.pendingSize else 0
  }

  function Refusal(s: State): seq<Sub> {
    if s.denied.Some? then [s.denied.value] else []
  }

  /** The request in emission is the last one accepted, and what is left of it is its tail. */
  ghost predicate Position(s: State, bw: pos) {
    && |s.parents| == |s.reqs| && (forall k :: 0 <= k < |s.reqs| ==> s.reqs[k].size > 0 || s.pending == Some(k))
    && (s.pending.Some? ==>
          && s.pending.value == |s.reqs| - 1 && Rem(s.pendingData, bw) == 0
          && (s.pendingSize == 0 ==> s.reqs[s.pending.value].size == 0)
          && var req := s.reqs[s.pending.value];
             s.pendingAddr == req.addr + s.pendingData && s.pendingData + s.pendingSize == req.size)
  }

  /** The chunks emitted are the pieces of the requests, in order, one a cycle. */
  ghost predicate InOrder(s: State, bw: pos) {
    && (if s.pending.Some? then PiecesUpTo(Subs(s.emitted), s.reqs, s.pending.value, s.pendingData, bw)
        else PiecesUpTo(Subs(s.emitted), s.reqs, |s.reqs|, 0, bw))
    && Paced(s.emitted, s.nextTimestamp, bw)
  }

  /** The output has taken all chunks offered, in order, but for a refused one. */
  ghost predicate Timed(s: State) {
    if s.denied.None? then Paired(s.emitted, s.taken, s.time)
    else
      && s.emitted != []
      && var n := |s.emitted| - 1;
         && s.emitted[n].sub == s.denied.value && s.emitted[n].cycle <= s.time
         && Paired(s.emitted[..n], s.taken, s.emitted[n].cycle)
  }

  /**
    One accepted request: bytes not emitted plus bytes outstanding are what remains; it is answered once, when
    nothing does, and never if it was empty.
   */
  ghost predicate Accounted(s: State, k: nat)
    requires k < |s.parents| && k < |s.reqs|
  {
    var p := s.parents[k];
    && p.remaining == Unemitted(s, k) + BytesOf(s.granted, k) + BytesOf(Refusal(s), k)
    && p.status == WorstOf(s.settled, k)
    && p.answered == (p.remaining == 0 && s.reqs[k].size > 0)
    && Responses(s.upstream, k) == (if p.answered then 1 else 0)
  }

  ghost predicate IsChunk(s: State, sub: Sub) {
    sub.parent < |s.parents| && sub.parent < |s.reqs| && sub.size > 0 && s.reqs[sub.parent].size > 0
  }

  ghost predicate Ledger(s: State) {
    && |s.parents| == |s.reqs| && (forall k :: 0 <= k < |s.parents| ==> Accounted(s, k))
    && (forall i :: 0 <= i < |s.granted| ==> IsChunk(s, s.granted[i]))
    && (s.denied.Some? ==> IsChunk(s, s.denied.value))
    && (forall i :: 0 <= i < |s.settled| ==> s.settled[i].sub.parent < |s.parents|)
    && (forall k: nat :: k >= |s.parents| ==> Responses(s.upstream, k) == 0)
  }

  /** No lost wake-up: a retry owed will be paid, and emission left to do is scheduled unless a refusal blocks it. */
  ghost predicate Awake(s: State) {
    && (s.needsRetry ==> s.pending.Some? || s.denied.Some? || s.granted != [])
    && (s.pending.Some? && s.pendingSize > 0 && s.denied.None? ==> s.armed.Some?)
    && (s.armed.Some? ==> s.time <= s.armed.value)
  }

  ghost predicate Inv(s: State, bw: pos) {
    Position(s, bw) && InOrder(s, bw) && Timed(s) && Ledger(s) && Awake(s)
  }

  /** The invariant but for the event that is being handled. */
  ghost predicate InvUnarmed(s: State, bw: pos) {
    && Position(s, bw) && InOrder(s, bw) && Timed(s) && Ledger(s)
    && (s.armed.Some? ==> s.time <= s.armed.value)
    && (s.needsRetry ==> s.pending.Some? || s.denied.Some? || s.granted != [])
  }

  lemma InitialInv(bw: pos)
    ensures Inv(INITIAL, bw)
  {}

  lemma {:induction false} NoBytes(subs: seq<Sub>, k: nat)
    requires forall i :: 0 <= i < |subs| ==> subs[i].parent != k
    ensures BytesOf(subs, k) == 0
  {
    if subs != [] { NoBytes(subs[..|subs| - 1], k); }
  }

  lemma {:induction false} NoSettle(settled: seq<Settle>, k: nat)
    requires forall i :: 0 <= i < |settled| ==> settled[i].sub.parent != k
    ensures WorstOf(settled, k) == Ok
  {
    if settled != [] { NoSettle(settled[..|settled| - 1], k); }
  }

  lemma AdmitKeeps(s: State, req: Request, bw: pos)
    requires Inv(s, bw) && s.pending.None?
    ensures Inv(Admitted(s, req), bw)
  {
    var s' := Admitted(s, req);
    PiecesReqsGrow(Subs(s.emitted), s.reqs, |s.reqs|, 0, bw, req);
    QuotUnfold(0, bw);
    var k0 := |s.reqs|;
    NoBytes(s.granted, k0);
    NoSettle(s.settled, k0);
    forall k | 0 <= k < |s'.parents| ensures Accounted(s', k) {
      if k < k0 { assert Accounted(s, k); }
    }
  }

  // ---------------------------------------------------------------- emission

  /** There is a next chunk and nothing stands in its way. */
  ghost predicate CanEmit(s: State) {
    s.pending.Some? && s.pendingSize > 0 && s.denied.None? && s.nextTimestamp <= s.time
  }

  lemma EmitOrder(s: State, bw: pos)
    requires Position(s, bw) && InOrder(s, bw) && CanEmit(s)
    ensures Position(Emitted(s, bw), bw) && InOrder(Emitted(s, bw), bw)
  {
    var sub, s' := NextSub(s, bw), Emitted(s, bw);
    var k := s.pending.value;
    PiecesAppend(Subs(s.emitted), s.reqs, k, s.pendingData, bw, sub);
    assert s'.emitted[..|s.emitted|] == s.emitted;
    assert Subs(s'.emitted) == Subs(s.emitted) + [sub];
    PacedLater(s.emitted, s.nextTimestamp, s.time, bw);
    if s'.pending.Some? { NextMultiple(s.pendingData, bw); }
  }

  lemma EmitTimed(s: State, bw: pos)
    requires Timed(s) && s.pending.Some? && s.pending.value < |s.reqs| && s.denied.None?
    ensures Timed(Emitted(s, bw))
  {
    var s' := Emitted(s, bw);
    assert s'.emitted[..|s.emitted|] == s.emitted && s'.taken[..|s.taken|] == s.taken;
  }

  lemma NextMultiple(d: nat, bw: pos)
    requires Rem(d, bw) == 0
    ensures Rem(d + bw, bw) == 0
  {
    QuotUnfold(d + bw, bw);
  }

  lemma PacedLater(emitted: seq<Emission>, next: int, later: int, bw: pos)
    requires Paced(emitted, next, bw) && next <= later
    ensures Paced(emitted, later, bw)
  {}

  lemma EmitLedger(s: State, bw: pos)
    requires Position(s, bw) && Ledger(s) && CanEmit(s)
    ensures Ledger(Emitted(s, bw))
  {
    var sub, s' := NextSub(s, bw), Emitted(s, bw);
    forall k | 0 <= k < |s'.parents| ensures Accounted(s', k) {
      assert Accounted(s, k);
      BytesAppend(s.granted, sub, k);
    }
  }

  lemma EmitKeeps(s: State, bw: pos)
    requires InvUnarmed(s, bw) && CanEmit(s)
    ensures InvUnarmed(Emitted(s, bw), bw)
  {
    EmitOrder(s, bw);
    EmitTimed(s, bw);
    EmitLedger(s, bw);
  }

  lemma RefuseTimed(s: State)
    requires Timed(s) && s.denied.None? && |s.granted| > 0 && |s.taken| > 0
    requires s.granted[|s.granted| - 1] == s.taken[|s.taken| - 1].sub
    ensures Timed(Refused(s))
  {}

  /** The chunk last offered is refused. */
  lemma RefuseKeeps(s: State, bw: pos)
    requires InvUnarmed(s, bw) && s.denied.None? && |s.granted| > 0 && |s.taken| > 0
    requires s.granted[|s.granted| - 1] == s.taken[|s.taken| - 1].sub
    ensures InvUnarmed(Refused(s), bw)
  {
    var s' := Refused(s);
    RefuseTimed(s);
    forall k | 0 <= k < |s'.parents| ensures Accounted(s', k) {
      assert Accounted(s, k);
      assert Refusal(s')[..0] == [];
    }
  }

  lemma ResendTimed(s: State)
    requires Timed(s) && s.denied.Some?
    ensures Timed(Resent(s))
  {
    assert Resent(s).taken[..|s.taken|] == s.taken;
  }

  lemma ResendKeeps(s: State, bw: pos)
    requires InvUnarmed(s, bw) && s.denied.Some?
    ensures InvUnarmed(Resent(s), bw)
  {
    var s' := Resent(s);
    ResendTimed(s);
    forall k | 0 <= k < |s'.parents| ensures Accounted(s', k) {
      assert Accounted(s, k);
      BytesAppend(s.granted, s.denied.value, k);
      assert Refusal(s)[..0] == [];
    }
  }

  // ---------------------------------------------------------------- completion

  /** Taking one byte range off what remains. */
  lemma SettleAccounts(s: State, s': State, i: nat, resp: RespStatus, k: nat)
    requires |s.parents| == |s.reqs| && s'.reqs == s.reqs && k < |s.parents| && Accounted(s, k)
    requires i < |s.granted| && IsChunk(s, s.granted[i])
    requires |s'.parents| == |s.parents| && s'.granted == Without(s.granted, i)
    requires s'.settled == s.settled + [Settle(s.granted[i], resp)]
    requires s'.denied == s.denied && s'.pending == s.pending && s'.pendingSize == s.pendingSize
    requires var sub := s.granted[i];
             var p := s.parents[sub.parent];
             s'.parents ==
               s.parents[sub.parent := Parent(p.remaining - sub.size, if resp == Invalid then Invalid else p.status,
                                              p.answered || p.remaining - sub.size == 0)]
    requires Responses(s'.upstream, k) == Responses(s.upstream, k)
               + (if k == s.granted[i].parent && s'.parents[k].remaining == 0 then 1 else 0)
    ensures Accounted(s', k)
  {
    BytesWithout(s.granted, i, k);
    assert s'.settled[..|s.settled|] == s.settled;
  }

  lemma PayLedger(s: State)
    requires Ledger(s)
    ensures Ledger(RetryPaid(s))
  {
    var s' := RetryPaid(s);
    forall k: nat ensures Responses(s'.upstream, k) == Responses(s.upstream, k) {
      ResponsesAppend(s.upstream, Retry, k);
    }
    forall k | 0 <= k < |s'.parents| ensures Accounted(s', k) {
      assert Accounted(s, k);
    }
  }

  lemma SettledResponses(s: State, i: nat, resp: RespStatus, k: nat)
    requires i < |s.granted| && s.granted[i].parent < |s.parents|
    ensures var s' := Settled(s, i, resp);
            var j := s.granted[i].parent;
            Responses(s'.upstream, k) ==
              Responses(s.upstream, k) + (if s'.parents[j].remaining == 0 && k == j then 1 else 0)
  {
    ResponsesAppend(s.upstream, Resp(s.granted[i].parent), k);
  }

  lemma SettledLedger(s: State, i: nat, resp: RespStatus)
    requires Ledger(s) && i < |s.granted|
    ensures Ledger(Settled(s, i, resp))
  {
    var s' := Settled(s, i, resp);
    forall k | 0 <= k < |s.parents| ensures Accounted(s', k) {
      assert Accounted(s, k);
      SettledResponses(s, i, resp, k);
      SettleAccounts(s, s', i, resp, k);
    }
    forall k: nat | k >= |s.parents| ensures Responses(s'.upstream, k) == 0 {
      SettledResponses(s, i, resp, k);
    }
  }

  lemma FinishLedger(s: State, i: nat, resp: RespStatus)
    requires Ledger(s) && i < |s.granted|
    ensures Ledger(Finished(s, i, resp))
  {
    SettledLedger(s, i, resp);
    PayLedger(Settled(s, i, resp));
  }

  /** Bytes that remain are in emission, at the output, or refused. */
  lemma OutstandingSomewhere(s: State, k: nat)
    requires k < |s.parents| && k < |s.reqs| && Accounted(s, k) && s.parents[k].remaining > 0
    ensures s.pending.Some? || s.denied.Some? || s.granted != []
  {}

  lemma FinishKeeps(s: State, i: nat, resp: RespStatus, bw: pos)
    requires InvUnarmed(s, bw) && i < |s.granted|
    ensures InvUnarmed(Finished(s, i, resp), bw)
  {
    FinishLedger(s, i, resp);
    var s', k := Finished(s, i, resp), s.granted[i].parent;
    assert Accounted(s, k);
    BytesWithout(s.granted, i, k);
    if s'.needsRetry && s'.pending.None? {
      assert Accounted(s', k);
      OutstandingSomewhere(s', k);
    }
  }

  // ---------------------------------------------------------------- the callbacks as steps

  /** After a chunk has been taken: schedule the next one, or pay the retry owed. */
  function Rescheduled(s: State): State {
    if s.pending.Some? && s.pendingSize > 0 then s.(armed := Some(s.time + 1)) else RetryPaid(s)
  }

  /** The output's answer to the chunk it was offered last. */
  function Taken(s: State, a: Answer): State
    requires |s.granted| > 0 && s.granted[|s.granted| - 1].parent < |s.parents|
  {
    if a.status == Done then Finished(s, |s.granted| - 1, a.resp) else s
  }

  /** The request in emission, and that of a refused chunk, are ones that were accepted. */
  ghost predicate Known(s: State) {
    && (s.pending.Some? ==> s.pending.value < |s.reqs| == |s.parents|)
    && (s.denied.Some? ==> s.denied.value.parent < |s.parents|)
  }

  /** The emission event fires; `a` is the output's answer should a chunk go out. */
  function Ticked(s: State, a: Answer, bw: pos): State
    requires Known(s)
  {
    var s0 := s.(armed := None);
    if s.denied.Some? || s.pending.None? || s.pendingSize == 0 then s0
    else if s.nextTimestamp > s.time then s0.(armed := Some(s.nextTimestamp))
    else
      var e := Emitted(s0, bw);
      if a.status == Denied then Refused(e) else Rescheduled(Taken(e, a))
  }

  /** Emission left to do is scheduled. */
  function Woken(s: State): State {
    if s.pending.Some? && s.pendingSize > 0 && s.armed.None? then s.(armed := Some(s.time + 1)) else s
  }

  /** The output can accept requests again. */
  function Retried(s: State, a: Answer): State
    requires Known(s)
  {
    if s.denied.None? then s
    else
      var r := Resent(s);
      if a.status == Denied then Refused(r)
      else
        Woken(Taken(r, a))
  }

  lemma ArmKeeps(s: State, armed: Option<int>, bw: pos)
    requires InvUnarmed(s, bw) && (armed.Some? ==> s.time <= armed.value)
    ensures InvUnarmed(s.(armed := armed), bw)
  {
    var t := s.(armed := armed);
    forall k | 0 <= k < |t.parents| ensures Accounted(t, k) { assert Accounted(s, k); }
  }

  lemma TakenKeeps(s: State, a: Answer, bw: pos)
    requires InvUnarmed(s, bw) && |s.granted| > 0
    ensures InvUnarmed(Taken(s, a), bw)
  {
    if a.status == Done { FinishKeeps(s, |s.granted| - 1, a.resp, bw); }
  }

  lemma RescheduleKeeps(s: State, bw: pos)
    requires InvUnarmed(s, bw)
    ensures Inv(Rescheduled(s), bw)
  {
    if s.pending.Some? && s.pendingSize > 0 { ArmKeeps(s, Some(s.time + 1), bw); } else { PayKeeps(s, bw); }
  }

  lemma PayKeeps(s: State, bw: pos)
    requires InvUnarmed(s, bw) && !(s.pending.Some? && s.pendingSize > 0)
    ensures Inv(RetryPaid(s), bw)
  {
    PayLedger(s);
  }

  lemma EmitThenRefuseKeeps(s: State, bw: pos)
    requires InvUnarmed(s, bw) && CanEmit(s)
    ensures Inv(Refused(Emitted(s, bw)), bw)
  {
    EmitKeeps(s, bw);
    RefuseKeeps(Emitted(s, bw), bw);
  }

  lemma EmitThenTakeKeeps(s: State, a: Answer, bw: pos)
    requires InvUnarmed(s, bw) && CanEmit(s)
    ensures Inv(Rescheduled(Taken(Emitted(s, bw), a)), bw)
  {
    EmitKeeps(s, bw);
    TakenKeeps(Emitted(s, bw), a, bw);
    RescheduleKeeps(Taken(Emitted(s, bw), a), bw);
  }

  lemma TickKeeps(s: State, a: Answer, bw: pos)
    requires Inv(s, bw)
    ensures Known(s) && Inv(Ticked(s, a, bw), bw)
  {
    var s0 := s.(armed := None);
    ArmKeeps(s, None, bw);
    if s.denied.None? && s.pending.Some? && s.pendingSize > 0 {
      if s.nextTimestamp > s.time {
        ArmKeeps(s0, Some(s.nextTimestamp), bw);
      } else if a.status == Denied {
        EmitThenRefuseKeeps(s0, bw);
      } else {
        EmitThenTakeKeeps(s0, a, bw);
      }
    }
  }

  lemma WakeKeeps(s: State, bw: pos)
    requires InvUnarmed(s, bw)
    ensures Inv(Woken(s), bw)
  {
    if s.pending.Some? && s.pendingSize > 0 && s.armed.None? { ArmKeeps(s, Some(s.time + 1), bw); }
  }

  lemma ResendThenTakeKeeps(s: State, a: Answer, bw: pos)
    requires InvUnarmed(s, bw) && s.denied.Some?
    ensures Inv(Woken(Taken(Resent(s), a)), bw)
  {
    ResendKeeps(s, bw);
    TakenKeeps(Resent(s), a, bw);
    WakeKeeps(Taken(Resent(s), a), bw);
  }

  lemma RetryKeeps(s: State, a: Answer, bw: pos)
    requires Inv(s, bw)
    ensures Known(s) && Inv(Retried(s, a), bw)
    ensures a.status == Denied ==> Retried(s, a) == s
  {
    if s.denied.Some? {
      ResentThenRefused(s);
      if a.status != Denied { ResendThenTakeKeeps(s, a, bw); }
    }
  }

  lemma ResentThenRefused(s: State)
    requires s.denied.Some?
    ensures Refused(Resent(s)) == s
  {}

  /** A callback runs at cycle `now`: the clock does not run backwards, nor past an event that is due. */
  predicate InTime(s: State, now: int) {
    s.time <= now && (s.armed.Some? ==> now <= s.armed.value)
  }

  lemma {:induction false} PairedLater(emitted: seq<Emission>, taken: seq<Emission>, until: int, later: int)
    requires Paired(emitted, taken, until) && until <= later
    ensures Paired(emitted, taken, later)
  {}

  lemma TimePasses(s: State, now: int, bw: pos)
    requires Inv(s, bw) && InTime(s, now)
    ensures Inv(s.(time := now), bw)
  {
    var t := s.(time := now);
    if s.denied.None? { PairedLater(s.emitted, s.taken, s.time, now); }
    forall k | 0 <= k < |t.parents| ensures Accounted(t, k) { assert Accounted(s, k); }
  }

  // ---------------------------------------------------------------- whole runs

  /** What can happen to a limiter: `i` numbers the chunks at the output, `a` is the output's answer. */
  datatype Event =
    | Req(req: Request, now: int)
    | Tick(answer: Answer)
    | Respond(i: nat, resp: RespStatus)
    | RetryIn(now: int, answer: Answer)

  /** A request arrives: refused while there is one in emission. */
  function Requested(s: State, req: Request): State {
    if s.pending.Some? then s.(needsRetry := true) else Admitted(s, req)
  }

  /** Chunks at the output belong to accepted requests. */
  ghost predicate Safe(s: State) {
    Known(s) && forall i :: 0 <= i < |s.granted| ==> s.granted[i].parent < |s.parents|
  }

  /**
    One event; one that is out of time, a response for a chunk that is not at the output, or a tick when none is
    due, does not occur.
   */
  function Applied(s: State, e: Event, bw: pos): State
    requires Safe(s)
  {
    match e
    case Req(req, now) => if InTime(s, now) then Requested(s.(time := now), req) else s
    case Tick(a) => if s.armed.Some? then Ticked(s.(time := s.armed.value), a, bw) else s
    case Respond(i, resp) => if i < |s.granted| then Finished(s, i, resp) else s
    case RetryIn(now, a) => if InTime(s, now) then Retried(s.(time := now), a) else s
  }

  lemma ApplyKeeps(s: State, e: Event, bw: pos)
    requires Inv(s, bw)
    ensures Safe(s) && Inv(Applied(s, e, bw), bw)
  {
    match e
    case Req(req, now) =>
      if InTime(s, now) {
        TimePasses(s, now, bw);
        RequestKeeps(s.(time := now), req, bw);
      }
    case Tick(a) =>
      if s.armed.Some? {
        TimePasses(s, s.armed.value, bw);
        TickKeeps(s.(time := s.armed.value), a, bw);
      }
    case Respond(i, resp) =>
      if i < |s.granted| { RespondKeeps(s, i, resp, bw); }
    case RetryIn(now, a) =>
      if InTime(s, now) {
        TimePasses(s, now, bw);
        RetryKeeps(s.(time := now), a, bw);
      }
  }

  function Step(s: State, e: Event, bw: pos): (s': State)
    requires Inv(s, bw)
    ensures Inv(s', bw)
  {
    ApplyKeeps(s, e, bw);
    Applied(s, e, bw)
  }

  lemma RequestKeeps(s: State, req: Request, bw: pos)
    requires Inv(s, bw)
    ensures Inv(Requested(s, req), bw)
  {
    if s.pending.Some? {
      var s0 := s.(needsRetry := true);
      forall k | 0 <= k < |s0.parents| ensures Accounted(s0, k) { assert Accounted(s, k); }
    } else {
      AdmitKeeps(s, req, bw);
    }
  }

  lemma RespondKeeps(s: State, i: nat, resp: RespStatus, bw: pos)
    requires Inv(s, bw) && i < |s.granted|
    ensures Inv(Finished(s, i, resp), bw)
  {
    FinishKeeps(s, i, resp, bw);
  }

  function RunFrom(s: State, events: seq<Event>, bw: pos): (s': State)
    requires Inv(s, bw)
    ensures Inv(s', bw)
    decreases |events|
  {
    if events == [] then s else RunFrom(Step(s, events[0], bw), events[1..], bw)
  }

  function Run(events: seq<Event>, bw: pos): (s: State)
    ensures Inv(s, bw)
  {
    InitialInv(bw);
    RunFrom(INITIAL, events, bw)
  }

  /** The first offers of the chunks that the output has taken. */
  function Offers(s: State): seq<Emission> {
    if s.denied.Some? && s.emitted != [] then s.emitted[..|s.emitted| - 1] else s.emitted
  }

  /**
    The bandwidth on the output's side: over any window of `n` cycles it takes at most `n` times the bandwidth
    and one chunk more, and that only if the chunk was first offered, and refused, before the window.
   */
  lemma TakenInWindow(s: State, bw: pos, t: int, n: nat)
    requires Inv(s, bw)
    ensures var late := LateBytes(Offers(s), s.taken, t, n);
            WindowBytes(s.taken, t, n) <= Times(n, bw) + late && late <= bw
  {
    if s.denied.Some? {
      var m := |s.emitted| - 1;
      TakenBound(s.emitted[..m], s.taken, s.emitted[m].cycle, s.emitted[m].cycle, bw, t, n);
      WindowBound(s.emitted[..m], s.emitted[m].cycle, bw, t, n);
    } else {
      TakenBound(s.emitted, s.taken, s.time, s.nextTimestamp, bw, t, n);
      WindowBound(s.emitted, s.nextTimestamp, bw, t, n);
    }
  }

  lemma TakenOrder(s: State, bw: pos)
    requires Inv(s, bw)
    ensures Subs(s.emitted) == Subs(s.taken) + Refusal(s)
  {
    if s.denied.Some? {
      PairedSubs(s.emitted[..|s.emitted| - 1], s.taken, s.emitted[|s.emitted| - 1].cycle);
    } else {
      PairedSubs(s.emitted, s.taken, s.time);
    }
  }

  /**
    Any run of the limiter, whatever its master and its output do: in any `n` cycles at most `n` times the
    bandwidth is offered, and at most one chunk more is taken; the output takes the requests' pieces in address
    order; each request is answered at most once and, once nothing is left to do, exactly once.
   */
  lemma AnyRun(events: seq<Event>, bw: pos, t: int, n: nat, k: nat)
    ensures var s := Run(events, bw);
            && WindowBytes(s.emitted, t, n) <= Times(n, bw)
            && WindowBytes(s.taken, t, n) <= Times(n + 1, bw)
            && Subs(s.emitted) == Subs(s.taken) + Refusal(s)
            && (s.pending.None? ==> |s.emitted| == PieceCount(s.reqs, |s.reqs|, bw))
            && Responses(s.upstream, k) <= 1
            && (k < |s.reqs| && s.pending.None? && s.denied.None? && s.granted == [] ==> Responses(s.upstream, k) == 1)
  {
    var s := Run(events, bw);
    WindowBound(s.emitted, s.nextTimestamp, bw, t, n);
    TakenInWindow(s, bw, t, n);
    TimesNext(n, bw);
    TakenOrder(s, bw);
    if s.pending.None? { AllEmitted(s, bw); }
    if k < |s.reqs| { assert Accounted(s, k); }
  }

  lemma AllEmitted(s: State, bw: pos)
    requires Inv(s, bw) && s.pending.None?
    ensures |s.emitted| == PieceCount(s.reqs, |s.reqs|, bw)
  {
    PiecesAreCeil(Subs(s.emitted), s.reqs, |s.reqs|, 0, bw);
    CeilFrom(0, 1, bw);
    TimesUnfold(0, bw);
    SubsLength(s.emitted);
  }

  lemma {:induction false} SubsLength(emitted: seq<Emission>)
    ensures |Subs(emitted)| == |emitted|
  {
    if emitted != [] { SubsLength(emitted[..|emitted| - 1]); }
  }

  // ---------------------------------------------------------------- the bandwidth is exceeded after a refusal

  const GRANT := Answer(Granted, 0, Ok)
  const DENY := Answer(Denied, 0, Ok)

  /**
    With a bandwidth of 4, a chunk refused in cycle 1 and taken in cycle 2, just before the next one: 8 bytes go
    out in cycle 2.
   */
  lemma TwoChunksInOneCycle()
    ensures var req := Request(0, 0, 4, Read);
            var events := [Req(req, 0), Tick(DENY), Req(req, 1), RetryIn(2, GRANT), Tick(GRANT)];
            WindowBytes(Run(events, 4).taken, 2, 1) == 8
  {
    var req := Request(0, 0, 4, Read);
    var e1, e2, e3, e4, e5 := Req(req, 0), Tick(DENY), Req(req, 1), RetryIn(2, GRANT), Tick(GRANT);
    InitialInv(4);
    var s1 := Accepted(INITIAL, req);
    var s2 := FirstRefused(s1);
    var s3 := Accepted(s2, req);
    var s4 := ThenTaken(s3);
    var s5 := NextTaken(s4);
    RunFive(INITIAL, e1, e2, e3, e4, e5, s1, s2, s3, s4, s5);
  }

  lemma RunFive(s0: State, e1: Event, e2: Event, e3: Event, e4: Event, e5: Event, s1: State, s2: State, s3: State,
                s4: State, s5: State)
    requires Inv(s0, 4)
    requires Safe(s0) && s1 == Applied(s0, e1, 4)
    requires Safe(s1) && s2 == Applied(s1, e2, 4)
    requires Safe(s2) && s3 == Applied(s2, e3, 4)
    requires Safe(s3) && s4 == Applied(s3, e4, 4)
    requires Safe(s4) && s5 == Applied(s4, e5, 4)
    ensures RunFrom(s0, [e1, e2, e3, e4, e5], 4) == s5
  {
    RunCons(s0, e1, [e2, e3, e4, e5], s1);
    RunCons(s1, e2, [e3, e4, e5], s2);
    RunCons(s2, e3, [e4, e5], s3);
    RunCons(s3, e4, [e5], s4);
    RunCons(s4, e5, [], s5);
  }

  /** A request is accepted. */
  lemma Accepted(s: State, req: Request) returns (t: State)
    requires Safe(s) && s.pending.None? && s.armed.None? && |s.parents| == |s.reqs| && req.size == 4
    ensures Safe(t) && t == Applied(s, Req(req, s.time), 4)
    ensures t.pending == Some(|s.reqs|) && t.pendingSize == 4 && t.armed == Some(s.time + 1)
    ensures t.time == s.time && t.nextTimestamp == s.nextTimestamp && t.denied == s.denied && t.taken == s.taken
    ensures |t.parents| == |t.reqs| && t.granted == s.granted
  {
    t := Applied(s, Req(req, s.time), 4);
  }

  /** Its chunk is refused. */
  lemma FirstRefused(s: State) returns (t: State)
    requires Safe(s) && s.pending.Some? && s.pendingSize == 4 && s.armed == Some(1) && s.nextTimestamp <= 1
             && s.denied.None?
    requires s.taken == []
    ensures Safe(t) && t == Applied(s, Tick(DENY), 4)
    ensures t.pending.None? && t.armed.None? && t.time == 1 && t.nextTimestamp == 2
    ensures t.denied.Some? && t.denied.value.size == 4 && t.taken == [] && |t.parents| == |t.reqs|
  {
    t := Applied(s, Tick(DENY), 4);
  }

  /** It is taken after all. */
  lemma ThenTaken(s: State) returns (t: State)
    requires Safe(s) && s.pending.Some? && s.pendingSize == 4 && s.armed == Some(2) && s.time == 1
             && s.nextTimestamp <= 2
    requires s.denied.Some? && s.denied.value.size == 4 && s.taken == []
    ensures Safe(t) && t == Applied(s, RetryIn(2, GRANT), 4)
    ensures t.pending == s.pending && t.pendingSize == 4 && t.armed == s.armed && t.nextTimestamp <= 2 && t.denied.None?
    ensures t.taken == [Emission(2, s.denied.value)]
  {
    t := Applied(s, RetryIn(2, GRANT), 4);
  }

  /** In the same cycle the next one is taken. */
  lemma NextTaken(s: State) returns (t: State)
    requires Safe(s) && s.pending.Some? && s.pendingSize == 4 && s.armed == Some(2) && s.nextTimestamp <= 2
             && s.denied.None?
    requires |s.taken| == 1 && s.taken[0].cycle == 2 && s.taken[0].sub.size == 4
    ensures Safe(t) && t == Applied(s, Tick(GRANT), 4) && WindowBytes(t.taken, 2, 1) == 8
  {
    t := Applied(s, Tick(GRANT), 4);
    assert |t.taken| == 2 && t.taken[1].cycle == 2 && t.taken[1].sub.size == 4;
    assert t.taken[..1] == s.taken && s.taken[..0] == [];
    assert WindowBytes(s.taken, 2, 1) == 4;
  }

  lemma RunCons(s: State, e: Event, rest: seq<Event>, t: State)
    requires Inv(s, 4) && Safe(s) && t == Applied(s, e, 4)
    ensures Inv(t, 4) && RunFrom(s, [e] + rest, 4) == RunFrom(t, rest, 4)
  {
    ApplyKeeps(s, e, 4);
    assert ([e] + rest)[1..] == rest;
  }

  // ---------------------------------------------------------------- empty requests

  /** The request in emission has nothing left to emit. */
  ghost predicate Stalled(s: State, k: nat) {
    s.pending == Some(k) && s.pendingSize == 0
  }

  /** The limiter is stalled exactly if it has accepted an empty request. */
  lemma StalledIff(events: seq<Event>, bw: pos, k: nat)
    ensures var s := Run(events, bw); Stalled(s, k) <==> k < |s.reqs| && s.reqs[k].size == 0
  {}

  lemma RetryFrame(s: State, a: Answer)
    requires Safe(s)
    ensures var t := Retried(s, a);
            t.pending == s.pending && t.pendingSize == s.pendingSize && t.emitted == s.emitted && t.reqs == s.reqs
  {}

  lemma TickFrame(s: State, a: Answer, bw: pos)
    requires Safe(s)
    ensures Ticked(s, a, bw).reqs == s.reqs
    ensures s.pendingSize == 0 ==> Ticked(s, a, bw) == s.(armed := None)
  {}

  lemma FinishFrame(s: State, i: nat, resp: RespStatus)
    requires Safe(s) && i < |s.granted|
    ensures var t := Finished(s, i, resp);
            t.pending == s.pending && t.pendingSize == s.pendingSize && t.emitted == s.emitted && t.reqs == s.reqs
  {}

  lemma StaysStalled(s: State, e: Event, bw: pos, k: nat)
    requires Safe(s) && Stalled(s, k)
    ensures var t := Applied(s, e, bw); Stalled(t, k) && t.emitted == s.emitted && t.reqs == s.reqs
  {
    match e
    case Req(req, now) =>
    case Tick(a) => if s.armed.Some? { TickFrame(s.(time := s.armed.value), a, bw); }
    case Respond(i, resp) => if i < |s.granted| { FinishFrame(s, i, resp); }
    case RetryIn(now, a) => if InTime(s, now) { RetryFrame(s.(time := now), a); }
  }

  /**
    An empty request stalls the limiter for good: whatever happens afterwards, it stays in emission and is not
    answered, nothing is emitted any more, and no request is accepted.
   */
  lemma {:induction false} EmptyStalls(s: State, more: seq<Event>, bw: pos, k: nat)
    requires Inv(s, bw) && Stalled(s, k)
    ensures var t := RunFrom(s, more, bw);
            Stalled(t, k) && t.emitted == s.emitted && t.reqs == s.reqs && Responses(t.upstream, k) == 0
    decreases |more|
  {
    if more == [] {
      assert Accounted(s, k);
    } else {
      ApplyKeeps(s, more[0], bw);
      StaysStalled(s, more[0], bw, k);
      EmptyStalls(Step(s, more[0], bw), more[1..], bw, k);
    }
  }

  lemma RequestsOf(s: State, e: Event, bw: pos)
    requires Safe(s)
    ensures var t := Applied(s, e, bw); t.reqs == s.reqs || (e.Req? && t.reqs == s.reqs + [e.req])
  {
    match e
    case Req(req, now) =>
    case Tick(a) => if s.armed.Some? { TickFrame(s.(time := s.armed.value), a, bw); }
    case Respond(i, resp) => if i < |s.granted| { FinishFrame(s, i, resp); }
    case RetryIn(now, a) => if InTime(s, now) { RetryFrame(s.(time := now), a); }
  }

  ghost predicate NonEmpty(reqs: seq<Request>) {
    forall j :: 0 <= j < |reqs| ==> reqs[j].size > 0
  }

  /** While all requests have bytes, the limiter is never stalled. */
  lemma {:induction false} NeverStalled(s: State, events: seq<Event>, bw: pos, k: nat)
    requires Inv(s, bw) && NonEmpty(s.reqs) && forall i :: 0 <= i < |events| && events[i].Req? ==>
             events[i].req.size > 0
    ensures !Stalled(RunFrom(s, events, bw), k)
    decreases |events|
  {
    if events != [] {
      ApplyKeeps(s, events[0], bw);
      RequestsOf(s, events[0], bw);
      NeverStalled(Step(s, events[0], bw), events[1..], bw, k);
    }
  }
}
